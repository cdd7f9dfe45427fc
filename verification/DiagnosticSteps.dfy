/** The steps that the transport's methods put together, and what each entry point's step means for its
    caller. */
module DiagnosticSteps {
  import opened Types
  import opened DiagnosticSpec
  import opened DiagnosticInvariant
  import opened DiagnosticBuffers
  import DiagnosticCalls

  /** The staged frames fit into eight octets. */
  lemma FramesFit(r: Request)
    requires RequestValid(r)
    ensures if r.route.protocol.IsoTp? then |IsoRequestFrame(r)| <= FRAME_BYTES else |r.payload| + 3 <= FRAME_BYTES
  {
  }

  /** A telegram is numbered and then staged. */
  lemma TelegramParts(j: Job, numbered: Job, session: bool)
    requires var next := (j.txSequence + 1) % 16;
      numbered == ResetTp20(j).(expectedAck := next, txSequence := next, telegrams := j.telegrams + 1)
    ensures var payload := if session then [0x10, j.request.route.kwpSession] else j.request.payload;
      StageKwp(j, session) == StageTx(numbered, j.testerId, [0x10 + j.txSequence % 16, 0, |payload| % 256] + payload,
                                      if session then SendSession else SendRequest)
    ensures numbered.testerId == j.testerId && numbered.request == j.request && numbered.active == j.active
  {
  }

  /** The eight octets of an ISO-TP request frame. */
  lemma RequestPadded(r: Request, frame: Bytes)
    requires |frame| == FRAME_BYTES && |r.payload| < FRAME_BYTES && frame[0] == |r.payload| % 16
    requires frame[1..|r.payload| + 1] == r.payload
    requires forall k :: |r.payload| < k < FRAME_BYTES ==> frame[k] == r.route.padding
    ensures frame[..if r.route.padToEight then FRAME_BYTES else |r.payload| + 1] == IsoRequestFrame(r)
  {
    var n := |r.payload| + 1;
    assert frame[..n] == [frame[0]] + frame[1..n];
    assert frame[n..] == seq(FRAME_BYTES - n, _ => r.route.padding);
    assert frame == frame[..n] + frame[n..] && frame[..FRAME_BYTES] == frame;
  }

  /** A job is claimed and its first frame staged. */
  lemma BeginParts(s: Transport, c: Command, claimed: Job)
    requires claimed == NO_JOB.(active := true, request := c.request, id := c.id, phase := claimed.phase,
                                deadline := Later(s.lastNow, c.request.timeoutMs))
    ensures BeginJob(s, c) == Progress(s.(job :=
      if c.request.route.protocol.IsoTp?
      then StageTx(claimed, c.request.route.requestId, IsoRequestFrame(c.request), IsoSendRequest)
      else StageTx(claimed, c.request.route.requestId, SetupFrame(c.request.route), SendSetup)))
  {
  }

  /** The phase that waits for the answer to a frame. */
  function Reply(a: TxAction): Phase {
    match a
    case IsoRequest => IsoWaitResponse
    case IsoFlowControl => IsoWaitConsecutive
    case Setup => WaitSetup
    case Params => WaitParams
    case Session => WaitSessionAck
    case RequestTx => WaitRequestAck
    case ChannelTest => WaitChannelTest
    case Disconnect => WaitDisconnect
    case _ => Sending(a)
  }

  lemma ReplyPhase(a: TxAction)
    requires a != Ack
    ensures IsoPhase(Reply(a)) == IsoPhase(Sending(a))
  {
  }

  lemma SetupFits(r: Route)
    ensures |SetupFrame(r)| <= FRAME_BYTES
  {
  }

  lemma ReplyAwaited(s: Transport, a: TxAction)
    requires s.job.phase == Sending(a) && a != Ack
    ensures AfterTx(s) == s.(job := s.job.(phase := Reply(a),
      channelTestDeadline :=
        if a == ChannelTest then Later(s.lastNow, CHANNEL_TEST_TIMEOUT) else s.job.channelTestDeadline,
      disconnectDeadline :=
        if a == Disconnect then Later(s.lastNow, DISCONNECT_TIMEOUT) else s.job.disconnectDeadline))
  {
    hide ApplyAfterAck, Later;
  }

  /** A tick keeps the invariant, counts an end once, and leaves an idle transport idle. */
  lemma TickMeans(s: Transport, now: U32, answer: bool)
    requires Good(s) && DiagnosticCalls.Numbered(s)
    ensures var t := Tick(s, now, answer);
      && Good(t) && DiagnosticCalls.Numbered(t)
      && DiagnosticCalls.Ended(t) == DiagnosticCalls.Ended(s) + (if s.busy && !t.busy then 1 else 0)
      && t.submitted == s.submitted && (t.busy ==> s.busy) && (!s.busy ==> t == s.(lastNow := now))
    ensures s.mailbox.Some? ==> RequestValid(s.mailbox.value.request)
  {
    hide Tick, DiagnosticCalls.Numbered;
    var c := TickCall(now, answer);
    StepGood(s, c);
    DiagnosticCalls.StepNumbered(s, c);
    DiagnosticCalls.EndsAreCounted(s, c);
    if !s.busy { DiagnosticCalls.IdleCall(s, c); }
  }

  /** A frame keeps the invariant, counts an end once, and leaves an idle transport alone. */
  lemma ObserveMeans(s: Transport, f: Frame)
    requires Good(s) && DiagnosticCalls.Numbered(s)
    ensures var t := Observe(s, f);
      && Good(t) && DiagnosticCalls.Numbered(t)
      && DiagnosticCalls.Ended(t) == DiagnosticCalls.Ended(s) + (if s.busy && !t.busy then 1 else 0)
    ensures s.mailbox.Some? ==> RequestValid(s.mailbox.value.request)
  {
    hide Observe, DiagnosticCalls.Numbered;
    var c := ObserveCall(f);
    StepGood(s, c);
    DiagnosticCalls.StepNumbered(s, c);
    DiagnosticCalls.EndsAreCounted(s, c);
  }

  /** What a caller sees of an observed frame. */
  lemma CallerSees(s: Transport, f: Frame)
    requires Good(s)
    ensures Consumed(s, f) ==>
      && s.job.active && s.job.request.suppress && f.direction == s.job.request.route.direction.Opposite()
      && (f.id == s.job.request.route.responseId || f.id == s.job.ecuId)
    ensures (if s.job.active then CollidesActive(s.job, f)
             else s.mailbox.Some? && CollidesQueued(s.mailbox.value.request, f)) ==>
      var t := Observe(s, f);
      && !t.busy && t.published.state == Failed && t.published.error == Collision
      && t.failed == s.failed + 1 && !Consumed(s, f)
    ensures s.job.active ==>
      s.job.response <= Observe(s, f).job.response || Observe(s, f).job.response == []
    ensures s.job.active || s.job == NO_JOB
  {
    hide Consumed, Observe, CollidesActive, CollidesQueued, DiagnosticCalls.OtherTester;
    DiagnosticCalls.CollidesExactly(s, f);
    if Consumed(s, f) { DiagnosticCalls.ConsumedIsOurs(s, f); }
    if DiagnosticCalls.OtherTester(s, f) {
      DiagnosticCalls.CollisionEnds(s, f);
    }
    if s.job.active { DiagnosticCalls.AssemblyGrows(s, f); }
  }

  lemma SubmitMeans(s: Transport, r: Request)
    requires Good(s) && DiagnosticCalls.Numbered(s)
    ensures Good(Submit(s, r)) && DiagnosticCalls.Numbered(Submit(s, r))
    ensures FreshId(s.nextId) == s.submitted % (WORD - 1) + 1
  {
    StepGood(s, SubmitCall(r));
    DiagnosticCalls.StepNumbered(s, SubmitCall(r));
  }
}
