/** Jobs that reach their deadline while the clock shows 2^31 or more (`timeReached` and
    `transmitOnePendingFrame`, core/diagnostic_transport.cpp): a freshly staged frame has retry time 0,
    which the signed comparison then takes for the future. */
module DiagnosticLate {
  import opened Types
  import opened DiagnosticSpec
  import opened DiagnosticInvariant
  import opened DiagnosticProofs
  import opened DiagnosticEnding
  import opened DiagnosticCases

  /** Ticks from 2^31 on, and bystanders other than another tester's request. */
  predicate LateOnly(s: Transport, calls: seq<Call>)
    decreases |calls|
  {
    calls == [] ||
    (LateCall(s, calls[0]) && LateOnly(Step(s, calls[0]), calls[1..]))
  }

  predicate LateCall(s: Transport, c: Call) {
    if c.TickCall? then c.now >= HALF
    else Bystander(s, c) && (c.ObserveCall? && s.job.active ==> !CollidesActive(s.job, c.frame))
  }

  /** The release of the channel is staged and was never offered. */
  predicate Unsent(t: Transport) {
    && t.job.active && t.job.terminal.Some? && t.job.phase == SendDisconnect
    && t.job.pending.Some? && t.job.pending.value.retryAt == 0
  }

  lemma UnsentStays(t: Transport, c: Call)
    requires Good(t) && Unsent(t) && LateCall(t, c)
    ensures Step(t, c).job == t.job && Step(t, c).calls == t.calls
  {
    hide Good, CollidesActive, TransmitOne, RequestValid;
    match c
    case TickCall(now, answer) =>
      SendingTickIs(t, now, answer);
      TransmitDisconnect(t.(lastNow := now), answer);
    case ObserveCall(f) =>
      NotIso(t);
      assert !Tp20Takes(t, f);
    case _ =>
  }

  lemma NotIso(t: Transport)
    requires Good(t) && Unsent(t)
    ensures t.job.request.route.protocol.VwTp20?
  {
  }

  lemma {:induction false} UnsentRun(t: Transport, calls: seq<Call>)
    requires Good(t) && Unsent(t) && LateOnly(t, calls)
    ensures Run(t, calls).job == t.job && Run(t, calls).calls == t.calls
    decreases |calls|
  {
    hide Good, Step, LateCall;
    if calls != [] {
      UnsentStays(t, calls[0]);
      StepGood(t, calls[0]);
      UnsentRun(Step(t, calls[0]), calls[1..]);
    }
  }

  lemma {:induction false} IdleRun(t: Transport, calls: seq<Call>)
    requires Good(t) && !t.job.active && t.mailbox.None? && LateOnly(t, calls)
    ensures !Run(t, calls).job.active && Run(t, calls).calls == t.calls
    decreases |calls|
  {
    hide Good, Step;
    if calls != [] {
      IdleStep(t, calls[0]);
      StepGood(t, calls[0]);
      IdleRun(Step(t, calls[0]), calls[1..]);
    }
  }

  lemma IdleStep(t: Transport, c: Call)
    requires Good(t) && !t.job.active && t.mailbox.None? && LateCall(t, c)
    ensures var u := Step(t, c); !u.job.active && u.mailbox.None? && u.calls == t.calls
  {
    hide Good, RequestValid;
    if c.TickCall? { TickFacts(t, c.now, c.answer); }
  }

  /** The late deadline tick. */
  lemma LateTick(s: Transport, now: U32, answer: bool)
    requires Good(s) && s.job.active && s.job.terminal.None? && TimeReached(now, s.job.deadline) && now >= HALF
    ensures var t := Tick(s, now, answer);
      Good(t) && t.mailbox.None? && t.calls == s.calls && (if MustDisconnect(s.job) then Unsent(t) else !t.job.active)
  {
    hide Core, PhaseOk, TransmitOne, CheckLimits, MustDisconnect;
    var u := s.(lastNow := now);
    LimitEnds(u);
    LimitChannel(u);
    TickFacts(s, now, answer);
    var limited := CheckLimits(u);
    assert Repeat(limited) == limited;
    if limited.job.active { TransmitDisconnect(limited, answer); } else { NothingToSend(limited, answer); }
  }

  /** From 2^31 on a job whose deadline passes ends if and only if it has no open TP2.0 channel; the
      release of an open one is never offered, however often the transport ticks. */
  lemma LateJobEndsIff(s: Transport, calls: seq<Call>)
    requires Good(s) && s.job.active && s.job.terminal.None? && LateOnly(s, calls)
    requires calls != [] && calls[0].TickCall? && TimeReached(calls[0].now, s.job.deadline)
    ensures !Run(s, calls).job.active <==> !MustDisconnect(s.job)
    ensures Run(s, calls).calls == s.calls
  {
    hide Good, Tick, MustDisconnect;
    var t := Tick(s, calls[0].now, calls[0].answer);
    LateTick(s, calls[0].now, calls[0].answer);
    if MustDisconnect(s.job) { UnsentRun(t, calls[1..]); } else { IdleRun(t, calls[1..]); }
  }

  // ---------------------------------------------------------------- a run that gets there

  const LATE_ROUTE := Route(VwTp20, AToB, 0x200, 0x201, false, true, 0x55, 0, 2, 0x0A, 0x300, 1, 0x89, true)
  const LATE_REQUEST := Request(LATE_ROUTE, [0x1A], 0, 1, true, 1, 0)

  /** A job starts a millisecond before 2^31, with one millisecond to go, and its channel is opened. */
  const LATE_RUN: seq<Call> :=
    [SubmitCall(LATE_REQUEST), TickCall(HALF - 1, true),
     ObserveCall(Frame(0x201, BToA, 7, [0x00, 0xD0, 0x00, 0x03, 0x40, 0x07, 0x01]))]

  lemma AfterNext(calls: seq<Call>, c: Call)
    ensures After(calls + [c]) == Step(After(calls), c)
  {
    hide Good, Step;
    assert (calls + [c])[..|calls|] == calls;
  }

  lemma LateState()
    ensures var s := After(LATE_RUN);
      s.job.active && s.job.terminal.None? && s.job.deadline == HALF && MustDisconnect(s.job) && s.calls == 1
  {
    hide After, Step, MustDisconnect;
    var first: seq<Call> := [LATE_RUN[0]];
    var second: seq<Call> := first + [LATE_RUN[1]];
    assert first == [] + [LATE_RUN[0]] && LATE_RUN == second + [LATE_RUN[2]];
    AfterNext([], LATE_RUN[0]);
    AfterNext(first, LATE_RUN[1]);
    AfterNext(second, LATE_RUN[2]);
    NothingYet();
    assert Step(Init(), LATE_RUN[0]) == Submit(Init(), LATE_REQUEST) by { SubmitIs(); }
    SetupSent();
    ChannelOpened(After(second));
  }

  lemma NothingYet()
    ensures After([]) == Init()
  {
  }

  lemma SubmitIs()
    ensures Step(Init(), LATE_RUN[0]) == Submit(Init(), LATE_REQUEST)
  {
  }

  /** The tick claims the job and sends its setup frame. */
  lemma SetupSent()
    ensures var s := Step(Submit(Init(), LATE_REQUEST), LATE_RUN[1]);
      && s.job.active && s.job.terminal.None? && s.job.deadline == HALF && s.calls == 1
      && s.job.phase == WaitSetup && s.job.request == LATE_REQUEST && s.job.testerId == 0
  {
    hide Tick, TickJob, TransmitOne, BeginJob;
    var queued := Submit(Init(), LATE_REQUEST);
    LateQueued();
    TickCases(queued, HALF - 1, true);
    LateBegun(queued);
    var begun := BeginJob(queued.(lastNow := HALF - 1, mailbox := None), queued.mailbox.value);
    SetupOffered(begun);
  }

  lemma LateQueued()
    ensures var queued := Submit(Init(), LATE_REQUEST);
      && !queued.job.active && queued.mailbox == Some(Command(LATE_REQUEST, 1))
      && queued.cancelId == 0 && queued.abortId == 0 && queued.calls == 0
  {
    assert CanSubmit(Init(), LATE_REQUEST);
  }

  /** The job as it is claimed. */
  predicate Claimed(s: Transport) {
    && s.job.active && s.job.terminal.None? && s.job.deadline == HALF && s.job.phase == SendSetup
    && s.job.request == LATE_REQUEST && s.job.testerId == 0 && s.job.id == 1 && s.lastNow == HALF - 1
    && s.job.pending.Some? && s.job.pending.value.retryAt == 0 && s.cancelId == 0 && s.abortId == 0 && s.calls == 0
  }

  lemma LateBegun(queued: Transport)
    requires queued.mailbox == Some(Command(LATE_REQUEST, 1))
    requires queued.cancelId == 0 && queued.abortId == 0 && queued.calls == 0
    ensures Claimed(BeginJob(queued.(lastNow := HALF - 1, mailbox := None), Command(LATE_REQUEST, 1)))
  {
  }

  lemma SetupOffered(s: Transport)
    requires Claimed(s)
    ensures var t := TickJob(s, true);
      && t.job.active && t.job.terminal.None? && t.job.deadline == HALF && t.calls == 1
      && t.job.phase == WaitSetup && t.job.request == LATE_REQUEST && t.job.testerId == 0
  {
    hide TransmitOne;
    assert CheckLimits(s) == s && Repeat(s) == s;
    SetupTransmitted(s);
  }

  lemma SetupTransmitted(s: Transport)
    requires Claimed(s)
    ensures var t := TransmitOne(s, true);
      && t.job == s.job.(pending := None, phase := WaitSetup) && t.calls == s.calls + 1
  {
    hide ApplyAfterAck, PublishedOf;
  }

  /** The positive setup reply opens the channel. */
  lemma ChannelOpened(s: Transport)
    requires s.job.active && s.job.terminal.None? && s.job.phase == WaitSetup
    requires s.job.request == LATE_REQUEST && s.job.testerId == 0
    ensures var t := Step(s, LATE_RUN[2]);
      && t.job.active && t.job.terminal.None? && t.job.deadline == s.job.deadline && MustDisconnect(t.job)
      && t.calls == s.calls
  {
    hide ObserveParams, ObserveKwp, Finalize;
    var f := LATE_RUN[2].frame;
    assert Body(f) == f.data;
    assert Tp20Takes(s, f) && SetupAccepted(f.data, LATE_ROUTE);
  }

  /** In this run the transport stays busy with a job that is over its deadline for as long as the clock
      shows 2^31 or more and no other tester appears. */
  lemma LateJobStays(calls: seq<Call>, answer: bool)
    requires LateOnly(After(LATE_RUN), [TickCall(HALF, answer)] + calls)
    ensures var t := Run(After(LATE_RUN), [TickCall(HALF, answer)] + calls); t.job.active && t.calls == 1
  {
    hide Good, After, LateOnly, MustDisconnect, Run;
    LateState();
    LateJobEndsIff(After(LATE_RUN), [TickCall(HALF, answer)] + calls);
  }
}
