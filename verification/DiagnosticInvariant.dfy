/** What every step of the diagnostic transport keeps. */
module DiagnosticInvariant {
  import opened Types
  import opened DiagnosticSpec

  /** Phases in which a frame is waiting for the transmitter. */
  predicate SendPhase(p: Phase) {
    p == IsoSendRequest || p == IsoSendFlowControl || p == SendSetup || p == SendParams || p == SendSession ||
    p == SendRequest || p == SendAck || p == SendChannelTest || p == SendDisconnect
  }

  predicate IsoPhase(p: Phase) {
    p == IsoSendRequest || p == IsoWaitResponse || p == IsoSendFlowControl || p == IsoWaitConsecutive
  }

  predicate SetupPhase(p: Phase) {
    p == SendSetup || p == WaitSetup
  }

  predicate ParamsPhase(p: Phase) {
    p == SendParams || p == WaitParams
  }

  predicate EndingPhase(p: Phase) {
    p == SendDisconnect || p == WaitDisconnect
  }

  /** A response that reached its advertised length exactly on a final fragment. */
  predicate Whole(t: Telegram) {
    |t.bytes| == t.total && (t.lastOp == 1 || t.lastOp == 3)
  }

  ghost predicate AllWhole(ts: seq<Telegram>) {
    forall i :: 0 <= i < |ts| ==> Whole(ts[i])
  }

  predicate AssemblyWhole(j: Job) {
    Whole(Telegram(j.rxTotal, j.response, j.lastOp))
  }

  /** What holds of a running job whatever its phase. */
  ghost predicate Core(j: Job) {
    && j.active && RequestValid(j.request) && j.id > 0
    && j.txSequence == j.telegrams % 16 && (j.telegrams > 0 ==> j.expectedAck == j.telegrams % 16)
    && j.expectedRx == j.fragments % 16 && j.isoNext < 16
    && |j.response| <= MAX_RESPONSE && (j.rxStarted ==> |j.response| <= j.rxTotal <= MAX_RESPONSE)
    && j.completedRequests == |j.responses| && AllWhole(j.responses)
    && (j.channelOpen ==> j.request.route.protocol.VwTp20? && j.testerId != 0)
    && (!j.channelOpen ==> j.telegrams == 0 && j.fragments == 0 && !j.rxStarted)
    && (j.request.route.protocol.VwTp20? && !j.rxStarted ==> j.response == [])
  }

  /** What the phase says about the rest of the job. */
  predicate PhaseOk(j: Job) {
    && (j.pending.Some? <==> SendPhase(j.phase)) && (j.pending.Some? ==> j.pending.value.attempts < MAX_ATTEMPTS)
    && j.phase != NoPhase && (IsoPhase(j.phase) <==> j.request.route.protocol.IsoTp?)
    && (!IsoPhase(j.phase) && !SetupPhase(j.phase) ==> j.channelOpen)
    && (SetupPhase(j.phase) ==> !j.channelOpen)
    && (ParamsPhase(j.phase) ==> j.telegrams == 0 && j.fragments == 0)
    && (j.phase == SendSession || j.phase == SendRequest ==>
          (j.telegrams > 0 && j.pending.value.data != [] &&
           j.pending.value.data[0] as int == 0x10 + (j.telegrams - 1) % 16))
    && (j.phase == SendAck ==> j.afterAck != NoAction && (j.afterAck == RequestComplete ==> AssemblyWhole(j)))
    && (j.phase == IsoSendFlowControl || j.phase == IsoWaitConsecutive ==> |j.response| <= j.isoTotal <= MAX_RESPONSE)
    && (j.phase == IsoSendRequest || j.phase == IsoWaitResponse ==> j.response == [])
    && (j.terminal.Some? <==> EndingPhase(j.phase))
    && (j.terminal.None? ==> j.completedRequests < j.request.repeatCount)
    && (j.terminal.Some? ==> TerminalOk(j, j.terminal.value.state))
  }

  /** A job may end as complete only when all its requests are. */
  predicate TerminalOk(j: Job, state: JobState) {
    && (state == Complete || state == Failed || state == Cancelled)
    && (state == Complete ==> j.request.route.protocol.IsoTp? || j.completedRequests == j.request.repeatCount)
  }

  /** A TP2.0 job shown as complete got every response it wanted, each of them whole. */
  ghost predicate PublishedOk(p: Published) {
    p.state == Complete && p.kwp ==> p.completedRequests == p.wanted == |p.responses| && AllWhole(p.responses)
  }

  /** Every submitted job is finished, queued or running, and only one is not finished. */
  ghost predicate Balanced(s: Transport) {
    s.submitted == s.completed + s.failed + s.cancelled + (if s.busy then 1 else 0) && PublishedOk(s.published)
  }

  ghost predicate Good(s: Transport) {
    && Balanced(s)
    && (if s.job.active then Core(s.job) && PhaseOk(s.job) && s.mailbox.None? && s.busy
        else s.job == NO_JOB && (s.busy <==> s.mailbox.Some?))
    && (s.mailbox.Some? ==> RequestValid(s.mailbox.value.request) && s.mailbox.value.id > 0)
  }

  /** A running job in the middle of a step: everything but the phase is in order. */
  ghost predicate Running(s: Transport) {
    Balanced(s) && s.busy && s.mailbox.None? && Core(s.job)
  }

  /** The parts of a job that `Core` does not look at. */
  predicate SameCore(j: Job, k: Job) {
    k == j.(phase := k.phase, pending := k.pending, afterAck := k.afterAck, terminal := k.terminal,
            isoTotal := k.isoTotal, disconnectDeadline := k.disconnectDeadline, repeatAt := k.repeatAt,
            channelTestAt := k.channelTestAt, channelTestDeadline := k.channelTestDeadline,
            negative := k.negative, pendingSeen := k.pendingSeen)
  }

  lemma CoreIgnores(j: Job, k: Job)
    requires Core(j) && SameCore(j, k)
    ensures Core(k)
  {
  }

  // ---------------------------------------------------------------- ending

  lemma FinishGood(s: Transport, state: JobState, error: Error)
    requires Running(s) && TerminalOk(s.job, state)
    ensures Good(Finish(s, state, error)) && !Finish(s, state, error).job.active
  {
  }

  lemma DisconnectGood(s: Transport, t: Terminal)
    requires Running(s) && TerminalOk(s.job, t.state) && MustDisconnect(s.job)
    ensures Good(s.(job := StageTx(s.job.(terminal := Some(t)), s.job.testerId, [0xA8], SendDisconnect)))
  {
    hide Core, PublishedOk;
    var j := StageTx(s.job.(terminal := Some(t)), s.job.testerId, [0xA8], SendDisconnect);
    CoreIgnores(s.job, j);
    CoreActive(j);
  }

  lemma RequestFinishGood(s: Transport, state: JobState, error: Error)
    requires Running(s) && TerminalOk(s.job, state)
    ensures Good(RequestFinish(s, state, error))
  {
    hide Good, Finish, StageTx, MustDisconnect, TerminalOk, Core;
    CoreActive(s.job);
    if MustDisconnect(s.job) {
      DisconnectGood(s, Terminal(state, error));
    } else {
      FinishGood(s, state, error);
    }
  }

  lemma FinalizeGood(s: Transport)
    requires Running(s) && s.job.terminal.Some? && TerminalOk(s.job, s.job.terminal.value.state)
    ensures Good(Finalize(s)) && !Finalize(s).job.active
  {
  }

  lemma ProgressGood(s: Transport)
    ensures Good(s) ==> Good(Progress(s))
    ensures Progress(s).job == s.job
  {
  }

  // ---------------------------------------------------------------- telegrams

  lemma StageKwpGood(j: Job, session: bool)
    requires Core(j) && j.channelOpen && j.terminal.None? && j.completedRequests < j.request.repeatCount
    ensures Core(StageKwp(j, session)) && PhaseOk(StageKwp(j, session))
  {
    StageKwpCore(j, session);
    StageKwpPhase(j, session);
  }

  lemma StageKwpCore(j: Job, session: bool)
    requires Core(j) && j.channelOpen
    ensures Core(StageKwp(j, session))
  {
    hide RequestValid, AllWhole;
  }

  lemma StageKwpPhase(j: Job, session: bool)
    requires Core(j) && j.channelOpen && j.terminal.None? && j.completedRequests < j.request.repeatCount
    ensures PhaseOk(StageKwp(j, session))
  {
    hide RequestValid, AllWhole;
  }

  lemma CompleteKwpGood(s: Transport)
    requires Running(s) && s.job.channelOpen && s.job.terminal.None? && s.job.pending.None?
    requires s.job.completedRequests < s.job.request.repeatCount && AssemblyWhole(s.job)
    ensures Good(CompleteKwp(s))
  {
    var j := s.job.(completedRequests := s.job.completedRequests + 1,
                    responses := s.job.responses + [Telegram(s.job.rxTotal, s.job.response, s.job.lastOp)]);
    assert AllWhole(j.responses);
    if j.completedRequests >= j.request.repeatCount {
      RequestFinishGood(s.(job := j), Complete, NoError);
    }
  }

  /** Between telegrams: a job that another telegram or outcome may follow. */
  ghost predicate Open(j: Job) {
    Core(j) && j.channelOpen && j.terminal.None? && j.pending.None? && j.completedRequests < j.request.repeatCount
  }

  lemma FailGood(s: Transport, e: Error)
    requires Running(s) && Open(s.job)
    ensures Good(Fail(s, e))
  {
    hide Core, PhaseOk, PublishedOk, RequestFinish;
    RequestFinishGood(s, Failed, e);
  }

  lemma NextTelegramGood(s: Transport)
    requires Running(s) && Open(s.job)
    ensures Good(s.(job := StageKwp(s.job, false)))
  {
    hide Core, PhaseOk, PublishedOk, StageKwp;
    StageKwpGood(s.job, false);
    StageKwpShape(s.job, false);
    assert StageKwp(s.job, false).active by { CoreActive(StageKwp(s.job, false)); }
  }

  lemma CoreActive(j: Job)
    requires Core(j)
    ensures j.active
  {}

  lemma AwaitGood(s: Transport, p: Phase, reset: bool)
    requires Running(s) && Open(s.job) && (p == WaitSessionResponse || p == WaitRequestResponse)
    ensures Good(s.(job := (if reset then ResetTp20(s.job) else s.job).(phase := p)))
  {
    hide PublishedOk;
  }

  lemma ApplyAfterAckGood(s: Transport)
    requires Running(s) && Open(s.job) && s.job.afterAck != NoAction
    requires s.job.afterAck == RequestComplete ==> AssemblyWhole(s.job)
    ensures Good(ApplyAfterAck(s))
  {
    hide Core, PhaseOk, PublishedOk, CompleteKwp, Fail, StageKwp, OutcomeError, ResetTp20, Good;
    var t := s.(job := s.job.(afterAck := NoAction));
    CoreIgnores(s.job, t.job);
    match s.job.afterAck {
      case RequestComplete => CompleteKwpGood(t);
      case RequestFailed => FailGood(t, OutcomeError(t.job, UnexpectedResponse));
      case SessionFailed => FailGood(t, OutcomeError(t.job, NegotiationFailed));
      case SessionComplete => NextTelegramGood(t);
      case ThenWaitSession => AwaitGood(t, WaitSessionResponse, false);
      case ThenWaitRequest => AwaitGood(t, WaitRequestResponse, false);
      case RequestPending => AwaitGood(t, WaitRequestResponse, true);
    }
  }

  lemma ValidatedOpen(j: Job, session: bool)
    requires Open(j)
    ensures Open(Validated(j, session)) && SameCore(j, Validated(j, session))
    ensures AssemblyWhole(j) ==> AssemblyWhole(Validated(j, session))
  {
    hide Core;
    CoreIgnores(j, Validated(j, session));
  }

  lemma HandleOutcomeGood(s: Transport, session: bool)
    requires Running(s) && Open(s.job) && AssemblyWhole(s.job)
    ensures Good(HandleOutcome(s, session))
  {
    ValidatedOpen(s.job, session);
    hide Core, PhaseOk, PublishedOk, CompleteKwp, Fail, StageKwp, Outcome, OutcomeError, ResetTp20, Validated,
         Good, AssemblyWhole;
    var t := s.(job := Validated(s.job, session));
    match Outcome(s.job, session) {
      case RequestComplete => CompleteKwpGood(t);
      case SessionComplete => NextTelegramGood(t);
      case SessionFailed => FailGood(t, OutcomeError(t.job, NegotiationFailed));
      case ThenWaitSession => AwaitGood(t, WaitSessionResponse, true);
      case RequestPending => AwaitGood(t, WaitRequestResponse, true);
      case _ => FailGood(t, OutcomeError(t.job, UnexpectedResponse));
    }
  }

  // ---------------------------------------------------------------- transmitting

  /** The phase that a transmitted frame leads to, except for an acknowledgement. */
  function NextPhase(p: Phase): Phase {
    match p
    case IsoSendRequest => IsoWaitResponse
    case IsoSendFlowControl => IsoWaitConsecutive
    case SendSetup => WaitSetup
    case SendParams => WaitParams
    case SendSession => WaitSessionAck
    case SendRequest => WaitRequestAck
    case SendChannelTest => WaitChannelTest
    case SendDisconnect => WaitDisconnect
    case _ => p
  }

  lemma NextPhaseOk(j: Job, k: Job, p: Option<Pending>)
    requires p.Some? && PhaseOk(j.(pending := p)) && j.phase != SendAck && j.pending.None?
    requires k == j.(phase := NextPhase(j.phase), channelTestDeadline := k.channelTestDeadline,
                     disconnectDeadline := k.disconnectDeadline)
    ensures PhaseOk(k)
  {
    hide RequestValid;
    if j.phase == SendSession || j.phase == SendRequest || j.phase == SendChannelTest {
      NextKwpPhase(j, k, p);
    }
  }

  lemma NextKwpPhase(j: Job, k: Job, p: Option<Pending>)
    requires p.Some? && PhaseOk(j.(pending := p)) && j.pending.None?
    requires j.phase == SendSession || j.phase == SendRequest || j.phase == SendChannelTest
    requires k == j.(phase := NextPhase(j.phase), channelTestDeadline := k.channelTestDeadline,
                     disconnectDeadline := k.disconnectDeadline)
    ensures PhaseOk(k)
  {
  }

  lemma AfterTxShape(s: Transport)
    requires SendPhase(s.job.phase) && s.job.phase != SendAck
    ensures var k := AfterTx(s).job;
      && AfterTx(s) == s.(job := k)
      && k == s.job.(phase := NextPhase(s.job.phase), channelTestDeadline := k.channelTestDeadline,
                     disconnectDeadline := k.disconnectDeadline)
  {
    hide Later, ApplyAfterAck;
  }

  lemma AfterTxGood(s: Transport, p: Option<Pending>)
    requires Running(s) && s.job.pending.None? && PhaseOk(s.job.(pending := p)) && p.Some?
    ensures Good(AfterTx(s))
  {
    if s.job.phase == SendAck {
      ApplyAfterAckGood(s);
    } else {
      hide Core, AfterTx;
      AfterTxShape(s);
      NextPhaseOk(s.job, AfterTx(s).job, p);
      CoreIgnores(s.job, AfterTx(s).job);
    }
  }

  /** What the last refused attempt does. */
  lemma GiveUpGood(s: Transport)
    requires Running(s) && (s.job.terminal.Some? ==> TerminalOk(s.job, s.job.terminal.value.state))
    requires s.job.terminal.Some? <==> s.job.phase == SendDisconnect
    ensures Good(if s.job.terminal.Some? then Finalize(s) else Fail(s, TxFailed))
  {
    if s.job.terminal.Some? { FinalizeGood(s); } else { RequestFinishGood(s, Failed, TxFailed); }
  }

  lemma RetryGood(s: Transport, p: Pending)
    requires Good(s) && s.job.active && s.job.pending.Some?
    requires p.data == s.job.pending.value.data && p.attempts < MAX_ATTEMPTS
    ensures Good(s.(calls := s.calls + 1, job := s.job.(pending := Some(p))))
  {
    hide Core;
    CoreIgnores(s.job, s.job.(pending := Some(p)));
  }

  /** Taking the frame out of the slot, before the phase has moved on. */
  lemma ClearedRunning(s: Transport)
    requires Good(s) && s.job.active && s.job.pending.Some?
    ensures var cleared := s.(calls := s.calls + 1, job := s.job.(pending := None));
      Running(cleared) && PhaseOk(cleared.job.(pending := s.job.pending)) && SendPhase(s.job.phase)
    ensures s.job.terminal.Some? <==> s.job.phase == SendDisconnect
    ensures s.job.terminal.Some? ==> TerminalOk(s.job, s.job.terminal.value.state)
  {
    hide Core;
    CoreIgnores(s.job, s.job.(pending := None));
    assert s.job.(pending := None).(pending := s.job.pending) == s.job;
  }

  lemma TransmitOneGood(s: Transport, answer: bool)
    requires Good(s)
    ensures Good(TransmitOne(s, answer))
  {
    hide Core, PhaseOk, AfterTx, Finish, Fail;
    if s.job.active && s.job.pending.Some? && TimeReached(s.lastNow, s.job.pending.value.retryAt) {
      var p := s.job.pending.value;
      var cleared := s.(calls := s.calls + 1, job := s.job.(pending := None));
      ClearedRunning(s);
      if answer {
        AfterTxGood(cleared, s.job.pending);
        ProgressGood(AfterTx(cleared));
      } else if p.attempts + 1 >= MAX_ATTEMPTS {
        GiveUpGood(cleared);
      } else {
        RetryGood(s, p.(attempts := p.attempts + 1, retryAt := Later(s.lastNow, RETRY_DELAY)));
      }
    }
  }

  lemma BeginJobGood(s: Transport, c: Command)
    requires Balanced(s) && s.busy && s.mailbox.None? && !s.job.active && RequestValid(c.request) && c.id > 0
    ensures Good(BeginJob(s, c)) && BeginJob(s, c).job.active && BeginJob(s, c).job.terminal.None?
  {
  }

  lemma CheckLimitsGood(s: Transport)
    requires Good(s) && s.job.active && s.job.terminal.None?
    ensures Good(CheckLimits(s))
  {
    RequestFinishGood(s, Cancelled, CancelledError);
    RequestFinishGood(s.(abortId := 0), Failed, s.abortError);
    RequestFinishGood(s, Failed, Timeout);
  }

  lemma RepeatGood(s: Transport)
    requires Good(s)
    ensures Good(Repeat(s))
  {
    hide Core, StageKwp, PublishedOk, TimeReached, StageTx;
    if s.job.active && s.job.phase == WaitRepeat && s.job.terminal.None? {
      CoreIgnores(s.job, s.job.(negative := false));
      NextTelegramGood(s.(job := s.job.(negative := false)));
      ChannelTestSent(s);
    }
  }

  lemma ChannelTestSent(s: Transport)
    requires Good(s) && s.job.active && s.job.phase == WaitRepeat
    ensures Good(s.(job := StageTx(s.job, s.job.testerId, [0xA3], SendChannelTest)))
  {
    hide Core, PublishedOk;
    CoreIgnores(s.job, StageTx(s.job, s.job.testerId, [0xA3], SendChannelTest));
  }

  lemma StageKwpShape(j: Job, session: bool)
    ensures var k := StageKwp(j, session);
      k.active == j.active && k.id == j.id && k.terminal == j.terminal && k.request == j.request
  {
  }

  lemma TickJobGood(s: Transport, answer: bool)
    requires Good(s)
    ensures Good(TickJob(s, answer))
  {
    if s.job.active {
      if s.job.terminal.Some? {
        FinalizeGood(s);
        TransmitOneGood(s, answer);
      } else {
        CheckLimitsGood(s);
        RepeatGood(CheckLimits(s));
        TransmitOneGood(Repeat(CheckLimits(s)), answer);
      }
    }
  }

  lemma TickGood(s: Transport, now: U32, answer: bool)
    requires Good(s)
    ensures Good(Tick(s, now, answer))
  {
    var t := s.(lastNow := now);
    if t.job.active || t.mailbox.None? {
      TickJobGood(t, answer);
    } else {
      var begun := BeginJob(t.(mailbox := None), t.mailbox.value);
      BeginJobGood(t.(mailbox := None), t.mailbox.value);
      FinishGood(begun, Cancelled, CancelledError);
      TickJobGood(begun, answer);
    }
  }

  // ---------------------------------------------------------------- observing

  lemma CompleteIsoGood(s: Transport)
    requires Running(s) && s.job.request.route.protocol.IsoTp? && s.job.pending.None? && s.job.terminal.None?
    requires s.job.completedRequests < s.job.request.repeatCount
    ensures Good(CompleteIso(s))
  {
    var t := s.(job := Validated(s.job, false));
    RequestFinishGood(t, Complete, NoError);
    RequestFinishGood(t, Failed, OutcomeError(t.job, UnexpectedResponse));
  }

  lemma AssembledLength(have: Bytes, more: Bytes, total: nat)
    requires |have| <= total
    ensures |Assembled(have, more, total)| <= total
  {
  }

  lemma FirstFrameGood(s: Transport, b: Bytes, total: nat)
    requires Good(s) && s.job.active && s.job.phase == IsoWaitResponse && 0 < total <= MAX_RESPONSE
    ensures var j := s.job.(isoTotal := total, isoNext := 1, response := Assembled([], b, total));
      Good(s.(job := StageTx(j, j.request.route.requestId, FlowControlFrame(j.request.route), IsoSendFlowControl)))
  {
    hide Assembled, FlowControlFrame, RequestValid;
    AssembledLength([], b, total);
  }

  lemma ConsecutiveGood(s: Transport, b: Bytes)
    requires Good(s) && s.job.active && s.job.phase == IsoWaitConsecutive
    ensures var j := s.job.(isoNext := (s.job.isoNext + 1) % 16,
                            response := Assembled(s.job.response, b, s.job.isoTotal));
      Good(if |j.response| >= j.isoTotal then CompleteIso(s.(job := j)) else s.(job := j))
  {
    hide Assembled, RequestValid, CompleteIso;
    var j := s.job.(isoNext := (s.job.isoNext + 1) % 16, response := Assembled(s.job.response, b, s.job.isoTotal));
    AssembledLength(s.job.response, b, s.job.isoTotal);
    if |j.response| >= j.isoTotal { CompleteIsoGood(s.(job := j)); }
  }

  lemma SingleFrameGood(s: Transport, b: Bytes)
    requires Good(s) && s.job.active && s.job.phase == IsoWaitResponse && |b| <= 7
    ensures Good(CompleteIso(s.(job := s.job.(response := b))))
  {
    hide CompleteIso, RequestValid;
    CompleteIsoGood(s.(job := s.job.(response := b)));
  }

  lemma ObserveIsoGood(s: Transport, f: Frame)
    requires Good(s) && s.job.active && s.job.request.route.protocol.IsoTp? && IsoTakes(s, f)
    ensures Good(ObserveIso(s, f))
  {
    hide Core, CompleteIso, PhaseOk, RequestFinish;
    var b := Body(f);
    RunningAnyway(s);
    if s.job.phase == IsoWaitResponse {
      if SingleFrame(s, f) {
        SingleFrameGood(s, b[1..Low(b[0]) + 1]);
      } else if FirstTotal(f) == 0 || FirstTotal(f) > MAX_RESPONSE {
        RequestFinishGood(s, Failed, TooLarge);
      } else {
        FirstFrameGood(s, b[2..], FirstTotal(f));
      }
    } else if Low(b[0]) != s.job.isoNext {
      RequestFinishGood(s, Failed, SequenceError);
    } else {
      ConsecutiveGood(s, b[1..]);
    }
  }

  lemma RunningAnyway(s: Transport)
    requires Good(s) && s.job.active
    ensures Running(s)
  {
  }

  lemma TakeFragmentCore(j: Job, b: Bytes, op: nat)
    requires Core(j) && b != [] && j.channelOpen
    requires !j.rxStarted ==> |b| >= 3 && 1 <= Wide(b[1], b[2]) <= MAX_RESPONSE
    ensures var t := TakeFragment(j, b, op);
      && Core(t) && t.rxStarted && |t.response| <= t.rxTotal && t.lastOp == op
      && t.phase == j.phase && t.pending == j.pending && t.terminal == j.terminal && t.channelOpen
      && t.request == j.request && t.completedRequests == j.completedRequests
  {
  }

  lemma StageAckGood(j: Job, sequence: nat, after: AfterAck)
    requires Core(j) && j.channelOpen && j.terminal.None? && j.completedRequests < j.request.repeatCount
    requires after != NoAction && (after == RequestComplete ==> AssemblyWhole(j))
    ensures Core(StageAck(j, sequence, after)) && PhaseOk(StageAck(j, sequence, after))
  {
  }

  /** What follows a fragment that leaves the response whole. */
  lemma WholeGood(s: Transport, b: Bytes, session: bool)
    requires Running(s) && Open(s.job) && b != [] && High(b[0]) <= 3
    requires s.job.lastOp == High(b[0]) && |s.job.response| == s.job.rxTotal
    ensures Good(
      if High(b[0]) == 0 || High(b[0]) == 2 then Fail(s, SequenceError)
      else if High(b[0]) == 1 then s.(job := StageAck(Validated(s.job, session), Low(b[0]), Outcome(s.job, session)))
      else HandleOutcome(s, session))
  {
    hide High, Low, Wide, Core, PublishedOk, Validated, StageAck, HandleOutcome, Fail, Outcome, Good;
    var op := High(b[0]);
    if op == 0 || op == 2 {
      FailGood(s, SequenceError);
    } else if op == 1 {
      ValidatedOpen(s.job, session);
      OutcomeActs(s.job, session);
      AckGood(s.(job := Validated(s.job, session)), Low(b[0]), Outcome(s.job, session));
    } else {
      HandleOutcomeGood(s, session);
    }
  }

  /** What follows a fragment that leaves the response short. */
  lemma PartGood(s: Transport, b: Bytes, session: bool)
    requires Running(s) && Open(s.job) && b != [] && High(b[0]) <= 3 && KwpPhase(s.job.phase)
    requires PhaseOk(s.job)
    ensures Good(
      if High(b[0]) == 1 || High(b[0]) == 3 then Fail(s, SequenceError)
      else if High(b[0]) == 0
      then s.(job := StageAck(s.job, Low(b[0]), if session then ThenWaitSession else ThenWaitRequest))
      else Progress(s.(job := s.job.(phase := ResponsePhase(session)))))
  {
    hide High, Low, Wide, Core, PublishedOk, StageAck, Fail, Good, PhaseOk;
    var op := High(b[0]);
    if op == 1 || op == 3 {
      FailGood(s, SequenceError);
    } else if op == 0 {
      AckGood(s, Low(b[0]), if session then ThenWaitSession else ThenWaitRequest);
    } else {
      AwaitMoreGood(s, session);
    }
  }

  lemma AwaitMoreGood(s: Transport, session: bool)
    requires Running(s) && Open(s.job) && KwpPhase(s.job.phase) && PhaseOk(s.job)
    ensures Good(Progress(s.(job := s.job.(phase := ResponsePhase(session)))))
  {
    hide PublishedOk;
    CoreActive(s.job);
    ResponsePhaseGood(s, session);
  }

  lemma KwpOpen(s: Transport)
    requires Good(s) && s.job.active && KwpPhase(s.job.phase)
    ensures Running(s) && Open(s.job) && PhaseOk(s.job)
  {}

  lemma FragmentGood(s: Transport, b: Bytes, session: bool)
    requires Good(s) && s.job.active && KwpPhase(s.job.phase) && b != []
    requires !s.job.rxStarted ==> |b| >= 3 && 1 <= Wide(b[1], b[2]) <= MAX_RESPONSE
    requires High(b[0]) <= 3 && Low(b[0]) == s.job.expectedRx
    ensures Good(ObserveKwp(s, b, session))
  {
    hide High, Low, Wide, Core, PublishedOk, TakeFragment, StageAck, HandleOutcome, Fail, Outcome, Validated,
         Good, PhaseOk;
    KwpOpen(s);
    TakeFragmentCore(s.job, b, High(b[0]));
    var t := s.(job := TakeFragment(s.job, b, High(b[0])));
    if |t.job.response| < t.job.rxTotal {
      TakeFragmentPhase(s.job, b, High(b[0]));
      PartGood(t, b, session);
    } else {
      WholeGood(t, b, session);
    }
  }

  /** Taking a fragment leaves a receiving phase in order. */
  lemma TakeFragmentPhase(j: Job, b: Bytes, op: nat)
    requires b != [] && (j.rxStarted || |b| >= 3) && KwpPhase(j.phase) && PhaseOk(j)
    ensures PhaseOk(TakeFragment(j, b, op))
  {
    hide High, Low, Wide;
  }

  lemma OutcomeActs(j: Job, session: bool)
    ensures Outcome(j, session) != NoAction
  {
  }

  lemma AckGood(s: Transport, sequence: nat, after: AfterAck)
    requires Running(s) && s.job.channelOpen && s.job.terminal.None?
    requires s.job.completedRequests < s.job.request.repeatCount
    requires after != NoAction && (after == RequestComplete ==> AssemblyWhole(s.job))
    ensures Good(s.(job := StageAck(s.job, sequence, after)))
  {
    hide PublishedOk;
    StageAckGood(s.job, sequence, after);
  }

  lemma ResponsePhaseGood(s: Transport, session: bool)
    requires Good(s) && s.job.active && KwpPhase(s.job.phase)
    ensures Good(Progress(s.(job := s.job.(phase := ResponsePhase(session)))))
  {
    hide Core, PublishedOk;
    var t := s.(job := s.job.(phase := ResponsePhase(session)));
    CoreIgnores(s.job, t.job);
    ShownGood(t);
  }

  /** Showing progress keeps the invariant. */
  lemma ShownGood(s: Transport)
    requires Good(s)
    ensures Good(Progress(s))
  {
    ProgressGood(s);
  }

  lemma ObserveKwpGood(s: Transport, b: Bytes, session: bool)
    requires Good(s) && s.job.active && KwpPhase(s.job.phase) && b != []
    ensures Good(ObserveKwp(s, b, session))
  {
    hide Core, PhaseOk, TakeFragment, StageAck, HandleOutcome, RequestFinish;
    var op := High(b[0]);
    RunningAnyway(s);
    if op <= 3 && Low(b[0]) == s.job.expectedRx &&
       (s.job.rxStarted || (|b| >= 3 && 1 <= Wide(b[1], b[2]) <= MAX_RESPONSE)) {
      FragmentGood(s, b, session);
    } else {
      RequestFinishGood(s, Failed, SequenceError);
      RequestFinishGood(s, Failed, NegotiationFailed);
      RequestFinishGood(s, Failed, UnexpectedResponse);
      RequestFinishGood(s, Failed, TooLarge);
      ResponsePhaseGood(s, session);
    }
  }

  lemma ObserveSetupGood(s: Transport, b: Bytes)
    requires Good(s) && s.job.active && s.job.phase == WaitSetup && |b| >= 2
    ensures Good(ObserveSetup(s, b))
  {
    FinishGood(s, Failed, SetupRejected);
    FinishGood(s, Failed, NegotiationFailed);
  }

  lemma ObserveParamsGood(s: Transport, b: Bytes)
    requires Good(s) && s.job.active && s.job.phase == WaitParams
    ensures Good(ObserveParams(s, b))
  {
    RequestFinishGood(s, Failed, NegotiationFailed);
    var j := s.job.(txSequence := 0, expectedRx := 0);
    StageKwpGood(j, j.request.route.enterSession);
  }

  lemma ChannelTestGood(s: Transport, at: U32)
    requires Good(s) && s.job.active && s.job.phase == WaitChannelTest
    ensures Good(s.(job := s.job.(channelTestAt := at, phase := WaitRepeat)))
  {
    CoreIgnores(s.job, s.job.(channelTestAt := at, phase := WaitRepeat));
  }

  lemma ObserveTp20Good(s: Transport, f: Frame)
    requires Good(s) && s.job.active && s.job.request.route.protocol.VwTp20? && Tp20Takes(s, f)
    ensures Good(ObserveTp20(s, f))
  {
    hide Core, PhaseOk, ObserveSetup, ObserveParams, ObserveKwp;
    var b := Body(f);
    RunningAnyway(s);
    if s.job.phase == WaitDisconnect {
      EndingHasTerminal(s);
      FinalizeGood(s);
    } else if s.job.phase == WaitSetup {
      ObserveSetupGood(s, b);
    } else if s.job.phase == WaitParams {
      ObserveParamsGood(s, b);
    } else if s.job.phase == WaitChannelTest {
      ChannelTestGood(s, Later(s.lastNow, CHANNEL_TEST_INTERVAL));
    } else {
      ObserveKwpGood(s, b, SessionPhase(s.job.phase));
    }
  }

  lemma EndingHasTerminal(s: Transport)
    requires Good(s) && s.job.active
    ensures EndingPhase(s.job.phase) <==> s.job.terminal.Some?
    ensures s.job.terminal.Some? ==> TerminalOk(s.job, s.job.terminal.value.state)
  {
  }

  lemma ObserveGood(s: Transport, f: Frame)
    requires Good(s)
    ensures Good(Observe(s, f))
  {
    if !s.job.active {
      if s.mailbox.Some? {
        BeginJobGood(s.(mailbox := None), s.mailbox.value);
        FinishGood(BeginJob(s.(mailbox := None), s.mailbox.value), Failed, Collision);
      }
    } else {
      FinishGood(s, Failed, Collision);
      if s.job.request.route.protocol.IsoTp? {
        if IsoTakes(s, f) { ObserveIsoGood(s, f); }
      } else if Tp20Takes(s, f) {
        ObserveTp20Good(s, f);
      }
    }
  }

  // ---------------------------------------------------------------- every run

  lemma StepGood(s: Transport, c: Call)
    requires Good(s)
    ensures Good(Step(s, c))
  {
    match c
    case SubmitCall(r) =>
    case CancelCall(id) =>
    case AbortCall(e) =>
    case TickCall(now, answer) => TickGood(s, now, answer);
    case ObserveCall(f) => ObserveGood(s, f);
  }

  /** The state after any sequence of submissions, cancellations, aborts, ticks and frames. */
  ghost function After(calls: seq<Call>): (s: Transport)
    ensures Good(s)
  {
    if calls == [] then Init()
    else
      StepGood(After(calls[..|calls| - 1]), calls[|calls| - 1]);
      Step(After(calls[..|calls| - 1]), calls[|calls| - 1])
  }
}
