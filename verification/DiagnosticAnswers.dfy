/** What the diagnostic transport (core/diagnostic_transport.cpp) sends, octet by octet, and what it
    accepts as an answer: over every run, told without the functions that the transport uses. */
module DiagnosticAnswers {
  import opened Types
  import opened DiagnosticSpec
  import opened DiagnosticInvariant
  import opened DiagnosticCases
  import opened DiagnosticSteps

  // ---------------------------------------------------------------- answers

  /** The first octet is the one the caller asked for, or that of the request plus 0x40. */
  predicate Answers(r: Request, bytes: Bytes) {
    && bytes != [] && r.payload != []
    && (if r.expectedSid != 0 then bytes[0] == r.expectedSid
        else bytes[0] as int == (r.payload[0] as int + 0x40) % 256)
  }

  ghost predicate AllAnswer(r: Request, ts: seq<Telegram>) {
    forall i :: 0 <= i < |ts| ==> Answers(r, ts[i].bytes)
  }

  /** A job of this request that is shown as complete has only answers to it. */
  ghost predicate Answered(r: Request, p: Published) {
    p.state == Complete && if r.route.protocol.IsoTp? then Answers(r, p.response) else AllAnswer(r, p.responses)
  }

  // ---------------------------------------------------------------- frames

  /** Length octet, payload, padding */
  predicate RequestOctets(r: Request, d: Bytes) {
    && |d| == (if r.route.padToEight then 8 else |r.payload| + 1) && |r.payload| < |d|
    && d[0] == |r.payload| && d[1..|r.payload| + 1] == r.payload
    && forall k :: |r.payload| < k < |d| ==> d[k] == r.route.padding
  }

  /** Continue to send, block size, separation time, padding */
  predicate FlowOctets(r: Route, d: Bytes) {
    && |d| == (if r.padToEight then 8 else 3)
    && d[0] == 0x30 && d[1] == r.blockSize && d[2] == r.stMin
    && forall k :: 3 <= k < |d| ==> d[k] == r.padding
  }

  /** Sequence number, two octets of length, payload */
  predicate TelegramOctets(number: nat, payload: Bytes, d: Bytes) {
    && |d| == |payload| + 3 && d[0] == 0x10 + number % 16 && d[1] == 0 && d[2] == |payload| && d[3..] == payload
  }

  predicate SetupOctets(r: Route, d: Bytes) {
    && |d| == 7 && d[0] == r.logicalAddress && d[1] == 0xC0 && d[2] == 0 && d[3] == 0x10
    && d[5] as int * 256 + d[4] as int == r.requestedEcuId && d[6] == r.applicationType
  }

  /** The frame waiting in each sending phase */
  predicate FrameOk(j: Job, p: Pending) {
    var r := j.request;
    && p.direction == r.route.direction
    && p.id == (if IsoPhase(j.phase) || j.phase == SendSetup then r.route.requestId else j.testerId)
    && (j.phase == IsoSendRequest ==> RequestOctets(r, p.data))
    && (j.phase == IsoSendFlowControl ==> FlowOctets(r.route, p.data))
    && (j.phase == SendSetup ==> SetupOctets(r.route, p.data))
    && (j.phase == SendParams ==> p.data == [0xA0, 0x0F, 0x8A, 0xFF, 0x32, 0xFF])
    && (j.phase == SendSession ==>
          j.telegrams > 0 && TelegramOctets(j.telegrams - 1, [0x10, r.route.kwpSession], p.data))
    && (j.phase == SendRequest ==> j.telegrams > 0 && TelegramOctets(j.telegrams - 1, r.payload, p.data))
    && (j.phase == SendAck ==> p.data == [0xB0 + j.fragments % 16])
    && (j.phase == SendChannelTest ==> p.data == [0xA3])
    && (j.phase == SendDisconnect ==> p.data == [0xA8])
  }

  // ---------------------------------------------------------------- one job through one step

  /** Only answers are on record, or about to be, and the right frame waits. */
  ghost predicate Proper(j: Job) {
    && AllAnswer(j.request, j.responses)
    && (j.phase == SendAck && j.afterAck == RequestComplete ==> Answers(j.request, j.response))
    && (j.pending.Some? ==> FrameOk(j, j.pending.value))
  }

  predicate SameOrder(j: Job, k: Job) {
    k.request == j.request && k.id == j.id && k.deadline == j.deadline
  }

  /** The job goes on, or it ends, and as complete only with answers. */
  ghost predicate Follows(s: Transport, t: Transport) {
    && (t.job.active ==> Proper(t.job) && SameOrder(s.job, t.job) && t.completed == s.completed)
    && (!t.job.active ==>
          t.completed == s.completed || (t.completed == s.completed + 1 && Answered(s.job.request, t.published)))
  }

  /** A running job with only answers on record, between two frames */
  ghost predicate Clear(j: Job) {
    j.active && RequestValid(j.request) && AllAnswer(j.request, j.responses) && j.txSequence == j.telegrams % 16 &&
    j.expectedRx == j.fragments % 16
  }

  lemma FollowsOn(s: Transport, m: Transport, t: Transport)
    requires SameOrder(s.job, m.job) && m.completed == s.completed && Follows(m, t)
    ensures Follows(s, t)
  {
  }

  lemma Shown(s: Transport, t: Transport)
    requires Follows(s, t) && t.job.active
    ensures Follows(s, Progress(t))
  {
    hide Proper, Answered;
  }

  lemma FinishFollows(s: Transport, state: JobState, e: Error)
    requires s.job.active
    requires state == Complete ==>
      if s.job.request.route.protocol.IsoTp? then Answers(s.job.request, s.job.response)
      else AllAnswer(s.job.request, s.job.responses)
    ensures Follows(s, Finish(s, state, e))
  {
  }

  lemma RequestFinishFollows(s: Transport, state: JobState, e: Error)
    requires Clear(s.job)
    requires state == Complete && s.job.request.route.protocol.IsoTp? ==> Answers(s.job.request, s.job.response)
    ensures Follows(s, RequestFinish(s, state, e))
  {
    hide RequestValid, AllAnswer;
    FinishFollows(s, state, e);
  }

  lemma FailFollows(s: Transport, e: Error)
    requires Clear(s.job)
    ensures Follows(s, Fail(s, e))
  {
    hide Clear, RequestFinish;
    RequestFinishFollows(s, Failed, e);
  }

  lemma TelegramIs(number: nat, payload: Bytes)
    requires |payload| < 256
    ensures TelegramOctets(number, payload, [0x10 + number % 16, 0, |payload| % 256] + payload)
  {
  }

  lemma PayloadShort(r: Request)
    requires RequestValid(r)
    ensures 1 <= |r.payload| <= 7
  {
  }

  /** Staging the frame of a phase */
  lemma StagedProper(j: Job, id: U32, data: Bytes, phase: Phase)
    requires AllAnswer(j.request, j.responses) && j.active && phase != SendAck
    requires FrameOk(j.(phase := phase), Pending(id, j.request.route.direction, data, 0, 0))
    ensures var k := StageTx(j, id, data, phase); Proper(k) && SameOrder(j, k) && k.active
  {
    hide AllAnswer, TelegramOctets, RequestOctets, FlowOctets, SetupOctets;
  }

  /** The frame of a KWP telegram */
  lemma TelegramFrame(j: Job, id: U32, data: Bytes, session: bool)
    requires id == j.testerId && j.telegrams > 0
    requires
      TelegramOctets(j.telegrams - 1, if session then [0x10, j.request.route.kwpSession] else j.request.payload, data)
    ensures FrameOk(j.(phase := if session then SendSession else SendRequest),
                    Pending(id, j.request.route.direction, data, 0, 0))
  {
    hide TelegramOctets, RequestOctets, FlowOctets, SetupOctets;
  }

  lemma TelegramProper(j: Job, session: bool)
    requires Clear(j)
    ensures Proper(StageKwp(j, session)) && SameOrder(j, StageKwp(j, session)) && StageKwp(j, session).active
  {
    hide StageKwp, RequestValid, FrameOk, StageTx, Proper, TelegramOctets, AllAnswer;
    var next := (j.txSequence + 1) % 16;
    var numbered := ResetTp20(j).(expectedAck := next, txSequence := next, telegrams := j.telegrams + 1);
    var payload := if session then [0x10, j.request.route.kwpSession] else j.request.payload;
    var data: Bytes := [0x10 + j.txSequence % 16, 0, |payload| % 256] + payload;
    PayloadShort(j.request);
    TelegramIs(j.telegrams, payload);
    TelegramParts(j, numbered, session);
    TelegramFrame(numbered, j.testerId, data, session);
    StagedProper(numbered, j.testerId, data, if session then SendSession else SendRequest);
  }

  lemma CompleteKwpFollows(s: Transport)
    requires Clear(s.job) && s.job.pending.None? && Answers(s.job.request, s.job.response)
    ensures s.job.request.route.protocol.VwTp20? ==> Follows(s, CompleteKwp(s))
  {
    hide RequestValid, RequestFinish, Answers, Later, PublishedOf;
    var j := s.job.(completedRequests := s.job.completedRequests + 1,
                    responses := s.job.responses + [Telegram(s.job.rxTotal, s.job.response, s.job.lastOp)]);
    assert AllAnswer(j.request, j.responses);
    RequestFinishFollows(s.(job := j), Complete, NoError);
  }

  /** Nothing waits: the job proper in any phase that is not an acknowledgement */
  lemma QuietProper(j: Job)
    requires AllAnswer(j.request, j.responses) && j.pending.None? && j.phase != SendAck
    ensures Proper(j)
  {
  }

  lemma ActedFollows(t: Transport, o: AfterAck)
    requires Clear(t.job) && t.job.pending.None? && t.job.request.route.protocol.VwTp20?
    requires o == RequestComplete ==> Answers(t.job.request, t.job.response)
    ensures Follows(t, Acted(t, o))
  {
    hide RequestValid, AllAnswer, Proper, Fail, StageKwp, CompleteKwp, OutcomeError, Acted, Answers, Answered;
    ActedCases(t, o);
    if o == RequestComplete {
      CompleteKwpFollows(t);
    } else if o == SessionComplete {
      TelegramProper(t.job, false);
    } else if o == ThenWaitSession || o == RequestPending {
      QuietProper(Acted(t, o).job);
    } else {
      FailFollows(t, OutcomeError(t.job, if o == SessionFailed then NegotiationFailed else UnexpectedResponse));
    }
  }

  lemma ApplyAfterAckFollows(s: Transport)
    requires Clear(s.job) && s.job.pending.None? && s.job.request.route.protocol.VwTp20?
    requires s.job.afterAck != NoAction
    requires s.job.afterAck == RequestComplete ==> Answers(s.job.request, s.job.response)
    ensures Follows(s, ApplyAfterAck(s))
  {
    hide RequestValid, AllAnswer, Proper, Answers, Answered, Acted, ApplyAfterAck;
    var t := s.(job := s.job.(afterAck := NoAction));
    AckCases(s, t);
    ActedFollows(t, s.job.afterAck);
    if s.job.afterAck == ThenWaitSession || s.job.afterAck == ThenWaitRequest { QuietProper(ApplyAfterAck(s).job); }
  }

  /** Only an answer completes a request. */
  lemma OutcomeAnswers(j: Job, session: bool)
    requires j.request.payload != []
    ensures Outcome(j, session) == RequestComplete ==> Answers(j.request, j.response)
  {
  }

  lemma HandleOutcomeFollows(s: Transport, session: bool)
    requires Clear(s.job) && s.job.pending.None? && s.job.request.route.protocol.VwTp20?
    ensures Follows(s, HandleOutcome(s, session))
  {
    hide AllAnswer, Outcome, Acted, HandleOutcome, Validated, Answers, Follows;
    var t := s.(job := Validated(s.job, session));
    ValidatedScalars(s.job, session);
    OutcomeAnswers(s.job, session);
    HandleCases(s, session, t);
    ActedFollows(t, Outcome(s.job, session));
    FollowsOn(s, t, Acted(t, Outcome(s.job, session)));
  }

  // ---------------------------------------------------------------- transmitting

  /** What the invariant of all runs says of a running job. */
  lemma RunningClear(s: Transport)
    requires Good(s) && s.job.active && Proper(s.job)
    ensures Clear(s.job) && s.job.request.payload != []
    ensures s.job.pending.Some? <==> SendPhase(s.job.phase)
    ensures IsoPhase(s.job.phase) <==> s.job.request.route.protocol.IsoTp?
    ensures s.job.phase == SendAck ==> s.job.afterAck != NoAction
    ensures s.job.terminal.Some? ==> s.job.request.route.protocol.VwTp20?
  {
  }

  lemma AfterTxFollows(s: Transport, p: Pending)
    requires Clear(s.job) && s.job.pending.None? && Proper(s.job.(pending := Some(p))) && SendPhase(s.job.phase)
    requires s.job.phase == SendAck ==> s.job.afterAck != NoAction && s.job.request.route.protocol.VwTp20?
    ensures Follows(s, AfterTx(s))
  {
    hide RequestValid, FrameOk, AllAnswer, Answers, Answered, ApplyAfterAck;
    if s.job.phase == SendAck {
      ApplyAfterAckFollows(s);
      AckIs(s);
    } else {
      AfterTxShape(s);
      QuietProper(AfterTx(s).job);
    }
  }

  lemma AckIs(s: Transport)
    requires s.job.phase == SendAck
    ensures AfterTx(s) == ApplyAfterAck(s)
  {
    hide ApplyAfterAck;
  }

  lemma FinalizeFollows(s: Transport)
    requires Clear(s.job) && s.job.terminal.Some? && s.job.request.route.protocol.VwTp20?
    ensures Follows(s, Finalize(s))
  {
    hide RequestValid, AllAnswer, Finish, Follows;
    FinishFollows(s, s.job.terminal.value.state, s.job.terminal.value.error);
  }

  /** The waiting frame was taken. */
  lemma AcceptedFollows(s: Transport, given: Transport, p: Pending)
    requires Good(s) && s.job.active && Proper(s.job) && s.job.pending == Some(p)
    requires given == s.(calls := s.calls + 1, job := s.job.(pending := None))
    ensures Follows(s, Progress(AfterTx(given)))
  {
    hide Good, Clear, AfterTx, Progress, AllAnswer, Answers, Answered, FrameOk, Proper, Follows;
    RunningClear(s);
    GivenClear(s.job, p);
    AfterTxFollows(given, p);
    ShownIfRunning(given, AfterTx(given));
    FollowsOn(s, given, Progress(AfterTx(given)));
  }

  /** It was refused for the last time. */
  lemma GivenUpFollows(s: Transport, given: Transport, p: Pending)
    requires Good(s) && s.job.active && Proper(s.job) && s.job.pending == Some(p)
    requires given == s.(calls := s.calls + 1, job := s.job.(pending := None))
    ensures Follows(s, Fail(given, TxFailed)) && (given.job.terminal.Some? ==> Follows(s, Finalize(given)))
  {
    hide Good, Clear, Finalize, Fail, AllAnswer, Answers, Answered, FrameOk, Proper, Follows;
    RunningClear(s);
    GivenClear(s.job, p);
    FailFollows(given, TxFailed);
    FollowsOn(s, given, Fail(given, TxFailed));
    if given.job.terminal.Some? {
      FinalizeFollows(given);
      FollowsOn(s, given, Finalize(given));
    }
  }

  lemma TransmitFollows(s: Transport, answer: bool)
    requires Good(s) && s.job.active && Proper(s.job)
    ensures Follows(s, TransmitOne(s, answer))
  {
    hide Good, Clear, AfterTx, Progress, Finalize, Fail, TimeReached, Later, TransmitOne, AllAnswer, Answers, Answered,
         FrameOk, Proper, Follows, SendPhase, IsoPhase;
    TransmitCases(s, answer);
    SameFollows(s);
    if s.job.pending.Some? && TimeReached(s.lastNow, s.job.pending.value.retryAt) {
      var p, called := s.job.pending.value, s.(calls := s.calls + 1);
      var given := called.(job := s.job.(pending := None));
      if answer {
        AcceptedFollows(s, given, p);
      } else if p.attempts + 1 < MAX_ATTEMPTS {
        var kept := called.(job := s.job.(
          pending := Some(p.(attempts := p.attempts + 1, retryAt := Later(s.lastNow, RETRY_DELAY)))));
        RetryFollows(s, kept);
        Shown(s, kept);
      } else {
        GivenUpFollows(s, given, p);
      }
    }
  }

  lemma SameFollows(s: Transport)
    requires Proper(s.job)
    ensures Follows(s, s)
  {
    hide Proper;
  }

  lemma GivenClear(j: Job, p: Pending)
    requires Clear(j) && j.pending == Some(p)
    ensures Clear(j.(pending := None)) && j.(pending := None).(pending := Some(p)) == j
  {
    hide RequestValid;
  }

  lemma RetryFollows(s: Transport, t: Transport)
    requires s.job.active && Proper(s.job) && s.job.pending.Some? && t.completed == s.completed
    requires t.job == s.job.(pending := t.job.pending) && t.job.pending.Some?
    requires var p, q := s.job.pending.value, t.job.pending.value;
      q.id == p.id && q.direction == p.direction && q.data == p.data
    ensures Follows(s, t)
  {
  }

  lemma ShownIfRunning(s: Transport, t: Transport)
    requires Follows(s, t)
    ensures Follows(s, Progress(t))
  {
    if t.job.active { Shown(s, t); }
  }

  // ---------------------------------------------------------------- ticks

  lemma LimitsFollow(s: Transport)
    requires Clear(s.job) && Proper(s.job)
    ensures Follows(s, CheckLimits(s))
  {
    hide Clear, Proper, RequestFinish, TimeReached, Follows;
    SameFollows(s);
    RequestFinishFollows(s, Cancelled, CancelledError);
    RequestFinishFollows(s.(abortId := 0), Failed, s.abortError);
    FollowsOn(s, s.(abortId := 0), RequestFinish(s.(abortId := 0), Failed, s.abortError));
    RequestFinishFollows(s, Failed, Timeout);
  }

  lemma RepeatFollows(s: Transport)
    requires Clear(s.job) && Proper(s.job)
    ensures Follows(s, Repeat(s))
  {
    hide Clear, Proper, Repeat, StageKwp, TimeReached, Follows, StageTx;
    SameFollows(s);
    RepeatCases(s);
    if s.job.terminal.None? && s.job.phase == WaitRepeat {
      var j := s.job.(negative := false);
      StillClear(s.job);
      TelegramProper(j, false);
      StagedFollows(s, StageKwp(j, false));
      TestFollows(s);
    }
  }

  lemma StillClear(j: Job)
    requires Clear(j)
    ensures Clear(j.(negative := false))
  {
    hide RequestValid;
  }

  lemma StagedFollows(s: Transport, j: Job)
    requires Proper(j) && SameOrder(s.job, j) && j.active
    ensures Follows(s, s.(job := j))
  {
    hide Proper;
  }

  lemma TestFollows(s: Transport)
    requires Clear(s.job)
    ensures Follows(s, s.(job := StageTx(s.job, s.job.testerId, [0xA3], SendChannelTest)))
  {
    hide RequestValid, AllAnswer;
  }

  lemma TickJobFollows(s: Transport, answer: bool)
    requires Good(s) && s.job.active && Proper(s.job)
    ensures Follows(s, TickJob(s, answer))
  {
    hide Good, Clear, Proper, CheckLimits, Repeat, TransmitOne, Finalize, Follows, Answered;
    RunningClear(s);
    if s.job.terminal.Some? {
      FinalizeFollows(s);
      TransmitFollows(s, answer);
    } else {
      LimitsFollow(s);
      CheckLimitsGood(s);
      var m := CheckLimits(s);
      if m.job.active {
        LimitedFollows(s, m, answer);
      } else {
        NothingLeft(m, answer);
      }
    }
  }

  lemma NothingLeft(m: Transport, answer: bool)
    requires !m.job.active
    ensures TransmitOne(Repeat(m), answer) == m
  {
  }

  lemma LimitedFollows(s: Transport, m: Transport, answer: bool)
    requires Follows(s, m) && Good(m) && m.job.active
    ensures Follows(s, TransmitOne(Repeat(m), answer))
  {
    hide Good, Clear, Proper, Repeat, TransmitOne, Answered;
    RunningClear(m);
    RepeatFollows(m);
    RepeatGood(m);
    RepeatRuns(m);
    TransmitFollows(Repeat(m), answer);
  }

  lemma RepeatRuns(s: Transport)
    requires s.job.active
    ensures Repeat(s).job.active
  {
    hide TimeReached;
  }

  lemma RequestFrameIs(r: Request)
    requires RequestValid(r) && r.route.protocol.IsoTp?
    ensures RequestOctets(r, IsoRequestFrame(r))
  {
  }

  lemma SetupFrameIs(r: Request)
    requires RequestValid(r) && r.route.protocol.VwTp20?
    ensures SetupOctets(r.route, SetupFrame(r.route))
  {
  }

  lemma BeginFrame(j: Job)
    requires RequestValid(j.request)
    ensures var r := j.request;
      if r.route.protocol.IsoTp?
      then FrameOk(j.(phase := IsoSendRequest), Pending(r.route.requestId, r.route.direction, IsoRequestFrame(r), 0, 0))
      else FrameOk(j.(phase := SendSetup), Pending(r.route.requestId, r.route.direction, SetupFrame(r.route), 0, 0))
  {
    hide RequestValid, RequestOctets, SetupOctets, IsoRequestFrame, SetupFrame, FlowOctets, TelegramOctets;
    if j.request.route.protocol.IsoTp? { RequestFrameIs(j.request); } else { SetupFrameIs(j.request); }
  }

  /** A picked up job: its deadline is the clock of the tick plus its timeout, and its first frame waits. */
  lemma BeginProper(s: Transport, c: Command)
    requires RequestValid(c.request)
    ensures var j := BeginJob(s, c).job;
      j.active && j.request == c.request && j.id == c.id && Proper(j) &&
      j.deadline == (s.lastNow + c.request.timeoutMs) % 0x1_0000_0000
    ensures BeginJob(s, c).completed == s.completed
  {
    hide RequestValid, FrameOk, IsoRequestFrame, SetupFrame, PublishedOf, StageTx, Proper;
    var j := NO_JOB.(active := true, request := c.request, id := c.id,
                     deadline := Later(s.lastNow, c.request.timeoutMs));
    var r := c.request.route;
    BeginFrame(j);
    if r.protocol.IsoTp? {
      StagedProper(j, r.requestId, IsoRequestFrame(c.request), IsoSendRequest);
    } else {
      StagedProper(j, r.requestId, SetupFrame(r), SendSetup);
    }
  }

  // ---------------------------------------------------------------- observing ISO-TP

  /** A running job of which nothing waits for the transmitter */
  ghost predicate Listening(j: Job) {
    Clear(j) && j.pending.None? && j.phase != SendAck
  }

  lemma ListeningProper(j: Job)
    requires Listening(j)
    ensures Proper(j) && Clear(j)
  {
    hide RequestValid;
  }

  /** A reply that is complete: only an answer completes the job. */
  lemma CompleteIsoFollows(s: Transport)
    requires Listening(s.job) && s.job.request.payload != []
    ensures Follows(s, CompleteIso(s))
  {
    hide RequestValid, AllAnswer, Validated, Fail, RequestFinish, OutcomeError, Follows, Answered, IsPending;
    var t := s.(job := Validated(s.job, false));
    ValidatedScalars(s.job, false);
    if IsPending(s.job, false) {
      var u := t.(job := t.job.(isoTotal := 0, isoNext := 1, response := [], phase := IsoWaitResponse));
      QuietFollows(s, u);
      Shown(s, u);
    } else if Acceptable(s.job, false) {
      RequestFinishFollows(t, Complete, NoError);
      FollowsOn(s, t, RequestFinish(t, Complete, NoError));
    } else {
      FailFollows(t, OutcomeError(t.job, UnexpectedResponse));
      FollowsOn(s, t, Fail(t, OutcomeError(t.job, UnexpectedResponse)));
    }
  }

  lemma QuietFollows(s: Transport, t: Transport)
    requires t.job.active && AllAnswer(t.job.request, t.job.responses) && t.job.pending.None? && t.job.phase != SendAck
    requires SameOrder(s.job, t.job) && t.completed == s.completed
    ensures Follows(s, t)
  {
    QuietProper(t.job);
  }

  lemma FlowFrameIs(r: Route)
    ensures FlowOctets(r, FlowControlFrame(r))
  {
  }

  lemma FlowFrame(j: Job)
    ensures FrameOk(j.(phase := IsoSendFlowControl),
      Pending(j.request.route.requestId, j.request.route.direction, FlowControlFrame(j.request.route), 0, 0))
  {
    hide RequestOctets, SetupOctets, FlowOctets, TelegramOctets, FlowControlFrame;
    FlowFrameIs(j.request.route);
  }

  lemma OpenedFollows(s: Transport, b: Bytes, total: nat)
    requires Listening(s.job) && |b| >= 3
    ensures Follows(s, Opened(s, b, total))
  {
    hide RequestValid, FrameOk, AllAnswer, FlowControlFrame, Assembled, StageTx, Proper, Fail, Answered;
    FailFollows(s, TooLarge);
    if 0 < total <= MAX_RESPONSE {
      var j := s.job.(isoTotal := total, isoNext := 1, response := Assembled([], b[2..], total));
      var r := j.request.route;
      FlowFrame(j);
      StagedProper(j, r.requestId, FlowControlFrame(r), IsoSendFlowControl);
      var k := StageTx(j, r.requestId, FlowControlFrame(r), IsoSendFlowControl);
      StagedFollows(s, k);
      Shown(s, s.(job := k));
    }
  }

  lemma ContinuedFollows(s: Transport, b: Bytes)
    requires Listening(s.job) && b != [] && s.job.request.payload != []
    ensures Follows(s, Continued(s, b))
  {
    hide RequestValid, AllAnswer, Assembled, Fail, CompleteIso, Answered, Proper, Follows;
    FailFollows(s, SequenceError);
    var j := s.job.(isoNext := (s.job.isoNext + 1) % 16, response := Assembled(s.job.response, b[1..], s.job.isoTotal));
    CompleteIsoFollows(s.(job := j));
    FollowsOn(s, s.(job := j), CompleteIso(s.(job := j)));
    QuietFollows(s, s.(job := j));
    Shown(s, s.(job := j));
  }

  lemma IsoTaken(s: Transport, f: Frame)
    requires IsoTakes(s, f)
    ensures MatchesResponse(s.job, f, s.job.request.route.responseId) && Body(f) != []
    ensures s.job.phase == IsoWaitResponse || s.job.phase == IsoWaitConsecutive
    ensures s.job.phase == IsoWaitResponse ==> SingleFrame(s, f) || FirstFrame(s, f)
    ensures FirstFrame(s, f) ==> |Body(f)| >= 3
  {
  }

  lemma SingleFollows(s: Transport, f: Frame)
    requires Listening(s.job) && s.job.request.payload != [] && SingleFrame(s, f)
    ensures |Body(f)| >= Low(Body(f)[0]) + 1
    ensures Follows(s, CompleteIso(s.(job := s.job.(response := Body(f)[1..Low(Body(f)[0]) + 1]))))
  {
    hide Listening, CompleteIso, Follows, Low, High, Belongs;
    SingleBody(s, f);
    var t := s.(job := s.job.(response := Body(f)[1..Low(Body(f)[0]) + 1]));
    StillListening(s.job, t.job.response);
    CompleteIsoFollows(t);
    FollowsOn(s, t, CompleteIso(t));
  }

  lemma StillListening(j: Job, octets: Bytes)
    requires Listening(j)
    ensures Listening(j.(response := octets))
  {
    hide RequestValid;
  }

  lemma ObserveIsoFollows(s: Transport, f: Frame)
    requires Good(s) && s.job.active && Proper(s.job) && IsoTakes(s, f)
    ensures Follows(s, ObserveIso(s, f))
  {
    hide Good, Listening, ObserveIso, CompleteIso, Opened, Continued, Proper, Follows, IsoTakes, SingleFrame,
         FirstFrame, MatchesResponse, Clear;
    RunningClear(s);
    IsoTaken(s, f);
    WaitingListens(s);
    IsoCases(s, f);
    if s.job.phase == IsoWaitConsecutive {
      ContinuedFollows(s, Body(f));
    } else if SingleFrame(s, f) {
      SingleFollows(s, f);
    } else {
      OpenedFollows(s, Body(f), FirstTotal(f));
    }
  }

  lemma SingleBody(s: Transport, f: Frame)
    requires SingleFrame(s, f)
    ensures Body(f) != [] && |Body(f)| >= Low(Body(f)[0]) + 1
  {
  }

  // ---------------------------------------------------------------- observing TP2.0

  /** The last fragment taken carried this number. */
  predicate TookNumber(j: Job, sequence: nat) {
    j.expectedRx == (sequence + 1) % 16
  }

  lemma AckFrame(j: Job, sequence: nat, after: AfterAck)
    requires Clear(j) && (after == RequestComplete ==> Answers(j.request, j.response))
    requires TookNumber(j, sequence)
    ensures var k := StageAck(j, sequence, after); Proper(k) && SameOrder(j, k) && k.active
  {
    hide RequestValid, AllAnswer, Answers, TelegramOctets, RequestOctets, FlowOctets, SetupOctets;
  }

  /** What may follow an accepted fragment */
  lemma FragmentFollows(s: Transport, sequence: nat, session: bool)
    requires Listening(s.job) && s.job.request.route.protocol.VwTp20? && s.job.request.payload != []
    requires TookNumber(s.job, sequence)
    ensures Follows(s, Fail(s, SequenceError)) && Follows(s, HandleOutcome(s, session))
    ensures Follows(s, s.(job := StageAck(Validated(s.job, session), sequence, Outcome(s.job, session))))
    ensures Follows(s, s.(job := StageAck(s.job, sequence, if session then ThenWaitSession else ThenWaitRequest)))
    ensures Follows(s, Progress(s.(job := s.job.(phase := ResponsePhase(session)))))
  {
    hide RequestValid, AllAnswer, Answers, Answered, Fail, HandleOutcome, StageAck, Validated, Outcome, Proper, Follows;
    var j := s.job;
    FailFollows(s, SequenceError);
    HandleOutcomeFollows(s, session);
    OutcomeAnswers(j, session);
    ValidatedScalars(j, session);
    AckFrame(Validated(j, session), sequence, Outcome(j, session));
    StagedFollows(s, StageAck(Validated(j, session), sequence, Outcome(j, session)));
    var wait := if session then ThenWaitSession else ThenWaitRequest;
    AckFrame(j, sequence, wait);
    StagedFollows(s, StageAck(j, sequence, wait));
    var t := s.(job := j.(phase := ResponsePhase(session)));
    QuietFollows(s, t);
    Shown(s, t);
  }

  lemma TakenListening(j: Job, b: Bytes, op: nat)
    requires Listening(j) && b != [] && (j.rxStarted || |b| >= 3) && j.expectedRx == Low(b[0])
    ensures var k := TakeFragment(j, b, op);
      Listening(k) && SameOrder(j, k) && TookNumber(k, Low(b[0]))
  {
    hide RequestValid, AllAnswer, Assembled;
  }

  lemma ObserveKwpFollows(s: Transport, b: Bytes, session: bool)
    requires Listening(s.job) && s.job.request.route.protocol.VwTp20? && s.job.request.payload != []
    requires b != [] && KwpOp(High(b[0]))
    ensures Follows(s, ObserveKwp(s, b, session))
  {
    hide RequestValid, AllAnswer, Answered, Followed, Fail, Proper, Follows, ObserveKwp, TakeFragment, Wide,
         HandleOutcome, StageAck, Validated, Outcome, Progress;
    KwpCases(s, b, session);
    FailFollows(s, SequenceError);
    FailFollows(s, NegotiationFailed);
    FailFollows(s, UnexpectedResponse);
    FailFollows(s, TooLarge);
    var t := s.(job := s.job.(phase := ResponsePhase(session)));
    QuietFollows(s, t);
    Shown(s, t);
    if Low(b[0]) == s.job.expectedRx && (s.job.rxStarted || |b| >= 3) {
      TakenListening(s.job, b, High(b[0]));
      var u := s.(job := TakeFragment(s.job, b, High(b[0])));
      FragmentFollows(u, Low(b[0]), session);
      FollowedCases(u, High(b[0]), Low(b[0]), session);
      FollowsOn(s, u, Followed(u, High(b[0]), Low(b[0]), session));
    }
  }

  lemma ParamsFrame(j: Job)
    ensures FrameOk(j.(phase := SendParams),
      Pending(j.testerId, j.request.route.direction, [0xA0, 0x0F, 0x8A, 0xFF, 0x32, 0xFF], 0, 0))
  {
    hide RequestOctets, SetupOctets, FlowOctets, TelegramOctets;
  }

  lemma SetupFollows(s: Transport, b: Bytes)
    requires Listening(s.job) && |b| >= 2
    ensures Follows(s, ObserveSetup(s, b))
  {
    hide RequestValid, AllAnswer, Answered, Finish, Proper, Follows, StageTx, SetupAccepted, FrameOk;
    FinishFollows(s, Failed, SetupRejected);
    FinishFollows(s, Failed, NegotiationFailed);
    if b[1] == 0xD0 && SetupAccepted(b, s.job.request.route) {
      SetupIds(b, s.job.request.route);
      var j := s.job.(ecuId := DecodeId(b[2], b[3]).value, testerId := DecodeId(b[4], b[5]).value, channelOpen := true);
      ParamsFrame(j);
      StagedProper(j, j.testerId, [0xA0, 0x0F, 0x8A, 0xFF, 0x32, 0xFF], SendParams);
      var k := StageTx(j, j.testerId, [0xA0, 0x0F, 0x8A, 0xFF, 0x32, 0xFF], SendParams);
      StagedFollows(s, k);
      Shown(s, s.(job := k));
    }
  }

  lemma SetupIds(b: Bytes, r: Route)
    requires SetupAccepted(b, r)
    ensures |b| >= 7 && DecodeId(b[2], b[3]).Some? && DecodeId(b[4], b[5]).Some?
  {
  }

  lemma ParamsFollows(s: Transport, b: Bytes)
    requires Listening(s.job) && s.job.telegrams == 0 && s.job.fragments == 0
    ensures Follows(s, ObserveParams(s, b))
  {
    hide RequestValid, AllAnswer, Answered, Fail, Proper, Follows, StageKwp, ParamsSensible;
    FailFollows(s, NegotiationFailed);
    var j := s.job.(txSequence := 0, expectedRx := 0);
    TelegramProper(j, j.request.route.enterSession);
    StagedFollows(s, StageKwp(j, j.request.route.enterSession));
    Shown(s, s.(job := StageKwp(j, j.request.route.enterSession)));
  }

  lemma WaitingListens(s: Transport)
    requires Good(s) && s.job.active && Proper(s.job) && !SendPhase(s.job.phase)
    ensures Listening(s.job)
    ensures s.job.phase == WaitParams ==> s.job.telegrams == 0 && s.job.fragments == 0
    ensures s.job.phase == WaitDisconnect ==> s.job.terminal.Some?
  {
  }

  lemma TakesWaiting(s: Transport, f: Frame)
    requires Tp20Takes(s, f)
    ensures !SendPhase(s.job.phase) && Body(f) != []
    ensures s.job.phase == WaitSetup ==> |Body(f)| >= 2
  {
    hide MatchesResponse;
  }

  lemma ObserveTp20Follows(s: Transport, f: Frame)
    requires Good(s) && s.job.active && Proper(s.job) && s.job.request.route.protocol.VwTp20? && Tp20Takes(s, f)
    ensures Follows(s, ObserveTp20(s, f))
  {
    hide Good, RequestValid, AllAnswer, Answered, Proper, Follows, ObserveTp20, ObserveKwp, ObserveSetup, ObserveParams,
         Finalize, Tp20Takes, MatchesResponse;
    RunningClear(s);
    TakesWaiting(s, f);
    WaitingListens(s);
    var b := Body(f);
    if KwpPhase(s.job.phase) {
      Tp20Cases(s, f);
      ObserveKwpFollows(s, b, SessionPhase(s.job.phase));
    } else {
      ControlCases(s, f);
      ControlledFollows(s, b);
    }
  }

  lemma ControlledFollows(s: Transport, b: Bytes)
    requires Listening(s.job) && s.job.request.route.protocol.VwTp20?
    requires s.job.phase == WaitDisconnect || s.job.phase == WaitChannelTest || s.job.phase == WaitSetup ||
             s.job.phase == WaitParams
    requires s.job.phase == WaitSetup ==> |b| >= 2
    requires s.job.phase == WaitParams ==> s.job.telegrams == 0 && s.job.fragments == 0
    requires s.job.phase == WaitDisconnect ==> s.job.terminal.Some?
    ensures Follows(s, Controlled(s, b))
  {
    hide RequestValid, AllAnswer, Answered, Proper, Follows, ObserveSetup, ObserveParams, Finalize, Later;
    if s.job.phase == WaitDisconnect {
      FinalizeFollows(s);
    } else if s.job.phase == WaitChannelTest {
      var t := s.(job := s.job.(channelTestAt := Later(s.lastNow, CHANNEL_TEST_INTERVAL), phase := WaitRepeat));
      QuietFollows(s, t);
      Shown(s, t);
    } else if s.job.phase == WaitSetup {
      SetupFollows(s, b);
    } else {
      ParamsFollows(s, b);
    }
  }

  /** The two identifiers that a positive setup reply grants, low octet first. */
  predicate Grants(b: Bytes, r: Route) {
    && |b| >= 7 && b[0] == 0 && b[1] == 0xD0 && b[6] == r.applicationType
    && 1 <= b[3] as int * 256 + b[2] as int <= 0x7FF && 1 <= b[5] as int * 256 + b[4] as int <= 0x7FF
  }

  /** The reply to a channel setup: the ECU is listened to on the first identifier and addressed on the
      second; any other reply ends the job, as rejected exactly for the codes 0xD6 to 0xD8. */
  lemma SetupNegotiates(s: Transport, f: Frame)
    requires Good(s) && s.job.active && s.job.phase == WaitSetup && Tp20Takes(s, f)
    ensures var b, t := Body(f), ObserveTp20(s, f);
      && |b| >= 2 && (b[1] == 0xD0 || 0xD6 <= b[1] <= 0xD8)
      && (if Grants(b, s.job.request.route) then
            t.job.active && t.job.channelOpen && t.job.phase == SendParams &&
            t.job.ecuId == b[3] as int * 256 + b[2] as int && t.job.testerId == b[5] as int * 256 + b[4] as int
          else
            !t.job.active && t.failed == s.failed + 1 &&
            t.published.error == if b[1] == 0xD0 then NegotiationFailed else SetupRejected)
  {
    hide Good, MatchesResponse, DecodeId;
    var b := Body(f);
    if |b| >= 7 {
      DecodedId(b[2], b[3]);
      DecodedId(b[4], b[5]);
    }
  }

  lemma DecodedId(low: Byte, prefix: Byte)
    ensures var id := prefix as int * 256 + low as int;
      DecodeId(low, prefix) == if 1 <= id <= 0x7FF then Some(id) else None
  {
  }

  // ---------------------------------------------------------------- every run

  lemma ObserveFollows(s: Transport, f: Frame)
    requires Good(s) && s.job.active && Proper(s.job)
    ensures Follows(s, Observe(s, f))
  {
    hide Good, Proper, Follows, Answered, IsoTakes, Tp20Takes, ObserveIso, ObserveTp20, CollidesActive, Finish;
    SameFollows(s);
    FinishFollows(s, Failed, Collision);
    if s.job.request.route.protocol.IsoTp? {
      if IsoTakes(s, f) { ObserveIsoFollows(s, f); }
    } else if Tp20Takes(s, f) {
      ObserveTp20Follows(s, f);
    }
  }

  /** The request of the open job. */
  function OpenRequest(s: Transport): Request {
    if s.job.active then s.job.request else if s.mailbox.Some? then s.mailbox.value.request else s.job.request
  }

  ghost predicate Stands(s: Transport) {
    s.job.active ==> Proper(s.job)
  }

  /** From one call to the next: the job goes on with its deadline, or is picked up by a tick with the
      clock of that tick plus its timeout; what completes has only answers to the request. */
  ghost predicate Advances(s: Transport, c: Call, t: Transport) {
    && Stands(t) && s.completed <= t.completed
    && (t.completed > s.completed ==> t.completed == s.completed + 1 && s.busy && Answered(OpenRequest(s), t.published))
    && (t.job.active ==> t.job.request == OpenRequest(s))
    && (t.job.active && s.job.active ==> t.job.deadline == s.job.deadline)
    && (t.job.active && !s.job.active ==>
          c.TickCall? && s.mailbox.Some? && t.job.deadline == (c.now + t.job.request.timeoutMs) % 0x1_0000_0000)
  }

  lemma FollowingAdvances(s: Transport, c: Call, t: Transport)
    requires Good(s) && s.job.active && Follows(s, t)
    ensures Advances(s, c, t)
  {
    hide Proper, Answered;
  }

  lemma PickedUpAdvances(s: Transport, now: U32, answer: bool)
    requires Good(s) && !s.job.active
    ensures Advances(s, TickCall(now, answer), Tick(s, now, answer))
  {
    hide Proper, Answered, BeginJob, TickJob, Finish, Tick, PhaseOk, RequestValid;
    TickCases(s, now, answer);
    if s.mailbox.Some? {
      var t := s.(lastNow := now, mailbox := None);
      var begun := BeginJob(t, s.mailbox.value);
      BeginProper(t, s.mailbox.value);
      BeginJobGood(t, s.mailbox.value);
      FinishFollows(begun, Cancelled, CancelledError);
      TickJobFollows(begun, answer);
    } else {
      IdleTick(s.(lastNow := now), answer);
    }
  }

  lemma IdleTick(s: Transport, answer: bool)
    requires !s.job.active
    ensures TickJob(s, answer) == s
  {
  }

  lemma TickAdvances(s: Transport, now: U32, answer: bool)
    requires Good(s) && Stands(s)
    ensures Advances(s, TickCall(now, answer), Tick(s, now, answer))
  {
    hide Good, Proper, Advances, TickJob, Tick, Follows;
    if s.job.active {
      var t := s.(lastNow := now);
      LaterGood(s, now);
      TickCases(s, now, answer);
      TickJobFollows(t, answer);
      FollowsOn(s, t, TickJob(t, answer));
      FollowingAdvances(s, TickCall(now, answer), TickJob(t, answer));
    } else {
      PickedUpAdvances(s, now, answer);
    }
  }

  lemma LaterGood(s: Transport, now: U32)
    requires Good(s)
    ensures Good(s.(lastNow := now))
  {
  }

  lemma QueuedCollision(s: Transport, f: Frame)
    requires Good(s) && !s.job.active
    ensures Advances(s, ObserveCall(f), Observe(s, f))
  {
    hide PhaseOk, RequestValid, CollidesQueued;
    if s.mailbox.Some? {
      BeginJobGood(s.(mailbox := None), s.mailbox.value);
    }
  }

  lemma StepAdvances(s: Transport, c: Call)
    requires Good(s) && Stands(s)
    ensures Advances(s, c, Step(s, c))
  {
    hide Good, Proper, Advances, Tick, Observe, Follows;
    match c
    case TickCall(now, answer) => TickAdvances(s, now, answer);
    case ObserveCall(f) =>
      if s.job.active {
        ObserveFollows(s, f);
        FollowingAdvances(s, c, Observe(s, f));
      } else {
        QueuedCollision(s, f);
      }
    case SubmitCall(_) => OtherAdvances(s, c);
    case CancelCall(_) => OtherAdvances(s, c);
    case AbortCall(_) => OtherAdvances(s, c);
  }

  lemma OtherAdvances(s: Transport, c: Call)
    requires Good(s) && Stands(s) && !c.TickCall? && !c.ObserveCall?
    ensures Advances(s, c, Step(s, c))
  {
    hide Proper, Answered, RequestValid, Core, PhaseOk;
  }

  /** In every run, whatever frames arrive: a job that completes has nothing but answers to its own
      request, first octet as asked for or that of the request plus 0x40; the deadline of a job is the
      clock at which it was picked up plus its timeout; and what waits for the transmitter is, octet by
      octet, the frame of the phase, addressed as the route or the channel says. */
  lemma {:induction false} OnlyAnswersComplete(calls: seq<Call>, c: Call)
    ensures Advances(After(calls), c, Step(After(calls), c))
    ensures var j := After(calls).job; j.active && j.pending.Some? ==> FrameOk(j, j.pending.value)
  {
    hide Good, Advances, Step;
    if calls != [] {
      OnlyAnswersComplete(calls[..|calls| - 1], calls[|calls| - 1]);
      AdvancesStands(After(calls[..|calls| - 1]), calls[|calls| - 1], After(calls));
    }
    StepAdvances(After(calls), c);
  }

  lemma AdvancesStands(s: Transport, c: Call, t: Transport)
    requires Advances(s, c, t)
    ensures Stands(t)
  {
  }
}
