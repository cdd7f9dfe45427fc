/** The transport's entry points and their helpers (core/diagnostic_transport.cpp). The active job's
    scalars are a record updated field by field; its frame and its response are the fixed buffers of
    `DiagnosticBuffers`. Every method takes the step of `DiagnosticSpec`, and the entry points state
    what that means for a caller. */
module DiagnosticModule {
  import opened Types
  import opened DiagnosticSpec
  import opened DiagnosticInvariant
  import opened DiagnosticBuffers
  import opened DiagnosticCases
  import opened DiagnosticSteps
  import DiagnosticCalls
  import DiagnosticOffers

  class DiagnosticTransport {
    var job: Job  // `pending` and `response` are kept in the buffers
    const tx: TxSlot
    const buffer: ResponseBuffer
    var mailbox: Option<Command>
    var busy: bool
    var cancelId: nat
    var abortId: nat
    var abortError: Error
    var nextId: U32
    var lastNow: U32
    var published: Published
    var submitted: nat
    var completed: nat
    var failed: nat
    var cancelled: nat
    var calls: nat

    ghost function Parts(): set<object> {
      {this, tx, tx.frame, buffer, buffer.octets}
    }

    /** No advertised length exceeds the response buffer, a frame waits only in the phase of its kind,
        and the phase is one of the job's protocol. */
    ghost predicate Rep()
      reads this`job, tx, buffer
    {
      Sound()
    }

    ghost predicate Sound()
      reads this`job, tx, buffer
    {
      && tx.Valid() && buffer.Valid() && tx.frame != buffer.octets
      && job.pending == None && job.response == []
      && job.isoTotal <= MAX_RESPONSE && job.rxTotal <= MAX_RESPONSE
      && (tx.valid ==> job.active && tx.action != NoTx && job.phase == Sending(tx.action))
      && (job.active ==> RequestValid(job.request) && (IsoPhase(job.phase) <==> job.request.route.protocol.IsoTp?))
    }

    function Current(): (j: Job)
      reads this`job, tx, tx.frame, buffer, buffer.octets
      requires Rep()
      ensures j == job.(pending := j.pending, response := j.response)
      ensures j.response == buffer.Octets() && (j.pending.Some? <==> tx.valid)
    {
      job.(pending := tx.Waiting(), response := buffer.Octets())
    }

    /** Everything but the job. */
    function Desk(): (d: Transport)
      reads this`mailbox, this`busy, this`cancelId, this`abortId, this`abortError, this`nextId, this`lastNow,
            this`published, this`submitted, this`completed, this`failed, this`cancelled, this`calls
      ensures d.lastNow == lastNow && d.calls == calls
    {
      Transport(NO_JOB, mailbox, busy, cancelId, abortId, abortError, nextId, lastNow, published,
                submitted, completed, failed, cancelled, calls)
    }

    function State(): (s: Transport)
      reads this, tx, tx.frame, buffer, buffer.octets
      requires Rep()
    {
      Desk().(job := Current())
    }

    /** What every entry point keeps: the invariant of all runs, and the numbering of jobs. */
    ghost predicate Valid()
      reads this, tx, tx.frame, buffer, buffer.octets
    {
      Rep() && Good(State()) && DiagnosticCalls.Numbered(State())
    }

    /** A running TP2.0 job with no frame waiting. */
    ghost predicate Tp20Ready()
      reads this`job, tx
    {
      job.active && job.request.route.protocol.VwTp20? && !tx.valid
    }

    constructor ()
      ensures Valid() && State() == Init() && fresh(Parts())
    {
      tx := new TxSlot();
      buffer := new ResponseBuffer();
      job, mailbox, busy, cancelId, abortId := NO_JOB, None, false, 0, 0;
      abortError, nextId, lastNow := Aborted, 1, 0;
      published := Published(0, StateIdle, NoError, [], 0, false, false, 0, []);
      submitted, completed, failed, cancelled, calls := 0, 0, 0, 0, 0;
      new;
      assert State() == Init();
    }

    // ---------------------------------------------------------------- publishing and finishing

    method PublishActiveProgress()
      requires Rep()
      modifies this`published
      ensures Rep() && State() == Progress(old(State()))
    {
      hide Sound, Current;
      if job.active { published := PublishedOf(Current(), Active, NoError); }
    }

    method FinishImmediately(state: JobState, error: Error)
      requires Rep()
      modifies this, tx, tx.frame, buffer, buffer.octets
      ensures Rep() && State() == Finish(old(State()), state, error)
    {
      hide PublishedOf, Rep, Sound, Current, Desk, Released;
      if !job.active { return; }
      CloseDesk(job.id, state, PublishedOf(Current(), state, error));
      ClearJob();
    }

    /** The result is shown and counted, requests against the job end with it, and the slot is free. */
    method CloseDesk(id: nat, state: JobState, result: Published)
      modifies this`published, this`completed, this`cancelled, this`failed, this`cancelId, this`abortId, this`busy
      ensures var d := old(Desk());
        Desk() == d.(published := result,
          completed := d.completed + (if state == Complete then 1 else 0),
          cancelled := d.cancelled + (if state == Cancelled then 1 else 0),
          failed := d.failed + (if state == Complete || state == Cancelled then 0 else 1),
          cancelId := Released(d.cancelId, id), abortId := Released(d.abortId, id), busy := false)
    {
      published := result;
      if state == Complete { completed := completed + 1; }
      else if state == Cancelled { cancelled := cancelled + 1; }
      else { failed := failed + 1; }
      if cancelId == id { cancelId := 0; }
      if abortId == id { abortId := 0; }
      busy := false;
    }

    /** `job = {}` */
    method ClearJob()
      requires Rep()
      modifies this`job, tx, buffer
      ensures Rep() && Current() == NO_JOB
    {
      tx.Clear();
      buffer.Reset();
      job := NO_JOB;
    }

    method Stage(id: U32, data: Bytes, action: TxAction)
      requires Rep() && job.active && |data| <= FRAME_BYTES && action != NoTx
      requires IsoPhase(Sending(action)) <==> job.request.route.protocol.IsoTp?
      modifies this`job, tx, tx.frame
      ensures Rep() && Current() == StageTx(old(Current()), id, data, Sending(action))
    {
      hide RequestValid;
      tx.Stage(id, job.request.route.direction, data, action);
      job := job.(phase := Sending(action));
    }

    method Await(phase: Phase)
      requires Rep() && job.active && !tx.valid
      requires IsoPhase(phase) <==> job.request.route.protocol.IsoTp?
      modifies this`job
      ensures Rep() && Current() == old(Current()).(phase := phase)
    {
      hide RequestValid;
      job := job.(phase := phase);
    }

    method RequestEnd(state: JobState, error: Error)
      requires Rep()
      modifies this, tx, tx.frame, buffer, buffer.octets
      ensures Rep() && State() == RequestFinish(old(State()), state, error)
    {
      hide Rep, Sound, Finish, Current, Desk, StageTx;
      if !job.active { return; }
      if job.request.route.protocol.VwTp20? && job.channelOpen && job.testerId != 0 {
        StageDisconnect(Terminal(state, error));
      } else {
        FinishImmediately(state, error);
      }
    }

    method AwaitShown(phase: Phase)
      requires Rep() && job.active && !tx.valid
      requires IsoPhase(phase) <==> job.request.route.protocol.IsoTp?
      modifies this`job, this`published
      ensures Rep() && State() == Progress(old(State()).(job := old(Current()).(phase := phase)))
    {
      hide Sound, Current, Desk, Progress;
      Await(phase);
      PublishActiveProgress();
    }

    /** `stageTp20Disconnect` */
    method StageDisconnect(t: Terminal)
      requires Rep() && job.active && job.request.route.protocol.VwTp20?
      modifies this`job, tx, tx.frame
      ensures Rep()
      ensures Current() ==
        StageTx(old(Current()).(terminal := Some(t)), old(job).testerId, [0xA8], SendDisconnect)
    {
      hide RequestValid;
      tx.Stage(job.testerId, job.request.route.direction, [0xA8], Disconnect);
      job := job.(terminal := Some(t), phase := SendDisconnect);
    }

    method FinalizeTerminalIntent()
      requires Rep()
      modifies this, tx, tx.frame, buffer, buffer.octets
      ensures Rep() && State() == Finalize(old(State()))
    {
      hide Rep, Sound, Current, Desk, Finish;
      if job.terminal.Some? { FinishImmediately(job.terminal.value.state, job.terminal.value.error); }
    }

    // ---------------------------------------------------------------- TP2.0 requests

    method StageTp20KwpRequest(session: bool)
      requires Rep() && job.active && job.request.route.protocol.VwTp20?
      modifies this`job, tx, tx.frame, buffer
      ensures Rep() && Current() == StageKwp(old(Current()), session)
    {
      hide Sound, Current, Desk, StageTx, ResetTp20;
      TelegramFits();
      ghost var before := Current();
      var payload := if session then [0x10, job.request.route.kwpSession] else job.request.payload;
      var frame: Bytes := [0x10 + job.txSequence % 16, 0, |payload| % 256] + payload;
      NumberTelegram();
      ghost var numbered := Current();
      TelegramParts(before, numbered, session);
      Stage(job.testerId, frame, if session then Session else RequestTx);
    }

    lemma TelegramFits()
      requires Rep() && job.active && job.request.route.protocol.VwTp20?
      ensures |job.request.payload| + 3 <= FRAME_BYTES
    {
      FramesFit(job.request);
    }

    method NumberTelegram()
      requires Rep()
      modifies this`job, buffer
      ensures Rep()
      ensures Current() == ResetTp20(old(Current())).(
        expectedAck := (old(job).txSequence + 1) % 16, txSequence := (old(job).txSequence + 1) % 16,
        telegrams := old(job).telegrams + 1)
    {
      hide RequestValid;
      var next := (job.txSequence + 1) % 16;
      job := job.(expectedAck := next, txSequence := next, telegrams := job.telegrams + 1,
                  rxStarted := false, rxTotal := 0);
      buffer.Reset();
    }

    method ResetTp20Assembly()
      requires Rep()
      modifies this`job, buffer
      ensures Rep() && Current() == ResetTp20(old(Current()))
    {
      job := job.(rxStarted := false, rxTotal := 0);
      buffer.Reset();
    }

    method CompleteKwpRequest()
      requires Rep() && Tp20Ready()
      modifies this, tx, tx.frame, buffer, buffer.octets
      ensures Rep() && State() == CompleteKwp(old(State()))
    {
      hide Sound, Current, RequestFinish, PublishedOf;
      CountRequest();
      if job.completedRequests >= job.request.repeatCount {
        RequestEnd(Complete, NoError);
        return;
      }
      PublishActiveProgress();
      AwaitRepeat();
    }

    method AwaitRepeat()
      requires Rep() && Tp20Ready()
      modifies this`job
      ensures Rep()
      ensures Current() == old(Current()).(repeatAt := Later(lastNow, old(job).request.repeatIntervalMs),
                                           channelTestAt := Later(lastNow, CHANNEL_TEST_INTERVAL), phase := WaitRepeat)
    {
      hide RequestValid;
      job := job.(repeatAt := Later(lastNow, job.request.repeatIntervalMs),
                  channelTestAt := Later(lastNow, CHANNEL_TEST_INTERVAL), phase := WaitRepeat);
    }

    method CountRequest()
      requires Rep()
      modifies this`job
      ensures Rep()
      ensures var j := old(Current());
        Current() == j.(completedRequests := j.completedRequests + 1,
                        responses := j.responses + [Telegram(j.rxTotal, j.response, j.lastOp)])
    {
      job := job.(completedRequests := job.completedRequests + 1,
                  responses := job.responses + [Telegram(job.rxTotal, buffer.Octets(), job.lastOp)]);
    }

    /** A response starts over. */
    method AwaitAfresh(phase: Phase)
      requires Rep() && Tp20Ready() && !IsoPhase(phase)
      modifies this`job, buffer
      ensures Rep() && Current() == ResetTp20(old(Current())).(phase := phase)
    {
      hide Sound, Current;
      ResetTp20Assembly();
      Await(phase);
    }

    method FailWith(otherwise: Error)
      requires Rep()
      modifies this, tx, tx.frame, buffer, buffer.octets
      ensures Rep() && State() == Fail(old(State()), OutcomeError(old(Current()), otherwise))
    {
      hide Rep, Sound, Current, Desk, RequestFinish;
      RequestEnd(Failed, if job.negative then NegativeResponse else otherwise);
    }

    method NoteAck(action: AfterAck)
      requires Rep()
      modifies this`job
      ensures Rep() && Current() == old(Current()).(afterAck := action)
    {
      job := job.(afterAck := action);
    }

    method ApplyAck()
      requires Rep() && Tp20Ready() && !IsoPhase(job.phase)
      modifies this, tx, tx.frame, buffer, buffer.octets
      ensures Rep() && State() == ApplyAfterAck(old(State()))
    {
      hide Sound, Current, Desk, ApplyAfterAck, Acted;
      ghost var before := State();
      var action := job.afterAck;
      NoteAck(NoAction);
      AckCases(before, State());
      if action == NoAction { return; }
      if action == ThenWaitSession || action == ThenWaitRequest {
        Await(if action == ThenWaitSession then WaitSessionResponse else WaitRequestResponse);
      } else {
        ActOn(action);
      }
    }

    // ---------------------------------------------------------------- validation

    /** `validateCompletedPayload`, on the octets in the buffer */
    method Validate(session: bool) returns (valid: bool)
      requires Rep()
      modifies this`job
      ensures Rep() && Current() == Validated(old(Current()), session)
      ensures valid == DiagnosticSpec.Acceptable(old(Current()), session)
    {
      hide Current, RequestValid;
      if buffer.length == 0 { return false; }
      var negative, pending := buffer.Negative(if session then 0x10 else RequestSid(job.request));
      if negative {
        Mark(!pending, pending);
        return pending;
      }
      return buffer.octets[0] == if session then 0x50 else ExpectedSid(job.request);
    }

    method Mark(negative: bool, pending: bool)
      requires Rep()
      modifies this`job
      ensures Rep()
      ensures var j := old(Current());
        Current() == j.(negative := j.negative || negative, pendingSeen := j.pendingSeen || pending)
    {
      job := job.(negative := job.negative || negative, pendingSeen := job.pendingSeen || pending);
    }

    /** `isCurrentPendingResponse` */
    method PendingResponse(session: bool) returns (pending: bool)
      requires Rep()
      ensures pending == IsPending(Current(), session)
    {
      hide RequestValid;
      var negative;
      negative, pending := buffer.Negative(if session then 0x10 else RequestSid(job.request));
    }

    /** `kwpOutcomeAfterAck` */
    method KwpOutcome(session: bool) returns (outcome: AfterAck)
      requires Rep()
      modifies this`job
      ensures Rep() && Current() == Validated(old(Current()), session)
      ensures outcome == Outcome(old(Current()), session)
    {
      hide Sound, Current, Desk, DiagnosticSpec.Acceptable;
      ghost var before := Current();
      PendingStays(before, session);
      var valid := Validate(session);
      var wait := PendingResponse(session);
      if wait { return if session then ThenWaitSession else RequestPending; }
      if !valid { return if session then SessionFailed else RequestFailed; }
      return if session then SessionComplete else RequestComplete;
    }

    method HandleKwpPayloadOutcome(session: bool)
      requires Rep() && Tp20Ready() && !IsoPhase(job.phase)
      modifies this, tx, tx.frame, buffer, buffer.octets
      ensures Rep() && State() == HandleOutcome(old(State()), session)
    {
      hide Rep, Sound, Current, Desk, Validated, Outcome, HandleOutcome, Acted;
      ghost var before := State();
      ValidatedScalars(before.job, session);
      var outcome := KwpOutcome(session);
      HandleCases(before, session, State());
      ActOn(outcome);
    }

    /** What a KWP outcome leads to. */
    method ActOn(outcome: AfterAck)
      requires Rep() && Tp20Ready() && !IsoPhase(job.phase)
      modifies this, tx, tx.frame, buffer, buffer.octets
      ensures Rep() && State() == Acted(old(State()), outcome)
    {
      hide Rep, Sound, Current, Desk, Fail, OutcomeError, StageKwp, CompleteKwp, ResetTp20, Acted;
      ActedCases(State(), outcome);
      if outcome == ThenWaitSession || outcome == RequestPending || outcome == SessionComplete {
        GoOn(outcome);
      } else if outcome == RequestComplete {
        CompleteKwpRequest();
      } else {
        FailWith(if outcome == SessionFailed then NegotiationFailed else UnexpectedResponse);
      }
    }

    /** The response starts over, or the request follows the session. */
    method GoOn(outcome: AfterAck)
      requires Rep() && Tp20Ready() && !IsoPhase(job.phase)
      requires outcome == ThenWaitSession || outcome == RequestPending || outcome == SessionComplete
      modifies this`job, tx, tx.frame, buffer
      ensures Rep() && State() == Acted(old(State()), outcome)
    {
      hide Rep, Sound, Current, Desk, StageKwp, ResetTp20, Acted;
      ActedCases(State(), outcome);
      if outcome == SessionComplete {
        StageTp20KwpRequest(false);
      } else {
        AwaitAfresh(if outcome == ThenWaitSession then WaitSessionResponse else WaitRequestResponse);
      }
    }

    // ---------------------------------------------------------------- transmitting

    method HandleSuccessfulTx(action: TxAction)
      requires Rep() && job.active && !tx.valid && job.phase == Sending(action)
      modifies this, tx, tx.frame, buffer, buffer.octets
      ensures Rep() && State() == AfterTx(old(State()))
    {
      hide Sound, Current, ApplyAfterAck;
      assert IsoPhase(job.phase) <==> job.request.route.protocol.IsoTp? by { PhaseOfProtocol(); }
      if action == Ack { ApplyAck(); } else { AwaitReply(action); }
    }

    lemma PhaseOfProtocol()
      requires Rep() && job.active
      ensures IsoPhase(job.phase) <==> job.request.route.protocol.IsoTp?
    {
      hide RequestValid;
    }

    /** Every other frame is followed by the wait for its reply, some for a bounded time. */
    method AwaitReply(action: TxAction)
      requires Rep() && job.active && !tx.valid && job.phase == Sending(action) && action != Ack
      modifies this`job
      ensures Rep() && State() == AfterTx(old(State()))
    {
      hide AfterTx, RequestValid, Reply, Sending, IsoPhase, Later;
      ReplyAwaited(State(), action);
      ReplyPhase(action);
      var test := if action == ChannelTest then Later(lastNow, CHANNEL_TEST_TIMEOUT) else job.channelTestDeadline;
      var wait := if action == Disconnect then Later(lastNow, DISCONNECT_TIMEOUT) else job.disconnectDeadline;
      job := job.(phase := Reply(action), channelTestDeadline := test, disconnectDeadline := wait);
    }

    method TakeFrame() returns (action: TxAction)
      requires Rep() && tx.valid
      modifies tx
      ensures Rep() && Current() == old(Current()).(pending := None)
      ensures job.phase == Sending(action) && job.active
    {
      action := tx.action;
      tx.Clear();
    }

    method KeepFrame(next: U32)
      requires Rep() && tx.valid
      modifies tx
      ensures Rep()
      ensures var p := old(Current()).pending.value;
        Current() == old(Current()).(pending := Some(p.(attempts := p.attempts + 1, retryAt := next)))
    {
      hide RequestValid;
      tx.Refuse(next);
    }

    method AfterAccepted()
      requires Rep() && tx.valid
      modifies this, tx, tx.frame, buffer, buffer.octets
      ensures Rep()
      ensures State() == Progress(AfterTx(old(State()).(job := old(Current()).(pending := None))))
    {
      hide Sound, Current, AfterTx;
      var action := TakeFrame();
      HandleSuccessfulTx(action);
      PublishActiveProgress();
    }

    method AfterRefusal()
      requires Rep() && tx.valid
      modifies tx, this`published
      ensures Rep()
      ensures var p := old(Current()).pending.value;
        State() == Progress(old(State()).(job := old(Current()).(
          pending := Some(p.(attempts := p.attempts + 1, retryAt := Later(lastNow, RETRY_DELAY))))))
    {
      hide Sound, Current, Desk, Progress, Later;
      KeepFrame(Later(lastNow, RETRY_DELAY));
      PublishActiveProgress();
    }

    method AfterLastRefusal()
      requires Rep() && tx.valid
      modifies this, tx, tx.frame, buffer, buffer.octets
      ensures Rep()
      ensures var given := old(State()).(job := old(Current()).(pending := None));
        State() == if given.job.phase == SendDisconnect && given.job.terminal.Some? then Finalize(given)
                   else Fail(given, TxFailed)
    {
      hide Sound, Current, RequestFinish, Finalize;
      var action := TakeFrame();
      if action == Disconnect && job.terminal.Some? { FinalizeTerminalIntent(); } else { RequestEnd(Failed, TxFailed); }
    }

    /** What is due for transmission. */
    function Due(): (f: Option<Frame>)
      reads this`job, this`lastNow, tx, tx.frame, buffer, buffer.octets
      requires Rep()
      ensures f.Some? ==> f.value.dlc == |f.value.data| <= FRAME_BYTES
      ensures f == DiagnosticOffers.Due(State())
    {
      if tx.valid && TimeReached(lastNow, tx.retryAt)
      then Some(Frame(tx.id, tx.direction, tx.length, tx.frame[..tx.length])) else None
    }

    /** The only transmit site. `sent` is the frame offered to the driver, and `answer` what it replies. */
    method TransmitOnePendingFrame(answer: bool) returns (sent: Option<Frame>)
      requires Rep()
      modifies this, tx, tx.frame, buffer, buffer.octets
      ensures Rep() && State() == TransmitOne(old(State()), answer)
      ensures sent == old(Due()) && calls == old(calls) + (if sent.Some? then 1 else 0)
    {
      hide Sound, Current, Desk, AfterTx, Fail, Finalize, TransmitOne, Progress, TimeReached;
      sent := Due();
      SlotIs();
      TransmitCases(State(), answer);
      if sent.None? { return; }
      CountCall();
      if answer {
        AfterAccepted();
      } else if tx.attempts + 1 < MAX_ATTEMPTS {
        AfterRefusal();
      } else {
        AfterLastRefusal();
      }
    }

    method CountCall()
      requires Rep()
      modifies this`calls
      ensures Rep() && State() == old(State()).(calls := old(calls) + 1)
    {
      hide Sound, Current;
      calls := calls + 1;
    }

    /** The slot as the job sees it. */
    lemma SlotIs()
      requires Rep()
      ensures Current().pending.Some? <==> tx.valid
      ensures tx.valid ==> job.active && Current().pending.value.attempts == tx.attempts &&
                           Current().pending.value.retryAt == tx.retryAt
    {
    }

    // ---------------------------------------------------------------- ticks

    /** The first frame of an ISO-TP job: filled with the padding octet, then written. */
    method IsoRequestOctets(r: Request) returns (data: Bytes)
      requires RequestValid(r) && r.route.protocol.IsoTp?
      ensures data == IsoRequestFrame(r) && |data| <= FRAME_BYTES
    {
      var frame := new Byte[FRAME_BYTES](_ => r.route.padding);
      frame[0] := |r.payload| % 16;
      var index := 0;
      while index < |r.payload|
        invariant 0 <= index <= |r.payload| && frame[0] == |r.payload| % 16
        invariant frame[1..index + 1] == r.payload[..index]
        invariant forall k :: index < k < FRAME_BYTES ==> frame[k] == r.route.padding
      {
        frame[index + 1] := r.payload[index];
        index := index + 1;
      }
      RequestPadded(r, frame[..]);
      data := frame[..if r.route.padToEight then FRAME_BYTES else |r.payload| + 1];
    }

    method Claim(c: Command)
      requires Rep() && RequestValid(c.request)
      modifies this`job, tx, buffer
      ensures Rep() && job.active && job.request == c.request
      ensures Current() == NO_JOB.(active := true, request := c.request, id := c.id, phase := job.phase,
                                   deadline := Later(lastNow, c.request.timeoutMs))
    {
      ClearJob();
      hide RequestValid;
      job := NO_JOB.(active := true, request := c.request, id := c.id,
                     phase := if c.request.route.protocol.IsoTp? then IsoSendRequest else SendSetup,
                     deadline := Later(lastNow, c.request.timeoutMs));
    }

    method StartJob(c: Command)
      requires Rep() && RequestValid(c.request)
      modifies this, tx, tx.frame, buffer
      ensures Rep() && State() == BeginJob(old(State()), c)
    {
      hide Sound, Current, Desk, BeginJob, RequestValid;
      if c.request.route.protocol.IsoTp? { StartIsoJob(c); } else { StartTp20Job(c); }
    }

    method StartIsoJob(c: Command)
      requires Rep() && RequestValid(c.request) && c.request.route.protocol.IsoTp?
      modifies this, tx, tx.frame, buffer
      ensures Rep() && State() == BeginJob(old(State()), c)
    {
      hide Sound, Current, Desk, StageTx, Progress, BeginJob, IsoRequestFrame, SetupFrame, RequestValid, Later;
      var data := IsoRequestOctets(c.request);
      ghost var before := State();
      Claim(c);
      BeginParts(before, c, Current());
      StageShown(c.request.route.requestId, data, IsoRequest);
    }

    method StartTp20Job(c: Command)
      requires Rep() && RequestValid(c.request) && c.request.route.protocol.VwTp20?
      modifies this, tx, tx.frame, buffer
      ensures Rep() && State() == BeginJob(old(State()), c)
    {
      hide Sound, Current, Desk, StageTx, Progress, BeginJob, IsoRequestFrame, SetupFrame, RequestValid, Later;
      ghost var before := State();
      Claim(c);
      BeginParts(before, c, Current());
      SetupFits(c.request.route);
      StageShown(c.request.route.requestId, SetupFrame(c.request.route), Setup);
    }

    method StageShown(id: U32, data: Bytes, action: TxAction)
      requires Rep() && job.active && |data| <= FRAME_BYTES && action != NoTx
      requires IsoPhase(Sending(action)) <==> job.request.route.protocol.IsoTp?
      modifies this`job, this`published, tx, tx.frame
      ensures Rep()
      ensures State() == Progress(old(State()).(job := StageTx(old(Current()), id, data, Sending(action))))
    {
      hide Sound, Current, Desk, StageTx, Progress;
      Stage(id, data, action);
      PublishActiveProgress();
    }

    method ApplyLimits()
      requires Rep() && job.active
      modifies this, tx, tx.frame, buffer, buffer.octets
      ensures Rep() && State() == CheckLimits(old(State()))
    {
      hide Rep, Sound, Current, RequestFinish, TimeReached;
      if cancelId == job.id {
        RequestEnd(Cancelled, CancelledError);
        return;
      }
      if abortId == job.id {
        abortId := 0;
        RequestEnd(Failed, abortError);
        return;
      }
      if TimeReached(lastNow, job.deadline) ||
         (job.phase == WaitChannelTest && TimeReached(lastNow, job.channelTestDeadline)) {
        RequestEnd(Failed, Timeout);
      }
    }

    method ApplyRepeat()
      requires Rep()
      modifies this`job, tx, tx.frame, buffer
      ensures Rep() && State() == Repeat(old(State()))
    {
      hide Sound, Current, Desk, StageKwp, StageTx, TimeReached, Repeat;
      RepeatCases(State());
      if !job.active || job.terminal.Some? || job.phase != WaitRepeat { return; }
      PhaseOfProtocol();
      if TimeReached(lastNow, job.repeatAt) {
        RequestAgain();
      } else if TimeReached(lastNow, job.channelTestAt) {
        Stage(job.testerId, [0xA3], ChannelTest);
      }
    }

    method CheckJob()
      requires Rep() && job.active
      modifies this, tx, tx.frame, buffer, buffer.octets
      ensures Rep() && State() == Repeat(CheckLimits(old(State()))) && calls == old(calls)
    {
      hide Rep, Sound, Current, CheckLimits, Repeat;
      ApplyLimits();
      ApplyRepeat();
    }

    method RequestAgain()
      requires Rep() && job.active && job.request.route.protocol.VwTp20?
      modifies this`job, tx, tx.frame, buffer
      ensures Rep() && Current() == StageKwp(old(Current()).(negative := false), false)
    {
      hide Sound, Current, StageKwp;
      ForgetNegative();
      StageTp20KwpRequest(false);
    }

    method ForgetNegative()
      requires Rep()
      modifies this`job
      ensures Rep() && Current() == old(Current()).(negative := false)
    {
      hide RequestValid;
      job := job.(negative := false);
    }

    method AdvanceJob(answer: bool) returns (sent: Option<Frame>)
      requires Rep()
      modifies this, tx, tx.frame, buffer, buffer.octets
      ensures Rep() && State() == TickJob(old(State()), answer)
      ensures sent == DiagnosticOffers.Due(DiagnosticOffers.Checked(old(State())))
      ensures calls == old(calls) + (if sent.Some? then 1 else 0)
      ensures sent.Some? ==> sent.value.dlc == |sent.value.data| <= FRAME_BYTES
    {
      hide Sound, Current, CheckLimits, Repeat, TransmitOne, Finalize;
      if !job.active { return None; }
      if job.terminal.Some? && job.phase == WaitDisconnect && TimeReached(lastNow, job.disconnectDeadline) {
        NothingWaits();
        FinalizeTerminalIntent();
        return None;
      }
      if job.terminal.None? {
        CheckJob();
      }
      sent := TransmitOnePendingFrame(answer);
    }

    /** A job that waits for its disconnect has no frame left. */
    lemma NothingWaits()
      requires Rep() && job.phase == WaitDisconnect
      ensures Current().pending.None?
    {
    }

    /** `diagnosticTransportTick`: at most one frame is offered to the driver. A job that ends is
        counted once, and without an open job nothing but the clock moves. */
    method TickAt(now: U32, answer: bool) returns (sent: Option<Frame>)
      requires Valid()
      modifies this, tx, tx.frame, buffer, buffer.octets
      ensures Valid() && State() == Tick(old(State()), now, answer)
      ensures sent == DiagnosticOffers.Offered(old(State()), now)
      ensures calls == old(calls) + (if sent.Some? then 1 else 0)
      ensures sent.Some? ==> old(busy) && sent.value.dlc == |sent.value.data| <= FRAME_BYTES
      ensures completed + failed + cancelled ==
        old(completed + failed + cancelled) + (if old(busy) && !busy then 1 else 0)
      ensures submitted == old(submitted) && (busy ==> old(busy))
    {
      hide Sound, Current, TickJob, BeginJob, Finish, Tick, RequestValid, Good, DiagnosticCalls.Numbered,
           DiagnosticOffers.Offered, DiagnosticOffers.Checked, DiagnosticOffers.Due;
      ghost var before := State();
      TickMeans(before, now, answer);
      TickCases(before, now, answer);
      DiagnosticOffers.OfferCases(before, now);
      lastNow := now;
      if !job.active && mailbox.Some? {
        var command := mailbox.value;
        mailbox := None;
        var cancelledEarly := cancelId == command.id;
        StartJob(command);
        if cancelledEarly {
          FinishImmediately(Cancelled, CancelledError);
          return None;
        }
      }
      sent := AdvanceJob(answer);
    }

    // ---------------------------------------------------------------- receiving

    /** The octets of a flow control frame: filled with the padding octet, then written. */
    method FlowControlOctets(route: Route) returns (data: Bytes)
      ensures data == FlowControlFrame(route) && |data| <= FRAME_BYTES
    {
      var frame := new Byte[FRAME_BYTES](_ => route.padding);
      frame[0], frame[1], frame[2] := 0x30, route.blockSize, route.stMin;
      assert frame[..3] == [0x30, route.blockSize, route.stMin];
      assert frame[3..FRAME_BYTES] == seq(5, _ => route.padding);
      assert frame[..FRAME_BYTES] == frame[..3] + frame[3..FRAME_BYTES];
      data := frame[..if route.padToEight then FRAME_BYTES else 3];
    }

    method ResetIsoAssembly()
      requires Rep()
      modifies this`job, buffer
      ensures Rep() && Current() == old(Current()).(isoTotal := 0, isoNext := 1, response := [])
    {
      hide RequestValid;
      job := job.(isoTotal := 0, isoNext := 1);
      buffer.Reset();
    }

    /** `completeIsoPayloadOrContinuePending` */
    method CompleteIsoPayload()
      requires Rep() && job.active && job.request.route.protocol.IsoTp? && !tx.valid
      modifies this, tx, tx.frame, buffer, buffer.octets
      ensures Rep() && State() == CompleteIso(old(State()))
    {
      hide Sound, Current, Fail, OutcomeError, RequestFinish, Validated, IsPending, DiagnosticSpec.Acceptable;
      ValidatedScalars(Current(), false);
      PendingStays(Current(), false);
      var valid := Validate(false);
      var pending := PendingResponse(false);
      if pending {
        ResetIsoAssembly();
        Await(IsoWaitResponse);
        PublishActiveProgress();
      } else if !valid {
        FailWith(UnexpectedResponse);
      } else {
        RequestEnd(Complete, NoError);
      }
    }

    /** The memory copy of a single frame's octets. */
    method StoreOctets(b: Bytes, length: nat)
      requires Rep() && length + 1 <= |b| && length <= 7
      modifies buffer, buffer.octets
      ensures Rep() && Current() == old(Current()).(response := b[1..length + 1])
    {
      buffer.Reset();
      buffer.Append(b, 1, length);
      assert b[1..][..length] == b[1..length + 1];
    }

    method TakeSingleFrame(b: Bytes, length: nat)
      requires Rep() && job.active && job.request.route.protocol.IsoTp? && !tx.valid
      requires length + 1 <= |b| && length <= 7
      modifies this, tx, tx.frame, buffer, buffer.octets
      ensures Rep() && State() == CompleteIso(old(State()).(job := old(Current()).(response := b[1..length + 1])))
    {
      hide Sound, Current, Desk, CompleteIso;
      StoreOctets(b, length);
      CompleteIsoPayload();
    }

    method StartIsoAssembly(b: Bytes, total: nat)
      requires Rep() && |b| >= 3 && total <= MAX_RESPONSE
      modifies this`job, buffer, buffer.octets
      ensures Rep()
      ensures Current() == old(Current()).(isoTotal := total, isoNext := 1, response := Assembled([], b[2..], total))
    {
      hide RequestValid, Assembled;
      job := job.(isoTotal := total, isoNext := 1);
      buffer.Reset();
      buffer.Append(b, 2, total);
    }

    method TakeFirstFrame(b: Bytes, total: nat)
      requires Rep() && job.active && job.request.route.protocol.IsoTp? && |b| >= 3
      modifies this, tx, tx.frame, buffer, buffer.octets
      ensures Rep() && State() == Opened(old(State()), b, total)
    {
      hide Sound, Current, Desk, RequestFinish, StageTx, Progress, Assembled, FlowControlFrame;
      if total == 0 || total > MAX_RESPONSE {
        RequestEnd(Failed, TooLarge);
        return;
      }
      var data := FlowControlOctets(job.request.route);
      StartIsoAssembly(b, total);
      StageShown(job.request.route.requestId, data, IsoFlowControl);
    }

    method ExtendIsoAssembly(b: Bytes)
      requires Rep() && b != []
      modifies this`job, buffer, buffer.octets
      ensures Rep() && old(buffer.Octets()) <= buffer.Octets()
      ensures var j := old(Current());
        Current() == j.(isoNext := (j.isoNext + 1) % 16, response := Assembled(j.response, b[1..], j.isoTotal))
    {
      hide RequestValid, Assembled;
      job := job.(isoNext := (job.isoNext + 1) % 16);
      buffer.Append(b, 1, job.isoTotal);
    }

    method TakeConsecutiveFrame(b: Bytes)
      requires Rep() && job.active && job.request.route.protocol.IsoTp? && !tx.valid && b != []
      modifies this, tx, tx.frame, buffer, buffer.octets
      ensures Rep() && State() == Continued(old(State()), b)
    {
      hide Sound, Current, RequestFinish, CompleteIso, Assembled;
      if Low(b[0]) != job.isoNext {
        RequestEnd(Failed, SequenceError);
        return;
      }
      ExtendIsoAssembly(b);
      if buffer.length >= job.isoTotal { CompleteIsoPayload(); } else { PublishActiveProgress(); }
    }

    /** A frame while the response is awaited. */
    method TakeIsoStart(f: Frame) returns (taken: bool)
      requires Rep() && job.active && job.request.route.protocol.IsoTp? && !tx.valid
      requires job.phase == IsoWaitResponse && MatchesResponse(job, f, job.request.route.responseId) && Body(f) != []
      modifies this, tx, tx.frame, buffer, buffer.octets
      ensures Rep() && taken == IsoTakes(old(State()), f)
      ensures State() == if taken then ObserveIso(old(State()), f) else old(State())
    {
      hide Sound, Current, Desk, IsoTakes, ObserveIso, CompleteIso, Opened, Belongs, High, Low;
      IsoCases(State(), f);
      var b := Body(f);
      if High(b[0]) == 0 {
        var length := Low(b[0]);
        if length == 0 || length > 7 || |b| < length + 1 || !Belongs(b[1..length + 1], job.request) { return false; }
        TakeSingleFrame(b, length);
        return true;
      }
      if High(b[0]) != 1 || |b| < 3 || !Belongs(b[2..], job.request) { return false; }
      TakeFirstFrame(b, Low(b[0]) * 256 + b[1] as int);
      return true;
    }

    method ObserveIsoResponse(f: Frame) returns (taken: bool)
      requires Rep() && job.active && job.request.route.protocol.IsoTp?
      modifies this, tx, tx.frame, buffer, buffer.octets
      ensures Rep() && taken == IsoTakes(old(State()), f)
      ensures State() == if taken then ObserveIso(old(State()), f) else old(State())
    {
      hide Sound, Current, Desk, ObserveIso, SingleFrame, FirstFrame, Continued;
      var b := Body(f);
      if !MatchesResponse(job, f, job.request.route.responseId) || b == [] { return false; }
      IsoCases(State(), f);
      if job.phase == IsoWaitResponse {
        WaitHasNoFrame();
        taken := TakeIsoStart(f);
        return;
      }
      if job.phase != IsoWaitConsecutive || High(b[0]) != 2 { return false; }
      WaitHasNoFrame();
      TakeConsecutiveFrame(b);
      return true;
    }

    lemma WaitHasNoFrame()
      requires Rep() && !SendPhase(job.phase)
      ensures !tx.valid
    {
      hide RequestValid;
    }

    /** The fragment is taken over: the running assembly grows, or a new one starts. */
    method TakeKwpFragment(b: Bytes, op: nat)
      requires Rep() && b != [] && (job.rxStarted || (|b| >= 3 && Wide(b[1], b[2]) <= MAX_RESPONSE))
      modifies this`job, buffer, buffer.octets
      ensures Rep() && Current() == TakeFragment(old(Current()), b, op)
      ensures old(job).rxStarted ==> old(buffer.Octets()) <= buffer.Octets()
    {
      hide Sound, Current, Assembled, Wide;
      if job.rxStarted { ContinueAssembly(b, op); } else { StartAssembly(b, op, Wide(b[1], b[2])); }
    }

    method StartAssembly(b: Bytes, op: nat, total: nat)
      requires Rep() && |b| >= 3 && total <= MAX_RESPONSE
      modifies this`job, buffer, buffer.octets
      ensures Rep()
      ensures var j := old(Current());
        Current() == j.(expectedRx := (j.expectedRx + 1) % 16, fragments := j.fragments + 1, lastOp := op,
                        rxStarted := true, rxTotal := total, response := Assembled([], b[3..], total))
    {
      hide RequestValid, Assembled;
      buffer.Reset();
      buffer.Append(b, 3, total);
      job := job.(expectedRx := (job.expectedRx + 1) % 16, fragments := job.fragments + 1, lastOp := op,
                  rxStarted := true, rxTotal := total);
    }

    method ContinueAssembly(b: Bytes, op: nat)
      requires Rep() && b != []
      modifies this`job, buffer, buffer.octets
      ensures Rep() && old(buffer.Octets()) <= buffer.Octets()
      ensures var j := old(Current());
        Current() == j.(expectedRx := (j.expectedRx + 1) % 16, fragments := j.fragments + 1, lastOp := op,
                        response := Assembled(j.response, b[1..], j.rxTotal))
    {
      hide RequestValid, Assembled;
      buffer.Append(b, 1, job.rxTotal);
      job := job.(expectedRx := (job.expectedRx + 1) % 16, fragments := job.fragments + 1, lastOp := op);
    }

    method StageTp20Ack(sequence: nat, after: AfterAck)
      requires Rep() && job.active && job.request.route.protocol.VwTp20?
      modifies this`job, tx, tx.frame
      ensures Rep() && Current() == StageAck(old(Current()), sequence, after)
    {
      hide RequestValid;
      tx.Stage(job.testerId, job.request.route.direction, [0xB0 + (sequence + 1) % 16], Ack);
      job := job.(afterAck := after, phase := SendAck);
    }

    /** A whole response: its outcome follows the acknowledgement, or at once. */
    method FollowWhole(op: nat, sequence: nat, session: bool)
      requires Rep() && Tp20Ready() && !IsoPhase(job.phase)
      modifies this, tx, tx.frame, buffer, buffer.octets
      ensures Rep() && State() ==
        var s, j := old(State()), old(Current());
        if op == 1 then s.(job := StageAck(Validated(j, session), sequence, Outcome(j, session)))
        else HandleOutcome(s, session)
    {
      hide Sound, Current, HandleOutcome, StageAck, Validated, Outcome;
      if op == 1 {
        ValidatedScalars(Current(), session);
        var outcome := KwpOutcome(session);
        StageTp20Ack(sequence, outcome);
      } else {
        HandleKwpPayloadOutcome(session);
      }
    }

    method FollowFragment(op: nat, sequence: nat, session: bool)
      requires Rep() && Tp20Ready() && !IsoPhase(job.phase)
      modifies this, tx, tx.frame, buffer, buffer.octets
      ensures Rep() && State() == Followed(old(State()), op, sequence, session)
    {
      hide Sound, Current, RequestFinish, HandleOutcome, StageAck, Validated, Outcome, Progress, Desk, Followed;
      FollowedCases(State(), op, sequence, session);
      var final, complete := op == 1 || op == 3, buffer.length >= job.rxTotal;
      if complete != final {
        RequestEnd(Failed, SequenceError);
      } else if complete {
        FollowWhole(op, sequence, session);
      } else if op == 0 {
        StageTp20Ack(sequence, if session then ThenWaitSession else ThenWaitRequest);
      } else {
        AwaitShown(ResponsePhase(session));
      }
    }

    /** A frame that starts or continues a response, with its number checked. */
    method TakeNumbered(b: Bytes, session: bool)
      requires Rep() && Tp20Ready() && !IsoPhase(job.phase) && b != [] && High(b[0]) <= 3
      modifies this, tx, tx.frame, buffer, buffer.octets
      ensures Rep() && State() == ObserveKwp(old(State()), b, session)
    {
      hide Rep, Sound, Current, Desk, ObserveKwp, RequestFinish, TakeFragment, Followed, Progress, Wide;
      KwpCases(State(), b, session);
      if Low(b[0]) != job.expectedRx { RequestEnd(Failed, SequenceError); return; }
      if !job.rxStarted {
        if |b| < 3 { RequestEnd(Failed, UnexpectedResponse); return; }
        var total := Wide(b[1], b[2]);
        if total == 0 || total > MAX_RESPONSE { RequestEnd(Failed, TooLarge); return; }
      }
      KwpShape(Current(), b, High(b[0]));
      TakeKwpFragment(b, High(b[0]));
      FollowFragment(High(b[0]), Low(b[0]), session);
    }

    method TakeKwpFrame(b: Bytes, session: bool)
      requires Rep() && Tp20Ready() && !IsoPhase(job.phase) && b != [] && KwpOp(High(b[0]))
      modifies this, tx, tx.frame, buffer, buffer.octets
      ensures Rep() && State() == ObserveKwp(old(State()), b, session)
    {
      hide Sound, Current, Desk, ObserveKwp, RequestFinish, Followed, TakeFragment, Progress;
      KwpCases(State(), b, session);
      if High(b[0]) <= 3 {
        TakeNumbered(b, session);
      } else if High(b[0]) == 9 {
        RequestEnd(Failed, NegotiationFailed);
      } else if Low(b[0]) != job.expectedAck {
        RequestEnd(Failed, SequenceError);
      } else {
        AwaitShown(ResponsePhase(session));
      }
    }

    method ObserveTp20KwpFrame(f: Frame, session: bool) returns (taken: bool)
      requires Rep() && job.active && KwpPhase(job.phase) && session == SessionPhase(job.phase)
      modifies this, tx, tx.frame, buffer, buffer.octets
      ensures Rep() && taken == Tp20Takes(old(State()), f)
      ensures State() == if taken then ObserveTp20(old(State()), f) else old(State())
    {
      hide Sound, Current, Desk, ObserveKwp, ObserveTp20;
      PhaseOfProtocol();
      WaitHasNoFrame();
      var b := Body(f);
      if !MatchesResponse(job, f, job.ecuId) || b == [] || !KwpOp(High(b[0])) { return false; }
      Tp20Cases(State(), f);
      TakeKwpFrame(b, session);
      return true;
    }

    method OpenChannel(ecu: U32, tester: U32)
      requires Rep()
      modifies this`job
      ensures Rep() && Current() == old(Current()).(ecuId := ecu, testerId := tester, channelOpen := true)
    {
      hide RequestValid;
      job := job.(ecuId := ecu, testerId := tester, channelOpen := true);
    }

    method ObserveSetupReply(b: Bytes)
      requires Rep() && job.active && job.request.route.protocol.VwTp20? && |b| >= 2
      modifies this, tx, tx.frame, buffer, buffer.octets
      ensures Rep() && State() == ObserveSetup(old(State()), b)
    {
      hide Sound, Current, Desk, Finish, Progress, StageTx;
      if b[1] != 0xD0 { FinishImmediately(Failed, SetupRejected); return; }
      if !SetupAccepted(b, job.request.route) { FinishImmediately(Failed, NegotiationFailed); return; }
      OpenChannel(DecodeId(b[2], b[3]).value, DecodeId(b[4], b[5]).value);
      StageShown(job.testerId, [0xA0, 0x0F, 0x8A, 0xFF, 0x32, 0xFF], Params);
    }

    method StartNumbering()
      requires Rep()
      modifies this`job
      ensures Rep() && Current() == old(Current()).(txSequence := 0, expectedRx := 0)
    {
      hide RequestValid;
      job := job.(txSequence := 0, expectedRx := 0);
    }

    method ObserveParamsReply(b: Bytes)
      requires Rep() && job.active && job.request.route.protocol.VwTp20?
      modifies this, tx, tx.frame, buffer, buffer.octets
      ensures Rep() && State() == ObserveParams(old(State()), b)
    {
      hide Sound, Current, RequestFinish, StageKwp, Progress;
      if !ParamsSensible(b) { RequestEnd(Failed, NegotiationFailed); return; }
      StartNumbering();
      StageTp20KwpRequest(job.request.route.enterSession);
      PublishActiveProgress();
    }

    method AwaitNextRepeat()
      requires Rep() && Tp20Ready()
      modifies this`job, this`published
      ensures Rep() && State() ==
        Progress(old(State()).(job := old(Current()).(
          channelTestAt := Later(lastNow, CHANNEL_TEST_INTERVAL), phase := WaitRepeat)))
    {
      hide RequestValid;
      job := job.(channelTestAt := Later(lastNow, CHANNEL_TEST_INTERVAL), phase := WaitRepeat);
      hide Current;
      PublishActiveProgress();
    }

    method TakeControlFrame(b: Bytes)
      requires Rep() && Tp20Ready() && (job.phase == WaitSetup ==> |b| >= 2)
      modifies this, tx, tx.frame, buffer, buffer.octets
      ensures Rep() && State() == Controlled(old(State()), b)
    {
      hide Sound, Current, Desk, ObserveSetup, ObserveParams, Finalize, Progress;
      if job.phase == WaitDisconnect {
        FinalizeTerminalIntent();
      } else if job.phase == WaitChannelTest {
        AwaitNextRepeat();
      } else if job.phase == WaitSetup {
        ObserveSetupReply(b);
      } else {
        ObserveParamsReply(b);
      }
    }

    method ObserveControlFrame(f: Frame) returns (taken: bool)
      requires Rep() && job.active && job.request.route.protocol.VwTp20? && !KwpPhase(job.phase) && Body(f) != []
      modifies this, tx, tx.frame, buffer, buffer.octets
      ensures Rep() && taken == Tp20Takes(old(State()), f)
      ensures State() == if taken then ObserveTp20(old(State()), f) else old(State())
    {
      hide Sound, Current, Desk, Tp20Takes, ObserveTp20, Controlled;
      ControlCases(State(), f);
      var b := Body(f);
      taken :=
        if job.phase == WaitSetup
        then MatchesResponse(job, f, job.request.route.responseId) && |b| >= 2 && (b[1] == 0xD0 || 0xD6 <= b[1] <= 0xD8)
        else MatchesResponse(job, f, job.ecuId) &&
             ((job.phase == WaitDisconnect && b[0] == 0xA8) ||
              ((job.phase == WaitChannelTest || job.phase == WaitParams) && b[0] == 0xA1));
      if taken {
        WaitHasNoFrame();
        TakeControlFrame(b);
      }
    }

    method ObserveTp20Response(f: Frame) returns (taken: bool)
      requires Rep() && job.active && job.request.route.protocol.VwTp20?
      modifies this, tx, tx.frame, buffer, buffer.octets
      ensures Rep() && taken == Tp20Takes(old(State()), f)
      ensures State() == if taken then ObserveTp20(old(State()), f) else old(State())
    {
      hide Sound, Current, Tp20Takes, ObserveTp20;
      if Body(f) == [] {
        NothingTaken(State(), f);
        taken := false;
      } else if KwpPhase(job.phase) {
        taken := ObserveTp20KwpFrame(f, SessionPhase(job.phase));
      } else {
        taken := ObserveControlFrame(f);
      }
    }

    /** `diagnosticTransportObservePhysicalFrame`: true withholds the frame from the gateway. No frame is
        sent; another tester's request ends the job and is passed on; only frames of the job's ECU are
        withheld; a job that ends is counted once; and assembled octets are extended or cleared. */
    method ObservePhysicalFrame(f: Frame) returns (consumed: bool)
      requires Valid()
      modifies this, tx, tx.frame, buffer, buffer.octets
      ensures Valid() && State() == Observe(old(State()), f) && consumed == Consumed(old(State()), f)
      ensures calls == old(calls) && submitted == old(submitted)
      ensures completed + failed + cancelled ==
        old(completed + failed + cancelled) + (if old(busy) && !busy then 1 else 0)
      ensures consumed ==>
        && old(job).active && old(job).request.suppress
        && f.direction == old(job).request.route.direction.Opposite()
        && (f.id == old(job).request.route.responseId || f.id == old(job).ecuId)
      ensures old(Foreign(f)) ==>
        !busy && published.state == Failed && published.error == Collision && failed == old(failed) + 1 && !consumed
      ensures old(job).active ==> old(buffer.Octets()) <= buffer.Octets() || buffer.length == 0
    {
      hide Sound, Current, Observe, Consumed, Good, DiagnosticCalls.Numbered, CollidesActive, CollidesQueued;
      ObserveMeans(State(), f);
      CallerSees(State(), f);
      CollisionSeen(f);
      consumed := ObserveFrame(f);
    }

    /** Buffers do not matter for collisions. */
    lemma CollisionSeen(f: Frame)
      requires Rep()
      ensures CollidesActive(Current(), f) == CollidesActive(job, f)
    {
    }

    method ObserveFrame(f: Frame) returns (consumed: bool)
      requires Rep() && (mailbox.Some? ==> RequestValid(mailbox.value.request))
      modifies this, tx, tx.frame, buffer, buffer.octets
      ensures Rep() && State() == Observe(old(State()), f) && consumed == Consumed(old(State()), f)
    {
      hide Sound, Current, ObserveIso, ObserveTp20, IsoTakes, Tp20Takes, BeginJob, Finish, RequestValid,
           CollidesActive, CollidesQueued;
      CollisionSeen(f);
      if !job.active {
        if mailbox.None? || !CollidesQueued(mailbox.value.request, f) { return false; }
        var queued := mailbox.value;
        mailbox := None;
        StartJob(queued);
        FinishImmediately(Failed, Collision);
        return false;
      }
      if CollidesActive(job, f) {
        FinishImmediately(Failed, Collision);
        return false;
      }
      var suppress, taken := job.request.suppress, false;
      if job.request.route.protocol.IsoTp? {
        taken := ObserveIsoResponse(f);
      } else {
        taken := ObserveTp20Response(f);
      }
      return taken && suppress;
    }

    /** The frame is a request of another tester to the ECU of the open job. */
    predicate Foreign(f: Frame)
      reads this`job, this`mailbox
    {
      if job.active then CollidesActive(job, f) else mailbox.Some? && CollidesQueued(mailbox.value.request, f)
    }

    // ---------------------------------------------------------------- callers

    /** Accepted exactly when the request is valid and no job is open, under the number of the
        submission; a refusal changes nothing, and neither touches the running job. */
    method SubmitRequest(r: Request) returns (id: Option<nat>)
      requires Valid()
      modifies this`busy, this`nextId, this`mailbox, this`published, this`submitted
      ensures Valid() && State() == Submit(old(State()), r)
      ensures id.Some? <==> RequestValid(r) && !old(busy)
      ensures id.None? ==> State() == old(State())
      ensures id.Some? ==>
        && id.value == old(submitted) % (WORD - 1) + 1 && busy && submitted == old(submitted) + 1
        && mailbox == Some(Command(r, id.value)) && published.id == id.value && published.state == Queued
    {
      hide Sound, Current, RequestValid, Good, DiagnosticCalls.Numbered, FreshId;
      SubmitMeans(State(), r);
      if !RequestValid(r) || busy { return None; }
      var issued := FreshId(nextId);
      Queue(r, issued);
      return Some(issued);
    }

    method Queue(r: Request, issued: U32)
      modifies this`busy, this`nextId, this`mailbox, this`published, this`submitted
      ensures Desk() == old(Desk()).(
        busy := true, nextId := Later(issued, 1), mailbox := Some(Command(r, issued)), submitted := old(submitted) + 1,
        published := Published(issued, Queued, NoError, [], 0, false, r.route.protocol.VwTp20?, r.repeatCount, []))
    {
      busy, nextId, submitted := true, Later(issued, 1), submitted + 1;
      mailbox := Some(Command(r, issued));
      published := Published(issued, Queued, NoError, [], 0, false, r.route.protocol.VwTp20?, r.repeatCount, []);
    }

    /** Accepted exactly for the job shown as queued or active; `CancelTakesEffect` says what follows. */
    method CancelJob(id: nat) returns (ok: bool)
      requires Valid()
      modifies this`cancelId
      ensures Valid() && State() == Cancel(old(State()), id)
      ensures ok <==> id != 0 && busy && published.id == id && Stoppable(published)
      ensures cancelId == if ok then id else old(cancelId)
    {
      hide Sound, Current, Good;
      StepGood(State(), CancelCall(id));
      DiagnosticCalls.StepNumbered(State(), CancelCall(id));
      if id == 0 || !busy || published.id != id || !Stoppable(published) { return false; }
      cancelId := id;
      return true;
    }

    method AbortJob(error: Error)
      requires Valid()
      modifies this`abortError, this`abortId
      ensures Valid() && State() == Abort(old(State()), error)
    {
      hide Sound, Current, Good;
      StepGood(State(), AbortCall(error));
      DiagnosticCalls.StepNumbered(State(), AbortCall(error));
      if !busy || published.id == 0 || !Stoppable(published) { return; }
      abortError := error;
      abortId := published.id;
    }
  }
}
