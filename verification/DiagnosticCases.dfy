/** The steps of the diagnostic transport by cases (core/diagnostic_transport.cpp). */
module DiagnosticCases {
  import opened Types
  import opened DiagnosticSpec
  import opened DiagnosticInvariant

  /** A first frame: the assembly begins and flow control is staged. */
  function Opened(s: Transport, b: Bytes, total: nat): Transport
    requires |b| >= 3
  {
    if total == 0 || total > MAX_RESPONSE then Fail(s, TooLarge)
    else
      var j := s.job.(isoTotal := total, isoNext := 1, response := Assembled([], b[2..], total));
      Progress(s.(job := StageTx(j, j.request.route.requestId, FlowControlFrame(j.request.route), IsoSendFlowControl)))
  }

  /** A consecutive frame. */
  function Continued(s: Transport, b: Bytes): Transport
    requires b != []
  {
    if Low(b[0]) != s.job.isoNext then Fail(s, SequenceError)
    else
      var j := s.job.(isoNext := (s.job.isoNext + 1) % 16,
                      response := Assembled(s.job.response, b[1..], s.job.isoTotal));
      if |j.response| >= j.isoTotal then CompleteIso(s.(job := j)) else Progress(s.(job := j))
  }

  lemma IsoCases(s: Transport, f: Frame)
    requires MatchesResponse(s.job, f, s.job.request.route.responseId) && Body(f) != []
    ensures s.job.phase == IsoWaitResponse ==> (IsoTakes(s, f) <==> SingleFrame(s, f) || FirstFrame(s, f))
    ensures s.job.phase == IsoWaitResponse && SingleFrame(s, f) ==>
      ObserveIso(s, f) == CompleteIso(s.(job := s.job.(response := Body(f)[1..Low(Body(f)[0]) + 1])))
    ensures s.job.phase == IsoWaitResponse && FirstFrame(s, f) ==>
      !SingleFrame(s, f) && ObserveIso(s, f) == Opened(s, Body(f), FirstTotal(f))
    ensures s.job.phase == IsoWaitConsecutive ==>
      (IsoTakes(s, f) <==> High(Body(f)[0]) == 2) && (IsoTakes(s, f) ==> ObserveIso(s, f) == Continued(s, Body(f)))
    ensures s.job.phase != IsoWaitResponse && s.job.phase != IsoWaitConsecutive ==> !IsoTakes(s, f)
  {
    hide Belongs, CompleteIso, Fail, Assembled, StageTx, FlowControlFrame, Progress;
  }

  /** What follows an accepted fragment. */
  function Followed(s: Transport, op: nat, sequence: nat, session: bool): Transport {
    var j := s.job;
    if |j.response| < j.rxTotal then
      if op == 1 || op == 3 then Fail(s, SequenceError)
      else if op == 0 then s.(job := StageAck(j, sequence, if session then ThenWaitSession else ThenWaitRequest))
      else Progress(s.(job := j.(phase := ResponsePhase(session))))
    else if op != 1 && op != 3 then Fail(s, SequenceError)
    else if op == 1 then s.(job := StageAck(Validated(j, session), sequence, Outcome(j, session)))
    else HandleOutcome(s, session)
  }

  lemma FollowedCases(s: Transport, op: nat, sequence: nat, session: bool)
    ensures var j, t := s.job, Followed(s, op, sequence, session);
      var complete, final := |j.response| >= j.rxTotal, op == 1 || op == 3;
      && (complete != final ==> t == Fail(s, SequenceError))
      && (complete && op == 1 ==> t == s.(job := StageAck(Validated(j, session), sequence, Outcome(j, session))))
      && (complete && op == 3 ==> t == HandleOutcome(s, session))
      && (!complete && op == 0 ==>
            t == s.(job := StageAck(j, sequence, if session then ThenWaitSession else ThenWaitRequest)))
      && (!complete && !final && op != 0 ==> t == Progress(s.(job := j.(phase := ResponsePhase(session)))))
  {
    hide Fail, HandleOutcome, StageAck, Validated, Outcome, Progress;
  }

  lemma KwpShape(j: Job, b: Bytes, op: nat)
    requires b != [] && (j.rxStarted || |b| >= 3)
    ensures var k := TakeFragment(j, b, op);
      k.phase == j.phase && k.request == j.request && k.active == j.active && k.pending == j.pending
  {
  }

  /** Acknowledgement, negative acknowledgement or fragment. */
  predicate KwpOp(op: nat) {
    op <= 3 || op == 9 || op == 0xB
  }

  lemma KwpCases(s: Transport, b: Bytes, session: bool)
    requires b != [] && KwpOp(High(b[0]))
    ensures ObserveKwp(s, b, session) ==
      if High(b[0]) == 0xB then
        if Low(b[0]) != s.job.expectedAck then Fail(s, SequenceError)
        else Progress(s.(job := s.job.(phase := ResponsePhase(session))))
      else if High(b[0]) == 9 then Fail(s, NegotiationFailed)
      else if Low(b[0]) != s.job.expectedRx then Fail(s, SequenceError)
      else if !s.job.rxStarted && |b| < 3 then Fail(s, UnexpectedResponse)
      else if !s.job.rxStarted && (Wide(b[1], b[2]) == 0 || Wide(b[1], b[2]) > MAX_RESPONSE) then Fail(s, TooLarge)
      else Followed(s.(job := TakeFragment(s.job, b, High(b[0]))), High(b[0]), Low(b[0]), session)
  {
    hide Fail, Progress, HandleOutcome, TakeFragment, StageAck, Validated, Outcome;
  }

  lemma Tp20Cases(s: Transport, f: Frame)
    requires Body(f) != []
    ensures KwpPhase(s.job.phase) ==>
      (Tp20Takes(s, f) <==> MatchesResponse(s.job, f, s.job.ecuId) && KwpOp(High(Body(f)[0])))
    ensures Tp20Takes(s, f) && KwpPhase(s.job.phase) ==>
      ObserveTp20(s, f) == ObserveKwp(s, Body(f), SessionPhase(s.job.phase))
  {
    hide ObserveKwp, MatchesResponse, High;
  }

  function Controlled(s: Transport, b: Bytes): Transport
    requires s.job.phase == WaitSetup ==> |b| >= 2
  {
    if s.job.phase == WaitDisconnect then Finalize(s)
    else if s.job.phase == WaitChannelTest then
      Progress(s.(job := s.job.(channelTestAt := Later(s.lastNow, CHANNEL_TEST_INTERVAL), phase := WaitRepeat)))
    else if s.job.phase == WaitSetup then ObserveSetup(s, b)
    else ObserveParams(s, b)
  }

  /** The control frames of a channel: setup, parameters, channel test and disconnect. */
  lemma ControlCases(s: Transport, f: Frame)
    requires Body(f) != [] && !KwpPhase(s.job.phase)
    ensures var b := Body(f);
      Tp20Takes(s, f) <==>
        if s.job.phase == WaitSetup
        then MatchesResponse(s.job, f, s.job.request.route.responseId) && |b| >= 2 &&
             (b[1] == 0xD0 || 0xD6 <= b[1] <= 0xD8)
        else MatchesResponse(s.job, f, s.job.ecuId) &&
             ((s.job.phase == WaitDisconnect && b[0] == 0xA8) ||
              ((s.job.phase == WaitChannelTest || s.job.phase == WaitParams) && b[0] == 0xA1))
    ensures Tp20Takes(s, f) ==> ObserveTp20(s, f) == Controlled(s, Body(f))
  {
    hide MatchesResponse, High, Finalize, ObserveSetup, ObserveParams, Progress, Later;
  }

  lemma NothingTaken(s: Transport, f: Frame)
    requires Body(f) == []
    ensures !Tp20Takes(s, f)
  {
  }

  lemma AckCases(s: Transport, t: Transport)
    requires t == s.(job := s.job.(afterAck := NoAction))
    ensures var a := s.job.afterAck;
      ApplyAfterAck(s) == (
        if a == NoAction then t
        else if a == ThenWaitSession || a == ThenWaitRequest then
          t.(job := t.job.(phase := if a == ThenWaitSession then WaitSessionResponse else WaitRequestResponse))
        else Acted(t, a))
  {
    hide Fail, OutcomeError, StageKwp, CompleteKwp, ResetTp20;
  }

  lemma TickCases(s: Transport, now: U32, answer: bool)
    ensures var t := s.(lastNow := now);
      Tick(s, now, answer) == (
        if s.job.active || s.mailbox.None? then TickJob(t, answer)
        else
          var begun := BeginJob(t.(mailbox := None), s.mailbox.value);
          if s.cancelId == s.mailbox.value.id then Finish(begun, Cancelled, CancelledError) else TickJob(begun, answer))
  {
    hide TickJob, BeginJob, Finish;
  }

  lemma PendingStays(j: Job, session: bool)
    ensures IsPending(Validated(j, session), session) == IsPending(j, session)
  {
  }

  /** What follows the outcome of a KWP response. */
  function Acted(t: Transport, o: AfterAck): Transport {
    if o == ThenWaitSession || o == RequestPending then
      t.(job := ResetTp20(t.job).(
        phase := if o == ThenWaitSession then WaitSessionResponse else WaitRequestResponse))
    else if o == SessionComplete then t.(job := StageKwp(t.job, false))
    else if o == RequestComplete then CompleteKwp(t)
    else Fail(t, OutcomeError(t.job, if o == SessionFailed then NegotiationFailed else UnexpectedResponse))
  }

  lemma ActedCases(t: Transport, o: AfterAck)
    ensures o == ThenWaitSession || o == RequestPending ==>
      Acted(t, o) == t.(job := ResetTp20(t.job).(
        phase := if o == ThenWaitSession then WaitSessionResponse else WaitRequestResponse))
    ensures o == SessionComplete ==> Acted(t, o) == t.(job := StageKwp(t.job, false))
    ensures o == RequestComplete ==> Acted(t, o) == CompleteKwp(t)
    ensures o == NoAction || o == ThenWaitRequest || o == RequestFailed || o == SessionFailed ==>
      Acted(t, o) ==
        Fail(t, OutcomeError(t.job, if o == SessionFailed then NegotiationFailed else UnexpectedResponse))
  {
    hide Fail, OutcomeError, StageKwp, CompleteKwp, ResetTp20;
  }

  lemma HandleCases(s: Transport, session: bool, t: Transport)
    requires t == s.(job := Validated(s.job, session))
    ensures HandleOutcome(s, session) == Acted(t, Outcome(s.job, session))
  {
    hide Fail, OutcomeError, StageKwp, CompleteKwp, ResetTp20, Validated, Outcome;
  }

  lemma RepeatCases(s: Transport)
    ensures Repeat(s) == (
      if !s.job.active || s.job.terminal.Some? || s.job.phase != WaitRepeat then s
      else if TimeReached(s.lastNow, s.job.repeatAt) then s.(job := StageKwp(s.job.(negative := false), false))
      else if TimeReached(s.lastNow, s.job.channelTestAt) then
        s.(job := StageTx(s.job, s.job.testerId, [0xA3], SendChannelTest))
      else s)
  {
    hide StageKwp, StageTx, TimeReached;
  }

  /** A due frame is accepted, refused and kept, or given up. */
  lemma TransmitCases(s: Transport, answer: bool)
    requires s.job.pending.Some? ==> s.job.active
    ensures TransmitOne(s, answer) == (
      if s.job.pending.None? || !TimeReached(s.lastNow, s.job.pending.value.retryAt) then s
      else
        var p, called := s.job.pending.value, s.(calls := s.calls + 1);
        var given := called.(job := s.job.(pending := None));
        if answer then Progress(AfterTx(given))
        else if p.attempts + 1 < MAX_ATTEMPTS then
          Progress(called.(job := s.job.(
            pending := Some(p.(attempts := p.attempts + 1, retryAt := Later(s.lastNow, RETRY_DELAY))))))
        else if given.job.phase == SendDisconnect && given.job.terminal.Some? then Finalize(given)
        else Fail(given, TxFailed))
  {
    hide AfterTx, Progress, Finalize, Fail, TimeReached, Later;
  }

  lemma ValidatedScalars(j: Job, session: bool)
    ensures var k := Validated(j, session);
      k == j.(negative := k.negative, pendingSeen := k.pendingSeen)
  {
  }
}
