/** With a clock below 2^31 that does not run backwards, every reachable ending job is within its
    retry delay and its disconnect wait. */
module DiagnosticClock {
  import opened Types
  import opened DiagnosticSpec
  import opened DiagnosticInvariant
  import opened DiagnosticProofs
  import opened DiagnosticEnding
  import opened DiagnosticCases

  /** A step that reads no clock and lets a job begin to end only with a fresh disconnect frame. */
  predicate Onward(s: Transport, t: Transport) {
    t.lastNow == s.lastNow && FreshEnding(t)
  }

  lemma FailOnward(s: Transport, e: Error)
    requires s.job.terminal.None?
    ensures Onward(s, Fail(s, e))
  {
  }

  lemma RequestFinishOnward(s: Transport, state: JobState, e: Error)
    requires s.job.terminal.None?
    ensures Onward(s, RequestFinish(s, state, e))
  {
  }

  lemma CompleteKwpOnward(s: Transport)
    requires s.job.terminal.None?
    ensures Onward(s, CompleteKwp(s))
  {
    hide RequestFinish;
    var j := s.job.(completedRequests := s.job.completedRequests + 1,
                    responses := s.job.responses + [Telegram(s.job.rxTotal, s.job.response, s.job.lastOp)]);
    RequestFinishOnward(s.(job := j), Complete, NoError);
  }

  /** Changing the job without ending it. */
  lemma JobOnward(s: Transport, j: Job)
    requires j.terminal.None?
    ensures Onward(s, s.(job := j)) && Onward(s, Progress(s.(job := j)))
  {
  }

  lemma ValidatedShape(j: Job, session: bool)
    ensures Validated(j, session).terminal == j.terminal
  {
  }

  lemma StagedOnward(s: Transport, session: bool)
    requires s.job.terminal.None?
    ensures Onward(s, s.(job := StageKwp(s.job, session)))
  {
    hide StageKwp;
    StageKwpShape(s.job, session);
  }

  lemma ResetOnward(s: Transport, p: Phase)
    requires s.job.terminal.None?
    ensures Onward(s, s.(job := ResetTp20(s.job).(phase := p)))
  {
  }

  lemma OnwardFrom(s: Transport, t: Transport, u: Transport)
    requires t.lastNow == s.lastNow && Onward(t, u)
    ensures Onward(s, u)
  {
  }

  lemma ApplyAfterAckOnward(s: Transport)
    requires s.job.terminal.None?
    ensures Onward(s, ApplyAfterAck(s))
  {
    hide Fail, CompleteKwp, StageKwp, OutcomeError, ResetTp20, ApplyAfterAck, Onward;
    var t := s.(job := s.job.(afterAck := NoAction));
    AckCases(s, t);
    CompleteKwpOnward(t);
    FailOnward(t, OutcomeError(t.job, UnexpectedResponse));
    FailOnward(t, OutcomeError(t.job, NegotiationFailed));
    StagedOnward(t, false);
    ResetOnward(t, WaitRequestResponse);
    JobOnward(t, t.job);
    JobOnward(t, t.job.(phase := WaitSessionResponse));
    JobOnward(t, t.job.(phase := WaitRequestResponse));
    assert t == t.(job := t.job);
    OnwardFrom(s, t, ApplyAfterAck(s));
  }

  lemma HandleOutcomeOnward(s: Transport, session: bool)
    requires s.job.terminal.None?
    ensures Onward(s, HandleOutcome(s, session))
  {
    hide Fail, CompleteKwp, Outcome, OutcomeError, StageKwp, Validated, ResetTp20, HandleOutcome, Onward;
    var t := s.(job := Validated(s.job, session));
    ValidatedShape(s.job, session);
    HandleCases(s, session, t);
    CompleteKwpOnward(t);
    FailOnward(t, OutcomeError(t.job, UnexpectedResponse));
    FailOnward(t, OutcomeError(t.job, NegotiationFailed));
    StagedOnward(t, false);
    ResetOnward(t, WaitSessionResponse);
    ResetOnward(t, WaitRequestResponse);
    OnwardFrom(s, t, HandleOutcome(s, session));
  }

  lemma AfterTxOnward(s: Transport)
    requires s.job.terminal.None?
    ensures Onward(s, AfterTx(s))
  {
    if s.job.phase == SendAck {
      ApplyAfterAckOnward(s);
    } else {
      PlainTxOnward(s);
    }
  }

  lemma PlainTxOnward(s: Transport)
    requires s.job.terminal.None? && s.job.phase != SendAck
    ensures Onward(s, AfterTx(s))
  {
    hide AfterTx;
    if SendPhase(s.job.phase) { AfterTxShape(s); } else { NothingFollows(s); }
  }

  lemma NothingFollows(s: Transport)
    requires !SendPhase(s.job.phase)
    ensures AfterTx(s) == s
  {
    hide ApplyAfterAck, Later;
  }

  lemma TransmitOneOnward(s: Transport, answer: bool)
    requires s.job.terminal.None?
    ensures Onward(s, TransmitOne(s, answer))
  {
    hide Fail, AfterTx;
    if s.job.pending.Some? {
      var cleared := s.(calls := s.calls + 1, job := s.job.(pending := None));
      AfterTxOnward(cleared);
      FailOnward(cleared, TxFailed);
    }
  }

  lemma CompleteIsoOnward(s: Transport)
    requires s.job.terminal.None?
    ensures Onward(s, CompleteIso(s))
  {
    hide Fail, RequestFinish, Validated;
    var t := s.(job := Validated(s.job, false));
    ValidatedShape(s.job, false);
    FailOnward(t, OutcomeError(t.job, UnexpectedResponse));
    RequestFinishOnward(t, Complete, NoError);
  }

  lemma OpenedOnward(s: Transport, b: Bytes, total: nat)
    requires s.job.terminal.None? && |b| >= 3
    ensures Onward(s, Opened(s, b, total))
  {
    hide Fail, Assembled, FlowControlFrame;
    FailOnward(s, TooLarge);
  }

  lemma ContinuedOnward(s: Transport, b: Bytes)
    requires s.job.terminal.None? && b != []
    ensures Onward(s, Continued(s, b))
  {
    hide Fail, Assembled, CompleteIso;
    FailOnward(s, SequenceError);
    CompleteIsoOnward(s.(job := s.job.(isoNext := (s.job.isoNext + 1) % 16,
                                       response := Assembled(s.job.response, b[1..], s.job.isoTotal))));
  }

  lemma SingleOnward(s: Transport, b: Bytes)
    requires s.job.terminal.None?
    ensures Onward(s, CompleteIso(s.(job := s.job.(response := b))))
  {
    hide CompleteIso;
    CompleteIsoOnward(s.(job := s.job.(response := b)));
  }

  lemma ObserveIsoOnward(s: Transport, f: Frame)
    requires s.job.terminal.None? && IsoTakes(s, f)
    ensures Onward(s, ObserveIso(s, f))
  {
    hide CompleteIso, Opened, Continued, ObserveIso, Belongs, Onward, Fail;
    IsoCases(s, f);
    var b := Body(f);
    if s.job.phase == IsoWaitResponse {
      if SingleFrame(s, f) {
        SingleOnward(s, b[1..Low(b[0]) + 1]);
      } else {
        OpenedOnward(s, b, FirstTotal(f));
      }
    } else {
      ContinuedOnward(s, b);
    }
  }

  lemma TakenTerminal(j: Job, b: Bytes, op: nat)
    requires b != [] && (j.rxStarted || |b| >= 3)
    ensures TakeFragment(j, b, op).terminal == j.terminal
  {
  }

  lemma AckOnward(s: Transport, j: Job, sequence: nat, after: AfterAck)
    requires j.terminal.None?
    ensures Onward(s, s.(job := StageAck(j, sequence, after)))
  {
  }

  lemma FollowedOnward(s: Transport, op: nat, sequence: nat, session: bool)
    requires s.job.terminal.None?
    ensures Onward(s, Followed(s, op, sequence, session))
  {
    hide Fail, HandleOutcome, StageAck, Validated, Outcome, Onward, Progress;
    ValidatedShape(s.job, session);
    AckOnward(s, s.job, sequence, if session then ThenWaitSession else ThenWaitRequest);
    AckOnward(s, Validated(s.job, session), sequence, Outcome(s.job, session));
    JobOnward(s, s.job.(phase := ResponsePhase(session)));
    FailOnward(s, SequenceError);
    HandleOutcomeOnward(s, session);
  }

  lemma TakenOnward(s: Transport, b: Bytes, session: bool)
    requires s.job.terminal.None? && b != [] && (s.job.rxStarted || |b| >= 3)
    ensures Onward(s, Followed(s.(job := TakeFragment(s.job, b, High(b[0]))), High(b[0]), Low(b[0]), session))
  {
    hide TakeFragment, Followed, Onward, High, Low;
    TakenTerminal(s.job, b, High(b[0]));
    var t := s.(job := TakeFragment(s.job, b, High(b[0])));
    FollowedOnward(t, High(b[0]), Low(b[0]), session);
    OnwardFrom(s, t, Followed(t, High(b[0]), Low(b[0]), session));
  }

  lemma ObserveKwpOnward(s: Transport, b: Bytes, session: bool)
    requires s.job.terminal.None? && b != []
    ensures Onward(s, ObserveKwp(s, b, session))
  {
    hide Fail, TakeFragment, Followed, Onward, ObserveKwp, High, Low, Wide, Progress;
    FailOnward(s, SequenceError);
    FailOnward(s, NegotiationFailed);
    FailOnward(s, UnexpectedResponse);
    FailOnward(s, TooLarge);
    JobOnward(s, s.job);
    JobOnward(s, s.job.(phase := ResponsePhase(session)));
    assert s == s.(job := s.job);
    if s.job.rxStarted || |b| >= 3 { TakenOnward(s, b, session); }
    if KwpOp(High(b[0])) { KwpCases(s, b, session); } else { OtherOp(s, b, session); }
  }

  lemma OtherOp(s: Transport, b: Bytes, session: bool)
    requires b != [] && !KwpOp(High(b[0]))
    ensures ObserveKwp(s, b, session) == s
  {
    hide High, Fail, TakeFragment;
  }

  lemma ObserveSetupOnward(s: Transport, b: Bytes)
    requires s.job.terminal.None? && |b| >= 2
    ensures Onward(s, ObserveSetup(s, b))
  {
  }

  lemma ObserveParamsOnward(s: Transport, b: Bytes)
    requires s.job.terminal.None?
    ensures Onward(s, ObserveParams(s, b))
  {
    hide Fail, StageKwp;
    FailOnward(s, NegotiationFailed);
    var j := s.job.(txSequence := 0, expectedRx := 0);
    StageKwpShape(j, j.request.route.enterSession);
  }

  lemma ControlledOnward(s: Transport, b: Bytes)
    requires s.job.terminal.None? && (s.job.phase == WaitSetup ==> |b| >= 2)
    ensures Onward(s, Controlled(s, b))
  {
    hide ObserveSetup, ObserveParams, Onward, Progress, Later;
    JobOnward(s, s.job);
    JobOnward(s, s.job.(channelTestAt := Later(s.lastNow, CHANNEL_TEST_INTERVAL), phase := WaitRepeat));
    assert s == s.(job := s.job);
    ObserveParamsOnward(s, b);
    if |b| >= 2 { ObserveSetupOnward(s, b); }
  }

  lemma ObserveTp20Onward(s: Transport, f: Frame)
    requires s.job.terminal.None? && Tp20Takes(s, f)
    ensures Onward(s, ObserveTp20(s, f))
  {
    hide ObserveKwp, ObserveTp20, Controlled, Onward, Tp20Takes;
    if Body(f) == [] {
      NothingTaken(s, f);
    } else if KwpPhase(s.job.phase) {
      Tp20Cases(s, f);
      ObserveKwpOnward(s, Body(f), SessionPhase(s.job.phase));
    } else {
      ControlCases(s, f);
      ControlledOnward(s, Body(f));
    }
  }

  lemma ObserveOnward(s: Transport, f: Frame)
    requires s.job.active && s.job.terminal.None?
    ensures Onward(s, Observe(s, f))
  {
    hide ObserveIso, ObserveTp20, IsoTakes, Tp20Takes;
    if IsoTakes(s, f) { ObserveIsoOnward(s, f); }
    if Tp20Takes(s, f) { ObserveTp20Onward(s, f); }
  }

  /** An ending job takes only the answer to its disconnect; without a job at most a queued command
      is refused. */
  lemma ObserveOtherwise(s: Transport, f: Frame)
    requires Good(s) && !(s.job.active && s.job.terminal.None?)
    ensures Observe(s, f).lastNow == s.lastNow && (!Observe(s, f).job.active || Observe(s, f) == s)
  {
    hide Core;
    if s.job.active { EndingHasTerminal(s); }
  }

  lemma ObserveTimes(s: Transport, f: Frame)
    requires Good(s) && EndingTimes(s)
    ensures EndingTimes(Observe(s, f)) && Observe(s, f).lastNow == s.lastNow
  {
    hide Good, Observe;
    if s.job.active && s.job.terminal.None? { ObserveOnward(s, f); } else { ObserveOtherwise(s, f); }
  }

  // ---------------------------------------------------------------- ticks

  lemma CheckLimitsOnward(s: Transport)
    requires s.job.active && s.job.terminal.None?
    ensures Onward(s, CheckLimits(s))
  {
    hide RequestFinish;
    RequestFinishOnward(s, Cancelled, CancelledError);
    RequestFinishOnward(s.(abortId := 0), Failed, s.abortError);
    FailOnward(s, Timeout);
  }

  lemma RepeatOnward(s: Transport)
    requires FreshEnding(s)
    ensures Onward(s, Repeat(s)) && (s.job.terminal.Some? ==> Repeat(s) == s)
    ensures s.job.terminal.None? ==> Repeat(s).job.terminal.None?
  {
    hide StageKwp;
    StageKwpShape(s.job.(negative := false), false);
  }

  /** The first attempt of a disconnect. */
  lemma DisconnectTimes(s: Transport, answer: bool)
    requires Good(s) && FreshEnding(s) && s.job.active && s.job.terminal.Some? && s.lastNow < HALF
    ensures EndingTimes(TransmitOne(s, answer)) && TransmitOne(s, answer).lastNow == s.lastNow
  {
    hide Good, TransmitOne, PublishedOf;
    EndingHasTerminal(s);
    TransmitDisconnect(s, answer);
  }

  /** The last part of a tick, on a job that may have just begun to end. */
  lemma SendTimes(s: Transport, answer: bool)
    requires Good(s) && FreshEnding(s) && s.lastNow < HALF
    ensures EndingTimes(TransmitOne(s, answer)) && TransmitOne(s, answer).lastNow == s.lastNow
  {
    hide Core, TransmitOne, Fail;
    if s.job.active && s.job.terminal.Some? {
      DisconnectTimes(s, answer);
    } else if s.job.terminal.None? {
      TransmitOneOnward(s, answer);
    }
  }

  lemma TickJobTimes(s: Transport, answer: bool)
    requires Good(s) && s.job.active && s.job.terminal.None? && s.lastNow < HALF
    ensures EndingTimes(TickJob(s, answer)) && TickJob(s, answer).lastNow == s.lastNow
  {
    hide Good, TransmitOne, CheckLimits, Repeat;
    CheckLimitsOnward(s);
    CheckLimitsGood(s);
    RepeatOnward(CheckLimits(s));
    RepeatGood(CheckLimits(s));
    SendTimes(Repeat(CheckLimits(s)), answer);
  }

  lemma TickTimes(s: Transport, now: U32, answer: bool)
    requires Good(s) && EndingTimes(s) && s.lastNow <= now < HALF
    ensures EndingTimes(Tick(s, now, answer)) && Tick(s, now, answer).lastNow == now
  {
    hide Core, PhaseOk, TickJob, BeginJob;
    var t := s.(lastNow := now);
    if s.job.active {
      if s.job.terminal.None? {
        TickJobTimes(t, answer);
      } else {
        TerminalIsEnding(s);
        if s.job.phase == SendDisconnect { SendingTick(s, now, answer); } else { WaitingTick(s, now, answer); }
      }
    } else if t.mailbox.Some? {
      var begun := BeginJob(t.(mailbox := None), t.mailbox.value);
      BeginJobGood(t.(mailbox := None), t.mailbox.value);
      BeginClock(t.(mailbox := None), t.mailbox.value);
      TickJobTimes(begun, answer);
    } else {
      IdleTick(t, answer);
    }
  }

  lemma BeginClock(s: Transport, c: Command)
    ensures BeginJob(s, c).lastNow == s.lastNow
  {
  }

  lemma IdleTick(s: Transport, answer: bool)
    requires !s.job.active
    ensures TickJob(s, answer) == s
  {
  }

  /** A newly staged frame, whose retry time is 0, is offered to the transmitter exactly while the clock
      is below 2^31: for the other half of the clock's range the signed comparison holds it back. */
  lemma FreshFrameGoesOutIff(s: Transport, answer: bool)
    requires s.job.active && s.job.pending.Some? && s.job.pending.value.retryAt == 0
    ensures TransmitOne(s, answer).calls == s.calls + 1 <==> s.lastNow < HALF
    ensures s.lastNow >= HALF ==> TransmitOne(s, answer) == s
  {
    hide ApplyAfterAck, PublishedOf;
    AttemptCounts(s, answer);
  }

  lemma AttemptCounts(s: Transport, answer: bool)
    requires s.job.active && s.job.pending.Some?
    ensures TimeReached(s.lastNow, s.job.pending.value.retryAt) ==> TransmitOne(s, answer).calls == s.calls + 1
  {
    hide PublishedOf, StageKwp, OutcomeError, ResetTp20;
  }

  // ---------------------------------------------------------------- every timed run

  /** The clock of a run stays below 2^31 and does not run backwards. */
  ghost predicate Timed(calls: seq<Call>) {
    calls != [] ==>
      Timed(calls[..|calls| - 1]) &&
      (calls[|calls| - 1].TickCall? ==> After(calls[..|calls| - 1]).lastNow <= calls[|calls| - 1].now < HALF)
  }

  lemma {:induction false} TimedRun(calls: seq<Call>)
    requires Timed(calls)
    ensures EndingTimes(After(calls)) && After(calls).lastNow < HALF
  {
    hide Good, Tick, Observe;
    if calls != [] {
      var before, c := After(calls[..|calls| - 1]), calls[|calls| - 1];
      TimedRun(calls[..|calls| - 1]);
      if c.TickCall? { TickTimes(before, c.now, c.answer); }
      if c.ObserveCall? { ObserveTimes(before, c.frame); }
    }
  }

  /** The open job of every run: from its deadline tick on there are at most eight attempts at any clock;
      it is over at once when it has no open TP2.0 channel, and otherwise, if the clock of the run stays
      below 2^31 and ticks are at most `g` apart, 64 + 8 g milliseconds later. */
  lemma EveryJobEndsInTime(run: seq<Call>, calls: seq<Call>, g: nat)
    requires MustEnd(After(run), calls) && NoNewJob(After(run), calls)
    ensures Run(After(run), calls).calls <= After(run).calls + 8
    ensures !MustDisconnect(After(run).job) || (Timed(run) && InTime(After(run).lastNow, calls, g)) ==>
      !Run(After(run), calls).job.active
  {
    hide Good, EndingTimes, Run, InTime, NoNewJob, MustDisconnect;
    EndingIsBounded(After(run), calls);
    if !MustDisconnect(After(run).job) || (Timed(run) && InTime(After(run).lastNow, calls, g)) {
      if Timed(run) { TimedRun(run); }
      JobEndsByTime(After(run), calls, g);
    }
  }
}
