/** What the transport's entry points (core/diagnostic_transport.cpp) mean for their callers. */
module DiagnosticCalls {
  import opened Types
  import opened DiagnosticSpec
  import opened DiagnosticInvariant
  import opened DiagnosticProofs
  import opened DiagnosticCases

  // ---------------------------------------------------------------- identifiers

  /** The next job gets the number of submissions so far, counted from 1 and skipping 0 at the wrap. */
  predicate Numbered(s: Transport) {
    FreshId(s.nextId) == s.submitted % (WORD - 1) + 1
  }

  lemma StepNumbered(s: Transport, c: Call)
    requires Numbered(s)
    ensures Numbered(Step(s, c))
  {
    hide Tick, Observe, RequestValid;
  }

  /** Identifiers are never 0 and repeat only after 2^32 - 1 submissions. */
  lemma {:induction false} JobNumbers(calls: seq<Call>, r: Request)
    ensures var s := After(calls);
      && Numbered(s)
      && (CanSubmit(s, r) ==> Submit(s, r).mailbox == Some(Command(r, s.submitted % (WORD - 1) + 1)))
  {
    hide Good, RequestValid;
    if calls != [] {
      JobNumbers(calls[..|calls| - 1], r);
      StepNumbered(After(calls[..|calls| - 1]), calls[|calls| - 1]);
    }
  }

  // ---------------------------------------------------------------- ends

  function Ended(s: Transport): nat {
    s.completed + s.failed + s.cancelled
  }

  /** A call ends the open job or not, and only an end is counted. */
  lemma EndsAreCounted(s: Transport, c: Call)
    requires Good(s) && !c.SubmitCall?
    ensures var t := Step(s, c);
      && Ended(t) == Ended(s) + (if s.busy && !t.busy then 1 else 0) && (t.busy ==> s.busy)
      && t.submitted == s.submitted
  {
    hide Tick, Observe, Core, PhaseOk;
    StepGood(s, c);
    StaysSubmitted(s, c);
    if !s.busy { IdleCall(s, c); }
  }

  /** With no job open, only the clock moves. */
  lemma IdleCall(s: Transport, c: Call)
    requires Good(s) && !s.busy && !c.SubmitCall?
    ensures Step(s, c) == if c.TickCall? then s.(lastNow := c.now) else s
  {
    hide BeginJob, Core, PhaseOk;
  }

  lemma StaysSubmitted(s: Transport, c: Call)
    requires !c.SubmitCall?
    ensures Step(s, c).submitted == s.submitted
  {
    hide Tick, Observe;
  }

  /** A job whose cancellation was requested is over after the next tick, or has only its disconnect
      left and will end as cancelled; a queued one ends without a driver call. */
  lemma CancelTakesEffect(s: Transport, now: U32, answer: bool)
    requires Good(s) && s.busy && s.job.terminal.None?
    requires s.cancelId == if s.job.active then s.job.id else s.mailbox.value.id
    ensures var t := Tick(s, now, answer);
      && (t.job.active ==> t.job.terminal == Some(Terminal(Cancelled, CancelledError)))
      && (!t.job.active ==> !t.busy && t.published.state == Cancelled && t.cancelled == s.cancelled + 1)
      && (!s.job.active ==> !t.job.active && t.calls == s.calls)
  {
    hide Core, PhaseOk, TransmitOne;
    var began := if s.job.active then s else BeginJob(s.(lastNow := now, mailbox := None), s.mailbox.value);
    var limited := CheckLimits(began.(lastNow := now));
    if limited.job.active && limited.job.terminal.Some? {
      TransmitDisconnect(limited, answer);
    } else if !limited.job.active {
      NothingToSend(limited, answer);
    }
  }

  /** So is an aborted one, as failed with the error of the abort, unless it was cancelled as well; an
      abort of a job that is not shown as open changes nothing. */
  lemma AbortTakesEffect(s: Transport, e: Error, now: U32, answer: bool)
    requires Good(s) && s.job.terminal.None?
    requires s.busy ==> s.published.id == (if s.job.active then s.job.id else s.mailbox.value.id) != s.cancelId
    ensures var t := Tick(Abort(s, e), now, answer);
      && (!s.busy ==> Abort(s, e) == s)
      && (s.busy && (s.published.state == Queued || s.published.state == Active) ==>
            (t.job.active ==> t.job.terminal == Some(Terminal(Failed, e))) &&
            (!t.job.active ==>
               !t.busy && t.published.state == Failed && t.published.error == e && t.failed == s.failed + 1))
  {
    hide Core, PhaseOk, TransmitOne, BeginJob;
    if s.busy { QueuedHasId(s); }
    if s.busy && Stoppable(s.published) {
      var a := Abort(s, e).(lastNow := now);
      if s.job.active {
        AbortedEnds(a, e, answer);
      } else {
        BeginJobGood(a.(mailbox := None), s.mailbox.value);
        BegunAborts(a.(mailbox := None), s.mailbox.value);
        AbortedEnds(BeginJob(a.(mailbox := None), s.mailbox.value), e, answer);
      }
    }
  }

  lemma QueuedHasId(s: Transport)
    requires Good(s) && s.busy
    ensures if s.job.active then s.job.id > 0 else s.mailbox.Some? && s.mailbox.value.id > 0
  {
  }

  lemma BegunAborts(s: Transport, c: Command)
    ensures var t := BeginJob(s, c);
      t.job.id == c.id && t.abortId == s.abortId && t.abortError == s.abortError && t.cancelId == s.cancelId &&
      t.failed == s.failed && t.job.active && t.job.terminal.None?
  {
    hide IsoRequestFrame, SetupFrame, PublishedOf;
  }

  lemma AbortedEnds(s: Transport, e: Error, answer: bool)
    requires Good(s) && s.job.active && s.job.terminal.None? && s.cancelId != s.job.id
    requires s.abortId == s.job.id && s.abortError == e
    ensures var t := TickJob(s, answer);
      && (t.job.active ==> t.job.terminal == Some(Terminal(Failed, e)))
      && (!t.job.active ==>
            !t.busy && t.published.state == Failed && t.published.error == e && t.failed == s.failed + 1)
  {
    hide Core, PhaseOk, TransmitOne;
    var limited := CheckLimits(s);
    if limited.job.active {
      TransmitDisconnect(limited, answer);
    } else {
      NothingToSend(limited, answer);
    }
  }

  // ---------------------------------------------------------------- frames

  /** Only frames from the ECU's side, on an identifier of the job, are withheld from the gateway. */
  lemma ConsumedIsOurs(s: Transport, f: Frame)
    requires Consumed(s, f)
    ensures s.job.active && s.job.request.suppress && Body(f) != []
    ensures f.direction == s.job.request.route.direction.Opposite()
    ensures f.id == s.job.request.route.responseId || f.id == s.job.ecuId
  {
    hide SingleFrame, FirstFrame;
  }

  /** A request of another tester to the ECU of the open job: its request identifier, a channel setup to
      its address, or a telegram on its channel. */
  predicate OtherTester(s: Transport, f: Frame) {
    var b := Body(f);
    if s.job.active then
      var r := s.job.request.route;
      && f.direction == r.direction
      && (if r.protocol.IsoTp? then f.id == r.requestId
          else f.id <= 0x7FF &&
               ((f.id == r.requestId && |b| >= 2 && b[0] == r.logicalAddress && b[1] == 0xC0) ||
                (s.job.testerId != 0 && f.id == s.job.testerId && b != [])))
    else
      s.mailbox.Some? &&
      var r := s.mailbox.value.request.route;
      && f.direction == r.direction && f.id == r.requestId
      && (r.protocol.IsoTp? || (|b| >= 2 && b[0] == r.logicalAddress && b[1] == 0xC0))
  }

  lemma CollidesExactly(s: Transport, f: Frame)
    requires Good(s)
    ensures OtherTester(s, f) <==>
      if s.job.active then CollidesActive(s.job, f)
      else s.mailbox.Some? && CollidesQueued(s.mailbox.value.request, f)
  {
    hide PhaseOk, AllWhole;
  }

  /** Such a request ends the job as failed, without a driver call, and is passed on. */
  lemma CollisionEnds(s: Transport, f: Frame)
    requires Good(s) && OtherTester(s, f)
    ensures var t := Observe(s, f);
      && !t.busy && t.published.state == Failed && t.published.error == Collision
      && t.failed == s.failed + 1 && t.calls == s.calls && !Consumed(s, f)
  {
    hide Core, PhaseOk, OtherTester, CollidesActive, CollidesQueued;
    CollidesExactly(s, f);
  }

  /** The assembly was extended, or cleared for the next response or with the job. */
  predicate Grew(have: Bytes, j: Job) {
    have <= j.response || j.response == []
  }

  lemma FailGrew(s: Transport, state: JobState, e: Error)
    ensures Grew(s.job.response, RequestFinish(s, state, e).job)
  {
  }

  lemma AssembledExtends(have: Bytes, more: Bytes, total: nat)
    ensures have <= Assembled(have, more, total)
  {
  }

  lemma CompleteGrew(s: Transport)
    ensures Grew(s.job.response, CompleteKwp(s).job)
  {
    hide RequestFinish;
    var j := s.job.(completedRequests := s.job.completedRequests + 1,
                    responses := s.job.responses + [Telegram(s.job.rxTotal, s.job.response, s.job.lastOp)]);
    FailGrew(s.(job := j), Complete, NoError);
  }

  lemma ValidatedResponse(j: Job, session: bool)
    ensures Validated(j, session).response == j.response
  {
  }

  lemma OutcomeGrew(s: Transport, session: bool)
    ensures Grew(s.job.response, HandleOutcome(s, session).job)
  {
    hide RequestFinish, Outcome, Validated, CompleteKwp, HandleOutcome, Grew, StageKwp, ResetTp20, OutcomeError;
    var t := s.(job := Validated(s.job, session));
    ValidatedResponse(s.job, session);
    HandleCases(s, session, t);
    CompleteGrew(t);
    FailGrew(t, Failed, OutcomeError(t.job, NegotiationFailed));
    FailGrew(t, Failed, OutcomeError(t.job, UnexpectedResponse));
    ClearedGrew(t.job);
  }

  /** A new telegram or a pending reply starts the response over. */
  lemma ClearedGrew(j: Job)
    ensures Grew(j.response, StageKwp(j, false)) && forall p: Phase :: Grew(j.response, ResetTp20(j).(phase := p))
  {
  }

  /** What follows the fragments, on the job `j` that took them. */
  lemma TakenGrew(s: Transport, j: Job, sequence: nat, session: bool)
    requires s.job == j
    ensures Grew(j.response, Fail(s, SequenceError).job) && Grew(j.response, HandleOutcome(s, session).job)
    ensures Grew(j.response, StageAck(j, sequence, if session then ThenWaitSession else ThenWaitRequest))
    ensures Grew(j.response, StageAck(Validated(j, session), sequence, Outcome(j, session)))
    ensures Grew(j.response, Progress(s.(job := j.(phase := ResponsePhase(session)))).job)
  {
    hide RequestFinish, HandleOutcome, Outcome, Validated;
    ValidatedResponse(j, session);
    OutcomeGrew(s, session);
    FailGrew(s, Failed, SequenceError);
  }

  lemma GrewOn(have: Bytes, more: Bytes, j: Job)
    requires have <= more && Grew(more, j)
    ensures Grew(have, j)
  {
  }

  lemma TakeFragmentExtends(j: Job, b: Bytes, op: nat)
    requires b != [] && (j.rxStarted || (|b| >= 3 && j.response == []))
    ensures j.response <= TakeFragment(j, b, op).response
  {
    hide Assembled;
    AssembledExtends(j.response, b[1..], j.rxTotal);
  }

  lemma FragmentGrew(s: Transport, b: Bytes, session: bool)
    requires b != [] && (s.job.rxStarted || (s.job.response == [] && |b| >= 3))
    requires High(b[0]) <= 3 && Low(b[0]) == s.job.expectedRx
    requires s.job.rxStarted || 1 <= Wide(b[1], b[2]) <= MAX_RESPONSE
    ensures Grew(s.job.response, ObserveKwp(s, b, session).job)
  {
    hide Fail, HandleOutcome, Outcome, Validated, TakeFragment, StageAck, Grew, Progress;
    var t := s.(job := TakeFragment(s.job, b, High(b[0])));
    TakeFragmentExtends(s.job, b, High(b[0]));
    TakenGrew(t, t.job, Low(b[0]), session);
    GrewOn(s.job.response, t.job.response, ObserveKwp(s, b, session).job);
  }

  lemma KwpGrew(s: Transport, b: Bytes, session: bool)
    requires b != [] && (s.job.rxStarted || s.job.response == [])
    ensures Grew(s.job.response, ObserveKwp(s, b, session).job)
  {
    hide RequestFinish, HandleOutcome, TakeFragment, StageAck;
    if High(b[0]) <= 3 && Low(b[0]) == s.job.expectedRx &&
       (s.job.rxStarted || (|b| >= 3 && 1 <= Wide(b[1], b[2]) <= MAX_RESPONSE)) {
      FragmentGrew(s, b, session);
    } else {
      FailGrew(s, Failed, SequenceError);
      FailGrew(s, Failed, NegotiationFailed);
      FailGrew(s, Failed, UnexpectedResponse);
      FailGrew(s, Failed, TooLarge);
    }
  }

  lemma Tp20Grew(s: Transport, f: Frame)
    requires Tp20Takes(s, f) && (s.job.rxStarted || s.job.response == [])
    ensures Grew(s.job.response, ObserveTp20(s, f).job)
  {
    hide ObserveKwp, ObserveTp20, Controlled, Grew, Tp20Takes;
    if Body(f) == [] {
      NothingTaken(s, f);
    } else if KwpPhase(s.job.phase) {
      Tp20Cases(s, f);
      KwpGrew(s, Body(f), SessionPhase(s.job.phase));
    } else {
      ControlCases(s, f);
      ControlledGrew(s, Body(f));
    }
  }

  lemma ControlledGrew(s: Transport, b: Bytes)
    requires s.job.phase == WaitSetup ==> |b| >= 2
    ensures Grew(s.job.response, Controlled(s, b).job)
  {
    hide ObserveSetup, ObserveParams, Finish, Progress;
    ProgressGood(s.(job := s.job.(channelTestAt := Later(s.lastNow, CHANNEL_TEST_INTERVAL), phase := WaitRepeat)));
    if |b| >= 2 { SetupGrew(s, b); }
    ParamsGrew(s, b);
    match s.job.terminal { case Some(t) => FinishGrew(s, t.state, t.error); case None => }
  }

  lemma FinishGrew(s: Transport, state: JobState, e: Error)
    ensures Grew(s.job.response, Finish(s, state, e).job)
  {
  }

  lemma SetupGrew(s: Transport, b: Bytes)
    requires |b| >= 2
    ensures Grew(s.job.response, ObserveSetup(s, b).job)
  {
    hide Finish;
    FinishGrew(s, Failed, SetupRejected);
    FinishGrew(s, Failed, NegotiationFailed);
  }

  lemma ParamsGrew(s: Transport, b: Bytes)
    ensures Grew(s.job.response, ObserveParams(s, b).job)
  {
    hide RequestFinish;
    FailGrew(s, Failed, NegotiationFailed);
  }

  lemma IsoGrew(s: Transport, f: Frame)
    requires Good(s) && s.job.active && IsoTakes(s, f) && s.job.request.route.protocol.IsoTp?
    ensures Grew(s.job.response, ObserveIso(s, f).job)
  {
    hide CompleteIso, Opened, Continued, ObserveIso, IsoTakes, Good, Grew;
    IsoMatches(s, f);
    IsoCases(s, f);
    var b := Body(f);
    if s.job.phase == IsoWaitResponse {
      ResponseEmpty(s);
      if SingleFrame(s, f) {
        IsoCompleteGrew(s.(job := s.job.(response := b[1..Low(b[0]) + 1])), []);
      } else {
        OpenedGrew(s, b, FirstTotal(f));
      }
    } else {
      ContinuedGrew(s, b);
    }
  }

  lemma IsoMatches(s: Transport, f: Frame)
    requires IsoTakes(s, f)
    ensures MatchesResponse(s.job, f, s.job.request.route.responseId) && Body(f) != []
  {
  }

  lemma ResponseEmpty(s: Transport)
    requires Good(s) && s.job.active && s.job.phase == IsoWaitResponse
    ensures s.job.response == []
  {
  }

  /** A whole ISO-TP response is cleared again or ends the job. */
  lemma IsoCompleteGrew(s: Transport, have: Bytes)
    requires have <= s.job.response
    ensures Grew(have, CompleteIso(s).job)
  {
    hide RequestFinish;
    var t := s.(job := Validated(s.job, false));
    ValidatedResponse(s.job, false);
    FailGrew(t, Complete, NoError);
    FailGrew(t, Failed, OutcomeError(t.job, UnexpectedResponse));
  }

  lemma OpenedGrew(s: Transport, b: Bytes, total: nat)
    requires s.job.response == [] && |b| >= 3
    ensures Grew([], Opened(s, b, total).job)
  {
    hide Opened;
  }

  lemma ContinuedGrew(s: Transport, b: Bytes)
    requires b != []
    ensures Grew(s.job.response, Continued(s, b).job)
  {
    hide RequestFinish, CompleteIso, Assembled;
    FailGrew(s, Failed, SequenceError);
    AssembledExtends(s.job.response, b[1..], s.job.isoTotal);
    var more := Assembled(s.job.response, b[1..], s.job.isoTotal);
    IsoCompleteGrew(s.(job := s.job.(isoNext := (s.job.isoNext + 1) % 16, response := more)), s.job.response);
  }

  /** A frame only extends the octets assembled so far, up to 512 of them; it clears them when a
      pending reply or the next telegram starts the response over, and when the job ends. */
  lemma AssemblyGrows(s: Transport, f: Frame)
    requires Good(s) && s.job.active
    ensures Grew(s.job.response, Observe(s, f).job) && |Observe(s, f).job.response| <= MAX_RESPONSE
  {
    hide ObserveIso, ObserveTp20, IsoTakes, Tp20Takes, Core, PhaseOk;
    ObserveGood(s, f);
    ResponseBound(Observe(s, f));
    if s.job.request.route.protocol.IsoTp? {
      if IsoTakes(s, f) { IsoGrew(s, f); }
    } else if Tp20Takes(s, f) {
      Tp20Cleared(s);
      Tp20Grew(s, f);
    }
  }

  lemma Tp20Cleared(s: Transport)
    requires Good(s) && s.job.active && s.job.request.route.protocol.VwTp20?
    ensures s.job.rxStarted || s.job.response == []
  {
  }

  lemma ResponseBound(s: Transport)
    requires Good(s)
    ensures |s.job.response| <= MAX_RESPONSE
  {
  }
}
