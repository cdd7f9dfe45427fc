/** What the diagnostic transport's invariant gives: every job ends exactly once and in bounded time,
    TP2.0 telegrams and fragments are numbered without gaps, and ISO-TP responses come out whole. */
module DiagnosticProofs {
  import opened Types
  import opened DiagnosticSpec
  import opened DiagnosticInvariant

  // ---------------------------------------------------------------- every run

  /** In every reachable state each submitted job has ended exactly once or is the one still open, a
      frame is pending exactly in the sending phases, and a TP2.0 job shown as complete has all the
      responses it wanted, each ending exactly at its advertised length on a final fragment. */
  lemma JobsEndOnce(calls: seq<Call>)
    ensures var s := After(calls);
      && s.submitted == s.completed + s.failed + s.cancelled + (if s.busy then 1 else 0)
      && (s.busy <==> s.job.active || s.mailbox.Some?) && !(s.job.active && s.mailbox.Some?)
      && (s.job.active ==> (s.job.pending.Some? <==> SendPhase(s.job.phase)))
    ensures var p := After(calls).published;
      p.state == Complete && p.kwp ==>
        && p.completedRequests == p.wanted == |p.responses|
        && forall i :: 0 <= i < |p.responses| ==>
             |p.responses[i].bytes| == p.responses[i].total && p.responses[i].lastOp in {1, 3}
  {
    var p := After(calls).published;
    forall i | 0 <= i < |p.responses| && p.state == Complete && p.kwp
      ensures |p.responses[i].bytes| == p.responses[i].total && p.responses[i].lastOp in {1, 3}
    {
      assert Whole(p.responses[i]);
    }
  }

  /** The k-th KWP telegram of a job (from 0) carries sequence k mod 16 and expects k + 1 mod 16. */
  lemma TelegramNumbers(calls: seq<Call>)
    ensures var j := After(calls).job;
      j.active && (j.phase == SendSession || j.phase == SendRequest) ==>
        && j.telegrams > 0 && j.pending.Some? && j.pending.value.data != []
        && j.pending.value.data[0] as int == 0x10 + (j.telegrams - 1) % 16
        && j.expectedAck == j.telegrams % 16
  {
  }

  /** A step that is not an accepted fragment. */
  predicate SameFragments(s: Transport, t: Transport) {
    t.job.active ==> t.job.fragments == s.job.fragments
  }

  lemma FailKeepsFragments(s: Transport, e: Error)
    ensures SameFragments(s, Fail(s, e))
  {
  }

  lemma CompleteKeepsFragments(s: Transport)
    ensures SameFragments(s, CompleteKwp(s))
  {
  }

  lemma StagedKeepsFragments(j: Job, session: bool)
    ensures StageKwp(j, session).fragments == j.fragments
  {
  }

  lemma OutcomeKeepsFragments(s: Transport, session: bool)
    ensures SameFragments(s, HandleOutcome(s, session))
  {
    hide CompleteKwp, StageKwp, Fail, Outcome, OutcomeError, Validated, ResetTp20, SameFragments;
    ValidatedKeeps(s.job, session);
    var t := s.(job := Validated(s.job, session));
    StagedKeepsFragments(t.job, false);
    CompleteKeepsFragments(t);
    FailKeepsFragments(t, OutcomeError(t.job, NegotiationFailed));
    FailKeepsFragments(t, OutcomeError(t.job, UnexpectedResponse));
    ResetKeepsFragments(t, WaitSessionResponse);
    ResetKeepsFragments(t, WaitRequestResponse);
    JobKeepsFragments(s, t, HandleOutcome(s, session));
  }

  lemma ResetKeepsFragments(s: Transport, p: Phase)
    ensures SameFragments(s, s.(job := ResetTp20(s.job).(phase := p)))
  {
  }

  lemma JobKeepsFragments(s: Transport, t: Transport, u: Transport)
    requires t.job.fragments == s.job.fragments && SameFragments(t, u)
    ensures SameFragments(s, u)
  {
  }

  lemma TakenCounts(j: Job, b: Bytes, op: nat)
    requires b != [] && (j.rxStarted || |b| >= 3)
    ensures TakeFragment(j, b, op).fragments == j.fragments + 1
  {
  }

  /** What follows an accepted fragment does not count another one. */
  lemma FragmentCounts(s: Transport, b: Bytes, session: bool)
    requires b != [] && High(b[0]) <= 3 && Low(b[0]) == s.job.expectedRx && (s.job.rxStarted || |b| >= 3)
    ensures var t := ObserveKwp(s, b, session);
      t.job.active ==> t.job.fragments == s.job.fragments || t.job.fragments == s.job.fragments + 1
  {
    hide TakeFragment, HandleOutcome, Fail, Outcome, Validated;
    var j := TakeFragment(s.job, b, High(b[0]));
    TakenCounts(s.job, b, High(b[0]));
    FailKeepsFragments(s, TooLarge);
    FailKeepsFragments(s.(job := j), SequenceError);
    OutcomeKeepsFragments(s.(job := j), session);
    ValidatedKeeps(j, session);
  }

  lemma ValidatedKeeps(j: Job, session: bool)
    ensures Validated(j, session).fragments == j.fragments
  {
  }

  lemma RefusedFragment(s: Transport, b: Bytes, session: bool)
    requires b != [] && High(b[0]) <= 3
    ensures Low(b[0]) != s.job.expectedRx ==> ObserveKwp(s, b, session) == Fail(s, SequenceError)
    ensures Low(b[0]) == s.job.expectedRx && !s.job.rxStarted && |b| < 3 ==>
      ObserveKwp(s, b, session) == Fail(s, UnexpectedResponse)
  {
  }

  function Modulo16(n: nat): nat {
    n % 16
  }

  lemma ExpectedIsCount(j: Job)
    requires Core(j)
    ensures j.expectedRx == Modulo16(j.fragments)
  {
  }

  lemma RunningCore(s: Transport)
    requires Good(s) && s.job.active
    ensures Core(s.job)
  {
  }

  /** A fragment is accepted only if it carries the number of fragments accepted before, mod 16; any
      other number ends the job. */
  lemma FragmentNumbers(s: Transport, b: Bytes, session: bool)
    requires Good(s) && s.job.active && KwpPhase(s.job.phase) && b != [] && High(b[0]) <= 3
    ensures var t := ObserveKwp(s, b, session);
      && (Low(b[0]) != s.job.fragments % 16 ==> t == Fail(s, SequenceError))
      && (t.job.active && t.job.fragments != s.job.fragments ==>
            t.job.fragments == s.job.fragments + 1 && Low(b[0]) == s.job.fragments % 16)
  {
    hide ObserveKwp, Fail, Good;
    RunningCore(s);
    ExpectedIsCount(s.job);
    RefusedFragment(s, b, session);
    FailKeepsFragments(s, SequenceError);
    FailKeepsFragments(s, UnexpectedResponse);
    if Low(b[0]) == s.job.expectedRx && (s.job.rxStarted || |b| >= 3) { FragmentCounts(s, b, session); }
  }

  // ---------------------------------------------------------------- bounded endings

  /** The clocks of a job that is ending: at most one retry delay or one disconnect wait ahead. */
  predicate EndingTimes(s: Transport) {
    s.job.active && s.job.terminal.Some? ==>
      && (s.job.phase == SendDisconnect ==>
            s.job.pending.Some? && s.job.pending.value.retryAt <= s.lastNow + RETRY_DELAY &&
            (s.job.pending.value.attempts == 0 ==> s.job.pending.value.retryAt == 0))
      && (s.job.phase == WaitDisconnect ==> s.job.disconnectDeadline <= s.lastNow + DISCONNECT_TIMEOUT)
  }

  /** A job that has just been told to end. */
  predicate FreshEnding(s: Transport) {
    s.job.terminal.Some? ==>
      s.job.phase == SendDisconnect && s.job.pending.Some? &&
      s.job.pending.value.attempts == 0 && s.job.pending.value.retryAt == 0
  }

  lemma TimeOrder(now: U32, deadline: U32)
    requires now < HALF && deadline <= now + DISCONNECT_TIMEOUT + HALF - 100
    ensures TimeReached(now, deadline) <==> deadline <= now
  {
  }

  /** One transmit attempt of a disconnect frame. */
  lemma TransmitDisconnect(s: Transport, answer: bool)
    requires s.job.active && s.job.phase == SendDisconnect && s.job.terminal.Some? && s.job.pending.Some?
    ensures var p := s.job.pending.value;
      TransmitOne(s, answer) ==
        if !TimeReached(s.lastNow, p.retryAt) then s
        else if answer then
          Progress(s.(calls := s.calls + 1, job := s.job.(pending := None, phase := WaitDisconnect,
                      disconnectDeadline := Later(s.lastNow, DISCONNECT_TIMEOUT))))
        else if p.attempts + 1 < MAX_ATTEMPTS then
          Progress(s.(calls := s.calls + 1, job := s.job.(pending := Some(
            p.(attempts := p.attempts + 1, retryAt := Later(s.lastNow, RETRY_DELAY))))))
        else Finalize(s.(calls := s.calls + 1, job := s.job.(pending := None)))
  {
  }

  lemma SendingTickIs(t: Transport, now: U32, answer: bool)
    requires t.job.active && t.job.terminal.Some? && t.job.phase == SendDisconnect
    ensures Tick(t, now, answer) == TransmitOne(t.(lastNow := now), answer)
  {
    hide TransmitOne;
  }

  /** A tick of a running job that is not ending. */
  lemma RunningTickIs(s: Transport, now: U32, answer: bool)
    requires s.job.active && s.job.terminal.None?
    ensures Tick(s, now, answer) == TransmitOne(Repeat(CheckLimits(s.(lastNow := now))), answer)
  {
    hide TransmitOne, Repeat, CheckLimits;
  }

  /** One tick of a job that is still sending its disconnect. */
  lemma SendingTick(s: Transport, now: U32, answer: bool)
    requires Good(s) && s.job.active && s.job.phase == SendDisconnect && EndingTimes(s)
    requires s.lastNow <= now < HALF
    ensures var t := Tick(s, now, answer);
      && t.lastNow == now && t.mailbox.None? && s.calls <= t.calls <= s.calls + 1
      && (t.job.active ==> t.job.terminal.Some? && EndingTimes(t) && EndingPhase(t.job.phase))
      && (t.job.active && t.job.phase == SendDisconnect ==>
            (t.job.pending.value.attempts == s.job.pending.value.attempts + (t.calls - s.calls) &&
             (s.job.pending.value.retryAt <= now ==> t.calls == s.calls + 1) &&
             (t.calls == s.calls ==> t.job.pending == s.job.pending)))
  {
    hide Core, TransmitOne, Tick, PublishedOf, TimeReached, PublishedOk;
    EndingHasTerminal(s);
    SendingTickIs(s, now, answer);
    TransmitDisconnect(s.(lastNow := now), answer);
    TimeOrder(now, s.job.pending.value.retryAt);
  }

  /** One tick of a job that waits for the disconnect to be answered. */
  lemma WaitingTick(s: Transport, now: U32, answer: bool)
    requires Good(s) && s.job.active && s.job.phase == WaitDisconnect && EndingTimes(s)
    requires s.lastNow <= now < HALF
    ensures var t := Tick(s, now, answer);
      && t.lastNow == now && t.mailbox.None? && t.calls == s.calls
      && (if s.job.disconnectDeadline <= now then !t.job.active else t == s.(lastNow := now) && EndingTimes(t))
  {
    hide Core;
    EndingHasTerminal(s);
    TimeOrder(now, s.job.disconnectDeadline);
  }

  // ---------------------------------------------------------------- the end of a job

  /** The tick that finds the deadline passed (or a cancellation, or an abort) ends the job or starts
      its disconnect, with the first transmit attempt in the same tick. */
  lemma LimitTick(s: Transport, now: U32, answer: bool)
    requires Good(s) && s.job.active && s.job.terminal.None? && now < HALF && TimeReached(now, s.job.deadline)
    ensures var t := Tick(s, now, answer);
      && t.lastNow == now && t.mailbox.None? && s.calls <= t.calls <= s.calls + 1
      && (t.job.active ==> t.job.terminal.Some? && EndingTimes(t) && EndingPhase(t.job.phase))
      && (t.job.active && t.job.phase == SendDisconnect ==>
            t.calls == s.calls + 1 && t.job.pending.value.attempts == 1)
  {
    hide Core, PhaseOk, TransmitOne, CheckLimits, Tick, Repeat, PublishedOf, TimeReached;
    var limited := CheckLimits(s.(lastNow := now));
    LimitEnds(s.(lastNow := now));
    RunningTickIs(s, now, answer);
    NoRepeat(limited);
    if limited.job.active {
      TransmitDisconnect(limited, answer);
      TimeOrder(now, 0);
    } else {
      NothingToSend(limited, answer);
    }
  }

  lemma NoRepeat(s: Transport)
    requires !s.job.active || s.job.terminal.Some?
    ensures Repeat(s) == s
  {
  }

  lemma NothingToSend(s: Transport, answer: bool)
    requires !s.job.active
    ensures TransmitOne(s, answer) == s
  {
  }

  lemma LimitEnds(s: Transport)
    requires Good(s) && s.job.active && s.job.terminal.None? && TimeReached(s.lastNow, s.job.deadline)
    ensures var t := CheckLimits(s);
      && t.calls == s.calls && t.mailbox.None? && t.lastNow == s.lastNow
      && (t.job.active ==> t.job.terminal.Some? && t.job.phase == SendDisconnect && FreshEnding(t))
  {
    hide RequestFinish, Core, PhaseOk;
    EndsOrDisconnects(s, Cancelled, CancelledError);
    EndsOrDisconnects(s.(abortId := 0), Failed, s.abortError);
    EndsOrDisconnects(s, Failed, Timeout);
  }

  /** Ending a job leaves no job, or one whose disconnect is fresh. */
  lemma EndsOrDisconnects(s: Transport, state: JobState, e: Error)
    requires s.job.active
    ensures var t := RequestFinish(s, state, e);
      && t.mailbox == s.mailbox && (t.job.active <==> MustDisconnect(s.job))
      && (t.job.active ==> t.job.terminal.Some? && t.job.phase == SendDisconnect && FreshEnding(t))
  {
    hide PublishedOf;
  }
}
