/** The end of a job (`requestFinish`, `transmitOnePendingFrame` and the tick,
    core/diagnostic_transport.cpp), over every sequence of ticks, frames, cancellations and aborts
    that follows its deadline. */
module DiagnosticEnding {
  import opened Types
  import opened DiagnosticSpec
  import opened DiagnosticInvariant
  import opened DiagnosticProofs

  // ---------------------------------------------------------------- what may follow

  /** Frames, cancellations, aborts and refused submissions. */
  predicate Bystander(s: Transport, c: Call) {
    !c.TickCall? && (c.SubmitCall? ==> !CanSubmit(s, c.request))
  }

  function Run(s: Transport, calls: seq<Call>): Transport
    decreases |calls|
  {
    if calls == [] then s else Run(Step(s, calls[0]), calls[1..])
  }

  /** Ticks and bystanders: every submission is refused when it is made. */
  predicate NoNewJob(s: Transport, calls: seq<Call>)
    decreases |calls|
  {
    calls == [] ||
    ((calls[0].TickCall? || Bystander(s, calls[0])) && NoNewJob(Step(s, calls[0]), calls[1..]))
  }

  /** Ticks at any pace with a clock that stays below 2^31 and does not run backwards. */
  predicate InOrder(from: nat, calls: seq<Call>)
    decreases |calls|
  {
    calls == [] ||
    (if calls[0].TickCall? then from <= calls[0].now < HALF && InOrder(calls[0].now, calls[1..])
     else InOrder(from, calls[1..]))
  }

  /** Nine ticks matter: the second to the eighth come a retry delay after the one before, the ninth a
      disconnect wait later. */
  function Gap(i: nat): nat {
    if i == 8 then DISCONNECT_TIMEOUT else RETRY_DELAY
  }

  /** With `i` of the nine gone by, the last of them at `from`, the others are among these calls; any
      number of further ticks may lie between them. */
  predicate Paced(i: nat, from: nat, calls: seq<Call>)
    decreases |calls|
  {
    i == 9 ||
    (calls != [] &&
     ((calls[0].TickCall? && from + Gap(i) <= calls[0].now && Paced(i + 1, calls[0].now, calls[1..])) ||
      Paced(i, from, calls[1..])))
  }

  // ---------------------------------------------------------------- one step of an ending

  /** A job that was open at `s` is ending or over. */
  ghost predicate Bounded(s: Transport, t: Transport) {
    && Good(t) && t.mailbox.None? && t.calls <= s.calls + 8
    && (t.job.active ==>
          && t.job.terminal.Some? && EndingPhase(t.job.phase)
          && (t.job.phase == SendDisconnect ==>
                t.job.pending.Some? && t.job.pending.value.attempts < 8 &&
                t.calls <= s.calls + t.job.pending.value.attempts))
  }

  /** And its clocks are not far ahead. */
  ghost predicate Ending(s: Transport, t: Transport) {
    Bounded(s, t) && t.lastNow < HALF && EndingTimes(t)
  }

  /** What `i` of the nine ticks have brought about, the last of them at `from`. */
  ghost predicate Passed(t: Transport, i: nat, from: nat) {
    t.job.active && t.job.terminal.Some? ==>
      && (t.job.phase == SendDisconnect ==>
            t.job.pending.Some? && i <= t.job.pending.value.attempts &&
            (i < t.job.pending.value.attempts || t.job.pending.value.retryAt <= from + RETRY_DELAY))
      && (t.job.phase == WaitDisconnect && i == 8 ==> t.job.disconnectDeadline <= from + DISCONNECT_TIMEOUT)
  }

  lemma SendingHasFrame(s: Transport)
    requires Good(s) && s.job.active
    ensures SendPhase(s.job.phase) ==> s.job.pending.Some? && s.job.pending.value.attempts < MAX_ATTEMPTS
  {
  }

  lemma TickFacts(t: Transport, now: U32, answer: bool)
    requires Good(t)
    ensures Good(Tick(t, now, answer))
    ensures !t.job.active && t.mailbox.None? ==> Tick(t, now, answer) == t.(lastNow := now)
  {
    TickGood(t, now, answer);
  }

  /** A tick keeps an ending going: at most one more attempt, and one if it is due. */
  lemma EndingTick(s: Transport, t: Transport, now: U32, answer: bool)
    requires Ending(s, t) && t.lastNow <= now < HALF
    ensures Ending(s, Tick(t, now, answer)) && Tick(t, now, answer).lastNow == now
  {
    hide Good, Tick;
    TickFacts(t, now, answer);
    if t.job.active {
      if t.job.phase == SendDisconnect { SendingTick(t, now, answer); } else { WaitingTick(t, now, answer); }
      if Tick(t, now, answer).job.active { SendingHasFrame(Tick(t, now, answer)); }
    }
  }

  /** The clocks of an ending reach at most as far ahead as if the last tick were one of the nine. */
  lemma Reanchor(t: Transport, i: nat, from: nat)
    requires EndingTimes(t) && Passed(t, i, from)
    ensures Passed(t, i, t.lastNow)
  {
  }

  /** A further tick. */
  lemma PassedAnyTick(s: Transport, t: Transport, i: nat, from: nat, now: U32, answer: bool)
    requires Ending(s, t) && Passed(t, i, from) && i <= 8 && from <= t.lastNow <= now < HALF
    ensures Passed(Tick(t, now, answer), i, from)
  {
    hide Good, Tick;
    TickFacts(t, now, answer);
    if t.job.active {
      if t.job.phase == SendDisconnect {
        SendingTick(t, now, answer);
        if Tick(t, now, answer).job.active { SendingHasFrame(Tick(t, now, answer)); }
      } else {
        WaitingTick(t, now, answer);
      }
    }
  }

  /** One of the nine: by then another attempt has been made. */
  lemma PassedNextTick(s: Transport, t: Transport, i: nat, from: nat, now: U32, answer: bool)
    requires Ending(s, t) && Passed(t, i, from) && 1 <= i < 8 && from <= t.lastNow <= now < HALF
    requires from + RETRY_DELAY <= now
    ensures Passed(Tick(t, now, answer), i + 1, now)
  {
    hide Good, Tick;
    EndingTick(s, t, now, answer);
    TickFacts(t, now, answer);
    if t.job.active {
      if t.job.phase == SendDisconnect { SendingTick(t, now, answer); } else { WaitingTick(t, now, answer); }
    }
  }

  lemma LastTick(s: Transport, t: Transport, from: nat, now: U32, answer: bool)
    requires Ending(s, t) && Passed(t, 8, from) && from <= t.lastNow <= now < HALF && from + DISCONNECT_TIMEOUT <= now
    ensures !Tick(t, now, answer).job.active
  {
    hide Good, Tick;
    TickFacts(t, now, answer);
    if t.job.active { WaitingTick(t, now, answer); }
  }

  /** The deadline tick. */
  lemma FirstTick(s: Transport, now: U32, answer: bool)
    requires Good(s) && s.job.active && EndingTimes(s) && s.lastNow <= now < HALF
    requires s.job.terminal.Some? || TimeReached(now, s.job.deadline)
    ensures Ending(s, Tick(s, now, answer)) && Tick(s, now, answer).lastNow == now
    ensures Passed(Tick(s, now, answer), 1, now)
  {
    hide Good, Tick;
    TickFacts(s, now, answer);
    if s.job.terminal.None? {
      LimitTick(s, now, answer);
    } else {
      TerminalIsEnding(s);
      if s.job.phase == SendDisconnect {
        SendingTick(s, now, answer);
        FirstAttempt(s);
      } else {
        WaitingTick(s, now, answer);
      }
    }
    if Tick(s, now, answer).job.active { SendingHasFrame(Tick(s, now, answer)); }
  }

  lemma TerminalIsEnding(s: Transport)
    requires Good(s) && s.job.active && s.job.terminal.Some?
    ensures EndingPhase(s.job.phase) && s.mailbox.None?
  {
  }

  lemma FirstAttempt(s: Transport)
    requires s.job.active && s.job.terminal.Some? && EndingTimes(s) && s.job.phase == SendDisconnect
    ensures s.job.pending.Some? && (s.job.pending.value.attempts > 0 || s.job.pending.value.retryAt == 0)
  {
  }

  /** A frame leaves an ending job as it is or ends it at once; a request leaves it as it is. */
  lemma BystanderShape(t: Transport, c: Call)
    requires Good(t) && Bystander(t, c) && t.mailbox.None?
    requires t.job.active ==> t.job.terminal.Some? && EndingPhase(t.job.phase)
    ensures var u := Step(t, c);
      && u.lastNow == t.lastNow && u.mailbox.None? && u.calls == t.calls
      && (u.job == t.job || (t.job.active && !u.job.active))
  {
    hide Observe, Good, RequestValid;
    if c.ObserveCall? { EndingFrame(t, c.frame); }
  }

  lemma EndingFrame(t: Transport, f: Frame)
    requires Good(t) && t.mailbox.None?
    requires t.job.active ==> t.job.terminal.Some? && EndingPhase(t.job.phase)
    ensures var u := Observe(t, f);
      && u.lastNow == t.lastNow && u.mailbox.None? && u.calls == t.calls
      && (u.job == t.job || (t.job.active && !u.job.active))
  {
    hide Core, ObserveIso, ObserveTp20, BeginJob, Body, RequestValid, CollidesActive, IsoTakes, Tp20Takes;
    if t.job.active {
      EndingNotIso(t);
      FinishedJob(t, Failed, Collision);
      if Tp20Takes(t, f) { EndingAnswered(t, f); }
    }
  }

  lemma EndingNotIso(t: Transport)
    requires Good(t) && t.job.active && EndingPhase(t.job.phase)
    ensures t.job.request.route.protocol.VwTp20?
  {
  }

  lemma FinishedJob(t: Transport, state: JobState, e: Error)
    requires t.job.active
    ensures !Finish(t, state, e).job.active && Finish(t, state, e).mailbox == t.mailbox
  {
  }

  /** The only frame that an ending job takes is the answer to its disconnect. */
  lemma EndingAnswered(t: Transport, f: Frame)
    requires t.job.active && t.job.terminal.Some? && EndingPhase(t.job.phase) && Tp20Takes(t, f)
    ensures !ObserveTp20(t, f).job.active && ObserveTp20(t, f).mailbox == t.mailbox
  {
    hide Body, MatchesResponse, High, Finish;
    FinishedJob(t, t.job.terminal.value.state, t.job.terminal.value.error);
  }

  lemma BoundedBystander(s: Transport, t: Transport, c: Call)
    requires Bounded(s, t) && Bystander(t, c)
    ensures Bounded(s, Step(t, c)) && (!t.job.active ==> !Step(t, c).job.active)
  {
    hide Good, Step, EndingPhase, Bystander;
    BystanderShape(t, c);
    StepGood(t, c);
  }

  lemma EndingBystander(s: Transport, t: Transport, c: Call, i: nat, from: nat)
    requires Ending(s, t) && Bystander(t, c)
    ensures Ending(s, Step(t, c)) && Step(t, c).lastNow == t.lastNow
    ensures Passed(t, i, from) ==> Passed(Step(t, c), i, from)
  {
    hide Good, Step, EndingPhase, Bystander;
    BystanderShape(t, c);
    BoundedBystander(s, t, c);
  }

  // ---------------------------------------------------------------- any clock

  /** A tick at any time makes at most one more attempt. */
  lemma BoundedTick(s: Transport, t: Transport, now: U32, answer: bool)
    requires Bounded(s, t)
    ensures Bounded(s, Tick(t, now, answer)) && (!t.job.active ==> !Tick(t, now, answer).job.active)
  {
    hide Good;
    TickFacts(t, now, answer);
    if t.job.active && t.job.phase == SendDisconnect {
      TransmitDisconnect(t.(lastNow := now), answer);
      SendingTickIs(t, now, answer);
    } else if t.job.active {
      WaitingTickIs(t, now, answer);
    }
  }

  lemma WaitingTickIs(t: Transport, now: U32, answer: bool)
    requires Good(t) && t.job.active && t.job.terminal.Some? && t.job.phase == WaitDisconnect
    ensures var u := t.(lastNow := now);
      Tick(t, now, answer) == if TimeReached(now, t.job.disconnectDeadline) then Finalize(u) else u
  {
    hide Core, Finalize;
  }

  /** The deadline tick ends the job at once, without a driver call, if and only if no TP2.0 channel is
      open; otherwise the channel's release is staged. The clock does not matter. */
  lemma DeadlineTickEndsIff(s: Transport, now: U32, answer: bool)
    requires Good(s) && s.job.active && s.job.terminal.None? && TimeReached(now, s.job.deadline)
    ensures var t := Tick(s, now, answer);
      && (!t.job.active <==> !MustDisconnect(s.job)) && (!t.job.active ==> t.calls == s.calls)
      && Bounded(s, t)
  {
    hide Core, PhaseOk, TransmitOne, CheckLimits, EndingTimes;
    var u := s.(lastNow := now);
    var limited := CheckLimits(u);
    LimitEnds(u);
    LimitChannel(u);
    TickFacts(s, now, answer);
    assert Repeat(limited) == limited;
    if limited.job.active { TransmitDisconnect(limited, answer); } else { NothingToSend(limited, answer); }
  }

  lemma LimitChannel(s: Transport)
    requires Good(s) && s.job.active && s.job.terminal.None? && TimeReached(s.lastNow, s.job.deadline)
    ensures CheckLimits(s).job.active <==> MustDisconnect(s.job)
  {
    hide RequestFinish, MustDisconnect, Core, PhaseOk;
    EndsOrDisconnects(s, Cancelled, CancelledError);
    EndsOrDisconnects(s.(abortId := 0), Failed, s.abortError);
    EndsOrDisconnects(s, Failed, Timeout);
  }

  lemma {:induction false} BoundedRun(s: Transport, t: Transport, calls: seq<Call>)
    requires Bounded(s, t) && NoNewJob(t, calls)
    ensures Bounded(s, Run(t, calls)) && (!t.job.active ==> !Run(t, calls).job.active)
    decreases |calls|
  {
    hide Bounded, Tick, Observe, Submit, Cancel, Abort, Bystander;
    if calls != [] {
      var c := calls[0];
      if c.TickCall? { BoundedTick(s, t, c.now, c.answer); } else { BoundedBystander(s, t, c); }
      BoundedRun(s, Step(t, c), calls[1..]);
    }
  }

  // ---------------------------------------------------------------- every sequence

  lemma {:induction false} PacedRun(s: Transport, t: Transport, calls: seq<Call>, i: nat, from: nat)
    requires Ending(s, t) && InOrder(t.lastNow, calls) && Paced(i, from, calls) && 1 <= i <= 8
    requires NoNewJob(t, calls) && from <= t.lastNow && Passed(t, i, from)
    ensures !Run(t, calls).job.active
    decreases |calls|
  {
    hide Bounded, EndingTimes, Passed, Tick, Observe, Cancel, Abort, Submit, Bystander;
    assert calls != [];
    var c := calls[0];
    var u := Step(t, c);
    if !c.TickCall? {
      EndingBystander(s, t, c, i, from);
      PacedRun(s, u, calls[1..], i, from);
    } else {
      EndingTick(s, t, c.now, c.answer);
      if from + Gap(i) <= c.now && Paced(i + 1, c.now, calls[1..]) {
        if i == 8 {
          LastTick(s, t, from, c.now, c.answer);
          BoundedRun(s, u, calls[1..]);
        } else {
          PassedNextTick(s, t, i, from, c.now, c.answer);
          PacedRun(s, u, calls[1..], i + 1, c.now);
        }
      } else {
        PassedAnyTick(s, t, i, from, c.now, c.answer);
        PacedRun(s, u, calls[1..], i, from);
      }
    }
  }

  /** A job that is ending, or whose deadline the first tick finds passed. */
  predicate MustEnd(s: Transport, calls: seq<Call>) {
    && s.job.active && calls != [] && calls[0].TickCall?
    && (s.job.terminal.Some? || TimeReached(calls[0].now, s.job.deadline))
  }

  /** From the tick that finds the deadline passed (or a cancellation or abort) on, whatever the clock
      shows at the ticks and whatever arrives between them, the transport makes at most eight more
      transmit attempts, and the job never leaves its ending again. */
  lemma EndingIsBounded(s: Transport, calls: seq<Call>)
    requires Good(s) && MustEnd(s, calls) && NoNewJob(s, calls)
    ensures var t := Run(s, calls);
      t.calls <= s.calls + 8 && (t.job.active ==> t.job.terminal.Some? && EndingPhase(t.job.phase))
  {
    hide Bounded, Tick;
    StartBounded(s, calls[0].now, calls[0].answer);
    BoundedRun(s, Tick(s, calls[0].now, calls[0].answer), calls[1..]);
    BoundedMeans(s, Run(s, calls));
  }

  lemma StartBounded(s: Transport, now: U32, answer: bool)
    requires Good(s) && s.job.active && (s.job.terminal.Some? || TimeReached(now, s.job.deadline))
    ensures Bounded(s, Tick(s, now, answer))
  {
    hide Good, Tick;
    if s.job.terminal.None? {
      DeadlineTickEndsIff(s, now, answer);
    } else {
      TerminalIsEnding(s);
      SendingHasFrame(s);
      BoundedTick(s, s, now, answer);
    }
  }

  lemma BoundedMeans(s: Transport, t: Transport)
    requires Bounded(s, t)
    ensures t.calls <= s.calls + 8 && (t.job.active ==> t.job.terminal.Some? && EndingPhase(t.job.phase))
  {
  }

  lemma OrderStep(from: nat, calls: seq<Call>)
    requires InOrder(from, calls) && calls != [] && calls[0].TickCall?
    ensures from <= calls[0].now < HALF && InOrder(calls[0].now, calls[1..])
  {
  }

  /** And it ends. Without an open TP2.0 channel, at once, whatever the clock shows; with one, as soon as
      the ticks, whatever further ones there are, include seven at a retry delay from one to the next and
      then one a disconnect wait later, on a clock that stays below 2^31. */
  lemma JobEndsInTime(s: Transport, calls: seq<Call>)
    requires Good(s) && MustEnd(s, calls) && NoNewJob(s, calls)
    requires MustDisconnect(s.job) ==>
      EndingTimes(s) && InOrder(s.lastNow, calls) && Paced(1, calls[0].now, calls[1..])
    ensures !Run(s, calls).job.active && Run(s, calls).calls <= s.calls + 8
  {
    hide Good, Bounded, Tick, InOrder, Paced, MustDisconnect;
    var now, answer := calls[0].now, calls[0].answer;
    var t := Tick(s, now, answer);
    EndingIsBounded(s, calls);
    if s.job.terminal.Some? { ChannelOfEnding(s); }
    if MustDisconnect(s.job) {
      OrderStep(s.lastNow, calls);
      FirstTick(s, now, answer);
      PacedRun(s, t, calls[1..], 1, now);
    } else {
      DeadlineTickEndsIff(s, now, answer);
      BoundedRun(s, t, calls[1..]);
    }
  }

  /** Only a job with an open channel has a release to wait for. */
  lemma ChannelOfEnding(s: Transport)
    requires Good(s) && s.job.active && s.job.terminal.Some?
    ensures MustDisconnect(s.job)
  {
  }

  // ---------------------------------------------------------------- ticks that are never far apart

  /** No tick comes more than `g` after the one before. */
  predicate Dense(from: nat, g: nat, calls: seq<Call>)
    decreases |calls|
  {
    calls == [] ||
    (if calls[0].TickCall? then calls[0].now <= from + g && Dense(calls[0].now, g, calls[1..])
     else Dense(from, g, calls[1..]))
  }

  /** The time of the last tick. */
  function LastTime(from: nat, calls: seq<Call>): nat
    decreases |calls|
  {
    if calls == [] then from
    else if calls[0].TickCall? then LastTime(calls[0].now, calls[1..]) else LastTime(from, calls[1..])
  }

  /** How long the remaining ones of the nine take at most with gaps up to `g`. */
  function Needed(i: nat, g: nat): nat
    requires i <= 9
    decreases 9 - i
  {
    if i == 9 then 0 else Gap(i) + g + Needed(i + 1, g)
  }

  lemma {:induction false} DenseIsPaced(i: nat, from: nat, prev: nat, g: nat, calls: seq<Call>)
    requires 1 <= i <= 9 && InOrder(prev, calls) && Dense(prev, g, calls)
    requires i < 9 ==> from <= prev < from + Gap(i)
    requires from + Needed(i, g) <= LastTime(prev, calls)
    ensures Paced(i, from, calls)
    decreases |calls|
  {
    if i < 9 && calls != [] {
      var c := calls[0];
      if !c.TickCall? {
        DenseIsPaced(i, from, prev, g, calls[1..]);
      } else if from + Gap(i) <= c.now {
        DenseIsPaced(i + 1, c.now, c.now, g, calls[1..]);
      } else {
        DenseIsPaced(i, from, c.now, g, calls[1..]);
      }
    }
  }

  lemma NeededInAll(g: nat)
    ensures Needed(1, g) == 7 * RETRY_DELAY + DISCONNECT_TIMEOUT + 8 * g
  {
    assert Needed(7, g) == RETRY_DELAY + g + Needed(8, g);
    assert Needed(5, g) == 2 * (RETRY_DELAY + g) + Needed(7, g);
    assert Needed(3, g) == 2 * (RETRY_DELAY + g) + Needed(5, g);
    assert Needed(1, g) == 2 * (RETRY_DELAY + g) + Needed(3, g);
  }

  /** With ticks at most `g` milliseconds apart on a clock below 2^31 the job is over 64 + 8 g
      milliseconds after the deadline tick; without an open TP2.0 channel neither is needed. */
  lemma JobEndsByTime(s: Transport, calls: seq<Call>, g: nat)
    requires Good(s) && MustEnd(s, calls) && NoNewJob(s, calls)
    requires MustDisconnect(s.job) ==> EndingTimes(s) && InTime(s.lastNow, calls, g)
    ensures !Run(s, calls).job.active && Run(s, calls).calls <= s.calls + 8
  {
    hide Good, Run, NoNewJob, MustDisconnect, EndingTimes;
    if MustDisconnect(s.job) {
      OrderStep(s.lastNow, calls);
      NeededInAll(g);
      DenseIsPaced(1, calls[0].now, calls[0].now, g, calls[1..]);
    }
    JobEndsInTime(s, calls);
  }

  /** The ticks are in order, at most `g` apart, and go on for long enough. */
  predicate InTime(from: nat, calls: seq<Call>, g: nat)
    requires calls != [] && calls[0].TickCall?
  {
    InOrder(from, calls) && Dense(calls[0].now, g, calls[1..]) &&
    LastTime(calls[0].now, calls[1..]) >= calls[0].now + 64 + 8 * g
  }
}
