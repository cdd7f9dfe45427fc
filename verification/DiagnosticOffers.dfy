/** What a tick of the diagnostic transport (core/diagnostic_transport.cpp) hands to the transmit driver. */
module DiagnosticOffers {
  import opened Types
  import opened DiagnosticSpec
  import opened DiagnosticInvariant
  import opened DiagnosticCases
  import opened DiagnosticAnswers

  /** The waiting frame, once its time has come. */
  function Due(s: Transport): Option<Frame> {
    if s.job.active && s.job.pending.Some? && TimeReached(s.lastNow, s.job.pending.value.retryAt)
    then Some(Frame(s.job.pending.value.id, s.job.pending.value.direction, |s.job.pending.value.data|,
                    s.job.pending.value.data))
    else None
  }

  /** A running job when its tick comes to the transmitter. */
  function Checked(s: Transport): Transport {
    if !s.job.active || s.job.terminal.Some? then s else Repeat(CheckLimits(s))
  }

  /** The transport when a tick comes to the transmitter. */
  function AtTransmit(s: Transport, now: U32): Transport {
    var t := s.(lastNow := now);
    if t.job.active || t.mailbox.None? then Checked(t)
    else
      var begun := BeginJob(t.(mailbox := None), t.mailbox.value);
      if t.cancelId == t.mailbox.value.id then Finish(begun, Cancelled, CancelledError) else Checked(begun)
  }

  /** The frame a tick offers to the driver. */
  function Offered(s: Transport, now: U32): Option<Frame> {
    Due(AtTransmit(s, now))
  }

  lemma OfferCases(s: Transport, now: U32)
    ensures var t := s.(lastNow := now);
      Offered(s, now) == (
        if s.job.active || s.mailbox.None? then Due(Checked(t))
        else if s.cancelId == s.mailbox.value.id then None
        else Due(Checked(BeginJob(t.(mailbox := None), s.mailbox.value))))
  {
    hide Checked, BeginJob;
    if !s.job.active && s.mailbox.Some? { BegunActive(s.(lastNow := now, mailbox := None), s.mailbox.value); }
  }

  lemma BegunActive(s: Transport, c: Command)
    ensures BeginJob(s, c).job.active
  {
    hide IsoRequestFrame, SetupFrame, PublishedOf;
  }

  lemma CheckedProper(s: Transport)
    requires Good(s) && Stands(s)
    ensures Stands(Checked(s))
  {
    hide Good, Proper, Clear, CheckLimits, Repeat, Follows;
    if s.job.active && s.job.terminal.None? {
      RunningClear(s);
      LimitsFollow(s);
      CheckLimitsGood(s);
      var m := CheckLimits(s);
      FollowsStands(s, m);
      if m.job.active {
        RunningClear(m);
        RepeatFollows(m);
        FollowsStands(m, Repeat(m));
      } else {
        RepeatIdle(m);
      }
    }
  }

  lemma FollowsStands(s: Transport, t: Transport)
    requires Follows(s, t)
    ensures Stands(t)
  {
  }

  lemma RepeatIdle(s: Transport)
    requires !s.job.active
    ensures Repeat(s) == s
  {
  }

  lemma TransmitProper(s: Transport, now: U32)
    requires Good(s) && Stands(s)
    ensures Stands(AtTransmit(s, now))
  {
    hide Proper, Checked, BeginJob, PhaseOk, Core, RequestValid;
    LaterGood(s, now);
    if s.job.active || s.mailbox.None? {
      CheckedProper(s.(lastNow := now));
    } else {
      var t := s.(lastNow := now, mailbox := None);
      BeginProper(t, s.mailbox.value);
      BeginJobGood(t, s.mailbox.value);
      CheckedProper(BeginJob(t, s.mailbox.value));
    }
  }

  /** In every run a tick offers nothing but the frame of the phase in which the job then is, with the
      octets and the address of that phase. */
  lemma OfferedIsProper(calls: seq<Call>, now: U32)
    ensures var j, f := AtTransmit(After(calls), now).job, Offered(After(calls), now);
      f.Some? ==>
        j.active && j.pending.Some? && FrameOk(j, j.pending.value) &&
        f.value == Frame(j.pending.value.id, j.pending.value.direction, |j.pending.value.data|, j.pending.value.data)
  {
    hide Good, AtTransmit, Advances, Step;
    if calls != [] {
      OnlyAnswersComplete(calls[..|calls| - 1], calls[|calls| - 1]);
      AdvancesStands(After(calls[..|calls| - 1]), calls[|calls| - 1], After(calls));
    }
    TransmitProper(After(calls), now);
  }

  /** A job that has just been picked up is neither late nor told to stop. */
  lemma BegunChecked(s: Transport, c: Command)
    requires RequestValid(c.request) && s.cancelId != c.id && s.abortId != c.id
    ensures Checked(BeginJob(s, c)) == BeginJob(s, c)
  {
    hide IsoRequestFrame, SetupFrame, PublishedOf, RequestFinish;
    NotYet(s.lastNow, c.request.timeoutMs);
  }

  lemma NotYet(now: U32, ms: nat)
    requires 1 <= ms < HALF
    ensures !TimeReached(now, Later(now, ms))
  {
  }

  lemma BegunFrame(s: Transport, c: Command)
    requires s.lastNow < HALF
    ensures var r := c.request;
      var data := if r.route.protocol.IsoTp? then IsoRequestFrame(r) else SetupFrame(r.route);
      Due(BeginJob(s, c)) == Some(Frame(r.route.requestId, r.route.direction, |data|, data))
  {
    hide IsoRequestFrame, SetupFrame, PublishedOf;
  }

  /** A tick below 2^31 that picks up a job offers its request, or the channel setup, at once. */
  lemma RequestIsOffered(s: Transport, now: U32)
    requires Good(s) && !s.job.active && s.mailbox.Some? && now < HALF
    requires s.cancelId != s.mailbox.value.id && s.abortId != s.mailbox.value.id
    ensures var r, f := s.mailbox.value.request, Offered(s, now);
      && f.Some? && f.value.id == r.route.requestId && f.value.direction == r.route.direction
      && f.value.dlc == |f.value.data|
      && (if r.route.protocol.IsoTp? then RequestOctets(r, f.value.data) else SetupOctets(r.route, f.value.data))
  {
    hide RequestOctets, SetupOctets, IsoRequestFrame, SetupFrame, BeginJob, Checked, PhaseOk, RequestValid, Due, Finish;
    var r, t := s.mailbox.value.request, s.(lastNow := now, mailbox := None);
    BegunChecked(t, s.mailbox.value);
    BegunFrame(t, s.mailbox.value);
    if r.route.protocol.IsoTp? { RequestFrameIs(r); } else { SetupFrameIs(r); }
  }

  // ---------------------------------------------------------------- repeated requests

  /** At or after `at`, on the signed 32-bit clock */
  predicate Past(now: U32, at: U32) {
    (now - at) % 0x1_0000_0000 < 0x8000_0000
  }

  /** A request that is not the last one of its job is followed by a pause of the interval asked for,
      with a channel test 350 milliseconds on. */
  lemma PauseBegins(s: Transport)
    requires s.job.active && s.job.completedRequests + 1 < s.job.request.repeatCount
    ensures var j := CompleteKwp(s).job;
      && j.active && j.phase == WaitRepeat && j.completedRequests == s.job.completedRequests + 1
      && j.repeatAt == (s.lastNow + s.job.request.repeatIntervalMs) % 0x1_0000_0000
      && j.channelTestAt == (s.lastNow + 350) % 0x1_0000_0000
  {
    hide PublishedOf;
  }

  /** A tick in the pause stages the request again once the interval is over, else a channel test when
      one is due, else nothing. */
  lemma PauseTick(s: Transport, now: U32)
    requires Good(s) && s.job.active && s.job.phase == WaitRepeat && !Past(now, s.job.deadline)
    requires s.cancelId != s.job.id && s.abortId != s.job.id
    ensures var j := AtTransmit(s, now).job;
      && j.active && j.deadline == s.job.deadline
      && (Past(now, s.job.repeatAt) ==> j.phase == SendRequest && j.telegrams == s.job.telegrams + 1)
      && (!Past(now, s.job.repeatAt) && Past(now, s.job.channelTestAt) ==> j.phase == SendChannelTest)
      && (!Past(now, s.job.repeatAt) && !Past(now, s.job.channelTestAt) ==> j == s.job)
  {
    hide Core, TimeReached;
    var t := s.(lastNow := now);
    PastIsReached(now, s.job.deadline);
    PastIsReached(now, s.job.repeatAt);
    PastIsReached(now, s.job.channelTestAt);
    assert CheckLimits(t) == t;
  }

  lemma PastIsReached(now: U32, at: U32)
    ensures TimeReached(now, at) == Past(now, at)
  {
  }
}
