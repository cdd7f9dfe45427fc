/** A KWP response over VW TP2.0, cut into fragments in any way, is reassembled exactly
    (`observeTp20KwpFrame`, core/diagnostic_transport.cpp). */
module KwpRoundTrip {
  import opened Types
  import opened DiagnosticSpec
  import opened DiagnosticInvariant
  import opened DiagnosticEnding
  import opened DiagnosticCases
  import opened IsoTpRoundTrip

  // ---------------------------------------------------------------- fragments

  /** Opcodes 0 and 1 ask for an acknowledgement, 1 and 3 end the response. */
  datatype Fragment = Fragment(op: nat, octets: Bytes)

  /** The octets of the first `k` fragments. */
  function Upto(frags: seq<Fragment>, k: nat): Bytes
    requires k <= |frags|
  {
    if k == 0 then [] else Upto(frags, k - 1) + frags[k - 1].octets
  }

  /** The response, cut into fragments of any length; only the last one reaches its end. */
  predicate Cut(frags: seq<Fragment>, bytes: Bytes) {
    && frags != [] && Upto(frags, |frags|) == bytes && 1 <= |bytes| <= MAX_RESPONSE
    && (forall k :: 0 <= k < |frags| - 1 ==> frags[k].op == 0 || frags[k].op == 2)
    && (frags[|frags| - 1].op == 1 || frags[|frags| - 1].op == 3) && frags[|frags| - 1].octets != []
  }

  lemma {:induction false} UptoGrows(frags: seq<Fragment>, j: nat, k: nat)
    requires j <= k <= |frags|
    ensures Upto(frags, j) <= Upto(frags, k)
  {
    if j < k { UptoGrows(frags, j, k - 1); }
  }

  /** Before the last fragment the response is short. */
  lemma UptoShort(frags: seq<Fragment>, bytes: Bytes, k: nat)
    requires Cut(frags, bytes) && k < |frags|
    ensures |Upto(frags, k)| < |bytes|
  {
    UptoGrows(frags, k, |frags| - 1);
  }

  predicate WaitsForEcu(j: Job) {
    j.phase == WaitRequestAck || j.phase == WaitRequestResponse
  }

  /** The k-th fragment under the next number of the channel; the last one may carry any padding. */
  ghost predicate Carries(s: Transport, c: Call, frags: seq<Fragment>, bytes: Bytes, k: nat)
    requires k < |frags|
  {
    && c.ObserveCall? && WaitsForEcu(s.job) && MatchesResponse(s.job, c.frame, s.job.ecuId)
    && exists padding: Bytes {:trigger Padded(s.job, frags, bytes, k, padding)} ::
         Body(c.frame) == Padded(s.job, frags, bytes, k, padding) && (k < |frags| - 1 ==> padding == [])
  }

  function Padded(j: Job, frags: seq<Fragment>, bytes: Bytes, k: nat, padding: Bytes): Bytes
    requires k < |frags|
  {
    var head := (frags[k].op * 16 + j.fragments % 16) % 256;
    if k == 0 then [head, |bytes| / 256 % 256, |bytes| % 256] + (frags[k].octets + padding)
    else [head] + (frags[k].octets + padding)
  }

  // ---------------------------------------------------------------- what may lie in between

  /** The ECU acknowledges the request. */
  predicate EcuAck(s: Transport, f: Frame) {
    Body(f) != [] && WaitsForEcu(s.job) && High(Body(f)[0]) == 0xB && Low(Body(f)[0]) == s.job.expectedAck
  }

  /** A whole reply in one fragment that asks for patience. */
  predicate PendingReply(s: Transport, f: Frame) {
    var b := Body(f);
    && |b| >= 6 && WaitsForEcu(s.job) && !s.job.rxStarted && (High(b[0]) == 1 || High(b[0]) == 3)
    && Low(b[0]) == s.job.expectedRx
    && b[1..6] == [0, 3, NEGATIVE_SID, RequestSid(s.job.request), PENDING_NRC]
  }

  /** Calls that do not concern the response: ticks before the deadline on which no frame is refused for
      the eighth time, acknowledgements, pending replies before the response, frames that the job
      neither takes nor collides with, new requests, and cancellations of other jobs. */
  predicate Between(s: Transport, c: Call, k: nat) {
    match c
    case TickCall(now, answer) =>
      !TimeReached(now, s.job.deadline) &&
      !(s.job.pending.Some? && TimeReached(now, s.job.pending.value.retryAt) && !answer &&
        s.job.pending.value.attempts + 1 == MAX_ATTEMPTS)
    case ObserveCall(f) =>
      !CollidesActive(s.job, f) && (!Tp20Takes(s, f) || EcuAck(s, f) || (k == 0 && PendingReply(s, f)))
    case CancelCall(id) => id != s.job.id
    case SubmitCall(_) => true
    case AbortCall(_) => false
  }

  /** These calls bring the fragments from the k-th on, in order, and the transmission of the last
      acknowledgement if one is asked for, and nothing else that concerns the response. */
  ghost predicate Brings(s: Transport, calls: seq<Call>, frags: seq<Fragment>, bytes: Bytes, k: nat)
    requires k <= |frags|
    decreases |calls|
  {
    if k == |frags| && s.job.phase != SendAck then calls == []
    else
      calls != [] &&
      ((Between(s, calls[0], k) && Brings(Step(s, calls[0]), calls[1..], frags, bytes, k)) ||
       (k < |frags| && Carries(s, calls[0], frags, bytes, k) &&
        Brings(Step(s, calls[0]), calls[1..], frags, bytes, k + 1)))
  }

  // ---------------------------------------------------------------- the job while it receives

  /** A job of the request with these responses behind it, which nobody has asked to stop. */
  ghost predicate Receiving(s: Transport, request: Request, done: seq<Telegram>) {
    && Good(s) && s.job.active && s.job.request == request && request.route.protocol.VwTp20?
    && s.job.terminal.None? && s.cancelId != s.job.id && s.abortId != s.job.id && s.job.responses == done
  }

  /** Where the job stands after `k` fragments. */
  predicate Holds(j: Job, frags: seq<Fragment>, bytes: Bytes, k: nat)
    requires k <= |frags|
  {
    if k == 0 then (WaitsForEcu(j) && !j.rxStarted) || (j.phase == SendAck && j.afterAck == RequestPending)
    else
      && j.rxStarted && j.rxTotal == |bytes| && j.response == Upto(frags, k)
      && (if k < |frags| then j.phase == WaitRequestResponse || (j.phase == SendAck && j.afterAck == ThenWaitRequest)
          else j.phase == SendAck && j.afterAck == RequestComplete && j.lastOp == frags[k - 1].op)
  }

  /** The response is on record, whole. After the last one wanted the job is complete but for the release
      of its channel; before, it is shown and the job goes on. */
  predicate Received(s: Transport, done: seq<Telegram>, bytes: Bytes, op: nat) {
    && s.job.active && s.job.response == bytes && s.job.responses == done + [Telegram(|bytes|, bytes, op)]
    && (if s.job.completedRequests < s.job.request.repeatCount
        then s.job.phase == WaitRepeat && s.published.response == bytes
        else s.job.terminal == Some(Terminal(Complete, NoError)))
  }

  lemma ReceivingFacts(s: Transport, request: Request, done: seq<Telegram>)
    requires Receiving(s, request, done)
    ensures s.job.pending.Some? <==> SendPhase(s.job.phase)
    ensures s.job.pending.Some? ==> s.job.pending.value.attempts < MAX_ATTEMPTS
    ensures s.busy && s.mailbox.None? && (!IsoPhase(s.job.phase) && !SetupPhase(s.job.phase) ==> MustDisconnect(s.job))
    ensures s.job.completedRequests == |done| && s.job.expectedRx == s.job.fragments % 16
  {
  }

  /** The job may change anything but what identifies it. */
  predicate SameJob(s: Transport, t: Transport) {
    && t.job.active && t.job.request == s.job.request && t.job.terminal == s.job.terminal
    && t.job.id == s.job.id && t.cancelId == s.cancelId && t.abortId == s.abortId && t.job.responses == s.job.responses
  }

  lemma StillReceiving(s: Transport, t: Transport, request: Request, done: seq<Telegram>)
    requires Receiving(s, request, done) && Good(t) && SameJob(s, t)
    ensures Receiving(t, request, done)
  {
    hide Good;
  }

  // ---------------------------------------------------------------- completion

  /** A whole positive response completes one request of the job. */
  lemma CompletionReceived(s: Transport, request: Request, done: seq<Telegram>, bytes: Bytes, op: nat)
    requires s.job.active && s.job.request == request && s.job.responses == done && MustDisconnect(s.job)
    requires s.job.response == bytes && s.job.rxTotal == |bytes| && s.job.lastOp == op
    ensures Received(CompleteKwp(s), done, bytes, op) && Received(Progress(CompleteKwp(s)), done, bytes, op)
    ensures CompleteKwp(s).job.phase != SendAck
  {
  }

  lemma PositiveOutcome(j: Job, bytes: Bytes)
    requires j.response == bytes && Positive(j.request, bytes)
    ensures Outcome(j, false) == RequestComplete && Validated(j, false) == j
  {
  }

  // ---------------------------------------------------------------- in between

  /** An acknowledgement leaves the transmitter. */
  lemma AckSent(s: Transport, answer: bool)
    requires s.job.active && s.job.phase == SendAck && s.job.pending.Some?
    requires !(TimeReached(s.lastNow, s.job.pending.value.retryAt) && !answer &&
               s.job.pending.value.attempts + 1 == MAX_ATTEMPTS) && s.job.pending.value.attempts < MAX_ATTEMPTS
    ensures var t := TransmitOne(s, answer); var p := s.(calls := s.calls + 1, job := s.job.(pending := None));
      t == Progress(ApplyAfterAck(p)) ||
      (t.job == s.job.(pending := t.job.pending) && t.cancelId == s.cancelId && t.abortId == s.abortId)
  {
    hide ApplyAfterAck, Finalize, Fail, PublishedOf;
  }

  lemma AckApplied(s: Transport)
    requires s.job.active
    ensures s.job.afterAck == ThenWaitRequest ==>
      ApplyAfterAck(s) == s.(job := s.job.(afterAck := NoAction, phase := WaitRequestResponse))
    ensures s.job.afterAck == RequestPending ==>
      ApplyAfterAck(s) == s.(job := ResetTp20(s.job.(afterAck := NoAction)).(phase := WaitRequestResponse))
    ensures s.job.afterAck == RequestComplete ==>
      ApplyAfterAck(s) == CompleteKwp(s.(job := s.job.(afterAck := NoAction)))
  {
    hide CompleteKwp, ResetTp20;
  }

  lemma TickBetween(s: Transport, request: Request, done: seq<Telegram>, frags: seq<Fragment>, bytes: Bytes, k: nat,
                    now: U32, answer: bool)
    requires Receiving(s, request, done) && k <= |frags| && Holds(s.job, frags, bytes, k) && Cut(frags, bytes)
    requires Between(s, TickCall(now, answer), k)
    ensures var t := Tick(s, now, answer);
      (Receiving(t, request, done) && Holds(t.job, frags, bytes, k)) ||
      (k == |frags| && t.job.phase != SendAck && Received(t, done, bytes, frags[k - 1].op))
  {
    hide Good, Tick, TransmitOne, ApplyAfterAck, CompleteKwp, Received, Cut, Upto, Progress;
    ReceivingFacts(s, request, done);
    var u := s.(lastNow := now);
    QuietTick(s, now, answer);
    TickGood(s, now, answer);
    if s.job.phase == SendAck {
      AckSent(u, answer);
      if k == |frags| { LastAckTick(u, request, done, frags, bytes); } else { PartAck(u, frags, bytes, k); }
    } else {
      NothingPending(u, answer);
    }
  }

  /** An acknowledgement before the last one is followed by the wait for more. */
  lemma PartAck(s: Transport, frags: seq<Fragment>, bytes: Bytes, k: nat)
    requires s.job.active && s.job.phase == SendAck && k < |frags| && Holds(s.job, frags, bytes, k)
    ensures var t := Progress(ApplyAfterAck(s.(calls := s.calls + 1, job := s.job.(pending := None))));
      SameJob(s, t) && Holds(t.job, frags, bytes, k)
  {
    hide ApplyAfterAck, Upto;
    AckApplied(s.(calls := s.calls + 1, job := s.job.(pending := None)));
  }

  lemma LastAckTick(s: Transport, request: Request, done: seq<Telegram>, frags: seq<Fragment>, bytes: Bytes)
    requires s.job.active && s.job.request == request && s.job.responses == done && MustDisconnect(s.job)
    requires Cut(frags, bytes) && Holds(s.job, frags, bytes, |frags|)
    ensures var t := Progress(ApplyAfterAck(s.(calls := s.calls + 1, job := s.job.(pending := None))));
      t.job.phase != SendAck && Received(t, done, bytes, frags[|frags| - 1].op)
  {
    hide ApplyAfterAck, CompleteKwp, Received, Upto, Progress;
    var p := s.(calls := s.calls + 1, job := s.job.(pending := None));
    AckApplied(p);
    LastAck(p, request, done, frags, bytes);
  }

  lemma NothingPending(s: Transport, answer: bool)
    requires s.job.pending.None?
    ensures TransmitOne(s, answer) == s
  {
  }

  lemma LastAck(s: Transport, request: Request, done: seq<Telegram>, frags: seq<Fragment>, bytes: Bytes)
    requires s.job.active && s.job.request == request && s.job.responses == done && MustDisconnect(s.job)
    requires Cut(frags, bytes) && Holds(s.job, frags, bytes, |frags|)
    ensures var t := CompleteKwp(s.(job := s.job.(afterAck := NoAction)));
      t.job.phase != SendAck && Received(Progress(t), done, bytes, frags[|frags| - 1].op) && Progress(t).job == t.job
  {
    hide CompleteKwp;
    CompletionReceived(s.(job := s.job.(afterAck := NoAction)), request, done, bytes, frags[|frags| - 1].op);
  }

  /** The acknowledgement of the request. */
  lemma AckTaken(s: Transport, f: Frame)
    requires s.job.active && s.job.request.route.protocol.VwTp20? && !CollidesActive(s.job, f)
    requires Tp20Takes(s, f) && EcuAck(s, f)
    ensures Observe(s, f) == Progress(s.(job := s.job.(phase := WaitRequestResponse)))
  {
    hide Progress, CollidesActive, MatchesResponse, HandleOutcome, Fail;
    var b := Body(f);
    assert b != [];
    Tp20Cases(s, f);
    KwpCases(s, b, false);
  }

  /** A fragment is taken: the observation is what follows it. */
  lemma FragmentTaken(s: Transport, f: Frame)
    requires s.job.active && s.job.request.route.protocol.VwTp20? && WaitsForEcu(s.job)
    requires MatchesResponse(s.job, f, s.job.ecuId) && Body(f) != []
    requires var b := Body(f);
      High(b[0]) <= 3 && Low(b[0]) == s.job.expectedRx &&
      (!s.job.rxStarted ==> |b| >= 3 && 1 <= Wide(b[1], b[2]) <= MAX_RESPONSE)
    ensures var b := Body(f);
      Observe(s, f) == Followed(s.(job := TakeFragment(s.job, b, High(b[0]))), High(b[0]), Low(b[0]), false)
  {
    hide Followed, TakeFragment, High, Low, Wide;
    var b := Body(f);
    NotForeign(s, f);
    Tp20Cases(s, f);
    KwpCases(s, b, false);
  }

  lemma NotForeign(s: Transport, f: Frame)
    requires s.job.request.route.protocol.VwTp20? && MatchesResponse(s.job, f, s.job.ecuId)
    ensures !CollidesActive(s.job, f)
  {
  }

  lemma PendingFollowed(j: Job, b: Bytes)
    requires |b| >= 6 && !j.rxStarted && b[1..6] == [0, 3, NEGATIVE_SID, RequestSid(j.request), PENDING_NRC]
    ensures var k := TakeFragment(j, b, High(b[0]));
      && |k.response| == k.rxTotal == 3 && Outcome(k, false) == RequestPending
      && Validated(k, false) == k.(pendingSeen := true)
      && k.phase == j.phase && k.request == j.request && k.active == j.active && k.terminal == j.terminal
      && k.id == j.id && k.responses == j.responses && Wide(b[1], b[2]) == 3
  {
    assert b[1] == b[1..6][0] && b[2] == b[1..6][1] && b[3] == b[1..6][2] && b[4] == b[1..6][3] && b[5] == b[1..6][4];
    assert Assembled([], b[3..], 3) == b[3..6];
  }

  lemma PendingTaken(s: Transport, f: Frame)
    requires s.job.active && s.job.request.route.protocol.VwTp20? && MatchesResponse(s.job, f, s.job.ecuId)
    requires PendingReply(s, f)
    ensures var t := Observe(s, f);
      && SameJob(s, t)
      && ((WaitsForEcu(t.job) && !t.job.rxStarted) || (t.job.phase == SendAck && t.job.afterAck == RequestPending))
  {
    hide TakeFragment, Outcome, Validated, High, Low, Wide, MatchesResponse, Fail, CompleteKwp, StageKwp;
    var b := Body(f);
    PendingFollowed(s.job, b);
    FragmentTaken(s, f);
  }

  lemma TakenFromEcu(s: Transport, f: Frame)
    requires WaitsForEcu(s.job) && Tp20Takes(s, f)
    ensures MatchesResponse(s.job, f, s.job.ecuId)
  {
  }

  lemma FrameBetween(s: Transport, request: Request, done: seq<Telegram>, frags: seq<Fragment>, bytes: Bytes, k: nat,
                     f: Frame)
    requires Receiving(s, request, done) && k <= |frags| && Holds(s.job, frags, bytes, k)
    requires Between(s, ObserveCall(f), k)
    ensures Receiving(Observe(s, f), request, done) && Holds(Observe(s, f).job, frags, bytes, k)
  {
    hide Good, Tp20Takes, EcuAck, PendingReply, Upto, CollidesActive;
    ObserveGood(s, f);
    if !Tp20Takes(s, f) {
      assert Observe(s, f) == s;
    } else if EcuAck(s, f) {
      AckTaken(s, f);
      AckWaits(s, f);
    } else {
      PendingWaits(s, f);
      TakenFromEcu(s, f);
      PendingTaken(s, f);
    }
  }

  lemma AckWaits(s: Transport, f: Frame)
    requires EcuAck(s, f)
    ensures WaitsForEcu(s.job)
  {
  }

  lemma PendingWaits(s: Transport, f: Frame)
    requires PendingReply(s, f)
    ensures WaitsForEcu(s.job)
  {
  }

  lemma OtherBetween(s: Transport, request: Request, done: seq<Telegram>, c: Call, k: nat)
    requires Receiving(s, request, done) && Between(s, c, k) && (c.CancelCall? || c.SubmitCall?)
    ensures Receiving(Step(s, c), request, done) && Step(s, c).job == s.job
  {
    ReceivingFacts(s, request, done);
    hide Good, RequestValid;
    StepGood(s, c);
  }

  lemma BetweenKeeps(s: Transport, request: Request, done: seq<Telegram>, frags: seq<Fragment>, bytes: Bytes, k: nat,
                     c: Call)
    requires Receiving(s, request, done) && k <= |frags| && Holds(s.job, frags, bytes, k) && Cut(frags, bytes)
    requires Between(s, c, k)
    ensures var t := Step(s, c);
      (Receiving(t, request, done) && Holds(t.job, frags, bytes, k)) ||
      (k == |frags| && t.job.phase != SendAck && Received(t, done, bytes, frags[k - 1].op))
  {
    hide Receiving, Holds, Received, Cut, Tick, Observe;
    match c
    case TickCall(now, answer) => TickBetween(s, request, done, frags, bytes, k, now, answer);
    case ObserveCall(f) => FrameBetween(s, request, done, frags, bytes, k, f);
    case CancelCall(_) => OtherBetween(s, request, done, c, k);
    case SubmitCall(_) => OtherBetween(s, request, done, c, k);
    case AbortCall(_) => assert false;
  }

  // ---------------------------------------------------------------- a fragment

  /** What the k-th fragment's frame shows. */
  lemma FrameShows(s: Transport, c: Call, frags: seq<Fragment>, bytes: Bytes, k: nat) returns (padding: Bytes)
    requires k < |frags| && Carries(s, c, frags, bytes, k) && Cut(frags, bytes)
    ensures var b := Body(c.frame);
      && b == Padded(s.job, frags, bytes, k, padding) && (k < |frags| - 1 ==> padding == [])
      && b != [] && High(b[0]) == frags[k].op <= 3 && Low(b[0]) == s.job.fragments % 16
      && (k == 0 ==> |b| >= 3 && Wide(b[1], b[2]) == |bytes| && b[3..] == frags[k].octets + padding)
      && (k > 0 ==> b[1..] == frags[k].octets + padding)
  {
    hide Upto;
    padding :| Body(c.frame) == Padded(s.job, frags, bytes, k, padding) && (k < |frags| - 1 ==> padding == []);
    assert frags[k].op <= 3;
  }

  /** The assembly after the k-th fragment. */
  lemma FragmentAssembled(j: Job, b: Bytes, frags: seq<Fragment>, bytes: Bytes, k: nat, padding: Bytes)
    requires k < |frags| && Cut(frags, bytes) && b != [] && (k < |frags| - 1 ==> padding == [])
    requires if k == 0
             then !j.rxStarted && |b| >= 3 && Wide(b[1], b[2]) == |bytes| && b[3..] == frags[k].octets + padding
             else j.rxStarted && j.rxTotal == |bytes| && j.response == Upto(frags, k) &&
                  b[1..] == frags[k].octets + padding
    ensures var t := TakeFragment(j, b, frags[k].op);
      && t.rxStarted && t.rxTotal == |bytes| && t.response == Upto(frags, k + 1) && t.lastOp == frags[k].op
      && t == j.(expectedRx := t.expectedRx, fragments := t.fragments, lastOp := t.lastOp, rxStarted := true,
                 rxTotal := t.rxTotal, response := t.response)
  {
    hide Wide, Cut;
    CutAt(frags, bytes, k);
    var have := Upto(frags, k);
    assert Upto(frags, k + 1) == have + frags[k].octets;
    AssembledUpto(have, frags[k].octets, padding, |bytes|);
  }

  lemma CutAt(frags: seq<Fragment>, bytes: Bytes, k: nat)
    requires Cut(frags, bytes) && k < |frags|
    ensures |Upto(frags, k)| < |bytes| && |Upto(frags, k + 1)| <= |bytes|
    ensures k < |frags| - 1 ==> |Upto(frags, k + 1)| < |bytes| && (frags[k].op == 0 || frags[k].op == 2)
    ensures k == |frags| - 1 ==> Upto(frags, k + 1) == bytes && (frags[k].op == 1 || frags[k].op == 3)
  {
    UptoShort(frags, bytes, k);
    if k < |frags| - 1 { UptoShort(frags, bytes, k + 1); }
  }

  lemma AssembledUpto(have: Bytes, more: Bytes, padding: Bytes, total: nat)
    requires |have| < total && |have + more| <= total && (padding == [] || |have + more| == total)
    ensures Assembled(have, more + padding, total) == have + more
  {
    if padding == [] { assert more + padding == more; }
    else { assert (more + padding)[..total - |have|] == more; }
  }

  /** `t` is what follows when the job, now `j`, has taken the k-th fragment. */
  predicate Takes(s: Transport, t: Transport, j: Job, sequence: nat, frags: seq<Fragment>, bytes: Bytes, k: nat)
    requires k < |frags|
  {
    && t == Followed(s.(job := j), frags[k].op, sequence, false)
    && j.rxStarted && j.rxTotal == |bytes| && j.response == Upto(frags, k + 1) && j.lastOp == frags[k].op
    && j == s.job.(expectedRx := j.expectedRx, fragments := j.fragments, lastOp := j.lastOp, rxStarted := true,
                    rxTotal := j.rxTotal, response := j.response)
  }

  lemma TakesFragment(s: Transport, request: Request, done: seq<Telegram>, c: Call, frags: seq<Fragment>,
                      bytes: Bytes, k: nat) returns (j: Job, sequence: nat)
    requires Receiving(s, request, done) && k < |frags| && Holds(s.job, frags, bytes, k) && Cut(frags, bytes)
    requires Carries(s, c, frags, bytes, k)
    ensures Takes(s, Step(s, c), j, sequence, frags, bytes, k)
  {
    hide Good, Cut, Upto, TakeFragment, Followed, Observe, High, Low, Wide, MatchesResponse, Padded;
    ReceivingFacts(s, request, done);
    var padding := FrameShows(s, c, frags, bytes, k);
    CutLength(frags, bytes);
    FragmentAssembled(s.job, Body(c.frame), frags, bytes, k, padding);
    FragmentTaken(s, c.frame);
    j, sequence := TakeFragment(s.job, Body(c.frame), frags[k].op), Low(Body(c.frame)[0]);
  }

  lemma CutLength(frags: seq<Fragment>, bytes: Bytes)
    requires Cut(frags, bytes)
    ensures 1 <= |bytes| <= MAX_RESPONSE
  {
  }

  /** The fragment moved neither the deadline nor the channel, and its acknowledgement is fresh. */
  predicate OnTime(j: Job, k: Job) {
    k.deadline == j.deadline && k.ecuId == j.ecuId && FreshAck(k)
  }

  /** An acknowledgement that was not offered yet. */
  predicate FreshAck(j: Job) {
    j.phase == SendAck ==> j.pending.Some? && j.pending.value.retryAt == 0
  }

  /** After a fragment that is not the last one. */
  lemma PartFollowed(s: Transport, op: nat, sequence: nat)
    requires |s.job.response| < s.job.rxTotal && (op == 0 || op == 2)
    ensures var t := Followed(s, op, sequence, false);
      && t.job == s.job.(phase := t.job.phase, afterAck := t.job.afterAck, pending := t.job.pending)
      && (t.job.phase == WaitRequestResponse || (t.job.phase == SendAck && t.job.afterAck == ThenWaitRequest))
      && t.cancelId == s.cancelId && t.abortId == s.abortId && FreshAck(t.job)
  {
    hide Fail, HandleOutcome, PublishedOf;
  }

  lemma PartStep(s: Transport, request: Request, done: seq<Telegram>, frags: seq<Fragment>, bytes: Bytes, k: nat,
                 c: Call)
    requires Receiving(s, request, done) && k < |frags| - 1 && Holds(s.job, frags, bytes, k) && Cut(frags, bytes)
    requires Carries(s, c, frags, bytes, k)
    ensures Receiving(Step(s, c), request, done) && Holds(Step(s, c).job, frags, bytes, k + 1)
    ensures OnTime(s.job, Step(s, c).job)
  {
    hide Good, Cut, Upto, Followed, Step, Carries;
    ReceivingFacts(s, request, done);
    StepGood(s, c);
    CutAt(frags, bytes, k);
    var j, sequence := TakesFragment(s, request, done, c, frags, bytes, k);
    PartFollowed(s.(job := j), frags[k].op, sequence);
  }

  /** After the last one, with an acknowledgement to send. */
  lemma AckStaged(s: Transport, bytes: Bytes, sequence: nat)
    requires s.job.response == bytes && s.job.rxTotal == |bytes| && Positive(s.job.request, bytes)
    ensures var t := Followed(s, 1, sequence, false);
      && t == s.(job := t.job)
      && t.job == s.job.(phase := SendAck, afterAck := RequestComplete, pending := t.job.pending)
      && FreshAck(t.job)
  {
    PositiveOutcome(s.job, bytes);
    hide HandleOutcome, Outcome, Validated;
  }

  /** Or without one. */
  lemma CompletedAtOnce(s: Transport, bytes: Bytes, sequence: nat)
    requires s.job.response == bytes && s.job.rxTotal == |bytes| && Positive(s.job.request, bytes)
    ensures Followed(s, 3, sequence, false) == CompleteKwp(s)
  {
    PositiveOutcome(s.job, bytes);
    hide CompleteKwp, Outcome, Validated;
  }

  lemma LastStep(s: Transport, request: Request, done: seq<Telegram>, frags: seq<Fragment>, bytes: Bytes, k: nat,
                 c: Call)
    requires Receiving(s, request, done) && k == |frags| - 1 && Holds(s.job, frags, bytes, k) && Cut(frags, bytes)
    requires Carries(s, c, frags, bytes, k) && Positive(request, bytes)
    ensures var t := Step(s, c);
      (Receiving(t, request, done) && Holds(t.job, frags, bytes, k + 1) && OnTime(s.job, t.job)) ||
      (t.job.phase != SendAck && Received(t, done, bytes, frags[k].op))
  {
    hide Good, Cut, Upto, Followed, Step, Carries, CompleteKwp, Received, Positive;
    ReceivingFacts(s, request, done);
    StepGood(s, c);
    CutAt(frags, bytes, k);
    var j, sequence := TakesFragment(s, request, done, c, frags, bytes, k);
    var u := s.(job := j);
    if frags[k].op == 1 {
      AckStaged(u, bytes, sequence);
    } else {
      CompletedAtOnce(u, bytes, sequence);
      CompletionReceived(u, request, done, bytes, 3);
    }
  }

  // ---------------------------------------------------------------- the whole response

  lemma {:induction false} Brought(s: Transport, request: Request, done: seq<Telegram>, calls: seq<Call>,
                                   frags: seq<Fragment>, bytes: Bytes, k: nat)
    requires Receiving(s, request, done) && Cut(frags, bytes) && Positive(request, bytes)
    requires k <= |frags| && Holds(s.job, frags, bytes, k) && Brings(s, calls, frags, bytes, k)
    ensures Received(Run(s, calls), done, bytes, frags[|frags| - 1].op)
    decreases |calls|
  {
    hide Receiving, Cut, Positive, Received, Step, Between, Carries;
    LastHolds(s, frags, bytes, k);
    var c, rest := calls[0], calls[1..];
    var t := Step(s, c);
    if Between(s, c, k) && Brings(t, rest, frags, bytes, k) {
      BetweenKeeps(s, request, done, frags, bytes, k, c);
      if Receiving(t, request, done) && Holds(t.job, frags, bytes, k) {
        Brought(t, request, done, rest, frags, bytes, k);
      }
    } else if k < |frags| - 1 {
      PartStep(s, request, done, frags, bytes, k, c);
      Brought(t, request, done, rest, frags, bytes, k + 1);
    } else {
      LastStep(s, request, done, frags, bytes, k, c);
      if Receiving(t, request, done) && Holds(t.job, frags, bytes, k + 1) {
        Brought(t, request, done, rest, frags, bytes, k + 1);
      }
    }
  }

  lemma LastHolds(s: Transport, frags: seq<Fragment>, bytes: Bytes, k: nat)
    requires k <= |frags| && Holds(s.job, frags, bytes, k) && Cut(frags, bytes)
    ensures k == |frags| ==> s.job.phase == SendAck
  {
  }

  /** Any positive KWP response of 1 to 512 octets, cut into fragments of any length under opcodes 0 to 3,
      is put on record exactly as it was sent, whatever acknowledgements, refusals, pending replies,
      foreign frames and other calls come in between. */
  lemma KwpResponseRoundTrip(s: Transport, calls: seq<Call>, frags: seq<Fragment>, bytes: Bytes)
    requires Good(s) && s.job.active && WaitsForEcu(s.job) && !s.job.rxStarted
    requires s.cancelId != s.job.id && s.abortId != s.job.id
    requires Cut(frags, bytes) && Positive(s.job.request, bytes) && Brings(s, calls, frags, bytes, 0)
    ensures Received(Run(s, calls), s.job.responses, bytes, frags[|frags| - 1].op)
  {
    hide Cut, Positive, Brings, Received;
    WaitingJob(s);
    Brought(s, s.job.request, s.job.responses, calls, frags, bytes, 0);
  }

  lemma WaitingJob(s: Transport)
    requires Good(s) && s.job.active && WaitsForEcu(s.job)
    ensures s.job.request.route.protocol.VwTp20? && s.job.terminal.None?
  {
  }

  // ---------------------------------------------------------------- every cut can be brought

  /** There is time, and a staged acknowledgement is fresh. */
  predicate Ready(j: Job, now: U32) {
    now < HALF && !TimeReached(now, j.deadline) && FreshAck(j) && Extended(j.ecuId) == j.request.route.extended
  }

  lemma AckAccepted(s: Transport, request: Request, done: seq<Telegram>, now: U32)
    requires Receiving(s, request, done) && Ready(s.job, now) && s.job.phase == SendAck
    requires s.job.afterAck == ThenWaitRequest || s.job.afterAck == RequestPending || s.job.afterAck == RequestComplete
    ensures var t := Tick(s, now, true).job; t.phase != SendAck && OnTime(s.job, t)
  {
    hide Good, TransmitOne, ApplyAfterAck, CompleteKwp;
    ReceivingFacts(s, request, done);
    QuietTick(s, now, true);
    var u := s.(lastNow := now);
    var p := u.(calls := u.calls + 1, job := u.job.(pending := None));
    AckApplied(p);
    AcceptedIs(u);
    CompleteLeaves(p.(job := p.job.(afterAck := NoAction)));
  }

  lemma AcceptedIs(s: Transport)
    requires s.job.active && s.job.phase == SendAck && s.job.pending.Some? && s.job.pending.value.retryAt == 0
    requires s.lastNow < HALF
    ensures TransmitOne(s, true) == Progress(ApplyAfterAck(s.(calls := s.calls + 1, job := s.job.(pending := None))))
  {
    hide ApplyAfterAck, Progress;
  }

  lemma CompleteLeaves(s: Transport)
    requires s.job.active && MustDisconnect(s.job)
    ensures CompleteKwp(s).job.phase != SendAck && OnTime(s.job, CompleteKwp(s).job)
  {
  }

  /** The frame of the k-th fragment, without padding. */
  function FrameFor(s: Transport, frags: seq<Fragment>, bytes: Bytes, k: nat): Frame
    requires k < |frags|
  {
    var data := Padded(s.job, frags, bytes, k, []);
    Frame(s.job.ecuId, s.job.request.route.direction.Opposite(), |data|, data)
  }

  lemma FrameCarries(s: Transport, frags: seq<Fragment>, bytes: Bytes, k: nat)
    requires k < |frags| && WaitsForEcu(s.job) && Extended(s.job.ecuId) == s.job.request.route.extended
    ensures Carries(s, ObserveCall(FrameFor(s, frags, bytes, k)), frags, bytes, k)
  {
    var f := FrameFor(s, frags, bytes, k);
    assert Body(f) == Padded(s.job, frags, bytes, k, []);
  }

  lemma ReadyAgain(s: Transport, t: Transport, request: Request, done: seq<Telegram>, now: U32)
    requires Receiving(s, request, done) && Receiving(t, request, done) && Ready(s.job, now) && OnTime(s.job, t.job)
    ensures Ready(t.job, now)
  {
    hide Good;
  }

  /** The frames of the fragments, and a tick that sends each acknowledgement asked for. */
  lemma {:induction false} Bringing(s: Transport, request: Request, done: seq<Telegram>, frags: seq<Fragment>,
                                    bytes: Bytes, k: nat, now: U32) returns (calls: seq<Call>)
    requires Receiving(s, request, done) && Cut(frags, bytes) && Positive(request, bytes)
    requires k <= |frags| && Holds(s.job, frags, bytes, k) && Ready(s.job, now)
    ensures Brings(s, calls, frags, bytes, k)
    decreases |frags| - k, if s.job.phase == SendAck then 1 else 0
  {
    hide Receiving, Cut, Positive, Received, Step, Between, Carries, Ready, OnTime;
    var c := if s.job.phase == SendAck then TickCall(now, true)
             else if k < |frags| then ObserveCall(FrameFor(s, frags, bytes, k)) else TickCall(now, true);
    var t, rest := Step(s, c), [];
    if s.job.phase == SendAck {
      SentInTime(s, request, done, frags, bytes, k, now);
      BetweenKeeps(s, request, done, frags, bytes, k, c);
      if Receiving(t, request, done) && Holds(t.job, frags, bytes, k) {
        ReadyAgain(s, t, request, done, now);
        rest := Bringing(t, request, done, frags, bytes, k, now);
      }
    } else {
      LastHolds(s, frags, bytes, k);
      InReach(s, frags, bytes, k, now);
      FrameCarries(s, frags, bytes, k);
      if k < |frags| - 1 {
        PartStep(s, request, done, frags, bytes, k, c);
        ReadyAgain(s, t, request, done, now);
        rest := Bringing(t, request, done, frags, bytes, k + 1, now);
      } else {
        LastStep(s, request, done, frags, bytes, k, c);
        if Receiving(t, request, done) && Holds(t.job, frags, bytes, k + 1) && OnTime(s.job, t.job) {
          ReadyAgain(s, t, request, done, now);
          rest := Bringing(t, request, done, frags, bytes, k + 1, now);
        }
      }
    }
    calls := [c] + rest;
    assert calls[1..] == rest;
  }

  lemma SentInTime(s: Transport, request: Request, done: seq<Telegram>, frags: seq<Fragment>, bytes: Bytes, k: nat,
                   now: U32)
    requires Receiving(s, request, done) && Ready(s.job, now) && s.job.phase == SendAck
    requires k <= |frags| && Holds(s.job, frags, bytes, k)
    ensures Between(s, TickCall(now, true), k)
    ensures var t := Step(s, TickCall(now, true)); t.job.phase != SendAck && OnTime(s.job, t.job)
  {
    hide Receiving, Tick, OnTime, Upto;
    AckAccepted(s, request, done, now);
  }

  lemma InReach(s: Transport, frags: seq<Fragment>, bytes: Bytes, k: nat, now: U32)
    requires k < |frags| && Holds(s.job, frags, bytes, k) && s.job.phase != SendAck && Ready(s.job, now)
    ensures WaitsForEcu(s.job) && Extended(s.job.ecuId) == s.job.request.route.extended
  {
  }

  /** Such deliveries exist for every response and every cut of it, as long as the clock is below 2^31 and
      the deadline has not passed. */
  lemma EveryCutIsBrought(s: Transport, frags: seq<Fragment>, bytes: Bytes, now: U32)
    requires Good(s) && s.job.active && WaitsForEcu(s.job) && !s.job.rxStarted
    requires s.cancelId != s.job.id && s.abortId != s.job.id && Extended(s.job.ecuId) == s.job.request.route.extended
    requires Cut(frags, bytes) && Positive(s.job.request, bytes) && now < HALF && !TimeReached(now, s.job.deadline)
    ensures exists calls :: Brings(s, calls, frags, bytes, 0)
  {
    hide Cut, Positive, Brings;
    WaitingJob(s);
    var calls := Bringing(s, s.job.request, s.job.responses, frags, bytes, 0, now);
  }
}
