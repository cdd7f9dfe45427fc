/** Segmented ISO-TP responses are reassembled octet for octet (`observeIsoResponse`,
    core/diagnostic_transport.cpp; segmentation as in section 9.6 of ISO 15765-2:2016 with block
    size 0, so that one flow control frame suffices), whatever ticks, foreign frames, refused
    transmissions and response-pending replies lie in between. */
module IsoTpRoundTrip {
  import opened Types
  import opened DiagnosticSpec
  import opened DiagnosticInvariant
  import opened DiagnosticEnding
  import opened DiagnosticCases
  import opened DiagnosticAnswers

  const FIRST_OCTETS := 6
  const OCTETS := 7

  /** How much of a response is there after the first frame and `k` consecutive ones. */
  function Reach(total: nat, k: nat): (r: nat)
    ensures r <= total
  {
    if FIRST_OCTETS + OCTETS * k < total then FIRST_OCTETS + OCTETS * k else total
  }

  /** Comes from the responding node of the job's route. */
  predicate Response(r: Request, f: Frame) {
    f.direction == r.route.direction.Opposite() && f.id == r.route.responseId &&
    Extended(f.id) == r.route.extended
  }

  predicate IsFirst(r: Request, f: Frame, bytes: Bytes) {
    8 <= |bytes| <= MAX_RESPONSE && Response(r, f) &&
    Body(f) == [0x10 + |bytes| / 256, |bytes| % 256] + bytes[..FIRST_OCTETS]
  }

  /** The k-th consecutive frame (from 1); the last one may carry any padding. */
  ghost predicate IsConsecutive(r: Request, f: Frame, bytes: Bytes, k: nat) {
    && k >= 1 && Response(r, f)
    && exists padding: Bytes {:trigger Padded(bytes, k, padding)} ::
         Body(f) == Padded(bytes, k, padding) && (Reach(|bytes|, k) < |bytes| ==> padding == [])
  }

  function Padded(bytes: Bytes, k: nat, padding: Bytes): Bytes
    requires k >= 1
  {
    [0x20 + k % 16] + bytes[Reach(|bytes|, k - 1)..Reach(|bytes|, k)] + padding
  }

  /** Waiting for the consecutive frame after the k-th one. */
  predicate Waiting(s: Transport, request: Request, bytes: Bytes, k: nat) {
    && s.job.active && s.job.request == request && request.route.protocol.IsoTp?
    && s.job.phase == IsoWaitConsecutive && s.job.terminal.None?
    && s.job.isoTotal == |bytes| && s.job.isoNext == (k + 1) % 16
    && s.job.response == bytes[..Reach(|bytes|, k)]
  }

  /** A positive response to the job's request: it starts with the octet the caller asked for, or with
      that of the request plus 0x40, and is no negative reply. */
  predicate Positive(r: Request, bytes: Bytes) {
    Answers(r, bytes) && bytes[0] != 0x7F
  }

  lemma NoCollision(s: Transport, f: Frame)
    requires s.job.active && s.job.request.route.protocol.IsoTp? && Response(s.job.request, f)
    ensures !CollidesActive(s.job, f) && MatchesResponse(s.job, f, s.job.request.route.responseId)
  {
  }

  /** The first frame is taken, and flow control is staged. */
  lemma FirstFrameTaken(s: Transport, f: Frame, bytes: Bytes)
    requires s.job.active && s.job.phase == IsoWaitResponse && s.job.request.route.protocol.IsoTp?
    requires IsFirst(s.job.request, f, bytes) && Positive(s.job.request, bytes)
    ensures var t := Observe(s, f);
      && t.job == StageTx(s.job.(isoTotal := |bytes|, isoNext := 1, response := bytes[..FIRST_OCTETS]),
                          s.job.request.route.requestId, FlowControlFrame(s.job.request.route), IsoSendFlowControl)
      && t.cancelId == s.cancelId && t.abortId == s.abortId && t.lastNow == s.lastNow
  {
    NoCollision(s, f);
    var b := Body(f);
    assert b[2..] == bytes[..FIRST_OCTETS];
    assert FirstFrame(s, f) && !SingleFrame(s, f);
    assert FirstTotal(f) == |bytes|;
    assert Assembled([], b[2..], |bytes|) == bytes[..FIRST_OCTETS];
  }

  lemma TakesConsecutive(s: Transport, request: Request, f: Frame, bytes: Bytes, k: nat)
    requires Waiting(s, request, bytes, k) && IsConsecutive(request, f, bytes, k + 1)
    requires Reach(|bytes|, k) < |bytes|
    ensures IsoTakes(s, f) && !CollidesActive(s.job, f)
    ensures Low(Body(f)[0]) == s.job.isoNext
    ensures Assembled(s.job.response, Body(f)[1..], |bytes|) == bytes[..Reach(|bytes|, k + 1)]
  {
    NoCollision(s, f);
    var padding: Bytes :| Body(f) == Padded(bytes, k + 1, padding) &&
      (Reach(|bytes|, k + 1) < |bytes| ==> padding == []);
    var from, end := Reach(|bytes|, k), Reach(|bytes|, k + 1);
    assert Body(f)[1..] == bytes[from..end] + padding;
    assert bytes[..from] + bytes[from..end] == bytes[..end];
    if end < |bytes| {
      assert Body(f)[1..] == bytes[from..end];
    } else if |padding| > 0 {
      assert (bytes[from..end] + padding)[..|bytes| - from] == bytes[from..end];
    }
  }

  /** A consecutive frame that is not the last one. */
  lemma MiddleFrame(s: Transport, request: Request, f: Frame, bytes: Bytes, k: nat)
    requires Waiting(s, request, bytes, k) && IsConsecutive(request, f, bytes, k + 1)
    requires Reach(|bytes|, k + 1) < |bytes|
    ensures Waiting(Observe(s, f), request, bytes, k + 1)
  {
    hide Observe, Progress, Reach, IsConsecutive;
    MiddleIs(s, request, f, bytes, k);
    ShownJob(s.(job := s.job.(isoNext := (s.job.isoNext + 1) % 16, response := bytes[..Reach(|bytes|, k + 1)])));
  }

  lemma ShownJob(s: Transport)
    ensures Progress(s).job == s.job && Progress(s).cancelId == s.cancelId && Progress(s).abortId == s.abortId
  {
  }

  /** A frame that the running job takes. */
  lemma ObserveIs(s: Transport, f: Frame)
    requires s.job.active && s.job.request.route.protocol.IsoTp? && !CollidesActive(s.job, f) && IsoTakes(s, f)
    ensures Observe(s, f) == ObserveIso(s, f)
  {
    hide ObserveIso, CollidesActive, IsoTakes;
  }

  lemma MiddleIs(s: Transport, request: Request, f: Frame, bytes: Bytes, k: nat)
    requires Waiting(s, request, bytes, k) && IsConsecutive(request, f, bytes, k + 1)
    requires Reach(|bytes|, k + 1) < |bytes|
    ensures Observe(s, f) == Progress(s.(job :=
      s.job.(isoNext := (s.job.isoNext + 1) % 16, response := bytes[..Reach(|bytes|, k + 1)])))
  {
    hide Observe, ObserveIso, Progress, IsConsecutive, IsoTakes, CollidesActive, Assembled, CompleteIso, Fail;
    TakesConsecutive(s, request, f, bytes, k);
    ObserveIs(s, f);
    TakenMatches(s, f);
    IsoCases(s, f);
  }

  lemma TakenMatches(s: Transport, f: Frame)
    requires IsoTakes(s, f)
    ensures MatchesResponse(s.job, f, s.job.request.route.responseId) && Body(f) != []
  {
  }

  lemma MiddleKeeps(s: Transport, request: Request, f: Frame, bytes: Bytes, k: nat)
    requires Waiting(s, request, bytes, k) && IsConsecutive(request, f, bytes, k + 1)
    requires Reach(|bytes|, k + 1) < |bytes|
    ensures Observe(s, f).cancelId == s.cancelId && Observe(s, f).abortId == s.abortId
    ensures Observe(s, f).job.id == s.job.id
  {
    hide Observe, Progress, Reach, IsConsecutive;
    MiddleIs(s, request, f, bytes, k);
    ShownJob(s.(job := s.job.(isoNext := (s.job.isoNext + 1) % 16, response := bytes[..Reach(|bytes|, k + 1)])));
  }

  /** The last one completes the job with exactly the response. */
  lemma LastFrame(s: Transport, request: Request, f: Frame, bytes: Bytes, k: nat)
    requires Waiting(s, request, bytes, k) && IsConsecutive(request, f, bytes, k + 1) && Positive(request, bytes)
    requires Reach(|bytes|, k) < |bytes| == Reach(|bytes|, k + 1)
    ensures var t := Observe(s, f);
      !t.job.active && t.published.state == Complete && t.published.response == bytes && t.completed == s.completed + 1
  {
    hide Observe, ObserveIso, Reach, IsConsecutive, IsoTakes, CollidesActive, Assembled, CompleteIso, Fail, Answers,
         Progress;
    TakesConsecutive(s, request, f, bytes, k);
    assert bytes[..|bytes|] == bytes;
    ObserveIs(s, f);
    TakenMatches(s, f);
    IsoCases(s, f);
    WholeCompletes(s.(job := s.job.(isoNext := (s.job.isoNext + 1) % 16, response := bytes)));
  }

  /** How many consecutive frames a response needs. */
  function FramesFor(total: nat): (n: nat)
    requires total > FIRST_OCTETS
    ensures n >= 1 && Reach(total, n) == total && Reach(total, n - 1) < total
  {
    (total - FIRST_OCTETS + OCTETS - 1) / OCTETS
  }

  // ---------------------------------------------------------------- what may lie in between

  /** A reply that asks for patience: the job's service is still busy. */
  predicate PendingReply(s: Transport, f: Frame) {
    && s.job.phase == IsoWaitResponse && IsoTakes(s, f) && SingleFrame(s, f)
    && IsPending(s.job.(response := Body(f)[1..Low(Body(f)[0]) + 1]), false)
  }

  /** Calls that do not concern the transfer: ticks before the deadline on which the flow control frame
      is not refused for the eighth time, frames that the job neither takes nor collides with, pending
      replies before the response, new requests, and cancellations of other jobs. */
  predicate Aside(s: Transport, c: Call) {
    match c
    case TickCall(now, answer) =>
      !TimeReached(now, s.job.deadline) &&
      !(s.job.pending.Some? && TimeReached(now, s.job.pending.value.retryAt) && !answer &&
        s.job.pending.value.attempts + 1 == MAX_ATTEMPTS)
    case ObserveCall(f) => !CollidesActive(s.job, f) && (!IsoTakes(s, f) || PendingReply(s, f))
    case CancelCall(id) => id != s.job.id
    case SubmitCall(_) => true
    case AbortCall(_) => false
  }

  /** The k-th frame of the response (0 is the first frame). The node waits for flow control before
      its consecutive frames. */
  ghost predicate Carries(s: Transport, c: Call, bytes: Bytes, k: nat) {
    c.ObserveCall? &&
    (if k == 0 then IsFirst(s.job.request, c.frame, bytes)
     else IsConsecutive(s.job.request, c.frame, bytes, k) && s.job.phase == IsoWaitConsecutive)
  }

  /** These calls bring the frames of the response from the k-th on, in order, the last one last, and
      nothing else that concerns the transfer. */
  ghost predicate Delivers(s: Transport, calls: seq<Call>, bytes: Bytes, k: nat)
    requires |bytes| > FIRST_OCTETS
    decreases |calls|
  {
    if k > FramesFor(|bytes|) then calls == []
    else
      calls != [] &&
      ((Aside(s, calls[0]) && Delivers(Step(s, calls[0]), calls[1..], bytes, k)) ||
       (Carries(s, calls[0], bytes, k) && Delivers(Step(s, calls[0]), calls[1..], bytes, k + 1)))
  }

  /** The job expects the k-th frame. */
  ghost predicate Expects(s: Transport, request: Request, bytes: Bytes, k: nat) {
    && Good(s) && s.job.active && s.job.request == request && request.route.protocol.IsoTp? && s.job.terminal.None?
    && s.cancelId != s.job.id && s.abortId != s.job.id
    && (if k == 0 then s.job.phase == IsoWaitResponse
        else
          && s.job.isoTotal == |bytes| && s.job.isoNext == k % 16 && s.job.response == bytes[..Reach(|bytes|, k - 1)]
          && (s.job.phase == IsoWaitConsecutive || (k == 1 && s.job.phase == IsoSendFlowControl)))
  }

  lemma PendingAgrees(s: Transport)
    requires Good(s) && s.job.active && s.job.terminal.None?
    ensures s.job.pending.Some? <==> SendPhase(s.job.phase)
    ensures s.job.pending.Some? ==> s.job.pending.value.attempts < MAX_ATTEMPTS
    ensures s.busy && s.mailbox.None?
  {
  }

  /** A tick of a receiving job is one transmit step. */
  lemma QuietTick(s: Transport, now: U32, answer: bool)
    requires s.job.active && s.job.terminal.None? && s.cancelId != s.job.id && s.abortId != s.job.id
    requires !TimeReached(now, s.job.deadline) && s.job.phase != WaitChannelTest && s.job.phase != WaitRepeat
    ensures Tick(s, now, answer) == TransmitOne(s.(lastNow := now), answer)
  {
    hide TransmitOne;
    var t := s.(lastNow := now);
    assert CheckLimits(t) == t && Repeat(t) == t;
  }

  lemma FlowControlStep(s: Transport, answer: bool)
    requires s.job.active && s.job.phase == IsoSendFlowControl && s.job.pending.Some?
    requires !(TimeReached(s.lastNow, s.job.pending.value.retryAt) && !answer &&
               s.job.pending.value.attempts + 1 == MAX_ATTEMPTS) && s.job.pending.value.attempts < MAX_ATTEMPTS
    ensures var t := TransmitOne(s, answer);
      && (t.job == s.job.(pending := None, phase := IsoWaitConsecutive) ||
          t.job == s.job.(pending := t.job.pending))
      && t.cancelId == s.cancelId && t.abortId == s.abortId
  {
    hide Finalize, Fail;
  }

  lemma AsideTick(s: Transport, request: Request, bytes: Bytes, k: nat, now: U32, answer: bool)
    requires Expects(s, request, bytes, k) && Aside(s, TickCall(now, answer))
    ensures Expects(Tick(s, now, answer), request, bytes, k)
  {
    hide Good, Tick;
    PendingAgrees(s);
    QuietTick(s, now, answer);
    TickGood(s, now, answer);
    if s.job.phase == IsoSendFlowControl {
      FlowControlStep(s.(lastNow := now), answer);
    }
  }

  lemma AsideFrame(s: Transport, request: Request, bytes: Bytes, k: nat, f: Frame)
    requires Expects(s, request, bytes, k) && Aside(s, ObserveCall(f))
    ensures Expects(Observe(s, f), request, bytes, k)
  {
    hide Good;
    ObserveGood(s, f);
    if IsoTakes(s, f) { PendingTaken(s, f); }
  }

  lemma PendingTaken(s: Transport, f: Frame)
    requires s.job.active && s.job.request.route.protocol.IsoTp? && PendingReply(s, f) && !CollidesActive(s.job, f)
    ensures Observe(s, f).job ==
      s.job.(isoTotal := 0, isoNext := 1, response := [], pendingSeen := true)
    ensures Observe(s, f).cancelId == s.cancelId && Observe(s, f).abortId == s.abortId
  {
  }

  lemma AsideOther(s: Transport, request: Request, bytes: Bytes, k: nat, c: Call)
    requires Expects(s, request, bytes, k) && Aside(s, c) && (c.CancelCall? || c.SubmitCall?)
    ensures Expects(Step(s, c), request, bytes, k)
  {
    PendingAgrees(s);
    hide Good;
    StepGood(s, c);
  }

  lemma AsideKeeps(s: Transport, request: Request, bytes: Bytes, k: nat, c: Call)
    requires Expects(s, request, bytes, k) && Aside(s, c)
    ensures Expects(Step(s, c), request, bytes, k)
  {
    hide Expects, Aside;
    match c
    case TickCall(now, answer) => AsideTick(s, request, bytes, k, now, answer);
    case ObserveCall(f) => AsideFrame(s, request, bytes, k, f);
    case CancelCall(_) => AsideOther(s, request, bytes, k, c);
    case SubmitCall(_) => AsideOther(s, request, bytes, k, c);
    case AbortCall(_) => NoAborts(s, c);
  }

  lemma NoAborts(s: Transport, c: Call)
    requires Aside(s, c)
    ensures !c.AbortCall?
  {
  }

  /** A frame of the response other than the last one. */
  lemma FrameTaken(s: Transport, request: Request, bytes: Bytes, k: nat, f: Frame)
    requires Expects(s, request, bytes, k) && Carries(s, ObserveCall(f), bytes, k) && Positive(request, bytes)
    requires k == 0 || Reach(|bytes|, k) < |bytes|
    ensures Expects(Observe(s, f), request, bytes, k + 1)
  {
    hide Good, Observe, IsConsecutive;
    ObserveGood(s, f);
    if k == 0 {
      FirstFrameTaken(s, f, bytes);
    } else {
      MiddleFrame(s, request, f, bytes, k - 1);
      MiddleKeeps(s, request, f, bytes, k - 1);
    }
  }

  lemma {:induction false} Delivered(s: Transport, request: Request, calls: seq<Call>, bytes: Bytes, k: nat)
    requires Expects(s, request, bytes, k) && Positive(request, bytes)
    requires |bytes| > FIRST_OCTETS && k <= FramesFor(|bytes|) && Delivers(s, calls, bytes, k)
    ensures calls != [] && Run(s, calls[..|calls| - 1]).job.active
    ensures var end := Run(s, calls);
      !end.job.active && end.published.state == Complete && end.published.response == bytes
    decreases |calls|
  {
    hide Expects, Step, Aside, Carries;
    ExpectsActive(s, request, bytes, k);
    var c, rest := calls[0], calls[1..];
    if |calls| > 1 { assert calls[..|calls| - 1][0] == c && calls[..|calls| - 1][1..] == rest[..|rest| - 1]; }
    if Aside(s, c) && Delivers(Step(s, c), rest, bytes, k) {
      AsideKeeps(s, request, bytes, k, c);
      Delivered(Step(s, c), request, rest, bytes, k);
    } else if k < FramesFor(|bytes|) {
      FrameStep(s, request, bytes, k, c);
      Delivered(Step(s, c), request, rest, bytes, k + 1);
    } else {
      LastStep(s, request, bytes, k, c);
      assert Run(s, calls) == Run(Step(s, c), []);
    }
  }

  lemma ExpectsActive(s: Transport, request: Request, bytes: Bytes, k: nat)
    requires Expects(s, request, bytes, k)
    ensures s.job.active && s.job.request == request
  {
  }

  lemma FrameStep(s: Transport, request: Request, bytes: Bytes, k: nat, c: Call)
    requires Expects(s, request, bytes, k) && Carries(s, c, bytes, k) && Positive(request, bytes)
    requires |bytes| > FIRST_OCTETS && k < FramesFor(|bytes|)
    ensures Expects(Step(s, c), request, bytes, k + 1)
  {
    hide Expects, Observe;
    ReachBefore(|bytes|, k);
    FrameTaken(s, request, bytes, k, c.frame);
  }

  lemma ReachBefore(total: nat, k: nat)
    requires total > FIRST_OCTETS && k < FramesFor(total)
    ensures Reach(total, k) < total
  {
  }

  lemma LastStep(s: Transport, request: Request, bytes: Bytes, k: nat, c: Call)
    requires Expects(s, request, bytes, k) && Carries(s, c, bytes, k) && Positive(request, bytes)
    requires |bytes| > FIRST_OCTETS && k == FramesFor(|bytes|)
    ensures var end := Step(s, c);
      !end.job.active && end.published.state == Complete && end.published.response == bytes
  {
    hide Good, Observe;
    LastFrame(s, request, c.frame, bytes, k - 1);
  }

  /** Any positive response of 8 to 512 octets comes out exactly as it was sent, and completes the job
      on its last consecutive frame. */
  lemma IsoTpResponseRoundTrip(s: Transport, calls: seq<Call>, bytes: Bytes)
    requires Good(s) && s.job.active && s.job.phase == IsoWaitResponse && s.job.terminal.None?
    requires s.job.request.route.protocol.IsoTp? && Positive(s.job.request, bytes) && 8 <= |bytes| <= MAX_RESPONSE
    requires s.cancelId != s.job.id && s.abortId != s.job.id && Delivers(s, calls, bytes, 0)
    ensures calls != [] && Run(s, calls[..|calls| - 1]).job.active
    ensures var end := Run(s, calls);
      !end.job.active && end.published.state == Complete && end.published.response == bytes
  {
    hide Good, Delivers;
    Delivered(s, s.job.request, calls, bytes, 0);
  }

  /** A response of up to 7 octets comes in a single frame, under any padding, and completes the job. */
  lemma SingleFrameRoundTrip(s: Transport, f: Frame, bytes: Bytes, padding: Bytes)
    requires Good(s) && s.job.active && s.job.phase == IsoWaitResponse && s.job.terminal.None?
    requires s.job.request.route.protocol.IsoTp? && Positive(s.job.request, bytes) && |bytes| <= OCTETS
    requires Response(s.job.request, f) && Body(f) == [|bytes|] + bytes + padding
    ensures var end := Observe(s, f);
      !end.job.active && end.published.state == Complete && end.published.response == bytes
  {
    hide Core;
    NoCollision(s, f);
    var b := Body(f);
    assert b[1..|bytes| + 1] == bytes;
    assert SingleFrame(s, f);
    WholeCompletes(s.(job := s.job.(response := bytes)));
    NotTp20(s);
  }

  /** A negative reply to this request */
  predicate Refuses(r: Request, bytes: Bytes) {
    |bytes| >= 2 && r.payload != [] && bytes[0] == 0x7F && bytes[1] == r.payload[0]
  }

  lemma OnlyReplies(r: Request, bytes: Bytes)
    requires bytes != [] && r.payload != [] && !Answers(r, bytes)
    ensures Belongs(bytes, r) <==> Refuses(r, bytes)
  {
  }

  lemma RefusalEnds(s: Transport)
    requires s.job.active && !MustDisconnect(s.job) && Refuses(s.job.request, s.job.response)
    requires !Answers(s.job.request, s.job.response)
    ensures var end, bytes := CompleteIso(s), s.job.response;
      if |bytes| >= 3 && bytes[2] == 0x78 then
        end.job == s.job.(isoTotal := 0, isoNext := 1, response := [], pendingSeen := true, phase := IsoWaitResponse)
      else
        && !end.job.active && end.failed == s.failed + 1
        && end.published.error == if |bytes| >= 3 || s.job.negative then NegativeResponse else UnexpectedResponse
  {
  }

  /** Any other single frame of the responding node: a pending reply leaves the job waiting, a negative
      one to this request fails it, and what is neither an answer nor a reply to it changes nothing and
      goes on to the gateway. */
  lemma OtherSingleFrames(s: Transport, f: Frame, bytes: Bytes, padding: Bytes)
    requires Good(s) && s.job.active && s.job.phase == IsoWaitResponse && 1 <= |bytes| <= OCTETS
    requires Response(s.job.request, f) && Body(f) == [|bytes|] + bytes + padding && !Answers(s.job.request, bytes)
    ensures var end := Observe(s, f);
      if !Refuses(s.job.request, bytes) then end == s && !Consumed(s, f)
      else if |bytes| >= 3 && bytes[2] == 0x78 then
        end.job == s.job.(isoTotal := 0, isoNext := 1, response := [], pendingSeen := true)
      else
        && !end.job.active && end.failed == s.failed + 1
        && end.published.error == if |bytes| >= 3 || s.job.negative then NegativeResponse else UnexpectedResponse
  {
    hide Good, RequestValid, IsoTakes, ObserveIso, CompleteIso, PublishedOf, Belongs, Refuses, CollidesActive, Answers;
    NotTp20(s);
    WaitsForIso(s);
    NoCollision(s, f);
    var b := Body(f);
    assert b[1..|bytes| + 1] == bytes;
    IsoCases(s, f);
    OnlyReplies(s.job.request, bytes);
    if Refuses(s.job.request, bytes) { RefusalEnds(s.(job := s.job.(response := bytes))); }
  }

  lemma WaitsForIso(s: Transport)
    requires Good(s) && s.job.active && s.job.phase == IsoWaitResponse
    ensures s.job.request.route.protocol.IsoTp? && s.job.request.payload != [] && s.job.response == []
  {
  }

  lemma WholeCompletes(s: Transport)
    requires s.job.active && !MustDisconnect(s.job) && Positive(s.job.request, s.job.response)
    ensures var end := CompleteIso(s);
      !end.job.active && end.published.state == Complete && end.published.response == s.job.response &&
      end.completed == s.completed + 1
  {
  }

  function Observations(frames: seq<Frame>): (r: seq<Call>)
    ensures |r| == |frames|
  {
    seq(|frames|, i requires 0 <= i < |frames| => ObserveCall(frames[i]))
  }

  lemma {:induction false} PlainFrames(s: Transport, request: Request, frames: seq<Frame>, bytes: Bytes, k: nat)
    requires Expects(s, request, bytes, k) && Positive(request, bytes) && s.job.phase == IsoWaitConsecutive
    requires |bytes| > FIRST_OCTETS && 1 <= k <= FramesFor(|bytes|) && |frames| == FramesFor(|bytes|) - k + 1
    requires forall i :: 0 <= i < |frames| ==> IsConsecutive(request, frames[i], bytes, k + i)
    ensures Delivers(s, Observations(frames), bytes, k)
    decreases |frames|
  {
    hide Observe, IsConsecutive, Expects;
    ExpectsActive(s, request, bytes, k);
    assert IsConsecutive(request, frames[0], bytes, k + 0);
    assert Observations(frames)[1..] == Observations(frames[1..]);
    if k < FramesFor(|bytes|) {
      FrameStep(s, request, bytes, k, ObserveCall(frames[0]));
      StillWaits(Observe(s, frames[0]), request, bytes, k + 1);
      forall i | 0 <= i < |frames[1..]| ensures IsConsecutive(request, frames[1..][i], bytes, k + 1 + i) {
        assert IsConsecutive(request, frames[i + 1], bytes, k + (i + 1));
      }
      PlainFrames(Observe(s, frames[0]), request, frames[1..], bytes, k + 1);
    }
  }

  lemma StillWaits(s: Transport, request: Request, bytes: Bytes, k: nat)
    requires Expects(s, request, bytes, k) && k >= 2
    ensures s.job.phase == IsoWaitConsecutive
  {
  }

  /** The plainest delivery: first frame, one tick that sends the flow control frame, then all
      consecutive frames. */
  lemma PlainDelivery(s: Transport, first: Frame, now: U32, frames: seq<Frame>, bytes: Bytes)
    requires Good(s) && s.job.active && s.job.phase == IsoWaitResponse && s.job.terminal.None?
    requires s.job.request.route.protocol.IsoTp? && Positive(s.job.request, bytes)
    requires s.cancelId != s.job.id && s.abortId != s.job.id && !TimeReached(now, s.job.deadline) && now < HALF
    requires IsFirst(s.job.request, first, bytes) && |frames| == FramesFor(|bytes|)
    requires forall i :: 0 <= i < |frames| ==> IsConsecutive(s.job.request, frames[i], bytes, 1 + i)
    ensures Delivers(s, [ObserveCall(first), TickCall(now, true)] + Observations(frames), bytes, 0)
  {
    hide Good, IsConsecutive, Delivers, Observe;
    var request, t, rest := s.job.request, Observe(s, first), Observations(frames);
    FrameTaken(s, request, bytes, 0, first);
    FirstFrameTaken(s, first, bytes);
    PlainFlow(t, request, now, frames, bytes);
    DeliversFrame(s, ObserveCall(first), [TickCall(now, true)] + rest, bytes, 0);
    assert [ObserveCall(first)] + ([TickCall(now, true)] + rest) == [ObserveCall(first), TickCall(now, true)] + rest;
  }

  lemma PlainFlow(s: Transport, request: Request, now: U32, frames: seq<Frame>, bytes: Bytes)
    requires Expects(s, request, bytes, 1) && s.job.phase == IsoSendFlowControl && Positive(request, bytes)
    requires s.job.pending.Some? && s.job.pending.value.retryAt == 0 && now < HALF
    requires !TimeReached(now, s.job.deadline)
    requires |bytes| > FIRST_OCTETS && |frames| == FramesFor(|bytes|)
    requires forall i :: 0 <= i < |frames| ==> IsConsecutive(request, frames[i], bytes, 1 + i)
    ensures Delivers(s, [TickCall(now, true)] + Observations(frames), bytes, 1)
  {
    hide Good, IsConsecutive, Delivers, Tick, TransmitOne;
    QuietTick(s, now, true);
    AsideTick(s, request, bytes, 1, now, true);
    FlowControlSent(s.(lastNow := now));
    PlainFrames(Tick(s, now, true), request, frames, bytes, 1);
    DeliversAside(s, TickCall(now, true), Observations(frames), bytes, 1);
  }

  lemma FlowControlSent(s: Transport)
    requires s.job.active && s.job.phase == IsoSendFlowControl && s.job.pending.Some? && s.lastNow < HALF
    requires s.job.pending.value.retryAt == 0
    ensures TransmitOne(s, true).job.phase == IsoWaitConsecutive
  {
  }

  lemma DeliversAside(s: Transport, c: Call, rest: seq<Call>, bytes: Bytes, k: nat)
    requires |bytes| > FIRST_OCTETS && k <= FramesFor(|bytes|)
    requires Aside(s, c) && Delivers(Step(s, c), rest, bytes, k)
    ensures Delivers(s, [c] + rest, bytes, k)
  {
    hide Aside, Step;
    assert ([c] + rest)[1..] == rest;
  }

  lemma DeliversFrame(s: Transport, c: Call, rest: seq<Call>, bytes: Bytes, k: nat)
    requires |bytes| > FIRST_OCTETS && k <= FramesFor(|bytes|)
    requires Carries(s, c, bytes, k) && Delivers(Step(s, c), rest, bytes, k + 1)
    ensures Delivers(s, [c] + rest, bytes, k)
  {
    hide Carries, Step;
    assert ([c] + rest)[1..] == rest;
  }

  /** In every reachable state the assembled octets stay within the advertised length, a further frame
      only appends to them, and a wrong sequence number ends the job. */
  lemma AssemblyIsPrefix(s: Transport, f: Frame)
    requires Good(s) && s.job.active && s.job.phase == IsoWaitConsecutive && IsoTakes(s, f)
    ensures |s.job.response| <= s.job.isoTotal <= MAX_RESPONSE
    ensures Low(Body(f)[0]) != s.job.isoNext ==>
      ObserveIso(s, f) == Finish(s, Failed, SequenceError) && !ObserveIso(s, f).job.active
    ensures Low(Body(f)[0]) == s.job.isoNext && ObserveIso(s, f).job.phase == IsoWaitConsecutive ==>
      s.job.response <= ObserveIso(s, f).job.response && |ObserveIso(s, f).job.response| < s.job.isoTotal
  {
    hide Good, ObserveIso, IsoTakes, CompleteIso, RequestFinish, Assembled;
    NotTp20(s);
    IsoLengths(s);
    TakenMatches(s, f);
    IsoCases(s, f);
    var more := Assembled(s.job.response, Body(f)[1..], s.job.isoTotal);
    AssembledGrows(s.job.response, Body(f)[1..], s.job.isoTotal);
    var j := s.job.(isoNext := (s.job.isoNext + 1) % 16, response := more);
    CompleteMoves(s.(job := j));
    FailIsFinish(s, SequenceError);
  }

  lemma IsoLengths(s: Transport)
    requires Good(s) && s.job.active && s.job.phase == IsoWaitConsecutive
    ensures |s.job.response| <= s.job.isoTotal <= MAX_RESPONSE
  {
  }

  lemma AssembledGrows(have: Bytes, more: Bytes, total: nat)
    ensures have <= Assembled(have, more, total)
  {
  }

  lemma CompleteMoves(s: Transport)
    requires s.job.active && !MustDisconnect(s.job)
    ensures CompleteIso(s).job.phase != IsoWaitConsecutive
  {
    hide PublishedOf, Validated;
    ValidatedScalars(s.job, false);
  }

  lemma FailIsFinish(s: Transport, e: Error)
    requires s.job.active && !MustDisconnect(s.job)
    ensures Fail(s, e) == Finish(s, Failed, e) && !Fail(s, e).job.active
  {
  }

  lemma NotTp20(s: Transport)
    requires Good(s) && s.job.active && IsoPhase(s.job.phase)
    ensures !MustDisconnect(s.job)
  {
  }
}
