/** The diagnostic transport (core/diagnostic_transport.cpp) as functions on its state: one job slot,
    one queued command, ISO-TP and VW TP2.0 phases, retries, deadlines and the disconnect. */
module DiagnosticSpec {
  import opened Types

  const WORD := 0x1_0000_0000
  const HALF := 0x8000_0000
  const MAX_RESPONSE := 512
  const MAX_ATTEMPTS := 8
  const RETRY_DELAY := 2
  const DISCONNECT_TIMEOUT := 50
  const CHANNEL_TEST_INTERVAL := 350
  const CHANNEL_TEST_TIMEOUT := 200
  const NEGATIVE_SID := 0x7F
  const PENDING_NRC := 0x78

  type Byte = x: int | 0 <= x < 256
  type Bytes = seq<Byte>

  datatype Protocol = IsoTp | VwTp20

  datatype Route = Route(
    protocol: Protocol, direction: Direction, requestId: U32, responseId: U32, extended: bool,
    padToEight: bool, padding: Byte, blockSize: Byte, stMin: Byte,
    logicalAddress: Byte, requestedEcuId: U32, applicationType: Byte, kwpSession: Byte, enterSession: bool)

  datatype Request = Request(
    route: Route, payload: Bytes, expectedSid: Byte, timeoutMs: U32, suppress: bool,
    repeatCount: nat, repeatIntervalMs: nat)

  datatype JobState = StateIdle | Queued | Active | Complete | Failed | Cancelled

  datatype Error =
    | NoError | TxFailed | Timeout | Collision | UnexpectedResponse | NegativeResponse | TooLarge
    | SequenceError | SetupRejected | NegotiationFailed | CancelledError | Aborted

  datatype Phase =
    | NoPhase
    | IsoSendRequest | IsoWaitResponse | IsoSendFlowControl | IsoWaitConsecutive
    | SendSetup | WaitSetup | SendParams | WaitParams
    | SendSession | WaitSessionAck | WaitSessionResponse
    | SendRequest | WaitRequestAck | WaitRequestResponse
    | SendAck | WaitRepeat | SendChannelTest | WaitChannelTest | SendDisconnect | WaitDisconnect

  datatype AfterAck =
    | NoAction | ThenWaitSession | ThenWaitRequest | SessionComplete | RequestPending | RequestComplete
    | RequestFailed | SessionFailed

  datatype Frame = Frame(id: U32, direction: Direction, dlc: nat, data: Bytes)

  datatype Pending = Pending(id: U32, direction: Direction, data: Bytes, attempts: nat, retryAt: U32)

  datatype Terminal = Terminal(state: JobState, error: Error)

  /** A KWP response as it was assembled: advertised length, bytes, opcode of its last fragment. */
  datatype Telegram = Telegram(total: nat, bytes: Bytes, lastOp: nat)

  datatype Job = Job(
    active: bool, request: Request, id: nat, phase: Phase, pending: Option<Pending>, deadline: U32,
    isoTotal: nat, isoNext: nat,
    channelOpen: bool, testerId: U32, ecuId: U32, txSequence: nat, expectedAck: nat, expectedRx: nat,
    rxStarted: bool, rxTotal: nat,
    disconnectDeadline: U32, repeatAt: U32, channelTestAt: U32, channelTestDeadline: U32,
    afterAck: AfterAck, terminal: Option<Terminal>,
    response: Bytes, negative: bool, pendingSeen: bool, completedRequests: nat,
    // record of the job: KWP telegrams staged, fragments accepted, responses completed
    telegrams: nat, fragments: nat, lastOp: nat, responses: seq<Telegram>)

  datatype Command = Command(request: Request, id: nat)

  /** The result a caller can read, with the number of responses the job wanted and the record of
      those it got (for TP2.0 jobs; an ISO-TP job has one unnumbered response). */
  datatype Published = Published(
    id: nat, state: JobState, error: Error, response: Bytes, completedRequests: nat,
    negative: bool, kwp: bool, wanted: nat, responses: seq<Telegram>)

  datatype Transport = Transport(
    job: Job, mailbox: Option<Command>, busy: bool, cancelId: nat, abortId: nat, abortError: Error,
    nextId: U32, lastNow: U32, published: Published,
    submitted: nat, completed: nat, failed: nat, cancelled: nat, calls: nat)

  const NO_ROUTE := Route(IsoTp, AToB, 0, 0, false, true, 0x55, 0, 2, 0x0A, 0x300, 1, 0x89, true)
  const NO_REQUEST := Request(NO_ROUTE, [], 0, 3000, true, 1, 0)

  /** `job = {}` */
  const NO_JOB := Job(
    false, NO_REQUEST, 0, NoPhase, None, 0, 0, 1, false, 0, 0, 0, 0, 0, false, 0, 0, 0, 0, 0,
    NoAction, None, [], false, false, 0, 0, 0, 0, [])

  function Init(): Transport {
    Transport(NO_JOB, None, false, 0, 0, Aborted, 1, 0,
              Published(0, StateIdle, NoError, [], 0, false, false, 0, []), 0, 0, 0, 0, 0)
  }

  function High(b: Byte): (r: nat)
    ensures r < 16
  {
    (b as int) / 16
  }

  function Low(b: Byte): (r: nat)
    ensures r < 16
  {
    (b as int) % 16
  }

  /** A big-endian 16-bit length. */
  function Wide(high: Byte, low: Byte): nat {
    (high as int) * 256 + (low as int)
  }

  /** Signed 32-bit comparison of two clock readings. */
  predicate TimeReached(now: U32, deadline: U32) {
    (now + WORD - deadline) % WORD < HALF
  }

  function Later(now: U32, ms: nat): U32 {
    (now + ms) % WORD
  }

  function ExpectedSid(r: Request): Byte {
    if r.expectedSid != 0 then r.expectedSid else if r.payload != [] then (r.payload[0] as int + 0x40) % 256 else 0
  }

  function RequestSid(r: Request): Byte {
    if r.payload != [] then r.payload[0] else 0
  }

  predicate Extended(id: U32) {
    id > 0x7FF
  }

  predicate MatchesResponse(j: Job, f: Frame, id: U32) {
    f.direction == j.request.route.direction.Opposite() && f.id == id && Extended(f.id) == j.request.route.extended
  }

  predicate MatchesRequest(r: Route, f: Frame, id: U32) {
    f.direction == r.direction && f.id == id && Extended(f.id) == r.extended
  }

  // ---------------------------------------------------------------- publishing and finishing

  function PublishedOf(j: Job, state: JobState, error: Error): Published {
    Published(j.id, state, error, j.response, j.completedRequests, j.negative,
              j.request.route.protocol.VwTp20?, j.request.repeatCount, j.responses)
  }

  /** Nothing was submitted, and the transmitter was left alone. */
  predicate Still(s: Transport, t: Transport) {
    t.submitted == s.submitted && t.nextId == s.nextId && t.calls == s.calls && t.lastNow == s.lastNow
  }

  /** The transmitter was called at most once. */
  predicate Attempted(s: Transport, t: Transport) {
    s.calls <= t.calls <= s.calls + 1 && Still(s.(calls := t.calls), t)
  }

  /** `publishActiveProgress` */
  function Progress(s: Transport): (t: Transport)
    ensures Still(s, t)
  {
    if s.job.active then s.(published := PublishedOf(s.job, Active, NoError)) else s
  }

  function Released(id: nat, jobId: nat): nat {
    if id == jobId then 0 else id
  }

  /** `finishImmediately` */
  function Finish(s: Transport, state: JobState, error: Error): (t: Transport)
    ensures Still(s, t)
  {
    if !s.job.active then s
    else s.(
      published := PublishedOf(s.job, state, error),
      completed := s.completed + (if state == Complete then 1 else 0),
      cancelled := s.cancelled + (if state == Cancelled then 1 else 0),
      failed := s.failed + (if state == Complete || state == Cancelled then 0 else 1),
      cancelId := Released(s.cancelId, s.job.id), abortId := Released(s.abortId, s.job.id),
      job := NO_JOB, busy := false)
  }

  function StageTx(j: Job, id: U32, data: Bytes, phase: Phase): Job {
    j.(pending := Some(Pending(id, j.request.route.direction, data, 0, 0)), phase := phase)
  }

  /** A negotiated TP2.0 channel has to be released before the job may end. */
  predicate MustDisconnect(j: Job) {
    j.request.route.protocol.VwTp20? && j.channelOpen && j.testerId != 0
  }

  /** `requestFinish` */
  function RequestFinish(s: Transport, state: JobState, error: Error): (t: Transport)
    ensures Still(s, t)
  {
    if !s.job.active then s
    else if MustDisconnect(s.job) then
      s.(job := StageTx(s.job.(terminal := Some(Terminal(state, error))), s.job.testerId, [0xA8], SendDisconnect))
    else Finish(s, state, error)
  }

  function Fail(s: Transport, error: Error): (t: Transport)
    ensures Still(s, t)
  {
    RequestFinish(s, Failed, error)
  }

  /** `finalizeTerminalIntent` */
  function Finalize(s: Transport): (t: Transport)
    ensures Still(s, t)
  {
    match s.job.terminal
    case None => s
    case Some(t) => Finish(s, t.state, t.error)
  }

  // ---------------------------------------------------------------- response validation

  function SidFor(j: Job, session: bool): Byte {
    if session then 0x10 else RequestSid(j.request)
  }

  predicate Belongs(payload: Bytes, r: Request) {
    payload != [] &&
    (payload[0] == ExpectedSid(r) || (|payload| >= 2 && payload[0] == NEGATIVE_SID && payload[1] == RequestSid(r)))
  }

  predicate IsNegative(j: Job, session: bool) {
    |j.response| >= 3 && j.response[0] == NEGATIVE_SID && j.response[1] == SidFor(j, session)
  }

  predicate IsPending(j: Job, session: bool) {
    IsNegative(j, session) && j.response[2] == PENDING_NRC
  }

  /** `validateCompletedPayload`: what it records, and whether the response is acceptable. */
  function Validated(j: Job, session: bool): Job {
    if IsPending(j, session) then j.(pendingSeen := true)
    else if IsNegative(j, session) then j.(negative := true)
    else j
  }

  predicate Acceptable(j: Job, session: bool) {
    IsPending(j, session) ||
    (!IsNegative(j, session) && j.response != [] &&
     j.response[0] == (if session then 0x50 else ExpectedSid(j.request)))
  }

  function OutcomeError(j: Job, otherwise: Error): Error {
    if j.negative then NegativeResponse else otherwise
  }

  // ---------------------------------------------------------------- KWP telegrams

  /** `stageTp20KwpRequest` */
  function StageKwp(j: Job, session: bool): Job {
    var payload := if session then [0x10, j.request.route.kwpSession] else j.request.payload;
    var next := (j.txSequence + 1) % 16;
    StageTx(j.(expectedAck := next, txSequence := next, rxStarted := false, rxTotal := 0, response := [],
               telegrams := j.telegrams + 1),
            j.testerId, [0x10 + j.txSequence % 16, 0, |payload| % 256] + payload,
            if session then SendSession else SendRequest)
  }

  /** `completeKwpRequest` */
  function CompleteKwp(s: Transport): (t: Transport)
    ensures Still(s, t)
  {
    var j := s.job.(completedRequests := s.job.completedRequests + 1,
                    responses := s.job.responses + [Telegram(s.job.rxTotal, s.job.response, s.job.lastOp)]);
    var counted := s.(job := j);
    if j.completedRequests >= j.request.repeatCount then RequestFinish(counted, Complete, NoError)
    else
      var shown := Progress(counted);
      shown.(job := shown.job.(
        repeatAt := Later(s.lastNow, j.request.repeatIntervalMs),
        channelTestAt := Later(s.lastNow, CHANNEL_TEST_INTERVAL), phase := WaitRepeat))
  }

  function ResetTp20(j: Job): Job {
    j.(rxStarted := false, rxTotal := 0, response := [])
  }

  /** `applyAfterAck` */
  function ApplyAfterAck(s: Transport): (t: Transport)
    ensures Still(s, t)
  {
    var t := s.(job := s.job.(afterAck := NoAction));
    match s.job.afterAck
    case ThenWaitSession => t.(job := t.job.(phase := WaitSessionResponse))
    case ThenWaitRequest => t.(job := t.job.(phase := WaitRequestResponse))
    case SessionComplete => t.(job := StageKwp(t.job, false))
    case RequestPending => t.(job := ResetTp20(t.job).(phase := WaitRequestResponse))
    case RequestComplete => CompleteKwp(t)
    case RequestFailed => Fail(t, OutcomeError(t.job, UnexpectedResponse))
    case SessionFailed => Fail(t, OutcomeError(t.job, NegotiationFailed))
    case NoAction => t
  }

  /** `kwpOutcomeAfterAck`, on the job before validation */
  function Outcome(j: Job, session: bool): AfterAck {
    if IsPending(j, session) then (if session then ThenWaitSession else RequestPending)
    else if !Acceptable(j, session) then (if session then SessionFailed else RequestFailed)
    else if session then SessionComplete else RequestComplete
  }

  /** `handleKwpPayloadOutcome` for a sender that does not wait for an acknowledgement */
  function HandleOutcome(s: Transport, session: bool): (t: Transport)
    ensures Still(s, t)
  {
    var t := s.(job := Validated(s.job, session));
    match Outcome(s.job, session)
    case ThenWaitSession => t.(job := ResetTp20(t.job).(phase := WaitSessionResponse))
    case RequestPending => t.(job := ResetTp20(t.job).(phase := WaitRequestResponse))
    case SessionComplete => t.(job := StageKwp(t.job, false))
    case RequestComplete => CompleteKwp(t)
    case SessionFailed => Fail(t, OutcomeError(t.job, NegotiationFailed))
    case _ => Fail(t, OutcomeError(t.job, UnexpectedResponse))
  }

  // ---------------------------------------------------------------- transmitting

  /** `handleSuccessfulTx`, by the phase that was sending */
  function AfterTx(s: Transport): (t: Transport)
    ensures Still(s, t)
  {
    var j := s.job;
    match j.phase
    case IsoSendRequest => s.(job := j.(phase := IsoWaitResponse))
    case IsoSendFlowControl => s.(job := j.(phase := IsoWaitConsecutive))
    case SendSetup => s.(job := j.(phase := WaitSetup))
    case SendParams => s.(job := j.(phase := WaitParams))
    case SendSession => s.(job := j.(phase := WaitSessionAck))
    case SendRequest => s.(job := j.(phase := WaitRequestAck))
    case SendAck => ApplyAfterAck(s)
    case SendChannelTest =>
      s.(job := j.(phase := WaitChannelTest, channelTestDeadline := Later(s.lastNow, CHANNEL_TEST_TIMEOUT)))
    case SendDisconnect =>
      s.(job := j.(phase := WaitDisconnect, disconnectDeadline := Later(s.lastNow, DISCONNECT_TIMEOUT)))
    case _ => s
  }

  /** `transmitOnePendingFrame`; `answer` is the driver's. */
  function TransmitOne(s: Transport, answer: bool): (t: Transport)
    ensures Attempted(s, t)
  {
    if !s.job.active || s.job.pending.None? then s
    else
      var p := s.job.pending.value;
      if !TimeReached(s.lastNow, p.retryAt) then s
      else
        var called := s.(calls := s.calls + 1);
        if answer then Progress(AfterTx(called.(job := called.job.(pending := None))))
        else if p.attempts + 1 < MAX_ATTEMPTS then
          Progress(called.(job := called.job.(
            pending := Some(p.(attempts := p.attempts + 1, retryAt := Later(s.lastNow, RETRY_DELAY))))))
        else
          var given := called.(job := called.job.(pending := None));
          if s.job.phase == SendDisconnect && s.job.terminal.Some? then Finalize(given) else Fail(given, TxFailed)
  }

  function IsoRequestFrame(r: Request): Bytes {
    var body: Bytes := [|r.payload| % 16] + r.payload;
    if r.route.padToEight && |body| < 8 then body + seq(8 - |body|, _ => r.route.padding) else body
  }

  function SetupFrame(r: Route): Bytes {
    [r.logicalAddress, 0xC0, 0, 0x10, r.requestedEcuId % 256, (r.requestedEcuId / 256) % 16, r.applicationType]
  }

  /** `beginJob` */
  function BeginJob(s: Transport, c: Command): (t: Transport)
    ensures Still(s, t)
  {
    var j := NO_JOB.(active := true, request := c.request, id := c.id,
                     deadline := Later(s.lastNow, c.request.timeoutMs));
    var staged :=
      if c.request.route.protocol.IsoTp?
      then StageTx(j, c.request.route.requestId, IsoRequestFrame(c.request), IsoSendRequest)
      else StageTx(j, c.request.route.requestId, SetupFrame(c.request.route), SendSetup);
    Progress(s.(job := staged))
  }

  /** The checks of `diagnosticTransportTick` on a running job that is not yet ending. */
  function CheckLimits(s: Transport): (t: Transport)
    ensures Still(s, t)
  {
    if s.cancelId == s.job.id then RequestFinish(s, Cancelled, CancelledError)
    else if s.abortId == s.job.id then RequestFinish(s.(abortId := 0), Failed, s.abortError)
    else if TimeReached(s.lastNow, s.job.deadline) then Fail(s, Timeout)
    else if s.job.phase == WaitChannelTest && TimeReached(s.lastNow, s.job.channelTestDeadline) then Fail(s, Timeout)
    else s
  }

  /** The next request of a repeated job, or a channel test while it waits. */
  function Repeat(s: Transport): (t: Transport)
    ensures Still(s, t)
  {
    if !s.job.active || s.job.terminal.Some? || s.job.phase != WaitRepeat then s
    else if TimeReached(s.lastNow, s.job.repeatAt) then s.(job := StageKwp(s.job.(negative := false), false))
    else if TimeReached(s.lastNow, s.job.channelTestAt) then
      s.(job := StageTx(s.job, s.job.testerId, [0xA3], SendChannelTest))
    else s
  }

  /** A running job's tick. */
  function TickJob(s: Transport, answer: bool): (t: Transport)
    ensures Attempted(s, t)
  {
    if !s.job.active then s
    else if s.job.terminal.Some? then
      if s.job.phase == WaitDisconnect && TimeReached(s.lastNow, s.job.disconnectDeadline)
      then Finalize(s) else TransmitOne(s, answer)
    else TransmitOne(Repeat(CheckLimits(s)), answer)
  }

  /** `diagnosticTransportTick` */
  function Tick(s: Transport, now: U32, answer: bool): (t: Transport)
    ensures Attempted(s.(lastNow := now), t)
  {
    var t := s.(lastNow := now);
    if t.job.active || t.mailbox.None? then TickJob(t, answer)
    else
      var c := t.mailbox.value;
      var begun := BeginJob(t.(mailbox := None), c);
      if t.cancelId == c.id then Finish(begun, Cancelled, CancelledError) else TickJob(begun, answer)
  }

  // ---------------------------------------------------------------- observing ISO-TP

  /** As many octets of `more` as the advertised length still has room for. */
  function Assembled(have: Bytes, more: Bytes, total: nat): (r: Bytes) {
    if |have| >= total then have
    else if |have| + |more| <= total then have + more
    else have + more[..total - |have|]
  }

  function FlowControlFrame(r: Route): Bytes {
    var body: Bytes := [0x30, r.blockSize, r.stMin];
    if r.padToEight then body + seq(5, _ => r.padding) else body
  }

  /** `completeIsoPayloadOrContinuePending` */
  function CompleteIso(s: Transport): (t: Transport)
    ensures Still(s, t)
  {
    var t := s.(job := Validated(s.job, false));
    if IsPending(s.job, false) then
      Progress(t.(job := t.job.(isoTotal := 0, isoNext := 1, response := [], phase := IsoWaitResponse)))
    else if !Acceptable(s.job, false) then Fail(t, OutcomeError(t.job, UnexpectedResponse))
    else RequestFinish(t, Complete, NoError)
  }

  /** The octets of a frame that its length code covers. */
  function Body(f: Frame): Bytes {
    if f.dlc <= |f.data| then f.data[..f.dlc] else f.data
  }

  predicate SingleFrame(s: Transport, f: Frame) {
    var b := Body(f);
    b != [] && High(b[0]) == 0 && 1 <= Low(b[0]) <= 7 && |b| >= Low(b[0]) + 1 &&
    Belongs(b[1..Low(b[0]) + 1], s.job.request)
  }

  predicate FirstFrame(s: Transport, f: Frame) {
    var b := Body(f);
    |b| >= 3 && High(b[0]) == 1 && Belongs(b[2..], s.job.request)
  }

  function FirstTotal(f: Frame): nat
    requires |Body(f)| >= 3
  {
    Low(Body(f)[0]) * 256 + Body(f)[1] as int
  }

  /** Whether `observeIsoResponse` takes the frame as its own. */
  predicate IsoTakes(s: Transport, f: Frame) {
    && MatchesResponse(s.job, f, s.job.request.route.responseId) && Body(f) != []
    && (if s.job.phase == IsoWaitResponse then SingleFrame(s, f) || FirstFrame(s, f)
        else s.job.phase == IsoWaitConsecutive && High(Body(f)[0]) == 2)
  }

  /** `observeIsoResponse` on a frame it takes */
  function ObserveIso(s: Transport, f: Frame): (t: Transport)
    requires IsoTakes(s, f)
    ensures Still(s, t)
  {
    var b := Body(f);
    if s.job.phase == IsoWaitResponse then
      if SingleFrame(s, f) then CompleteIso(s.(job := s.job.(response := b[1..Low(b[0]) + 1])))
      else
        var total := FirstTotal(f);
        if total == 0 || total > MAX_RESPONSE then Fail(s, TooLarge)
        else
          var j := s.job.(isoTotal := total, isoNext := 1, response := Assembled([], b[2..], total));
          Progress(s.(job :=
            StageTx(j, j.request.route.requestId, FlowControlFrame(j.request.route), IsoSendFlowControl)))
    else if Low(b[0]) != s.job.isoNext then Fail(s, SequenceError)
    else
      var j := s.job.(isoNext := (s.job.isoNext + 1) % 16,
                      response := Assembled(s.job.response, b[1..], s.job.isoTotal));
      if |j.response| >= j.isoTotal then CompleteIso(s.(job := j)) else Progress(s.(job := j))
  }

  // ---------------------------------------------------------------- observing TP2.0

  function StageAck(j: Job, sequence: nat, after: AfterAck): Job {
    StageTx(j.(afterAck := after), j.testerId, [0xB0 + (sequence + 1) % 16], SendAck)
  }

  predicate KwpPhase(p: Phase) {
    p == WaitSessionAck || p == WaitSessionResponse || p == WaitRequestAck || p == WaitRequestResponse
  }

  predicate SessionPhase(p: Phase) {
    p == WaitSessionAck || p == WaitSessionResponse
  }

  function ResponsePhase(session: bool): Phase {
    if session then WaitSessionResponse else WaitRequestResponse
  }

  /** The job after the fragment with opcode `op` has been taken over. */
  function TakeFragment(j: Job, b: Bytes, op: nat): Job
    requires b != [] && (j.rxStarted || |b| >= 3)
  {
    var next := j.(expectedRx := (j.expectedRx + 1) % 16, fragments := j.fragments + 1, lastOp := op);
    if j.rxStarted then next.(response := Assembled(j.response, b[1..], j.rxTotal))
    else
      var total := Wide(b[1], b[2]);
      next.(rxStarted := true, rxTotal := total, response := Assembled([], b[3..], total))
  }

  /** `observeTp20KwpFrame` on a frame it takes */
  function ObserveKwp(s: Transport, b: Bytes, session: bool): (t: Transport)
    requires b != []
    ensures Still(s, t)
  {
    var op, sequence := High(b[0]), Low(b[0]);
    if op == 0xB then
      if sequence != s.job.expectedAck then Fail(s, SequenceError)
      else Progress(s.(job := s.job.(phase := ResponsePhase(session))))
    else if op == 9 then Fail(s, NegotiationFailed)
    else if op > 3 then s
    else if sequence != s.job.expectedRx then Fail(s, SequenceError)
    else if !s.job.rxStarted && |b| < 3 then Fail(s, UnexpectedResponse)
    else if !s.job.rxStarted && (Wide(b[1], b[2]) == 0 || Wide(b[1], b[2]) > MAX_RESPONSE) then Fail(s, TooLarge)
    else
      var j := TakeFragment(s.job, b, op);
      var t := s.(job := j);
      var final, waits := op == 1 || op == 3, op == 0 || op == 1;
      if |j.response| < j.rxTotal then
        if final then Fail(t, SequenceError)
        else if waits then t.(job := StageAck(j, sequence, if session then ThenWaitSession else ThenWaitRequest))
        else Progress(t.(job := j.(phase := ResponsePhase(session))))
      else if !final then Fail(t, SequenceError)
      else if waits then t.(job := StageAck(Validated(j, session), sequence, Outcome(j, session)))
      else HandleOutcome(t, session)
  }

  function DecodeId(low: Byte, prefix: Byte): Option<U32> {
    var id := Low(prefix) * 256 + low as int;
    if High(prefix) != 0 || id == 0 || id > 0x7FF then None else Some(id)
  }

  predicate SetupAccepted(b: Bytes, r: Route) {
    |b| >= 7 && b[0] == 0 && b[6] == r.applicationType &&
    DecodeId(b[2], b[3]).Some? && DecodeId(b[4], b[5]).Some?
  }

  predicate ParamsSensible(b: Bytes) {
    |b| >= 6 && 1 <= b[1] <= 0x0F && b[2] != 0 && b[3] != 0 && b[4] != 0 && b[5] != 0
  }

  /** Whether `observeTp20Response` takes the frame as its own. */
  predicate Tp20Takes(s: Transport, f: Frame) {
    var j, b := s.job, Body(f);
    b != [] &&
    (if j.phase == WaitSetup then
       MatchesResponse(j, f, j.request.route.responseId) && |b| >= 2 && (b[1] == 0xD0 || 0xD6 <= b[1] <= 0xD8)
     else
       MatchesResponse(j, f, j.ecuId) &&
       (if j.phase == WaitDisconnect then b[0] == 0xA8
        else if j.phase == WaitChannelTest || j.phase == WaitParams then b[0] == 0xA1
        else KwpPhase(j.phase) && (High(b[0]) <= 3 || High(b[0]) == 9 || High(b[0]) == 0xB)))
  }

  function ObserveSetup(s: Transport, b: Bytes): (t: Transport)
    requires |b| >= 2
    ensures Still(s, t)
  {
    if b[1] != 0xD0 then Finish(s, Failed, SetupRejected)
    else if !SetupAccepted(b, s.job.request.route) then Finish(s, Failed, NegotiationFailed)
    else
      var j := s.job.(ecuId := DecodeId(b[2], b[3]).value, testerId := DecodeId(b[4], b[5]).value, channelOpen := true);
      Progress(s.(job := StageTx(j, j.testerId, [0xA0, 0x0F, 0x8A, 0xFF, 0x32, 0xFF], SendParams)))
  }

  function ObserveParams(s: Transport, b: Bytes): (t: Transport)
    ensures Still(s, t)
  {
    if !ParamsSensible(b) then Fail(s, NegotiationFailed)
    else
      var j := s.job.(txSequence := 0, expectedRx := 0);
      Progress(s.(job := StageKwp(j, j.request.route.enterSession)))
  }

  /** `observeTp20Response` on a frame it takes */
  function ObserveTp20(s: Transport, f: Frame): (t: Transport)
    requires Tp20Takes(s, f)
    ensures Still(s, t)
  {
    var b := Body(f);
    if s.job.phase == WaitDisconnect then Finalize(s)
    else if s.job.phase == WaitChannelTest then
      Progress(s.(job := s.job.(channelTestAt := Later(s.lastNow, CHANNEL_TEST_INTERVAL), phase := WaitRepeat)))
    else if s.job.phase == WaitSetup then ObserveSetup(s, b)
    else if s.job.phase == WaitParams then ObserveParams(s, b)
    else ObserveKwp(s, b, SessionPhase(s.job.phase))
  }

  /** `looksLikeTp20ExternalRequest` */
  predicate ExternalTp20(j: Job, f: Frame) {
    var b := Body(f);
    f.direction == j.request.route.direction && !Extended(f.id) &&
    ((f.id == j.request.route.requestId && |b| >= 2 && b[0] == j.request.route.logicalAddress && b[1] == 0xC0) ||
     (j.testerId != 0 && f.id == j.testerId && b != []))
  }

  /** `collidesWithQueuedRequest` */
  predicate CollidesQueued(r: Request, f: Frame) {
    MatchesRequest(r.route, f, r.route.requestId) &&
    (r.route.protocol.IsoTp? ||
     (!r.route.extended && |Body(f)| >= 2 && Body(f)[0] == r.route.logicalAddress && Body(f)[1] == 0xC0))
  }

  predicate CollidesActive(j: Job, f: Frame) {
    if j.request.route.protocol.IsoTp? then MatchesRequest(j.request.route, f, j.request.route.requestId)
    else ExternalTp20(j, f)
  }

  /** `diagnosticTransportObservePhysicalFrame` */
  function Observe(s: Transport, f: Frame): (t: Transport)
    ensures Still(s, t)
  {
    if !s.job.active then
      if s.mailbox.Some? && CollidesQueued(s.mailbox.value.request, f) then
        Finish(BeginJob(s.(mailbox := None), s.mailbox.value), Failed, Collision)
      else s
    else if CollidesActive(s.job, f) then Finish(s, Failed, Collision)
    else if s.job.request.route.protocol.IsoTp? then (if IsoTakes(s, f) then ObserveIso(s, f) else s)
    else if Tp20Takes(s, f) then ObserveTp20(s, f) else s
  }

  /** Whether the frame is withheld from the gateway. */
  predicate Consumed(s: Transport, f: Frame) {
    && s.job.active && !CollidesActive(s.job, f) && s.job.request.suppress
    && (if s.job.request.route.protocol.IsoTp? then IsoTakes(s, f) else Tp20Takes(s, f))
  }

  // ---------------------------------------------------------------- submitting and stopping

  predicate RequestValid(r: Request) {
    var route := r.route;
    && 1 <= |r.payload| <= 32 && 1 <= r.timeoutMs <= 0x7FFF_FFFF && r.repeatCount >= 1
    && 1 <= route.requestId <= 0x1FFF_FFFF && 1 <= route.responseId <= 0x1FFF_FFFF
    && Extended(route.requestId) == route.extended && Extended(route.responseId) == route.extended
    && (if route.protocol.IsoTp? then |r.payload| <= 7 && r.repeatCount == 1
        else
          !route.extended && |r.payload| <= 5 && 1 <= route.requestedEcuId <= 0x7FF &&
          (r.repeatCount > 1 ==> r.repeatIntervalMs != 0))
  }

  function FreshId(next: U32): (id: U32)
    ensures id > 0
  {
    if next == 0 then 1 else next
  }

  predicate CanSubmit(s: Transport, r: Request) {
    RequestValid(r) && !s.busy
  }

  /** `diagnosticTransportSubmit` */
  function Submit(s: Transport, r: Request): Transport {
    if !CanSubmit(s, r) then s
    else
      var id := FreshId(s.nextId);
      s.(busy := true, nextId := Later(id, 1), mailbox := Some(Command(r, id)), submitted := s.submitted + 1,
         published := Published(id, Queued, NoError, [], 0, false, r.route.protocol.VwTp20?, r.repeatCount, []))
  }

  predicate Stoppable(p: Published) {
    p.state == Queued || p.state == Active
  }

  /** `diagnosticTransportCancel` */
  function Cancel(s: Transport, id: nat): Transport {
    if id != 0 && s.busy && s.published.id == id && Stoppable(s.published) then s.(cancelId := id) else s
  }

  /** `diagnosticTransportAbort` */
  function Abort(s: Transport, error: Error): Transport {
    if s.busy && s.published.id != 0 && Stoppable(s.published)
    then s.(abortError := error, abortId := s.published.id) else s
  }

  // ---------------------------------------------------------------- runs

  datatype Call =
    | SubmitCall(request: Request) | CancelCall(id: nat) | AbortCall(error: Error)
    | TickCall(now: U32, answer: bool) | ObserveCall(frame: Frame)

  function Step(s: Transport, c: Call): Transport {
    match c
    case SubmitCall(r) => Submit(s, r)
    case CancelCall(id) => Cancel(s, id)
    case AbortCall(e) => Abort(s, e)
    case TickCall(now, answer) => Tick(s, now, answer)
    case ObserveCall(f) => Observe(s, f)
  }
}
