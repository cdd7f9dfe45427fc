/** The two fixed buffers of the active diagnostic job (core/diagnostic_transport.cpp), filled in place:
    the frame waiting for the transmitter and the response under assembly. */
module DiagnosticBuffers {
  import opened Types
  import opened DiagnosticSpec

  const FRAME_BYTES := 8

  datatype TxAction =
    | NoTx | IsoRequest | IsoFlowControl | Setup | Params | Session | RequestTx | Ack | ChannelTest | Disconnect

  /** The phase in which a frame of each kind waits for the transmitter. */
  function Sending(a: TxAction): Phase {
    match a
    case NoTx => NoPhase
    case IsoRequest => IsoSendRequest
    case IsoFlowControl => IsoSendFlowControl
    case Setup => SendSetup
    case Params => SendParams
    case Session => SendSession
    case RequestTx => SendRequest
    case Ack => SendAck
    case ChannelTest => SendChannelTest
    case Disconnect => SendDisconnect
  }

  /** `pending_tx` and the fields beside it. */
  class TxSlot {
    const frame: array<Byte>
    var length: nat
    var id: U32
    var direction: Direction
    var action: TxAction
    var valid: bool
    var attempts: nat
    var retryAt: U32

    ghost predicate Valid()
      reads this
    {
      frame.Length == FRAME_BYTES && length <= FRAME_BYTES
    }

    function Waiting(): Option<Pending>
      reads this, frame
      requires Valid()
    {
      if valid then Some(Pending(id, direction, frame[..length], attempts, retryAt)) else None
    }

    constructor ()
      ensures Valid() && Waiting() == None && fresh(frame)
    {
      frame := new Byte[FRAME_BYTES](_ => 0);
      length, id, direction, action, valid, attempts, retryAt := 0, 0, AToB, NoTx, false, 0, 0;
    }

    method Clear()
      requires Valid()
      modifies this
      ensures Valid() && Waiting() == None
    {
      length, id, direction, action, valid, attempts, retryAt := 0, 0, AToB, NoTx, false, 0, 0;
    }

    /** Copies at most eight octets. */
    method Stage(canId: U32, towards: Direction, data: Bytes, a: TxAction)
      requires Valid()
      modifies this, frame
      ensures Valid() && action == a
      ensures Waiting() ==
        Some(Pending(canId, towards, if |data| <= FRAME_BYTES then data else data[..FRAME_BYTES], 0, 0))
    {
      var count := if |data| <= FRAME_BYTES then |data| else FRAME_BYTES;
      var index := 0;
      while index < count
        invariant 0 <= index <= count && frame[..index] == data[..index]
      {
        frame[index] := data[index];
        index := index + 1;
      }
      assert |data| <= FRAME_BYTES ==> data[..count] == data;
      id, direction, length := canId, towards, count;
      action, valid, attempts, retryAt := a, true, 0, 0;
    }

    /** The driver refused the frame: it stays, with one more attempt. */
    method Refuse(next: U32)
      requires Valid() && valid
      modifies this`attempts, this`retryAt
      ensures Valid() && valid && attempts == old(attempts) + 1 && retryAt == next
      ensures Waiting() == Some(old(Waiting()).value.(attempts := attempts, retryAt := next))
    {
      attempts, retryAt := attempts + 1, next;
    }
  }

  /** `result.response` and `result.response_length`. */
  class ResponseBuffer {
    const octets: array<Byte>
    var length: nat

    ghost predicate Valid()
      reads this
    {
      octets.Length == MAX_RESPONSE && length <= MAX_RESPONSE
    }

    function Octets(): (r: Bytes)
      reads this, octets
      requires Valid()
      ensures |r| == length
    {
      octets[..length]
    }

    constructor ()
      ensures Valid() && Octets() == [] && fresh(octets)
    {
      octets := new Byte[MAX_RESPONSE](_ => 0);
      length := 0;
    }

    method Reset()
      requires Valid()
      modifies this
      ensures Valid() && Octets() == []
    {
      length := 0;
    }

    /** The copy loop of both assemblers: octets of a frame until the advertised length is reached.
        No octet is written behind the buffer, and what was assembled stays. */
    method Append(b: Bytes, from: nat, total: nat)
      requires Valid() && from <= |b| && total <= MAX_RESPONSE
      modifies this, octets
      ensures Valid() && old(Octets()) <= Octets()
      ensures Octets() == Assembled(old(Octets()), b[from..], total)
    {
      ghost var have := Octets();
      var index := from;
      while index < |b| && length < total
        invariant from <= index <= |b| && length <= MAX_RESPONSE
        invariant Octets() == have + b[from..index]
        invariant |have| < total ==> length <= total
        invariant |have| >= total ==> index == from
      {
        octets[length] := b[index];
        length := length + 1;
        index := index + 1;
      }
      assert length == |have| + (index - from);
      if |have| < total && index < |b| {
        assert b[from..][..total - |have|] == b[from..index];
      }
      assert b[from..|b|] == b[from..];
    }

    /** A negative response to `sid`, and whether it only announces that the answer is still to come. */
    method Negative(sid: Byte) returns (negative: bool, pending: bool)
      requires Valid()
      ensures negative == (|Octets()| >= 3 && Octets()[0] == NEGATIVE_SID && Octets()[1] == sid)
      ensures pending == (negative && Octets()[2] == PENDING_NRC)
    {
      negative := length >= 3 && octets[0] == NEGATIVE_SID && octets[1] == sid;
      pending := negative && octets[2] == PENDING_NRC;
    }
  }
}
