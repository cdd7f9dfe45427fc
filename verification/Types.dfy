/** Values shared by every component: CAN frames, bus directions and optional results. */
module Types {

  datatype Option<+T> = None | Some(value: T)

  datatype Direction = AToB | BToA
  {
    function Opposite(): Direction {
      if AToB? then BToA else AToB
    }
  }

  /** The eight data bytes of a CAN frame, whatever the advertised DLC. */
  type Payload = s: seq<bv8> | |s| == 8 witness [0, 0, 0, 0, 0, 0, 0, 0]

  type U32 = x: int | 0 <= x < 0x1_0000_0000

  datatype CanFrame = CanFrame(
    id: U32,
    dlc: nat,
    data: Payload,
    timestampUs: U32,
    direction: Direction)

  /** The hash of an identifier and a direction that rule table and frame cache share. */
  function IdHash(canId: U32, direction: Direction): nat {
    var seed: bv32 := (canId as bv32) ^ (if direction.BToA? then 0x9E37_79B9 else 0);
    (seed ^ (seed >> 16)) as int
  }
}
