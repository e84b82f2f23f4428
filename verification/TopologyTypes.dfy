/** The topology snapshot a master stages on a slave. */
module TopologyTypes {
  import opened FixedWidth

  const MAX_SLOTS: nat := 13
  const MAX_GROUPS: nat := 12
  const SEED_BYTES: nat := 32
  const MAC_BYTES: nat := 6

  type int8 = x: int | -128 <= x < 128

  function FromInt8(x: int8): byte { if x < 0 then x + 256 else x }
  function ToInt8(b: byte): int8 { if b < 128 then b else b - 256 }

  type Mac = m: seq<byte> | |m| == MAC_BYTES witness [0, 0, 0, 0, 0, 0]

  datatype Slot = Slot(
    index: byte,
    enabled: bool,
    peer: Mac,
    peerRole: byte,
    groupId: byte,
    relativeIndex: int8,
    localVi: byte,
    peerVi: byte,
    axisOrder: int8,
    delayMs: uint16,
    holdMs: uint16)

  type Seed = s: seq<byte> | |s| == SEED_BYTES
    witness [0, 0, 0, 0, 0, 0, 0, 0, 0, 0, 0, 0, 0, 0, 0, 0, 0, 0, 0, 0, 0, 0, 0, 0, 0, 0, 0, 0, 0, 0, 0, 0]

  const ZERO_SEED: Seed := [0, 0, 0, 0, 0, 0, 0, 0, 0, 0, 0, 0, 0, 0, 0, 0,
                            0, 0, 0, 0, 0, 0, 0, 0, 0, 0, 0, 0, 0, 0, 0, 0]

  datatype Group = Group(slot: byte, enabled: bool, id: byte, seed: Seed)

  datatype Snapshot = Snapshot(schema: byte, version: uint32, neg: byte, pos: byte, slots: seq<Slot>,
                               groups: seq<Group>)
}
