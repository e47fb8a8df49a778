/**
 * The host game's data as seen by the prospecting pick: block positions,
 * block descriptors, the read-only world, the breaking actor and the
 * observable effects of a probe (the calls it makes back into the host).
 */
module Host {
  import opened Wrappers

  /** An integer block position. */
  datatype Pos = Pos(x: int, y: int, z: int)

  /**
   * The host's mutable block position; the core-sample walk copies the
   * selected position into one of these and steps it in place.
   */
  class BlockPos {
    var X: int
    var Y: int
    var Z: int

    constructor (p: Pos)
      ensures ToPos() == p
    {
      X, Y, Z := p.x, p.y, p.z;
    }

    function ToPos(): Pos
      reads this
    {
      Pos(X, Y, Z)
    }
  }

  /** The host's block material classification; only `Ore` matters here. */
  datatype Material = Ore | Stone | Soil | Air | Other

  /** A JSON attribute value; only a literal boolean reads as one. */
  datatype JsonValue = JsonBool(b: bool) | JsonOther

  /**
   * A block type: its material, its variant codes (such as "type" of an ore)
   * and its static attributes, which may be absent altogether.
   */
  datatype Block = Block(material: Material, variant: map<string, string>, attributes: Option<map<string, JsonValue>>)

  /** The read-only block accessor: what block stands at each position. */
  type World = Pos -> Block

  /** The block the player has selected: its position and the face code that was hit. */
  datatype BlockSel = BlockSel(position: Pos, face: string)

  /** A player as resolved by the host's player lookup. */
  datatype Player = ServerPlayer | ClientPlayer

  /**
   * The breaking entity. A player entity carries the result of looking its
   * player up by id, which the host may fail to find.
   */
  datatype Entity = EntityPlayer(lookup: Option<Player>) | OtherEntity

  /** The report lines of a core sample, before localisation. */
  datatype ReportLine =
    | CoreSampleTaken
    | NoOreFound
    | FoundOreNodes
    | OreEntry(key: string, count: nat)

  /** The calls a probe makes into the host, in the order it makes them. */
  datatype Event =
    | BlockBroken(pos: Pos, byPlayer: Option<Player>, dropMultiplier: int)
    | Message(line: ReportLine)
    | DensityProbe(sel: BlockSel)
    | NodeProbe(sel: BlockSel, radius: int)
}
