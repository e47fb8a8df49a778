/**
 * Core sample mode: after the selected block is broken, walk 64 positions
 * in a straight line away from the hit face, tally the ores found, and
 * report them to the breaking player, most frequent first.
 */
module CoreSample {
  import opened Wrappers
  import opened Host
  import opened OreTally

  /** The number of positions a core sample visits. */
  const Depth: nat := 64

  /** The step taken for each face code; an unrecognised code does not move. */
  function Step(p: Pos, face: string): Pos {
    match face
    case "north" => p.(z := p.z + 1)
    case "south" => p.(z := p.z - 1)
    case "east" => p.(x := p.x - 1)
    case "west" => p.(x := p.x + 1)
    case "up" => p.(y := p.y - 1)
    case "down" => p.(y := p.y + 1)
    case _ => p
  }

  /** The position visited at step `n` of the walk from `start`. */
  function PosAt(start: Pos, face: string, n: nat): Pos {
    if n == 0 then start else Step(PosAt(start, face, n - 1), face)
  }

  predicate IsFaceCode(face: string) {
    face in {"north", "south", "east", "west", "up", "down"}
  }

  /**
   * The walk moves along one axis only, one unit per step, with the sign
   * fixed by the face; with an unrecognised face it stays at the start.
   */
  lemma {:induction false} WalkAxis(start: Pos, face: string, n: nat)
    ensures var p := PosAt(start, face, n);
      && (face == "north" ==> p == Pos(start.x, start.y, start.z + n))
      && (face == "south" ==> p == Pos(start.x, start.y, start.z - n))
      && (face == "east" ==> p == Pos(start.x - n, start.y, start.z))
      && (face == "west" ==> p == Pos(start.x + n, start.y, start.z))
      && (face == "up" ==> p == Pos(start.x, start.y - n, start.z))
      && (face == "down" ==> p == Pos(start.x, start.y + n, start.z))
      && (!IsFaceCode(face) ==> p == start)
  {
    if n > 0 {
      WalkAxis(start, face, n - 1);
    }
  }

  /** With a recognised face the walk never visits a position twice. */
  lemma WalkDistinct(start: Pos, face: string, i: nat, j: nat)
    requires IsFaceCode(face) && i != j
    ensures PosAt(start, face, i) != PosAt(start, face, j)
  {
    WalkAxis(start, face, i);
    WalkAxis(start, face, j);
  }

  /** The tally key of a block: "ore-" and its type, for an ore block that has a type variant. */
  function OreKey(b: Block): Option<string> {
    if b.material == Ore && "type" in b.variant then Some("ore-" + b.variant["type"]) else None
  }

  /** The keys found in the first `n` positions of the walk, in walk order. */
  function Found(world: World, start: Pos, face: string, n: nat): seq<string> {
    if n == 0 then []
    else
      var rest := Found(world, start, face, n - 1);
      match OreKey(world(PosAt(start, face, n - 1)))
      case Some(k) => rest + [k]
      case None => rest
  }

  /** The number of the first `n` positions of the walk whose block yields `key`. */
  function Hits(world: World, start: Pos, face: string, n: nat, key: string): nat {
    if n == 0 then 0
    else Hits(world, start, face, n - 1, key) + (if OreKey(world(PosAt(start, face, n - 1))) == Some(key) then 1 else 0)
  }

  lemma {:induction false} FoundHits(world: World, start: Pos, face: string, n: nat)
    ensures |Found(world, start, face, n)| <= n
    ensures forall k :: multiset(Found(world, start, face, n))[k] == Hits(world, start, face, n, k)
    ensures forall i :: 0 <= i < |Found(world, start, face, n)| ==> "ore-" <= Found(world, start, face, n)[i]
  {
    if n > 0 {
      FoundHits(world, start, face, n - 1);
    }
  }

  lemma {:induction false} FoundLocal(w1: World, w2: World, start: Pos, face: string, n: nat)
    requires forall i :: 0 <= i < n ==> w1(PosAt(start, face, i)) == w2(PosAt(start, face, i))
    ensures Found(w1, start, face, n) == Found(w2, start, face, n)
  {
    if n > 0 {
      FoundLocal(w1, w2, start, face, n - 1);
    }
  }

  /** The tally a core sample from `start` towards `face` builds. */
  function SampleTally(world: World, start: Pos, face: string): Tally {
    TallyOf(Found(world, start, face, Depth))
  }

  /** One entry line per sorted tally entry. */
  function EntryLines(sorted: Tally): seq<ReportLine> {
    seq(|sorted|, i requires 0 <= i < |sorted| => OreEntry(sorted[i].key, sorted[i].count))
  }

  /** The report sent to the player, given the tally sorted for reporting. */
  function Report(sorted: Tally): seq<ReportLine> {
    [CoreSampleTaken] + (if sorted == [] then [NoOreFound] else [FoundOreNodes] + EntryLines(sorted))
  }

  function Messages(lines: seq<ReportLine>): seq<Event> {
    seq(|lines|, i requires 0 <= i < |lines| => Message(lines[i]))
  }

  lemma MessagesAppend(lines: seq<ReportLine>, n: nat)
    requires n < |lines|
    ensures Messages(lines[..n + 1]) == Messages(lines[..n]) + [Message(lines[n])]
  {
  }

  /** One step of the walk bumps the dictionary entry for the key found there, if any. */
  lemma TallyStep(world: World, start: Pos, face: string, i: nat)
    ensures TallyOf(Found(world, start, face, i + 1))
      == match OreKey(world(PosAt(start, face, i)))
         case Some(k) => Bump(TallyOf(Found(world, start, face, i)), k)
         case None => TallyOf(Found(world, start, face, i))
  {
    var ks := Found(world, start, face, i + 1);
    if OreKey(world(PosAt(start, face, i))).Some? {
      assert ks[..|ks| - 1] == Found(world, start, face, i);
    }
  }

  /** The player the host resolves for the breaking entity, if any. */
  function ByPlayer(byEntity: Entity): Option<Player> {
    if byEntity.EntityPlayer? then byEntity.lookup else None
  }

  /** Whether a block type carries a "propickable" attribute that reads as true (a missing one reads as false). */
  function IsPropickable(b: Block): (r: bool)
    ensures r <==> b.attributes.Some? && "propickable" in b.attributes.value && b.attributes.value["propickable"] == JsonBool(true)
  {
    match b.attributes
    case None => false
    case Some(attrs) => AsBool(if "propickable" in attrs then Some(attrs["propickable"]) else None, false)
  }

  /** Reading an optional JSON value as a boolean, with a default for anything that is not one. */
  function AsBool(v: Option<JsonValue>, default: bool): bool {
    match v
    case Some(JsonBool(b)) => b
    case _ => default
  }

  /** The drop multiplier a core sample passes to the broken block: it yields no drops. */
  const NoDrops := 0

  /**
   * Everything a core sample does, in order: the broken block is notified
   * first, with no drops; only for a propickable block broken by a server
   * player do the report lines follow. `world` is the world the broken block
   * is read from; `broken` is the world as the host's notification leaves
   * it, which the walk reads.
   */
  function CoreSampleEvents(world: World, broken: World, byEntity: Entity, sel: BlockSel): seq<Event> {
    var byPlayer := ByPlayer(byEntity);
    [BlockBroken(sel.position, byPlayer, NoDrops)]
      + if IsPropickable(world(sel.position)) && byPlayer == Some(ServerPlayer)
        then Messages(Report(SortByCountDesc(SampleTally(broken, sel.position, sel.face))))
        else []
  }

  /**
   * The core sample as the host runs it: the broken block is notified, the
   * two gates are checked, the header is sent, the walk is taken, and the
   * sorted tally is reported line by line.
   */
  method ProbeCoreSampleMode(world: World, broken: World, byEntity: Entity, sel: BlockSel) returns (events: seq<Event>)
    ensures events == CoreSampleEvents(world, broken, byEntity, sel)
  {
    var byPlayer: Option<Player> := None;
    if byEntity.EntityPlayer? {
      byPlayer := byEntity.lookup;
    }
    var block := world(sel.position);
    events := [BlockBroken(sel.position, byPlayer, NoDrops)];
    if !IsPropickable(block) {
      return;
    }
    if byPlayer != Some(ServerPlayer) {
      return;
    }
    events := events + [Message(CoreSampleTaken)];

    var quantityFound := TakeCoreSample(broken, sel.position, sel.face);

    var resultsOrderedDesc := SortByCountDesc(quantityFound);
    ghost var lines := Report(resultsOrderedDesc);
    if |resultsOrderedDesc| == 0 {
      events := events + [Message(NoOreFound)];
    } else {
      events := events + [Message(FoundOreNodes)];
      for j := 0 to |resultsOrderedDesc|
        invariant events == [BlockBroken(sel.position, byPlayer, NoDrops)] + Messages(lines[..j + 2])
      {
        var val := resultsOrderedDesc[j];
        events := events + [Message(OreEntry(val.key, val.count))];
        MessagesAppend(lines, j + 2);
      }
      assert lines[..|resultsOrderedDesc| + 2] == lines;
    }
  }

  /**
   * The 64-step walk of a core sample: a copy of the start position is
   * moved in place one unit per step, and each ore block met bumps the
   * dictionary entry for its key.
   */
  method TakeCoreSample(world: World, start: Pos, face: string) returns (quantityFound: Tally)
    ensures quantityFound == SampleTally(world, start, face)
  {
    quantityFound := [];
    var searchPos := new BlockPos(start);
    for i := 0 to Depth
      invariant searchPos.ToPos() == PosAt(start, face, i)
      invariant quantityFound == TallyOf(Found(world, start, face, i))
    {
      TallyStep(world, start, face, i);
      var foundBlock := world(searchPos.ToPos());
      if foundBlock.material == Ore && "type" in foundBlock.variant {
        var key := "ore-" + foundBlock.variant["type"];
        var q := Lookup(quantityFound, key);
        quantityFound := Store(quantityFound, key, q + 1);
      }
      MoveAlong(searchPos, face);
    }
  }

  /** The switch over the face code: one unit along the face's axis, or no move for an unknown code. */
  method MoveAlong(searchPos: BlockPos, face: string)
    modifies searchPos
    ensures searchPos.ToPos() == Step(old(searchPos.ToPos()), face)
  {
    match face
    case "north" => searchPos.Z := searchPos.Z + 1;
    case "south" => searchPos.Z := searchPos.Z - 1;
    case "east" => searchPos.X := searchPos.X - 1;
    case "west" => searchPos.X := searchPos.X + 1;
    case "up" => searchPos.Y := searchPos.Y - 1;
    case "down" => searchPos.Y := searchPos.Y + 1;
    case _ =>
  }

  // ---------------------------------------------------------------------
  // Properties of the core sample.

  /**
   * The tally holds one entry per ore key found along the walk, in order of
   * first discovery, each counting the visited positions that yield its key.
   */
  lemma SampleTallySpec(world: World, start: Pos, face: string)
    ensures var t := SampleTally(world, start, face);
      var found := Found(world, start, face, Depth);
      && DistinctKeys(t)
      && (forall k :: Lookup(t, k) == Hits(world, start, face, Depth, k))
      && (forall i :: 0 <= i < |t| ==>
            t[i].count >= 1 && t[i].count == Hits(world, start, face, Depth, t[i].key) && "ore-" <= t[i].key)
      && (forall i, j :: 0 <= i < j < |t| ==>
            t[i].key in found && t[j].key in found && FirstIndex(found, t[i].key) < FirstIndex(found, t[j].key))
      && Sum(t) <= Depth
  {
    var found := Found(world, start, face, Depth);
    var t := TallyOf(found);
    TallyOfCounts(found);
    TallyOfOrder(found);
    FoundHits(world, start, face, Depth);
    forall i | 0 <= i < |t|
      ensures t[i].count >= 1 && t[i].count == Hits(world, start, face, Depth, t[i].key) && "ore-" <= t[i].key
    {
      SampleEntry(found, t, i);
    }
  }

  lemma SampleEntry(found: seq<string>, t: Tally, i: int)
    requires t == TallyOf(found) && CountsOf(t, found) && InFirstOrder(t, found)
    requires forall i :: 0 <= i < |found| ==> "ore-" <= found[i]
    requires 0 <= i < |t|
    ensures t[i].count >= 1 && t[i].count == multiset(found)[t[i].key] && "ore-" <= t[i].key
  {
    LookupAt(t, i);
    assert t[i].key in found;
    var j :| 0 <= j < |found| && found[j] == t[i].key;
  }

  lemma ReportShape(sorted: Tally)
    ensures var lines := Report(sorted);
      && lines[0] == CoreSampleTaken
      && |lines| == (if sorted == [] then 2 else |sorted| + 2)
      && (sorted == [] <==> lines == [CoreSampleTaken, NoOreFound])
      && (sorted != [] ==> lines[1] == FoundOreNodes && lines[2..] == EntryLines(sorted))
      && (forall i :: 2 <= i < |lines| ==> lines[i] == OreEntry(sorted[i - 2].key, sorted[i - 2].count))
  {
  }

  /** The sorted tally holds exactly the tally's entries, with distinct keys and counts non-increasing. */
  lemma SortedEntries(t: Tally)
    requires DistinctKeys(t)
    ensures var sorted := SortByCountDesc(t);
      && |sorted| == |t|
      && (forall i :: 0 <= i < |sorted| ==> sorted[i] in t)
      && DistinctKeys(sorted)
      && SortedDesc(sorted)
      && (forall i :: 0 <= i < |sorted| ==> sorted[i].count == Lookup(t, sorted[i].key))
      && (forall k :: Lookup(t, k) > 0 ==> exists i :: 0 <= i < |sorted| && sorted[i] == Entry(k, Lookup(t, k)))
  {
    var sorted := SortByCountDesc(t);
    SortSpec(t);
    SortDistinct(t);
    forall i | 0 <= i < |sorted| ensures sorted[i] in t && sorted[i].count == Lookup(t, sorted[i].key) {
      assert sorted[i] in multiset(t);
      var p :| 0 <= p < |t| && t[p] == sorted[i];
      LookupAt(t, p);
    }
    forall k | Lookup(t, k) > 0 ensures exists i :: 0 <= i < |sorted| && sorted[i] == Entry(k, Lookup(t, k)) {
      var p := Find(t, k);
      assert t[p] in multiset(sorted);
      var i :| 0 <= i < |sorted| && sorted[i] == t[p];
    }
  }

  /**
   * The report of any tally with distinct keys: the header; then "no ore
   * node found" exactly when the tally is empty, otherwise "found the
   * following ore nodes" and one line per tally entry, counts
   * non-increasing.
   */
  lemma ReportOfTally(t: Tally)
    requires DistinctKeys(t)
    requires forall i :: 0 <= i < |t| ==> t[i].count >= 1
    ensures var sorted := SortByCountDesc(t);
      var lines := Report(sorted);
      && lines[0] == CoreSampleTaken
      && (t == [] <==> lines == [CoreSampleTaken, NoOreFound])
      && (t != [] ==> |lines| == |t| + 2 && lines[1] == FoundOreNodes && lines[2..] == EntryLines(sorted))
      && (forall i :: 2 <= i < |lines| ==> lines[i].OreEntry? && lines[i].count >= 1 && lines[i].count == Lookup(t, lines[i].key))
      && (forall i, j :: 2 <= i < j < |lines| ==> lines[i].key != lines[j].key && lines[i].count >= lines[j].count)
      && (forall k :: Lookup(t, k) > 0 ==> exists i :: 2 <= i < |lines| && lines[i] == OreEntry(k, Lookup(t, k)))
  {
    var sorted := SortByCountDesc(t);
    var lines := Report(sorted);
    SortedEntries(t);
    ReportShape(sorted);
    forall i | 2 <= i < |lines| ensures lines[i].count >= 1 {
      assert sorted[i - 2] in t;
    }
    forall i, j | 2 <= i < j < |lines| ensures lines[i].key != lines[j].key && lines[i].count >= lines[j].count {
      assert lines[i] == OreEntry(sorted[i - 2].key, sorted[i - 2].count);
      assert lines[j] == OreEntry(sorted[j - 2].key, sorted[j - 2].count);
    }
    forall k | Lookup(t, k) > 0 ensures exists i :: 2 <= i < |lines| && lines[i] == OreEntry(k, Lookup(t, k)) {
      var i :| 0 <= i < |sorted| && sorted[i] == Entry(k, Lookup(t, k));
      assert lines[i + 2] == OreEntry(k, Lookup(t, k));
    }
  }

  /**
   * A core sample reads only the 64 positions of the walk, the first of
   * them the broken block's own: worlds that agree there give the same tally.
   */
  lemma SampleReadsWalkOnly(w1: World, w2: World, start: Pos, face: string)
    requires forall i :: 0 <= i < Depth ==> w1(PosAt(start, face, i)) == w2(PosAt(start, face, i))
    ensures PosAt(start, face, 0) == start
    ensures SampleTally(w1, start, face) == SampleTally(w2, start, face)
  {
    FoundLocal(w1, w2, start, face, Depth);
  }

  /**
   * The report of a core sample: the header; then "no ore node found"
   * exactly when the tally is empty, otherwise "found the following ore
   * nodes" and one line per ore key found, giving how many visited
   * positions held that ore, with counts non-increasing and entries of
   * equal count in the tally's order.
   */
  lemma ReportSpec(world: World, start: Pos, face: string)
    ensures var t := SampleTally(world, start, face);
      var sorted := SortByCountDesc(t);
      var lines := Report(sorted);
      && lines[0] == CoreSampleTaken
      && (t == [] <==> lines == [CoreSampleTaken, NoOreFound])
      && (t != [] ==> |lines| == |t| + 2 && lines[1] == FoundOreNodes && lines[2..] == EntryLines(sorted))
      && (forall i :: 2 <= i < |lines| ==>
            lines[i].OreEntry? && lines[i].count >= 1 && lines[i].count == Hits(world, start, face, Depth, lines[i].key))
      && (forall i, j :: 2 <= i < j < |lines| ==>
            lines[i].key != lines[j].key && lines[i].count >= lines[j].count)
      && (forall k :: Hits(world, start, face, Depth, k) > 0 ==>
            exists i :: 2 <= i < |lines| && lines[i] == OreEntry(k, Hits(world, start, face, Depth, k)))
      && (forall c: nat :: WithCount(sorted, c) == WithCount(t, c))
  {
    var t := SampleTally(world, start, face);
    SampleTallySpec(world, start, face);
    ReportOfTally(t);
    SortSpec(t);
    var lines := Report(SortByCountDesc(t));
    forall i | 2 <= i < |lines|
      ensures lines[i].OreEntry? && lines[i].count >= 1 && lines[i].count == Hits(world, start, face, Depth, lines[i].key)
    {
      assert lines[i].count == Lookup(t, lines[i].key);
    }
  }

  /**
   * The broken block is always notified first, with the resolved player;
   * report lines follow only for a propickable block and a server player,
   * and then begin with the header.
   */
  lemma CoreSampleGating(world: World, broken: World, byEntity: Entity, sel: BlockSel)
    ensures var events := CoreSampleEvents(world, broken, byEntity, sel);
      && events[0] == BlockBroken(sel.position, ByPlayer(byEntity), 0)
      && (|events| > 1 <==> IsPropickable(world(sel.position)) && ByPlayer(byEntity) == Some(ServerPlayer))
      && (|events| > 1 ==> events[1] == Message(CoreSampleTaken) && forall i :: 1 <= i < |events| ==> events[i].Message?)
      && (byEntity.OtherEntity? ==> events == [BlockBroken(sel.position, None, 0)])
  {
  }

  /**
   * Before the notification only the broken block itself is read: worlds
   * that agree on it give the same events.
   */
  lemma GateReadsBrokenBlockOnly(w1: World, w2: World, broken: World, byEntity: Entity, sel: BlockSel)
    requires w1(sel.position) == w2(sel.position)
    ensures CoreSampleEvents(w1, broken, byEntity, sel) == CoreSampleEvents(w2, broken, byEntity, sel)
  {
  }

  /**
   * The walk starts on the broken block's own position. If the notification
   * leaves a non-ore block there and changes nothing else, the broken ore is
   * not counted and every other hit is; along a recognised face the walk
   * does not come back to the start.
   */
  lemma {:induction false} HitsAfterBreak(world: World, broken: World, start: Pos, face: string, n: nat, key: string)
    requires IsFaceCode(face)
    requires forall p :: p != start ==> broken(p) == world(p)
    requires OreKey(broken(start)) == None
    ensures Hits(world, start, face, n, key)
      == Hits(broken, start, face, n, key) + (if n > 0 && OreKey(world(start)) == Some(key) then 1 else 0)
  {
    if n > 0 {
      HitsAfterBreak(world, broken, start, face, n - 1, key);
      if n > 1 {
        WalkDistinct(start, face, n - 1, 0);
      }
    }
  }

  /**
   * If instead the notification leaves the world as it was, the broken
   * block is the walk's first position and an ore there is counted.
   */
  lemma BrokenOreCountedIfKept(world: World, start: Pos, face: string, key: string)
    requires OreKey(world(start)) == Some(key)
    ensures Hits(world, start, face, Depth, key) >= 1
    ensures Lookup(SampleTally(world, start, face), key) >= 1
  {
    HitsFirst(world, start, face, Depth, key);
    SampleTallySpec(world, start, face);
  }

  lemma {:induction false} HitsFirst(world: World, start: Pos, face: string, n: nat, key: string)
    requires n > 0 && OreKey(world(start)) == Some(key)
    ensures Hits(world, start, face, n, key) >= 1
  {
    if n > 1 {
      HitsFirst(world, start, face, n - 1, key);
    }
  }

  lemma {:induction false} FoundNone(world: World, start: Pos, face: string, n: nat)
    requires forall i :: 0 <= i < n ==> OreKey(world(PosAt(start, face, i))) == None
    ensures Found(world, start, face, n) == []
  {
    if n > 0 {
      FoundNone(world, start, face, n - 1);
    }
  }

  lemma {:induction false} FoundOnly(world: World, start: Pos, face: string, n: nat, key: string)
    requires forall i :: 0 <= i < n ==> OreKey(world(PosAt(start, face, i))) in {None, Some(key)}
    ensures forall x :: x in Found(world, start, face, n) ==> x == key
  {
    if n > 0 {
      FoundOnly(world, start, face, n - 1, key);
    }
  }

  /** With no ore along the walk the report is the header and "no ore node found". */
  lemma NoOreReport(world: World, start: Pos, face: string)
    requires forall i :: 0 <= i < Depth ==> OreKey(world(PosAt(start, face, i))) == None
    ensures Report(SortByCountDesc(SampleTally(world, start, face))) == [CoreSampleTaken, NoOreFound]
  {
    FoundNone(world, start, face, Depth);
  }

  /**
   * With a single ore along the walk, found at m positions, the report is
   * the header, "found the following ore nodes" and one line for that ore.
   */
  lemma SingleOreReport(world: World, start: Pos, face: string, key: string)
    requires forall i :: 0 <= i < Depth ==> OreKey(world(PosAt(start, face, i))) in {None, Some(key)}
    requires Hits(world, start, face, Depth, key) > 0
    ensures Report(SortByCountDesc(SampleTally(world, start, face)))
      == [CoreSampleTaken, FoundOreNodes, OreEntry(key, Hits(world, start, face, Depth, key))]
  {
    FoundOnly(world, start, face, Depth, key);
    SampleTallySpec(world, start, face);
    var found := Found(world, start, face, Depth);
    var t := SampleTally(world, start, face);
    TallyOfSame(found, key);
    assert Lookup(t, key) == |found|;
    assert SortByCountDesc(t) == t;
  }

  /** The tally of a non-empty sequence of one key is a single entry counting them. */
  lemma {:induction false} TallyOfSame(ks: seq<string>, key: string)
    requires forall x :: x in ks ==> x == key
    ensures ks != [] ==> TallyOf(ks) == [Entry(key, |ks|)]
  {
    if |ks| > 1 {
      var pre := ks[..|ks| - 1];
      assert forall x :: x in pre ==> x in ks;
      TallyOfSame(pre, key);
      assert ks[|ks| - 1] in ks;
    } else if |ks| == 1 {
      assert ks[0] in ks;
    }
  }
}
