/**
 remove_building: a building is named by a tile, so an ambiguous tile is
 answered with a tile, for each building there, that names it alone.
 */
module Removal {
  import opened Bytes
  import opened Options

  datatype Tile = Tile(x: int, y: int)

  datatype Pos = Pos(x: int, y: int, z: int)

  function At(t: Tile, z: int): Pos { Pos(t.x, t.y, z) }

  /** `tiles` are those Buildings::containsTile accepts; they lie in the bounding rectangle. */
  datatype Building = Building(id: int, isStockpile: bool, z: int, x1: int, y1: int, x2: int, y2: int, tiles: set<Tile>)

  /** `occupant` is Buildings::findAtTile, which never finds a stockpile. */
  datatype World = World(buildings: seq<Building>, occupant: map<Pos, Building>, xs: nat, ys: nat, zs: nat)

  /** Maps::isValidTilePos */
  predicate OnMap(w: World, p: Pos) {
    0 <= p.x < w.xs && 0 <= p.y < w.ys && 0 <= p.z < w.zs
  }

  predicate InRectangle(b: Building, t: Tile) {
    b.x1 <= t.x <= b.x2 && b.y1 <= t.y <= b.y2
  }

  /** Every building stands on the map, inside its rectangle. */
  ghost predicate Placed(w: World, b: Building) {
    && b.x1 <= b.x2 && b.y1 <= b.y2
    && OnMap(w, Pos(b.x1, b.y1, b.z)) && OnMap(w, Pos(b.x2, b.y2, b.z))
    && forall t :: t in b.tiles ==> InRectangle(b, t)
  }

  ghost predicate Sound(w: World) {
    && w.xs <= 0x7FFF && w.ys <= 0x7FFF && w.zs <= 0x7FFF
    && (forall b :: b in w.buildings ==> Placed(w, b))
    && (forall i, j :: 0 <= i < j < |w.buildings| ==> w.buildings[i] != w.buildings[j])
    && (forall p :: p in w.occupant ==> Occupies(w, w.occupant[p], p))
  }

  ghost predicate Occupies(w: World, b: Building, p: Pos) {
    b in w.buildings && !b.isStockpile && b.z == p.z && Tile(p.x, p.y) in b.tiles
  }

  // ---------------------------------------------------------------------
  // Candidates
  // ---------------------------------------------------------------------

  function Real(w: World, p: Pos): seq<Building> {
    if p in w.occupant then [w.occupant[p]] else []
  }

  /** The stockpiles of the world that cover a position, in world order. */
  function StockpilesOver(buildings: seq<Building>, p: Pos): seq<Building> {
    if buildings == [] then []
    else
      var front, b := StockpilesOver(buildings[..|buildings| - 1], p), buildings[|buildings| - 1];
      if b.isStockpile && b.z == p.z && Tile(p.x, p.y) in b.tiles then front + [b] else front
  }

  /** Everything remove_building could mean at a position. */
  function Candidates(w: World, p: Pos): seq<Building> {
    Real(w, p) + StockpilesOver(w.buildings, p)
  }

  function StockpilesAtZ(buildings: seq<Building>, z: int): seq<Building> {
    if buildings == [] then []
    else
      var front, b := StockpilesAtZ(buildings[..|buildings| - 1], z), buildings[|buildings| - 1];
      if b.isStockpile && b.z == z then front + [b] else front
  }

  function Covering(stockpiles: seq<Building>, t: Tile): seq<Building> {
    if stockpiles == [] then []
    else
      var front, b := Covering(stockpiles[..|stockpiles| - 1], t), stockpiles[|stockpiles| - 1];
      if t in b.tiles then front + [b] else front
  }

  /** Scanning the stockpiles of one level gives what scanning the world at each tile would. */
  lemma {:induction false} HoistedListIsEnough(buildings: seq<Building>, p: Pos)
    ensures Covering(StockpilesAtZ(buildings, p.z), Tile(p.x, p.y)) == StockpilesOver(buildings, p)
  {
    if buildings != [] {
      var b := buildings[|buildings| - 1];
      var front := StockpilesAtZ(buildings[..|buildings| - 1], p.z);
      HoistedListIsEnough(buildings[..|buildings| - 1], p);
      assert (front + [b])[..|front|] == front;
    }
  }

  // ---------------------------------------------------------------------
  // The command
  // ---------------------------------------------------------------------

  datatype Hint = Hint(building: Building, tile: Option<Tile>)

  datatype Reply =
    | OutOfBounds
    | NothingThere
    | Ambiguous(hints: seq<Hint>)
    | RemovedInstantly(building: Building)
    | DeconstructionQueued(building: Building)

  /** A tile of the building's footprint where it is the only candidate. */
  predicate NamesAlone(w: World, b: Building, t: Tile) {
    t in b.tiles && Candidates(w, At(t, b.z)) == [b]
  }

  /** Row by row, as the search goes. */
  predicate Before(a: Tile, b: Tile) { a.y < b.y || (a.y == b.y && a.x < b.x) }

  /** The hint is the first tile that names the building alone, and there is none only if no tile does. */
  ghost predicate IsHint(w: World, b: Building, hint: Option<Tile>) {
    && (hint.Some? ==> NamesAlone(w, b, hint.value))
    && (if hint.Some? then NoneBefore(w, b, hint.value) else forall t :: !NamesAlone(w, b, t))
  }

  ghost predicate NoneBefore(w: World, b: Building, edge: Tile) {
    forall t :: NamesAlone(w, b, t) ==> !Before(t, edge)
  }

  lemma StartsBeforeAll(w: World, b: Building)
    requires Placed(w, b)
    ensures NoneBefore(w, b, Tile(b.x1, b.y1))
  {
    forall t | NamesAlone(w, b, t) ensures !Before(t, Tile(b.x1, b.y1)) {
      assert InRectangle(b, t);
    }
  }

  lemma PastTile(w: World, b: Building, x: int, y: int)
    requires NoneBefore(w, b, Tile(x, y)) && !NamesAlone(w, b, Tile(x, y))
    ensures NoneBefore(w, b, Tile(x + 1, y))
  {
    forall t | NamesAlone(w, b, t) ensures !Before(t, Tile(x + 1, y)) {
      assert !Before(t, Tile(x, y)) && t != Tile(x, y);
    }
  }

  lemma PastRow(w: World, b: Building, y: int)
    requires Placed(w, b) && NoneBefore(w, b, Tile(b.x2 + 1, y))
    ensures NoneBefore(w, b, Tile(b.x1, y + 1))
  {
    forall t | NamesAlone(w, b, t) ensures !Before(t, Tile(b.x1, y + 1)) {
      assert InRectangle(b, t) && !Before(t, Tile(b.x2 + 1, y));
    }
  }

  lemma NoneLeft(w: World, b: Building)
    requires Placed(w, b) && NoneBefore(w, b, Tile(b.x1, b.y2 + 1))
    ensures forall t :: !NamesAlone(w, b, t)
  {
    forall t ensures !NamesAlone(w, b, t) {
      assert NamesAlone(w, b, t) ==> InRectangle(b, t) && !Before(t, Tile(b.x1, b.y2 + 1));
    }
  }

  function WithoutBuilding(w: World, b: Building): World {
    w.(buildings := Without(w.buildings, b), occupant := map p | p in w.occupant && w.occupant[p] != b :: w.occupant[p])
  }

  function Without(buildings: seq<Building>, b: Building): seq<Building> {
    if buildings == [] then []
    else
      var front, last := Without(buildings[..|buildings| - 1], b), buildings[|buildings| - 1];
      if last == b then front else front + [last]
  }

  /** static_cast<int16_t> of a coordinate */
  function Narrow(v: int): (r: Int16)
    ensures -0x8000 <= v < 0x8000 ==> r == v
  {
    ToInt16(v)
  }

  class Fort {
    var world: World
    var queued: seq<Building>

    constructor (world: World)
      requires Sound(world)
      ensures this.world == world && queued == []
    {
      this.world, queued := world, [];
    }

    method CollectStockpilesAtZ(z: int) returns (out: seq<Building>)
      ensures out == StockpilesAtZ(world.buildings, z)
    {
      out := [];
      for i := 0 to |world.buildings|
        invariant out == StockpilesAtZ(world.buildings[..i], z)
      {
        assert world.buildings[..i + 1][..i] == world.buildings[..i];
        if world.buildings[i].isStockpile && world.buildings[i].z == z {
          out := out + [world.buildings[i]];
        }
      }
      assert world.buildings[..|world.buildings|] == world.buildings;
    }

    method CollectRemovalCandidatesFrom(p: Pos, stockpiles: seq<Building>) returns (out: seq<Building>)
      ensures out == Real(world, p) + Covering(stockpiles, Tile(p.x, p.y))
    {
      out := if p in world.occupant then [world.occupant[p]] else [];
      for i := 0 to |stockpiles|
        invariant out == Real(world, p) + Covering(stockpiles[..i], Tile(p.x, p.y))
      {
        assert stockpiles[..i + 1][..i] == stockpiles[..i];
        if Tile(p.x, p.y) in stockpiles[i].tiles {
          out := out + [stockpiles[i]];
        }
      }
      assert stockpiles[..|stockpiles|] == stockpiles;
    }

    method CollectRemovalCandidates(p: Pos) returns (out: seq<Building>)
      ensures out == Candidates(world, p)
    {
      var stockpiles := CollectStockpilesAtZ(p.z);
      out := CollectRemovalCandidatesFrom(p, stockpiles);
      HoistedListIsEnough(world.buildings, p);
    }

    /** findUnambiguousTileFor */
    method FindUnambiguousTileFor(target: Building) returns (hint: Option<Tile>)
      requires Sound(world) && target in world.buildings
      ensures IsHint(world, target, hint)
    {
      assert Placed(world, target);
      var stockpiles := CollectStockpilesAtZ(target.z);
      var x1, y1 := Narrow(target.x1), Narrow(target.y1);
      var x2, y2 := Narrow(target.x2), Narrow(target.y2);
      var y := y1;
      StartsBeforeAll(world, target);
      while y <= y2
        invariant y1 <= y <= y2 + 1
        invariant NoneBefore(world, target, Tile(x1, y))
        decreases y2 - y
      {
        var x := x1;
        while x <= x2
          invariant x1 <= x <= x2 + 1
          invariant NoneBefore(world, target, Tile(x, y))
          decreases x2 - x
        {
          var here := IsAlone(target, Tile(x, y), stockpiles);
          if here {
            return Some(Tile(x, y));
          }
          PastTile(world, target, x, y);
          x := Narrow(x + 1);
        }
        PastRow(world, target, y);
        y := Narrow(y + 1);
      }
      NoneLeft(world, target);
      hint := None;
    }

    /** The test inside the search. */
    method IsAlone(target: Building, t: Tile, stockpiles: seq<Building>) returns (alone: bool)
      requires stockpiles == StockpilesAtZ(world.buildings, target.z) && -0x8000 <= target.z < 0x8000
      ensures alone == NamesAlone(world, target, t)
    {
      if t !in target.tiles {
        return false;
      }
      var z := Narrow(target.z);
      var candidates := CollectRemovalCandidatesFrom(At(t, z), stockpiles);
      HoistedListIsEnough(world.buildings, At(t, target.z));
      assert Tile(t.x, t.y) == t;
      alone := |candidates| == 1 && candidates[0] == target;
    }

    /** A tile, where there is one, for each building the position could mean. */
    method CollectHints(candidates: seq<Building>) returns (hints: seq<Hint>)
      requires Sound(world) && forall b :: b in candidates ==> b in world.buildings
      ensures AreHints(world, candidates, hints)
    {
      hints := [];
      for i := 0 to |candidates|
        invariant AreHints(world, candidates[..i], hints)
      {
        var tile := FindUnambiguousTileFor(candidates[i]);
        HintAdded(world, candidates[..i], hints, candidates[i], tile);
        assert candidates[..i + 1] == candidates[..i] + [candidates[i]];
        hints := hints + [Hint(candidates[i], tile)];
      }
      assert candidates[..|candidates|] == candidates;
    }

    /** applyRemoveBuilding; `instant` is what Buildings::deconstruct answers. */
    method ApplyRemoveBuilding(x: Int16, y: Int16, z: Int16, instant: bool) returns (reply: Reply)
      requires Sound(world)
      modifies this
      ensures var was, p := old(world), Pos(x, y, z);
        && IsReply(was, p, instant, reply)
        && world == Next(was, Command(p, instant))
        && queued == (if reply.DeconstructionQueued? then old(queued) + [reply.building] else old(queued))
    {
      var p := Pos(x, y, z);
      if !OnMap(world, p) {
        return OutOfBounds;
      }
      var candidates := CollectRemovalCandidates(p);
      if |candidates| == 0 {
        return NothingThere;
      }
      CandidatesAreBuildings(world, p);
      if |candidates| > 1 {
        var hints := CollectHints(candidates);
        return Ambiguous(hints);
      }
      assert candidates == [candidates[0]];
      if instant {
        world := WithoutBuilding(world, candidates[0]);
        reply := RemovedInstantly(candidates[0]);
      } else {
        queued := queued + [candidates[0]];
        reply := DeconstructionQueued(candidates[0]);
      }
    }
  }

  ghost predicate AreHints(w: World, candidates: seq<Building>, hints: seq<Hint>) {
    |hints| == |candidates|
    && forall i :: 0 <= i < |hints| ==> hints[i].building == candidates[i] && IsHint(w, candidates[i], hints[i].tile)
  }

  lemma HintAdded(w: World, candidates: seq<Building>, hints: seq<Hint>, b: Building, tile: Option<Tile>)
    requires AreHints(w, candidates, hints) && IsHint(w, b, tile)
    ensures AreHints(w, candidates + [b], hints + [Hint(b, tile)])
  {
  }

  ghost predicate IsReply(w: World, p: Pos, instant: bool, reply: Reply) {
    var candidates := Candidates(w, p);
    match reply
    case OutOfBounds => !OnMap(w, p)
    case NothingThere => OnMap(w, p) && candidates == []
    case Ambiguous(hints) => OnMap(w, p) && |candidates| > 1 && AreHints(w, candidates, hints)
    case RemovedInstantly(b) => OnMap(w, p) && candidates == [b] && instant
    case DeconstructionQueued(b) => OnMap(w, p) && candidates == [b] && !instant
  }

  lemma {:induction false} StockpilesOverMembers(buildings: seq<Building>, p: Pos, b: Building)
    ensures b in StockpilesOver(buildings, p) <==>
      b in buildings && b.isStockpile && b.z == p.z && Tile(p.x, p.y) in b.tiles
  {
    if buildings != [] {
      var n := |buildings| - 1;
      StockpilesOverMembers(buildings[..n], p, b);
      assert buildings == buildings[..n] + [buildings[n]];
    }
  }

  lemma CandidatesAreBuildings(w: World, p: Pos)
    requires Sound(w)
    ensures forall b :: b in Candidates(w, p) ==> b in w.buildings && b.z == p.z && Tile(p.x, p.y) in b.tiles
  {
    forall b | b in Candidates(w, p) ensures b in w.buildings && b.z == p.z && Tile(p.x, p.y) in b.tiles {
      if b in Real(w, p) {
        assert Occupies(w, b, p);
      } else {
        StockpilesOverMembers(w.buildings, p, b);
      }
    }
  }

  // ---------------------------------------------------------------------
  // What a hint is worth
  // ---------------------------------------------------------------------

  /** Reissuing the command at a hinted tile, on the level of the first one, takes down exactly that building. */
  lemma ReissuingHits(w: World, p: Pos, hints: seq<Hint>, i: nat, instant: bool, reply: Reply)
    requires Sound(w) && IsReply(w, p, instant, Ambiguous(hints))
    requires i < |hints| && hints[i].tile.Some? && IsReply(w, At(hints[i].tile.value, p.z), instant, reply)
    ensures reply == if instant then RemovedInstantly(hints[i].building) else DeconstructionQueued(hints[i].building)
  {
    var b, t := hints[i].building, hints[i].tile.value;
    CandidatesAreBuildings(w, p);
    assert b in Candidates(w, p) && b.z == p.z && IsHint(w, b, hints[i].tile);
    assert Placed(w, b) && InRectangle(b, t) && OnMap(w, At(t, p.z));
  }

  /** A building is given a tile exactly when some position on the map means it alone. */
  lemma HintedExactly(w: World, b: Building, hint: Option<Tile>)
    requires Sound(w) && b in w.buildings && IsHint(w, b, hint)
    ensures hint.Some? <==> exists p :: OnMap(w, p) && Candidates(w, p) == [b]
  {
    assert Placed(w, b);
    if hint.Some? {
      assert InRectangle(b, hint.value);
      assert OnMap(w, At(hint.value, b.z)) && Candidates(w, At(hint.value, b.z)) == [b];
    }
    if p :| OnMap(w, p) && Candidates(w, p) == [b] {
      CandidatesAreBuildings(w, p);
      assert b in Candidates(w, p) && At(Tile(p.x, p.y), b.z) == p;
      assert NamesAlone(w, b, Tile(p.x, p.y));
    }
  }

  /** A removal at the tile could mean the building. */
  ghost predicate Covers(w: World, b: Building, t: Tile, z: int) {
    if b.isStockpile then b in w.buildings && b.z == z && t in b.tiles
    else At(t, z) in w.occupant && w.occupant[At(t, z)] == b
  }

  ghost predicate Distinct(s: seq<Building>) {
    forall i, j :: 0 <= i < j < |s| ==> s[i] != s[j]
  }

  lemma {:induction false} StockpilesOverDistinct(buildings: seq<Building>, p: Pos)
    requires Distinct(buildings)
    ensures Distinct(StockpilesOver(buildings, p))
  {
    if buildings != [] {
      var n := |buildings| - 1;
      var front := StockpilesOver(buildings[..n], p);
      StockpilesOverDistinct(buildings[..n], p);
      forall i | 0 <= i < |front| ensures front[i] != buildings[n] {
        StockpilesOverMembers(buildings[..n], p, front[i]);
        assert front[i] in buildings[..n];
      }
    }
  }

  lemma CandidatesAreCovers(w: World, t: Tile, z: int, b: Building)
    requires Sound(w)
    ensures b in Candidates(w, At(t, z)) <==> Covers(w, b, t, z)
  {
    var p := At(t, z);
    assert Tile(p.x, p.y) == t;
    StockpilesOverMembers(w.buildings, p, b);
    if p in w.occupant {
      assert Occupies(w, w.occupant[p], p);
    }
  }

  lemma FirstTwoDiffer(s: seq<Building>)
    requires Distinct(s)
    ensures |s| <= 1 || s[0] != s[1]
  {
  }

  /** The tile names the building alone exactly when it covers the tile and nothing else does. */
  lemma NamesAloneExactly(w: World, b: Building, t: Tile)
    requires Sound(w) && b in w.buildings
    ensures NamesAlone(w, b, t) <==> Covers(w, b, t, b.z) && forall c :: Covers(w, c, t, b.z) ==> c == b
  {
    var candidates := Candidates(w, At(t, b.z));
    CandidatesAreCovers(w, t, b.z, b);
    if NamesAlone(w, b, t) {
      assert b in candidates;
      forall c | Covers(w, c, t, b.z) ensures c == b {
        CandidatesAreCovers(w, t, b.z, c);
      }
    }
    if Covers(w, b, t, b.z) && forall c :: Covers(w, c, t, b.z) ==> c == b {
      forall i | 0 <= i < |candidates| ensures candidates[i] == b {
        CandidatesAreCovers(w, t, b.z, candidates[i]);
        assert candidates[i] in candidates;
      }
      CandidatesDistinct(w, At(t, b.z));
      CandidatesAreBuildings(w, At(t, b.z));
      FirstTwoDiffer(candidates);
      assert candidates == [b];
    }
  }

  lemma CandidatesDistinct(w: World, p: Pos)
    requires Sound(w)
    ensures Distinct(Candidates(w, p))
  {
    var piles := StockpilesOver(w.buildings, p);
    StockpilesOverDistinct(w.buildings, p);
    forall j | 0 <= j < |piles| ensures piles[j].isStockpile {
      StockpilesOverMembers(w.buildings, p, piles[j]);
    }
    if p in w.occupant {
      assert Occupies(w, w.occupant[p], p);
    }
  }

  // ---------------------------------------------------------------------
  // Runs of remove_building
  // ---------------------------------------------------------------------

  /** `instant` also stands for a queued deconstruction that the dwarves have finished. */
  datatype Command = Command(p: Pos, instant: bool)

  function Next(w: World, c: Command): World {
    var candidates := Candidates(w, c.p);
    if OnMap(w, c.p) && |candidates| == 1 && c.instant then WithoutBuilding(w, candidates[0]) else w
  }

  function Run(w: World, commands: seq<Command>): World {
    if commands == [] then w
    else Next(Run(w, commands[..|commands| - 1]), commands[|commands| - 1])
  }

  lemma {:induction false} WithoutMembers(buildings: seq<Building>, b: Building, c: Building)
    ensures c in Without(buildings, b) <==> c in buildings && c != b
  {
    if buildings != [] {
      var n := |buildings| - 1;
      WithoutMembers(buildings[..n], b, c);
      assert buildings == buildings[..n] + [buildings[n]];
    }
  }

  lemma {:induction false} WithoutDistinct(buildings: seq<Building>, b: Building)
    requires Distinct(buildings)
    ensures Distinct(Without(buildings, b))
  {
    if buildings != [] {
      var n := |buildings| - 1;
      var front := Without(buildings[..n], b);
      WithoutDistinct(buildings[..n], b);
      forall i | 0 <= i < |front| ensures front[i] != buildings[n] {
        WithoutMembers(buildings[..n], b, front[i]);
        assert front[i] in buildings[..n];
      }
    }
  }

  lemma RemovalKeepsSound(w: World, b: Building)
    requires Sound(w)
    ensures Sound(WithoutBuilding(w, b))
  {
    var v := WithoutBuilding(w, b);
    assert Distinct(w.buildings);
    WithoutDistinct(w.buildings, b);
    forall c | c in v.buildings ensures Placed(v, c) {
      WithoutMembers(w.buildings, b, c);
      assert Placed(w, c);
    }
    forall p | p in v.occupant ensures Occupies(v, v.occupant[p], p) {
      assert Occupies(w, w.occupant[p], p);
      WithoutMembers(w.buildings, b, v.occupant[p]);
    }
    assert Distinct(v.buildings);
  }

  /**
   Everything a removal at one of the group's tiles could mean: each tile that means a member means
   another one too.
   */
  ghost predicate Stuck(w: World, group: set<Building>) {
    forall b :: b in group ==> b in w.buildings && Shadowed(w, group, b)
  }

  ghost predicate Shadowed(w: World, group: set<Building>, b: Building) {
    forall t :: Covers(w, b, t, b.z) ==> exists c :: c in group && c != b && Covers(w, c, t, b.z)
  }

  lemma CoversAfterRemoval(w: World, gone: Building, b: Building, t: Tile, z: int)
    ensures Covers(WithoutBuilding(w, gone), b, t, z) <==> b != gone && Covers(w, b, t, z)
  {
    WithoutMembers(w.buildings, gone, b);
  }

  /** What a command removes covers some tile alone. */
  lemma RemovedCoversAlone(w: World, c: Command)
    requires Sound(w) && Next(w, c) != w
    ensures var gone, t := Candidates(w, c.p)[0], Tile(c.p.x, c.p.y);
      && gone in w.buildings && gone.z == c.p.z && Next(w, c) == WithoutBuilding(w, gone)
      && Covers(w, gone, t, gone.z) && forall b :: Covers(w, b, t, gone.z) ==> b == gone
  {
    var gone, t := Candidates(w, c.p)[0], Tile(c.p.x, c.p.y);
    CandidatesAreBuildings(w, c.p);
    assert gone in Candidates(w, c.p) && At(t, gone.z) == c.p && Candidates(w, c.p) == [gone];
    NamesAloneExactly(w, gone, t);
  }

  /** A removal takes no member of a stuck group, and leaves the group stuck. */
  lemma StuckIsKept(w: World, group: set<Building>, c: Command)
    requires Sound(w) && Stuck(w, group)
    ensures Sound(Next(w, c)) && Stuck(Next(w, c), group)
  {
    if Next(w, c) != w {
      var gone, t := Candidates(w, c.p)[0], Tile(c.p.x, c.p.y);
      RemovedCoversAlone(w, c);
      RemovalKeepsSound(w, gone);
      assert gone !in group by {
        assert gone in group ==> Shadowed(w, group, gone);
      }
      forall b | b in group ensures b in Next(w, c).buildings && Shadowed(Next(w, c), group, b) {
        WithoutMembers(w.buildings, gone, b);
        ShadowIsKept(w, group, b, gone);
      }
    }
  }

  lemma ShadowIsKept(w: World, group: set<Building>, b: Building, gone: Building)
    requires Shadowed(w, group, b) && gone !in group && b in group
    ensures Shadowed(WithoutBuilding(w, gone), group, b)
  {
    var v := WithoutBuilding(w, gone);
    forall t | Covers(v, b, t, b.z) ensures exists c :: c in group && c != b && Covers(v, c, t, b.z) {
      CoversAfterRemoval(w, gone, b, t, b.z);
      var c :| c in group && c != b && Covers(w, c, t, b.z);
      CoversAfterRemoval(w, gone, c, t, b.z);
    }
  }

  lemma {:induction false} StuckOutlivesEveryRun(w: World, group: set<Building>, commands: seq<Command>)
    requires Sound(w) && Stuck(w, group)
    ensures Sound(Run(w, commands)) && Stuck(Run(w, commands), group)
  {
    if commands != [] {
      StuckOutlivesEveryRun(w, group, commands[..|commands| - 1]);
      StuckIsKept(Run(w, commands[..|commands| - 1]), group, commands[|commands| - 1]);
    }
  }

  ghost predicate Survives(w: World, b: Building) {
    forall commands :: b in Run(w, commands).buildings
  }

  /** A building survives every run of the command exactly when it is in a stuck group. */
  lemma SurvivesExactly(w: World, b: Building)
    requires Sound(w)
    ensures Survives(w, b) <==> exists group :: Stuck(w, group) && b in group
  {
    if group :| Stuck(w, group) && b in group {
      forall commands ensures b in Run(w, commands).buildings {
        StuckOutlivesEveryRun(w, group, commands);
      }
    } else {
      var commands := RemovingRun(w, b);
      assert b !in Run(w, commands).buildings;
    }
  }

  /** Unless it is in a stuck group, a building can be reached by removing one building after another. */
  lemma {:induction false} RemovingRun(w: World, b: Building) returns (commands: seq<Command>)
    requires Sound(w) && !exists group :: Stuck(w, group) && b in group
    ensures b !in Run(w, commands).buildings
    decreases |w.buildings|
  {
    var all := set x | x in w.buildings;
    if b !in w.buildings {
      commands := [];
    } else {
      assert !Stuck(w, all);
      var x :| x in w.buildings && !Shadowed(w, all, x);
      var c := RemovingCommand(w, x);
      var v := Next(w, c);
      RemovalKeepsSound(w, x);
      WithoutSize(w.buildings, x);
      if x == b {
        WithoutMembers(w.buildings, b, b);
        commands := [c];
        RunFront(w, c, []);
      } else {
        forall group ensures !(Stuck(v, group) && b in group) {
          StuckBefore(w, x, group);
        }
        var rest := RemovingRun(v, b);
        commands := [c] + rest;
        RunFront(w, c, rest);
      }
    }
  }

  lemma RemovingCommand(w: World, x: Building) returns (c: Command)
    requires Sound(w) && x in w.buildings && !Shadowed(w, (set y | y in w.buildings), x)
    ensures Next(w, c) == WithoutBuilding(w, x)
  {
    var t :| Covers(w, x, t, x.z) && !exists y :: y in w.buildings && y != x && Covers(w, y, t, x.z);
    forall y | Covers(w, y, t, x.z) ensures y == x {
      assert At(t, x.z) in w.occupant ==> Occupies(w, w.occupant[At(t, x.z)], At(t, x.z));
    }
    NamesAloneExactly(w, x, t);
    assert Placed(w, x) && InRectangle(x, t);
    c := Command(At(t, x.z), true);
  }

  /** Taking a building away makes no group stuck. */
  lemma StuckBefore(w: World, gone: Building, group: set<Building>)
    ensures Stuck(WithoutBuilding(w, gone), group) ==> Stuck(w, group)
  {
    var v := WithoutBuilding(w, gone);
    if Stuck(v, group) {
      forall b | b in group ensures b in w.buildings && Shadowed(w, group, b) {
        WithoutMembers(w.buildings, gone, b);
        assert Shadowed(v, group, b);
        forall t | Covers(w, b, t, b.z) ensures exists c :: c in group && c != b && Covers(w, c, t, b.z) {
          CoversAfterRemoval(w, gone, b, t, b.z);
          var c :| c in group && c != b && Covers(v, c, t, b.z);
          CoversAfterRemoval(w, gone, c, t, b.z);
        }
      }
    }
  }

  lemma {:induction false} WithoutSize(buildings: seq<Building>, b: Building)
    ensures |Without(buildings, b)| <= |buildings| - if b in buildings then 1 else 0
  {
    if buildings != [] {
      var n := |buildings| - 1;
      WithoutSize(buildings[..n], b);
      assert buildings == buildings[..n] + [buildings[n]];
    }
  }

  lemma {:induction false} RunFront(w: World, c: Command, rest: seq<Command>)
    ensures Run(w, [c] + rest) == Run(Next(w, c), rest)
  {
    if rest == [] {
      assert [c] + rest == [c] && [c][..0] == [];
    } else {
      RunFront(w, c, rest[..|rest| - 1]);
      assert ([c] + rest)[..|rest|] == [c] + rest[..|rest| - 1];
    }
  }

  /**
   Two stockpiles of one shape are a stuck group: the advice to remove an overlapping one first cannot
   be followed.
   */
  lemma TwinsOutliveEveryRun(w: World, a: Building, b: Building, commands: seq<Command>)
    requires Sound(w) && a in w.buildings && b in w.buildings && a != b
    requires a.isStockpile && b.isStockpile && a.z == b.z && a.tiles == b.tiles
    ensures a in Run(w, commands).buildings && b in Run(w, commands).buildings
  {
    assert Stuck(w, {a, b});
    StuckOutlivesEveryRun(w, {a, b}, commands);
  }
}
