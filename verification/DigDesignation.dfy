/**
 applyDigDesignation and applyCancelDesignation: the loops over the map cache,
 against the tile-by-tile meaning in `StairShaft`.
 */
module DigDesignation {
  import opened Bytes
  import opened Sequences
  import opened StairShaft

  /** The counters and flags the ACK text is built from. */
  datatype Tally = Tally(designated: nat, skipped: nat, promoted: nat, converted: nat, overwritten: nat,
                         joinedAbove: bool, joinedBelow: bool)

  datatype Error = BadPayload | OutOfBounds | BadRegion | NothingDesignated | NothingToCancel

  datatype Ack = Done(tally: Tally, destroysExistingStairs: bool) | Rejected(error: Error)

  // ---------------------------------------------------------------------
  // Counting
  // ---------------------------------------------------------------------

  function Count(s: set<Coord>, f: Coord -> bool): nat {
    |set p | p in s && f(p)|
  }

  lemma CountOneMore(s: set<Coord>, f: Coord -> bool, p: Coord)
    requires p !in s
    ensures Count(s + {p}, f) == Count(s, f) + if f(p) then 1 else 0
  {
    var before := set q | q in s && f(q);
    var after := set q | q in s + {p} && f(q);
    assert after == if f(p) then before + {p} else before;
  }

  function FreshTiles(t: Terrain, r: Request): Coord -> bool {
    p => IsFresh(t, r, p)
  }

  function PromotedTiles(t: Terrain, des: Designations, r: Request): Coord -> bool {
    p => IsPromoted(t, des, r, p)
  }

  function SkippedTiles(t: Terrain, des: Designations, r: Request): Coord -> bool {
    p => !IsFresh(t, r, p) && !IsPromoted(t, des, r, p)
  }

  function TilesPromotingAbove(t: Terrain, des: Designations, r: Request): Coord -> bool {
    p => PromotesAbove(t, des, r, p)
  }

  function ConvertedTiles(t: Terrain, r: Request): Coord -> bool {
    p => !r.IsStairDig() && IsStair(t.shape(p))
  }

  function OverwrittenTiles(t: Terrain, des: Designations, r: Request): Coord -> bool {
    p => IsFresh(t, r, p) && Pending(des, p) != NewDig(t, des, r, p) && IsShapeChanging(Pending(des, p))
  }

  predicate JoinsAbove(t: Terrain, des: Designations, r: Request, p: Coord) {
    IsFreshTop(t, r, p) && (ContinuesAbove(t, des, p) || CarvedUpStairAbove(t, p))
  }

  predicate JoinsBelow(t: Terrain, des: Designations, r: Request, p: Coord) {
    r.IsShaft() && IsFresh(t, r, p) && p.z == r.z1 && ContinuesBelow(t, des, p)
  }

  /** The tally over the tiles visited so far, by what each of them is. */
  ghost function TallyOf(t: Terrain, des: Designations, r: Request, done: set<Coord>): Tally {
    Tally(
      Count(done, FreshTiles(t, r)),
      Count(done, SkippedTiles(t, des, r)),
      Count(done, PromotedTiles(t, des, r)) + Count(done, TilesPromotingAbove(t, des, r)),
      Count(done, ConvertedTiles(t, r)),
      Count(done, OverwrittenTiles(t, des, r)),
      exists p :: p in done && JoinsAbove(t, des, r, p),
      exists p :: p in done && JoinsBelow(t, des, r, p))
  }

  function Bump(n: nat, b: bool): nat { if b then n + 1 else n }

  /** What one tile adds to the tally. */
  function TallyStep(t: Terrain, des: Designations, r: Request, p: Coord, before: Tally): Tally {
    Tally(
      Bump(before.designated, IsFresh(t, r, p)),
      Bump(before.skipped, !IsFresh(t, r, p) && !IsPromoted(t, des, r, p)),
      Bump(Bump(before.promoted, IsPromoted(t, des, r, p)), PromotesAbove(t, des, r, p)),
      Bump(before.converted, !r.IsStairDig() && IsStair(t.shape(p))),
      Bump(before.overwritten,
           IsFresh(t, r, p) && Pending(des, p) != NewDig(t, des, r, p) && IsShapeChanging(Pending(des, p))),
      before.joinedAbove || JoinsAbove(t, des, r, p),
      before.joinedBelow || JoinsBelow(t, des, r, p))
  }

  lemma TallyOneMore(t: Terrain, des: Designations, r: Request, done: set<Coord>, p: Coord)
    requires p !in done
    ensures TallyOf(t, des, r, done + {p}) == TallyStep(t, des, r, p, TallyOf(t, des, r, done))
  {
    CountOneMore(done, FreshTiles(t, r), p);
    CountOneMore(done, SkippedTiles(t, des, r), p);
    CountOneMore(done, PromotedTiles(t, des, r), p);
    CountOneMore(done, TilesPromotingAbove(t, des, r), p);
    CountOneMore(done, ConvertedTiles(t, r), p);
    CountOneMore(done, OverwrittenTiles(t, des, r), p);
  }

  /** Every tile of the box is designated, skipped or promoted; each promotion above the box adds one more. */
  lemma TilesAreConserved(t: Terrain, des: Designations, r: Request, done: set<Coord>)
    ensures var tally := TallyOf(t, des, r, done);
      tally.designated + tally.skipped + tally.promoted == |done| + Count(done, TilesPromotingAbove(t, des, r))
  {
    CountPartition(done, FreshTiles(t, r), SkippedTiles(t, des, r), PromotedTiles(t, des, r));
  }

  /** designated + skipped + promoted = volume + promotions above the box. */
  lemma DigCountsItsVolume(t: Terrain, des: Designations, r: Request)
    requires r.IsValid(t)
    ensures var tally := TallyOf(t, des, r, Box(r));
      tally.designated + tally.skipped + tally.promoted ==
        (r.z2 - r.z1 + 1) * ((r.x2 - r.x1 + 1) * (r.y2 - r.y1 + 1)) + Count(Box(r), TilesPromotingAbove(t, des, r))
  {
    TilesAreConserved(t, des, r, Box(r));
    BoxVolume(r);
  }

  lemma CountPartition(s: set<Coord>, f: Coord -> bool, g: Coord -> bool, h: Coord -> bool)
    requires forall p :: p in s ==> (f(p) || g(p) || h(p)) && !(f(p) && g(p)) && !(f(p) && h(p)) && !(g(p) && h(p))
    ensures Count(s, f) + Count(s, g) + Count(s, h) == |s|
  {
    var inF, inG, inH := set p | p in s && f(p), set p | p in s && g(p), set p | p in s && h(p);
    assert s == inF + inG + inH;
    assert inF !! inG && (inF + inG) !! inH;
  }

  lemma BoxVolume(r: Request)
    requires r.x1 <= r.x2 && r.y1 <= r.y2 && r.z1 <= r.z2
    ensures |Box(r)| == (r.z2 - r.z1 + 1) * ((r.x2 - r.x1 + 1) * (r.y2 - r.y1 + 1))
    decreases r.z2 - r.z1
  {
    var area := (r.x2 - r.x1 + 1) * (r.y2 - r.y1 + 1);
    LayerArea(r.(z1 := r.z2));
    if r.z1 < r.z2 {
      BoxVolume(r.(z2 := r.z2 - 1));
      SplitOffTop(r);
      OneMoreTime(r.z2 - r.z1, area);
    } else {
      assert r == r.(z1 := r.z2);
    }
  }

  lemma LayerArea(r: Request)
    requires r.x1 <= r.x2 && r.y1 <= r.y2 && r.z1 == r.z2
    ensures |Box(r)| == (r.x2 - r.x1 + 1) * (r.y2 - r.y1 + 1)
    decreases r.x2 - r.x1
  {
    RowLength(r.(x1 := r.x2));
    if r.x1 < r.x2 {
      LayerArea(r.(x2 := r.x2 - 1));
      SplitOffLastRow(r);
      OneMoreTime(r.x2 - r.x1, r.y2 - r.y1 + 1);
    } else {
      assert r == r.(x1 := r.x2);
    }
  }

  lemma OneMoreTime(n: int, a: int)
    ensures (n + 1) * a == n * a + a
  {
  }

  lemma SplitOffTop(r: Request)
    requires r.z1 < r.z2
    ensures |Box(r)| == |Box(r.(z2 := r.z2 - 1))| + |Box(r.(z1 := r.z2))|
  {
    var rest, top := Box(r.(z2 := r.z2 - 1)), Box(r.(z1 := r.z2));
    assert Box(r) == rest + top && rest !! top;
  }

  lemma SplitOffLastRow(r: Request)
    requires r.x1 < r.x2
    ensures |Box(r)| == |Box(r.(x2 := r.x2 - 1))| + |Box(r.(x1 := r.x2))|
  {
    var rest, last := Box(r.(x2 := r.x2 - 1)), Box(r.(x1 := r.x2));
    assert Box(r) == rest + last && rest !! last;
  }

  lemma RowLength(r: Request)
    requires r.x1 == r.x2 && r.y1 <= r.y2 && r.z1 == r.z2
    ensures |Box(r)| == r.y2 - r.y1 + 1
    decreases r.y2 - r.y1
  {
    var last := Coord(r.x1, r.y2, r.z1);
    if r.y1 < r.y2 {
      var rest := r.(y2 := r.y2 - 1);
      RowLength(rest);
      assert Box(r) == Box(rest) + {last} && last !in Box(rest);
    } else {
      assert Box(r) == {last};
    }
  }

  // ---------------------------------------------------------------------
  // The loops
  // ---------------------------------------------------------------------

  // The z, x, y order of the nested loops: a row, the rows of a level, the levels of the box.

  function RowOrder(r: Request, z: int, x: int, y: int): seq<Coord>
    decreases y - r.y1
  {
    if y <= r.y1 then [] else RowOrder(r, z, x, y - 1) + [Coord(x, y - 1, z)]
  }

  function LevelOrder(r: Request, z: int, x: int): seq<Coord>
    decreases x - r.x1
  {
    if x <= r.x1 then [] else LevelOrder(r, z, x - 1) + RowOrder(r, z, x - 1, r.y2 + 1)
  }

  function BoxOrder(r: Request, z: int): seq<Coord>
    decreases z - r.z1
  {
    if z <= r.z1 then [] else BoxOrder(r, z - 1) + LevelOrder(r, z - 1, r.x2 + 1)
  }

  function Within(box: Request): Coord -> bool { (q: Coord) => box.Contains(q) }

  lemma {:induction false} RowIsListed(r: Request, z: int, x: int, y: int)
    requires r.y1 <= y
    ensures Lists(RowOrder(r, z, x, y), Within(Request(0, x, r.y1, z, x, y - 1, z)))
    decreases y - r.y1
  {
    if r.y1 < y {
      RowIsListed(r, z, x, y - 1);
      ListsConcat(RowOrder(r, z, x, y - 1), [Coord(x, y - 1, z)], Within(Request(0, x, r.y1, z, x, y - 2, z)),
                  Within(Request(0, x, y - 1, z, x, y - 1, z)), Within(Request(0, x, r.y1, z, x, y - 1, z)));
    }
  }

  lemma {:induction false} LevelIsListed(r: Request, z: int, x: int)
    requires r.x1 <= x && r.y1 <= r.y2
    ensures Lists(LevelOrder(r, z, x), Within(Request(0, r.x1, r.y1, z, x - 1, r.y2, z)))
    decreases x - r.x1
  {
    if r.x1 < x {
      LevelIsListed(r, z, x - 1);
      RowIsListed(r, z, x - 1, r.y2 + 1);
      ListsConcat(LevelOrder(r, z, x - 1), RowOrder(r, z, x - 1, r.y2 + 1),
                  Within(Request(0, r.x1, r.y1, z, x - 2, r.y2, z)),
                  Within(Request(0, x - 1, r.y1, z, x - 1, r.y2, z)),
                  Within(Request(0, r.x1, r.y1, z, x - 1, r.y2, z)));
    }
  }

  lemma {:induction false} BoxIsListed(r: Request, z: int)
    requires r.z1 <= z && r.x1 <= r.x2 && r.y1 <= r.y2
    ensures Lists(BoxOrder(r, z), Within(Request(0, r.x1, r.y1, r.z1, r.x2, r.y2, z - 1)))
    decreases z - r.z1
  {
    if r.z1 < z {
      BoxIsListed(r, z - 1);
      LevelIsListed(r, z - 1, r.x2 + 1);
      ListsConcat(BoxOrder(r, z - 1), LevelOrder(r, z - 1, r.x2 + 1),
                  Within(Request(0, r.x1, r.y1, r.z1, r.x2, r.y2, z - 2)),
                  Within(Request(0, r.x1, r.y1, z - 1, r.x2, r.y2, z - 1)),
                  Within(Request(0, r.x1, r.y1, r.z1, r.x2, r.y2, z - 1)));
    }
  }

  // ---------------------------------------------------------------------
  // Running over the tiles in order
  // ---------------------------------------------------------------------

  datatype State = State(dig: Designations, tally: Tally)

  const NO_TALLY := Tally(0, 0, 0, 0, 0, false, false)

  /** setDesignationAt: a write to a tile whose map block is not allocated is dropped. */
  function Put(des: Designations, p: Coord, d: Dig): Designations { if p in des then des[p := d] else des }

  /** What tile `p` becomes, and what it makes of the tile above it. */
  function TileWritten(t: Terrain, des: Designations, r: Request, p: Coord): Designations {
    if !IsFresh(t, r, p) && !IsPromoted(t, des, r, p) then des
    else if PromotesAbove(t, des, r, p) then Put(Put(des, p.Above(), UpDownStairDig), p, Outcome(t, des, r, p))
    else Put(des, p, Outcome(t, des, r, p))
  }

  function Step(t: Terrain, r: Request, s: State, p: Coord): State {
    State(TileWritten(t, s.dig, r, p), TallyStep(t, s.dig, r, p, s.tally))
  }

  function Run(t: Terrain, r: Request, s: State, order: seq<Coord>): State {
    if order == [] then s else Step(t, r, Run(t, r, s, order[..|order| - 1]), order[|order| - 1])
  }

  lemma {:induction false} RunConcat(t: Terrain, r: Request, s: State, a: seq<Coord>, b: seq<Coord>)
    ensures Run(t, r, s, a + b) == Run(t, r, Run(t, r, s, a), b)
  {
    if b == [] {
      assert a + b == a;
    } else {
      RunConcat(t, r, s, a, b[..|b| - 1]);
      assert (a + b)[..|a + b| - 1] == a + b[..|b| - 1];
    }
  }

  lemma RunRowStep(t: Terrain, r: Request, s: State, z: int, x: int, y: int)
    requires r.y1 <= y
    ensures Run(t, r, s, RowOrder(r, z, x, y + 1)) == Step(t, r, Run(t, r, s, RowOrder(r, z, x, y)), Coord(x, y, z))
  {
    RunConcat(t, r, s, RowOrder(r, z, x, y), [Coord(x, y, z)]);
  }

  lemma RunLevelStep(t: Terrain, r: Request, s: State, z: int, x: int)
    requires r.x1 <= x
    ensures Run(t, r, s, LevelOrder(r, z, x + 1)) ==
      Run(t, r, Run(t, r, s, LevelOrder(r, z, x)), RowOrder(r, z, x, r.y2 + 1))
  {
    RunConcat(t, r, s, LevelOrder(r, z, x), RowOrder(r, z, x, r.y2 + 1));
  }

  lemma RunBoxStep(t: Terrain, r: Request, s: State, z: int)
    requires r.z1 <= z
    ensures Run(t, r, s, BoxOrder(r, z + 1)) == Run(t, r, Run(t, r, s, BoxOrder(r, z)), LevelOrder(r, z, r.x2 + 1))
  {
    RunConcat(t, r, s, BoxOrder(r, z), LevelOrder(r, z, r.x2 + 1));
  }

  /** The state after the levels below z. */
  function LevelsRun(t: Terrain, r: Request, s: State): int -> State {
    z => Run(t, r, s, BoxOrder(r, z))
  }

  ghost predicate LevelLeads(t: Terrain, r: Request, run: int -> State, z: int) {
    run(z + 1) == Run(t, r, run(z), LevelOrder(r, z, r.x2 + 1))
  }

  ghost predicate Leads(t: Terrain, r: Request, run: int -> State) {
    forall z :: r.z1 <= z <= r.z2 ==> LevelLeads(t, r, run, z)
  }

  lemma BoxLeads(t: Terrain, r: Request, s: State)
    ensures Leads(t, r, LevelsRun(t, r, s)) && LevelsRun(t, r, s)(r.z1) == s
  {
    forall z | r.z1 <= z <= r.z2 ensures LevelLeads(t, r, LevelsRun(t, r, s), z) {
      RunBoxStep(t, r, s, z);
    }
  }

  function SetOf(order: seq<Coord>): set<Coord> { set q | q in order }

  /** What a step over a new tile of the box keeps, a run over such tiles keeps. */
  lemma {:induction false} RunKeeps(t: Terrain, r: Request, s: State, order: seq<Coord>, k: nat,
                                    inv: (set<Coord>, State) -> bool)
    requires Lists(order, Within(r)) && k <= |order| && inv({}, s)
    requires forall done, s', p :: inv(done, s') && InsideBox(r, done) && r.Contains(p) && p !in done ==>
      inv(done + {p}, Step(t, r, s', p))
    ensures inv(SetOf(order[..k]), Run(t, r, s, order[..k]))
  {
    if k == 0 {
      assert SetOf(order[..0]) == {};
    } else {
      RunKeeps(t, r, s, order, k - 1, inv);
      NextInOrder(r, order, k);
      RunSnoc(t, r, s, order, k);
    }
  }

  ghost function IsResult(t: Terrain, des: Designations, r: Request): (set<Coord>, State) -> bool {
    (done, s) => s == State(ResultOver(t, des, r, done), TallyOf(t, des, r, done))
  }

  /** Visiting tiles of the box without repeats leaves exactly the reference map and tally. */
  lemma RunIsResult(t: Terrain, des: Designations, r: Request, order: seq<Coord>, k: nat)
    requires r.IsValid(t) && Lists(order, Within(r)) && k <= |order|
    ensures Run(t, r, State(des, NO_TALLY), order[..k]) ==
      State(ResultOver(t, des, r, SetOf(order[..k])), TallyOf(t, des, r, SetOf(order[..k])))
  {
    var inv := IsResult(t, des, r);
    NothingVisited(t, des, r);
    forall done, s, p | inv(done, s) && InsideBox(r, done) && r.Contains(p) && p !in done
      ensures inv(done + {p}, Step(t, r, s, p))
    {
      OneMoreTile(t, des, r, done, p);
    }
    RunKeeps(t, r, State(des, NO_TALLY), order, k, inv);
  }

  lemma RunSnoc(t: Terrain, r: Request, s: State, order: seq<Coord>, k: nat)
    requires 0 < k <= |order|
    ensures Run(t, r, s, order[..k]) == Step(t, r, Run(t, r, s, order[..k - 1]), order[k - 1])
  {
    assert order[..k][..k - 1] == order[..k - 1];
  }

  lemma NextInOrder(r: Request, order: seq<Coord>, k: nat)
    requires Lists(order, Within(r)) && 0 < k <= |order|
    ensures SetOf(order[..k]) == SetOf(order[..k - 1]) + {order[k - 1]}
    ensures order[k - 1] !in SetOf(order[..k - 1]) && r.Contains(order[k - 1])
    ensures InsideBox(r, SetOf(order[..k - 1]))
  {
    assert order[..k] == order[..k - 1] + [order[k - 1]];
    forall q | q in order ensures r.Contains(q) {
      assert Within(r)(q);
    }
    assert order[k - 1] in order;
  }

  lemma BoxRunIsResult(t: Terrain, des: Designations, r: Request)
    requires r.IsValid(t)
    ensures Run(t, r, State(des, NO_TALLY), BoxOrder(r, r.z2 + 1)) ==
      State(DigResult(t, des, r), TallyOf(t, des, r, Box(r)))
  {
    var order := BoxOrder(r, r.z2 + 1);
    BoxIsListed(r, r.z2 + 1);
    assert Lists(order, Within(r));
    RunIsResult(t, des, r, order, |order|);
    assert order[..|order|] == order;
    forall q ensures q in SetOf(order) <==> q in Box(r) {
      InBox(r, q);
    }
    assert SetOf(order) == Box(r);
  }

  class Map {
    const terrain: Terrain
    var dig: Designations
    var smooth: Smoothing

    constructor (terrain: Terrain, dig: Designations, smooth: Smoothing)
      ensures this.terrain == terrain && this.dig == dig && this.smooth == smooth
    {
      this.terrain, this.dig, this.smooth := terrain, dig, smooth;
    }

    /** A carved stair under a stair dig: its missing down component is added, or it is skipped. */
    method HandleCarvedStair(r: Request, p: Coord, before: Tally) returns (tally: Tally)
      requires !IsFresh(terrain, r, p)
      modifies this`dig
      ensures dig == TileWritten(terrain, old(dig), r, p)
      ensures tally == TallyStep(terrain, old(dig), r, p, before)
    {
      tally := before;
      var needsDown := if r.IsShaft()
        then p.z > r.z1 || ContinuesBelow(terrain, dig, Coord(p.x, p.y, r.z1))
        else r.digType == 2 || r.digType == 5;
      if terrain.shape(p) == StairUp && needsDown {
        dig := Put(dig, p, UpDownStairDig);
        tally := tally.(promoted := tally.promoted + 1);
      } else {
        tally := tally.(skipped := tally.skipped + 1);
      }
    }

    /** Every other tile gets its designation, and may promote the carved up-stair above it. */
    method DesignateFresh(r: Request, p: Coord, before: Tally) returns (tally: Tally)
      requires IsFresh(terrain, r, p)
      modifies this`dig
      ensures dig == TileWritten(terrain, old(dig), r, p)
      ensures tally == TallyStep(terrain, old(dig), r, p, before)
    {
      tally := before;
      if !r.IsStairDig() && IsStair(terrain.shape(p)) {
        tally := tally.(converted := tally.converted + 1);
      }
      var priorDig := Pending(dig, p);
      var newDig: Dig;
      if r.IsShaft() {
        if p.z == r.z1 {
          if ContinuesBelow(terrain, dig, p) {
            newDig := UpDownStairDig;
            tally := tally.(joinedBelow := true);
          } else {
            newDig := UpStairDig;
          }
        } else if p.z == r.z2 {
          if ContinuesAbove(terrain, dig, p) {
            newDig := UpDownStairDig;
            tally := tally.(joinedAbove := true);
          } else if CarvedUpStairAbove(terrain, p) {
            dig := Put(dig, p.Above(), UpDownStairDig);
            tally := tally.(promoted := tally.promoted + 1, joinedAbove := true);
            newDig := UpDownStairDig;
          } else {
            newDig := DownStairDig;
          }
        } else {
          newDig := UpDownStairDig;
        }
      } else {
        newDig := r.PlainDig();
      }
      if priorDig != No && priorDig != newDig && IsShapeChanging(priorDig) {
        tally := tally.(overwritten := tally.overwritten + 1);
      }
      dig := Put(dig, p, newDig);
      tally := tally.(designated := tally.designated + 1);
    }

    /** The body of the innermost loop. */
    method DesignateTile(r: Request, p: Coord, before: Tally) returns (tally: Tally)
      modifies this`dig
      ensures State(dig, tally) == Step(terrain, r, State(old(dig), before), p)
    {
      if r.IsStairDig() && IsStair(terrain.shape(p)) {
        tally := HandleCarvedStair(r, p, before);
      } else {
        tally := DesignateFresh(r, p, before);
      }
    }

    method DesignateRow(r: Request, z: int, x: int, before: Tally) returns (tally: Tally)
      requires r.y1 <= r.y2
      modifies this`dig
      ensures State(dig, tally) == Run(terrain, r, State(old(dig), before), RowOrder(r, z, x, r.y2 + 1))
    {
      ghost var start := State(dig, before);
      tally := before;
      for y := r.y1 to r.y2 + 1
        invariant State(dig, tally) == Run(terrain, r, start, RowOrder(r, z, x, y))
      {
        RunRowStep(terrain, r, start, z, x, y);
        tally := DesignateTile(r, Coord(x, y, z), tally);
      }
    }

    method DesignateLevel(r: Request, z: int, before: Tally) returns (tally: Tally)
      requires r.x1 <= r.x2 && r.y1 <= r.y2
      modifies this`dig
      ensures State(dig, tally) == Run(terrain, r, State(old(dig), before), LevelOrder(r, z, r.x2 + 1))
    {
      ghost var start := State(dig, before);
      tally := before;
      for x := r.x1 to r.x2 + 1
        invariant State(dig, tally) == Run(terrain, r, start, LevelOrder(r, z, x))
      {
        RunLevelStep(terrain, r, start, z, x);
        tally := DesignateRow(r, z, x, tally);
      }
    }

    /** One more level of the run. */
    method DesignateNext(r: Request, z: int, before: Tally, ghost run: int -> State) returns (tally: Tally)
      requires r.x1 <= r.x2 && r.y1 <= r.y2 && r.z1 <= z <= r.z2
      requires Leads(terrain, r, run) && State(dig, before) == run(z)
      modifies this`dig
      ensures State(dig, tally) == run(z + 1)
    {
      assert LevelLeads(terrain, r, run, z);
      tally := DesignateLevel(r, z, before);
    }

    /** The outermost of the three nested loops. */
    method DesignateLevels(r: Request, before: Tally, ghost run: int -> State) returns (tally: Tally)
      requires r.x1 <= r.x2 && r.y1 <= r.y2 && r.z1 <= r.z2
      requires Leads(terrain, r, run) && State(dig, before) == run(r.z1)
      modifies this`dig
      ensures State(dig, tally) == run(r.z2 + 1)
    {
      tally := before;
      for z := r.z1 to r.z2 + 1
        invariant State(dig, tally) == run(z)
      {
        tally := DesignateNext(r, z, tally, run);
      }
    }

    method DesignateBox(r: Request, before: Tally) returns (tally: Tally)
      requires r.x1 <= r.x2 && r.y1 <= r.y2 && r.z1 <= r.z2
      modifies this`dig
      ensures State(dig, tally) == Run(terrain, r, State(old(dig), before), BoxOrder(r, r.z2 + 1))
    {
      ghost var run := LevelsRun(terrain, r, State(dig, before));
      BoxLeads(terrain, r, State(dig, before));
      tally := DesignateLevels(r, before, run);
    }

    /** applyDigDesignation, on the payload of a DIG command. */
    method ApplyDigDesignation(payload: seq<Byte>) returns (ack: Ack)
      modifies this`dig
      ensures match Parse(terrain, payload)
        case Bad(e) => ack == Rejected(e) && dig == old(dig)
        case Good(r) =>
          && r.IsValid(terrain)
          && dig == DigResult(terrain, old(dig), r)
          && ack.Done? && ack.tally == TallyOf(terrain, old(dig), r, Box(r))
          && (ack.destroysExistingStairs <==> LosesStairs(terrain, r))
    {
      var parsed := Parse(terrain, payload);
      if parsed.Bad? {
        return Rejected(parsed.error);
      }
      var r := parsed.request;
      var tally := DesignateBox(r, NO_TALLY);
      BoxRunIsResult(terrain, old(dig), r);
      SomethingCounted(terrain, old(dig), r);
      if tally.designated == 0 && tally.promoted == 0 && tally.skipped == 0 {
        assert false;  // the box is never empty, so this rejection is dead
        ack := Rejected(NothingDesignated);
      } else {
        ack := Done(tally, tally.converted > 0);
      }
    }

    method CancelTile(p: Coord) returns (dug: nat, smoothed: nat)
      modifies this`dig, this`smooth
      ensures dig == Put(old(dig), p, No) && smooth == if p in old(smooth) then old(smooth)[p := 0] else old(smooth)
      ensures dug == (if Pending(old(dig), p) != No then 1 else 0)
      ensures smoothed == if p in old(smooth) && old(smooth)[p] != 0 then 1 else 0
    {
      dug, smoothed := 0, 0;
      if Pending(dig, p) != No {
        dig := Put(dig, p, No);
        dug := 1;
      }
      if p in smooth && smooth[p] != 0 {
        smooth := smooth[p := 0];
        smoothed := 1;
      }
    }

    /** `done` has been cleared, out of what was there before. */
    ghost predicate HasCleared(des: Designations, marks: Smoothing, done: set<Coord>, dug: nat, smoothed: nat)
      reads this
    {
      && dig == CancelOver(des, done) && smooth == SmoothOver(marks, done)
      && dug == Count(done, IsPending(des)) && smoothed == Count(done, IsMarked(marks))
    }

    method CancelNext(p: Coord, dug0: nat, smoothed0: nat, ghost des: Designations, ghost marks: Smoothing,
                      ghost done: set<Coord>) returns (dug: nat, smoothed: nat)
      requires p !in done && HasCleared(des, marks, done, dug0, smoothed0)
      modifies this`dig, this`smooth
      ensures HasCleared(des, marks, done + {p}, dug, smoothed)
    {
      CountOneMore(done, IsPending(des), p);
      CountOneMore(done, IsMarked(marks), p);
      var d, m := CancelTile(p);
      dug, smoothed := dug0 + d, smoothed0 + m;
    }

    /** The innermost loop of applyCancelDesignation. */
    method CancelRow(r: Request, z: int, x: int, dug0: nat, smoothed0: nat, ghost des: Designations,
                     ghost marks: Smoothing,
                     ghost done0: set<Coord>) returns (dug: nat, smoothed: nat, ghost done: set<Coord>)
      requires r.IsValid(terrain) && r.z1 <= z <= r.z2 && r.x1 <= x <= r.x2
      requires Swept(r, done0, z, x, r.y1) && HasCleared(des, marks, done0, dug0, smoothed0)
      modifies this`dig, this`smooth
      ensures Swept(r, done, z, x + 1, r.y1) && HasCleared(des, marks, done, dug, smoothed)
    {
      dug, smoothed, done := dug0, smoothed0, done0;
      var y := r.y1;
      while y <= r.y2
        invariant r.y1 <= y <= r.y2 + 1
        invariant Swept(r, done, z, x, y) && HasCleared(des, marks, done, dug, smoothed)
      {
        SweepTile(r, done, z, x, y);
        dug, smoothed := CancelNext(Coord(x, y, z), dug, smoothed, des, marks, done);
        done := done + {Coord(x, y, z)};
        y := y + 1;
      }
      SweepColumn(r, done, z, x);
    }

    /** The three loops of applyCancelDesignation. */
    method CancelBox(r: Request) returns (dug: nat, smoothed: nat)
      requires r.IsValid(terrain)
      modifies this`dig, this`smooth
      ensures HasCleared(old(dig), old(smooth), Box(r), dug, smoothed)
    {
      ghost var done: set<Coord> := {};
      dug, smoothed := 0, 0;
      NothingCleared(dig, smooth);
      var z := r.z1;
      while z <= r.z2
        invariant r.z1 <= z <= r.z2 + 1
        invariant Swept(r, done, z, r.x1, r.y1) && HasCleared(old(dig), old(smooth), done, dug, smoothed)
      {
        var x := r.x1;
        while x <= r.x2
          invariant r.x1 <= x <= r.x2 + 1
          invariant Swept(r, done, z, x, r.y1) && HasCleared(old(dig), old(smooth), done, dug, smoothed)
        {
          dug, smoothed, done := CancelRow(r, z, x, dug, smoothed, old(dig), old(smooth), done);
          x := x + 1;
        }
        SweepLevel(r, done, z);
        z := z + 1;
      }
      SweptBox(r, done);
    }

    /** applyCancelDesignation, on the payload of a CANCEL command. */
    method ApplyCancelDesignation(payload: seq<Byte>) returns (reply: CancelReply)
      modifies this`dig, this`smooth
      ensures match ParseCancel(terrain, payload)
        case Bad(e) => reply == NotCancelled(e) && dig == old(dig) && smooth == old(smooth)
        case Good(r) =>
          var dug, smoothed := Count(Box(r), IsPending(old(dig))), Count(Box(r), IsMarked(old(smooth)));
          && dig == CancelOver(old(dig), Box(r)) && smooth == SmoothOver(old(smooth), Box(r))
          && reply == if dug == 0 && smoothed == 0 then NotCancelled(NothingToCancel) else Cancelled(dug, smoothed)
    {
      var parsed := ParseCancel(terrain, payload);
      if parsed.Bad? {
        return NotCancelled(parsed.error);
      }
      var dug, smoothed := CancelBox(parsed.request);
      reply := if dug == 0 && smoothed == 0 then NotCancelled(NothingToCancel) else Cancelled(dug, smoothed);
    }
  }

  /** The smooth or engrave marker of each tile, 0 for none. */
  type Smoothing = map<Coord, nat>

  datatype CancelReply = Cancelled(dig: nat, smooth: nat) | NotCancelled(error: Error)

  function CancelOver(des: Designations, done: set<Coord>): Designations {
    map p | p in des :: if p in done then No else des[p]
  }

  function SmoothOver(marks: Smoothing, done: set<Coord>): Smoothing {
    map p | p in marks :: if p in done then 0 else marks[p]
  }

  function IsPending(des: Designations): Coord -> bool { (p: Coord) => p in des && des[p] != No }

  function IsMarked(marks: Smoothing): Coord -> bool { (p: Coord) => p in marks && marks[p] != 0 }

  lemma NothingCleared(des: Designations, marks: Smoothing)
    ensures CancelOver(des, {}) == des && SmoothOver(marks, {}) == marks
    ensures Count({}, IsPending(des)) == 0 && Count({}, IsMarked(marks)) == 0
  {
    assert forall f: Coord -> bool :: Count({}, f) == 0;
  }

  /** `done` holds the tiles of the box before (x, y) on level z, in loop order. */
  ghost predicate Swept(r: Request, done: set<Coord>, z: int, x: int, y: int) {
    forall p :: p in done <==> r.Contains(p) && (p.z < z || (p.z == z && (p.x < x || (p.x == x && p.y < y))))
  }

  lemma SweepTile(r: Request, done: set<Coord>, z: int, x: int, y: int)
    requires Swept(r, done, z, x, y) && r.Contains(Coord(x, y, z))
    ensures Coord(x, y, z) !in done && Swept(r, done + {Coord(x, y, z)}, z, x, y + 1)
  {
  }

  lemma SweepColumn(r: Request, done: set<Coord>, z: int, x: int)
    requires Swept(r, done, z, x, r.y2 + 1)
    ensures Swept(r, done, z, x + 1, r.y1)
  {
  }

  lemma SweepLevel(r: Request, done: set<Coord>, z: int)
    requires Swept(r, done, z, r.x2 + 1, r.y1)
    ensures Swept(r, done, z + 1, r.x1, r.y1)
  {
  }

  lemma SweptBox(r: Request, done: set<Coord>)
    requires Swept(r, done, r.z2 + 1, r.x1, r.y1)
    ensures done == Box(r)
  {
    forall p ensures p in done <==> p in Box(r) {
      InBox(r, p);
    }
  }

  /** A non-stair dig over at least one carved stair. */
  ghost predicate LosesStairs(t: Terrain, r: Request) {
    !r.IsStairDig() && exists p :: r.Contains(p) && IsStair(t.shape(p))
  }

  /**
   A cancel over the same box undoes a dig exactly when nothing was pending in the
   box and no fresh top pulled an allocated carved up-stair above it into the shaft.
   */
  lemma CancelUndoesDig(t: Terrain, des: Designations, r: Request)
    requires r.IsValid(t)
    ensures CancelOver(DigResult(t, des, r), Box(r)) == des <==>
      forall p :: r.Contains(p) ==> Pending(des, p) == No && !(PromotesAbove(t, des, r, p) && p.Above() in des)
  {
    var dug := DigResult(t, des, r);
    var undone := CancelOver(dug, Box(r));
    ResultIsDug(t, des, r);
    if undone == des {
      forall p | r.Contains(p) ensures Pending(des, p) == No && !(PromotesAbove(t, des, r, p) && p.Above() in des) {
        InBox(r, p);
        assert p in des ==> undone[p] == des[p];
        if p.Above() in des {
          InBox(r, p.Above());
          assert DugAt(t, des, r, dug, p.Above()) && p.Above().Below() == p;
          assert undone[p.Above()] == des[p.Above()];
        }
      }
    } else {
      var p :| p in des && undone[p] != des[p];
      InBox(r, p);
      assert DugAt(t, des, r, dug, p) && p.Below().Above() == p;
      assert r.Contains(p) || r.Contains(p.Below());
    }
  }

  /** The corners of an accepted dig are accepted by a cancel exactly when they come bottom level first. */
  lemma SameCornersExactly(t: Terrain, payload: seq<Byte>)
    requires Parse(t, payload).Good?
    ensures ParseCancel(t, payload).Good? <==> ReadInt16(payload, 10) <= ReadInt16(payload, 16)
    ensures ParseCancel(t, payload).Good? ==> ParseCancel(t, payload) == Parse(t, payload)
  {
  }

  lemma NothingVisited(t: Terrain, des: Designations, r: Request)
    ensures ResultOver(t, des, r, {}) == des
    ensures TallyOf(t, des, r, {}) == NO_TALLY
  {
    assert forall f: Coord -> bool :: Count({}, f) == 0;
  }

  predicate InsideBox(r: Request, done: set<Coord>) {
    forall q :: q in done ==> r.Contains(q)
  }

  /** What a tile reads has not been touched by the tiles before it. */
  lemma SeesInitialMap(t: Terrain, des: Designations, r: Request, done: set<Coord>, p: Coord)
    requires r.IsValid(t) && r.Contains(p) && p !in done && InsideBox(r, done)
    ensures var now := ResultOver(t, des, r, done);
      && now.Keys == des.Keys && Pending(now, p) == Pending(des, p)
      && NewDig(t, now, r, p) == NewDig(t, des, r, p)
      && (IsPromoted(t, now, r, p) <==> IsPromoted(t, des, r, p))
      && (PromotesAbove(t, now, r, p) <==> PromotesAbove(t, des, r, p))
      && (forall before :: TallyStep(t, now, r, p, before) == TallyStep(t, des, r, p, before))
  {
    assert t.IsValid(p);
    assert p.Above().Below() == p;
    var now := ResultOver(t, des, r, done);
    var bottom := Coord(p.x, p.y, r.z1);
    assert ContinuesBelow(t, now, bottom) == ContinuesBelow(t, des, bottom);
    assert p.z == r.z2 ==> ContinuesAbove(t, now, p) == ContinuesAbove(t, des, p);
    assert p.z == r.z1 ==> bottom == p;
  }

  lemma OneMoreTile(t: Terrain, des: Designations, r: Request, done: set<Coord>, p: Coord)
    requires r.IsValid(t) && r.Contains(p) && p !in done && InsideBox(r, done)
    ensures Step(t, r, State(ResultOver(t, des, r, done), TallyOf(t, des, r, done)), p) ==
      State(ResultOver(t, des, r, done + {p}), TallyOf(t, des, r, done + {p}))
  {
    SeesInitialMap(t, des, r, done, p);
    TallyOneMore(t, des, r, done, p);
    WrittenIsResult(t, des, r, done, p);
  }

  lemma WrittenIsResult(t: Terrain, des: Designations, r: Request, done: set<Coord>, p: Coord)
    requires r.IsValid(t) && r.Contains(p) && p !in done && InsideBox(r, done)
    ensures TileWritten(t, ResultOver(t, des, r, done), r, p) == ResultOver(t, des, r, done + {p})
  {
    SeesInitialMap(t, des, r, done, p);
    var now := ResultOver(t, des, r, done);
    var written, expected := TileWritten(t, now, r, p), ResultOver(t, des, r, done + {p});
    forall q | q in des ensures written[q] == expected[q] {
      WrittenAt(t, des, r, done, p, q);
    }
  }

  lemma WrittenAt(t: Terrain, des: Designations, r: Request, done: set<Coord>, p: Coord, q: Coord)
    requires r.IsValid(t) && r.Contains(p) && p !in done && InsideBox(r, done) && q in des
    ensures var written := TileWritten(t, ResultOver(t, des, r, done), r, p);
      written.Keys == des.Keys && written[q] == ResultOver(t, des, r, done + {p})[q]
  {
    SeesInitialMap(t, des, r, done, p);
    assert q.Below() == p <==> q == p.Above();
  }

  lemma SomethingCounted(t: Terrain, des: Designations, r: Request)
    requires r.IsValid(t)
    ensures var tally := TallyOf(t, des, r, Box(r));
      && tally.designated + tally.skipped + tally.promoted > 0
      && (tally.converted > 0 <==> LosesStairs(t, r))
  {
    TilesAreConserved(t, des, r, Box(r));
    InBox(r, Coord(r.x1, r.y1, r.z1));
    assert |Box(r)| > 0;
    var converted := set p | p in Box(r) && ConvertedTiles(t, r)(p);
    if p :| r.Contains(p) && !r.IsStairDig() && IsStair(t.shape(p)) {
      InBox(r, p);
      assert p in converted;
    }
    if converted != {} {
      var p :| p in converted;
      InBox(r, p);
    }
  }

  // ---------------------------------------------------------------------
  // The payload
  // ---------------------------------------------------------------------

  datatype Parsed = Good(request: Request) | Bad(error: Error)

  /** [4 cmdID] [1 cmdType] [1 digType] [2 x1] [2 y1] [2 z1] [2 x2] [2 y2] [2 z2], with the z swap applied. */
  function Parse(t: Terrain, payload: seq<Byte>): Parsed {
    if |payload| < 18 then Bad(BadPayload) else
      var x1, y1, z1 := ReadInt16(payload, 6), ReadInt16(payload, 8), ReadInt16(payload, 10);
      var x2, y2, z2 := ReadInt16(payload, 12), ReadInt16(payload, 14), ReadInt16(payload, 16);
      if !t.IsValid(Coord(x1, y1, z1)) || !t.IsValid(Coord(x2, y2, z2)) then Bad(OutOfBounds)
      else if x2 < x1 || y2 < y1 then Bad(BadRegion)
      else Good(Request(payload[5], x1, y1, if z1 > z2 then z2 else z1, x2, y2, if z1 > z2 then z1 else z2))
  }

  /** The same layout; a cancel does not swap the levels. */
  function ParseCancel(t: Terrain, payload: seq<Byte>): Parsed {
    if |payload| < 18 then Bad(BadPayload) else
      var x1, y1, z1 := ReadInt16(payload, 6), ReadInt16(payload, 8), ReadInt16(payload, 10);
      var x2, y2, z2 := ReadInt16(payload, 12), ReadInt16(payload, 14), ReadInt16(payload, 16);
      if !t.IsValid(Coord(x1, y1, z1)) || !t.IsValid(Coord(x2, y2, z2)) then Bad(OutOfBounds)
      else if x2 < x1 || y2 < y1 || z2 < z1 then Bad(BadRegion)
      else Good(Request(payload[5], x1, y1, z1, x2, y2, z2))
  }
}
