/**
 Dig designations: the reference meaning of one DIG command, tile by tile, and
 the laws of stair shafts that follow from it.
 */
module StairShaft {

  /** df::tiletype_shape, with every shape the dig path does not distinguish folded into OtherShape. */
  datatype Shape = StairUp | StairDown | StairUpDown | OtherShape

  /** df::tile_dig_designation */
  datatype Dig = No | Default | UpDownStairDig | ChannelDig | RampDig | DownStairDig | UpStairDig

  datatype Coord = Coord(x: int, y: int, z: int) {
    function Above(): Coord { Coord(x, y, z + 1) }
    function Below(): Coord { Coord(x, y, z - 1) }
  }

  /** The carved map: a single rectangular prism of tiles. */
  datatype Terrain = Terrain(width: nat, height: nat, depth: nat, shape: Coord -> Shape) {
    predicate IsValid(p: Coord) {
      0 <= p.x < width && 0 <= p.y < height && 0 <= p.z < depth
    }
  }

  /** What is queued on each tile of the allocated map blocks; blocks are allocated lazily, so tiles may be absent. */
  type Designations = map<Coord, Dig>

  /** A validated request; `z1 <= z2` after the swap. */
  datatype Request = Request(digType: int, x1: int, y1: int, z1: int, x2: int, y2: int, z2: int) {
    predicate IsStairDig() { digType == 2 || digType == 5 || digType == 6 }
    predicate IsShaft() { z1 != z2 && IsStairDig() }

    predicate IsValid(t: Terrain) {
      && t.IsValid(Coord(x1, y1, z1)) && t.IsValid(Coord(x2, y2, z2))
      && x1 <= x2 && y1 <= y2 && z1 <= z2
    }

    predicate Contains(p: Coord) {
      x1 <= p.x <= x2 && y1 <= p.y <= y2 && z1 <= p.z <= z2
    }

    function PlainDig(): Dig {
      match digType
      case 3 => ChannelDig
      case 4 => RampDig
      case 5 => DownStairDig
      case 6 => UpStairDig
      case _ => Default
    }
  }

  predicate IsStair(s: Shape) { s != OtherShape }

  predicate IsShapeChanging(d: Dig) { d != No && d != Default }

  // A component of the vertical connection, carved or designated.
  predicate HasUp(t: Terrain, des: Designations, p: Coord)
    requires p in des
  {
    t.shape(p) in {StairUp, StairUpDown} || des[p] in {UpStairDig, UpDownStairDig}
  }

  predicate HasDown(t: Terrain, des: Designations, p: Coord)
    requires p in des
  {
    t.shape(p) in {StairDown, StairUpDown} || des[p] in {DownStairDig, UpDownStairDig}
  }

  /** stairContinuesAbove, for the tile `p` at the top of a range. */
  predicate ContinuesAbove(t: Terrain, des: Designations, p: Coord) {
    t.IsValid(p.Above()) && p.Above() in des && HasDown(t, des, p.Above())
  }

  predicate CarvedUpStairAbove(t: Terrain, p: Coord) {
    t.IsValid(p.Above()) && t.shape(p.Above()) == StairUp
  }

  /** stairContinuesBelow, for the tile `p` at the bottom of a range. */
  predicate ContinuesBelow(t: Terrain, des: Designations, p: Coord) {
    t.IsValid(p.Below()) && p.Below() in des && HasUp(t, des, p.Below())
  }

  // ---------------------------------------------------------------------
  // One tile of the request
  // ---------------------------------------------------------------------

  predicate NeedsDown(t: Terrain, des: Designations, r: Request, p: Coord) {
    if r.IsShaft() then p.z > r.z1 || ContinuesBelow(t, des, Coord(p.x, p.y, r.z1))
    else r.digType == 2 || r.digType == 5
  }

  /** A tile that gets a designation of its own rather than being handled as a carved stair. */
  predicate IsFresh(t: Terrain, r: Request, p: Coord) {
    !(r.IsStairDig() && IsStair(t.shape(p)))
  }

  predicate IsPromoted(t: Terrain, des: Designations, r: Request, p: Coord) {
    !IsFresh(t, r, p) && t.shape(p) == StairUp && NeedsDown(t, des, r, p)
  }

  predicate IsFreshTop(t: Terrain, r: Request, p: Coord) {
    r.IsShaft() && IsFresh(t, r, p) && p.z == r.z2
  }

  /** The fresh top `p` pulls a down component onto the carved up-stair above it. */
  predicate PromotesAbove(t: Terrain, des: Designations, r: Request, p: Coord) {
    IsFreshTop(t, r, p) && !ContinuesAbove(t, des, p) && CarvedUpStairAbove(t, p)
  }

  function NewDig(t: Terrain, des: Designations, r: Request, p: Coord): Dig {
    if !r.IsShaft() then r.PlainDig()
    else if p.z == r.z1 then if ContinuesBelow(t, des, p) then UpDownStairDig else UpStairDig
    else if p.z == r.z2 then
      if ContinuesAbove(t, des, p) || CarvedUpStairAbove(t, p) then UpDownStairDig else DownStairDig
    else UpDownStairDig
  }

  /** designationAt: an absent block reads as nothing queued. */
  function Pending(des: Designations, p: Coord): Dig { if p in des then des[p] else No }

  function Outcome(t: Terrain, des: Designations, r: Request, p: Coord): Dig {
    if IsFresh(t, r, p) then NewDig(t, des, r, p)
    else if IsPromoted(t, des, r, p) then UpDownStairDig
    else Pending(des, p)
  }

  /** The designation map once the tiles in `done` have been visited. */
  function ResultOver(t: Terrain, des: Designations, r: Request, done: set<Coord>): Designations {
    map p | p in des ::
      if p in done then Outcome(t, des, r, p)
      else if p.Below() in done && PromotesAbove(t, des, r, p.Below()) then UpDownStairDig
      else des[p]
  }

  function Box(r: Request): set<Coord> {
    set x, y, z | r.x1 <= x <= r.x2 && r.y1 <= y <= r.y2 && r.z1 <= z <= r.z2 :: Coord(x, y, z)
  }

  /** What one DIG command makes of the designation map. */
  function DigResult(t: Terrain, des: Designations, r: Request): Designations {
    ResultOver(t, des, r, Box(r))
  }

  // ---------------------------------------------------------------------
  // Shaft laws
  // ---------------------------------------------------------------------

  /** A shaft request over levels lo..hi of a fixed column rectangle. */
  datatype Column = Column(x1: int, y1: int, x2: int, y2: int) {
    function Shaft(digType: int, lo: int, hi: int): Request {
      Request(digType, x1, y1, lo, x2, y2, hi)
    }
  }

  predicate IsShaftOver(t: Terrain, r: Request) {
    r.IsValid(t) && r.IsShaft()
  }

  /** DigResult at one position, read off the request instead of the visited set. */
  function DigAt(t: Terrain, des: Designations, r: Request, p: Coord): Dig
    requires p in des
  {
    if r.Contains(p) then Outcome(t, des, r, p)
    else if r.Contains(p.Below()) && PromotesAbove(t, des, r, p.Below()) then UpDownStairDig
    else des[p]
  }

  lemma ResultAt(t: Terrain, des: Designations, r: Request, p: Coord)
    requires p in des
    ensures DigResult(t, des, r)[p] == DigAt(t, des, r, p)
  {
    InBox(r, p);
    InBox(r, p.Below());
  }

  lemma InBox(r: Request, p: Coord)
    ensures p in Box(r) <==> r.Contains(p)
  {
    if r.Contains(p) {
      assert p == Coord(p.x, p.y, p.z);
    }
  }

  /** `des'` is what the request makes of `des`. */
  ghost predicate Dug(t: Terrain, des: Designations, r: Request, des': Designations) {
    des'.Keys == des.Keys && forall p :: p in des ==> DugAt(t, des, r, des', p)
  }

  predicate DugAt(t: Terrain, des: Designations, r: Request, des': Designations, p: Coord) {
    p in des && p in des' && des'[p] == DigAt(t, des, r, p)
  }

  lemma ResultIsDug(t: Terrain, des: Designations, r: Request)
    ensures Dug(t, des, r, DigResult(t, des, r))
  {
    forall p | p in des ensures DugAt(t, des, r, DigResult(t, des, r), p) {
      ResultAt(t, des, r, p);
    }
  }

  lemma DugIsResult(t: Terrain, des: Designations, r: Request, des': Designations)
    requires Dug(t, des, r, des')
    ensures des' == DigResult(t, des, r)
  {
    forall p | p in des ensures des'[p] == DigResult(t, des, r)[p] {
      assert DugAt(t, des, r, des', p);
      ResultAt(t, des, r, p);
    }
  }

  /** One level of the column rectangle, at level z. */
  predicate OnLevel(k: Column, z: int, p: Coord) {
    k.x1 <= p.x <= k.x2 && k.y1 <= p.y <= k.y2 && p.z == z
  }

  /** A tile still to be dug under an absent one: a later dig that ends on it has nothing above to join. */
  predicate CutAbove(t: Terrain, des: Designations, p: Coord) {
    p in des && !IsStair(t.shape(p)) && p.Above() !in des && t.shape(p.Above()) != StairUp
  }

  /**
   A tile still to be dug over an absent one, or over a carved down-stair with no
   pending up component: a later dig that starts on it has nothing below to join.
   */
  predicate CutBelow(t: Terrain, des: Designations, p: Coord) {
    && p in des && !IsStair(t.shape(p))
    && (p.Below() !in des || (t.shape(p.Below()) == StairDown && !HasUp(t, des, p.Below())))
  }

  /** Nothing at level z is cut off from above. */
  ghost predicate UncutAbove(t: Terrain, des: Designations, k: Column, z: int) {
    forall p :: p in des && OnLevel(k, z, p) ==> !CutAbove(t, des, p)
  }

  /** Nothing at level z is cut off from below. */
  ghost predicate UncutBelow(t: Terrain, des: Designations, k: Column, z: int) {
    forall p :: p in des && OnLevel(k, z, p) ==> !CutBelow(t, des, p)
  }

  /**
   Deepening: digging [b..c] and then [a..b] equals one dig over [a..c] exactly when nothing at level b
   is cut off from above.
   */
  lemma DeepeningComposes(t: Terrain, des: Designations, k: Column, d: int, a: int, b: int, c: int)
    requires a < b < c
    requires IsShaftOver(t, k.Shaft(d, a, b)) && IsShaftOver(t, k.Shaft(d, b, c))
    ensures DigResult(t, DigResult(t, des, k.Shaft(d, b, c)), k.Shaft(d, a, b)) == DigResult(t, des, k.Shaft(d, a, c))
       <==> UncutAbove(t, des, k, b)
  {
    var mid := DigResult(t, des, k.Shaft(d, b, c));
    var last := DigResult(t, mid, k.Shaft(d, a, b));
    var whole := DigResult(t, des, k.Shaft(d, a, c));
    ResultIsDug(t, des, k.Shaft(d, b, c));
    ResultIsDug(t, mid, k.Shaft(d, a, b));
    ResultIsDug(t, des, k.Shaft(d, a, c));
    DeepeningOf(t, des, mid, last, whole, k, d, a, b, c);
  }

  lemma DeepeningOf(t: Terrain, des: Designations, mid: Designations, last: Designations, whole: Designations,
                  k: Column, d: int, a: int, b: int, c: int)
    requires a < b < c
    requires IsShaftOver(t, k.Shaft(d, a, b)) && IsShaftOver(t, k.Shaft(d, b, c))
    requires Dug(t, des, k.Shaft(d, b, c), mid) && Dug(t, mid, k.Shaft(d, a, b), last) &&
      Dug(t, des, k.Shaft(d, a, c), whole)
    ensures last == whole <==> UncutAbove(t, des, k, b)
  {
    forall p | p in des ensures last[p] == whole[p] <==> !(OnLevel(k, b, p) && CutAbove(t, des, p)) {
      DeepeningAt(t, des, mid, last, whole, k, d, a, b, c, p);
    }
    assert (forall p :: p in des ==> last[p] == whole[p]) <==> last == whole;
  }

  /** Where the block over the joint is not allocated, deepening leaves a way up that one dig would have dug. */
  lemma DeepeningCanFail()
    ensures exists t: Terrain, des: Designations, k: Column, d: int ::
      && IsShaftOver(t, k.Shaft(d, 0, 1)) && IsShaftOver(t, k.Shaft(d, 1, 2))
      && DigResult(t, DigResult(t, des, k.Shaft(d, 1, 2)), k.Shaft(d, 0, 1)) != DigResult(t, des, k.Shaft(d, 0, 2))
  {
    var t := Terrain(1, 1, 3, (p: Coord) => OtherShape);
    var des, k := map[Coord(0, 0, 0) := No, Coord(0, 0, 1) := No], Column(0, 0, 0, 0);
    var p := Coord(0, 0, 1);
    assert p in des && OnLevel(k, 1, p) && CutAbove(t, des, p);
    DeepeningComposes(t, des, k, 2, 0, 1, 2);
  }

  lemma DeepeningAt(t: Terrain, des: Designations, mid: Designations, last: Designations, whole: Designations,
                    k: Column, d: int, a: int, b: int, c: int, p: Coord)
    requires a < b < c && p in des
    requires IsShaftOver(t, k.Shaft(d, a, b)) && IsShaftOver(t, k.Shaft(d, b, c))
    requires Dug(t, des, k.Shaft(d, b, c), mid) && Dug(t, mid, k.Shaft(d, a, b), last) &&
      Dug(t, des, k.Shaft(d, a, c), whole)
    ensures p in last && p in whole && (last[p] == whole[p] <==> !(OnLevel(k, b, p) && CutAbove(t, des, p)))
  {
    assert DugAt(t, mid, k.Shaft(d, a, b), last, p);
    assert DugAt(t, des, k.Shaft(d, a, c), whole, p);
    if p.z < b {
      DeepeningBelow(t, des, mid, k, d, a, b, c, p);
    } else if p.z == b {
      DeepeningAtJoint(t, des, mid, k, d, a, b, c, p);
    } else {
      DeepeningAbove(t, des, mid, k, d, a, b, c, p);
    }
  }

  lemma DeepeningBelow(t: Terrain, des: Designations, mid: Designations, k: Column, d: int, a: int, b: int, c: int,
                       p: Coord)
    requires a < b < c && p in des && p.z < b
    requires IsShaftOver(t, k.Shaft(d, a, b)) && IsShaftOver(t, k.Shaft(d, b, c))
    requires Dug(t, des, k.Shaft(d, b, c), mid)
    ensures DigAt(t, mid, k.Shaft(d, a, b), p) == DigAt(t, des, k.Shaft(d, a, c), p)
  {
    assert DugAt(t, des, k.Shaft(d, b, c), mid, p);
    var under := Coord(p.x, p.y, a - 1);
    if under in des {
      assert DugAt(t, des, k.Shaft(d, b, c), mid, under);
    }
    assert ContinuesBelow(t, mid, Coord(p.x, p.y, a)) == ContinuesBelow(t, des, Coord(p.x, p.y, a));
  }

  lemma DeepeningAtJoint(t: Terrain, des: Designations, mid: Designations, k: Column, d: int, a: int, b: int, c: int,
                         p: Coord)
    requires a < b < c && p in des && p.z == b
    requires IsShaftOver(t, k.Shaft(d, a, b)) && IsShaftOver(t, k.Shaft(d, b, c))
    requires Dug(t, des, k.Shaft(d, b, c), mid)
    ensures DigAt(t, mid, k.Shaft(d, a, b), p) == DigAt(t, des, k.Shaft(d, a, c), p)
       <==> !(OnLevel(k, b, p) && CutAbove(t, des, p))
  {
    var upper := k.Shaft(d, b, c);
    assert DugAt(t, des, upper, mid, p);
    if upper.Contains(p) {
      if p.Above() in des {
        assert DugAt(t, des, upper, mid, p.Above());
      }
      assert ContinuesAbove(t, mid, p) <==> p.Above() in des;
    }
  }

  lemma DeepeningAbove(t: Terrain, des: Designations, mid: Designations, k: Column, d: int, a: int, b: int, c: int,
                       p: Coord)
    requires a < b < c && p in des && p.z > b
    requires IsShaftOver(t, k.Shaft(d, a, b)) && IsShaftOver(t, k.Shaft(d, b, c))
    requires Dug(t, des, k.Shaft(d, b, c), mid)
    ensures DigAt(t, mid, k.Shaft(d, a, b), p) == DigAt(t, des, k.Shaft(d, a, c), p)
  {
    var upper := k.Shaft(d, b, c);
    assert DugAt(t, des, upper, mid, p);
    if upper.Contains(p) && p.z == b + 1 {
      assert p.Below().Above() == p;
      assert ContinuesAbove(t, mid, p.Below());
    }
  }

  /** Raising: digging [a..b] and then [b..c] equals one dig exactly when nothing at level b is cut off from below. */
  lemma RaisingComposes(t: Terrain, des: Designations, k: Column, d: int, a: int, b: int, c: int)
    requires a < b < c
    requires IsShaftOver(t, k.Shaft(d, a, b)) && IsShaftOver(t, k.Shaft(d, b, c))
    ensures DigResult(t, DigResult(t, des, k.Shaft(d, a, b)), k.Shaft(d, b, c)) == DigResult(t, des, k.Shaft(d, a, c))
       <==> UncutBelow(t, des, k, b)
  {
    var mid := DigResult(t, des, k.Shaft(d, a, b));
    var last := DigResult(t, mid, k.Shaft(d, b, c));
    var whole := DigResult(t, des, k.Shaft(d, a, c));
    ResultIsDug(t, des, k.Shaft(d, a, b));
    ResultIsDug(t, mid, k.Shaft(d, b, c));
    ResultIsDug(t, des, k.Shaft(d, a, c));
    RaisingOf(t, des, mid, last, whole, k, d, a, b, c);
  }

  lemma RaisingOf(t: Terrain, des: Designations, mid: Designations, last: Designations, whole: Designations,
                  k: Column, d: int, a: int, b: int, c: int)
    requires a < b < c
    requires IsShaftOver(t, k.Shaft(d, a, b)) && IsShaftOver(t, k.Shaft(d, b, c))
    requires Dug(t, des, k.Shaft(d, a, b), mid) && Dug(t, mid, k.Shaft(d, b, c), last) &&
      Dug(t, des, k.Shaft(d, a, c), whole)
    ensures last == whole <==> UncutBelow(t, des, k, b)
  {
    forall p | p in des ensures last[p] == whole[p] <==> !(OnLevel(k, b, p) && CutBelow(t, des, p)) {
      RaisingAt(t, des, mid, last, whole, k, d, a, b, c, p);
    }
    assert (forall p :: p in des ==> last[p] == whole[p]) <==> last == whole;
  }

  lemma RaisingAt(t: Terrain, des: Designations, mid: Designations, last: Designations, whole: Designations,
                  k: Column, d: int, a: int, b: int, c: int, p: Coord)
    requires a < b < c && p in des
    requires IsShaftOver(t, k.Shaft(d, a, b)) && IsShaftOver(t, k.Shaft(d, b, c))
    requires Dug(t, des, k.Shaft(d, a, b), mid) && Dug(t, mid, k.Shaft(d, b, c), last) &&
      Dug(t, des, k.Shaft(d, a, c), whole)
    ensures p in last && p in whole && (last[p] == whole[p] <==> !(OnLevel(k, b, p) && CutBelow(t, des, p)))
  {
    assert DugAt(t, mid, k.Shaft(d, b, c), last, p);
    assert DugAt(t, des, k.Shaft(d, a, c), whole, p);
    if p.z == b {
      RaisingAtJoint(t, des, mid, k, d, a, b, c, p);
    } else if p.z < b {
      assert DugAt(t, des, k.Shaft(d, a, b), mid, p);
      RaisingBelow(t, des, mid, k, d, a, b, c, p);
    } else {
      RaisingAbove(t, des, mid, k, d, a, b, c, p);
    }
  }

  lemma RaisingAtJoint(t: Terrain, des: Designations, mid: Designations, k: Column, d: int, a: int, b: int, c: int,
                       p: Coord)
    requires a < b < c && p in des && p.z == b
    requires IsShaftOver(t, k.Shaft(d, a, b)) && IsShaftOver(t, k.Shaft(d, b, c))
    requires Dug(t, des, k.Shaft(d, a, b), mid)
    ensures DigAt(t, mid, k.Shaft(d, b, c), p) == DigAt(t, des, k.Shaft(d, a, c), p)
       <==> !(OnLevel(k, b, p) && CutBelow(t, des, p))
  {
    var lower := k.Shaft(d, a, b);
    assert DugAt(t, des, lower, mid, p);
    if lower.Contains(p) {
      assert t.IsValid(p.Below()) && p.Below().Above() == p;
      if p.Below() in des {
        assert DugAt(t, des, lower, mid, p.Below());
      }
      assert ContinuesBelow(t, mid, p) <==>
        p.Below() in des && !(t.shape(p.Below()) == StairDown && !HasUp(t, des, p.Below()));
    }
  }

  lemma RaisingBelow(t: Terrain, des: Designations, mid: Designations, k: Column, d: int, a: int, b: int, c: int,
                     p: Coord)
    requires a < b < c && p in des && p.z < b
    requires IsShaftOver(t, k.Shaft(d, a, b)) && IsShaftOver(t, k.Shaft(d, b, c))
    requires DugAt(t, des, k.Shaft(d, a, b), mid, p)
    ensures DigAt(t, mid, k.Shaft(d, b, c), p) == DigAt(t, des, k.Shaft(d, a, c), p)
  {
  }

  lemma RaisingAbove(t: Terrain, des: Designations, mid: Designations, k: Column, d: int, a: int, b: int, c: int,
                     p: Coord)
    requires a < b < c && p in des && p.z > b
    requires IsShaftOver(t, k.Shaft(d, a, b)) && IsShaftOver(t, k.Shaft(d, b, c))
    requires Dug(t, des, k.Shaft(d, a, b), mid)
    ensures DigAt(t, mid, k.Shaft(d, b, c), p) == DigAt(t, des, k.Shaft(d, a, c), p)
  {
    assert DugAt(t, des, k.Shaft(d, a, b), mid, p);
    var over := Coord(p.x, p.y, c + 1);
    if over in des {
      assert DugAt(t, des, k.Shaft(d, a, b), mid, over);
    }
    assert ContinuesAbove(t, mid, Coord(p.x, p.y, c)) == ContinuesAbove(t, des, Coord(p.x, p.y, c));
  }

  /** A repeated shaft dig changes nothing. */
  lemma ShaftIsIdempotent(t: Terrain, des: Designations, r: Request)
    requires IsShaftOver(t, r)
    ensures DigResult(t, DigResult(t, des, r), r) == DigResult(t, des, r)
  {
    var once := DigResult(t, des, r);
    ResultIsDug(t, des, r);
    forall p | p in des ensures DugAt(t, once, r, once, p) {
      assert DugAt(t, des, r, once, p);
      RepeatAt(t, des, once, r, p);
    }
    DugIsResult(t, once, r, once);
  }

  lemma RepeatAt(t: Terrain, des: Designations, once: Designations, r: Request, p: Coord)
    requires IsShaftOver(t, r) && Dug(t, des, r, once) && p in des
    ensures DigAt(t, once, r, p) == DigAt(t, des, r, p)
  {
    assert DugAt(t, des, r, once, p);
    var top, bottom := Coord(p.x, p.y, r.z2), Coord(p.x, p.y, r.z1);
    if bottom.Below() in des {
      assert DugAt(t, des, r, once, bottom.Below());
    }
    assert ContinuesBelow(t, once, bottom) == ContinuesBelow(t, des, bottom);
    if top.Above() in des {
      assert DugAt(t, des, r, once, top.Above());
    }
    assert r.Contains(top) ==> (ContinuesAbove(t, once, top) <==>
      ContinuesAbove(t, des, top) || (PromotesAbove(t, des, r, top) && top.Above() in des));
  }

  /** `des'` comes from one shaft dig over levels lo..hi. */
  ghost predicate OneDig(t: Terrain, des: Designations, k: Column, d: int, lo: int, hi: int, des': Designations) {
    lo < hi && IsShaftOver(t, k.Shaft(d, lo, hi)) && des' == DigResult(t, des, k.Shaft(d, lo, hi))
  }

  /** A shaft dug in adjacent pieces, in any order: a first piece, each next one under or on top of those before. */
  datatype Pieces = First(bottom: int, top: int) | Under(rest: Pieces, bottom: int) | OnTop(rest: Pieces, top: int) {
    function Bottom(): int { if OnTop? then rest.Bottom() else bottom }

    function Top(): int { if Under? then rest.Top() else top }

    /** Every piece after the first lies under those before. */
    predicate GoesDown() { First? || (Under? && rest.GoesDown()) }
  }

  /** `des'` comes from digging those pieces one after the other. */
  ghost predicate DugInPieces(t: Terrain, des: Designations, k: Column, d: int, pieces: Pieces, des': Designations) {
    match pieces
    case First(bottom, top) => OneDig(t, des, k, d, bottom, top, des')
    case Under(rest, bottom) => exists before ::
      DugInPieces(t, des, k, d, rest, before) && OneDig(t, before, k, d, bottom, rest.Bottom(), des')
    case OnTop(rest, top) => exists before ::
      DugInPieces(t, des, k, d, rest, before) && OneDig(t, before, k, d, rest.Top(), top, des')
  }

  /** Nothing is cut off at any level where a piece was added. */
  ghost predicate JointsHold(t: Terrain, des: Designations, k: Column, pieces: Pieces) {
    match pieces
    case First(_, _) => true
    case Under(rest, _) => JointsHold(t, des, k, rest) && UncutAbove(t, des, k, rest.Bottom())
    case OnTop(rest, _) => JointsHold(t, des, k, rest) && UncutBelow(t, des, k, rest.Top())
  }

  /** Somewhere strictly inside the levels, a tile dug from solid rock lacks a way up or down. */
  ghost predicate Broken(t: Terrain, k: Column, lo: int, hi: int, des: Designations) {
    exists p :: p in des && BrokenAt(t, k, lo, hi, des, p)
  }

  predicate BrokenAt(t: Terrain, k: Column, lo: int, hi: int, des: Designations, p: Coord)
    requires p in des
  {
    lo < p.z < hi && OnLevel(k, p.z, p) && !IsStair(t.shape(p)) && des[p] != UpDownStairDig
  }

  /** Pieces dug in any adjacent order leave the map of one dig exactly when every joint holds. */
  lemma PiecesComposeExactly(t: Terrain, des: Designations, k: Column, d: int, pieces: Pieces, des': Designations)
    requires DugInPieces(t, des, k, d, pieces, des')
    ensures OneDig(t, des, k, d, pieces.Bottom(), pieces.Top(), des') <==> JointsHold(t, des, k, pieces)
  {
    PiecesComposeOrBreak(t, des, k, d, pieces, des');
    if Broken(t, k, pieces.Bottom(), pieces.Top(), des') {
      BrokenIsNoDig(t, des, k, d, pieces.Bottom(), pieces.Top(), des');
    }
  }

  /** Inside the levels, every tile over an allocated one is allocated too. */
  ghost predicate AllocatedUpward(des: Designations, k: Column, lo: int, hi: int) {
    forall p :: p in des && lo < p.z < hi && OnLevel(k, p.z, p) ==> p.Above() in des
  }

  /** Pieces dug downward under allocated tiles are always one dig. */
  lemma PiecesFromTheTopCompose(t: Terrain, des: Designations, k: Column, d: int, pieces: Pieces, des': Designations)
    requires DugInPieces(t, des, k, d, pieces, des') && pieces.GoesDown()
    requires AllocatedUpward(des, k, pieces.Bottom(), pieces.Top())
    ensures OneDig(t, des, k, d, pieces.Bottom(), pieces.Top(), des')
  {
    PiecesComposeOrBreak(t, des, k, d, pieces, des');
    NothingIsCut(t, des, k, d, pieces, des');
  }

  lemma {:induction false} NothingIsCut(t: Terrain, des: Designations, k: Column, d: int, pieces: Pieces,
                                        des': Designations)
    requires DugInPieces(t, des, k, d, pieces, des') && pieces.GoesDown()
    requires AllocatedUpward(des, k, pieces.Bottom(), pieces.Top())
    ensures JointsHold(t, des, k, pieces)
  {
    if pieces.Under? {
      var rest := pieces.rest;
      var before :| DugInPieces(t, des, k, d, rest, before) &&
        OneDig(t, before, k, d, pieces.bottom, rest.Bottom(), des');
      PiecesComposeOrBreak(t, des, k, d, rest, before);
      NothingIsCut(t, des, k, d, rest, before);
    }
  }

  /** `des'` comes from one dig over the levels if the joints hold, and is broken inside them if not. */
  ghost predicate OneDigOrBroken(t: Terrain, des: Designations, k: Column, d: int, lo: int, hi: int, hold: bool,
                                 des': Designations) {
    lo < hi && des'.Keys == des.Keys && if hold then OneDig(t, des, k, d, lo, hi, des') else Broken(t, k, lo, hi, des')
  }

  ghost predicate KeptUnder(t: Terrain, des: Designations, k: Column, d: int,
                            inv: (int, int, bool, Designations) -> bool,
                            a: int, b: int, c: int, hold: bool, before: Designations, after: Designations)
  {
    inv(b, c, hold, before) && OneDig(t, before, k, d, a, b, after) ==>
      inv(a, c, hold && UncutAbove(t, des, k, b), after)
  }

  ghost predicate KeptOnTop(t: Terrain, des: Designations, k: Column, d: int,
                            inv: (int, int, bool, Designations) -> bool,
                            a: int, b: int, c: int, hold: bool, before: Designations, after: Designations)
  {
    inv(a, b, hold, before) && OneDig(t, before, k, d, b, c, after) ==>
      inv(a, c, hold && UncutBelow(t, des, k, b), after)
  }

  /** What the first piece establishes, and each further piece keeps, holds of the whole. */
  lemma {:induction false} PiecesKeep(t: Terrain, des: Designations, k: Column, d: int, pieces: Pieces,
                                      des': Designations,
                                      inv: (int, int, bool, Designations) -> bool)
    requires DugInPieces(t, des, k, d, pieces, des')
    requires forall lo, hi, m :: OneDig(t, des, k, d, lo, hi, m) ==> inv(lo, hi, true, m)
    requires forall a, b, c, hold, m, m' :: KeptUnder(t, des, k, d, inv, a, b, c, hold, m, m')
    requires forall a, b, c, hold, m, m' :: KeptOnTop(t, des, k, d, inv, a, b, c, hold, m, m')
    ensures inv(pieces.Bottom(), pieces.Top(), JointsHold(t, des, k, pieces), des')
  {
    match pieces
    case First(_, _) =>
    case Under(rest, bottom) =>
      var before :| DugInPieces(t, des, k, d, rest, before) && OneDig(t, before, k, d, bottom, rest.Bottom(), des');
      PiecesKeep(t, des, k, d, rest, before, inv);
      assert KeptUnder(t, des, k, d, inv, bottom, rest.Bottom(), rest.Top(), JointsHold(t, des, k, rest), before, des');
    case OnTop(rest, top) =>
      var before :| DugInPieces(t, des, k, d, rest, before) && OneDig(t, before, k, d, rest.Top(), top, des');
      PiecesKeep(t, des, k, d, rest, before, inv);
      assert KeptOnTop(t, des, k, d, inv, rest.Bottom(), rest.Top(), top, JointsHold(t, des, k, rest), before, des');
  }

  lemma PiecesComposeOrBreak(t: Terrain, des: Designations, k: Column, d: int, pieces: Pieces, des': Designations)
    requires DugInPieces(t, des, k, d, pieces, des')
    ensures OneDigOrBroken(t, des, k, d, pieces.Bottom(), pieces.Top(), JointsHold(t, des, k, pieces), des')
  {
    ghost var inv := (lo, hi, hold, m) => OneDigOrBroken(t, des, k, d, lo, hi, hold, m);
    forall a, b, c, hold, m, m' ensures KeptUnder(t, des, k, d, inv, a, b, c, hold, m, m') {
      if inv(b, c, hold, m) && OneDig(t, m, k, d, a, b, m') {
        UnderStep(t, des, m, k, d, a, b, c, hold, m');
      }
    }
    forall a, b, c, hold, m, m' ensures KeptOnTop(t, des, k, d, inv, a, b, c, hold, m, m') {
      if inv(a, b, hold, m) && OneDig(t, m, k, d, b, c, m') {
        OnTopStep(t, des, m, k, d, a, b, c, hold, m');
      }
    }
    PiecesKeep(t, des, k, d, pieces, des', inv);
  }

  lemma UnderStep(t: Terrain, des: Designations, before: Designations, k: Column, d: int, a: int, b: int, c: int,
                  hold: bool, des': Designations)
    requires OneDigOrBroken(t, des, k, d, b, c, hold, before) && OneDig(t, before, k, d, a, b, des')
    ensures OneDigOrBroken(t, des, k, d, a, c, hold && UncutAbove(t, des, k, b), des')
  {
    if hold {
      PieceUnder(t, des, before, k, d, a, b, c, des');
    } else {
      BrokenStaysAbove(t, before, k, d, a, b, c, des');
    }
  }

  lemma OnTopStep(t: Terrain, des: Designations, before: Designations, k: Column, d: int, a: int, b: int, c: int,
                  hold: bool, des': Designations)
    requires OneDigOrBroken(t, des, k, d, a, b, hold, before) && OneDig(t, before, k, d, b, c, des')
    ensures OneDigOrBroken(t, des, k, d, a, c, hold && UncutBelow(t, des, k, b), des')
  {
    if hold {
      PieceOnTop(t, des, before, k, d, a, b, c, des');
    } else {
      BrokenStaysBelow(t, before, k, d, a, b, c, des');
    }
  }

  lemma PieceUnder(t: Terrain, des: Designations, before: Designations, k: Column, d: int, a: int, b: int, c: int,
                   des': Designations)
    requires OneDig(t, des, k, d, b, c, before) && OneDig(t, before, k, d, a, b, des')
    ensures if UncutAbove(t, des, k, b) then OneDig(t, des, k, d, a, c, des') else Broken(t, k, a, c, des')
  {
    DeepeningComposes(t, des, k, d, a, b, c);
    if p :| p in des && OnLevel(k, b, p) && CutAbove(t, des, p) {
      CutAboveBreaks(t, des, before, k, d, a, b, c, des', p);
    }
  }

  lemma CutAboveBreaks(t: Terrain, des: Designations, before: Designations, k: Column, d: int, a: int, b: int, c: int,
                       des': Designations, p: Coord)
    requires p in des && OnLevel(k, b, p) && CutAbove(t, des, p)
    requires OneDig(t, des, k, d, b, c, before) && OneDig(t, before, k, d, a, b, des')
    ensures Broken(t, k, a, c, des')
  {
    ResultAt(t, before, k.Shaft(d, a, b), p);
    assert BrokenAt(t, k, a, c, des', p);
  }

  lemma PieceOnTop(t: Terrain, des: Designations, before: Designations, k: Column, d: int, a: int, b: int, c: int,
                   des': Designations)
    requires OneDig(t, des, k, d, a, b, before) && OneDig(t, before, k, d, b, c, des')
    ensures if UncutBelow(t, des, k, b) then OneDig(t, des, k, d, a, c, des') else Broken(t, k, a, c, des')
  {
    RaisingComposes(t, des, k, d, a, b, c);
    if p :| p in des && OnLevel(k, b, p) && CutBelow(t, des, p) {
      CutBelowBreaks(t, des, before, k, d, a, b, c, des', p);
    }
  }

  lemma CutBelowBreaks(t: Terrain, des: Designations, before: Designations, k: Column, d: int, a: int, b: int, c: int,
                       des': Designations, p: Coord)
    requires p in des && OnLevel(k, b, p) && CutBelow(t, des, p)
    requires OneDig(t, des, k, d, a, b, before) && OneDig(t, before, k, d, b, c, des')
    ensures Broken(t, k, a, c, des')
  {
    assert p.Below().Above() == p;
    if p.Below() in des {
      ResultAt(t, des, k.Shaft(d, a, b), p.Below());
    }
    ResultAt(t, before, k.Shaft(d, b, c), p);
    assert BrokenAt(t, k, a, c, des', p);
  }

  lemma BrokenStaysAbove(t: Terrain, before: Designations, k: Column, d: int, a: int, b: int, c: int,
                         des': Designations)
    requires Broken(t, k, b, c, before) && OneDig(t, before, k, d, a, b, des')
    ensures Broken(t, k, a, c, des')
  {
    var p :| p in before && BrokenAt(t, k, b, c, before, p);
    assert p.Below().Above() == p;
    ResultAt(t, before, k.Shaft(d, a, b), p);
    assert BrokenAt(t, k, a, c, des', p);
  }

  lemma BrokenStaysBelow(t: Terrain, before: Designations, k: Column, d: int, a: int, b: int, c: int,
                         des': Designations)
    requires Broken(t, k, a, b, before) && OneDig(t, before, k, d, b, c, des')
    ensures Broken(t, k, a, c, des')
  {
    var p :| p in before && BrokenAt(t, k, a, b, before, p);
    ResultAt(t, before, k.Shaft(d, b, c), p);
    assert BrokenAt(t, k, a, c, des', p);
  }

  lemma BrokenIsNoDig(t: Terrain, des: Designations, k: Column, d: int, a: int, c: int, des': Designations)
    requires Broken(t, k, a, c, des')
    ensures !OneDig(t, des, k, d, a, c, des')
  {
    var p :| p in des' && BrokenAt(t, k, a, c, des', p);
    if OneDig(t, des, k, d, a, c, des') {
      ResultAt(t, des, k.Shaft(d, a, c), p);
    }
  }

  // ---------------------------------------------------------------------
  // Connectivity, frame and conservation
  // ---------------------------------------------------------------------

  /** z-movement between p and the tile above it. */
  predicate Connected(t: Terrain, des: Designations, p: Coord)
    requires p in des && p.Above() in des
  {
    HasUp(t, des, p) && HasDown(t, des, p.Above())
  }

  /** Inside the range every step up connects, except exactly off a carved down-stair with no pending up component. */
  lemma ShaftConnects(t: Terrain, des: Designations, r: Request, p: Coord)
    requires IsShaftOver(t, r) && r.Contains(p) && p.z < r.z2 && p in des && p.Above() in des
    ensures Connected(t, DigResult(t, des, r), p) <==> !(t.shape(p) == StairDown && !HasUp(t, des, p))
  {
    ResultAt(t, des, r, p);
    ResultAt(t, des, r, p.Above());
  }

  /** A fresh top is joined to every stair the checks recognise above it, a fresh bottom to every one below it. */
  lemma FreshEndsAreJoined(t: Terrain, des: Designations, r: Request, p: Coord)
    requires IsShaftOver(t, r) && r.Contains(p) && IsFresh(t, r, p) && p in des
    ensures p.z == r.z2 && p.Above() in des && (ContinuesAbove(t, des, p) || CarvedUpStairAbove(t, p)) ==>
      Connected(t, DigResult(t, des, r), p)
    ensures p.z == r.z1 && p.Below() in des && ContinuesBelow(t, des, p) ==>
      p.Below().Above() == p && Connected(t, DigResult(t, des, r), p.Below())
  {
    ResultAt(t, des, r, p);
    if p.z == r.z2 && p.Above() in des {
      ResultAt(t, des, r, p.Above());
      assert p.Above().Below() == p;
    }
    if p.z == r.z1 && p.Below() in des {
      ResultAt(t, des, r, p.Below());
      assert p.Below().Above() == p;
    }
  }

  /**
   Only the box changes, and carved up-stairs directly above a fresh top; carved down and up/down
   stairs keep theirs in a stair dig.
   */
  lemma DigFrame(t: Terrain, des: Designations, r: Request, p: Coord)
    requires r.IsValid(t) && p in des
    ensures DigResult(t, des, r)[p] != des[p] ==>
      r.Contains(p) || (r.Contains(p.Below()) && IsFreshTop(t, r, p.Below()) && t.shape(p) == StairUp)
    ensures r.IsStairDig() && t.shape(p) in {StairDown, StairUpDown} ==> DigResult(t, des, r)[p] == des[p]
  {
    ResultAt(t, des, r, p);
    assert p.Below().Above() == p;
  }
}
