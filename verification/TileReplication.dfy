/**
 Tile replication: the packed-key cache behind the delta stream, the full state
 that bypasses it, and the peer that replays both.
 */
module TileReplication {
  import opened Bits
  import opened Bytes
  import opened Sequences

  datatype Coord = Coord(x: nat, y: nat, z: nat)

  /** The protocol flag byte, bit by bit from 0x01 to 0x80. */
  datatype Flags = Flags(hidden: bool, discovered: bool, designated: bool, construct: bool,
                         wall: bool, floor: bool, void: bool, liquid: bool)

  const NO_FLAGS := Flags(false, false, false, false, false, false, false, false)

  datatype Tile = Tile(tileType: UInt16, flags: Flags)

  type View = Coord -> Tile

  /** Map dimensions; coordinates must fit the int16 fields on the wire. */
  datatype Dims = Dims(width: nat, height: nat, depth: nat) {
    predicate Fit() { width <= 0x8000 && height <= 0x8000 && depth <= 0x8000 }
    predicate Contains(p: Coord) { p.x < width && p.y < height && p.z < depth }
  }

  // ---------------------------------------------------------------------
  // compute_tile_flags
  // ---------------------------------------------------------------------

  datatype ShapeClass = Walkable | Solid | Open | Unclassified
  datatype Bridge = NoBridge | Lowered | Raised

  /** What the flag computation reads about one tile. */
  datatype RawTile = RawTile(tileType: UInt16, blockLoaded: bool, hidden: bool, digPending: bool, digJob: bool,
                             shape: ShapeClass, bridge: Bridge, flowSize: nat, poolOrMagma: bool)

  function ComputeFlags(raw: RawTile): Flags {
    if raw.tileType == 0 then NO_FLAGS.(hidden := true)
    else if !raw.blockLoaded then NO_FLAGS
    else
      var f1 := NO_FLAGS.(hidden := raw.hidden, discovered := !raw.hidden, designated := raw.digPending || raw.digJob);
      var f2 := match raw.shape
        case Walkable => f1.(floor := true)
        case Solid => f1.(wall := true)
        case Open => f1.(void := true)
        case Unclassified => f1;
      var f3 := match raw.bridge
        case NoBridge => f2
        case Lowered => f2.(floor := true, wall := false, void := false)
        case Raised => f2.(floor := false, wall := true, void := false);
      if raw.flowSize == 7 && raw.poolOrMagma then f3.(liquid := true) else f3
  }

  /** One flag below the flags of `rest`. */
  function Pack(b: bool, rest: nat): nat { 2 * rest + if b then 1 else 0 }

  // FLAG_HIDDEN 0x01, DISCOVERED 0x02, DESIGNATED 0x04, CONSTRUCT 0x08, WALL 0x10, FLOOR 0x20, VOID 0x40,
  // LIQUID_7_7 0x80
  function FlagByte(f: Flags): Byte {
    Pack(f.hidden, Pack(f.discovered, Pack(f.designated, Pack(f.construct,
      Pack(f.wall, Pack(f.floor, Pack(f.void, Pack(f.liquid, 0))))))))
  }

  function LowBit(b: nat): bool { b % 2 == 1 }

  function FlagsOf(b: Byte): Flags {
    var b1 := b / 2;
    var b2 := b1 / 2;
    var b3 := b2 / 2;
    var b4 := b3 / 2;
    var b5 := b4 / 2;
    var b6 := b5 / 2;
    Flags(LowBit(b), LowBit(b1), LowBit(b2), LowBit(b3), LowBit(b4), LowBit(b5), LowBit(b6), LowBit(b6 / 2))
  }

  lemma Unpack(b: bool, rest: nat)
    ensures LowBit(Pack(b, rest)) == b && Pack(b, rest) / 2 == rest
  {
  }

  lemma FlagByteRoundTrip(f: Flags)
    ensures FlagsOf(FlagByte(f)) == f
  {
    var p4 := Pack(f.wall, Pack(f.floor, Pack(f.void, Pack(f.liquid, 0))));
    UnpackFour(f.wall, f.floor, f.void, f.liquid, 0);
    UnpackFour(f.hidden, f.discovered, f.designated, f.construct, p4);
  }

  lemma UnpackFour(b0: bool, b1: bool, b2: bool, b3: bool, rest: nat)
    ensures var p3 := Pack(b3, rest);
      var p2 := Pack(b2, p3);
      var p1 := Pack(b1, p2);
      var p0 := Pack(b0, p1);
      && LowBit(p0) == b0 && LowBit(p1) == b1 && LowBit(p2) == b2 && LowBit(p3) == b3
      && p0 / 2 == p1 && p1 / 2 == p2 && p2 / 2 == p3 && p3 / 2 == rest
  {
    Unpack(b3, rest);
    Unpack(b2, Pack(b3, rest));
    Unpack(b1, Pack(b2, Pack(b3, rest)));
    Unpack(b0, Pack(b1, Pack(b2, Pack(b3, rest))));
  }

  /** The three classes exclude each other, and on a built bridge the deck alone decides. */
  lemma ClassesExclude(raw: RawTile)
    ensures var f := ComputeFlags(raw);
      && !(f.wall && f.floor) && !(f.wall && f.void) && !(f.floor && f.void)
      && !(f.hidden && f.discovered)
      && (raw.tileType != 0 && raw.blockLoaded && raw.bridge != NoBridge ==>
            !f.void && (f.floor <==> raw.bridge == Lowered) && (f.wall <==> raw.bridge == Raised))
  {
  }

  function ViewOf(raw: Coord -> RawTile): View {
    p => Tile(raw(p).tileType, ComputeFlags(raw(p)))
  }

  // ---------------------------------------------------------------------
  // Packing
  // ---------------------------------------------------------------------

  /** make_tile_key; no shifted field leaves the 64 bits, as int32 coordinates are below 0x8000_0000. */
  function MakeTileKey(p: Coord): nat {
    Or(Or(ShiftLeft(p.x, 32), ShiftLeft(p.y, 16)), p.z % 0x1_0000)
  }

  /** make_tile_state */
  function MakeTileState(t: Tile): nat {
    Or(ShiftLeft(t.tileType, 8), FlagByte(t.flags))
  }

  /** The two upper fields together, above the sixteen bits of the level. */
  function Upper(p: Coord): nat { Or(ShiftLeft(p.x, 16), p.y) }

  lemma KeyHalves(p: Coord)
    ensures MakeTileKey(p) == 0x1_0000 * Upper(p) + p.z % 0x1_0000
  {
    Join32(p.x, p.y, p.z % 0x1_0000);
  }

  lemma UpperIsInjective(p: Coord, q: Coord)
    requires (p.y < 0x1_0000 && q.y < 0x1_0000) || p.x == q.x == 0
    requires Upper(p) == Upper(q)
    ensures p.x == q.x && p.y == q.y
  {
    if p.x == q.x == 0 {
      ShiftIsTimes(0, 16);
    } else {
      Join16(p.x, p.y);
      Join16(q.x, q.y);
    }
  }

  lemma KeyIsInjective(p: Coord, q: Coord)
    requires (p.y < 0x1_0000 && q.y < 0x1_0000) || p.x == q.x == 0
    requires p.z < 0x1_0000 && q.z < 0x1_0000 && MakeTileKey(p) == MakeTileKey(q)
    ensures p == q
  {
    KeyHalves(p);
    KeyHalves(q);
    UpperIsInjective(p, q);
  }

  ghost predicate KeysDistinguish(d: Dims) {
    forall p, q :: d.Contains(p) && d.Contains(q) && MakeTileKey(p) == MakeTileKey(q) ==> p == q
  }

  /**
   Different tiles have different keys exactly when levels and rows fit their fields, or there is no
   second column for a row to run into.
   */
  lemma KeysDistinguishExactly(d: Dims)
    requires d.width > 0 && d.height > 0 && d.depth > 0
    ensures KeysDistinguish(d) <==> d.depth <= 0x1_0000 && (d.height <= 0x1_0000 || d.width == 1)
  {
    if d.depth <= 0x1_0000 && (d.height <= 0x1_0000 || d.width == 1) {
      forall p, q | d.Contains(p) && d.Contains(q) && MakeTileKey(p) == MakeTileKey(q) ensures p == q {
        KeyIsInjective(p, q);
      }
    } else if d.depth > 0x1_0000 {
      LevelsWrap(0, 0, 0);
      assert d.Contains(Coord(0, 0, 0)) && d.Contains(Coord(0, 0, 0x1_0000));
    } else {
      RowsRunIntoColumns(1, 0);
      assert d.Contains(Coord(1, 0, 0)) && d.Contains(Coord(0, 0x1_0000, 0));
    }
  }

  lemma LevelsWrap(x: nat, y: nat, z: nat)
    ensures MakeTileKey(Coord(x, y, z)) == MakeTileKey(Coord(x, y, z + 0x1_0000))
  {
    assert (z + 0x1_0000) % 0x1_0000 == z % 0x1_0000;
  }

  lemma RowsRunIntoColumns(x: nat, z: nat)
    ensures MakeTileKey(Coord(x, 0, z)) == MakeTileKey(Coord(0, 0x1_0000 * x, z))
  {
    KeyHalves(Coord(x, 0, z));
    KeyHalves(Coord(0, 0x1_0000 * x, z));
    Join16(x, 0);
    ShiftIsTimes(0, 16);
  }

  lemma StateIsInjective(s: Tile, t: Tile)
    requires MakeTileState(s) == MakeTileState(t)
    ensures s == t
  {
    Join8(s.tileType, FlagByte(s.flags));
    Join8(t.tileType, FlagByte(t.flags));
    FlagByteRoundTrip(s.flags);
    FlagByteRoundTrip(t.flags);
  }

  // ---------------------------------------------------------------------
  // The wire: [2 x] [2 y] [2 z] [2 type] [1 flags] per tile
  // ---------------------------------------------------------------------

  const TILE_SIZE := 9

  datatype Update = Update(at: Coord, tile: Tile)

  function UpdateBytes(u: Update): seq<Byte> {
    WriteInt16(ToInt16(u.at.x)) + WriteInt16(ToInt16(u.at.y)) + WriteInt16(ToInt16(u.at.z))
    + WriteUInt16(u.tile.tileType) + [FlagByte(u.tile.flags)]
  }

  function Encode(updates: seq<Update>): seq<Byte> {
    if updates == [] then [] else Encode(updates[..|updates| - 1]) + UpdateBytes(updates[|updates| - 1])
  }

  function UpdateOf(data: seq<Byte>): Update
    requires |data| == TILE_SIZE
  {
    Update(Coord(ReadUInt16(data, 0), ReadUInt16(data, 2), ReadUInt16(data, 4)),
           Tile(ReadUInt16(data, 6), FlagsOf(data[8])))
  }

  function Decode(data: seq<Byte>): seq<Update> {
    if |data| < TILE_SIZE then [] else
      Decode(data[..|data| - TILE_SIZE]) + [UpdateOf(data[|data| - TILE_SIZE..])]
  }

  lemma UpdateRoundTrip(u: Update)
    requires u.at.x < 0x8000 && u.at.y < 0x8000 && u.at.z < 0x8000
    ensures |UpdateBytes(u)| == TILE_SIZE && UpdateOf(UpdateBytes(u)) == u
  {
    WritesAsUnsigned(u.at.x);
    WritesAsUnsigned(u.at.y);
    WritesAsUnsigned(u.at.z);
    Fields(WriteUInt16(u.at.x), WriteUInt16(u.at.y), WriteUInt16(u.at.z), WriteUInt16(u.tile.tileType),
           FlagByte(u.tile.flags));
    ReadsFields(UpdateBytes(u), u.at.x, u.at.y, u.at.z, u.tile);
  }

  lemma WritesAsUnsigned(v: nat)
    requires v < 0x8000
    ensures WriteInt16(ToInt16(v)) == WriteUInt16(v)
  {
  }

  lemma ReadsFields(data: seq<Byte>, x: UInt16, y: UInt16, z: UInt16, tile: Tile)
    requires |data| == TILE_SIZE && data[0..2] == WriteUInt16(x) && data[2..4] == WriteUInt16(y) &&
      data[4..6] == WriteUInt16(z)
    requires data[6..8] == WriteUInt16(tile.tileType) && data[8] == FlagByte(tile.flags)
    ensures UpdateOf(data) == Update(Coord(x, y, z), tile)
  {
    FlagByteRoundTrip(tile.flags);
    UInt16RoundTrip(x, data, 0);
    UInt16RoundTrip(y, data, 2);
    UInt16RoundTrip(z, data, 4);
    UInt16RoundTrip(tile.tileType, data, 6);
  }

  lemma Fields(x: seq<Byte>, y: seq<Byte>, z: seq<Byte>, tileType: seq<Byte>, flags: Byte)
    requires |x| == |y| == |z| == |tileType| == 2
    ensures var data := x + y + z + tileType + [flags];
      |data| == TILE_SIZE && data[0..2] == x && data[2..4] == y && data[4..6] == z && data[6..8] == tileType &&
        data[8] == flags
  {
  }

  predicate AllInside(d: Dims, updates: seq<Update>) {
    forall i :: 0 <= i < |updates| ==> d.Contains(updates[i].at)
  }

  lemma DecodesLast(front: seq<Byte>, u: Update)
    requires u.at.x < 0x8000 && u.at.y < 0x8000 && u.at.z < 0x8000
    ensures Decode(front + UpdateBytes(u)) == Decode(front) + [u]
  {
    UpdateRoundTrip(u);
    SplitsLast(front, UpdateBytes(u));
  }

  lemma SplitsLast(front: seq<Byte>, last: seq<Byte>)
    requires |last| == TILE_SIZE
    ensures (front + last)[..|front + last| - TILE_SIZE] == front &&
      (front + last)[|front + last| - TILE_SIZE..] == last
  {
  }

  lemma RoundTripsOneMore(front: seq<Update>, u: Update)
    requires u.at.x < 0x8000 && u.at.y < 0x8000 && u.at.z < 0x8000
    requires Decode(Encode(front)) == front
    ensures Decode(Encode(front + [u])) == front + [u]
  {
    EncodeLast(front, u);
    DecodesLast(Encode(front), u);
  }

  lemma {:induction false} EncodeRoundTrip(d: Dims, updates: seq<Update>)
    requires d.Fit() && AllInside(d, updates)
    ensures Decode(Encode(updates)) == updates
  {
    if updates != [] {
      var n := |updates| - 1;
      assert d.Contains(updates[n].at);
      EncodeRoundTrip(d, updates[..n]);
      RoundTripsOneMore(updates[..n], updates[n]);
      SplitLast(updates);
    }
  }

  // ---------------------------------------------------------------------
  // The scan order: z outermost, then y, then x
  // ---------------------------------------------------------------------

  function Row(y: nat, z: nat, n: nat): seq<Coord> {
    if n == 0 then [] else Row(y, z, n - 1) + [Coord(n - 1, y, z)]
  }

  function Layer(width: nat, z: nat, n: nat): seq<Coord> {
    if n == 0 then [] else Layer(width, z, n - 1) + Row(n - 1, z, width)
  }

  function Layers(width: nat, height: nat, n: nat): seq<Coord> {
    if n == 0 then [] else Layers(width, height, n - 1) + Layer(width, n - 1, height)
  }

  function Cells(d: Dims): seq<Coord> { Layers(d.width, d.height, d.depth) }

  function InRow(y: nat, z: nat, n: nat): Coord -> bool { (p: Coord) => p.z == z && p.y == y && p.x < n }

  function InLayer(width: nat, z: nat, n: nat): Coord -> bool { (p: Coord) => p.z == z && p.y < n && p.x < width }

  function InLayers(width: nat, height: nat, n: nat): Coord -> bool {
    (p: Coord) => p.z < n && p.y < height && p.x < width
  }

  lemma {:induction false} RowLists(y: nat, z: nat, n: nat)
    ensures Lists(Row(y, z, n), InRow(y, z, n))
  {
    if n > 0 {
      RowLists(y, z, n - 1);
      ListsConcat(Row(y, z, n - 1), [Coord(n - 1, y, z)], InRow(y, z, n - 1), p => p == Coord(n - 1, y, z),
        InRow(y, z, n));
    }
  }

  lemma {:induction false} LayerLists(width: nat, z: nat, n: nat)
    ensures Lists(Layer(width, z, n), InLayer(width, z, n))
  {
    if n > 0 {
      LayerLists(width, z, n - 1);
      RowLists(n - 1, z, width);
      ListsConcat(Layer(width, z, n - 1), Row(n - 1, z, width), InLayer(width, z, n - 1), InRow(n - 1, z, width),
        InLayer(width, z, n));
    }
  }

  lemma {:induction false} LayersLists(width: nat, height: nat, n: nat)
    ensures Lists(Layers(width, height, n), InLayers(width, height, n))
  {
    if n > 0 {
      LayersLists(width, height, n - 1);
      LayerLists(width, n - 1, height);
      ListsConcat(Layers(width, height, n - 1), Layer(width, n - 1, height), InLayers(width, height, n - 1),
                  InLayer(width, n - 1, height), InLayers(width, height, n));
    }
  }

  // ---------------------------------------------------------------------
  // One delta pass
  // ---------------------------------------------------------------------

  type Cache = map<nat, nat>

  predicate IsChanged(cache: Cache, view: View, p: Coord) {
    MakeTileKey(p) !in cache || cache[MakeTileKey(p)] != MakeTileState(view(p))
  }

  /** The tiles of `cells` whose state differs from the cache, in scan order. */
  function Delta(cache: Cache, view: View, cells: seq<Coord>): seq<Update> {
    if cells == [] then [] else
      var p := cells[|cells| - 1];
      var before := Delta(cache, view, cells[..|cells| - 1]);
      if IsChanged(cache, view, p) then before + [Update(p, view(p))] else before
  }

  datatype Pass = Pass(bytes: seq<Byte>, cache: Cache)

  function ScanTile(view: View, s: Pass, p: Coord): Pass {
    if IsChanged(s.cache, view, p)
    then Pass(s.bytes + UpdateBytes(Update(p, view(p))), s.cache[MakeTileKey(p) := MakeTileState(view(p))])
    else s
  }

  function Scan(view: View, s: Pass, cells: seq<Coord>): Pass {
    if cells == [] then s else ScanTile(view, Scan(view, s, cells[..|cells| - 1]), cells[|cells| - 1])
  }

  lemma {:induction false} ScanConcat(view: View, s: Pass, a: seq<Coord>, b: seq<Coord>)
    ensures Scan(view, s, a + b) == Scan(view, Scan(view, s, a), b)
  {
    if b == [] {
      assert a + b == a;
    } else {
      ScanConcat(view, s, a, b[..|b| - 1]);
      assert (a + b)[..|a + b| - 1] == a + b[..|b| - 1];
    }
  }

  /** The cache knows the current state of the tile. */
  predicate Cached(cache: Cache, view: View, p: Coord) {
    MakeTileKey(p) in cache && cache[MakeTileKey(p)] == MakeTileState(view(p))
  }

  /** What a scan of `cells` from `cache` has established. */
  ghost predicate Scanned(d: Dims, view: View, cache: Cache, cells: seq<Coord>, s: Pass) {
    && s.bytes == Encode(Delta(cache, view, cells))
    && (forall p :: d.Contains(p) ==>
         if p in cells then Cached(s.cache, view, p) else IsChanged(s.cache, view, p) == IsChanged(cache, view, p))
  }

  /** A scan emits exactly the changed tiles, leaves the cache current on what it scanned, and touches nothing else. */
  lemma {:induction false} ScanIsDelta(d: Dims, view: View, cache: Cache, cells: seq<Coord>, n: nat)
    requires d.Fit() && n <= |cells|
    requires forall i, j :: 0 <= i < j < |cells| ==> cells[i] != cells[j]
    requires forall p :: p in cells ==> d.Contains(p)
    ensures Scanned(d, view, cache, cells[..n], Scan(view, Pass([], cache), cells[..n]))
  {
    if n > 0 {
      ScanIsDelta(d, view, cache, cells, n - 1);
      var p, front := cells[n - 1], cells[..n - 1];
      assert cells[..n][..n - 1] == front && cells[..n] == front + [p];
      assert p !in front && p in cells;
      ScanStep(d, view, cache, front, p, Scan(view, Pass([], cache), front));
    }
  }

  lemma ScanStep(d: Dims, view: View, cache: Cache, front: seq<Coord>, p: Coord, s: Pass)
    requires d.Fit() && d.Contains(p) && p !in front
    requires Scanned(d, view, cache, front, s)
    ensures Scanned(d, view, cache, front + [p], ScanTile(view, s, p))
  {
    assert IsChanged(s.cache, view, p) == IsChanged(cache, view, p);
    DeltaLast(cache, view, front, p);
    var s' := ScanTile(view, s, p);
    forall q | d.Contains(q)
      ensures if q in front + [p] then Cached(s'.cache, view, q)
        else IsChanged(s'.cache, view, q) == IsChanged(cache, view, q)
    {
      ScanTouchesOneKey(d, view, s, p, q);
    }
  }

  lemma ScanTouchesOneKey(d: Dims, view: View, s: Pass, p: Coord, q: Coord)
    requires d.Fit() && d.Contains(p) && d.Contains(q)
    ensures q == p ==> Cached(ScanTile(view, s, p).cache, view, q)
    ensures q != p ==> IsChanged(ScanTile(view, s, p).cache, view, q) == IsChanged(s.cache, view, q)
  {
    if q != p && MakeTileKey(q) == MakeTileKey(p) {
      KeyIsInjective(p, q);
    }
  }

  lemma DeltaLast(cache: Cache, view: View, front: seq<Coord>, p: Coord)
    ensures Encode(Delta(cache, view, front + [p])) ==
      if IsChanged(cache, view, p) then Encode(Delta(cache, view, front)) + UpdateBytes(Update(p, view(p)))
      else Encode(Delta(cache, view, front))
  {
    assert (front + [p])[..|front|] == front;
    if IsChanged(cache, view, p) {
      EncodeLast(Delta(cache, view, front), Update(p, view(p)));
    }
  }

  lemma EncodeLast(updates: seq<Update>, u: Update)
    ensures Encode(updates + [u]) == Encode(updates) + UpdateBytes(u)
  {
    assert (updates + [u])[..|updates|] == updates;
  }

  function Emit(view: View, before: seq<Byte>, cells: seq<Coord>): seq<Byte> {
    if cells == [] then before else
      var p := cells[|cells| - 1];
      Emit(view, before, cells[..|cells| - 1]) + UpdateBytes(Update(p, view(p)))
  }

  lemma {:induction false} EmitConcat(view: View, before: seq<Byte>, a: seq<Coord>, b: seq<Coord>)
    ensures Emit(view, before, a + b) == Emit(view, Emit(view, before, a), b)
  {
    if b == [] {
      assert a + b == a;
    } else {
      EmitConcat(view, before, a, b[..|b| - 1]);
      assert (a + b)[..|a + b| - 1] == a + b[..|b| - 1];
    }
  }

  lemma {:induction false} EmitIsEncode(view: View, cells: seq<Coord>)
    ensures Emit(view, [], cells) == Encode(Delta(map[], view, cells))
  {
    if cells != [] {
      var n := |cells| - 1;
      EmitIsEncode(view, cells[..n]);
      EmitLast(view, cells[..n], cells[n]);
      SplitLast(cells);
    }
  }

  lemma EmitLast(view: View, front: seq<Coord>, p: Coord)
    requires Emit(view, [], front) == Encode(Delta(map[], view, front))
    ensures Emit(view, [], front + [p]) == Encode(Delta(map[], view, front + [p]))
  {
    DeltaLast(map[], view, front, p);
    assert (front + [p])[..|front|] == front;
  }

  /** g_tile_cache and the two extraction passes over it. */
  class Extractor {
    const dims: Dims
    var cache: Cache

    constructor (dims: Dims)
      ensures this.dims == dims && cache == map[]
    {
      this.dims, cache := dims, map[];
    }

    method DetectTile(raw: Coord -> RawTile, p: Coord, before: seq<Byte>) returns (result: seq<Byte>)
      modifies this`cache
      ensures Pass(result, cache) == ScanTile(ViewOf(raw), Pass(before, old(cache)), p)
    {
      result := before;
      var currentType := raw(p).tileType;
      var flags := ComputeFlags(raw(p));
      var key, state := MakeTileKey(p), MakeTileState(Tile(currentType, flags));
      if key !in cache || cache[key] != state {
        result := result + WriteInt16(ToInt16(p.x)) + WriteInt16(ToInt16(p.y)) + WriteInt16(ToInt16(p.z))
                  + WriteUInt16(currentType) + [FlagByte(flags)];
        cache := cache[key := state];
        assert result == before + UpdateBytes(Update(p, Tile(currentType, flags)));
      }
    }

    method DetectRow(raw: Coord -> RawTile, y: nat, z: nat, before: seq<Byte>) returns (result: seq<Byte>)
      modifies this`cache
      ensures Pass(result, cache) == Scan(ViewOf(raw), Pass(before, old(cache)), Row(y, z, dims.width))
    {
      result := before;
      for x := 0 to dims.width
        invariant Pass(result, cache) == Scan(ViewOf(raw), Pass(before, old(cache)), Row(y, z, x))
      {
        ScanConcat(ViewOf(raw), Pass(before, old(cache)), Row(y, z, x), [Coord(x, y, z)]);
        result := DetectTile(raw, Coord(x, y, z), result);
      }
    }

    method DetectLayer(raw: Coord -> RawTile, z: nat, before: seq<Byte>) returns (result: seq<Byte>)
      modifies this`cache
      ensures Pass(result, cache) == Scan(ViewOf(raw), Pass(before, old(cache)), Layer(dims.width, z, dims.height))
    {
      result := before;
      for y := 0 to dims.height
        invariant Pass(result, cache) == Scan(ViewOf(raw), Pass(before, old(cache)), Layer(dims.width, z, y))
      {
        ScanConcat(ViewOf(raw), Pass(before, old(cache)), Layer(dims.width, z, y), Row(y, z, dims.width));
        result := DetectRow(raw, y, z, result);
      }
    }

    /** detect_tile_changes: exactly the changed tiles, and a cache current on the whole map. */
    method DetectTileChanges(raw: Coord -> RawTile) returns (result: seq<Byte>)
      requires dims.Fit()
      modifies this`cache
      ensures result == Encode(Delta(old(cache), ViewOf(raw), Cells(dims)))
      ensures cache == CacheAfter(dims, old(cache), ViewOf(raw))
      ensures forall p :: dims.Contains(p) ==> Cached(cache, ViewOf(raw), p)
    {
      ghost var start := Pass([], cache);
      result := [];
      for z := 0 to dims.depth
        invariant Pass(result, cache) == Scan(ViewOf(raw), start, Layers(dims.width, dims.height, z))
      {
        ScanConcat(ViewOf(raw), start, Layers(dims.width, dims.height, z), Layer(dims.width, z, dims.height));
        result := DetectLayer(raw, z, result);
      }
      CellsScan(dims, ViewOf(raw), start.cache);
    }

    method FullRow(raw: Coord -> RawTile, y: nat, z: nat, before: seq<Byte>) returns (result: seq<Byte>)
      ensures result == Emit(ViewOf(raw), before, Row(y, z, dims.width))
    {
      result := before;
      for x := 0 to dims.width
        invariant result == Emit(ViewOf(raw), before, Row(y, z, x))
      {
        EmitConcat(ViewOf(raw), before, Row(y, z, x), [Coord(x, y, z)]);
        var p := Coord(x, y, z);
        result := result + UpdateBytes(Update(p, Tile(raw(p).tileType, ComputeFlags(raw(p)))));
      }
    }

    method FullLayer(raw: Coord -> RawTile, z: nat, before: seq<Byte>) returns (result: seq<Byte>)
      ensures result == Emit(ViewOf(raw), before, Layer(dims.width, z, dims.height))
    {
      result := before;
      for y := 0 to dims.height
        invariant result == Emit(ViewOf(raw), before, Layer(dims.width, z, y))
      {
        EmitConcat(ViewOf(raw), before, Layer(dims.width, z, y), Row(y, z, dims.width));
        result := FullRow(raw, y, z, result);
      }
    }

    /** extract_full_map_state: every tile, without looking at or touching the cache. */
    method ExtractFullMapState(raw: Coord -> RawTile) returns (result: seq<Byte>)
      ensures result == Encode(Delta(map[], ViewOf(raw), Cells(dims)))
    {
      result := [];
      for z := 0 to dims.depth
        invariant result == Emit(ViewOf(raw), [], Layers(dims.width, dims.height, z))
      {
        EmitConcat(ViewOf(raw), [], Layers(dims.width, dims.height, z), Layer(dims.width, z, dims.height));
        result := FullLayer(raw, z, result);
      }
      EmitIsEncode(ViewOf(raw), Cells(dims));
    }

    /** clear_tile_cache, the ClearCache event of a run */
    method ClearTileCache()
      modifies this`cache
      ensures cache == map[]
      ensures forall view, peer :: System(view, cache, peer) == Next(dims, System(view, old(cache), peer), ClearCache)
    {
      cache := map[];
    }
  }

  lemma CellsScan(d: Dims, view: View, cache: Cache)
    requires d.Fit()
    ensures var s := Scan(view, Pass([], cache), Cells(d));
      s.bytes == Encode(Delta(cache, view, Cells(d))) && forall p :: d.Contains(p) ==> Cached(s.cache, view, p)
  {
    CellsAreTheMap(d);
    assert Cells(d)[..|Cells(d)|] == Cells(d);
    ScanIsDelta(d, view, cache, Cells(d), |Cells(d)|);
  }

  lemma CellsAreTheMap(d: Dims)
    ensures forall p :: p in Cells(d) <==> d.Contains(p)
    ensures forall i, j :: 0 <= i < j < |Cells(d)| ==> Cells(d)[i] != Cells(d)[j]
  {
    LayersLists(d.width, d.height, d.depth);
  }

  // ---------------------------------------------------------------------
  // The peer
  // ---------------------------------------------------------------------

  type Peer = map<Coord, Tile>

  function Replay(peer: Peer, updates: seq<Update>): Peer {
    if updates == [] then peer else
      Replay(peer, updates[..|updates| - 1])[updates[|updates| - 1].at := updates[|updates| - 1].tile]
  }

  lemma {:induction false} ReplayOfDelta(peer: Peer, cache: Cache, view: View, cells: seq<Coord>, p: Coord)
    ensures var peer' := Replay(peer, Delta(cache, view, cells));
      if p in cells && IsChanged(cache, view, p) then p in peer' && peer'[p] == view(p)
      else (p in peer' <==> p in peer) && (p in peer ==> peer'[p] == peer[p])
  {
    if cells != [] {
      var n := |cells| - 1;
      ReplayOfDelta(peer, cache, view, cells[..n], p);
      var q := cells[n];
      assert cells == cells[..n] + [q];
      if IsChanged(cache, view, q) {
        assert Delta(cache, view, cells)[..|Delta(cache, view, cells)| - 1] == Delta(cache, view, cells[..n]);
      }
    }
  }

  lemma {:induction false} DeltaIsInside(d: Dims, cache: Cache, view: View, cells: seq<Coord>)
    requires forall p :: p in cells ==> d.Contains(p)
    ensures AllInside(d, Delta(cache, view, cells))
  {
    if cells != [] {
      var n := |cells| - 1;
      assert cells[n] in cells;
      DeltaIsInside(d, cache, view, cells[..n]);
    }
  }

  predicate Shows(peer: Peer, view: View, p: Coord) { p in peer && peer[p] == view(p) }

  /**
   What replaying one delta repairs, for any cache and any peer: afterwards a
   tile is shown right exactly when it had changed or was right before.
   */
  lemma DeltaRepairsExactly(d: Dims, cache: Cache, view: View, peer: Peer, p: Coord)
    requires d.Fit() && d.Contains(p)
    ensures var bytes := Encode(Delta(cache, view, Cells(d)));
      Shows(Replay(peer, Decode(bytes)), view, p) <==> IsChanged(cache, view, p) || Shows(peer, view, p)
  {
    CellsAreTheMap(d);
    DeltaIsInside(d, cache, view, Cells(d));
    EncodeRoundTrip(d, Delta(cache, view, Cells(d)));
    ReplayOfDelta(peer, cache, view, Cells(d), p);
  }

  /** A delta holds exactly the scanned tiles whose packed state is not the cached one. */
  lemma {:induction false} DeltaHoldsExactly(cache: Cache, view: View, cells: seq<Coord>, u: Update)
    ensures u in Delta(cache, view, cells) <==> u.at in cells && IsChanged(cache, view, u.at) && u.tile == view(u.at)
  {
    if cells != [] {
      var n := |cells| - 1;
      DeltaHoldsExactly(cache, view, cells[..n], u);
      assert cells == cells[..n] + [cells[n]];
    }
  }

  /** Between two passes, a delta holds exactly the tiles whose type or flags changed. */
  lemma DeltaBetweenPassesExactly(d: Dims, cache: Cache, before: View, view: View, u: Update)
    requires d.Fit()
    ensures u in Delta(CacheAfter(d, cache, before), view, Cells(d)) <==>
      d.Contains(u.at) && before(u.at) != view(u.at) && u.tile == view(u.at)
  {
    DeltaHoldsExactly(CacheAfter(d, cache, before), view, Cells(d), u);
    CellsAreTheMap(d);
    CellsScan(d, before, cache);
    if d.Contains(u.at) && MakeTileState(before(u.at)) == MakeTileState(view(u.at)) {
      StateIsInjective(before(u.at), view(u.at));
    }
  }

  /**
   After a full state sent while the map looked like `sent`, the next delta
   repairs every tile except exactly those back at their cached state but
   different from what the full state showed.
   */
  lemma DeltaAfterFullState(d: Dims, cache: Cache, sent: View, view: View, p: Coord)
    requires d.Fit() && d.Contains(p)
    ensures var full := Replay(map[], Decode(Encode(Delta(map[], sent, Cells(d)))));
      var peer := Replay(full, Decode(Encode(Delta(cache, view, Cells(d)))));
      Shows(peer, view, p) <==> !(Cached(cache, view, p) && sent(p) != view(p))
  {
    var full := Replay(map[], Decode(Encode(Delta(map[], sent, Cells(d)))));
    DeltaRepairsExactly(d, map[], sent, map[], p);
    DeltaRepairsExactly(d, cache, view, full, p);
  }

  // ---------------------------------------------------------------------
  // Whole runs
  // ---------------------------------------------------------------------

  datatype Event = MapChanges(view: View) | SendDelta | SendFullState | ClearCache

  datatype System = System(view: View, cache: Cache, peer: Peer)

  function CacheAfter(d: Dims, cache: Cache, view: View): Cache { Scan(view, Pass([], cache), Cells(d)).cache }

  function Next(d: Dims, s: System, e: Event): System {
    match e
    case MapChanges(view) => s.(view := view)
    case SendDelta =>
      System(s.view, CacheAfter(d, s.cache, s.view), Replay(s.peer, Decode(Encode(Delta(s.cache, s.view, Cells(d))))))
    case SendFullState => s.(peer := Replay(map[], Decode(Encode(Delta(map[], s.view, Cells(d))))))
    case ClearCache => s.(cache := map[])
  }

  function Run(d: Dims, start: View, events: seq<Event>): System {
    if events == [] then System(start, map[], map[])
    else Next(d, Run(d, start, events[..|events| - 1]), events[|events| - 1])
  }

  lemma RunLast(d: Dims, start: View, events: seq<Event>, e: Event)
    ensures Run(d, start, events + [e]) == Next(d, Run(d, start, events), e)
  {
    assert (events + [e])[..|events|] == events;
  }

  /** Whatever the cache knows, the peer shows. */
  ghost predicate InStep(d: Dims, s: System) {
    forall p :: d.Contains(p) && MakeTileKey(p) in s.cache ==>
      p in s.peer && s.cache[MakeTileKey(p)] == MakeTileState(s.peer[p])
  }

  /** Full states are sent only while the cache is empty: at the start, or just after clearing it. */
  ghost predicate FullOnlyOnEmptyCache(d: Dims, start: View, events: seq<Event>) {
    forall i :: 0 <= i < |events| && events[i] == SendFullState ==> Run(d, start, events[..i]).cache == map[]
  }

  lemma {:induction false} RunStaysInStep(d: Dims, start: View, events: seq<Event>)
    requires d.Fit() && FullOnlyOnEmptyCache(d, start, events)
    ensures InStep(d, Run(d, start, events))
  {
    if events != [] {
      var n := |events| - 1;
      assert forall i :: 0 <= i < n ==> events[..n][..i] == events[..i];
      RunStaysInStep(d, start, events[..n]);
      var s := Run(d, start, events[..n]);
      if events[n] == SendDelta {
        DeltaAgrees(d, s);
        CellsScan(d, s.view, s.cache);
      }
    }
  }

  lemma DeltaAgrees(d: Dims, s: System)
    requires d.Fit() && InStep(d, s)
    ensures forall p :: d.Contains(p) ==> Shows(Next(d, s, SendDelta).peer, s.view, p)
  {
    forall p | d.Contains(p) ensures Shows(Next(d, s, SendDelta).peer, s.view, p) {
      DeltaRepairsExactly(d, s.cache, s.view, s.peer, p);
      if !IsChanged(s.cache, s.view, p) {
        StateIsInjective(s.peer[p], s.view(p));
      }
    }
  }

  /** From an empty cache, a peer that replays every delta agrees with the map after each pass. */
  lemma EveryPassAgrees(d: Dims, start: View, events: seq<Event>)
    requires d.Fit() && FullOnlyOnEmptyCache(d, start, events)
    ensures var s := Run(d, start, events + [SendDelta]);
      forall p :: d.Contains(p) ==> Shows(s.peer, s.view, p)
  {
    RunLast(d, start, events, SendDelta);
    RunStaysInStep(d, start, events);
    DeltaAgrees(d, Run(d, start, events));
  }

  /** Clearing the cache makes the next delta repair everything, whatever happened before. */
  lemma ClearedCacheRepairsAll(d: Dims, start: View, events: seq<Event>)
    requires d.Fit()
    ensures var s := Run(d, start, events + [ClearCache] + [SendDelta]);
      forall p :: d.Contains(p) ==> Shows(s.peer, s.view, p)
  {
    RunLast(d, start, events, ClearCache);
    RunLast(d, start, events + [ClearCache], SendDelta);
    DeltaAgrees(d, Run(d, start, events + [ClearCache]));
  }

  // ---------------------------------------------------------------------
  // Exactly when a run leaves a tile wrong
  // ---------------------------------------------------------------------

  /** The map as it was before event i. */
  function ViewAt(d: Dims, start: View, events: seq<Event>, i: nat): View
    requires i <= |events|
  {
    Run(d, start, events[..i]).view
  }

  /** Event j is a delta, the cache was not cleared since, and it and every later delta found the tile to be x. */
  ghost predicate SeenSince(d: Dims, start: View, events: seq<Event>, j: nat, p: Coord, x: Tile)
    requires j < |events|
  {
    && events[j].SendDelta?
    && (forall m :: j < m < |events| ==> !events[m].ClearCache?)
    && (forall m :: j <= m < |events| && events[m].SendDelta? ==> ViewAt(d, start, events, m)(p) == x)
  }

  /** Event i is the last full state. */
  ghost predicate LastFull(events: seq<Event>, i: nat)
    requires i < |events|
  {
    events[i].SendFullState? && forall m :: i < m < |events| ==> !events[m].SendFullState?
  }

  /** The last full state showed the tile as something else than x between deltas that all found it to be x. */
  ghost predicate Overwritten(d: Dims, start: View, events: seq<Event>, p: Coord, x: Tile) {
    exists j, i :: 0 <= j < i < |events| && SeenSince(d, start, events, j, p, x) && LastFull(events, i)
      && ViewAt(d, start, events, i)(p) != x
  }

  ghost predicate Seen(d: Dims, start: View, events: seq<Event>, p: Coord, x: Tile) {
    exists j :: 0 <= j < |events| && SeenSince(d, start, events, j, p, x)
  }

  /** The cache knows the tile as x. */
  predicate CachedAs(cache: Cache, p: Coord, x: Tile) {
    MakeTileKey(p) in cache && cache[MakeTileKey(p)] == MakeTileState(x)
  }

  predicate ShowsAs(peer: Peer, p: Coord, x: Tile) { p in peer && peer[p] == x }

  lemma SeenSinceNext(d: Dims, start: View, events: seq<Event>, e: Event, j: nat, p: Coord, x: Tile)
    requires j < |events|
    ensures SeenSince(d, start, events + [e], j, p, x) <==>
      SeenSince(d, start, events, j, p, x) && !e.ClearCache? && (e.SendDelta? ==> Run(d, start, events).view(p) == x)
  {
    var all, n := events + [e], |events|;
    assert all[..n] == events && all[n] == e;
    assert forall m :: 0 <= m < n ==> all[m] == events[m] && all[..m] == events[..m];
    assert forall m :: 0 <= m < n ==> ViewAt(d, start, all, m) == ViewAt(d, start, events, m);
    assert ViewAt(d, start, all, n) == Run(d, start, events).view;
  }

  lemma SeenSinceLast(d: Dims, start: View, events: seq<Event>, e: Event, p: Coord, x: Tile)
    ensures SeenSince(d, start, events + [e], |events|, p, x) <==> e.SendDelta? && Run(d, start, events).view(p) == x
  {
    assert (events + [e])[..|events|] == events && (events + [e])[|events|] == e;
  }

  lemma SeenNext(d: Dims, start: View, events: seq<Event>, e: Event, p: Coord, x: Tile)
    ensures Seen(d, start, events + [e], p, x) <==>
      if e.SendDelta? then Run(d, start, events).view(p) == x else Seen(d, start, events, p, x) && !e.ClearCache?
  {
    var all := events + [e];
    SeenSinceLast(d, start, events, e, p, x);
    forall j | 0 <= j < |events|
      ensures SeenSince(d, start, all, j, p, x) <==>
        SeenSince(d, start, events, j, p, x) && !e.ClearCache? && (e.SendDelta? ==> Run(d, start, events).view(p) == x)
    {
      SeenSinceNext(d, start, events, e, j, p, x);
    }
  }

  /**
   The cache knows a tile as x exactly when some delta, and every one since, found it so, with no
   clearing in between.
   */
  lemma {:induction false} CachedExactly(d: Dims, start: View, events: seq<Event>, p: Coord, x: Tile)
    requires d.Fit() && d.Contains(p)
    ensures CachedAs(Run(d, start, events).cache, p, x) <==> Seen(d, start, events, p, x)
  {
    if events != [] {
      var n := |events| - 1;
      var s, e := Run(d, start, events[..n]), events[n];
      SplitLast(events);
      CachedExactly(d, start, events[..n], p, x);
      SeenNext(d, start, events[..n], e, p, x);
      CachedNext(d, s, e, p, x);
    }
  }

  lemma CachedNext(d: Dims, s: System, e: Event, p: Coord, x: Tile)
    requires d.Fit() && d.Contains(p)
    ensures CachedAs(Next(d, s, e).cache, p, x) <==>
      if e.SendDelta? then s.view(p) == x else CachedAs(s.cache, p, x) && !e.ClearCache?
  {
    if e.SendDelta? {
      CellsScan(d, s.view, s.cache);
      if MakeTileState(s.view(p)) == MakeTileState(x) {
        StateIsInjective(s.view(p), x);
      }
    }
  }

  lemma OverwrittenNext(d: Dims, start: View, events: seq<Event>, e: Event, p: Coord, x: Tile)
    ensures var s := Run(d, start, events);
      Overwritten(d, start, events + [e], p, x) <==>
        if e.SendFullState? then Seen(d, start, events, p, x) && s.view(p) != x
        else Overwritten(d, start, events, p, x) && !e.ClearCache? && (e.SendDelta? ==> s.view(p) == x)
  {
    var all, n := events + [e], |events|;
    assert all[..n] == events && all[n] == e;
    assert forall m :: 0 <= m < n ==> all[m] == events[m] && all[..m] == events[..m];
    forall j | 0 <= j < n
      ensures SeenSince(d, start, all, j, p, x) <==>
        SeenSince(d, start, events, j, p, x) && !e.ClearCache? && (e.SendDelta? ==> Run(d, start, events).view(p) == x)
    {
      SeenSinceNext(d, start, events, e, j, p, x);
    }
    forall i | 0 <= i < n
      ensures LastFull(all, i) <==> LastFull(events, i) && !e.SendFullState?
      ensures ViewAt(d, start, all, i) == ViewAt(d, start, events, i)
    {
      LastFullNext(events, e, i);
    }
    assert LastFull(all, n) <==> e.SendFullState?;
    assert ViewAt(d, start, all, n) == Run(d, start, events).view;
  }

  lemma LastFullNext(events: seq<Event>, e: Event, i: nat)
    requires i < |events|
    ensures LastFull(events + [e], i) <==> LastFull(events, i) && !e.SendFullState?
  {
    var all := events + [e];
    assert all[|events|] == e && forall m :: 0 <= m < |events| ==> all[m] == events[m];
  }

  /** What the peer shows of a cached tile after one more event. */
  lemma ShownNext(d: Dims, s: System, e: Event, p: Coord, x: Tile)
    requires d.Fit() && d.Contains(p)
    ensures var t := Next(d, s, e);
      CachedAs(t.cache, p, x) && !ShowsAs(t.peer, p, x) <==>
        if e.SendFullState? then CachedAs(s.cache, p, x) && s.view(p) != x
        else CachedAs(s.cache, p, x) && !ShowsAs(s.peer, p, x) && !e.ClearCache? && (e.SendDelta? ==> s.view(p) == x)
  {
    CachedNext(d, s, e, p, x);
    if e.SendFullState? {
      DeltaRepairsExactly(d, map[], s.view, map[], p);
      FullShows(d, s.view, p);
    }
    if e.SendDelta? {
      DeltaRepairsExactly(d, s.cache, s.view, s.peer, p);
      if !IsChanged(s.cache, s.view, p) && CachedAs(s.cache, p, x) {
        StateIsInjective(s.view(p), x);
      }
    }
  }

  lemma FullShows(d: Dims, view: View, p: Coord)
    requires d.Fit() && d.Contains(p)
    ensures Shows(Replay(map[], Decode(Encode(Delta(map[], view, Cells(d))))), view, p)
  {
    DeltaRepairsExactly(d, map[], view, map[], p);
  }

  /** The peer shows a tile other than the cache knows it exactly when a full state overwrote it. */
  lemma {:induction false} OverwrittenExactly(d: Dims, start: View, events: seq<Event>, p: Coord, x: Tile)
    requires d.Fit() && d.Contains(p)
    ensures var s := Run(d, start, events);
      CachedAs(s.cache, p, x) && !ShowsAs(s.peer, p, x) <==> Overwritten(d, start, events, p, x)
  {
    if events != [] {
      var n := |events| - 1;
      SplitLast(events);
      OverwrittenExactly(d, start, events[..n], p, x);
      CachedExactly(d, start, events[..n], p, x);
      OverwrittenNext(d, start, events[..n], events[n], p, x);
      ShownNext(d, Run(d, start, events[..n]), events[n], p, x);
    }
  }

  /**
   Over any run at all, a tile is wrong after a delta exactly when the last full state showed it
   as something else, between deltas that, from before it up to this one, all found it as it is now,
   with the cache not cleared in between.
   */
  lemma StaleExactly(d: Dims, start: View, events: seq<Event>, p: Coord)
    requires d.Fit() && d.Contains(p)
    ensures var s := Run(d, start, events + [SendDelta]);
      !Shows(s.peer, s.view, p) <==> Overwritten(d, start, events + [SendDelta], p, s.view(p))
  {
    var s, x := Run(d, start, events), Run(d, start, events).view(p);
    RunLast(d, start, events, SendDelta);
    CachedNext(d, s, SendDelta, p, x);
    OverwrittenExactly(d, start, events + [SendDelta], p, x);
  }

  /** A tile changed and changed back around a full state is shown wrong after the next delta. */
  lemma FullStateCanGoStale(d: Dims, s: System, p: Coord, during: View)
    requires d.Fit() && d.Contains(p) && Cached(s.cache, s.view, p) && during(p) != s.view(p)
    ensures var full := Next(d, Next(d, s, MapChanges(during)), SendFullState);
      var last := Next(d, Next(d, full, MapChanges(s.view)), SendDelta);
      !Shows(last.peer, last.view, p)
  {
    DeltaAfterFullState(d, s.cache, during, s.view, p);
  }
}
