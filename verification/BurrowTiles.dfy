/**
 The tiles of a burrow: a list of 16-by-16 bit masks, one per map block, and
 the count that shifts through their bits.
 */
module BurrowTiles {
  datatype Pos = Pos(x: int, y: int, z: int)

  datatype Block = Block(col: int, row: int, z: int)

  function BlockOf(p: Pos): Block { Block(p.x / 16, p.y / 16, p.z) }

  /** `rows[y]` holds bit `x` for the tile at (x, y) of the block. */
  datatype Mask = Mask(block: Block, rows: seq<nat>)

  // ---------------------------------------------------------------------
  // Bits
  // ---------------------------------------------------------------------

  predicate HasBit(bits: nat, k: nat) {
    if k == 0 then bits % 2 == 1 else HasBit(bits / 2, k - 1)
  }

  /** bits | 1 << k */
  function SetBit(bits: nat, k: nat): nat {
    if k == 0 then bits - bits % 2 + 1 else 2 * SetBit(bits / 2, k - 1) + bits % 2
  }

  function Pop(bits: nat): nat {
    if bits == 0 then 0 else bits % 2 + Pop(bits / 2)
  }

  lemma {:induction false} SetBitSets(bits: nat, k: nat, j: nat)
    ensures HasBit(SetBit(bits, k), j) <==> j == k || HasBit(bits, j)
  {
    if k > 0 {
      assert SetBit(bits, k) / 2 == SetBit(bits / 2, k - 1) && SetBit(bits, k) % 2 == bits % 2;
      if j > 0 {
        SetBitSets(bits / 2, k - 1, j - 1);
      }
    } else {
      assert SetBit(bits, 0) / 2 == bits / 2 && SetBit(bits, 0) % 2 == 1;
    }
  }

  lemma {:induction false} SetBitPop(bits: nat, k: nat)
    ensures Pop(SetBit(bits, k)) == Pop(bits) + if HasBit(bits, k) then 0 else 1
  {
    if k > 0 {
      assert SetBit(bits, k) / 2 == SetBit(bits / 2, k - 1) && SetBit(bits, k) % 2 == bits % 2;
      SetBitPop(bits / 2, k - 1);
      assert bits == 0 ==> bits / 2 == 0;
    } else {
      assert SetBit(bits, 0) / 2 == bits / 2;
    }
  }

  lemma {:induction false} NoBits(k: nat)
    ensures !HasBit(0, k)
  {
    if k > 0 {
      NoBits(k - 1);
    }
  }

  /** The counting loop of countBurrowTiles on one row. */
  method CountBits(bits: nat) returns (total: nat)
    ensures total == Pop(bits)
  {
    total := 0;
    var rest := bits;
    while rest != 0
      invariant total + Pop(rest) == Pop(bits)
    {
      total := total + rest % 2;
      rest := rest / 2;
    }
  }

  // ---------------------------------------------------------------------
  // Masks
  // ---------------------------------------------------------------------

  /** One mask per block, of sixteen rows. */
  ghost predicate GoodMasks(masks: seq<Mask>) {
    && (forall i :: 0 <= i < |masks| ==> |masks[i].rows| == 16)
    && (forall i, j :: 0 <= i < j < |masks| ==> masks[i].block != masks[j].block)
  }

  function Find(masks: seq<Mask>, block: Block): (k: nat)
    ensures k <= |masks|
    ensures k < |masks| ==> masks[k].block == block
    ensures forall j :: 0 <= j < k ==> masks[j].block != block
  {
    if masks == [] || masks[0].block == block then 0 else 1 + Find(masks[1..], block)
  }

  predicate MaskHas(mask: Mask, p: Pos) {
    |mask.rows| == 16 && HasBit(mask.rows[p.y % 16], p.x % 16)
  }

  /** Burrows::isAssignedTile */
  predicate Assigned(masks: seq<Mask>, p: Pos) {
    var k := Find(masks, BlockOf(p));
    k < |masks| && MaskHas(masks[k], p)
  }

  function MaskSet(mask: Mask, p: Pos): Mask
    requires |mask.rows| == 16
  {
    mask.(rows := mask.rows[p.y % 16 := SetBit(mask.rows[p.y % 16], p.x % 16)])
  }

  function EmptyRows(): (rows: seq<nat>)
    ensures |rows| == 16 && forall y :: 0 <= y < 16 ==> rows[y] == 0
  {
    seq(16, _ => 0)
  }

  /** Burrows::setAssignedTile, which makes the block's mask when there is none. */
  function Assign(masks: seq<Mask>, p: Pos): seq<Mask>
    requires GoodMasks(masks)
  {
    var k := Find(masks, BlockOf(p));
    if k < |masks| then masks[k := MaskSet(masks[k], p)] else masks + [MaskSet(Mask(BlockOf(p), EmptyRows()), p)]
  }

  lemma {:induction false} FoundIsFirst(masks: seq<Mask>, block: Block, k: nat)
    requires k <= |masks| && (k < |masks| ==> masks[k].block == block)
    requires forall j :: 0 <= j < k ==> masks[j].block != block
    ensures Find(masks, block) == k
  {
    var found := Find(masks, block);
    var a, b := if found < |masks| then masks[found].block else block, if k < |masks| then masks[k].block else block;
  }

  lemma AssignKeepsGood(masks: seq<Mask>, p: Pos)
    requires GoodMasks(masks)
    ensures GoodMasks(Assign(masks, p))
  {
  }

  lemma MaskSetExactly(mask: Mask, p: Pos, q: Pos)
    requires |mask.rows| == 16 && BlockOf(p) == BlockOf(q)
    ensures MaskHas(MaskSet(mask, p), q) <==> q == p || MaskHas(mask, q)
  {
    assert p.x == 16 * (p.x / 16) + p.x % 16 && q.x == 16 * (q.x / 16) + q.x % 16;
    assert p.y == 16 * (p.y / 16) + p.y % 16 && q.y == 16 * (q.y / 16) + q.y % 16;
    SetBitSets(mask.rows[p.y % 16], p.x % 16, q.x % 16);
  }

  /** Assigning a tile assigns that tile and no other. */
  lemma AssignExactly(masks: seq<Mask>, p: Pos, q: Pos)
    requires GoodMasks(masks)
    ensures Assigned(Assign(masks, p), q) <==> q == p || Assigned(masks, q)
  {
    var k, after := Find(masks, BlockOf(p)), Assign(masks, p);
    var i := Find(masks, BlockOf(q));
    var was := if k < |masks| then masks[k] else Mask(BlockOf(p), EmptyRows());
    if BlockOf(q) == BlockOf(p) {
      FoundIsFirst(after, BlockOf(q), k);
      MaskSetExactly(was, p, q);
      NoBits(q.x % 16);
    } else {
      FoundIsFirst(after, BlockOf(q), if i < |masks| then i else |after|);
    }
  }

  function RowsTotal(rows: seq<nat>): nat {
    if rows == [] then 0 else RowsTotal(rows[..|rows| - 1]) + Pop(rows[|rows| - 1])
  }

  function Total(masks: seq<Mask>): nat {
    if masks == [] then 0 else Total(masks[..|masks| - 1]) + RowsTotal(masks[|masks| - 1].rows)
  }

  /** The counting loops of countBurrowTiles. */
  method CountTiles(masks: seq<Mask>) returns (total: nat)
    ensures total == Total(masks)
  {
    total := 0;
    for i := 0 to |masks|
      invariant total == Total(masks[..i])
    {
      var n := CountRows(masks[i].rows);
      assert masks[..i + 1][..i] == masks[..i];
      total := total + n;
    }
    assert masks[..|masks|] == masks;
  }

  method CountRows(rows: seq<nat>) returns (total: nat)
    ensures total == RowsTotal(rows)
  {
    total := 0;
    for y := 0 to |rows|
      invariant total == RowsTotal(rows[..y])
    {
      var n := CountBits(rows[y]);
      assert rows[..y + 1][..y] == rows[..y];
      total := total + n;
    }
    assert rows[..|rows|] == rows;
  }

  lemma {:induction false} RowsTotalUpdate(rows: seq<nat>, y: nat, bits: nat)
    requires y < |rows|
    ensures RowsTotal(rows[y := bits]) == RowsTotal(rows) - Pop(rows[y]) + Pop(bits)
  {
    var n := |rows| - 1;
    if y == n {
      assert rows[y := bits][..n] == rows[..n];
    } else {
      assert rows[y := bits][..n] == rows[..n][y := bits];
      RowsTotalUpdate(rows[..n], y, bits);
    }
  }

  lemma {:induction false} TotalUpdate(masks: seq<Mask>, k: nat, mask: Mask)
    requires k < |masks|
    ensures Total(masks[k := mask]) == Total(masks) - RowsTotal(masks[k].rows) + RowsTotal(mask.rows)
  {
    var n := |masks| - 1;
    if k == n {
      assert masks[k := mask][..n] == masks[..n];
    } else {
      assert masks[k := mask][..n] == masks[..n][k := mask];
      TotalUpdate(masks[..n], k, mask);
    }
  }

  lemma {:induction false} EmptyRowsTotal(rows: seq<nat>)
    requires forall y :: 0 <= y < |rows| ==> rows[y] == 0
    ensures RowsTotal(rows) == 0
  {
    if rows != [] {
      EmptyRowsTotal(rows[..|rows| - 1]);
    }
  }

  /** Assigning a tile raises the count by one, or by nothing if it was assigned. */
  lemma AssignCounts(masks: seq<Mask>, p: Pos)
    requires GoodMasks(masks)
    ensures Total(Assign(masks, p)) == Total(masks) + if Assigned(masks, p) then 0 else 1
  {
    var k := Find(masks, BlockOf(p));
    var mask := if k < |masks| then masks[k] else Mask(BlockOf(p), EmptyRows());
    var y, x := p.y % 16, p.x % 16;
    SetBitPop(mask.rows[y], x);
    RowsTotalUpdate(mask.rows, y, SetBit(mask.rows[y], x));
    if k < |masks| {
      TotalUpdate(masks, k, MaskSet(mask, p));
    } else {
      NoBits(x);
      EmptyRowsTotal(EmptyRows());
      assert (masks + [MaskSet(mask, p)])[..|masks|] == masks;
    }
  }

  // ---------------------------------------------------------------------
  // The count is the size of the burrow
  // ---------------------------------------------------------------------

  /** The tiles a row stands for, its lowest bit at (x, y, z). */
  function RowTiles(bits: nat, x: int, y: int, z: int): set<Pos> {
    if bits == 0 then {}
    else (if bits % 2 == 1 then {Pos(x, y, z)} else {}) + RowTiles(bits / 2, x + 1, y, z)
  }

  lemma {:induction false} RowTilesExactly(bits: nat, x: int, y: int, z: int, p: Pos)
    ensures p in RowTiles(bits, x, y, z) <==> p.y == y && p.z == z && p.x >= x && HasBit(bits, p.x - x)
  {
    if bits == 0 {
      if p.x >= x {
        NoBits(p.x - x);
      }
    } else {
      RowTilesExactly(bits / 2, x + 1, y, z, p);
    }
  }

  lemma {:induction false} RowTilesSize(bits: nat, x: int, y: int, z: int)
    ensures |RowTiles(bits, x, y, z)| == Pop(bits)
  {
    if bits != 0 {
      RowTilesSize(bits / 2, x + 1, y, z);
      RowTilesExactly(bits / 2, x + 1, y, z, Pos(x, y, z));
      var rest := RowTiles(bits / 2, x + 1, y, z);
      assert {} + rest == rest;
    }
  }

  /** The tiles of the first rows of a block. */
  function RowsTiles(rows: seq<nat>, x: int, y: int, z: int): set<Pos> {
    if rows == [] then {}
    else RowsTiles(rows[..|rows| - 1], x, y, z) + RowTiles(rows[|rows| - 1], x, y + |rows| - 1, z)
  }

  lemma {:induction false} RowsTilesExactly(rows: seq<nat>, x: int, y: int, z: int, p: Pos)
    ensures p in RowsTiles(rows, x, y, z) <==>
      y <= p.y < y + |rows| && p.z == z && p.x >= x && HasBit(rows[p.y - y], p.x - x)
  {
    if rows != [] {
      var n := |rows| - 1;
      RowsTilesExactly(rows[..n], x, y, z, p);
      RowTilesExactly(rows[n], x, y + n, z, p);
    }
  }

  lemma NextRowIsApart(rows: seq<nat>, bits: nat, x: int, y: int, z: int)
    ensures RowsTiles(rows, x, y, z) !! RowTiles(bits, x, y + |rows|, z)
  {
    forall p | p in RowsTiles(rows, x, y, z) ensures p !in RowTiles(bits, x, y + |rows|, z) {
      RowsTilesExactly(rows, x, y, z, p);
      RowTilesExactly(bits, x, y + |rows|, z, p);
    }
  }

  lemma ApartSize(a: set<Pos>, b: set<Pos>)
    requires a !! b
    ensures |a + b| == |a| + |b|
  {
  }

  lemma {:induction false} RowsTilesSize(rows: seq<nat>, x: int, y: int, z: int)
    ensures |RowsTiles(rows, x, y, z)| == RowsTotal(rows)
  {
    if rows != [] {
      var front, bits := rows[..|rows| - 1], rows[|rows| - 1];
      RowsTilesSize(front, x, y, z);
      OneMoreCount(front, bits, x, y, z);
      assert front + [bits] == rows;
    }
  }

  lemma OneMoreCount(rows: seq<nat>, bits: nat, x: int, y: int, z: int)
    ensures |RowsTiles(rows + [bits], x, y, z)| == |RowsTiles(rows, x, y, z)| + Pop(bits)
  {
    OneMoreRow(rows, bits, x, y, z);
    RowTilesSize(bits, x, y + |rows|, z);
  }

  lemma OneMoreRow(rows: seq<nat>, bits: nat, x: int, y: int, z: int)
    ensures |RowsTiles(rows + [bits], x, y, z)| == |RowsTiles(rows, x, y, z)| + |RowTiles(bits, x, y + |rows|, z)|
  {
    RowsTilesAppend(rows, bits, x, y, z);
    NextRowSize(RowsTiles(rows, x, y, z), RowTiles(bits, x, y + |rows|, z), rows, bits, x, y, z);
  }

  lemma NextRowSize(front: set<Pos>, last: set<Pos>, rows: seq<nat>, bits: nat, x: int, y: int, z: int)
    requires front == RowsTiles(rows, x, y, z) && last == RowTiles(bits, x, y + |rows|, z)
    ensures |front + last| == |front| + |last|
  {
    NextRowIsApart(rows, bits, x, y, z);
    ApartSize(front, last);
  }

  lemma RowsTilesAppend(rows: seq<nat>, bits: nat, x: int, y: int, z: int)
    ensures RowsTiles(rows + [bits], x, y, z) == RowsTiles(rows, x, y, z) + RowTiles(bits, x, y + |rows|, z)
  {
    assert (rows + [bits])[..|rows|] == rows;
  }

  /** Every row fits sixteen bits. */
  ghost predicate Narrow(rows: seq<nat>) {
    forall y, k :: 0 <= y < |rows| && k >= 16 ==> !HasBit(rows[y], k)
  }

  ghost predicate NarrowRows(masks: seq<Mask>) {
    forall i :: 0 <= i < |masks| ==> Narrow(masks[i].rows)
  }

  function Tiles(masks: seq<Mask>): set<Pos> {
    if masks == [] then {}
    else
      var mask := masks[|masks| - 1];
      Tiles(masks[..|masks| - 1]) + RowsTiles(mask.rows, 16 * mask.block.col, 16 * mask.block.row, mask.block.z)
  }

  lemma MaskTilesExactly(mask: Mask, p: Pos)
    requires |mask.rows| == 16 && Narrow(mask.rows)
    ensures p in RowsTiles(mask.rows, 16 * mask.block.col, 16 * mask.block.row, mask.block.z)
      <==> BlockOf(p) == mask.block && MaskHas(mask, p)
  {
    var x, y := 16 * mask.block.col, 16 * mask.block.row;
    RowsTilesExactly(mask.rows, x, y, mask.block.z, p);
    assert p.x == 16 * (p.x / 16) + p.x % 16 && p.y == 16 * (p.y / 16) + p.y % 16;
    if y <= p.y < y + 16 && p.x >= x + 16 {
      assert !HasBit(mask.rows[p.y - y], p.x - x);
    }
  }

  /** The bit count is the number of assigned tiles. */
  lemma {:induction false} TotalIsSize(masks: seq<Mask>)
    requires GoodMasks(masks) && NarrowRows(masks)
    ensures |Tiles(masks)| == Total(masks)
    ensures forall p :: p in Tiles(masks) <==> Assigned(masks, p)
  {
    if masks != [] {
      var n := |masks| - 1;
      var front, mask := masks[..n], masks[n];
      var last := RowsTiles(mask.rows, 16 * mask.block.col, 16 * mask.block.row, mask.block.z);
      TotalIsSize(front);
      RowsTilesSize(mask.rows, 16 * mask.block.col, 16 * mask.block.row, mask.block.z);
      forall p ensures (p in last <==> BlockOf(p) == mask.block && MaskHas(mask, p))
        && (Assigned(masks, p) <==> Assigned(front, p) || (BlockOf(p) == mask.block && MaskHas(mask, p)))
        && !(p in Tiles(front) && p in last)
      {
        MaskTilesExactly(mask, p);
        AssignedInFront(masks, p);
      }
      assert Tiles(front) !! last;
    }
  }

  lemma AssignedInFront(masks: seq<Mask>, p: Pos)
    requires GoodMasks(masks) && masks != []
    ensures var n := |masks| - 1;
      && (Assigned(masks, p) <==> Assigned(masks[..n], p) || (BlockOf(p) == masks[n].block && MaskHas(masks[n], p)))
      && (BlockOf(p) == masks[n].block ==> !Assigned(masks[..n], p))
  {
    var n := |masks| - 1;
    var k := Find(masks[..n], BlockOf(p));
    if k < n {
      FoundIsFirst(masks, BlockOf(p), k);
      assert masks[k].block != masks[n].block;
    } else if BlockOf(p) == masks[n].block {
      FoundIsFirst(masks, BlockOf(p), n);
    } else {
      FoundIsFirst(masks, BlockOf(p), n + 1);
    }
  }

  lemma AssignKeepsNarrow(masks: seq<Mask>, p: Pos)
    requires GoodMasks(masks) && NarrowRows(masks)
    ensures NarrowRows(Assign(masks, p))
  {
    var k, after := Find(masks, BlockOf(p)), Assign(masks, p);
    var was := if k < |masks| then masks[k].rows else EmptyRows();
    forall y, j | 0 <= y < 16 && j >= 16 ensures !HasBit(was[y], j) {
      NoBits(j);
      assert k < |masks| ==> Narrow(masks[k].rows);
    }
    forall i | 0 <= i < |after| ensures Narrow(after[i].rows) {
      if i == k {
        forall y, j | 0 <= y < 16 && j >= 16 ensures !HasBit(after[k].rows[y], j) {
          SetBitSets(was[p.y % 16], p.x % 16, j);
        }
      } else {
        assert Narrow(masks[i].rows);
      }
    }
  }

  // ---------------------------------------------------------------------
  // Painting a box
  // ---------------------------------------------------------------------

  datatype Box = Box(x1: int, y1: int, z1: int, x2: int, y2: int, z2: int)

  predicate InBox(box: Box, p: Pos) {
    box.x1 <= p.x <= box.x2 && box.y1 <= p.y <= box.y2 && box.z1 <= p.z <= box.z2
  }

  ghost predicate Sound(masks: seq<Mask>) { GoodMasks(masks) && NarrowRows(masks) }

  /** `after` has the tiles of `before` and those of the box. */
  ghost predicate Grown(before: seq<Mask>, after: seq<Mask>, box: Box) {
    && Sound(before) && Sound(after)
    && forall p :: Assigned(after, p) <==> Assigned(before, p) || InBox(box, p)
  }

  ghost predicate SplitsInto(whole: Box, one: Box, two: Box) {
    forall p :: InBox(whole, p) <==> InBox(one, p) || InBox(two, p)
  }

  lemma GrownJoins(a: seq<Mask>, b: seq<Mask>, c: seq<Mask>, one: Box, two: Box, whole: Box)
    requires Grown(a, b, one) && Grown(b, c, two) && SplitsInto(whole, one, two)
    ensures Grown(a, c, whole)
  {
    forall p ensures Assigned(c, p) <==> Assigned(a, p) || InBox(whole, p) {
      assert Assigned(c, p) <==> Assigned(b, p) || InBox(two, p);
      assert Assigned(b, p) <==> Assigned(a, p) || InBox(one, p);
      assert InBox(whole, p) <==> InBox(one, p) || InBox(two, p);
    }
  }

  /** The tiles a painting adds are those of the box that were not assigned, and the bit count rises by their number. */
  lemma PaintingAddsExactly(before: seq<Mask>, after: seq<Mask>, box: Box)
    requires Grown(before, after, box)
    ensures forall p :: p in Tiles(after) - Tiles(before) <==> InBox(box, p) && !Assigned(before, p)
    ensures Total(after) - Total(before) == |Tiles(after) - Tiles(before)|
  {
    TotalIsSize(before);
    TotalIsSize(after);
    var was, now := Tiles(before), Tiles(after);
    assert was <= now;
    assert now == was + (now - was);
    ApartSize(was, now - was);
  }

  /** Painting a box again adds nothing. */
  lemma PaintingAgainAddsNothing(before: seq<Mask>, after: seq<Mask>, again: seq<Mask>, box: Box)
    requires Grown(before, after, box) && Grown(after, again, box)
    ensures Total(again) == Total(after) && Tiles(again) == Tiles(after)
  {
    PaintingAddsExactly(after, again, box);
    TotalIsSize(after);
    TotalIsSize(again);
    forall p ensures p in Tiles(again) <==> p in Tiles(after) {
      assert Assigned(after, p) <==> Assigned(before, p) || InBox(box, p);
      assert Assigned(again, p) <==> Assigned(after, p) || InBox(box, p);
    }
    assert Tiles(again) - Tiles(after) == {};
  }
}
