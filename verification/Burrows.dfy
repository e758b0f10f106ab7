/**
 Burrows and the civilian alert: painting tiles into a named burrow, removing
 one, and sounding or clearing the alert over a set of them.
 */
module Burrows {
  import opened BurrowTiles

  datatype Value = Value(id: int, name: string, masks: seq<Mask>, units: seq<int>)

  datatype Alert = Alert(id: int, name: string, members: seq<int>)

  /** plotinfo: burrows, alerts and the index of the alert in force, 0 for none. */
  datatype State = State(burrows: seq<Value>, nextId: int, alerts: seq<Alert>, nextAlertId: int, civAlert: int)

  // ---------------------------------------------------------------------
  // The sorted member list
  // ---------------------------------------------------------------------

  ghost predicate Sorted(s: seq<int>) {
    forall i, j :: 0 <= i < j < |s| ==> s[i] < s[j]
  }

  /** std::lower_bound */
  method LowerBound(s: seq<int>, id: int) returns (k: nat)
    requires Sorted(s)
    ensures k <= |s|
    ensures forall i :: 0 <= i < k ==> s[i] < id
    ensures forall i :: k <= i < |s| ==> id <= s[i]
  {
    k := 0;
    var hi := |s|;
    while k < hi
      invariant 0 <= k <= hi <= |s|
      invariant forall i :: 0 <= i < k ==> s[i] < id
      invariant forall i :: hi <= i < |s| ==> id <= s[i]
    {
      var mid := k + (hi - k) / 2;
      if s[mid] < id {
        k := mid + 1;
      } else {
        hi := mid;
      }
    }
  }

  function Inserted(s: seq<int>, id: int): seq<int> {
    if s == [] || id < s[0] then [id] + s
    else if s[0] == id then s
    else [s[0]] + Inserted(s[1..], id)
  }

  function Erased(s: seq<int>, id: int): seq<int> {
    if s == [] then []
    else if s[0] == id then s[1..]
    else [s[0]] + Erased(s[1..], id)
  }

  lemma {:induction false} InsertedExactly(s: seq<int>, id: int)
    requires Sorted(s)
    ensures Sorted(Inserted(s, id)) && Inserted(s, id) != []
    ensures forall x :: x in Inserted(s, id) <==> x == id || x in s
  {
    if s != [] && s[0] < id {
      InsertedExactly(s[1..], id);
      var rest := Inserted(s[1..], id);
      forall j | 0 <= j < |rest| ensures s[0] < rest[j] {
        assert rest[j] in rest;
      }
      assert s == [s[0]] + s[1..];
    }
  }

  lemma {:induction false} ErasedExactly(s: seq<int>, id: int)
    requires Sorted(s)
    ensures Sorted(Erased(s, id))
    ensures forall x :: x in Erased(s, id) <==> x != id && x in s
  {
    if s != [] {
      assert s == [s[0]] + s[1..];
      if s[0] != id {
        ErasedExactly(s[1..], id);
        var rest := Erased(s[1..], id);
        forall j | 0 <= j < |rest| ensures s[0] < rest[j] {
          assert rest[j] in rest;
        }
      }
    }
  }

  lemma HeadAndTail(s: seq<int>, i: nat, j: nat)
    requires 0 < i <= j <= |s|
    ensures s[..i] == [s[0]] + s[1..][..i - 1] && s[j..] == s[1..][j - 1..]
  {
  }

  lemma {:induction false} InsertedAt(s: seq<int>, id: int, k: nat)
    requires Sorted(s) && k <= |s| && (forall i :: 0 <= i < k ==> s[i] < id) && (k < |s| ==> id < s[k])
    ensures Inserted(s, id) == s[..k] + [id] + s[k..]
  {
    if k > 0 {
      InsertedAt(s[1..], id, k - 1);
      HeadAndTail(s, k, k);
    } else {
      assert s[..0] + [id] + s[0..] == [id] + s;
    }
  }

  lemma {:induction false} ErasedAt(s: seq<int>, id: int, k: nat)
    requires Sorted(s) && k < |s| && s[k] == id
    ensures Erased(s, id) == s[..k] + s[k + 1..]
  {
    if k > 0 {
      assert s[0] < s[k];
      ErasedAt(s[1..], id, k - 1);
      HeadAndTail(s, k, k + 1);
    } else {
      assert s[..0] + s[1..] == s[1..];
    }
  }

  lemma {:induction false} EraseUndoesInsert(s: seq<int>, id: int)
    requires Sorted(s) && id !in s
    ensures Erased(Inserted(s, id), id) == s
  {
    if s == [] || id < s[0] {
      assert ([id] + s)[1..] == s;
    } else {
      EraseUndoesInsert(s[1..], id);
      var rest := Inserted(s[1..], id);
      assert ([s[0]] + rest)[1..] == rest;
    }
  }

  // ---------------------------------------------------------------------
  // What each command does
  // ---------------------------------------------------------------------

  /** The first burrow of the name, or the number of burrows. */
  function Named(burrows: seq<Value>, name: string): (k: nat)
    ensures k <= |burrows|
    ensures k < |burrows| ==> burrows[k].name == name
    ensures forall j :: 0 <= j < k ==> burrows[j].name != name
  {
    if burrows == [] || burrows[0].name == name then 0 else 1 + Named(burrows[1..], name)
  }

  lemma FirstIsNamed(burrows: seq<Value>, name: string, k: nat)
    requires k <= |burrows| && (k < |burrows| ==> burrows[k].name == name)
    requires forall j :: 0 <= j < k ==> burrows[j].name != name
    ensures Named(burrows, name) == k
  {
    var n := Named(burrows, name);
    var a, b := if n < |burrows| then burrows[n].name else name, if k < |burrows| then burrows[k].name else name;
  }

  /** What the command paints into: the named burrow, or a new one at the end of the list. */
  function WithBurrow(s: State, name: string): State {
    if Named(s.burrows, name) < |s.burrows| then s
    else s.(burrows := s.burrows + [Value(s.nextId, name, [], [])], nextId := s.nextId + 1)
  }

  /** getOrCreateCivAlert: the alert list has at least two entries. */
  function Bootstrapped(s: State): (r: State)
    ensures |r.alerts| >= 2 && s.alerts <= r.alerts
    ensures forall i :: |s.alerts| <= i < |r.alerts| ==> r.alerts[i].members == []
    ensures r.(alerts := [], nextAlertId := 0) == s.(alerts := [], nextAlertId := 0)
    decreases 2 - |s.alerts|
  {
    if |s.alerts| >= 2 then s
    else Bootstrapped(s.(alerts := s.alerts + [Alert(s.nextAlertId, "civ-alert", [])],
                         nextAlertId := s.nextAlertId + 1))
  }

  function Members(s: State): seq<int> {
    if |s.alerts| > 1 then s.alerts[1].members else []
  }

  function WithMembers(s: State, members: seq<int>): State
    requires |s.alerts| > 1
  {
    s.(alerts := s.alerts[1 := s.alerts[1].(members := members)])
  }

  /** A burrow leaves the civilian alert; the last one to leave silences it. */
  function Left(s: State, id: int): State {
    if id !in Members(s) then s
    else
      var members := Erased(Members(s), id);
      WithMembers(s, members).(civAlert := if members == [] then 0 else s.civAlert)
  }

  function Alerted(s: State, name: string, active: bool): State {
    var k := Named(s.burrows, name);
    if k == |s.burrows| then s
    else
      var b, id := Bootstrapped(s), s.burrows[k].id;
      if active
      then WithMembers(b, Inserted(Members(b), id)).(civAlert := if b.civAlert == 0 then 1 else b.civAlert)
      else Left(b, id)
  }

  function Removed(s: State, name: string): State {
    var k := Named(s.burrows, name);
    if k == |s.burrows| then s
    else Left(s, s.burrows[k].id).(burrows := s.burrows[..k] + s.burrows[k + 1..])
  }

  lemma RemovedAt(s: State, name: string, k: nat)
    requires k == Named(s.burrows, name) < |s.burrows|
    ensures var left := Left(s, s.burrows[k].id);
      Removed(s, name) == left.(burrows := left.burrows[..k] + left.burrows[k + 1..])
  {
  }

  datatype Map = Map(xs: int, ys: int, zs: int)

  /** Maps::isValidTilePos of both corners, and the corners in order. */
  predicate Paintable(m: Map, name: string, box: Box) {
    && name != ""
    && 0 <= box.x1 <= box.x2 < m.xs && 0 <= box.y1 <= box.y2 < m.ys && 0 <= box.z1 <= box.z2 < m.zs
  }

  ghost predicate Designated(m: Map, s: State, name: string, box: Box, t: State) {
    if !Paintable(m, name, box) then t == s
    else
      var base, k := WithBurrow(s, name), Named(s.burrows, name);
      && |t.burrows| == |base.burrows|
      && t == base.(burrows := base.burrows[k := base.burrows[k].(masks := t.burrows[k].masks)])
      && Grown(base.burrows[k].masks, t.burrows[k].masks, box)
  }

  // ---------------------------------------------------------------------
  // The commands
  // ---------------------------------------------------------------------

  function Volume(box: Box): int { (box.z2 - box.z1 + 1) * ((box.y2 - box.y1 + 1) * (box.x2 - box.x1 + 1)) }

  lemma AssignGrows(masks: seq<Mask>, p: Pos)
    requires Sound(masks)
    ensures Grown(masks, Assign(masks, p), Box(p.x, p.y, p.z, p.x, p.y, p.z))
  {
    AssignKeepsGood(masks, p);
    AssignKeepsNarrow(masks, p);
    forall q ensures Assigned(Assign(masks, p), q) <==> q == p || Assigned(masks, q) {
      AssignExactly(masks, p, q);
    }
  }

  class Burrow {
    const id: int
    const name: string
    var masks: seq<Mask>
    var units: seq<int>

    constructor (id: int, name: string)
      ensures Current() == Value(id, name, [], [])
    {
      this.id, this.name := id, name;
      masks, units := [], [];
    }

    function Current(): Value
      reads this
    {
      Value(id, name, masks, units)
    }

    method PaintTile(p: Pos) returns (added: nat)
      requires Sound(masks)
      modifies `masks
      ensures Grown(old(masks), masks, Box(p.x, p.y, p.z, p.x, p.y, p.z))
      ensures added <= 1 && Total(masks) == Total(old(masks)) + added
    {
      if Assigned(masks, p) {
        return 0;
      }
      AssignCounts(masks, p);
      AssignGrows(masks, p);
      masks := Assign(masks, p);
      added := 1;
    }

    method PaintRow(box: Box, y: int, z: int) returns (painted: nat, alreadyIn: nat)
      requires Sound(masks) && box.x1 <= box.x2
      modifies `masks
      ensures Grown(old(masks), masks, Box(box.x1, y, z, box.x2, y, z))
      ensures Total(masks) == Total(old(masks)) + painted && painted + alreadyIn == box.x2 - box.x1 + 1
    {
      painted, alreadyIn := 0, 0;
      var x := box.x1;
      while x <= box.x2
        invariant box.x1 <= x <= box.x2 + 1
        invariant Grown(old(masks), masks, Box(box.x1, y, z, x - 1, y, z))
        invariant Total(masks) == Total(old(masks)) + painted && painted + alreadyIn == x - box.x1
      {
        ghost var was := masks;
        var added := PaintTile(Pos(x, y, z));
        GrownJoins(old(masks), was, masks, Box(box.x1, y, z, x - 1, y, z), Box(x, y, z, x, y, z),
                   Box(box.x1, y, z, x, y, z));
        painted, alreadyIn := painted + added, alreadyIn + (1 - added);
        x := x + 1;
      }
    }

    method PaintLevel(box: Box, z: int) returns (painted: nat, alreadyIn: nat)
      requires Sound(masks) && box.x1 <= box.x2 && box.y1 <= box.y2
      modifies `masks
      ensures Grown(old(masks), masks, Box(box.x1, box.y1, z, box.x2, box.y2, z))
      ensures Total(masks) == Total(old(masks)) + painted
      ensures painted + alreadyIn == (box.y2 - box.y1 + 1) * (box.x2 - box.x1 + 1)
    {
      painted, alreadyIn := 0, 0;
      var y := box.y1;
      while y <= box.y2
        invariant box.y1 <= y <= box.y2 + 1
        invariant Grown(old(masks), masks, Box(box.x1, box.y1, z, box.x2, y - 1, z))
        invariant Total(masks) == Total(old(masks)) + painted
        invariant painted + alreadyIn == (y - box.y1) * (box.x2 - box.x1 + 1)
      {
        ghost var was := masks;
        var more, had := PaintRow(box, y, z);
        GrownJoins(old(masks), was, masks, Box(box.x1, box.y1, z, box.x2, y - 1, z), Box(box.x1, y, z, box.x2, y, z),
                   Box(box.x1, box.y1, z, box.x2, y, z));
        OneMore(y - box.y1, box.x2 - box.x1 + 1);
        painted, alreadyIn := painted + more, alreadyIn + had;
        y := y + 1;
      }
    }

    /** The three loops of applyDesignateBurrow. */
    method PaintBox(box: Box) returns (painted: nat, alreadyIn: nat)
      requires Sound(masks) && box.x1 <= box.x2 && box.y1 <= box.y2 && box.z1 <= box.z2
      modifies `masks
      ensures Grown(old(masks), masks, box)
      ensures Total(masks) == Total(old(masks)) + painted && painted + alreadyIn == Volume(box)
    {
      painted, alreadyIn := 0, 0;
      ghost var area := (box.y2 - box.y1 + 1) * (box.x2 - box.x1 + 1);
      var z := box.z1;
      while z <= box.z2
        invariant box.z1 <= z <= box.z2 + 1
        invariant Grown(old(masks), masks, box.(z2 := z - 1))
        invariant Total(masks) == Total(old(masks)) + painted && painted + alreadyIn == (z - box.z1) * area
      {
        ghost var was := masks;
        var more, had := PaintLevel(box, z);
        GrownJoins(old(masks), was, masks, box.(z2 := z - 1), Box(box.x1, box.y1, z, box.x2, box.y2, z), box.(z2 := z));
        OneMore(z - box.z1, area);
        painted, alreadyIn := painted + more, alreadyIn + had;
        z := z + 1;
      }
    }

    /** countBurrowTiles */
    method CountBurrowTiles() returns (total: nat)
      requires Sound(masks)
      ensures total == |Tiles(masks)| && forall p :: p in Tiles(masks) <==> Assigned(masks, p)
    {
      total := CountTiles(masks);
      TotalIsSize(masks);
    }
  }

  lemma OneMore(n: int, k: int)
    ensures (n + 1) * k == n * k + k
  {
  }

  function Values(burrows: seq<Burrow>): (values: seq<Value>)
    reads burrows
    ensures |values| == |burrows| && forall i :: 0 <= i < |values| ==> values[i] == burrows[i].Current()
  {
    seq(|burrows|, i requires 0 <= i < |burrows| reads burrows => burrows[i].Current())
  }

  ghost predicate NoAliases(burrows: seq<Burrow>) {
    forall i, j :: 0 <= i < j < |burrows| ==> burrows[i] != burrows[j]
  }

  ghost predicate SoundMasks(burrows: seq<Value>) {
    forall i :: 0 <= i < |burrows| ==> Sound(burrows[i].masks)
  }

  class Plot {
    const dims: Map
    var burrows: seq<Burrow>
    var nextId: int
    var alerts: seq<Alert>
    var nextAlertId: int
    var civAlert: int

    constructor (dims: Map)
      ensures NoAliases(burrows) && Snapshot() == State([], 0, [], 0, 0)
    {
      this.dims := dims;
      burrows, nextId, alerts, nextAlertId, civAlert := [], 0, [], 0, 0;
    }

    function Snapshot(): State
      reads this, burrows
    {
      State(Values(burrows), nextId, alerts, nextAlertId, civAlert)
    }

    /** Burrows::findByName */
    method FindByName(name: string) returns (k: nat)
      ensures k == Named(Values(burrows), name)
    {
      k := 0;
      while k < |burrows| && burrows[k].name != name
        invariant k <= |burrows|
        invariant forall j :: 0 <= j < k ==> Values(burrows)[j].name != name
      {
        k := k + 1;
      }
      FirstIsNamed(Values(burrows), name, k);
    }

    /** The named burrow, created when there is none. */
    method Create(name: string)
      requires NoAliases(burrows)
      modifies `burrows, `nextId
      ensures NoAliases(burrows) && nextId == old(nextId) + 1
      ensures Values(burrows) == old(Values(burrows)) + [Value(old(nextId), name, [], [])]
      ensures forall i :: 0 <= i < |burrows| ==> burrows[i] in old(burrows) || fresh(burrows[i])
    {
      var burrow := new Burrow(nextId, name);
      nextId := nextId + 1;
      burrows := burrows + [burrow];
    }

    method FindOrCreate(name: string) returns (k: nat)
      requires NoAliases(burrows)
      modifies `burrows, `nextId
      ensures NoAliases(burrows) && k == Named(old(Values(burrows)), name) < |burrows|
      ensures Snapshot() == WithBurrow(old(Snapshot()), name)
      ensures forall i :: 0 <= i < |burrows| ==> burrows[i] in old(burrows) || fresh(burrows[i])
    {
      k := FindByName(name);
      if k == |burrows| {
        Create(name);
      }
    }

    /** applyDesignateBurrow */
    method ApplyDesignateBurrow(name: string, box: Box) returns (ok: bool, painted: nat, alreadyIn: nat)
      requires NoAliases(burrows) && SoundMasks(Values(burrows))
      modifies `burrows, `nextId, burrows
      ensures ok <==> Paintable(dims, name, box)
      ensures NoAliases(burrows) && Designated(dims, old(Snapshot()), name, box, Snapshot())
      ensures ok ==>
        var base, k := WithBurrow(old(Snapshot()), name), Named(old(Values(burrows)), name);
        && painted + alreadyIn == Volume(box)
        && Total(Values(burrows)[k].masks) == Total(base.burrows[k].masks) + painted
    {
      ok, painted, alreadyIn := false, 0, 0;
      if name == "" || !OnMap(dims, box.x1, box.y1, box.z1) || !OnMap(dims, box.x2, box.y2, box.z2) {
        return;
      }
      if box.x2 < box.x1 || box.y2 < box.y1 || box.z2 < box.z1 {
        return;
      }
      var k := FindOrCreate(name);
      painted, alreadyIn := PaintInto(k, burrows[k], box);
      ok := true;
    }

    method PaintInto(k: nat, burrow: Burrow, box: Box) returns (painted: nat, alreadyIn: nat)
      requires NoAliases(burrows) && k < |burrows| && burrow == burrows[k] && Sound(burrow.masks)
      requires box.x1 <= box.x2 && box.y1 <= box.y2 && box.z1 <= box.z2
      modifies burrow`masks
      ensures Values(burrows) == old(Values(burrows))[k := old(burrow.Current()).(masks := burrow.masks)]
      ensures Grown(old(burrow.masks), burrow.masks, box)
      ensures Total(burrow.masks) == Total(old(burrow.masks)) + painted && painted + alreadyIn == Volume(box)
    {
      painted, alreadyIn := burrow.PaintBox(box);
    }

    method Leave(id: int)
      requires Sorted(Members(Snapshot()))
      modifies `alerts, `civAlert
      ensures Snapshot() == Left(old(Snapshot()), id)
    {
      if |alerts| > 1 {
        var members := alerts[1].members;
        var k := LowerBound(members, id);
        if k < |members| && members[k] == id {
          ErasedAt(members, id, k);
          members := members[..k] + members[k + 1..];
          alerts := alerts[1 := alerts[1].(members := members)];
          if |members| == 0 {
            civAlert := 0;
          }
        }
      }
    }

    /** applyRemoveBurrow */
    method ApplyRemoveBurrow(name: string) returns (ok: bool)
      requires NoAliases(burrows) && Sorted(Members(Snapshot()))
      modifies `burrows, `alerts, `civAlert
      ensures NoAliases(burrows) && Snapshot() == Removed(old(Snapshot()), name)
      ensures ok <==> Named(old(Values(burrows)), name) < |old(burrows)|
    {
      ghost var s := Snapshot();
      var k := FindByName(name);
      ok := k < |burrows|;
      if ok {
        RemoveAt(k, burrows[k].id);
        RemovedAt(s, name, k);
      }
    }

    method RemoveAt(k: nat, id: int)
      requires NoAliases(burrows) && k < |burrows| && Sorted(Members(Snapshot()))
      modifies `burrows, `alerts, `civAlert
      ensures NoAliases(burrows)
      ensures var left := Left(old(Snapshot()), id);
        Snapshot() == left.(burrows := left.burrows[..k] + left.burrows[k + 1..])
    {
      Leave(id);
      EraseBurrow(k);
    }

    method EraseBurrow(k: nat)
      requires NoAliases(burrows) && k < |burrows|
      modifies `burrows
      ensures NoAliases(burrows) && Values(burrows) == old(Values(burrows))[..k] + old(Values(burrows))[k + 1..]
    {
      burrows := burrows[..k] + burrows[k + 1..];
    }

    method GetOrCreateCivAlert()
      modifies `alerts, `nextAlertId
      ensures Snapshot() == Bootstrapped(old(Snapshot()))
    {
      while |alerts| < 2
        invariant Bootstrapped(Snapshot()) == Bootstrapped(old(Snapshot()))
        decreases 2 - |alerts|
      {
        alerts := alerts + [Alert(nextAlertId, "civ-alert", [])];
        nextAlertId := nextAlertId + 1;
      }
    }

    /** applySetAlert */
    method ApplySetAlert(name: string, active: bool) returns (ok: bool)
      requires NoAliases(burrows) && Sorted(Members(Snapshot()))
      modifies `alerts, `nextAlertId, `civAlert
      ensures Snapshot() == Alerted(old(Snapshot()), name, active)
      ensures ok <==> Named(old(Values(burrows)), name) < |old(burrows)|
    {
      var k := FindByName(name);
      if k == |burrows| {
        return false;
      }
      var id := burrows[k].id;
      GetOrCreateCivAlert();
      if active {
        Join(id);
        if civAlert == 0 {
          civAlert := 1;
        }
      } else {
        Leave(id);
      }
      ok := true;
    }

    method Join(id: int)
      requires |alerts| > 1 && Sorted(alerts[1].members)
      modifies `alerts
      ensures Snapshot() == WithMembers(old(Snapshot()), Inserted(old(alerts)[1].members, id))
    {
      var members := alerts[1].members;
      var k := LowerBound(members, id);
      if k == |members| || members[k] != id {
        InsertedAt(members, id, k);
        members := members[..k] + [id] + members[k..];
      } else {
        PresentIsKept(members, id, k);
      }
      alerts := alerts[1 := alerts[1].(members := members)];
    }
  }

  predicate OnMap(m: Map, x: int, y: int, z: int) { 0 <= x < m.xs && 0 <= y < m.ys && 0 <= z < m.zs }

  lemma {:induction false} PresentIsKept(s: seq<int>, id: int, k: nat)
    requires Sorted(s) && k < |s| && s[k] == id
    ensures Inserted(s, id) == s
  {
    if k > 0 {
      assert s[0] < s[k];
      PresentIsKept(s[1..], id, k - 1);
    }
  }

  // ---------------------------------------------------------------------
  // Whole runs
  // ---------------------------------------------------------------------

  ghost predicate Live(burrows: seq<Value>, id: int) {
    exists b :: b in burrows && b.id == id
  }

  ghost predicate DistinctIds(burrows: seq<Value>) {
    forall i, j :: 0 <= i < j < |burrows| ==> burrows[i].id != burrows[j].id
  }

  /**
   Burrow ids are distinct and below the counter; the civilian alert's members are strictly
   sorted and name live burrows; and an alert is in force only while it has a member.
   */
  ghost predicate Consistent(s: State) {
    && DistinctIds(s.burrows)
    && (forall b :: b in s.burrows ==> b.id < s.nextId && Sound(b.masks))
    && Sorted(Members(s))
    && (forall id :: id in Members(s) ==> Live(s.burrows, id))
    && (s.civAlert != 0 ==> Members(s) != [])
  }

  /** A command, or the player silencing or sounding the alert by hand. */
  datatype Command =
    | Designate(name: string, box: Box)
    | Remove(name: string)
    | SetAlert(name: string, active: bool)
    | Silence
    | Resume

  ghost predicate Stepped(m: Map, s: State, c: Command, t: State) {
    match c
    case Designate(name, box) => Designated(m, s, name, box, t)
    case Remove(name) => t == Removed(s, name)
    case SetAlert(name, active) => t == Alerted(s, name, active)
    case Silence => t == s.(civAlert := 0)
    case Resume => t == if Members(s) == [] then s else s.(civAlert := 1)
  }

  lemma LeftIsConsistent(s: State, id: int)
    requires Consistent(s)
    ensures Consistent(Left(s, id)) && Left(s, id).burrows == s.burrows
    ensures forall x :: x in Members(Left(s, id)) <==> x != id && x in Members(s)
  {
    ErasedExactly(Members(s), id);
  }

  lemma JoinedIsConsistent(s: State, id: int, civAlert: int)
    requires Consistent(s) && |s.alerts| > 1 && Live(s.burrows, id)
    ensures Consistent(WithMembers(s, Inserted(Members(s), id)).(civAlert := civAlert))
  {
    InsertedExactly(Members(s), id);
  }

  lemma AlertIsConsistent(s: State, name: string, active: bool)
    requires Consistent(s)
    ensures Consistent(Alerted(s, name, active))
  {
    var k := Named(s.burrows, name);
    if k < |s.burrows| {
      var b, id := Bootstrapped(s), s.burrows[k].id;
      assert Members(b) == Members(s) && s.burrows[k] in s.burrows;
      assert Consistent(b);
      if active {
        JoinedIsConsistent(b, id, if b.civAlert == 0 then 1 else b.civAlert);
      } else {
        LeftIsConsistent(b, id);
      }
    }
  }

  lemma RemoveIsConsistent(s: State, name: string)
    requires Consistent(s)
    ensures Consistent(Removed(s, name))
  {
    var k := Named(s.burrows, name);
    if k < |s.burrows| {
      LeftIsConsistent(s, s.burrows[k].id);
      DropIsConsistent(Left(s, s.burrows[k].id), k);
    }
  }

  lemma DropIsConsistent(s: State, k: nat)
    requires Consistent(s) && k < |s.burrows| && s.burrows[k].id !in Members(s)
    ensures Consistent(s.(burrows := s.burrows[..k] + s.burrows[k + 1..]))
  {
    var rest := s.burrows[..k] + s.burrows[k + 1..];
    forall x | x in Members(s) ensures Live(rest, x) {
      LiveAfterDrop(s.burrows, k, x);
    }
    assert forall b :: b in rest ==> b in s.burrows;
  }

  lemma LiveAfterDrop(burrows: seq<Value>, k: nat, id: int)
    requires DistinctIds(burrows) && k < |burrows|
    ensures Live(burrows[..k] + burrows[k + 1..], id) <==> id != burrows[k].id && Live(burrows, id)
  {
    var rest := burrows[..k] + burrows[k + 1..];
    if id != burrows[k].id && Live(burrows, id) {
      var b :| b in burrows && b.id == id;
      var i :| 0 <= i < |burrows| && burrows[i] == b;
      assert rest[if i < k then i else i - 1] == b;
    }
    if Live(rest, id) {
      var b :| b in rest && b.id == id;
      var p :| 0 <= p < |rest| && rest[p] == b;
      DroppedIndex(burrows, k, p);
    }
  }

  lemma DroppedIndex(burrows: seq<Value>, k: nat, p: nat)
    requires DistinctIds(burrows) && k < |burrows| && p < |burrows| - 1
    ensures var b := (burrows[..k] + burrows[k + 1..])[p]; b in burrows && b.id != burrows[k].id
  {
    assert (burrows[..k] + burrows[k + 1..])[p] == burrows[if p < k then p else p + 1];
  }

  lemma CreateIsConsistent(s: State, name: string)
    requires Consistent(s)
    ensures Consistent(WithBurrow(s, name))
  {
    var t := WithBurrow(s, name);
    forall i, j | 0 <= i < j < |t.burrows| ensures t.burrows[i].id != t.burrows[j].id {
      assert t.burrows[i] in s.burrows;
    }
    forall x | x in Members(t) ensures Live(t.burrows, x) {
      var b :| b in s.burrows && b.id == x;
      assert b in t.burrows;
    }
    EmptyIsSound();
  }

  lemma EmptyIsSound()
    ensures Sound([])
  {
  }

  lemma DesignateIsConsistent(m: Map, s: State, name: string, box: Box, t: State)
    requires Consistent(s) && Designated(m, s, name, box, t)
    ensures Consistent(t)
  {
    CreateIsConsistent(s, name);
    if Paintable(m, name, box) {
      var base, k := WithBurrow(s, name), Named(s.burrows, name);
      RepaintIsConsistent(base, k, t.burrows[k].masks);
    }
  }

  lemma RepaintIsConsistent(s: State, k: nat, masks: seq<Mask>)
    requires Consistent(s) && k < |s.burrows| && Sound(masks)
    ensures Consistent(s.(burrows := s.burrows[k := s.burrows[k].(masks := masks)]))
  {
    var burrows := s.burrows[k := s.burrows[k].(masks := masks)];
    assert s.burrows[k] in s.burrows;
    forall x | x in Members(s) ensures Live(burrows, x) {
      var b :| b in s.burrows && b.id == x;
      var i :| 0 <= i < |s.burrows| && s.burrows[i] == b;
      assert burrows[i] in burrows;
    }
    forall b | b in burrows ensures b.id < s.nextId && Sound(b.masks) {
      assert b in s.burrows || b == burrows[k];
    }
  }

  lemma StepIsConsistent(m: Map, s: State, c: Command, t: State)
    requires Consistent(s) && Stepped(m, s, c, t)
    ensures Consistent(t)
  {
    match c
    case Designate(name, box) => DesignateIsConsistent(m, s, name, box, t);
    case Remove(name) => RemoveIsConsistent(s, name);
    case SetAlert(name, active) => AlertIsConsistent(s, name, active);
    case Silence =>
    case Resume =>
  }

  /** Every state of every run is consistent. */
  lemma {:induction false} EveryRunIsConsistent(m: Map, states: seq<State>, commands: seq<Command>, n: nat)
    requires |states| == |commands| + 1 && n <= |commands| && Consistent(states[0])
    requires forall i :: 0 <= i < |commands| ==> Stepped(m, states[i], commands[i], states[i + 1])
    ensures Consistent(states[n])
  {
    if n > 0 {
      EveryRunIsConsistent(m, states, commands, n - 1);
      StepIsConsistent(m, states[n - 1], commands[n - 1], states[n]);
    }
  }

  /** A removed burrow is out of the alert, and over every run that follows its id is never live or a member again. */
  lemma RemovedIsForgotten(m: Map, s: State, name: string, states: seq<State>, commands: seq<Command>, n: nat)
    requires Consistent(s) && Named(s.burrows, name) < |s.burrows|
    requires |states| == |commands| + 1 && n <= |commands| && states[0] == Removed(s, name)
    requires forall i :: 0 <= i < |commands| ==> Stepped(m, states[i], commands[i], states[i + 1])
    ensures IsGone(states[n], s.burrows[Named(s.burrows, name)].id)
  {
    var id := s.burrows[Named(s.burrows, name)].id;
    RemoveIsConsistent(s, name);
    RemovedIsGone(s, name);
    GoneOverRuns(m, states, commands, n, id);
  }

  lemma RemovedIsGone(s: State, name: string)
    requires Consistent(s) && Named(s.burrows, name) < |s.burrows|
    ensures IsGone(Removed(s, name), s.burrows[Named(s.burrows, name)].id)
  {
    var k := Named(s.burrows, name);
    LeftIsConsistent(s, s.burrows[k].id);
    assert s.burrows[k] in s.burrows;
    LiveAfterDrop(s.burrows, k, s.burrows[k].id);
  }

  /** The id was given out once and is now in no use. */
  ghost predicate IsGone(s: State, id: int) {
    !Live(s.burrows, id) && id !in Members(s) && id < s.nextId
  }

  lemma {:induction false} GoneOverRuns(m: Map, states: seq<State>, commands: seq<Command>, n: nat, id: int)
    requires |states| == |commands| + 1 && n <= |commands| && Consistent(states[0]) && IsGone(states[0], id)
    requires forall i :: 0 <= i < |commands| ==> Stepped(m, states[i], commands[i], states[i + 1])
    ensures IsGone(states[n], id)
  {
    if n > 0 {
      GoneOverRuns(m, states, commands, n - 1, id);
      EveryRunIsConsistent(m, states, commands, n - 1);
      GoneStaysGone(m, states[n - 1], commands[n - 1], states[n], id);
    }
  }

  /** No step brings back an id below the counter. */
  lemma GoneStaysGone(m: Map, s: State, c: Command, t: State, id: int)
    requires Consistent(s) && Stepped(m, s, c, t) && id < s.nextId && !Live(s.burrows, id)
    ensures IsGone(t, id)
  {
    StepIsConsistent(m, s, c, t);
    match c
    case Designate(name, box) =>
      var base := WithBurrow(s, name);
      if Paintable(m, name, box) {
        SameIdsLive(base.burrows, t.burrows, Named(s.burrows, name), id);
        assert forall b :: b in base.burrows ==> b in s.burrows || b.id == s.nextId;
      }
    case Remove(name) =>
      if Named(s.burrows, name) < |s.burrows| {
        LeftIsConsistent(s, s.burrows[Named(s.burrows, name)].id);
        LiveAfterDrop(s.burrows, Named(s.burrows, name), id);
      }
    case SetAlert(name, active) =>
      if Named(s.burrows, name) < |s.burrows| {
        var b := Bootstrapped(s);
        assert t.burrows == s.burrows && t.nextId == s.nextId;
      }
    case Silence =>
    case Resume =>
  }

  lemma SameIdsLive(before: seq<Value>, after: seq<Value>, k: nat, id: int)
    requires |after| == |before| && k < |before| && after == before[k := after[k]] && after[k].id == before[k].id
    ensures Live(after, id) ==> Live(before, id)
  {
    if Live(after, id) {
      var b :| b in after && b.id == id;
      var i :| 0 <= i < |after| && after[i] == b;
      assert before[i] in before;
    }
  }

  /**
   Clearing the alert for a burrow undoes setting it, but for the alert entries it creates, exactly
   when the burrow was not a member and the alert was in force or had no members. A silenced alert
   with other members is left sounding for them.
   */
  lemma ClearUndoesSetExactly(s: State, name: string)
    requires Consistent(s) && Named(s.burrows, name) < |s.burrows|
    ensures Alerted(Alerted(s, name, true), name, false) == Bootstrapped(s) <==>
      s.burrows[Named(s.burrows, name)].id !in Members(s) && (s.civAlert != 0 || Members(s) == [])
  {
    var id, b, on := s.burrows[Named(s.burrows, name)].id, Bootstrapped(s), Alerted(s, name, true);
    assert Members(b) == Members(s) && Bootstrapped(on) == on;
    assert Alerted(on, name, false) == Left(on, id);
    SoundedThenLeft(b, id);
  }

  /** A bootstrapped state after sounding the alert for a burrow. */
  function Sounded(b: State, id: int): State
    requires |b.alerts| > 1
  {
    WithMembers(b, Inserted(Members(b), id)).(civAlert := if b.civAlert == 0 then 1 else b.civAlert)
  }

  lemma SoundedThenLeft(b: State, id: int)
    requires |b.alerts| > 1 && Sorted(Members(b)) && (b.civAlert != 0 ==> Members(b) != [])
    ensures Left(Sounded(b, id), id) == b <==> id !in Members(b) && (b.civAlert != 0 || Members(b) == [])
  {
    var members, civ := Members(b), if b.civAlert == 0 then 1 else b.civAlert;
    var in', out := Inserted(members, id), Erased(Inserted(members, id), id);
    InsertedExactly(members, id);
    ErasedExactly(in', id);
    if id !in members {
      EraseUndoesInsert(members, id);
    }
    MembersTwice(b, in', civ, out, if out == [] then 0 else civ);
  }

  lemma MembersTwice(b: State, first: seq<int>, civ: int, second: seq<int>, civ': int)
    requires |b.alerts| > 1
    ensures Members(WithMembers(b, first).(civAlert := civ)) == first
    ensures WithMembers(WithMembers(b, first).(civAlert := civ), second).(civAlert := civ') == b
      <==> second == Members(b) && civ' == b.civAlert
  {
    var t := WithMembers(WithMembers(b, first).(civAlert := civ), second).(civAlert := civ');
    assert t.alerts[1].members == second;
    if second == Members(b) {
      assert t.alerts == b.alerts;
    }
  }
}
