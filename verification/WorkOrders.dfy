/**
 Manager orders: creating, cancelling and editing them while the game
 dispatches jobs and players link orders to one another.
 */
module WorkOrders {
  import opened Bytes
  import opened Options
  import opened Sequences

  datatype Frequency = OneTime | Daily | Monthly | Seasonally | Yearly

  /** WORK_ORDER_FREQUENCY_*; any other byte means once */
  function FrequencyOf(b: Byte): Frequency {
    if b == 1 then Daily
    else if b == 2 then Monthly
    else if b == 3 then Seasonally
    else if b == 4 then Yearly
    else OneTime
  }

  const NO_ORDER := -1
  const NEVER := -1

  /** An order condition: wait until the order `orderId` has reached `kind`. */
  datatype Condition = Condition(orderId: int, kind: int)

  datatype Job = Job(id: int, orderId: int)

  /** What the order makes: the resolved job, material and item subtype. */
  datatype Goods = Goods(jobType: int, reaction: string, material: int, itemType: int, itemSubtype: int)

  datatype Order = Order(id: int, goods: Goods, total: Int16, left: Int16, frequency: Frequency,
                         finishedYear: int, finishedTick: int, dependsOn: seq<Condition>)

  datatype State = State(orders: seq<Order>, jobs: seq<Job>, nextId: int)

  /** How the names in a create command resolve against the game's raws. */
  datatype Resolution = UnknownJob | BadMaterial | BadSubtype | Resolved(goods: Goods)

  // ---------------------------------------------------------------------
  // What each command does
  // ---------------------------------------------------------------------

  function NewOrder(id: int, goods: Goods, quantity: UInt16, frequency: Byte): Order {
    Order(id, goods, ToInt16(quantity), ToInt16(quantity), FrequencyOf(frequency), NEVER, NEVER, [])
  }

  /** The id is taken before the material and the subtype are looked at. */
  function Created(s: State, what: Resolution, quantity: UInt16, frequency: Byte): State {
    match what
    case UnknownJob => s
    case BadMaterial => s.(nextId := s.nextId + 1)
    case BadSubtype => s.(nextId := s.nextId + 1)
    case Resolved(goods) =>
      s.(orders := s.orders + [NewOrder(s.nextId, goods, quantity, frequency)], nextId := s.nextId + 1)
  }

  /** The first order with the id, or the number of orders. */
  function IndexOf(orders: seq<Order>, id: int): (k: nat)
    ensures k <= |orders|
    ensures k < |orders| ==> orders[k].id == id
    ensures forall j :: 0 <= j < k ==> orders[j].id != id
  {
    if orders == [] || orders[0].id == id then 0 else 1 + IndexOf(orders[1..], id)
  }

  function Without(conditions: seq<Condition>, id: int): seq<Condition> {
    if conditions == [] then []
    else if conditions[0].orderId == id then Without(conditions[1..], id)
    else [conditions[0]] + Without(conditions[1..], id)
  }

  function Scrub(o: Order, id: int): Order { o.(dependsOn := Without(o.dependsOn, id)) }

  function Scrubbed(orders: seq<Order>, id: int): (r: seq<Order>)
    ensures |r| == |orders| && forall i :: 0 <= i < |r| ==> r[i] == Scrub(orders[i], id)
  {
    seq(|orders|, i requires 0 <= i < |orders| => Scrub(orders[i], id))
  }

  function OtherJobs(jobs: seq<Job>, id: int): seq<Job> {
    if jobs == [] then []
    else if jobs[0].orderId == id then OtherJobs(jobs[1..], id)
    else [jobs[0]] + OtherJobs(jobs[1..], id)
  }

  function Dropped(orders: seq<Order>, k: nat): seq<Order>
    requires k < |orders|
  {
    orders[..k] + orders[k + 1..]
  }

  function Cancelled(s: State, id: int): State {
    var k := IndexOf(s.orders, id);
    if k == |s.orders| then s
    else State(Scrubbed(Dropped(s.orders, k), id), OtherJobs(s.jobs, id), s.nextId)
  }

  /** The order after an edit; a new amount is a new total, and what is left moves by the same difference. */
  function Adjusted(o: Order, amount: Option<UInt16>, frequency: Option<Byte>): Order {
    var p := if amount.Some?
             then o.(total := ToInt16(amount.value), left := ToInt16(o.left + (amount.value - o.total)))
             else o;
    if frequency.Some?
    then p.(frequency := FrequencyOf(frequency.value), finishedYear := NEVER, finishedTick := NEVER)
    else p
  }

  function Edited(s: State, id: int, amount: Option<UInt16>, frequency: Option<Byte>): State {
    var k := IndexOf(s.orders, id);
    if k == |s.orders| then s
    else
      var o := Adjusted(s.orders[k], amount, frequency);
      var t := s.(orders := s.orders[k := o]);
      if amount.Some? && o.left <= 0 then Cancelled(t, id) else t
  }

  // ---------------------------------------------------------------------
  // The commands
  // ---------------------------------------------------------------------

  class ManagerOrder {
    const id: int
    var goods: Goods
    var total: Int16
    var left: Int16
    var frequency: Frequency
    var finishedYear: int
    var finishedTick: int
    var dependsOn: seq<Condition>

    constructor (id: int, goods: Goods, quantity: UInt16, frequency: Byte)
      ensures Value() == NewOrder(id, goods, quantity, frequency)
    {
      this.id := id;
      this.goods := goods;
      total, left := ToInt16(quantity), ToInt16(quantity);
      this.frequency := FrequencyOf(frequency);
      finishedYear, finishedTick, dependsOn := NEVER, NEVER, [];
    }

    function Value(): Order
      reads this
    {
      Order(id, goods, total, left, frequency, finishedYear, finishedTick, dependsOn)
    }

    /** Erases, last first, every condition that names the order `gone`. */
    method ClearDependencies(gone: int) returns (cleared: nat)
      modifies this`dependsOn
      ensures Value() == Scrub(old(Value()), gone)
      ensures cleared == |old(dependsOn)| - |dependsOn|
    {
      cleared := 0;
      var i := |dependsOn|;
      while i > 0
        invariant 0 <= i <= |old(dependsOn)|
        invariant dependsOn == old(dependsOn)[..i] + Without(old(dependsOn)[i..], gone)
        invariant cleared == |old(dependsOn)| - |dependsOn|
      {
        i := i - 1;
        ghost var tail := old(dependsOn)[i..];
        assert tail[1..] == old(dependsOn)[i + 1..];
        assert dependsOn == old(dependsOn)[..i] + [old(dependsOn)[i]] + Without(tail[1..], gone);
        if dependsOn[i].orderId == gone {
          dependsOn := dependsOn[..i] + dependsOn[i + 1..];
          cleared := cleared + 1;
        }
      }
      assert old(dependsOn)[0..] == old(dependsOn);
    }

    method Adjust(amount: Option<UInt16>, frequency: Option<Byte>)
      modifies this
      ensures Value() == Adjusted(old(Value()), amount, frequency)
    {
      if amount.Some? {
        var diff := amount.value - total;
        total := ToInt16(amount.value);
        left := ToInt16(left + diff);
      }
      if frequency.Some? {
        this.frequency := FrequencyOf(frequency.value);
        finishedYear, finishedTick := NEVER, NEVER;
      }
    }
  }

  function Values(orders: seq<ManagerOrder>): (values: seq<Order>)
    reads orders
    ensures |values| == |orders| && forall i :: 0 <= i < |values| ==> values[i] == orders[i].Value()
  {
    seq(|orders|, i requires 0 <= i < |orders| reads orders => orders[i].Value())
  }

  ghost predicate NoAliases(orders: seq<ManagerOrder>) {
    forall i, j :: 0 <= i < j < |orders| ==> orders[i] != orders[j]
  }

  /** world->manager_orders and world->jobs.list */
  class Manager {
    var orders: seq<ManagerOrder>
    var jobs: seq<Job>
    var nextId: int

    constructor ()
      ensures NoAliases(orders) && Snapshot() == State([], [], 0)
    {
      orders, jobs, nextId := [], [], 0;
    }

    function Snapshot(): State
      reads this, orders
    {
      State(Values(orders), jobs, nextId)
    }

    /** applyWorkOrder */
    method ApplyWorkOrder(what: Resolution, quantity: UInt16, frequency: Byte) returns (ok: bool)
      requires NoAliases(orders)
      modifies this
      ensures NoAliases(orders) && ok == what.Resolved?
      ensures Snapshot() == Created(old(Snapshot()), what, quantity, frequency)
    {
      if what.UnknownJob? {
        return false;
      }
      var id := nextId;
      nextId := nextId + 1;
      if !what.Resolved? {
        return false;
      }
      var order := new ManagerOrder(id, what.goods, quantity, frequency);
      orders := orders + [order];
      assert Values(orders) == old(Values(orders)) + [order.Value()];
      ok := true;
    }

    method Find(id: int) returns (k: nat)
      ensures k == IndexOf(Values(orders), id)
    {
      k := 0;
      while k < |orders| && orders[k].id != id
        invariant k <= |orders|
        invariant forall j :: 0 <= j < k ==> Values(orders)[j].id != id
      {
        k := k + 1;
      }
      FirstIsIndexOf(Values(orders), id, k);
    }

    /** Collects the jobs of an order, then removes them one by one. */
    method RemoveJobsOf(id: int)
      modifies this`jobs
      ensures jobs == OtherJobs(old(jobs), id)
    {
      var spawned := [];
      for i := 0 to |jobs|
        invariant jobs == old(jobs) && spawned == JobsOf(jobs[..i], id)
      {
        JobsOfAppend(jobs[..i], jobs[i], id);
        assert jobs[..i + 1] == jobs[..i] + [jobs[i]];
        if jobs[i].orderId == id {
          spawned := spawned + [jobs[i]];
        }
      }
      assert jobs[..|jobs|] == jobs;
      for i := 0 to |spawned|
        invariant JobsOf(jobs, id) == spawned[i..]
        invariant OtherJobs(jobs, id) == OtherJobs(old(jobs), id)
      {
        RemoveFirstOf(jobs, id);
        jobs := RemoveFirst(jobs, spawned[i]);  // Job::removeJob
      }
      NoJobsLeft(jobs, id);
    }

    /** The last pass of applyCancelOrder, over the surviving orders. */
    method ClearDependenciesOn(gone: int) returns (cleared: nat)
      requires NoAliases(orders)
      modifies orders
      ensures Values(orders) == Scrubbed(old(Values(orders)), gone)
      ensures cleared == LinksTo(old(Values(orders)), gone)
    {
      cleared := 0;
      ghost var was := Values(orders);
      for i := 0 to |orders|
        invariant forall j :: 0 <= j < i ==> orders[j].Value() == Scrub(was[j], gone)
        invariant forall j :: i <= j < |orders| ==> orders[j].Value() == was[j]
        invariant cleared == LinksTo(was[..i], gone)
      {
        var n := orders[i].ClearDependencies(gone);
        LinksToAppend(was[..i], was[i], gone);
        assert was[..i + 1] == was[..i] + [was[i]];
        cleared := cleared + n;
      }
      assert was[..|orders|] == was;
    }

    method EraseOrder(k: nat)
      requires NoAliases(orders) && k < |orders|
      modifies this`orders
      ensures NoAliases(orders) && Values(orders) == Dropped(old(Values(orders)), k)
      ensures forall i :: 0 <= i < |orders| ==> orders[i] in old(orders)
    {
      orders := orders[..k] + orders[k + 1..];
    }

    /** applyCancelOrder, once the order is found. */
    method CancelAt(k: nat, id: int) returns (cleared: nat)
      requires NoAliases(orders) && k < |orders| && k == IndexOf(Values(orders), id)
      modifies this, orders
      ensures NoAliases(orders) && Snapshot() == Cancelled(old(Snapshot()), id)
      ensures cleared == LinksTo(Dropped(old(Values(orders)), k), id)
    {
      ghost var was := Values(orders);
      RemoveJobsOf(id);
      EraseOrder(k);
      assert Values(orders) == Dropped(was, k);
      cleared := ClearDependenciesOn(id);
      assert Values(orders) == Scrubbed(Dropped(was, k), id);
    }

    /** applyCancelOrder */
    method ApplyCancelOrder(id: int) returns (ok: bool, cleared: nat)
      requires NoAliases(orders)
      modifies this, orders
      ensures NoAliases(orders) && Snapshot() == Cancelled(old(Snapshot()), id)
      ensures ok <==> IndexOf(old(Values(orders)), id) < |old(orders)|
      ensures var was := old(Values(orders));
        cleared == if ok then LinksTo(Dropped(was, IndexOf(was, id)), id) else 0
    {
      var k := Find(id);
      ok, cleared := k < |orders|, 0;
      if ok {
        cleared := CancelAt(k, id);
      }
    }

    /** applyEditOrder */
    method ApplyEditOrder(id: int, amount: Option<UInt16>, frequency: Option<Byte>) returns (ok: bool, deleted: bool)
      requires NoAliases(orders)
      modifies this, orders
      ensures NoAliases(orders) && Snapshot() == Edited(old(Snapshot()), id, amount, frequency)
      ensures ok <==> IndexOf(old(Values(orders)), id) < |old(orders)|
      ensures var was := old(Values(orders));
        deleted <==> ok && amount.Some? && Adjusted(was[IndexOf(was, id)], amount, frequency).left <= 0
    {
      deleted := false;
      var k := Find(id);
      if k == |orders| {
        return false, false;
      }
      var target := orders[k];
      target.Adjust(amount, frequency);
      ghost var s := old(Snapshot());
      assert Values(orders) == s.orders[k := target.Value()];
      if amount.Some? && target.left <= 0 {
        SameIds(s.orders, k, target.Value(), id);
        var cancelled, cleared := ApplyCancelOrder(id);
        return cancelled, cancelled;
      }
      ok := true;
    }
  }

  lemma {:induction false} FirstIsIndexOf(orders: seq<Order>, id: int, k: nat)
    requires k <= |orders| && (k < |orders| ==> orders[k].id == id)
    requires forall j :: 0 <= j < k ==> orders[j].id != id
    ensures k == IndexOf(orders, id)
  {
    var i := IndexOf(orders, id);
    var atFirst, atK := if i < |orders| then orders[i].id else id, if k < |orders| then orders[k].id else id;
  }

  lemma SameIds(orders: seq<Order>, k: nat, o: Order, id: int)
    requires k < |orders| && o.id == orders[k].id
    ensures IndexOf(orders[k := o], id) == IndexOf(orders, id)
  {
    var i := IndexOf(orders, id);
    var t := orders[k := o];
    forall j | 0 <= j < i ensures t[j].id != id {
      assert orders[j].id != id;
    }
    FirstIsIndexOf(t, id, i);
  }

  function JobsOf(jobs: seq<Job>, id: int): seq<Job> {
    if jobs == [] then []
    else if jobs[0].orderId == id then [jobs[0]] + JobsOf(jobs[1..], id)
    else JobsOf(jobs[1..], id)
  }

  lemma {:induction false} JobsOfAppend(jobs: seq<Job>, job: Job, id: int)
    ensures JobsOf(jobs + [job], id) == JobsOf(jobs, id) + (if job.orderId == id then [job] else [])
  {
    if jobs == [] {
      assert [job][1..] == [];
    } else {
      assert (jobs + [job])[1..] == jobs[1..] + [job];
      JobsOfAppend(jobs[1..], job, id);
    }
  }

  lemma {:induction false} RemoveFirstOf(jobs: seq<Job>, id: int)
    requires JobsOf(jobs, id) != []
    ensures var rest := RemoveFirst(jobs, JobsOf(jobs, id)[0]);
      JobsOf(rest, id) == JobsOf(jobs, id)[1..] && OtherJobs(rest, id) == OtherJobs(jobs, id)
  {
    if jobs[0].orderId != id {
      var first := JobsOf(jobs, id)[0];
      FirstNames(jobs, id);
      RemoveFirstOf(jobs[1..], id);
      var rest := RemoveFirst(jobs[1..], first);
      assert RemoveFirst(jobs, first) == [jobs[0]] + rest;
      assert ([jobs[0]] + rest)[1..] == rest;
    }
  }

  lemma {:induction false} FirstNames(jobs: seq<Job>, id: int)
    requires JobsOf(jobs, id) != []
    ensures JobsOf(jobs, id)[0].orderId == id
  {
    if jobs[0].orderId != id {
      FirstNames(jobs[1..], id);
    }
  }

  lemma {:induction false} NoJobsLeft(jobs: seq<Job>, id: int)
    requires JobsOf(jobs, id) == []
    ensures OtherJobs(jobs, id) == jobs
  {
    if jobs != [] {
      NoJobsLeft(jobs[1..], id);
    }
  }

  /** The number of conditions, over all orders, that name an order. */
  function LinksTo(orders: seq<Order>, id: int): int {
    if orders == [] then 0
    else |orders[0].dependsOn| - |Without(orders[0].dependsOn, id)| + LinksTo(orders[1..], id)
  }

  lemma {:induction false} LinksToAppend(orders: seq<Order>, o: Order, id: int)
    ensures LinksTo(orders + [o], id) == LinksTo(orders, id) + |o.dependsOn| - |Without(o.dependsOn, id)|
  {
    if orders == [] {
      assert ([] + [o])[1..] == [];
    } else {
      assert (orders + [o])[1..] == orders[1..] + [o];
      LinksToAppend(orders[1..], o, id);
    }
  }

  // ---------------------------------------------------------------------
  // Cancelling
  // ---------------------------------------------------------------------

  ghost predicate Names(orders: seq<Order>, id: int) {
    exists o :: o in orders && o.id == id
  }

  ghost predicate DistinctIds(orders: seq<Order>) {
    forall i, j :: 0 <= i < j < |orders| ==> orders[i].id != orders[j].id
  }

  lemma {:induction false} WithoutDropsOnly(conditions: seq<Condition>, id: int)
    ensures forall c :: c in Without(conditions, id) <==> c in conditions && c.orderId != id
  {
    if conditions != [] {
      WithoutDropsOnly(conditions[1..], id);
      assert conditions == [conditions[0]] + conditions[1..];
    }
  }

  /** Any selection of conditions on other orders is the same before and after, element for element. */
  lemma {:induction false} WithoutKeepsChoice(conditions: seq<Condition>, id: int, choice: Condition -> bool)
    requires forall c :: choice(c) ==> c.orderId != id
    ensures Filter(Without(conditions, id), choice) == Filter(conditions, choice)
  {
    if conditions != [] {
      WithoutKeepsChoice(conditions[1..], id, choice);
      FilterFront(conditions, choice);
      var rest := Without(conditions[1..], id);
      assert ([conditions[0]] + rest)[1..] == rest;
      FilterFront([conditions[0]] + rest, choice);
    }
  }

  lemma {:induction false} OtherJobsDropsOnly(jobs: seq<Job>, id: int)
    ensures forall j :: j in OtherJobs(jobs, id) <==> j in jobs && j.orderId != id
  {
    if jobs != [] {
      OtherJobsDropsOnly(jobs[1..], id);
      assert jobs == [jobs[0]] + jobs[1..];
    }
  }

  lemma {:induction false} OtherJobsKeepsChoice(jobs: seq<Job>, id: int, choice: Job -> bool)
    requires forall j :: choice(j) ==> j.orderId != id
    ensures Filter(OtherJobs(jobs, id), choice) == Filter(jobs, choice)
  {
    if jobs != [] {
      OtherJobsKeepsChoice(jobs[1..], id, choice);
      FilterFront(jobs, choice);
      var rest := OtherJobs(jobs[1..], id);
      assert ([jobs[0]] + rest)[1..] == rest;
      FilterFront([jobs[0]] + rest, choice);
    }
  }

  /**
   Cancelling removes the order, every job it spawned and every condition on it; each other
   order keeps its place among the rest, and however one selects among the conditions and the
   jobs that do not name the order, the selection is the same as before, in the same order.
   */
  lemma CancelRemovesOnlyThatOrder(s: State, id: int, i: nat, conditions: Condition -> bool, jobs: Job -> bool)
    requires i < |s.orders| && s.orders[i].id != id && IndexOf(s.orders, id) < |s.orders|
    requires (forall c :: conditions(c) ==> c.orderId != id) && forall j :: jobs(j) ==> j.orderId != id
    ensures var k, t := IndexOf(s.orders, id), Cancelled(s, id);
      var o, p := s.orders[i], t.orders[if i < k then i else i - 1];
      && |t.orders| == |s.orders| - 1 && t.nextId == s.nextId
      && p.(dependsOn := []) == o.(dependsOn := [])
      && (forall c :: c in p.dependsOn <==> c in o.dependsOn && c.orderId != id)
      && Filter(p.dependsOn, conditions) == Filter(o.dependsOn, conditions)
      && (forall j :: j in t.jobs <==> j in s.jobs && j.orderId != id)
      && Filter(t.jobs, jobs) == Filter(s.jobs, jobs)
  {
    WithoutDropsOnly(s.orders[i].dependsOn, id);
    WithoutKeepsChoice(s.orders[i].dependsOn, id, conditions);
    OtherJobsDropsOnly(s.jobs, id);
    OtherJobsKeepsChoice(s.jobs, id, jobs);
  }

  lemma NamedIsFound(orders: seq<Order>, id: int)
    ensures Names(orders, id) <==> IndexOf(orders, id) < |orders|
  {
    var k := IndexOf(orders, id);
    if k < |orders| {
      assert orders[k] in orders;
    }
  }

  /** Every member of the orders after a cancel is a scrubbed member of the orders before, and conversely. */
  lemma CancelledMembers(s: State, id: int, o: Order)
    requires DistinctIds(s.orders) && IndexOf(s.orders, id) < |s.orders|
    ensures o in s.orders && o.id != id ==> Scrub(o, id) in Cancelled(s, id).orders
    ensures o in Cancelled(s, id).orders ==> o.id != id && exists was :: was in s.orders && o == Scrub(was, id)
  {
    var k, t := IndexOf(s.orders, id), Cancelled(s, id);
    if o in s.orders && o.id != id {
      var i :| 0 <= i < |s.orders| && s.orders[i] == o;
      assert t.orders[if i < k then i else i - 1] == Scrub(o, id);
    }
    if o in t.orders {
      var p :| 0 <= p < |t.orders| && t.orders[p] == o;
      var i := if p < k then p else p + 1;
      assert s.orders[i] in s.orders && o == Scrub(s.orders[i], id);
    }
  }

  lemma NamesAfterCancel(s: State, id: int, other: int)
    requires DistinctIds(s.orders) && IndexOf(s.orders, id) < |s.orders|
    ensures Names(Cancelled(s, id).orders, other) <==> other != id && Names(s.orders, other)
  {
    if other != id && Names(s.orders, other) {
      var o :| o in s.orders && o.id == other;
      CancelledMembers(s, id, o);
    }
    if Names(Cancelled(s, id).orders, other) {
      var o :| o in Cancelled(s, id).orders && o.id == other;
      CancelledMembers(s, id, o);
    }
  }

  // ---------------------------------------------------------------------
  // Editing
  // ---------------------------------------------------------------------

  function Progress(o: Order): int { o.total - o.left }

  /** How many times a value wraps when it is narrowed to 16 bits. */
  function Wraps(v: int): int { (v + 0x8000) / 0x1_0000 }

  /** An edit of the amount keeps the progress made exactly when both fields wrap alike. */
  lemma ProgressKeptExactly(o: Order, amount: UInt16, frequency: Option<Byte>)
    ensures Progress(Adjusted(o, Some(amount), frequency)) == Progress(o)
      <==> Wraps(amount) == Wraps(o.left + (amount - o.total))
  {
    Narrowed(amount);
    Narrowed(o.left + (amount - o.total));
  }

  lemma Narrowed(v: int)
    ensures ToInt16(v) == v - 0x1_0000 * Wraps(v)
  {
    var u := v % 0x1_0000;
    assert v == 0x1_0000 * (v / 0x1_0000) + u;
    if u < 0x8000 {
      assert v + 0x8000 == 0x1_0000 * (v / 0x1_0000) + (u + 0x8000);
    } else {
      assert v + 0x8000 == 0x1_0000 * (v / 0x1_0000 + 1) + (u - 0x8000);
    }
  }

  /** What the dispatcher lets through, and the amounts it leads to. */
  predicate InRange(amount: UInt16) { 1 <= amount <= 100 }

  predicate GoodAmounts(o: Order) { 1 <= o.total <= 100 && 0 <= o.left <= o.total }

  lemma AdjustedInRange(o: Order, amount: UInt16, frequency: Option<Byte>)
    requires GoodAmounts(o) && InRange(amount)
    ensures var p := Adjusted(o, Some(amount), frequency);
      p.total == amount && p.left == amount - Progress(o) && Progress(p) == Progress(o)
  {
  }

  /** What is left after an edit to `amount`, by the progress made. */
  function LeftAfter(o: Order, amount: UInt16): Int16 { ToInt16(amount - Progress(o)) }

  /** An edit that leaves nothing to do is a cancel; any other edit changes only the order's own fields. */
  lemma EditRemovesExactly(s: State, id: int, amount: UInt16, frequency: Option<Byte>)
    requires IndexOf(s.orders, id) < |s.orders|
    ensures var k := IndexOf(s.orders, id);
      var o := s.orders[k];
      Edited(s, id, Some(amount), frequency) ==
        if LeftAfter(o, amount) <= 0 then Cancelled(s, id)
        else
          var p := Adjusted(o, None, frequency).(total := ToInt16(amount), left := LeftAfter(o, amount));
          s.(orders := s.orders[k := p])
  {
    var k := IndexOf(s.orders, id);
    var o := s.orders[k];
    var p := Adjusted(o, Some(amount), frequency);
    assert o.left + (amount - o.total) == amount - Progress(o);
    if LeftAfter(o, amount) <= 0 {
      EditsOfOne(s, id, k, p);
    }
  }

  /** The orders removed are those whose amount is already done, exactly when the difference survives 16 bits. */
  lemma RemovesWhatIsDoneExactly(o: Order, amount: UInt16)
    ensures (LeftAfter(o, amount) <= 0 <==> amount <= Progress(o))
      <==> -0x8000 <= amount - Progress(o) < 0x8000 || 0x1_0000 < amount - Progress(o) < 0x1_8000
  {
    Narrowed(amount - Progress(o));
  }

  lemma NarrowedAgain(v: int, m: int)
    ensures ToInt16(v + 0x1_0000 * m) == ToInt16(v)
  {
    assert (v + 0x1_0000 * m) % 0x1_0000 == v % 0x1_0000;
  }

  /** An edit that removes nothing changes the progress by whole wraps only, so the next edit leaves the same to do. */
  lemma LeftAfterTwo(o: Order, p: Order, first: UInt16, second: UInt16)
    requires p.total == ToInt16(first) && p.left == LeftAfter(o, first)
    ensures LeftAfter(p, second) == LeftAfter(o, second)
  {
    Narrowed(first);
    Narrowed(first - Progress(o));
    NarrowedAgain(second - Progress(o), Wraps(first) - Wraps(first - Progress(o)));
  }

  /** Two edits of the amount come to the second one alone, unless only the first one removes the order. */
  lemma LastEditWins(s: State, id: int, first: UInt16, second: UInt16)
    requires DistinctIds(s.orders) && IndexOf(s.orders, id) < |s.orders|
    ensures var o := s.orders[IndexOf(s.orders, id)];
      Edited(Edited(s, id, Some(first), None), id, Some(second), None) == Edited(s, id, Some(second), None) <==>
        !(LeftAfter(o, first) <= 0 < LeftAfter(o, second))
  {
    var k := IndexOf(s.orders, id);
    var o := s.orders[k];
    EditRemovesExactly(s, id, first, None);
    EditRemovesExactly(s, id, second, None);
    if LeftAfter(o, first) > 0 {
      var t := Edited(s, id, Some(first), None);
      SameIds(s.orders, k, t.orders[k], id);
      EditRemovesExactly(t, id, second, None);
      EditsOfOne(s, id, k, t.orders[k]);
      LeftAfterTwo(o, t.orders[k], first, second);
    } else {
      NamesAfterCancel(s, id, id);
      NamedIsFound(Cancelled(s, id).orders, id);
    }
  }

  /** What an edit makes of an order does not depend on the amounts it had, only on its progress. */
  lemma EditsOfOne(s: State, id: int, k: nat, o: Order)
    requires k == IndexOf(s.orders, id) < |s.orders| && o.id == id
    ensures Cancelled(s.(orders := s.orders[k := o]), id) == Cancelled(s, id)
  {
    SameIds(s.orders, k, o, id);
    assert Dropped(s.orders[k := o], k) == Dropped(s.orders, k);
  }

  // ---------------------------------------------------------------------
  // Whole runs
  // ---------------------------------------------------------------------

  /** A command, or something the game does to the orders and jobs between two commands. */
  datatype Event =
    | Create(what: Resolution, quantity: UInt16, frequency: Byte)
    | Cancel(id: int)
    | Edit(id: int, amount: Option<UInt16>, newFrequency: Option<Byte>)
    | Dispatch(job: Job)
    | Finish(job: Job)
    | Link(id: int, condition: Condition)
    | Work(id: int, left: Int16)

  function Next(s: State, e: Event): State {
    match e
    case Create(what, quantity, frequency) => if InRange(quantity) then Created(s, what, quantity, frequency) else s
    case Cancel(id) => Cancelled(s, id)
    case Edit(id, amount, frequency) =>
      if (amount.None? && frequency.None?) || (amount.Some? && !InRange(amount.value)) then s
      else Edited(s, id, amount, frequency)
    case Dispatch(job) =>
      if job.orderId == NO_ORDER || IndexOf(s.orders, job.orderId) < |s.orders| then s.(jobs := s.jobs + [job]) else s
    case Finish(job) => s.(jobs := RemoveFirst(s.jobs, job))
    case Link(id, condition) =>
      var k := IndexOf(s.orders, id);
      if k < |s.orders| && IndexOf(s.orders, condition.orderId) < |s.orders|
      then s.(orders := s.orders[k := s.orders[k].(dependsOn := s.orders[k].dependsOn + [condition])])
      else s
    case Work(id, left) =>
      var k := IndexOf(s.orders, id);
      if k < |s.orders| && (s.orders[k].total > 0 ==> 0 <= left <= s.orders[k].total)
      then s.(orders := s.orders[k := s.orders[k].(left := left)])
      else s
  }

  function Run(s: State, events: seq<Event>): State {
    if events == [] then s else Next(Run(s, events[..|events| - 1]), events[|events| - 1])
  }

  ghost predicate LinksLive(orders: seq<Order>, o: Order) {
    forall c :: c in o.dependsOn ==> Names(orders, c.orderId)
  }

  ghost predicate JobLive(orders: seq<Order>, job: Job) {
    job.orderId == NO_ORDER || Names(orders, job.orderId)
  }

  /** Ids are distinct and below the counter; no condition and no job names an order that is gone. */
  ghost predicate Sound(s: State) {
    && DistinctIds(s.orders)
    && (forall o :: o in s.orders ==> 0 <= o.id < s.nextId && LinksLive(s.orders, o))
    && (forall j :: j in s.jobs ==> JobLive(s.orders, j))
  }

  lemma CreateKeepsSound(s: State, what: Resolution, quantity: UInt16, frequency: Byte)
    requires Sound(s) && 0 <= s.nextId
    ensures Sound(Created(s, what, quantity, frequency))
  {
    var t := Created(s, what, quantity, frequency);
    forall id ensures Names(s.orders, id) ==> Names(t.orders, id) {
      if Names(s.orders, id) {
        var o :| o in s.orders && o.id == id;
        assert o in t.orders;
      }
    }
    forall i, j | 0 <= i < j < |t.orders| ensures t.orders[i].id != t.orders[j].id {
      assert t.orders[i] in s.orders;
    }
    forall o | o in t.orders ensures LinksLive(t.orders, o) {
      assert o in s.orders || o.dependsOn == [];
    }
    forall j | j in t.jobs ensures JobLive(t.orders, j) {
      assert JobLive(s.orders, j);
    }
  }

  lemma CancelKeepsSound(s: State, id: int)
    requires Sound(s)
    ensures Sound(Cancelled(s, id))
  {
    var k, t := IndexOf(s.orders, id), Cancelled(s, id);
    if k < |s.orders| {
      assert s.orders[k] in s.orders;
      forall o | o in t.orders ensures 0 <= o.id < t.nextId && LinksLive(t.orders, o) {
        CancelledMembers(s, id, o);
        var was :| was in s.orders && o == Scrub(was, id);
        forall c | c in o.dependsOn ensures Names(t.orders, c.orderId) {
          WithoutDropsOnly(was.dependsOn, id);
          NamesAfterCancel(s, id, c.orderId);
        }
      }
      forall j | j in t.jobs ensures JobLive(t.orders, j) {
        OtherJobsDropsOnly(s.jobs, id);
        NamesAfterCancel(s, id, j.orderId);
      }
    }
  }

  /** Changing an order in place, keeping its id and its conditions live. */
  lemma UpdateKeepsSound(s: State, k: nat, o: Order)
    requires Sound(s) && k < |s.orders| && o.id == s.orders[k].id && LinksLive(s.orders, o)
    ensures Sound(s.(orders := s.orders[k := o]))
  {
    var orders := s.orders[k := o];
    assert s.orders[k] in s.orders;
    forall id ensures Names(s.orders, id) ==> Names(orders, id) {
      if Names(s.orders, id) {
        var was :| was in s.orders && was.id == id;
        var i :| 0 <= i < |s.orders| && s.orders[i] == was;
        assert orders[i] in orders && orders[i].id == id;
      }
    }
    forall p | p in orders ensures 0 <= p.id < s.nextId && LinksLive(orders, p) {
      assert p == o || p in s.orders;
      assert LinksLive(s.orders, p);
    }
    forall j | j in s.jobs ensures JobLive(orders, j) {
      assert JobLive(s.orders, j);
    }
  }

  lemma EditKeepsSound(s: State, id: int, amount: Option<UInt16>, frequency: Option<Byte>)
    requires Sound(s)
    ensures Sound(Edited(s, id, amount, frequency))
  {
    var k := IndexOf(s.orders, id);
    if k < |s.orders| {
      var o := Adjusted(s.orders[k], amount, frequency);
      assert s.orders[k] in s.orders;
      if amount.Some? && o.left <= 0 {
        EditsOfOne(s, id, k, o);
        CancelKeepsSound(s, id);
      } else {
        UpdateKeepsSound(s, k, o);
      }
    }
  }

  lemma {:induction false} RemoveFirstMembers(jobs: seq<Job>, job: Job)
    ensures forall j :: j in RemoveFirst(jobs, job) ==> j in jobs
  {
    if jobs != [] {
      RemoveFirstMembers(jobs[1..], job);
    }
  }

  lemma LinkKeepsSound(s: State, id: int, condition: Condition)
    requires Sound(s)
    ensures Sound(Next(s, Link(id, condition)))
  {
    var k := IndexOf(s.orders, id);
    NamedIsFound(s.orders, condition.orderId);
    if k < |s.orders| && IndexOf(s.orders, condition.orderId) < |s.orders| {
      assert s.orders[k] in s.orders;
      UpdateKeepsSound(s, k, s.orders[k].(dependsOn := s.orders[k].dependsOn + [condition]));
    }
  }

  lemma WorkKeepsSound(s: State, id: int, left: Int16)
    requires Sound(s)
    ensures Sound(Next(s, Work(id, left)))
  {
    var k := IndexOf(s.orders, id);
    if k < |s.orders| {
      assert s.orders[k] in s.orders;
      UpdateKeepsSound(s, k, s.orders[k].(left := left));
    }
  }

  lemma NextKeepsSound(s: State, e: Event)
    requires Sound(s) && 0 <= s.nextId
    ensures Sound(Next(s, e)) && s.nextId <= Next(s, e).nextId
  {
    match e
    case Create(what, quantity, frequency) =>
      CreateKeepsSound(s, what, quantity, frequency);
    case Cancel(id) => CancelKeepsSound(s, id);
    case Edit(id, amount, frequency) =>
      EditKeepsSound(s, id, amount, frequency);
    case Dispatch(job) => NamedIsFound(s.orders, job.orderId);
    case Finish(job) => RemoveFirstMembers(s.jobs, job);
    case Link(id, condition) => LinkKeepsSound(s, id, condition);
    case Work(id, left) => WorkKeepsSound(s, id, left);
  }

  lemma {:induction false} EveryRunIsSound(s: State, events: seq<Event>)
    requires Sound(s) && 0 <= s.nextId
    ensures Sound(Run(s, events)) && s.nextId <= Run(s, events).nextId
  {
    if events != [] {
      EveryRunIsSound(s, events[..|events| - 1]);
      NextKeepsSound(Run(s, events[..|events| - 1]), events[|events| - 1]);
    }
  }

  ghost predicate AllGood(orders: seq<Order>) {
    forall i :: 0 <= i < |orders| ==> GoodAmounts(orders[i])
  }

  lemma EditKeepsGood(s: State, id: int, amount: Option<UInt16>, frequency: Option<Byte>)
    requires AllGood(s.orders) && (amount.Some? ==> InRange(amount.value))
    ensures AllGood(Edited(s, id, amount, frequency).orders)
  {
    var k := IndexOf(s.orders, id);
    if k < |s.orders| {
      if amount.Some? {
        AdjustedInRange(s.orders[k], amount.value, frequency);
        EditRemovesExactly(s, id, amount.value, frequency);
      }
    }
  }

  /** Where every order starts with amounts the dispatcher accepts, every run keeps them so. */
  lemma {:induction false} EveryRunKeepsGood(s: State, events: seq<Event>)
    requires AllGood(s.orders)
    ensures AllGood(Run(s, events).orders)
  {
    if events != [] {
      var e := events[|events| - 1];
      EveryRunKeepsGood(s, events[..|events| - 1]);
      if e.Edit? && (e.amount.Some? ==> InRange(e.amount.value)) {
        EditKeepsGood(Run(s, events[..|events| - 1]), e.id, e.amount, e.newFrequency);
      }
    }
  }

  /** An id that has been given out and is gone never comes back, so nothing ever names it again. */
  lemma {:induction false} DeadIdStaysDead(s: State, id: int, events: seq<Event>)
    requires Sound(s) && 0 <= id < s.nextId && !Names(s.orders, id)
    ensures !Names(Run(s, events).orders, id)
    ensures forall j :: j in Run(s, events).jobs ==> j.orderId != id
    ensures forall o, c :: o in Run(s, events).orders && c in o.dependsOn ==> c.orderId != id
  {
    EveryRunIsSound(s, events);
    if events != [] {
      var before := Run(s, events[..|events| - 1]);
      EveryRunIsSound(s, events[..|events| - 1]);
      DeadIdStaysDead(s, id, events[..|events| - 1]);
      if Names(Run(s, events).orders, id) {
        NextMakesNoOldName(before, id, events[|events| - 1]);
      }
    }
    NothingNamesTheGone(Run(s, events), id);
  }

  lemma NothingNamesTheGone(s: State, id: int)
    requires Sound(s) && 0 <= id && !Names(s.orders, id)
    ensures forall j :: j in s.jobs ==> j.orderId != id
    ensures forall o, c :: o in s.orders && c in o.dependsOn ==> c.orderId != id
  {
    forall j | j in s.jobs ensures j.orderId != id {
      assert JobLive(s.orders, j);
    }
    forall o, c | o in s.orders && c in o.dependsOn ensures c.orderId != id {
      assert LinksLive(s.orders, o);
    }
  }

  lemma NextMakesNoOldName(s: State, id: int, e: Event)
    requires Sound(s) && 0 <= id < s.nextId && Names(Next(s, e).orders, id)
    ensures Names(s.orders, id)
  {
    var o :| o in Next(s, e).orders && o.id == id;
    match e
    case Cancel(gone) =>
      if IndexOf(s.orders, gone) < |s.orders| { NamesAfterCancel(s, gone, id); }
    case Edit(edited, amount, frequency) =>
      var k := IndexOf(s.orders, edited);
      if k < |s.orders| {
        assert s.orders[k] in s.orders;
        var p := Adjusted(s.orders[k], amount, frequency);
        if amount.Some? && InRange(amount.value) && p.left <= 0 {
          EditsOfOne(s, edited, k, p);
          NamesAfterCancel(s, edited, id);
        } else {
          UpdateMakesNoName(s.orders, k, p, id);
        }
      }
    case Link(linked, condition) =>
      var k := IndexOf(s.orders, linked);
      if k < |s.orders| {
        UpdateMakesNoName(s.orders, k, s.orders[k].(dependsOn := s.orders[k].dependsOn + [condition]), id);
      }
    case Work(worked, left) =>
      var k := IndexOf(s.orders, worked);
      if k < |s.orders| {
        UpdateMakesNoName(s.orders, k, s.orders[k].(left := left), id);
      }
    case _ =>
      assert o in s.orders;
  }

  lemma UpdateMakesNoName(orders: seq<Order>, k: nat, o: Order, id: int)
    requires k < |orders| && o.id == orders[k].id
    ensures Names(orders[k := o], id) ==> Names(orders, id)
  {
    if Names(orders[k := o], id) {
      var p :| p in orders[k := o] && p.id == id;
      assert p in orders || orders[k].id == id;
      assert orders[k] in orders;
    }
  }
}
