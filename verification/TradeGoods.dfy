/** Marking goods for hauling to a trade depot, and releasing them again. */
module TradeGoods {
  import opened Options
  import opened Sequences

  class Item {
    const value: int
    const container: bool
    const contents: seq<Item>
    const trader: bool            // merchant stock
    const otherwiseBarred: bool   // the other kNotTradeableFlags
    var inInventory: bool
    var inJob: bool
    var inBuilding: bool
    var forbid: bool

    constructor (value: int, contents: seq<Item>, trader: bool, inInventory: bool)
    {
      this.value, this.contents, this.container := value, contents, contents != [];
      this.trader, this.otherwiseBarred, this.inInventory := trader, false, inInventory;
      inJob, inBuilding, forbid := false, false, false;
    }

    predicate Barred() { trader || otherwiseBarred }
  }

  /**
   What one command asks for. `matches` is the class, type and material filter on an item's own
   type and material; `walkable` is Maps::canWalkBetween to the depot and `markable` is what
   Items::markForTrade answers.
   */
  datatype Filter = Filter(anyClass: bool, matches: Item -> bool, walkable: Item -> bool, markable: Item -> bool)

  datatype JobKind = BringItem | DestroyBuilding | OtherJob

  datatype Job = Job(kind: JobKind, items: seq<Item>)

  /** An item of the depot's contained_items; `temporary` is the TEMP role. */
  datatype Held = Held(item: Item, temporary: bool)

  // ---------------------------------------------------------------------
  // Staging
  // ---------------------------------------------------------------------

  /** An item as the command finds it: whether everything but the value cap lets it through, and at what value. */
  datatype Offer = Offer(item: Item, wanted: bool, value: int)

  function SumOf(items: seq<Item>): int {
    if items == [] then 0 else SumOf(items[..|items| - 1]) + items[|items| - 1].value
  }

  /** A container is taken whole, for its contents, when the command names a class. */
  predicate TakenWhole(item: Item, f: Filter) { !f.anyClass && item.container }

  predicate Holds(item: Item, f: Filter) {
    exists c :: c in item.contents && !c.Barred() && f.matches(c)
  }

  /** The flags a staging looks at or changes. */
  datatype Flags = Flags(inInventory: bool, inJob: bool, inBuilding: bool, forbid: bool)

  const FREE := Flags(false, false, false, false)

  function FlagsOn(item: Item): Flags
    reads item
  {
    Flags(item.inInventory, item.inJob, item.inBuilding, item.forbid)
  }

  predicate Free(item: Item, flags: Flags) {
    !item.Barred() && !flags.inInventory && !flags.inJob && !flags.inBuilding
  }

  function OfferOf(item: Item, flags: Flags, f: Filter): Offer {
    var fits := if TakenWhole(item, f) then Holds(item, f) else f.matches(item);
    Offer(item,
          Free(item, flags) && fits && f.walkable(item) && f.markable(item),
          if TakenWhole(item, f) then item.value + SumOf(item.contents) else item.value)
  }

  function Offers(items: seq<Item>, flags: seq<Flags>, f: Filter): (offers: seq<Offer>)
    requires |items| == |flags|
    ensures |offers| == |items|
  {
    if items == [] then []
    else
      var n := |items| - 1;
      Offers(items[..n], flags[..n], f) + [OfferOf(items[n], flags[n], f)]
  }

  lemma {:induction false} OfferAt(items: seq<Item>, flags: seq<Flags>, f: Filter, i: nat)
    requires |items| == |flags| && i < |items|
    ensures Offers(items, flags, f)[i] == OfferOf(items[i], flags[i], f)
  {
    var n := |items| - 1;
    if i < n {
      OfferAt(items[..n], flags[..n], f, i);
    }
  }

  datatype Staging = Staging(marked: seq<Offer>, total: int)

  predicate OverCap(total: int, cap: int) { cap > 0 && total > cap }

  /** First come, first served, under the count and the cap. */
  function Stage(offers: seq<Offer>, maxCount: int, cap: int): Staging {
    StageUpTo(offers, |offers|, maxCount, cap)
  }

  /** The staging after the first `n` offers. */
  function StageUpTo(offers: seq<Offer>, n: nat, maxCount: int, cap: int): Staging
    requires n <= |offers|
  {
    if n == 0 then Staging([], 0)
    else
      var before, o := StageUpTo(offers, n - 1, maxCount, cap), offers[n - 1];
      if |before.marked| < maxCount && o.wanted && !OverCap(before.total + o.value, cap)
      then Taken(before, o) else before
  }

  function Taken(s: Staging, o: Offer): Staging { Staging(s.marked + [o], s.total + o.value) }

  function ValueOf(marked: seq<Offer>): int {
    if marked == [] then 0 else ValueOf(marked[..|marked| - 1]) + marked[|marked| - 1].value
  }

  function JobsFor(marked: seq<Offer>): (jobs: seq<Job>)
    ensures |jobs| == |marked| && forall i :: 0 <= i < |jobs| ==> jobs[i] == Job(BringItem, [marked[i].item])
  {
    seq(|marked|, i requires 0 <= i < |marked| => Job(BringItem, [marked[i].item]))
  }

  ghost predicate NoAliases(items: seq<Item>) {
    forall i, j :: 0 <= i < j < |items| ==> items[i] != items[j]
  }

  ghost predicate IsMarked(marked: seq<Offer>, item: Item) {
    exists o :: o in marked && o.item == item
  }

  datatype Reply = Refused | Marked(count: nat, total: int)

  class Depot {
    var jobs: seq<Job>
    var held: seq<Held>
    const built: bool

    constructor (built: bool)
      ensures jobs == [] && held == [] && this.built == built
    {
      jobs, held := [], [];
      this.built := built;
    }

    /** The loop over what a container holds. */
    method Appraise(item: Item, f: Filter) returns (anyMatch: bool, value: int)
      ensures anyMatch == Holds(item, f) && value == item.value + SumOf(item.contents)
    {
      anyMatch, value := false, item.value;
      for i := 0 to |item.contents|
        invariant value == item.value + SumOf(item.contents[..i])
        invariant anyMatch <==> exists c :: c in item.contents[..i] && !c.Barred() && f.matches(c)
      {
        var c := item.contents[i];
        assert item.contents[..i + 1] == item.contents[..i] + [c];
        assert item.contents[..i + 1][..i] == item.contents[..i];
        value := value + c.value;
        if !anyMatch && !c.Barred() && f.matches(c) {
          anyMatch := true;
        }
      }
      assert item.contents[..|item.contents|] == item.contents;
    }

    /** The tests on one item, in the order of the loop; the value is only meaningful when it passes. */
    method Consider(item: Item, f: Filter, total: int, cap: int) returns (take: bool, value: int)
      ensures var o := OfferOf(item, FlagsOn(item), f);
        (take <==> o.wanted && !OverCap(total + o.value, cap)) && (take ==> value == o.value)
    {
      take, value := false, 0;
      if item.Barred() || item.inInventory || item.inJob || item.inBuilding {
        return;
      }
      if !f.anyClass && item.container {
        var anyMatch;
        anyMatch, value := Appraise(item, f);
        if !anyMatch {
          return;
        }
      } else {
        if !f.matches(item) {
          return;
        }
        value := item.value;
      }
      if cap > 0 && total + value > cap {
        return;
      }
      take := f.walkable(item) && f.markable(item);
    }

    /** Items::markForTrade, when it succeeds, and the mark's own clearing of forbid. */
    method Mark(inPlay: seq<Item>, i: nat, ghost flags: seq<Flags>, ghost marked: seq<Offer>, ghost o: Offer)
      requires NoAliases(inPlay) && i < |inPlay| && o.item == inPlay[i] && AllHaveBeen(inPlay, flags, marked)
      modifies `jobs, inPlay[i]
      ensures jobs == old(jobs) + [Job(BringItem, [inPlay[i]])]
      ensures AllHaveBeen(inPlay, flags, marked + [o])
    {
      var item := inPlay[i];
      jobs := jobs + [Job(BringItem, [item])];
      item.inJob := true;
      item.forbid := false;
      forall j | 0 <= j < |inPlay| ensures HasBeen(inPlay[j], flags[j], marked + [o]) {
        MarkedGrows(marked, o, inPlay[j]);
        assert old(HasBeen(inPlay[j], flags[j], marked));
      }
    }

    /** `s` has been staged, on top of the jobs `before`. */
    ghost predicate HasStaged(inPlay: seq<Item>, flags: seq<Flags>, before: seq<Job>, s: Staging, marked: int,
                              total: int)
      reads this, inPlay
    {
      && marked == |s.marked| && total == s.total
      && jobs == before + JobsFor(s.marked)
      && AllHaveBeen(inPlay, flags, s.marked)
    }

    /** One turn of the loop. */
    method MarkNext(inPlay: seq<Item>, i: nat, f: Filter, maxCount: int, cap: int, marked: int, total: int,
                    ghost flags: seq<Flags>, ghost before: seq<Job>) returns (marked': int, total': int)
      requires NoAliases(inPlay) && i < |inPlay| && |flags| == |inPlay| && marked < maxCount
      requires HasStaged(inPlay, flags, before, StageUpTo(Offers(inPlay, flags, f), i, maxCount, cap), marked, total)
      modifies `jobs, inPlay[i]
      ensures HasStaged(inPlay, flags, before, StageUpTo(Offers(inPlay, flags, f), i + 1, maxCount, cap),
                        marked', total')
    {
      ghost var offers := Offers(inPlay, flags, f);
      ghost var s := StageUpTo(offers, i, maxCount, cap);
      OfferAt(inPlay, flags, f, i);
      NotYetMarked(inPlay, flags, f, i, maxCount, cap);
      assert HasBeen(inPlay[i], flags[i], s.marked);
      marked', total' := marked, total;
      var take, value := Consider(inPlay[i], f, total, cap);
      if take {
        Mark(inPlay, i, flags, s.marked, offers[i]);
        OneMoreJob(s.marked, offers[i], before);
        marked', total' := marked + 1, total + value;
      }
    }

    /** The loop over the items in play. */
    method MarkAll(inPlay: seq<Item>, f: Filter, maxCount: int, cap: int, ghost flags: seq<Flags>)
      returns (marked: int, total: int)
      requires NoAliases(inPlay) && flags == FlagsOf(inPlay)
      modifies `jobs, inPlay
      ensures HasStaged(inPlay, flags, old(jobs), Stage(Offers(inPlay, flags, f), maxCount, cap), marked, total)
    {
      ghost var offers := Offers(inPlay, flags, f);
      marked, total := 0, 0;
      var i := 0;
      while i < |inPlay| && marked < maxCount
        invariant 0 <= i <= |inPlay|
        invariant HasStaged(inPlay, flags, old(jobs), StageUpTo(offers, i, maxCount, cap), marked, total)
      {
        marked, total := MarkNext(inPlay, i, f, maxCount, cap, marked, total, flags, old(jobs));
        i := i + 1;
      }
      FullStaysFull(offers, i, |inPlay|, maxCount, cap);
    }

    /** applyBringGoodsToDepot */
    method ApplyBringGoods(inPlay: seq<Item>, f: Filter, maxCount: int, cap: int) returns (reply: Reply)
      requires NoAliases(inPlay)
      modifies `jobs, inPlay
      ensures reply.Refused? <==> maxCount < 1 || !built || (old(jobs) != [] && old(jobs)[0].kind == DestroyBuilding)
      ensures reply.Refused? ==> jobs == old(jobs) && FlagsOf(inPlay) == old(FlagsOf(inPlay))
      ensures !reply.Refused? ==>
        var s := Stage(Offers(inPlay, old(FlagsOf(inPlay)), f), maxCount, cap);
        && reply == Marked(|s.marked|, s.total)
        && jobs == old(jobs) + JobsFor(s.marked)
        && AllHaveBeen(inPlay, old(FlagsOf(inPlay)), s.marked)
      ensures old(Nested(inPlay, FlagsOf(inPlay), jobs)) ==> Nested(inPlay, FlagsOf(inPlay), jobs)
    {
      ghost var was, before := FlagsOf(inPlay), jobs;
      if maxCount < 1 || !built || (jobs != [] && jobs[0].kind == DestroyBuilding) {
        return Refused;
      }
      var marked, total := MarkAll(inPlay, f, maxCount, cap, FlagsOf(inPlay));
      if Nested(inPlay, was, before) {
        SameInventory(inPlay, was, Stage(Offers(inPlay, was, f), maxCount, cap).marked);
        StagingKeepsNested(inPlay, was, FlagsOf(inPlay), before, f, maxCount, cap);
      }
      reply := Marked(marked, total);
    }

    /** The hauling jobs to cancel, collected before any is. */
    method CollectPending(f: Filter, maxCount: nat) returns (picked: seq<Job>)
      ensures picked == Picked(jobs, f, maxCount)
    {
      picked := [];
      var i := 0;
      while i < |jobs| && |picked| < maxCount
        invariant 0 <= i <= |jobs| && |picked| <= maxCount
        invariant Picked(jobs, f, maxCount) == picked + Picked(jobs[i..], f, maxCount - |picked|)
      {
        ghost var rest := jobs[i..];
        assert rest[0] == jobs[i] && rest[1..] == jobs[i + 1..];
        if IsPending(jobs[i], f) {
          AppendThenRest(picked, jobs[i], Picked(rest[1..], f, maxCount - |picked| - 1));
          picked := picked + [jobs[i]];
        }
        i := i + 1;
      }
      NothingPicked(jobs[i..], f, maxCount - |picked|);
    }

    method CancelPending(f: Filter, maxCount: nat) returns (cancelled: nat)
      modifies `jobs
      ensures jobs == Kept(old(jobs), f, maxCount) && cancelled == |Picked(old(jobs), f, maxCount)|
    {
      var picked := CollectPending(f, maxCount);
      KeptOfPicked(jobs, f, maxCount);
      cancelled := |picked|;
      for k := 0 to |picked|
        invariant Picked(jobs, f, |picked| - k) == picked[k..]
        invariant Kept(jobs, f, |picked| - k) == Kept(old(jobs), f, |picked|)
      {
        RemoveFirstPicked(jobs, f, |picked| - k);
        jobs := RemoveFirst(jobs, picked[k]);  // Job::removeJob
      }
      KeptAll(jobs, f);
    }

    /** The staged half, over the items the depot holds. */
    method ReleaseStaged(f: Filter, budget: int) returns (released: nat)
      modifies (set h | h in held :: h.item)`inBuilding
      ensures released == |Releases(held, |held|, f, budget, old(StagedIn(held)))|
      ensures StagedIn(held) ==
        old(StagedIn(held)) - (set x | x in Releases(held, |held|, f, budget, old(StagedIn(held))))
    {
      ghost var staged := StagedIn(held);
      ghost var out := [];
      released := 0;
      var i := 0;
      while i < |held| && released < budget
        invariant 0 <= i <= |held| && released == |out|
        invariant out == Releases(held, i, f, budget, staged)
        invariant forall h :: h in held ==> (h.item.inBuilding <==> h.item in staged && h.item !in out)
      {
        var h := held[i];
        if h.temporary && h.item.inBuilding && CanRelease(h.item, f) {
          h.item.inBuilding := false;
          released := released + 1;
          out := out + [h.item];
        }
        i := i + 1;
      }
      ReleasesFull(held, i, |held|, f, budget, staged);
    }

    /** applyUnmarkTradeGoods */
    method ApplyUnmark(f: Filter, maxCount: int) returns (reply: Option<(nat, nat)>)
      modifies `jobs, (set h | h in held :: h.item)`inBuilding
      ensures reply.None? <==> maxCount < 1
      ensures reply.None? ==> jobs == old(jobs) && StagedIn(held) == old(StagedIn(held))
      ensures reply.Some? ==>
        var cancelled, staged := |Picked(old(jobs), f, maxCount)|, old(StagedIn(held));
        var out := Releases(held, |held|, f, maxCount - cancelled, staged);
        && reply.value == (cancelled, |out|)
        && jobs == Kept(old(jobs), f, maxCount)
        && StagedIn(held) == staged - (set x | x in out)
    {
      if maxCount < 1 {
        return None;
      }
      var cancelled := CancelPending(f, maxCount);
      var released := ReleaseStaged(f, maxCount - cancelled);
      reply := Some((cancelled, released));
    }
  }

  // ---------------------------------------------------------------------
  // Releasing
  // ---------------------------------------------------------------------

  /** matchesFilters */
  predicate CanRelease(item: Item, f: Filter) { !item.trader && f.matches(item) }

  predicate IsPending(job: Job, f: Filter) {
    job.kind == BringItem && exists item :: item in job.items && CanRelease(item, f)
  }

  /** The first `max` hauling jobs that carry something to release. */
  function Picked(jobs: seq<Job>, f: Filter, max: nat): seq<Job> {
    if jobs == [] then []
    else if max > 0 && IsPending(jobs[0], f) then [jobs[0]] + Picked(jobs[1..], f, max - 1)
    else Picked(jobs[1..], f, max)
  }

  /** The jobs left when those are cancelled. */
  function Kept(jobs: seq<Job>, f: Filter, max: nat): seq<Job> {
    if jobs == [] then []
    else if max > 0 && IsPending(jobs[0], f) then Kept(jobs[1..], f, max - 1)
    else [jobs[0]] + Kept(jobs[1..], f, max)
  }

  ghost function StagedIn(held: seq<Held>): set<Item>
    reads set h | h in held :: h.item
  {
    set h | h in held && h.item.inBuilding :: h.item
  }

  /** The items released from the first `n` held, in order; a stale second entry of one counts for nothing. */
  function Releases(held: seq<Held>, n: nat, f: Filter, budget: int, staged: set<Item>): seq<Item>
    requires n <= |held|
  {
    if n == 0 then []
    else
      var before, h := Releases(held, n - 1, f, budget, staged), held[n - 1];
      if |before| < budget && h.temporary && h.item in staged && h.item !in before && CanRelease(h.item, f)
      then before + [h.item]
      else before
  }

  lemma {:induction false} ReleasesFull(held: seq<Held>, i: nat, n: nat, f: Filter, budget: int, staged: set<Item>)
    requires i <= n <= |held| && (i == n || |Releases(held, i, f, budget, staged)| >= budget)
    ensures Releases(held, n, f, budget, staged) == Releases(held, i, f, budget, staged)
  {
    if i < n {
      ReleasesFull(held, i, n - 1, f, budget, staged);
    }
  }

  lemma AppendThenRest(front: seq<Job>, job: Job, rest: seq<Job>)
    ensures front + ([job] + rest) == (front + [job]) + rest
  {
  }

  lemma {:induction false} NothingPicked(jobs: seq<Job>, f: Filter, max: nat)
    requires jobs == [] || max == 0
    ensures Picked(jobs, f, max) == []
  {
    if jobs != [] {
      NothingPicked(jobs[1..], f, max);
    }
  }

  lemma {:induction false} KeptAll(jobs: seq<Job>, f: Filter)
    ensures Kept(jobs, f, 0) == jobs
  {
    if jobs != [] {
      KeptAll(jobs[1..], f);
    }
  }

  /** A limit that was not reached is as good as the number picked. */
  lemma {:induction false} KeptOfPicked(jobs: seq<Job>, f: Filter, max: nat)
    ensures var n := |Picked(jobs, f, max)|;
      n <= max && Kept(jobs, f, n) == Kept(jobs, f, max) && Picked(jobs, f, n) == Picked(jobs, f, max)
  {
    if jobs != [] {
      if max > 0 && IsPending(jobs[0], f) {
        KeptOfPicked(jobs[1..], f, max - 1);
      } else {
        KeptOfPicked(jobs[1..], f, max);
      }
    }
  }

  lemma {:induction false} RemoveFirstPicked(jobs: seq<Job>, f: Filter, max: nat)
    requires Picked(jobs, f, max) != []
    ensures max > 0
    ensures var rest := RemoveFirst(jobs, Picked(jobs, f, max)[0]);
      Picked(rest, f, max - 1) == Picked(jobs, f, max)[1..] && Kept(rest, f, max - 1) == Kept(jobs, f, max)
  {
    if max == 0 {
      NothingPicked(jobs, f, max);
    } else if !IsPending(jobs[0], f) {
      FirstIsPending(jobs, f, max);
      RemoveFirstPicked(jobs[1..], f, max);
      var rest := RemoveFirst(jobs[1..], Picked(jobs, f, max)[0]);
      assert ([jobs[0]] + rest)[1..] == rest;
    }
  }

  lemma {:induction false} FirstIsPending(jobs: seq<Job>, f: Filter, max: nat)
    requires Picked(jobs, f, max) != []
    ensures IsPending(Picked(jobs, f, max)[0], f)
  {
    if !(max > 0 && IsPending(jobs[0], f)) {
      FirstIsPending(jobs[1..], f, max);
    }
  }

  function FlagsOf(items: seq<Item>): (flags: seq<Flags>)
    reads items
    ensures |flags| == |items|
    ensures forall i :: 0 <= i < |items| ==> flags[i] == FlagsOn(items[i])
  {
    seq(|items|, i requires 0 <= i < |items| reads items => FlagsOn(items[i]))
  }

  /** A marked item is in a job and no longer forbidden; any other keeps its flags. */
  ghost predicate HasBeen(item: Item, was: Flags, marked: seq<Offer>)
    reads item
  {
    && item.inJob == (was.inJob || IsMarked(marked, item))
    && item.forbid == (was.forbid && !IsMarked(marked, item))
    && item.inBuilding == was.inBuilding && item.inInventory == was.inInventory
  }

  ghost predicate AllHaveBeen(items: seq<Item>, flags: seq<Flags>, marked: seq<Offer>)
    reads items
  {
    |flags| == |items| && forall i :: 0 <= i < |items| ==> HasBeen(items[i], flags[i], marked)
  }

  lemma SameInventory(items: seq<Item>, was: seq<Flags>, marked: seq<Offer>)
    requires AllHaveBeen(items, was, marked)
    ensures forall i :: 0 <= i < |items| ==> FlagsOf(items)[i].inInventory == was[i].inInventory
  {
    assert forall i :: 0 <= i < |items| ==> HasBeen(items[i], was[i], marked);
  }

  lemma OneMoreJob(marked: seq<Offer>, o: Offer, before: seq<Job>)
    ensures before + JobsFor(marked) + [Job(BringItem, [o.item])] == before + JobsFor(marked + [o])
  {
  }

  lemma MarkedGrows(marked: seq<Offer>, o: Offer, item: Item)
    ensures IsMarked(marked + [o], item) <==> IsMarked(marked, item) || o.item == item
  {
    assert o in marked + [o];
    assert forall p :: p in marked ==> p in marked + [o];
  }

  lemma {:induction false} MarkedAreOffered(offers: seq<Offer>, n: nat, maxCount: int, cap: int)
    requires n <= |offers|
    ensures forall o :: o in StageUpTo(offers, n, maxCount, cap).marked ==> o in offers[..n] && o.wanted
  {
    if n > 0 {
      MarkedAreOffered(offers, n - 1, maxCount, cap);
      assert offers[..n] == offers[..n - 1] + [offers[n - 1]];
    }
  }

  lemma NotYetMarked(items: seq<Item>, flags: seq<Flags>, f: Filter, i: nat, maxCount: int, cap: int)
    requires NoAliases(items) && |items| == |flags| && i < |items|
    ensures !IsMarked(StageUpTo(Offers(items, flags, f), i, maxCount, cap).marked, items[i])
  {
    var offers := Offers(items, flags, f);
    MarkedAreOffered(offers, i, maxCount, cap);
    forall j | 0 <= j < i ensures offers[j].item != items[i] {
      OfferAt(items, flags, f, j);
    }
  }

  lemma {:induction false} FullStaysFull(offers: seq<Offer>, i: nat, n: nat, maxCount: int, cap: int)
    requires i <= n <= |offers| && (i == n || |StageUpTo(offers, i, maxCount, cap).marked| >= maxCount)
    ensures StageUpTo(offers, n, maxCount, cap) == StageUpTo(offers, i, maxCount, cap)
  {
    if i < n {
      FullStaysFull(offers, i, n - 1, maxCount, cap);
    }
  }

  // ---------------------------------------------------------------------
  // What a staging promises
  // ---------------------------------------------------------------------

  lemma {:induction false} StagingKeepsLimits(offers: seq<Offer>, n: nat, maxCount: nat, cap: int)
    requires n <= |offers|
    ensures var s := StageUpTo(offers, n, maxCount, cap);
      |s.marked| <= maxCount && !OverCap(s.total, cap) && s.total == ValueOf(s.marked)
  {
    if n > 0 {
      StagingKeepsLimits(offers, n - 1, maxCount, cap);
      var before := StageUpTo(offers, n - 1, maxCount, cap);
      assert (before.marked + [offers[n - 1]])[..|before.marked|] == before.marked;
    }
  }

  /** With no negative values the total only grows and nothing marked is dropped. */
  lemma {:induction false} StagingGrows(offers: seq<Offer>, m: nat, n: nat, maxCount: nat, cap: int)
    requires m <= n <= |offers| && forall o :: o in offers ==> o.value >= 0
    ensures var s, t := StageUpTo(offers, m, maxCount, cap), StageUpTo(offers, n, maxCount, cap);
      s.total <= t.total && |s.marked| <= |t.marked| && forall o :: o in s.marked ==> o in t.marked
  {
    if m < n {
      StagingGrows(offers, m, n - 1, maxCount, cap);
      assert offers[n - 1] in offers;
    }
  }

  /** If the count was not the limit, every wanted offer left behind would overflow the cap even now. */
  lemma StagingIsMaximal(offers: seq<Offer>, i: nat, maxCount: nat, cap: int)
    requires i < |offers| && forall o :: o in offers ==> o.value >= 0
    requires var s := Stage(offers, maxCount, cap);
      |s.marked| < maxCount && offers[i].wanted && offers[i] !in s.marked
    ensures OverCap(Stage(offers, maxCount, cap).total + offers[i].value, cap)
  {
    StagingGrows(offers, i, |offers|, maxCount, cap);
    StagingGrows(offers, i + 1, |offers|, maxCount, cap);
    var next := StageUpTo(offers, i + 1, maxCount, cap);
    assert offers[i] !in next.marked;
  }

  /** Everything marked was free and passes the filter, on its own or through its contents. */
  lemma MarkedPass(items: seq<Item>, flags: seq<Flags>, f: Filter, maxCount: nat, cap: int)
    requires |items| == |flags|
    ensures forall o :: o in Stage(Offers(items, flags, f), maxCount, cap).marked ==> Passes(items, flags, f, o)
  {
    var offers := Offers(items, flags, f);
    MarkedAreOffered(offers, |offers|, maxCount, cap);
    forall o | o in offers && o.wanted ensures Passes(items, flags, f, o) {
      WantedPasses(items, flags, f, o);
    }
  }

  ghost predicate Passes(items: seq<Item>, flags: seq<Flags>, f: Filter, o: Offer)
    requires |items| == |flags|
  {
    && (exists i :: 0 <= i < |items| && items[i] == o.item && Free(o.item, flags[i]))
    && (if TakenWhole(o.item, f) then Holds(o.item, f) else f.matches(o.item))
    && o.value == if TakenWhole(o.item, f) then o.item.value + SumOf(o.item.contents) else o.item.value
  }

  lemma WantedPasses(items: seq<Item>, flags: seq<Flags>, f: Filter, o: Offer)
    requires |items| == |flags| && o in Offers(items, flags, f) && o.wanted
    ensures Passes(items, flags, f, o)
  {
    var i :| 0 <= i < |items| && Offers(items, flags, f)[i] == o;
    OfferAt(items, flags, f, i);
  }

  // ---------------------------------------------------------------------
  // Containers and their contents
  // ---------------------------------------------------------------------

  ghost predicate Hauled(jobs: seq<Job>, item: Item) {
    exists job :: job in jobs && job.kind == BringItem && item in job.items
  }

  /** The item lies in none of the items in play. */
  ghost predicate Loose(items: seq<Item>, item: Item) {
    forall i :: 0 <= i < |items| ==> item !in items[i].contents
  }

  /**
   What the game keeps true: an item in play that lies in another is flagged in inventory, and
   whatever is being hauled is in play and loose.
   */
  ghost predicate Nested(items: seq<Item>, flags: seq<Flags>, jobs: seq<Job>)
    requires |items| == |flags|
  {
    && (forall k :: 0 <= k < |items| && !Loose(items, items[k]) ==> flags[k].inInventory)
    && (forall job, x :: job in jobs && job.kind == BringItem && x in job.items ==> x in items && Loose(items, x))
  }

  /** A staging keeps that true: only loose items are marked. */
  lemma StagingKeepsNested(items: seq<Item>, was: seq<Flags>, now: seq<Flags>, jobs: seq<Job>, f: Filter, maxCount: nat,
                           cap: int)
    requires |items| == |was| == |now| && Nested(items, was, jobs)
    requires forall i :: 0 <= i < |items| ==> now[i].inInventory == was[i].inInventory
    ensures Nested(items, now, jobs + JobsFor(Stage(Offers(items, was, f), maxCount, cap).marked))
  {
    var marked := Stage(Offers(items, was, f), maxCount, cap).marked;
    MarkedPass(items, was, f, maxCount, cap);
    forall job, x | job in JobsFor(marked) && x in job.items ensures x in items && Loose(items, x) {
      var i :| 0 <= i < |marked| && JobsFor(marked)[i] == job;
      assert marked[i] in marked && Passes(items, was, f, marked[i]) && x == marked[i].item;
    }
  }

  /** Of a container and something inside it, the depot never has jobs for both. */
  lemma NeverBoth(items: seq<Item>, flags: seq<Flags>, jobs: seq<Job>, outer: Item, inner: Item)
    requires |items| == |flags| && Nested(items, flags, jobs) && inner in outer.contents
    ensures !(Hauled(jobs, outer) && Hauled(jobs, inner))
  {
    assert Hauled(jobs, outer) ==> outer in items;
    assert outer in items ==> !Loose(items, inner);
  }

  /** Cancelling jobs keeps it too. */
  lemma FewerJobsStayNested(items: seq<Item>, flags: seq<Flags>, jobs: seq<Job>, f: Filter, max: nat)
    requires |items| == |flags| && Nested(items, flags, jobs)
    ensures Nested(items, flags, Kept(jobs, f, max))
  {
    KeptMembers(jobs, f, max);
  }

  lemma {:induction false} KeptMembers(jobs: seq<Job>, f: Filter, max: nat)
    ensures forall job :: job in Kept(jobs, f, max) ==> job in jobs
  {
    if jobs != [] {
      if max > 0 && IsPending(jobs[0], f) {
        KeptMembers(jobs[1..], f, max - 1);
      } else {
        KeptMembers(jobs[1..], f, max);
      }
    }
  }

  /** What the dwarves carry: marked items and whatever lies in them. */
  function Carried(marked: seq<Offer>): int {
    if marked == [] then 0
    else
      var item := marked[|marked| - 1].item;
      Carried(marked[..|marked| - 1]) + item.value + SumOf(item.contents)
  }

  /** What lies in the marked items that were not taken for their contents. */
  function Uncounted(marked: seq<Offer>, f: Filter): int {
    if marked == [] then 0
    else
      var item := marked[|marked| - 1].item;
      Uncounted(marked[..|marked| - 1], f) + if TakenWhole(item, f) then 0 else SumOf(item.contents)
  }

  lemma {:induction false} CarriedIsCounted(marked: seq<Offer>, f: Filter)
    requires forall o :: o in marked ==>
      o.value == if TakenWhole(o.item, f) then o.item.value + SumOf(o.item.contents) else o.item.value
    ensures Carried(marked) == ValueOf(marked) + Uncounted(marked, f)
  {
    if marked != [] {
      assert marked[|marked| - 1] in marked;
      CarriedIsCounted(marked[..|marked| - 1], f);
    }
  }

  /** Values as the game gives them: every item is worth something, and no contents are worth less than nothing. */
  ghost predicate Worthy(items: seq<Item>) {
    forall i :: 0 <= i < |items| ==> items[i].value > 0 && SumOf(items[i].contents) >= 0
  }

  /** A wanted container that is not taken for its contents, with something of value in it. */
  predicate Opaque(o: Offer, f: Filter) {
    o.wanted && !TakenWhole(o.item, f) && SumOf(o.item.contents) > 0
  }

  /**
   What is carried stays within the cap, whatever the limits, exactly when no opaque container of value
   is on offer.
   */
  lemma CapHoldsExactly(items: seq<Item>, flags: seq<Flags>, f: Filter)
    requires |items| == |flags| && Worthy(items)
    ensures var offers := Offers(items, flags, f);
      (forall maxCount: nat, cap: int :: cap > 0 ==> Carried(Stage(offers, maxCount, cap).marked) <= cap)
      <==> forall o :: o in offers ==> !Opaque(o, f)
  {
    var offers := Offers(items, flags, f);
    if o :| o in offers && Opaque(o, f) {
      CapIsPassed(items, flags, f, o);
    } else {
      forall maxCount: nat, cap: int | cap > 0 ensures Carried(Stage(offers, maxCount, cap).marked) <= cap {
        CapHolds(items, flags, f, maxCount, cap);
      }
    }
  }

  lemma CapHolds(items: seq<Item>, flags: seq<Flags>, f: Filter, maxCount: nat, cap: int)
    requires |items| == |flags| && Worthy(items) && cap > 0
    requires forall o :: o in Offers(items, flags, f) ==> !Opaque(o, f)
    ensures Carried(Stage(Offers(items, flags, f), maxCount, cap).marked) <= cap
  {
    var offers := Offers(items, flags, f);
    var s := Stage(offers, maxCount, cap);
    MarkedPass(items, flags, f, maxCount, cap);
    assert forall o :: o in s.marked ==> Passes(items, flags, f, o);
    StagingKeepsLimits(offers, |offers|, maxCount, cap);
    CarriedIsCounted(s.marked, f);
    MarkedAreOffered(offers, |offers|, maxCount, cap);
    NothingUncounted(s.marked, f);
  }

  lemma {:induction false} NothingUncounted(marked: seq<Offer>, f: Filter)
    requires forall o :: o in marked ==> o.wanted && !Opaque(o, f)
    ensures Uncounted(marked, f) <= 0
  {
    if marked != [] {
      assert marked[|marked| - 1] in marked;
      NothingUncounted(marked[..|marked| - 1], f);
    }
  }

  /**
   With room for every wanted offer and a cap of exactly their value, an opaque container takes the
   load past the cap.
   */
  lemma CapIsPassed(items: seq<Item>, flags: seq<Flags>, f: Filter, o: Offer)
    requires |items| == |flags| && Worthy(items) && o in Offers(items, flags, f) && Opaque(o, f)
    ensures var offers := Offers(items, flags, f);
      exists maxCount: nat, cap: int :: cap > 0 && Carried(Stage(offers, maxCount, cap).marked) > cap
  {
    var offers := Offers(items, flags, f);
    var all := Wanted(offers, |offers|);
    forall p | p in offers && p.wanted
      ensures Passes(items, flags, f, p) && p.value > 0 && SumOf(p.item.contents) >= 0
    {
      WantedPasses(items, flags, f, p);
    }
    WantedMembers(offers, |offers|);
    var cap := ValueOf(all);
    ValueIsPositive(all, o);
    AllWantedFit(offers, |offers|, |offers|, cap);
    CarriedIsCounted(all, f);
    SomethingUncounted(all, f, o);
    assert Carried(Stage(offers, |offers|, cap).marked) > cap;
  }

  function Wanted(offers: seq<Offer>, n: nat): (w: seq<Offer>)
    requires n <= |offers|
    ensures |w| <= n
  {
    if n == 0 then []
    else if offers[n - 1].wanted then Wanted(offers, n - 1) + [offers[n - 1]]
    else Wanted(offers, n - 1)
  }

  lemma {:induction false} WantedMembers(offers: seq<Offer>, n: nat)
    requires n <= |offers|
    ensures forall o :: o in Wanted(offers, n) <==> o in offers[..n] && o.wanted
  {
    if n > 0 {
      WantedMembers(offers, n - 1);
      assert offers[..n] == offers[..n - 1] + [offers[n - 1]];
    }
  }

  lemma {:induction false} ValueIsPositive(marked: seq<Offer>, o: Offer)
    requires o in marked && forall p :: p in marked ==> p.value > 0
    ensures ValueOf(marked) > 0
  {
    var front := marked[..|marked| - 1];
    assert marked[|marked| - 1] in marked;
    if o in front {
      ValueIsPositive(front, o);
    } else {
      ValueIsNotNegative(front);
    }
  }

  lemma {:induction false} ValueIsNotNegative(marked: seq<Offer>)
    requires forall p :: p in marked ==> p.value >= 0
    ensures ValueOf(marked) >= 0
  {
    if marked != [] {
      assert marked[|marked| - 1] in marked;
      ValueIsNotNegative(marked[..|marked| - 1]);
    }
  }

  lemma {:induction false} AllWantedFit(offers: seq<Offer>, n: nat, maxCount: nat, cap: int)
    requires n <= |offers| <= maxCount && forall o :: o in offers && o.wanted ==> o.value >= 0
    requires ValueOf(Wanted(offers, n)) <= cap
    ensures StageUpTo(offers, n, maxCount, cap) == Staging(Wanted(offers, n), ValueOf(Wanted(offers, n)))
  {
    if n > 0 {
      var front := Wanted(offers, n - 1);
      assert offers[n - 1] in offers && (front + [offers[n - 1]])[..|front|] == front;
      AllWantedFit(offers, n - 1, maxCount, cap);
    }
  }

  lemma {:induction false} SomethingUncounted(marked: seq<Offer>, f: Filter, o: Offer)
    requires o in marked && Opaque(o, f) && forall p :: p in marked ==> SumOf(p.item.contents) >= 0
    ensures Uncounted(marked, f) > 0
  {
    var front := marked[..|marked| - 1];
    assert marked[|marked| - 1] in marked;
    if o in front {
      SomethingUncounted(front, f, o);
    } else {
      UncountedIsNotNegative(front, f);
    }
  }

  lemma {:induction false} UncountedIsNotNegative(marked: seq<Offer>, f: Filter)
    requires forall p :: p in marked ==> SumOf(p.item.contents) >= 0
    ensures Uncounted(marked, f) >= 0
  {
    if marked != [] {
      assert marked[|marked| - 1] in marked;
      UncountedIsNotNegative(marked[..|marked| - 1], f);
    }
  }

  // ---------------------------------------------------------------------
  // Skipping against stopping
  // ---------------------------------------------------------------------

  /** The loop gets to offer `i` with room for one more, and its value does not fit. */
  predicate Overflows(offers: seq<Offer>, i: nat, maxCount: int, cap: int)
    requires i < |offers|
  {
    var s := StageUpTo(offers, i, maxCount, cap);
    |s.marked| < maxCount && offers[i].wanted && OverCap(s.total + offers[i].value, cap)
  }

  datatype Stopping = Stopping(staging: Staging, stopped: bool)

  /** The staging the comment describes: it stops at the first wanted offer that does not fit. */
  function StopUpTo(offers: seq<Offer>, n: nat, maxCount: int, cap: int): Stopping
    requires n <= |offers|
  {
    if n == 0 then Stopping(Staging([], 0), false)
    else
      var before, o := StopUpTo(offers, n - 1, maxCount, cap), offers[n - 1];
      if before.stopped || |before.staging.marked| >= maxCount || !o.wanted then before
      else if OverCap(before.staging.total + o.value, cap) then before.(stopped := true)
      else before.(staging := Taken(before.staging, o))
  }

  /** The offer does not make it into a staging left as it was when the first one overflowed. */
  predicate StillOut(s: Staging, o: Offer, maxCount: int, cap: int) {
    |s.marked| >= maxCount || !o.wanted || OverCap(s.total + o.value, cap)
  }

  /** Offer `i` is the first to overflow. */
  ghost predicate OverflowsFirst(offers: seq<Offer>, i: nat, maxCount: int, cap: int)
    requires i < |offers|
  {
    Overflows(offers, i, maxCount, cap) && forall j :: 0 <= j < i ==> !Overflows(offers, j, maxCount, cap)
  }

  /**
   The loop skips what does not fit and goes on. That comes to stopping at the first overflow
   exactly when nothing after it would still fit.
   */
  lemma SkippingIsStoppingExactly(offers: seq<Offer>, maxCount: int, cap: int)
    ensures Stage(offers, maxCount, cap) == StopUpTo(offers, |offers|, maxCount, cap).staging <==>
      forall i, j :: 0 <= i < j < |offers| && OverflowsFirst(offers, i, maxCount, cap) ==>
        StillOut(StageUpTo(offers, i, maxCount, cap), offers[j], maxCount, cap)
  {
    if i :| 0 <= i < |offers| && Overflows(offers, i, maxCount, cap) {
      var first := FirstOverflow(offers, i, maxCount, cap);
      SkippingFromFirst(offers, first, maxCount, cap);
      assert OverflowsFirst(offers, first, maxCount, cap);
      assert forall i :: 0 <= i < |offers| && OverflowsFirst(offers, i, maxCount, cap) ==> i == first;
    } else {
      SameUntilOverflow(offers, |offers|, maxCount, cap);
    }
  }

  lemma {:induction false} FirstOverflow(offers: seq<Offer>, n: nat, maxCount: int, cap: int) returns (i: nat)
    requires n < |offers| && Overflows(offers, n, maxCount, cap)
    ensures i < |offers| && OverflowsFirst(offers, i, maxCount, cap)
    decreases n
  {
    if j :| 0 <= j < n && Overflows(offers, j, maxCount, cap) {
      i := FirstOverflow(offers, j, maxCount, cap);
    } else {
      i := n;
    }
  }

  lemma SkippingFromFirst(offers: seq<Offer>, i: nat, maxCount: int, cap: int)
    requires i < |offers| && OverflowsFirst(offers, i, maxCount, cap)
    ensures var s := StageUpTo(offers, i, maxCount, cap);
      Stage(offers, maxCount, cap) == StopUpTo(offers, |offers|, maxCount, cap).staging
      <==> forall j :: i < j < |offers| ==> StillOut(s, offers[j], maxCount, cap)
  {
    var s := StageUpTo(offers, i, maxCount, cap);
    SameUntilOverflow(offers, i, maxCount, cap);
    StaysStopped(offers, i + 1, |offers|, maxCount, cap);
    if forall j :: i < j < |offers| ==> StillOut(s, offers[j], maxCount, cap) {
      StaysOut(offers, i, |offers|, maxCount, cap);
    } else {
      var j := FirstThatFits(offers, i, maxCount, cap);
      StaysOut(offers, i, j, maxCount, cap);
      OnlyGrows(offers, j + 1, |offers|, maxCount, cap);
    }
  }

  /** With no overflow there is nothing to stop at. */
  lemma {:induction false} SameUntilOverflow(offers: seq<Offer>, n: nat, maxCount: int, cap: int)
    requires n <= |offers| && forall j :: 0 <= j < n ==> !Overflows(offers, j, maxCount, cap)
    ensures StopUpTo(offers, n, maxCount, cap) == Stopping(StageUpTo(offers, n, maxCount, cap), false)
  {
    if n > 0 {
      SameUntilOverflow(offers, n - 1, maxCount, cap);
      assert !Overflows(offers, n - 1, maxCount, cap);
    }
  }

  lemma {:induction false} StaysStopped(offers: seq<Offer>, m: nat, n: nat, maxCount: int, cap: int)
    requires m <= n <= |offers| && StopUpTo(offers, m, maxCount, cap).stopped
    ensures StopUpTo(offers, n, maxCount, cap) == StopUpTo(offers, m, maxCount, cap)
  {
    if m < n {
      StaysStopped(offers, m, n - 1, maxCount, cap);
    }
  }

  lemma {:induction false} StaysOut(offers: seq<Offer>, i: nat, n: nat, maxCount: int, cap: int)
    requires i < n <= |offers| && Overflows(offers, i, maxCount, cap)
    requires forall j :: i < j < n ==> StillOut(StageUpTo(offers, i, maxCount, cap), offers[j], maxCount, cap)
    ensures StageUpTo(offers, n, maxCount, cap) == StageUpTo(offers, i, maxCount, cap)
  {
    if i + 1 < n {
      StaysOut(offers, i, n - 1, maxCount, cap);
    }
  }

  lemma FirstThatFits(offers: seq<Offer>, i: nat, maxCount: int, cap: int) returns (j: nat)
    requires i < |offers|
    requires !forall j :: i < j < |offers| ==> StillOut(StageUpTo(offers, i, maxCount, cap), offers[j], maxCount, cap)
    ensures var s := StageUpTo(offers, i, maxCount, cap);
      && i < j < |offers| && !StillOut(s, offers[j], maxCount, cap)
      && forall k :: i < k < j ==> StillOut(s, offers[k], maxCount, cap)
  {
    var s := StageUpTo(offers, i, maxCount, cap);
    j := i + 1;
    while StillOut(s, offers[j], maxCount, cap)
      invariant i < j < |offers| && forall k :: i < k < j ==> StillOut(s, offers[k], maxCount, cap)
      decreases |offers| - j
    {
      if j + 1 == |offers| {
        assert false;
      }
      j := j + 1;
    }
  }

  lemma {:induction false} OnlyGrows(offers: seq<Offer>, m: nat, n: nat, maxCount: int, cap: int)
    requires m <= n <= |offers|
    ensures |StageUpTo(offers, m, maxCount, cap).marked| <= |StageUpTo(offers, n, maxCount, cap).marked|
  {
    if m < n {
      OnlyGrows(offers, m, n - 1, maxCount, cap);
    }
  }

  /** Without a class, a full bin goes through under a cap that its contents exceed. */
  lemma OpaqueBinPassesTheCap(bin: Item, f: Filter, cap: int)
    requires f.anyClass && f.matches(bin) && f.walkable(bin) && f.markable(bin) && !bin.Barred()
    requires 0 < bin.value <= cap < bin.value + SumOf(bin.contents)
    ensures var marked := Stage(Offers([bin], [FREE], f), 1, cap).marked;
      IsMarked(marked, bin) && Carried(marked) > cap
  {
    var flags := [FREE];
    var offers := Offers([bin], flags, f);
    OfferAt([bin], flags, f, 0);
    assert StageUpTo(offers, 0, 1, cap) == Staging([], 0);
    assert Stage(offers, 1, cap).marked == [] + [offers[0]];
    var marked := Stage(offers, 1, cap).marked;
    assert marked[0].item == bin && marked[0] in marked;
    assert marked[..0] == [] && Carried(marked[..0]) == 0;
  }

  /** The offers a second command sees: what was marked is in a job. */
  function AfterFirst(offers: seq<Offer>, marked: seq<Offer>): (after: seq<Offer>)
    ensures |after| == |offers|
    ensures forall i :: 0 <= i < |offers| ==>
      after[i] == if offers[i] in marked then offers[i].(wanted := false) else offers[i]
  {
    seq(|offers|, i requires 0 <= i < |offers| =>
      if offers[i] in marked then offers[i].(wanted := false) else offers[i])
  }

  lemma {:induction false} AfterFirstExactly(items: seq<Item>, was: seq<Flags>, now: seq<Flags>, f: Filter,
                                             maxCount: nat, cap: int)
    requires NoAliases(items) && |items| == |was| == |now|
    requires var marked := Stage(Offers(items, was, f), maxCount, cap).marked;
      forall i :: 0 <= i < |items| ==>
        && now[i].inJob == (was[i].inJob || IsMarked(marked, items[i]))
        && now[i].inBuilding == was[i].inBuilding && now[i].inInventory == was[i].inInventory
    ensures var offers := Offers(items, was, f);
      Offers(items, now, f) == AfterFirst(offers, Stage(offers, maxCount, cap).marked)
  {
    var offers := Offers(items, was, f);
    var marked := Stage(offers, maxCount, cap).marked;
    forall i | 0 <= i < |items| ensures Offers(items, now, f)[i] == AfterFirst(offers, marked)[i] {
      OfferAt(items, was, f, i);
      OfferAt(items, now, f, i);
      MarkedIsByItem(items, was, f, maxCount, cap, i);
    }
  }

  lemma MarkedIsByItem(items: seq<Item>, flags: seq<Flags>, f: Filter, maxCount: nat, cap: int, i: nat)
    requires NoAliases(items) && |items| == |flags| && i < |items|
    ensures var offers := Offers(items, flags, f);
      IsMarked(Stage(offers, maxCount, cap).marked, items[i]) <==> offers[i] in Stage(offers, maxCount, cap).marked
  {
    var offers := Offers(items, flags, f);
    var marked := Stage(offers, maxCount, cap).marked;
    OfferAt(items, flags, f, i);
    MarkedAreOffered(offers, |offers|, maxCount, cap);
    if IsMarked(marked, items[i]) {
      var o :| o in marked && o.item == items[i];
      var j :| 0 <= j < |offers| && offers[j] == o;
      OfferAt(items, flags, f, j);
    }
  }

  ghost predicate DistinctOffers(offers: seq<Offer>) {
    forall i, j :: 0 <= i < j < |offers| ==> offers[i] != offers[j]
  }

  /** One step of StageUpTo when there is no cap. */
  function Uncapped(s: Staging, o: Offer, maxCount: nat): Staging {
    if |s.marked| < maxCount && o.wanted then Taken(s, o) else s
  }

  /** `all` is `one` followed by `two`, and `two` is empty until `one` is full. */
  predicate Joined(all: seq<Offer>, one: seq<Offer>, two: seq<Offer>, first: nat) {
    all == one + two && |one| <= first && (|one| < first ==> two == [])
  }

  lemma NextJoins(all: Staging, one: Staging, two: Staging, o: Offer, again: Offer, first: nat, second: nat)
    requires Joined(all.marked, one.marked, two.marked, first)
    requires again == if o.wanted && |one.marked| < first then o.(wanted := false) else o
    ensures Joined(Uncapped(all, o, first + second).marked, Uncapped(one, o, first).marked,
                   Uncapped(two, again, second).marked, first)
  {
    assert one.marked + (two.marked + [o]) == (one.marked + two.marked) + [o];
  }

  lemma OneTurn(offers: seq<Offer>, n: nat, maxCount: nat)
    requires n < |offers|
    ensures StageUpTo(offers, n + 1, maxCount, 0) == Uncapped(StageUpTo(offers, n, maxCount, 0), offers[n], maxCount)
  {
  }

  /** The second command finds the offer as the first one left it at its turn. */
  ghost predicate SeenAgain(offers: seq<Offer>, after: seq<Offer>, first: nat, i: nat)
    requires i < |offers| == |after|
  {
    after[i] == if offers[i].wanted && |StageUpTo(offers, i, first, 0).marked| < first
                then offers[i].(wanted := false)
                else offers[i]
  }

  lemma {:induction false} TwoStagesJoin(offers: seq<Offer>, after: seq<Offer>, n: nat, first: nat, second: nat)
    requires n <= |offers| == |after|
    requires forall i :: 0 <= i < n ==> SeenAgain(offers, after, first, i)
    ensures Joined(StageUpTo(offers, n, first + second, 0).marked, StageUpTo(offers, n, first, 0).marked,
                   StageUpTo(after, n, second, 0).marked, first)
  {
    if n > 0 {
      TwoStagesJoin(offers, after, n - 1, first, second);
      assert SeenAgain(offers, after, first, n - 1);
      OneTurn(offers, n - 1, first + second);
      OneTurn(offers, n - 1, first);
      OneTurn(after, n - 1, second);
      NextJoins(StageUpTo(offers, n - 1, first + second, 0), StageUpTo(offers, n - 1, first, 0),
                StageUpTo(after, n - 1, second, 0), offers[n - 1], after[n - 1], first, second);
    }
  }

  /** Without a cap, two commands mark what one with the summed limit would, in the same order. */
  lemma TwoCommandsAreOne(offers: seq<Offer>, first: nat, second: nat)
    requires DistinctOffers(offers)
    ensures var one := Stage(offers, first, 0).marked;
      Stage(offers, first + second, 0).marked == one + Stage(AfterFirst(offers, one), second, 0).marked
  {
    var after := AfterFirst(offers, Stage(offers, first, 0).marked);
    forall i | 0 <= i < |offers| ensures SeenAgain(offers, after, first, i) {
      MarkedAtItsTurn(offers, i, first);
    }
    TwoStagesJoin(offers, after, |offers|, first, second);
  }

  /** The same of the items themselves: the second command finds those of the first in a job. */
  lemma CommandsAddUp(items: seq<Item>, was: seq<Flags>, now: seq<Flags>, f: Filter, first: nat, second: nat)
    requires NoAliases(items) && |items| == |was| == |now|
    requires var marked := Stage(Offers(items, was, f), first, 0).marked;
      forall i :: 0 <= i < |items| ==>
        && now[i].inJob == (was[i].inJob || IsMarked(marked, items[i]))
        && now[i].inBuilding == was[i].inBuilding && now[i].inInventory == was[i].inInventory
    ensures Stage(Offers(items, was, f), first + second, 0).marked ==
      Stage(Offers(items, was, f), first, 0).marked + Stage(Offers(items, now, f), second, 0).marked
  {
    var offers := Offers(items, was, f);
    AfterFirstExactly(items, was, now, f, first, 0);
    forall i, j | 0 <= i < j < |offers| ensures offers[i] != offers[j] {
      OfferAt(items, was, f, i);
      OfferAt(items, was, f, j);
    }
    TwoCommandsAreOne(offers, first, second);
  }

  /** An offer is marked in the end exactly if it is marked at its turn. */
  lemma MarkedAtItsTurn(offers: seq<Offer>, i: nat, maxCount: nat)
    requires DistinctOffers(offers) && i < |offers|
    ensures offers[i] in Stage(offers, maxCount, 0).marked
      <==> offers[i].wanted && |StageUpTo(offers, i, maxCount, 0).marked| < maxCount
  {
    MarkedAreOffered(offers, i, maxCount, 0);
    LaterTurns(offers, i, |offers|, maxCount);
  }

  lemma {:induction false} LaterTurns(offers: seq<Offer>, i: nat, n: nat, maxCount: nat)
    requires DistinctOffers(offers) && i < n <= |offers|
    ensures offers[i] in StageUpTo(offers, n, maxCount, 0).marked <==>
      offers[i] in StageUpTo(offers, i + 1, maxCount, 0).marked
  {
    if i + 1 < n {
      LaterTurns(offers, i, n - 1, maxCount);
    }
  }

  // ---------------------------------------------------------------------
  // What a release promises
  // ---------------------------------------------------------------------

  lemma {:induction false} ReleasedAreOurs(held: seq<Held>, n: nat, f: Filter, budget: nat, staged: set<Item>)
    requires n <= |held|
    ensures var out := Releases(held, n, f, budget, staged);
      && |out| <= budget
      && forall x :: x in out ==> x in staged && !x.trader && f.matches(x)
  {
    if n > 0 {
      ReleasedAreOurs(held, n - 1, f, budget, staged);
    }
  }

  lemma {:induction false} PickedAreOurs(jobs: seq<Job>, f: Filter, max: nat)
    ensures |Picked(jobs, f, max)| <= max
    ensures forall j :: j in Picked(jobs, f, max) ==> j in jobs && IsPending(j, f)
    ensures forall j :: j in Picked(jobs, f, max) && |j.items| == 1 ==> !j.items[0].trader
  {
    if jobs != [] {
      if max > 0 && IsPending(jobs[0], f) {
        PickedAreOurs(jobs[1..], f, max - 1);
      } else {
        PickedAreOurs(jobs[1..], f, max);
      }
    }
  }

  /** An unmark lets go of no more than its limit, and the goods it lets go of are never merchant stock. */
  lemma UnmarkKeepsLimits(jobs: seq<Job>, held: seq<Held>, f: Filter, max: nat, staged: set<Item>)
    ensures var picked := Picked(jobs, f, max);
      var out := Releases(held, |held|, f, max - |picked|, staged);
      && |picked| + |out| <= max
      && (forall x :: x in out ==> !x.trader)
      && (forall j :: j in picked && |j.items| == 1 ==> !j.items[0].trader)
  {
    PickedAreOurs(jobs, f, max);
    ReleasedAreOurs(held, |held|, f, max - |Picked(jobs, f, max)|, staged);
  }

  ghost predicate CarriesMerchantStock(job: Job) {
    exists x :: x in job.items && x.trader
  }

  ghost predicate SparesMerchants(jobs: seq<Job>, f: Filter, max: nat) {
    forall job :: job in Picked(jobs, f, max) ==> !CarriesMerchantStock(job)
  }

  /** No unmark lets go of merchant stock exactly when no pending job it matches carries any beside its match. */
  lemma MerchantStockIsSafeExactly(jobs: seq<Job>, held: seq<Held>, f: Filter, staged: set<Item>)
    ensures (forall max: nat :: SparesMerchants(jobs, f, max)) <==>
      forall job :: job in jobs && IsPending(job, f) ==> !CarriesMerchantStock(job)
    ensures forall max: nat, x :: x in Releases(held, |held|, f, max, staged) ==> !x.trader
  {
    forall max: nat, job | job in Picked(jobs, f, max) ensures job in jobs && IsPending(job, f) {
      PickedAreOurs(jobs, f, max);
    }
    if forall max: nat :: SparesMerchants(jobs, f, max) {
      AllPicked(jobs, f, |jobs|);
      assert SparesMerchants(jobs, f, |jobs|);
    } else {
      var max: nat :| !SparesMerchants(jobs, f, max);
      PickedAreOurs(jobs, f, max);
    }
    forall max: nat, x | x in Releases(held, |held|, f, max, staged) ensures !x.trader {
      ReleasedAreOurs(held, |held|, f, max, staged);
    }
  }

  lemma {:induction false} AllPicked(jobs: seq<Job>, f: Filter, max: nat)
    requires max >= |jobs|
    ensures forall job :: job in jobs && IsPending(job, f) ==> job in Picked(jobs, f, max)
  {
    if jobs != [] {
      assert jobs == [jobs[0]] + jobs[1..];
      AllPicked(jobs[1..], f, if IsPending(jobs[0], f) then max - 1 else max);
    }
  }

  lemma {:induction false} KeptAppend(before: seq<Job>, after: seq<Job>, f: Filter, max: nat)
    requires forall j :: j in before ==> !IsPending(j, f)
    ensures Kept(before + after, f, max) == before + Kept(after, f, max)
  {
    if before == [] {
      assert before + after == after;
    } else {
      assert (before + after)[1..] == before[1..] + after;
      KeptAppend(before[1..], after, f, max);
    }
  }

  lemma {:induction false} KeptSize(jobs: seq<Job>, f: Filter, max: nat)
    requires max >= |jobs|
    ensures Kept(jobs, f, max) == [] <==> forall j :: j in jobs ==> IsPending(j, f)
  {
    if jobs != [] {
      assert jobs == [jobs[0]] + jobs[1..];
      if IsPending(jobs[0], f) {
        KeptSize(jobs[1..], f, max - 1);
      }
    }
  }

  lemma OwnJob(item: Item, f: Filter)
    requires !item.trader
    ensures IsPending(Job(BringItem, [item]), f) <==> f.matches(item)
  {
    assert item in [item];
  }

  /**
   Unmarking with the same filter undoes a staging exactly when every marked item matches the filter
   itself: whole bins taken for their contents stay marked unless the bin matches too.
   */
  lemma UnmarkUndoesExactly(before: seq<Job>, items: seq<Item>, flags: seq<Flags>, f: Filter,
                            maxCount: nat, cap: int, max: nat)
    requires |items| == |flags| && forall j :: j in before ==> !IsPending(j, f)
    requires max >= |Stage(Offers(items, flags, f), maxCount, cap).marked|
    ensures var marked := Stage(Offers(items, flags, f), maxCount, cap).marked;
      (Kept(before + JobsFor(marked), f, max) == before) <==>
      (forall o :: o in marked && TakenWhole(o.item, f) ==> f.matches(o.item))
  {
    var marked := Stage(Offers(items, flags, f), maxCount, cap).marked;
    var jobs := JobsFor(marked);
    MarkedPass(items, flags, f, maxCount, cap);
    KeptAppend(before, jobs, f, max);
    KeptSize(jobs, f, max);
    assert before + Kept(jobs, f, max) == before <==> Kept(jobs, f, max) == [] by {
      assert |before + Kept(jobs, f, max)| == |before| + |Kept(jobs, f, max)|;
    }
    forall i | 0 <= i < |marked|
      ensures jobs[i] in jobs && marked[i] in marked && (IsPending(jobs[i], f) <==> f.matches(marked[i].item))
    {
      assert Passes(items, flags, f, marked[i]);
      OwnJob(marked[i].item, f);
    }
  }
}
