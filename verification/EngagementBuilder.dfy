/**
 The online union-find of buildEngagements, proved to compute the blocks of
 `Engagements.Labels` together with exact aggregates for each block.
 */
module EngagementBuilder {
  import opened Engagements
  import opened Sequences

  /**
   The `parent` vector. Which touched root survives a merge depends on hash
   order, so a parent index may be higher or lower than its child's; the ghost
   rank is what makes `Find` terminate.
   */
  ghost predicate Node(parent: seq<nat>, root: seq<nat>, rank: seq<nat>, x: nat) {
    && x < |parent| == |root| == |rank|
    && parent[x] < |parent| && root[x] < |parent|
    && parent[root[x]] == root[x] == root[root[x]]
    && root[parent[x]] == root[x]
    && (parent[x] == x <==> root[x] == x)
    && (parent[x] != x ==> rank[x] < rank[parent[x]])
    && rank[x] <= rank[root[x]]
  }

  ghost predicate Relinked(root: seq<nat>, root': seq<nat>, other: nat, target: nat) {
    && |root'| == |root|
    && forall x :: 0 <= x < |root| ==> root'[x] == if root[x] == other then target else root[x]
  }

  class Forest {
    var parent: seq<nat>
    ghost var root: seq<nat>
    ghost var rank: seq<nat>

    ghost predicate Valid()
      reads this
    {
      && |root| == |rank| == |parent|
      && forall x :: 0 <= x < |parent| ==> Node(parent, root, rank, x)
    }

    constructor ()
      ensures Valid() && parent == []
    {
      parent, root, rank := [], [], [];
    }

    /** ufFind: root lookup with path halving; no root changes. */
    method Find(start: nat) returns (x: nat)
      requires Valid() && start < |parent|
      modifies this`parent
      ensures Valid() && |parent| == |old(parent)|
      ensures x == root[start]
    {
      x := start;
      assert Node(parent, root, rank, x);
      while parent[x] != x
        invariant Valid() && |parent| == |old(parent)|
        invariant x < |parent| && root[x] == root[start]
        invariant Node(parent, root, rank, start) && Node(parent, root, rank, x)
        decreases rank[root[start]] - rank[x]
      {
        assert Node(parent, root, rank, parent[x]);
        ghost var before := parent;
        parent := parent[x := parent[parent[x]]];
        assert forall y :: 0 <= y < |parent| && Node(before, root, rank, y) ==> Node(parent, root, rank, y);
        x := parent[x];
      }
    }

    method Add()
      requires Valid()
      modifies this
      ensures Valid()
      ensures |parent| == |old(parent)| + 1
      ensures root == old(root) + [|old(parent)|]
    {
      root, rank := root + [|parent|], rank + [0];
      parent := parent + [|parent|];
      assert forall x :: 0 <= x < |old(parent)| && Node(old(parent), old(root), old(rank), x) ==>
        Node(parent, root, rank, x);
      assert Node(parent, root, rank, |old(parent)|);
    }

    /** parent[other] = target, for two distinct roots. */
    method Link(other: nat, target: nat)
      requires Valid() && other < |parent| && target < |parent| && other != target
      requires root[other] == other && root[target] == target
      modifies this
      ensures Valid() && |parent| == |old(parent)|
      ensures Relinked(old(root), root, other, target)
    {
      rank := rank[target := rank[target] + rank[other] + 1];
      root := seq(|root|, x requires 0 <= x < |root| reads this => if root[x] == other then target else root[x]);
      parent := parent[other := target];
      assert Node(old(parent), old(root), old(rank), other) && Node(old(parent), old(root), old(rank), target);
      assert forall x :: 0 <= x < |parent| && Node(old(parent), old(root), old(rank), x) ==>
        Node(parent, root, rank, x);
    }
  }

  // ---------------------------------------------------------------------
  // What the data of one engagement must be, given its records
  // ---------------------------------------------------------------------

  predicate IsMin(s: seq<int>, v: int) { v in s && forall i :: 0 <= i < |s| ==> v <= s[i] }

  predicate IsMax(s: seq<int>, v: int) { v in s && forall i :: 0 <= i < |s| ==> s[i] <= v }

  predicate InRange(rs: seq<Record>, idx: seq<nat>) { forall p :: 0 <= p < |idx| ==> idx[p] < |rs| }

  function Ids(rs: seq<Record>, idx: seq<nat>): seq<int>
    requires InRange(rs, idx)
  {
    seq(|idx|, p requires 0 <= p < |idx| => rs[idx[p]].id)
  }

  function Times(rs: seq<Record>, idx: seq<nat>): seq<int>
    requires InRange(rs, idx)
  {
    seq(|idx|, p requires 0 <= p < |idx| => rs[idx[p]].time)
  }

  function Mentioned(rs: seq<Record>, idx: seq<nat>): set<int>
    requires InRange(rs, idx)
  {
    set p, u | 0 <= p < |idx| && u in rs[idx[p]].unitIds :: u
  }

  predicate NoDuplicates(idx: seq<nat>) { forall p, q :: 0 <= p < q < |idx| ==> idx[p] != idx[q] }

  /** The part of the data that is exact at every moment of a merge. */
  ghost predicate Folded(rs: seq<Record>, c: Engagement, year: int) {
    && |c.recordIdx| > 0
    && InRange(rs, c.recordIdx)
    && NoDuplicates(c.recordIdx)
    && IsMin(Ids(rs, c.recordIdx), c.minId)
    && IsMax(Ids(rs, c.recordIdx), c.maxId)
    && c.unitIds == Mentioned(rs, c.recordIdx)
    && (forall p :: 0 <= p < |c.recordIdx| ==> rs[c.recordIdx[p]].year == year)
    && (year >= 0 ==> c.firstYear == year && IsMin(Times(rs, c.recordIdx), c.firstTime))
    && (year < 0 ==> c.firstYear < 0)
  }

  /** All of the data is exact; a negative year loses the first stamp to the last. */
  ghost predicate Exact(rs: seq<Record>, c: Engagement) {
    && Folded(rs, c, c.lastYear)
    && IsMax(Times(rs, c.recordIdx), c.lastTime)
    && c.lastTime == rs[LastIndex(c)].time
    && (c.lastYear < 0 ==> c.firstYear == c.lastYear && c.firstTime == c.lastTime)
  }

  function LastIndex(c: Engagement): nat
    requires |c.recordIdx| > 0
  {
    c.recordIdx[|c.recordIdx| - 1]
  }

  /** The two-cluster fold of buildEngagements: everything of `oc` is poured into `tc`. */
  function Pour(oc: Engagement, tc: Engagement): Engagement {
    var t1 := tc.(recordIdx := tc.recordIdx + oc.recordIdx, unitIds := tc.unitIds + oc.unitIds,
                  minId := if oc.minId < tc.minId then oc.minId else tc.minId,
                  maxId := if oc.maxId > tc.maxId then oc.maxId else tc.maxId);
    var t2 :=
      if oc.firstYear >= 0 && (t1.firstYear < 0 || IsEarlier(oc.firstYear, oc.firstTime, t1.firstYear, t1.firstTime))
      then t1.(firstYear := oc.firstYear, firstTime := oc.firstTime) else t1;
    if oc.lastYear > t2.lastYear || (oc.lastYear == t2.lastYear && oc.lastTime > t2.lastTime)
    then t2.(lastYear := oc.lastYear, lastTime := oc.lastTime) else t2
  }

  predicate IsEarlier(y1: int, t1: int, y2: int, t2: int) {
    if y1 != y2 then y1 < y2 else t1 < t2
  }

  /** The tail of the loop body: record `i` is added to the chosen cluster. */
  function Admit(rs: seq<Record>, i: nat, c: Engagement): Engagement
    requires i < |rs|
  {
    var rec := rs[i];
    c.(recordIdx := c.recordIdx + [i],
       firstYear := if c.firstYear < 0 then rec.year else c.firstYear,
       firstTime := if c.firstYear < 0 then rec.time else c.firstTime,
       lastYear := rec.year, lastTime := rec.time,
       minId := if rec.id < c.minId then rec.id else c.minId,
       maxId := if rec.id > c.maxId then rec.id else c.maxId,
       unitIds := c.unitIds + set u | u in rec.unitIds)
  }

  lemma PourIsFolded(rs: seq<Record>, oc: Engagement, tc: Engagement, year: int)
    requires Folded(rs, oc, year) && Folded(rs, tc, year)
    requires forall p, q :: 0 <= p < |oc.recordIdx| && 0 <= q < |tc.recordIdx| ==> oc.recordIdx[p] != tc.recordIdx[q]
    ensures Folded(rs, Pour(oc, tc), year)
    ensures Pour(oc, tc).recordIdx == tc.recordIdx + oc.recordIdx
  {
    var a, b := tc.recordIdx, oc.recordIdx;
    var c := Pour(oc, tc);
    MentionedConcat(rs, a, b);
    assert IsMin(Ids(rs, a + b), c.minId) && IsMax(Ids(rs, a + b), c.maxId) by {
      assert Ids(rs, a + b) == Ids(rs, a) + Ids(rs, b);
      ExtremesOfConcat(Ids(rs, a), Ids(rs, b), tc.minId, oc.minId, tc.maxId, oc.maxId);
    }
    PourFirstStamp(rs, oc, tc, year);
  }

  lemma PourFirstStamp(rs: seq<Record>, oc: Engagement, tc: Engagement, year: int)
    requires InRange(rs, oc.recordIdx) && InRange(rs, tc.recordIdx)
    requires year >= 0 ==> oc.firstYear == tc.firstYear == year
    requires year >= 0 ==> IsMin(Times(rs, oc.recordIdx), oc.firstTime) && IsMin(Times(rs, tc.recordIdx), tc.firstTime)
    ensures InRange(rs, tc.recordIdx + oc.recordIdx)
    ensures year >= 0 ==>
      Pour(oc, tc).firstYear == year && IsMin(Times(rs, tc.recordIdx + oc.recordIdx), Pour(oc, tc).firstTime)
  {
    if year >= 0 {
      assert Times(rs, tc.recordIdx + oc.recordIdx) == Times(rs, tc.recordIdx) + Times(rs, oc.recordIdx);
      MinOfConcat(Times(rs, tc.recordIdx), Times(rs, oc.recordIdx), tc.firstTime, oc.firstTime);
    }
  }

  lemma MinOfConcat(s: seq<int>, t: seq<int>, v: int, w: int)
    requires IsMin(s, v) && IsMin(t, w)
    ensures IsMin(s + t, if w < v then w else v)
  {
  }

  lemma ExtremesOfConcat(s: seq<int>, t: seq<int>, v: int, w: int, v': int, w': int)
    requires IsMin(s, v) && IsMin(t, w) && IsMax(s, v') && IsMax(t, w')
    ensures IsMin(s + t, if w < v then w else v)
    ensures IsMax(s + t, if w' > v' then w' else v')
  {
  }

  lemma MentionedConcat(rs: seq<Record>, a: seq<nat>, b: seq<nat>)
    requires InRange(rs, a) && InRange(rs, b)
    ensures InRange(rs, a + b) && Mentioned(rs, a + b) == Mentioned(rs, a) + Mentioned(rs, b)
  {
    forall u | u in Mentioned(rs, a) + Mentioned(rs, b) ensures u in Mentioned(rs, a + b) {
      if u in Mentioned(rs, a) {
        var p :| 0 <= p < |a| && u in rs[a[p]].unitIds;
        assert (a + b)[p] == a[p];
      } else {
        var p :| 0 <= p < |b| && u in rs[b[p]].unitIds;
        assert (a + b)[|a| + p] == b[p];
      }
    }
  }

  lemma MentionedOne(rs: seq<Record>, i: nat)
    requires i < |rs|
    ensures Mentioned(rs, [i]) == set u | u in rs[i].unitIds
  {
    var idx := [i];
    forall u | u in rs[i].unitIds ensures u in Mentioned(rs, idx) {
      assert u in rs[idx[0]].unitIds;
    }
  }

  lemma AdmitIsExact(rs: seq<Record>, i: nat, c: Engagement)
    requires i < |rs|
    requires c == EMPTY || (Folded(rs, c, rs[i].year) &&
      forall p :: 0 <= p < |c.recordIdx| ==> c.recordIdx[p] < i && rs[c.recordIdx[p]].time <= rs[i].time)
    ensures Exact(rs, Admit(rs, i, c)) && LastIndex(Admit(rs, i, c)) == i
    ensures Admit(rs, i, c).recordIdx == c.recordIdx + [i]
  {
    var a := c.recordIdx;
    MentionedConcat(rs, a, [i]);
    MentionedOne(rs, i);
    AdmitIds(rs, i, c);
    AdmitStamps(rs, i, c);
  }

  lemma AdmitIds(rs: seq<Record>, i: nat, c: Engagement)
    requires i < |rs| && InRange(rs, c.recordIdx)
    requires c == EMPTY || (IsMin(Ids(rs, c.recordIdx), c.minId) && IsMax(Ids(rs, c.recordIdx), c.maxId))
    ensures IsMin(Ids(rs, c.recordIdx + [i]), Admit(rs, i, c).minId) &&
      IsMax(Ids(rs, c.recordIdx + [i]), Admit(rs, i, c).maxId)
  {
    assert Ids(rs, c.recordIdx + [i]) == Ids(rs, c.recordIdx) + [rs[i].id];
  }

  lemma AdmitStamps(rs: seq<Record>, i: nat, c: Engagement)
    requires i < |rs| && InRange(rs, c.recordIdx)
    requires forall p :: 0 <= p < |c.recordIdx| ==> rs[c.recordIdx[p]].time <= rs[i].time
    requires c.recordIdx == [] ==> c.firstYear < 0
    requires rs[i].year < 0 ==> c.firstYear < 0
    requires c.recordIdx != [] && rs[i].year >= 0 ==>
      c.firstYear == rs[i].year && IsMin(Times(rs, c.recordIdx), c.firstTime)
    ensures IsMax(Times(rs, c.recordIdx + [i]), rs[i].time)
    ensures rs[i].year >= 0 ==> IsMin(Times(rs, c.recordIdx + [i]), Admit(rs, i, c).firstTime)
  {
    var times := Times(rs, c.recordIdx);
    assert Times(rs, c.recordIdx + [i]) == times + [rs[i].time];
    if c.recordIdx != [] && rs[i].year >= 0 {
      var p :| 0 <= p < |times| && times[p] == c.firstTime;
      MinOfConcat(times, [rs[i].time], c.firstTime, rs[i].time);
    }
  }

  // ---------------------------------------------------------------------
  // The loop
  // ---------------------------------------------------------------------

  /**
   What ties the clusters to the reference partition `labels` of the first `i`
   records: `owner[j]` is the root cluster holding record j.
   */
  ghost predicate Linked(rs: seq<Record>, labels: seq<nat>, clusters: seq<Engagement>, root: seq<nat>,
                         owner: seq<nat>) {
    && |owner| == |labels| <= |rs| && |root| == |clusters|
    && (forall j :: 0 <= j < |owner| ==> RecordLinked(labels, clusters, root, owner, j))
    && (forall k :: 0 <= k < |clusters| ==> ClusterLinked(rs, clusters, root, owner, k))
  }

  ghost predicate RecordLinked(labels: seq<nat>, clusters: seq<Engagement>, root: seq<nat>, owner: seq<nat>, j: nat)
    requires j < |owner| == |labels| && |root| == |clusters|
  {
    && owner[j] < |clusters| && root[owner[j]] == owner[j]
    && j in clusters[owner[j]].recordIdx
    && LastIndex(clusters[owner[j]]) == labels[j]
  }

  ghost predicate ClusterLinked(rs: seq<Record>, clusters: seq<Engagement>, root: seq<nat>, owner: seq<nat>, k: nat)
    requires |root| == |clusters| && k < |clusters|
  {
    if root[k] == k then Exact(rs, clusters[k]) && OwnedBy(clusters[k].recordIdx, owner, {k})
    else clusters[k].recordIdx == []
  }

  predicate OwnedBy(idx: seq<nat>, owner: seq<nat>, group: set<nat>) {
    forall p :: 0 <= p < |idx| ==> idx[p] < |owner| && owner[idx[p]] in group
  }

  /** unitLastCluster leads, through the forest, to the owner of each unit's latest record. */
  ghost predicate UnitsLinked(rs: seq<Record>, lastCluster: map<int, nat>, root: seq<nat>, owner: seq<nat>)
  {
    && |owner| <= |rs|
    && forall u :: UnitLinked(rs, lastCluster, root, owner, u)
  }

  ghost predicate UnitLinked(rs: seq<Record>, lastCluster: map<int, nat>, root: seq<nat>, owner: seq<nat>, u: int)
    requires |owner| <= |rs|
  {
    var j := Latest(rs, |owner|, u);
    if j >= 0 then u in lastCluster && lastCluster[u] < |root| && root[lastCluster[u]] == owner[j]
    else u !in lastCluster
  }

  /** Unit `u` makes record `i` join the engagement whose root is `k`. */
  ghost predicate JoinsVia(rs: seq<Record>, labels: seq<nat>, owner: seq<nat>, k: nat, u: int)
    requires |owner| == |labels| < |rs| && forall j :: 0 <= j < |labels| ==> labels[j] < |labels|
  {
    var i := |labels|;
    var j := Latest(rs, i, u);
    j >= 0 && owner[j] == k && Within(rs[labels[j]], rs[i])
  }

  /** The roots that the next record touches. */
  ghost predicate TouchedExactly(rs: seq<Record>, labels: seq<nat>, owner: seq<nat>, touched: set<nat>)
  {
    && |owner| == |labels| < |rs| && (forall j :: 0 <= j < |labels| ==> labels[j] < |labels|)
    && (forall k :: k in touched ==> exists u :: u in rs[|labels|].unitIds && JoinsVia(rs, labels, owner, k, u))
    && (forall k, u :: u in rs[|labels|].unitIds && JoinsVia(rs, labels, owner, k, u) ==> k in touched)
  }

  method TouchedRoots(rs: seq<Record>, i: nat, clusters: seq<Engagement>, forest: Forest, lastCluster: map<int, nat>,
                      ghost labels: seq<nat>, ghost owner: seq<nat>) returns (touched: set<nat>)
    requires forest.Valid() && i == |labels| < |rs|
    requires forall j :: 0 <= j < i ==> labels[j] < i
    requires Linked(rs, labels, clusters, forest.root, owner)
    requires UnitsLinked(rs, lastCluster, forest.root, owner)
    modifies forest`parent
    ensures forest.Valid() && |forest.parent| == |old(forest.parent)|
    ensures TouchedExactly(rs, labels, owner, touched)
  {
    var rec := rs[i];
    touched := {};
    var q := 0;
    while q < |rec.unitIds|
      invariant q <= |rec.unitIds|
      invariant forest.Valid() && |forest.parent| == |old(forest.parent)|
      invariant forall k :: k in touched ==> exists u :: u in rec.unitIds && JoinsVia(rs, labels, owner, k, u)
      invariant forall k, u :: u in rec.unitIds[..q] && JoinsVia(rs, labels, owner, k, u) ==> k in touched
    {
      var uid := rec.unitIds[q];
      assert UnitLinked(rs, lastCluster, forest.root, owner, uid);
      if uid in lastCluster {
        var root := forest.Find(lastCluster[uid]);
        ghost var j := Latest(rs, i, uid);
        assert RecordLinked(labels, clusters, forest.root, owner, j);
        assert ClusterLinked(rs, clusters, forest.root, owner, root);
        assert clusters[root].recordIdx != [];  // so the source's defensive skip never fires
        if clusters[root].recordIdx != [] {
          var c := clusters[root];
          if c.lastYear == rec.year && rec.time - c.lastTime >= 0 && rec.time - c.lastTime <= WINDOW {
            assert uid in rec.unitIds && JoinsVia(rs, labels, owner, root, uid);
            touched := touched + {root};
          }
        }
      }
      q := q + 1;
      assert rec.unitIds[..q] == rec.unitIds[..q - 1] + [uid];
    }
  }

  lemma SameLabelSameOwner(rs: seq<Record>, labels: seq<nat>, clusters: seq<Engagement>, root: seq<nat>,
                           owner: seq<nat>, a: nat, b: nat)
    requires Linked(rs, labels, clusters, root, owner)
    requires a < |owner| && b < |owner| && labels[a] == labels[b]
    ensures owner[a] == owner[b]
  {
    assert RecordLinked(labels, clusters, root, owner, a) && RecordLinked(labels, clusters, root, owner, b);
    assert ClusterLinked(rs, clusters, root, owner, owner[a]);
    assert ClusterLinked(rs, clusters, root, owner, owner[b]);
  }

  /** A record's owner is touched exactly when its label is. */
  lemma TouchedByLabel(rs: seq<Record>, labels: seq<nat>, clusters: seq<Engagement>, root: seq<nat>, owner: seq<nat>,
                       touched: set<nat>, j: nat)
    requires Linked(rs, labels, clusters, root, owner) && TouchedExactly(rs, labels, owner, touched)
    requires j < |labels|
    ensures owner[j] in touched <==> Touches(rs, labels, |labels|, labels[j])
  {
    var i := |labels|;
    if owner[j] in touched {
      var u :| u in rs[i].unitIds && JoinsVia(rs, labels, owner, owner[j], u);
      assert RecordLinked(labels, clusters, root, owner, j);
      assert RecordLinked(labels, clusters, root, owner, Latest(rs, i, u));
    } else if Touches(rs, labels, i, labels[j]) {
      var u :| u in rs[i].unitIds && Latest(rs, i, u) >= 0 && labels[Latest(rs, i, u)] == labels[j];
      SameLabelSameOwner(rs, labels, clusters, root, owner, Latest(rs, i, u), j);
      assert JoinsVia(rs, labels, owner, owner[j], u);
    }
  }

  /** `c` holds exactly the records owned by `group`, and record `i` may join it. */
  ghost predicate Holds(rs: seq<Record>, i: nat, c: Engagement, owner: seq<nat>, group: set<nat>)
    requires i < |rs| && |owner| == i
  {
    && Folded(rs, c, rs[i].year)
    && OwnedBy(c.recordIdx, owner, group)
    && (forall p :: 0 <= p < |c.recordIdx| ==> rs[c.recordIdx[p]].time <= rs[i].time)
    && (forall j :: 0 <= j < i && owner[j] in group ==> j in c.recordIdx)
  }

  lemma TouchedClusterHolds(rs: seq<Record>, labels: seq<nat>, clusters: seq<Engagement>, root: seq<nat>,
                            owner: seq<nat>,
                            touched: set<nat>, k: nat)
    requires Linked(rs, labels, clusters, root, owner) && TouchedExactly(rs, labels, owner, touched) && k in touched
    ensures k < |clusters| && root[k] == k && Holds(rs, |labels|, clusters[k], owner, {k})
  {
    var i := |labels|;
    var u :| u in rs[i].unitIds && JoinsVia(rs, labels, owner, k, u);
    assert RecordLinked(labels, clusters, root, owner, Latest(rs, i, u));
    assert ClusterLinked(rs, clusters, root, owner, k);
    ExactWithinHolds(rs, i, clusters[k]);
    forall j | 0 <= j < i && owner[j] == k ensures j in clusters[k].recordIdx {
      assert RecordLinked(labels, clusters, root, owner, j);
    }
  }

  lemma ExactWithinHolds(rs: seq<Record>, i: nat, c: Engagement)
    requires i < |rs| && Exact(rs, c) && Within(rs[LastIndex(c)], rs[i])
    ensures Folded(rs, c, rs[i].year)
    ensures forall p :: 0 <= p < |c.recordIdx| ==> rs[c.recordIdx[p]].time <= rs[i].time
  {
    var times := Times(rs, c.recordIdx);
    assert forall p :: 0 <= p < |c.recordIdx| ==> rs[c.recordIdx[p]].time == times[p];
  }

  lemma PourHolds(rs: seq<Record>, i: nat, oc: Engagement, tc: Engagement, owner: seq<nat>, other: nat, group: set<nat>)
    requires i < |rs| && |owner| == i && other !in group
    requires Holds(rs, i, oc, owner, {other}) && Holds(rs, i, tc, owner, group)
    ensures Holds(rs, i, Pour(oc, tc), owner, group + {other})
  {
    PourIsFolded(rs, oc, tc, rs[i].year);
  }

  /** Cluster `k` after the roots of `group` have been folded into `target`. */
  predicate Merged(clusters0: seq<Engagement>, roots0: seq<nat>, clusters: seq<Engagement>, roots: seq<nat>,
                   group: set<nat>, target: nat, k: nat)
    requires k < |clusters0| == |roots0| && |clusters0| <= |clusters| == |roots|
  {
    && (k !in group ==> clusters[k] == clusters0[k])
    && (k in group && k != target ==> clusters[k].recordIdx == [])
    && roots[k] == if roots0[k] in group then target else roots0[k]
  }

  /** Progress of the fold: the roots of `group` now live in `target`. */
  ghost predicate Folding(rs: seq<Record>, clusters0: seq<Engagement>, roots0: seq<nat>, owner: seq<nat>,
                          clusters: seq<Engagement>, roots: seq<nat>, group: set<nat>, target: nat)
  {
    && |owner| < |rs| && |clusters0| == |roots0| == |clusters| == |roots|
    && target in group && target < |clusters| && roots0[target] == target
    && Holds(rs, |owner|, clusters[target], owner, group)
    && forall k :: 0 <= k < |clusters| ==> Merged(clusters0, roots0, clusters, roots, group, target, k)
  }

  lemma FoldingStarts(rs: seq<Record>, labels: seq<nat>, clusters: seq<Engagement>, roots: seq<nat>, owner: seq<nat>,
                      touched: set<nat>, target: nat)
    requires Linked(rs, labels, clusters, roots, owner) && TouchedExactly(rs, labels, owner, touched) &&
      target in touched
    ensures Folding(rs, clusters, roots, owner, clusters, roots, {target}, target)
  {
    TouchedClusterHolds(rs, labels, clusters, roots, owner, touched, target);
  }

  /** clusters after `other` is poured into `target` and emptied. */
  function PourAt(clusters: seq<Engagement>, other: nat, target: nat): seq<Engagement>
    requires other < |clusters| && target < |clusters|
  {
    clusters[target := Pour(clusters[other], clusters[target])]
            [other := clusters[other].(recordIdx := [], unitIds := {})]
  }

  lemma FoldingStep(rs: seq<Record>, labels: seq<nat>, clusters0: seq<Engagement>, roots0: seq<nat>, owner: seq<nat>,
                    touched: set<nat>, clusters: seq<Engagement>, roots: seq<nat>, group: set<nat>, target: nat,
                    other: nat)
    requires Linked(rs, labels, clusters0, roots0, owner) && TouchedExactly(rs, labels, owner, touched)
    requires Folding(rs, clusters0, roots0, owner, clusters, roots, group, target)
    requires other in touched && other !in group
    ensures other < |clusters| && other != target && roots[other] == other && roots[target] == target
    ensures forall roots' :: Relinked(roots, roots', other, target) ==>
      Folding(rs, clusters0, roots0, owner, PourAt(clusters, other, target), roots', group + {other}, target)
  {
    TouchedClusterHolds(rs, labels, clusters0, roots0, owner, touched, other);
    assert Merged(clusters0, roots0, clusters, roots, group, target, other);
    assert Merged(clusters0, roots0, clusters, roots, group, target, target);
    PourHolds(rs, |owner|, clusters[other], clusters[target], owner, other, group);
    forall roots' | Relinked(roots, roots', other, target)
      ensures Folding(rs, clusters0, roots0, owner, PourAt(clusters, other, target), roots', group + {other}, target)
    {
      MergedStep(clusters0, roots0, clusters, roots, PourAt(clusters, other, target), roots', group, target, other);
    }
  }

  lemma MergedStep(clusters0: seq<Engagement>, roots0: seq<nat>, clusters1: seq<Engagement>, roots1: seq<nat>,
                   clusters: seq<Engagement>, roots: seq<nat>, group: set<nat>, target: nat, other: nat)
    requires |clusters0| == |roots0| == |clusters1| == |roots1| == |clusters| == |roots|
    requires target < |clusters| && other < |clusters| && target in group && other !in group
    requires forall k :: 0 <= k < |clusters0| ==> Merged(clusters0, roots0, clusters1, roots1, group, target, k)
    requires forall k :: 0 <= k < |clusters| && k != target && k != other ==> clusters[k] == clusters1[k]
    requires clusters[other].recordIdx == []
    requires Relinked(roots1, roots, other, target)
    ensures forall k :: 0 <= k < |clusters| ==> Merged(clusters0, roots0, clusters, roots, group + {other}, target, k)
  {
    forall k | 0 <= k < |clusters| ensures Merged(clusters0, roots0, clusters, roots, group + {other}, target, k) {
      assert Merged(clusters0, roots0, clusters1, roots1, group, target, k);
    }
  }

  lemma DropOne(all: set<nat>, rest: set<nat>, x: nat)
    requires x in rest && rest <= all
    ensures all - (rest - {x}) == all - rest + {x}
  {
  }

  /** Folds every touched root into an arbitrarily chosen one. */
  method MergeTouched(rs: seq<Record>, clusters0: seq<Engagement>, forest: Forest, touched: set<nat>,
                      ghost labels: seq<nat>, ghost owner: seq<nat>) returns (clusters: seq<Engagement>, target: nat)
    requires forest.Valid() && Linked(rs, labels, clusters0, forest.root, owner)
    requires TouchedExactly(rs, labels, owner, touched) && touched != {}
    modifies forest
    ensures forest.Valid()
    ensures Folding(rs, clusters0, old(forest.root), owner, clusters, forest.root, touched, target)
  {
    clusters := clusters0;
    target :| target in touched;
    var rest := touched - {target};
    ghost var roots0 := forest.root;
    FoldingStarts(rs, labels, clusters0, roots0, owner, touched, target);
    assert touched - rest == {target};
    while rest != {}
      invariant rest <= touched
      invariant forest.Valid()
      invariant Folding(rs, clusters0, roots0, owner, clusters, forest.root, touched - rest, target)
      decreases rest
    {
      var other :| other in rest;
      FoldingStep(rs, labels, clusters0, roots0, owner, touched, clusters, forest.root, touched - rest, target, other);
      clusters := PourAt(clusters, other, target);
      forest.Link(other, target);
      DropOne(touched, rest, other);
      rest := rest - {other};
    }
    assert touched - rest == touched;
  }

  /** Which root owns each record once record `i` has been admitted to `target`. */
  ghost function NewOwner(i: nat, owner: seq<nat>, touched: set<nat>, target: nat): seq<nat>
    requires |owner| == i
  {
    seq(i + 1, j requires 0 <= j <= i => if j == i || owner[j] in touched then target else owner[j])
  }

  /** The state just before the record is admitted: a fresh cluster, or the fold of the touched ones. */
  ghost predicate Prepared(rs: seq<Record>, i: nat, before: seq<Engagement>, roots: seq<nat>, owner: seq<nat>,
                           touched: set<nat>, merged: seq<Engagement>, roots': seq<nat>, target: nat)
  {
    && i < |rs| && |owner| == i && |before| == |roots| && target < |merged| == |roots'| && roots'[target] == target
    && (if touched == {}
      then target == |before| && merged == before + [EMPTY] && roots' == roots + [target]
      else |merged| == |before| && target in touched && Holds(rs, i, merged[target], owner, touched))
    && forall k :: 0 <= k < |before| ==> Merged(before, roots, merged, roots', touched, target, k)
  }

  /** Labels after record `i` joined the touched roots. */
  predicate Relabelled(labels: seq<nat>, labels': seq<nat>, owner: seq<nat>, touched: set<nat>) {
    && |owner| == |labels| && |labels'| == |labels| + 1 && labels'[|labels|] == |labels|
    && forall j :: 0 <= j < |labels| ==> labels'[j] == if owner[j] in touched then |labels| else labels[j]
  }

  lemma AdmitKeepsRecord(rs: seq<Record>, labels: seq<nat>, labels': seq<nat>, before: seq<Engagement>, roots: seq<nat>,
                         owner: seq<nat>, touched: set<nat>, merged: seq<Engagement>, roots': seq<nat>, target: nat,
                         j: nat)
    requires Linked(rs, labels, before, roots, owner) && Relabelled(labels, labels', owner, touched)
    requires Prepared(rs, |labels|, before, roots, owner, touched, merged, roots', target) && j <= |labels|
    ensures RecordLinked(labels', merged[target := Admit(rs, |labels|, merged[target])], roots',
                         NewOwner(|labels|, owner, touched, target), j)
  {
    if j < |labels| {
      assert RecordLinked(labels, before, roots, owner, j);
      assert Merged(before, roots, merged, roots', touched, target, owner[j]);
    }
  }

  lemma AdmitKeepsTarget(rs: seq<Record>, i: nat, before: seq<Engagement>, roots: seq<nat>,
                         owner: seq<nat>, touched: set<nat>, merged: seq<Engagement>, roots': seq<nat>, target: nat)
    requires Prepared(rs, i, before, roots, owner, touched, merged, roots', target)
    ensures Exact(rs, Admit(rs, i, merged[target]))
    ensures OwnedBy(Admit(rs, i, merged[target]).recordIdx, NewOwner(i, owner, touched, target), {target})
  {
    AdmitIsExact(rs, i, merged[target]);
  }

  lemma AdmitKeepsOther(rs: seq<Record>, labels: seq<nat>, before: seq<Engagement>, roots: seq<nat>,
                        owner: seq<nat>, touched: set<nat>, merged: seq<Engagement>, roots': seq<nat>, target: nat,
                        k: nat)
    requires Linked(rs, labels, before, roots, owner)
    requires Prepared(rs, |labels|, before, roots, owner, touched, merged, roots', target)
    requires k < |before| && k != target
    ensures ClusterLinked(rs, merged[target := Admit(rs, |labels|, merged[target])], roots',
                          NewOwner(|labels|, owner, touched, target), k)
  {
    assert ClusterLinked(rs, before, roots, owner, k);
    assert Merged(before, roots, merged, roots', touched, target, k);
  }

  lemma AdmitKeepsLinked(rs: seq<Record>, labels: seq<nat>, labels': seq<nat>, before: seq<Engagement>, roots: seq<nat>,
                         owner: seq<nat>, touched: set<nat>, merged: seq<Engagement>, roots': seq<nat>, target: nat)
    requires Linked(rs, labels, before, roots, owner) && Relabelled(labels, labels', owner, touched)
    requires Prepared(rs, |labels|, before, roots, owner, touched, merged, roots', target)
    ensures Linked(rs, labels', merged[target := Admit(rs, |labels|, merged[target])], roots',
                   NewOwner(|labels|, owner, touched, target))
  {
    var clusters := merged[target := Admit(rs, |labels|, merged[target])];
    var owner' := NewOwner(|labels|, owner, touched, target);
    forall j | 0 <= j < |owner'| ensures RecordLinked(labels', clusters, roots', owner', j) {
      AdmitKeepsRecord(rs, labels, labels', before, roots, owner, touched, merged, roots', target, j);
    }
    AdmitKeepsTarget(rs, |labels|, before, roots, owner, touched, merged, roots', target);
    forall k | 0 <= k < |clusters| ensures ClusterLinked(rs, clusters, roots', owner', k) {
      if k != target {
        AdmitKeepsOther(rs, labels, before, roots, owner, touched, merged, roots', target, k);
      }
    }
  }

  lemma AdmittedLabels(rs: seq<Record>, labels: seq<nat>, clusters: seq<Engagement>, root: seq<nat>, owner: seq<nat>,
                       touched: set<nat>)
    requires Linked(rs, labels, clusters, root, owner) && TouchedExactly(rs, labels, owner, touched)
    ensures Relabelled(labels, NextLabels(rs, labels), owner, touched)
  {
    forall j | 0 <= j < |labels|
      ensures NextLabels(rs, labels)[j] == if owner[j] in touched then |labels| else labels[j]
    {
      TouchedByLabel(rs, labels, clusters, root, owner, touched, j);
    }
  }

  /** The last loop of the body: every unit of the record now leads to `target`. */
  method AssignUnits(lastCluster0: map<int, nat>, units: seq<int>, target: nat) returns (lastCluster: map<int, nat>)
    ensures lastCluster == Assigned(lastCluster0, units, target)
  {
    lastCluster := lastCluster0;
    for q := 0 to |units|
      invariant lastCluster == Assigned(lastCluster0, units[..q], target)
    {
      AssignedLast(lastCluster0, units[..q], units[q], target);
      assert units[..q + 1] == units[..q] + [units[q]];
      lastCluster := lastCluster[units[q] := target];
    }
    assert units[..|units|] == units;
  }

  lemma AssignedLast(lastCluster: map<int, nat>, units: seq<int>, u: int, target: nat)
    ensures Assigned(lastCluster, units + [u], target) == Assigned(lastCluster, units, target)[u := target]
  {
  }

  function Assigned(lastCluster: map<int, nat>, units: seq<int>, target: nat): map<int, nat> {
    lastCluster + map u | u in units :: target
  }

  lemma AssignKeepsUnitsLinked(rs: seq<Record>, lastCluster: map<int, nat>, roots: seq<nat>, owner: seq<nat>,
                               touched: set<nat>, roots': seq<nat>, target: nat)
    requires |owner| < |rs| && UnitsLinked(rs, lastCluster, roots, owner)
    requires target < |roots'| && |roots| <= |roots'| && roots'[target] == target
    requires forall k :: 0 <= k < |roots| ==> roots'[k] == if roots[k] in touched then target else roots[k]
    ensures UnitsLinked(rs, Assigned(lastCluster, rs[|owner|].unitIds, target), roots',
                        NewOwner(|owner|, owner, touched, target))
  {
    var lastCluster' := Assigned(lastCluster, rs[|owner|].unitIds, target);
    var owner' := NewOwner(|owner|, owner, touched, target);
    forall u ensures UnitLinked(rs, lastCluster', roots', owner', u) {
      assert UnitLinked(rs, lastCluster, roots, owner, u);
    }
  }

  /** `c` is the engagement made of exactly the records labelled like its last one. */
  ghost predicate IsBlock(rs: seq<Record>, labels: seq<nat>, c: Engagement)
    requires |labels| == |rs|
  {
    Exact(rs, c) && forall j :: 0 <= j < |rs| ==> (j in c.recordIdx <==> labels[j] == LastIndex(c))
  }

  lemma RootIsBlock(rs: seq<Record>, labels: seq<nat>, clusters: seq<Engagement>, root: seq<nat>, owner: seq<nat>,
                    k: nat)
    requires |labels| == |rs| && Linked(rs, labels, clusters, root, owner) && k < |clusters| &&
      clusters[k].recordIdx != []
    ensures IsBlock(rs, labels, clusters[k]) && OwnedBy(clusters[k].recordIdx, owner, {k})
  {
    assert ClusterLinked(rs, clusters, root, owner, k);
    var m := LastIndex(clusters[k]);
    assert RecordLinked(labels, clusters, root, owner, m);
    forall j | 0 <= j < |rs| ensures j in clusters[k].recordIdx <==> labels[j] == m {
      assert RecordLinked(labels, clusters, root, owner, j);
      if labels[j] == m {
        SameLabelSameOwner(rs, labels, clusters, root, owner, j, m);
      }
    }
  }

  predicate SharesNoRecord(c: Engagement, d: Engagement) {
    forall p, q :: 0 <= p < |c.recordIdx| && 0 <= q < |d.recordIdx| ==> c.recordIdx[p] != d.recordIdx[q]
  }

  predicate Listed(live: seq<Engagement>, j: nat) {
    exists k :: 0 <= k < |live| && j in live[k].recordIdx
  }

  /** One turn of the loop: the next record is admitted to the engagements it touches. */
  method AdmitRecord(rs: seq<Record>, i: nat, before: seq<Engagement>, forest: Forest, lastCluster0: map<int, nat>,
                     ghost labels: seq<nat>, ghost owner: seq<nat>)
    returns (clusters: seq<Engagement>, lastCluster: map<int, nat>, ghost owner': seq<nat>)
    requires i == |labels| < |rs| && forall j :: 0 <= j < i ==> labels[j] < i
    requires forest.Valid() && Linked(rs, labels, before, forest.root, owner)
    requires UnitsLinked(rs, lastCluster0, forest.root, owner)
    modifies forest
    ensures forest.Valid() && Linked(rs, NextLabels(rs, labels), clusters, forest.root, owner')
    ensures UnitsLinked(rs, lastCluster, forest.root, owner')
  {
    ghost var roots := forest.root;
    var touched := TouchedRoots(rs, i, before, forest, lastCluster0, labels, owner);
    AdmittedLabels(rs, labels, before, roots, owner, touched);
    var target: nat;
    if touched == {} {
      target := |before|;
      clusters := before + [EMPTY];
      forest.Add();
      FreshIsPrepared(rs, before, roots, owner, clusters, forest.root);
    } else {
      clusters, target := MergeTouched(rs, before, forest, touched, labels, owner);
      FoldIsPrepared(rs, before, roots, owner, touched, clusters, forest.root, target);
    }
    AdmitKeepsLinked(rs, labels, NextLabels(rs, labels), before, roots, owner, touched, clusters, forest.root, target);
    PreparedRoots(rs, before, roots, owner, touched, clusters, forest.root, target);
    AssignKeepsUnitsLinked(rs, lastCluster0, roots, owner, touched, forest.root, target);
    clusters := clusters[target := Admit(rs, i, clusters[target])];
    lastCluster := AssignUnits(lastCluster0, rs[i].unitIds, target);
    owner' := NewOwner(i, owner, touched, target);
  }

  /**
   buildEngagements: for every record sequence, in whatever order touched roots
   are met, exactly the blocks of `Labels`, each once, with exact data.
   */
  method BuildEngagements(rs: seq<Record>) returns (live: seq<Engagement>)
    ensures forall k :: 0 <= k < |live| ==> IsBlock(rs, Labels(rs, |rs|), live[k])
    ensures forall k, k' :: 0 <= k < k' < |live| ==> SharesNoRecord(live[k], live[k'])
    ensures forall j :: 0 <= j < |rs| ==> Listed(live, j)
  {
    var clusters: seq<Engagement> := [];
    var forest := new Forest();
    var lastCluster: map<int, nat> := map[];
    ghost var owner: seq<nat> := [];
    ghost var labels: seq<nat> := [];
    for i := 0 to |rs|
      invariant fresh(forest) && forest.Valid()
      invariant labels == Labels(rs, i)
      invariant Linked(rs, labels, clusters, forest.root, owner)
      invariant UnitsLinked(rs, lastCluster, forest.root, owner)
    {
      clusters, lastCluster, owner := AdmitRecord(rs, i, clusters, forest, lastCluster, labels, owner);
      labels := NextLabels(rs, labels);
    }
    live := CollectLive(rs, clusters, labels, forest.root, owner);
  }

  lemma FreshIsPrepared(rs: seq<Record>, before: seq<Engagement>, roots: seq<nat>, owner: seq<nat>,
                        clusters: seq<Engagement>, roots': seq<nat>)
    requires |owner| < |rs| && |before| == |roots|
    requires clusters == before + [EMPTY] && roots' == roots + [|roots|]
    ensures Prepared(rs, |owner|, before, roots, owner, {}, clusters, roots', |before|)
  {
  }

  lemma FoldIsPrepared(rs: seq<Record>, before: seq<Engagement>, roots: seq<nat>, owner: seq<nat>, touched: set<nat>,
                       clusters: seq<Engagement>, roots': seq<nat>, target: nat)
    requires Folding(rs, before, roots, owner, clusters, roots', touched, target)
    ensures Prepared(rs, |owner|, before, roots, owner, touched, clusters, roots', target)
  {
    assert Merged(before, roots, clusters, roots', touched, target, target);
  }

  lemma PreparedRoots(rs: seq<Record>, before: seq<Engagement>, roots: seq<nat>, owner: seq<nat>, touched: set<nat>,
                      clusters: seq<Engagement>, roots': seq<nat>, target: nat)
    requires Prepared(rs, |owner|, before, roots, owner, touched, clusters, roots', target)
    ensures target < |roots'| && |roots| <= |roots'| && roots'[target] == target
    ensures forall k :: 0 <= k < |roots| ==> roots'[k] == if roots[k] in touched then target else roots[k]
  {
    forall k | 0 <= k < |roots| ensures roots'[k] == if roots[k] in touched then target else roots[k] {
      assert Merged(before, roots, clusters, roots', touched, target, k);
    }
  }

  /** The final pass: the emptied clusters are dropped. */
  method CollectLive(rs: seq<Record>, clusters: seq<Engagement>, ghost labels: seq<nat>, ghost root: seq<nat>,
                     ghost owner: seq<nat>) returns (live: seq<Engagement>)
    requires |labels| == |rs| && Linked(rs, labels, clusters, root, owner)
    ensures forall k :: 0 <= k < |live| ==> IsBlock(rs, labels, live[k])
    ensures forall k, k' :: 0 <= k < k' < |live| ==> SharesNoRecord(live[k], live[k'])
    ensures forall j :: 0 <= j < |rs| ==> Listed(live, j)
  {
    live := [];
    ghost var source: seq<nat> := [];
    for c := 0 to |clusters|
      invariant Collected(rs, labels, clusters, owner, live, source, c)
    {
      if clusters[c].recordIdx != [] {
        RootIsBlock(rs, labels, clusters, root, owner, c);
        CollectedLast(rs, labels, clusters, owner, live, source, c);
        live, source := live + [clusters[c]], source + [c];
      }
    }
    forall j | 0 <= j < |rs| ensures Listed(live, j) {
      assert RecordLinked(labels, clusters, root, owner, j);
      assert clusters[owner[j]] in live;
    }
    CollectedShareNothing(rs, labels, clusters, owner, live, source, |clusters|);
  }

  /** The clusters taken so far: blocks, in the order of their places, and every non-empty one before `bound`. */
  ghost predicate Collected(rs: seq<Record>, labels: seq<nat>, clusters: seq<Engagement>, owner: seq<nat>,
                            live: seq<Engagement>, source: seq<nat>, bound: nat)
    requires |labels| == |rs|
  {
    && |source| == |live| && bound <= |clusters|
    && (forall k :: 0 <= k < |live| ==> Picked(rs, labels, clusters, owner, live[k], source[k], bound))
    && (forall k, k' :: 0 <= k < k' < |live| ==> source[k] < source[k'])
    && (forall q :: 0 <= q < bound && clusters[q].recordIdx != [] ==> clusters[q] in live)
  }

  lemma CollectedLast(rs: seq<Record>, labels: seq<nat>, clusters: seq<Engagement>, owner: seq<nat>,
                      live: seq<Engagement>, source: seq<nat>, c: nat)
    requires |labels| == |rs| && c < |clusters| && Collected(rs, labels, clusters, owner, live, source, c)
    requires IsBlock(rs, labels, clusters[c]) && OwnedBy(clusters[c].recordIdx, owner, {c})
    ensures Collected(rs, labels, clusters, owner, live + [clusters[c]], source + [c], c + 1)
  {
    var live', source' := live + [clusters[c]], source + [c];
    forall k | 0 <= k < |live'| ensures Picked(rs, labels, clusters, owner, live'[k], source'[k], c + 1) {
      if k < |live| {
        assert Picked(rs, labels, clusters, owner, live[k], source[k], c);
      }
    }
  }

  lemma CollectedShareNothing(rs: seq<Record>, labels: seq<nat>, clusters: seq<Engagement>, owner: seq<nat>,
                              live: seq<Engagement>, source: seq<nat>, bound: nat)
    requires |labels| == |rs| && Collected(rs, labels, clusters, owner, live, source, bound)
    ensures forall k, k' :: 0 <= k < k' < |live| ==> SharesNoRecord(live[k], live[k'])
  {
    forall k, k' | 0 <= k < k' < |live| ensures SharesNoRecord(live[k], live[k']) {
      assert Picked(rs, labels, clusters, owner, live[k], source[k], bound);
      assert Picked(rs, labels, clusters, owner, live[k'], source[k'], bound);
    }
  }

  ghost predicate Picked(rs: seq<Record>, labels: seq<nat>, clusters: seq<Engagement>, owner: seq<nat>,
                         c: Engagement, source: nat, bound: nat)
    requires |labels| == |rs|
  {
    && source < bound && source < |clusters| && c == clusters[source]
    && IsBlock(rs, labels, c) && OwnedBy(c.recordIdx, owner, {source})
  }

  // ---------------------------------------------------------------------
  // What a caller may conclude about each engagement returned
  // ---------------------------------------------------------------------

  lemma BlockStamps(rs: seq<Record>, labels: seq<nat>, c: Engagement, t: int)
    requires |labels| == |rs| && InRange(rs, c.recordIdx) && c.recordIdx != []
    requires forall j :: 0 <= j < |rs| ==> (j in c.recordIdx <==> labels[j] == LastIndex(c))
    ensures t in Times(rs, c.recordIdx) <==> StampOf(rs, labels, LastIndex(c), t)
  {
    var all := Times(rs, c.recordIdx);
    if t in all {
      var q :| 0 <= q < |all| && all[q] == t;
      assert c.recordIdx[q] in c.recordIdx;
    }
    if StampOf(rs, labels, LastIndex(c), t) {
      var j :| 0 <= j < |rs| && labels[j] == LastIndex(c) && rs[j].time == t;
      var q :| 0 <= q < |c.recordIdx| && c.recordIdx[q] == j;
      assert all[q] == t;
    }
  }

  /** Sorted by time, consecutive records of an engagement are at most the window apart. */
  lemma BlockGapsBounded(rs: seq<Record>, c: Engagement, times: seq<int>, p: nat)
    requires IsBlock(rs, Labels(rs, |rs|), c)
    requires Ascending(times) && SameElements(times, Times(rs, c.recordIdx))
    requires p + 1 < |times|
    ensures times[p + 1] - times[p] <= WINDOW
  {
    forall t, t' | t in Times(rs, c.recordIdx) && t' in Times(rs, c.recordIdx) && t < t'
      ensures FollowedIn(Times(rs, c.recordIdx), t)
    {
      var s := LaterBlockStamp(rs, c, t, t');
    }
    SortedGaps(times, Times(rs, c.recordIdx), p);
  }

  predicate SameElements(s: seq<int>, t: seq<int>) {
    multiset(s) == multiset(t)
  }

  predicate FollowedIn(all: seq<int>, t: int) {
    exists s :: s in all && t < s <= t + WINDOW
  }

  lemma SortedGaps(times: seq<int>, all: seq<int>, p: nat)
    requires Ascending(times) && SameElements(times, all) && p + 1 < |times|
    requires forall t, t' :: t in all && t' in all && t < t' ==> FollowedIn(all, t)
    ensures times[p + 1] - times[p] <= WINDOW
  {
    assert times[p] in multiset(all) && times[p + 1] in multiset(all);
    assert times[p] in all && times[p + 1] in all;
    if times[p] < times[p + 1] {
      assert FollowedIn(all, times[p]);
      var s :| s in all && times[p] < s <= times[p] + WINDOW;
      assert s in multiset(times);
      var r :| 0 <= r < |times| && times[r] == s;
      assert r > p;
    }
  }

  lemma LaterBlockStamp(rs: seq<Record>, c: Engagement, t: int, t': int) returns (s: int)
    requires IsBlock(rs, Labels(rs, |rs|), c)
    requires t in Times(rs, c.recordIdx) && t' in Times(rs, c.recordIdx) && t < t'
    ensures s in Times(rs, c.recordIdx) && t < s <= t + WINDOW
  {
    BlockStamps(rs, Labels(rs, |rs|), c, t);
    BlockStamps(rs, Labels(rs, |rs|), c, t');
    s := LaterStamp(rs, LastIndex(c), t, t');
    BlockStamps(rs, Labels(rs, |rs|), c, s);
  }

  predicate FirstStampIsEarliest(rs: seq<Record>, c: Engagement)
    requires InRange(rs, c.recordIdx)
  {
    c.firstYear == c.lastYear && IsMin(Times(rs, c.recordIdx), c.firstTime)
  }

  /** The first stamp is the earliest one exactly when the year is not negative or all stamps agree. */
  lemma FirstStampExactly(rs: seq<Record>, c: Engagement)
    requires Exact(rs, c)
    ensures FirstStampIsEarliest(rs, c) <==>
      rs[LastIndex(c)].year >= 0 ||
      forall p :: 0 <= p < |c.recordIdx| ==> rs[c.recordIdx[p]].time == rs[LastIndex(c)].time
  {
    var times := Times(rs, c.recordIdx);
    assert forall p :: 0 <= p < |c.recordIdx| ==> rs[c.recordIdx[p]].time == times[p];
    assert times[|times| - 1] == rs[LastIndex(c)].time;
  }

  /** A fight of year -1 whose first stamp is reported as its last. */
  lemma NegativeYearLosesFirstStamp(c: Engagement)
    requires IsBlock(NEGATIVE_YEAR, Labels(NEGATIVE_YEAR, 2), c) && 1 in c.recordIdx
    ensures 0 in c.recordIdx && !FirstStampIsEarliest(NEGATIVE_YEAR, c)
  {
    var rs := NEGATIVE_YEAR;
    assert Labels(rs, 0) == [];
    assert Labels(rs, 1) == [0];
    assert Latest(rs, 1, 7) == 0;
    assert 7 in rs[1].unitIds && 7 in rs[0].unitIds;
    assert Touches(rs, Labels(rs, 1), 1, 0);
    assert Labels(rs, 2) == [1, 1];
    assert Labels(rs, |rs|)[1] == LastIndex(c) == 1;
    assert 0 in c.recordIdx;
    var p :| 0 <= p < |c.recordIdx| && c.recordIdx[p] == 0;
    FirstStampExactly(rs, c);
  }

  const NEGATIVE_YEAR := [Record(0, -1, 0, [7]), Record(1, -1, 300, [7])]
}
