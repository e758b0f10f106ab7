/**
 The combat narrator's clustering of combat reports into engagements.

 `Labels` is the reference definition: a partition of the record indices in
 which every record carries the index of the latest record of its engagement.
 `BuildEngagements` is the plugin's online union-find; it is proved to return
 exactly the blocks of `Labels`, with exact aggregate data, for every order in
 which the touched roots may be visited.
 */
module Engagements {
  import opened Bytes

  const WINDOW := 500  // kEngagementWindowTicks
  const INT32_MAX := 0x7fff_ffff
  const INT32_MIN := -0x8000_0000

  datatype Record = Record(id: Int32, year: Int32, time: Int32, unitIds: seq<int>)

  datatype Engagement = Engagement(
    minId: Int32, maxId: Int32,
    firstYear: int, firstTime: int,
    lastYear: int, lastTime: int,
    unitIds: set<int>,
    recordIdx: seq<nat>)

  const EMPTY := Engagement(INT32_MAX, INT32_MIN, -1, -1, 0, 0, {}, [])

  // ---------------------------------------------------------------------
  // Reference definition
  // ---------------------------------------------------------------------

  /** `rec` follows `anchor` in the same game year by at most the window. */
  predicate Within(anchor: Record, rec: Record) {
    anchor.year == rec.year && 0 <= rec.time - anchor.time <= WINDOW
  }

  /** The last record before `n` that mentions unit `u`, or -1. */
  function Latest(rs: seq<Record>, n: nat, u: int): (j: int)
    requires n <= |rs|
    ensures -1 <= j < n
    ensures j >= 0 ==> u in rs[j].unitIds
    ensures forall k :: j < k < n ==> u !in rs[k].unitIds
  {
    if n == 0 then -1
    else if u in rs[n - 1].unitIds then n - 1
    else Latest(rs, n - 1, u)
  }

  /** Record `n` joins the engagement whose latest record is `m`. */
  ghost predicate Touches(rs: seq<Record>, labels: seq<nat>, n: nat, m: nat)
    requires |labels| == n < |rs| && m < n
  {
    Within(rs[m], rs[n]) &&
    exists u :: u in rs[n].unitIds && Latest(rs, n, u) >= 0 && labels[Latest(rs, n, u)] == m
  }

  /** Each of the first `n` records, labelled with the latest record of its engagement. */
  ghost function Labels(rs: seq<Record>, n: nat): (labels: seq<nat>)
    requires n <= |rs|
    ensures |labels| == n
    ensures forall j :: 0 <= j < n ==> j <= labels[j] < n
  {
    if n == 0 then [] else NextLabels(rs, Labels(rs, n - 1))
  }

  /** The next record takes over every engagement it touches, or starts its own. */
  ghost function NextLabels(rs: seq<Record>, before: seq<nat>): (labels: seq<nat>)
    requires |before| < |rs|
    requires forall j :: 0 <= j < |before| ==> before[j] < |before|
    ensures |labels| == |before| + 1
  {
    var i := |before|;
    seq(i + 1, j requires 0 <= j <= i => if j == i || Touches(rs, before, i, before[j]) then i else before[j])
  }

  ghost predicate Together(rs: seq<Record>, a: nat, b: nat)
    requires a < |rs| && b < |rs|
  {
    Labels(rs, |rs|)[a] == Labels(rs, |rs|)[b]
  }

  /** The label of an engagement is one of its own records. */
  lemma {:induction false} LabelsIdempotent(rs: seq<Record>, n: nat, j: nat)
    requires j < n <= |rs|
    ensures Labels(rs, n)[Labels(rs, n)[j]] == Labels(rs, n)[j]
  {
    if j < n - 1 {
      LabelsIdempotent(rs, n - 1, j);
    }
  }

  /** An engagement never leaves one game year, and its label carries its latest stamp. */
  lemma {:induction false} OneYearLatestStamp(rs: seq<Record>, n: nat, j: nat)
    requires j < n <= |rs|
    ensures rs[j].year == rs[Labels(rs, n)[j]].year && rs[j].time <= rs[Labels(rs, n)[j]].time
  {
    if j < n - 1 {
      OneYearLatestStamp(rs, n - 1, j);
    }
  }

  /** `k` shares `j`'s engagement and is stamped later, by at most the window. */
  ghost predicate NextStamp(rs: seq<Record>, n: nat, j: nat, k: nat)
    requires n <= |rs| && j < n
  {
    k < n && Labels(rs, n)[k] == Labels(rs, n)[j] && rs[j].time < rs[k].time <= rs[j].time + WINDOW
  }

  /** No gap inside an engagement exceeds the window, whatever merges built it. */
  lemma {:induction false} NoWideGap(rs: seq<Record>, n: nat, j: nat) returns (k: nat)
    requires j < n <= |rs|
    requires rs[j].time < rs[Labels(rs, n)[j]].time
    ensures NextStamp(rs, n, j, k)
  {
    var before := Labels(rs, n - 1);
    assert j < n - 1;
    OneYearLatestStamp(rs, n - 1, j);
    if rs[j].time < rs[before[j]].time {
      k := NoWideGap(rs, n - 1, j);
      assert before[k] == before[j];
    } else {
      k := n - 1;
    }
  }

  /** Some record of the engagement labelled `m` carries the stamp `t`. */
  ghost predicate StampOf(rs: seq<Record>, labels: seq<nat>, m: nat, t: int)
    requires |labels| == |rs|
  {
    exists j :: 0 <= j < |rs| && labels[j] == m && rs[j].time == t
  }

  /** Every stamp of an engagement but the last is followed by another within the window. */
  lemma LaterStamp(rs: seq<Record>, m: nat, t: int, t': int) returns (s: int)
    requires t < t' && StampOf(rs, Labels(rs, |rs|), m, t) && StampOf(rs, Labels(rs, |rs|), m, t')
    ensures StampOf(rs, Labels(rs, |rs|), m, s) && t < s <= t + WINDOW
  {
    var n := |rs|;
    var j :| 0 <= j < n && Labels(rs, n)[j] == m && rs[j].time == t;
    var q :| 0 <= q < n && Labels(rs, n)[q] == m && rs[q].time == t';
    OneYearLatestStamp(rs, n, q);
    var k := NoWideGap(rs, n, j);
    s := rs[k].time;
  }

  // ---------------------------------------------------------------------
  // The documented rule: "same engagement iff they share a unit id AND fall
  // within the window of each other in the same game year"
  // ---------------------------------------------------------------------

  predicate SharesUnitWithinWindow(a: Record, b: Record) {
    Within(a, b) && exists u :: u in a.unitIds && u in b.unitIds
  }

  predicate TimeOrdered(rs: seq<Record>) {
    forall i, j :: 0 <= i < j < |rs| ==>
      rs[i].year < rs[j].year || (rs[i].year == rs[j].year && rs[i].time <= rs[j].time)
  }

  /** Once together, always together. */
  lemma {:induction false} TogetherIsKept(rs: seq<Record>, n: nat, n': nat, a: nat, b: nat)
    requires a < n <= n' <= |rs| && b < n
    requires Labels(rs, n)[a] == Labels(rs, n)[b]
    ensures Labels(rs, n')[a] == Labels(rs, n')[b]
    decreases n'
  {
    if n < n' {
      TogetherIsKept(rs, n, n' - 1, a, b);
    }
  }

  /** The "if" half holds on the oldest-first slices the narrator is given. */
  lemma {:induction false} SharedUnitWithinWindowIsTogether(rs: seq<Record>, a: nat, b: nat, u: int)
    requires TimeOrdered(rs)
    requires a < b < |rs| && u in rs[a].unitIds && u in rs[b].unitIds && Within(rs[a], rs[b])
    ensures Together(rs, a, b)
    decreases b - a
  {
    var k := Latest(rs, b, u);
    LatestMentionJoins(rs, a, b, u);
    if a < k {
      SharedUnitWithinWindowIsTogether(rs, a, k, u);
    }
  }

  lemma LatestMentionJoins(rs: seq<Record>, a: nat, b: nat, u: int)
    requires TimeOrdered(rs)
    requires a < b < |rs| && u in rs[a].unitIds && u in rs[b].unitIds && Within(rs[a], rs[b])
    ensures a <= Latest(rs, b, u) < b && Within(rs[a], rs[Latest(rs, b, u)]) && Together(rs, Latest(rs, b, u), b)
  {
    var k := Latest(rs, b, u);
    var m := Labels(rs, b)[k];
    assert Within(rs[m], rs[b]) && Within(rs[a], rs[k]) by {
      OneYearLatestStamp(rs, b, k);
      assert a <= k <= m < b;
    }
    JoinedByTouch(rs, b, u);
  }

  lemma JoinedByTouch(rs: seq<Record>, b: nat, u: int)
    requires b < |rs| && u in rs[b].unitIds && Latest(rs, b, u) >= 0
    requires Within(rs[Labels(rs, b)[Latest(rs, b, u)]], rs[b])
    ensures Together(rs, Latest(rs, b, u), b)
  {
    var k := Latest(rs, b, u);
    assert Touches(rs, Labels(rs, b), b, Labels(rs, b)[k]);
    TouchedJoinsNext(rs, Labels(rs, b), k);
    TogetherIsKept(rs, b + 1, |rs|, k, b);
  }

  lemma TouchedJoinsNext(rs: seq<Record>, before: seq<nat>, k: nat)
    requires k < |before| < |rs| && forall j :: 0 <= j < |before| ==> before[j] < |before|
    requires Touches(rs, before, |before|, before[k])
    ensures NextLabels(rs, before)[k] == NextLabels(rs, before)[|before|]
  {
  }

  /** `path` links its ends by steps that each share a unit within the window, either way round. */
  ghost predicate Chained(rs: seq<Record>, path: seq<nat>) {
    (forall i :: 0 <= i < |path| ==> path[i] < |rs|) &&
    forall i :: 0 <= i < |path| - 1 ==>
      SharesUnitWithinWindow(rs[path[i]], rs[path[i + 1]]) || SharesUnitWithinWindow(rs[path[i + 1]], rs[path[i]])
  }

  predicate IsPath(path: seq<nat>, a: nat, b: nat) {
    path != [] && path[0] == a && path[|path| - 1] == b
  }

  /** Some chain of documented pairs leads from `a` to `b`. */
  ghost predicate Linked(rs: seq<Record>, a: nat, b: nat) {
    exists path :: Chained(rs, path) && IsPath(path, a, b)
  }

  lemma LinkedToSelf(rs: seq<Record>, a: nat)
    requires a < |rs|
    ensures Linked(rs, a, a)
  {
    assert Chained(rs, [a]) && IsPath([a], a, a);
  }

  lemma LinkedBack(rs: seq<Record>, a: nat, b: nat)
    requires Linked(rs, a, b)
    ensures Linked(rs, b, a)
  {
    var path :| Chained(rs, path) && IsPath(path, a, b);
    var back := seq(|path|, i requires 0 <= i < |path| => path[|path| - 1 - i]);
    assert Chained(rs, back) && IsPath(back, b, a);
  }

  lemma LinkedOn(rs: seq<Record>, a: nat, b: nat, c: nat)
    requires Linked(rs, a, b) && Linked(rs, b, c)
    ensures Linked(rs, a, c)
  {
    var one :| Chained(rs, one) && IsPath(one, a, b);
    var two :| Chained(rs, two) && IsPath(two, b, c);
    var whole := one + two[1..];
    forall i | 0 <= i < |whole| - 1
      ensures SharesUnitWithinWindow(rs[whole[i]], rs[whole[i + 1]]) ||
        SharesUnitWithinWindow(rs[whole[i + 1]], rs[whole[i]])
    {
      if i >= |one| - 1 {
        var j := i - (|one| - 1);
        assert whole[i] == two[j] && whole[i + 1] == two[j + 1];
      }
    }
    assert Chained(rs, whole) && IsPath(whole, a, c);
  }

  /** The "only if" half: every two records of an engagement are joined by a chain of documented pairs. */
  ghost predicate OnlyIfHalf(rs: seq<Record>) {
    forall a, b :: 0 <= a < |rs| && 0 <= b < |rs| && Together(rs, a, b) ==> Linked(rs, a, b)
  }

  /** A chain leads from record `n` to the last record of every engagement it takes over. */
  ghost predicate TouchLinked(rs: seq<Record>, n: nat)
    requires n < |rs|
  {
    forall m :: 0 <= m < n && Touches(rs, Labels(rs, n), n, m) ==> Linked(rs, n, m)
  }

  /** The "only if" half holds exactly when every record is so linked to what it takes over. */
  lemma OnlyIfHalfExactly(rs: seq<Record>)
    ensures OnlyIfHalf(rs) <==> forall n :: 0 <= n < |rs| ==> TouchLinked(rs, n)
  {
    if OnlyIfHalf(rs) {
      forall n, m | 0 <= m < n < |rs| && Touches(rs, Labels(rs, n), n, m) ensures Linked(rs, n, m) {
        TouchedIsTogether(rs, n, m);
      }
    }
    if forall n :: 0 <= n < |rs| ==> TouchLinked(rs, n) {
      forall a, b | 0 <= a < |rs| && 0 <= b < |rs| && Together(rs, a, b) ensures Linked(rs, a, b) {
        LinkedToLabel(rs, |rs|, a);
        LinkedToLabel(rs, |rs|, b);
        LinkedBack(rs, b, Labels(rs, |rs|)[b]);
        LinkedOn(rs, a, Labels(rs, |rs|)[a], b);
      }
    }
  }

  lemma TouchedIsTogether(rs: seq<Record>, n: nat, m: nat)
    requires m < n < |rs| && Touches(rs, Labels(rs, n), n, m)
    ensures Together(rs, n, m)
  {
    var u :| u in rs[n].unitIds && Latest(rs, n, u) >= 0 && Labels(rs, n)[Latest(rs, n, u)] == m;
    LabelsIdempotent(rs, n, Latest(rs, n, u));
    TogetherIsKept(rs, n + 1, |rs|, n, m);
  }

  lemma {:induction false} LinkedToLabel(rs: seq<Record>, n: nat, a: nat)
    requires a < n <= |rs| && forall i :: 0 <= i < n ==> TouchLinked(rs, i)
    ensures Linked(rs, a, Labels(rs, n)[a])
  {
    if a == n - 1 {
      LinkedToSelf(rs, a);
    } else {
      LinkedToLabel(rs, n - 1, a);
      assert TouchLinked(rs, n - 1);
      TakenOverIsLinked(rs, n - 1, a, Labels(rs, n - 1)[a]);
    }
  }

  lemma TakenOverIsLinked(rs: seq<Record>, n: nat, a: nat, m: nat)
    requires a < n < |rs| && m < n && Linked(rs, a, m) && TouchLinked(rs, n)
    ensures Touches(rs, Labels(rs, n), n, m) ==> Linked(rs, a, n)
  {
    if Touches(rs, Labels(rs, n), n, m) {
      LinkedBack(rs, n, m);
      LinkedOn(rs, a, m, n);
    }
  }

  /** Wherever unit `u` makes record `n` join an engagement, the unit's own latest record is within the window too. */
  ghost predicate MentionIsWithin(rs: seq<Record>, n: nat, u: int)
    requires n < |rs|
  {
    var k := Latest(rs, n, u);
    u in rs[n].unitIds && k >= 0 && Within(rs[Labels(rs, n)[k]], rs[n]) ==> Within(rs[k], rs[n])
  }

  /** Where every joining unit's own latest record is within the window, the "only if" half holds. */
  lemma OnlyIfHalfWhenMentionsAreWithin(rs: seq<Record>)
    requires forall n, u :: 0 <= n < |rs| ==> MentionIsWithin(rs, n, u)
    ensures OnlyIfHalf(rs)
  {
    TouchesFollow(rs, |rs|);
    OnlyIfHalfExactly(rs);
  }

  lemma {:induction false} TouchesFollow(rs: seq<Record>, n: nat)
    requires n <= |rs| && forall i, u :: 0 <= i < |rs| ==> MentionIsWithin(rs, i, u)
    ensures forall i :: 0 <= i < n ==> TouchLinked(rs, i)
  {
    if n > 0 {
      var k := n - 1;
      TouchesFollow(rs, k);
      forall m | 0 <= m < k && Touches(rs, Labels(rs, k), k, m) ensures Linked(rs, k, m) {
        var u :| u in rs[k].unitIds && Latest(rs, k, u) >= 0 && Labels(rs, k)[Latest(rs, k, u)] == m;
        assert MentionIsWithin(rs, k, u);
        LinkedToMention(rs, k, Latest(rs, k, u), u);
        LinkedToLabel(rs, k, Latest(rs, k, u));
        LinkedOn(rs, k, Latest(rs, k, u), m);
      }
    }
  }

  lemma LinkedToMention(rs: seq<Record>, n: nat, k: nat, u: int)
    requires k < n < |rs| && u in rs[n].unitIds && u in rs[k].unitIds && Within(rs[k], rs[n])
    ensures Linked(rs, n, k)
  {
    var path: seq<nat> := [n, k];
    assert Chained(rs, path) && IsPath(path, n, k);
  }

  /**
   A time-ordered input where it fails: the window is measured from the
   engagement's own last record, so record 2 joins record 0 although no chain
   of documented pairs reaches it.
   */
  lemma OnlyIfHalfFails()
    ensures exists rs: seq<Record> ::
      && TimeOrdered(rs) && |rs| == 3 && Together(rs, 0, 2) && !Linked(rs, 2, 0) && !OnlyIfHalf(rs)
  {
    var r0, r1, r2 := Record(0, 1, 0, [7, 8]), Record(1, 1, 500, [8]), Record(2, 1, 1000, [7]);
    var rs := [r0, r1, r2];
    LabelsOfWitness(rs);
    forall path | Chained(rs, path) && |path| > 0 && path[0] == 2
      ensures path[|path| - 1] == 2
    {
      StuckAtTwo(rs, path, |path| - 1);
    }
    assert !Linked(rs, 2, 0) && Together(rs, 2, 0);
  }

  lemma LabelsOfWitness(rs: seq<Record>)
    requires rs == [Record(0, 1, 0, [7, 8]), Record(1, 1, 500, [8]), Record(2, 1, 1000, [7])]
    ensures Together(rs, 0, 2)
  {
    assert Labels(rs, 0) == [];
    assert Labels(rs, 1) == [0];
    assert Latest(rs, 1, 8) == 0;
    assert 8 in rs[1].unitIds;
    assert Labels(rs, 2) == [1, 1];
    assert Latest(rs, 2, 7) == 0 by { assert 7 !in rs[1].unitIds; assert 7 in rs[0].unitIds; }
    assert 7 in rs[2].unitIds;
    assert Touches(rs, Labels(rs, 2), 2, 1);
  }

  lemma {:induction false} StuckAtTwo(rs: seq<Record>, path: seq<nat>, i: nat)
    requires rs == [Record(0, 1, 0, [7, 8]), Record(1, 1, 500, [8]), Record(2, 1, 1000, [7])]
    requires Chained(rs, path) && i < |path| && path[0] == 2
    ensures path[i] == 2
  {
    if i > 0 {
      StuckAtTwo(rs, path, i - 1);
    }
  }
}
