/**
 story_pulse: the emotions felt since a plugin-global stamp cursor, ranked,
 capped and counted.
 */
module StoryPulse {

  const MAX_LINES := 15          // kStoryPulseMaxLines
  const MIN_STRENGTH := 50       // kStoryPulseMinStrength
  const REWIND_TICKS := 12000    // kStoryPulseReconnectRewindTicks

  datatype Stamp = Stamp(year: int, tick: int)

  const UNSET := Stamp(-1, -1)

  predicate Later(a: Stamp, b: Stamp) {
    a.year > b.year || (a.year == b.year && a.tick > b.tick)
  }

  datatype Key = Key(unitId: int, emotion: int, thought: int, subthought: int)

  /** One felt emotion; `flaggedChange` and `madeFriendOrGrudge` are the two flags the tiers look at. */
  datatype Emotion = Emotion(key: Key, stamp: Stamp, strength: int, divider: int,
                             flaggedChange: bool, madeFriendOrGrudge: bool)

  function Abs(v: int): nat { if v < 0 then -v else v }

  function Tier(e: Emotion): nat {
    if e.flaggedChange then 3
    else if e.madeFriendOrGrudge then 2
    else if Abs(e.strength) >= MIN_STRENGTH then 1
    else 0
  }

  // ---------------------------------------------------------------------
  // One call
  // ---------------------------------------------------------------------

  datatype State = State(cursor: Stamp, remembered: map<Key, Stamp>)

  /** The largest stamp scanned, from the starting point (-1, -1). */
  function Largest(felt: seq<Emotion>): (m: Stamp)
    ensures m == UNSET || exists e :: e in felt && e.stamp == m
    ensures !Later(UNSET, m) && forall e :: e in felt ==> !Later(e.stamp, m)
  {
    if felt == [] then UNSET
    else
      var m := Largest(felt[..|felt| - 1]);
      if Later(felt[|felt| - 1].stamp, m) then felt[|felt| - 1].stamp else m
  }

  /** An unset cursor is re-windowed to the last ticks of the latest year. */
  function Floor(cursor: Stamp, largest: Stamp): Stamp {
    if cursor.year < 0 && largest.year >= 0
    then Stamp(largest.year, if largest.tick - REWIND_TICKS < 0 then 0 else largest.tick - REWIND_TICKS)
    else cursor
  }

  datatype Scan = Scan(candidates: seq<Emotion>, remembered: map<Key, Stamp>)

  predicate IsFresh(floor: Stamp, remembered: map<Key, Stamp>, e: Emotion) {
    Later(e.stamp, floor) && (e.key in remembered ==> Later(e.stamp, remembered[e.key]))
  }

  function ScanFrom(s: Scan, floor: Stamp, felt: seq<Emotion>): Scan {
    if felt == [] then s
    else
      var before, e := ScanFrom(s, floor, felt[..|felt| - 1]), felt[|felt| - 1];
      if IsFresh(floor, before.remembered, e)
      then Scan(before.candidates + [e], before.remembered[e.key := e.stamp])
      else before
  }

  function ScanCall(s: State, felt: seq<Emotion>): Scan {
    ScanFrom(Scan([], s.remembered), Floor(s.cursor, Largest(felt)), felt)
  }

  /** The state after a call that scanned `felt`. */
  function Advance(s: State, felt: seq<Emotion>): State {
    var largest := Largest(felt);
    var cursor := if largest.year >= 0 then largest else s.cursor;
    var remembered := ScanCall(s, felt).remembered;
    State(cursor, map k | k in remembered && Later(remembered[k], cursor) :: remembered[k])
  }

  /** tier first, then strength, then a negative emotion over a positive one, then recency */
  predicate MoreSalient(a: Emotion, b: Emotion) {
    if Tier(a) != Tier(b) then Tier(a) > Tier(b)
    else if Abs(a.strength) != Abs(b.strength) then Abs(a.strength) > Abs(b.strength)
    else if (a.divider > 0) != (b.divider > 0) then a.divider > 0
    else Later(a.stamp, b.stamp)
  }

  lemma MoreSalientIsStrictWeakOrder(a: Emotion, b: Emotion, c: Emotion)
    ensures !MoreSalient(a, a)
    ensures MoreSalient(a, b) ==> !MoreSalient(b, a)
    ensures MoreSalient(a, b) && MoreSalient(b, c) ==> MoreSalient(a, c)
    ensures !MoreSalient(a, b) && !MoreSalient(b, c) ==> !MoreSalient(a, c)
  {
  }

  /** No element outranks one before it. */
  ghost predicate InOrder<T>(outranks: (T, T) -> bool, s: seq<T>) {
    forall i, j :: 0 <= i < j < |s| ==> !outranks(s[j], s[i])
  }

  /** What std::sort promises: the same elements, none after one it outranks. */
  ghost predicate IsSortOf(sorted: seq<Emotion>, s: seq<Emotion>) {
    multiset(sorted) == multiset(s) && InOrder(MoreSalient, sorted)
  }

  /** A stand-in for std::sort. */
  method Sort(s: seq<Emotion>) returns (sorted: seq<Emotion>)
    ensures IsSortOf(sorted, s)
  {
    sorted := [];
    for i := 0 to |s|
      invariant multiset(sorted) == multiset(s[..i])
      invariant InOrder(MoreSalient, sorted)
    {
      var k := Place(sorted, s[i]);
      InsertKeepsOrder(MoreSalient, sorted, k, s[i]);
      assert s[..i + 1] == s[..i] + [s[i]];
      sorted := sorted[..k] + [s[i]] + sorted[k..];
    }
    assert s[..|s|] == s;
  }

  method Place(sorted: seq<Emotion>, e: Emotion) returns (k: nat)
    requires InOrder(MoreSalient, sorted)
    ensures k <= |sorted|
    ensures forall i :: 0 <= i < k ==> !MoreSalient(e, sorted[i])
    ensures forall j :: k <= j < |sorted| ==> !MoreSalient(sorted[j], e)
  {
    k := |sorted|;
    while k > 0 && MoreSalient(e, sorted[k - 1])
      invariant 0 <= k <= |sorted|
      invariant forall j :: k <= j < |sorted| ==> !MoreSalient(sorted[j], e)
    {
      k := k - 1;
      MoreSalientIsStrictWeakOrder(e, sorted[k], e);
    }
    forall i | 0 <= i < k ensures !MoreSalient(e, sorted[i]) {
      if i < k - 1 {
        MoreSalientIsStrictWeakOrder(e, sorted[k - 1], sorted[i]);
      }
    }
  }

  lemma InsertKeepsOrder<T>(outranks: (T, T) -> bool, s: seq<T>, k: nat, e: T)
    requires InOrder(outranks, s) && k <= |s|
    requires forall i :: 0 <= i < k ==> !outranks(e, s[i])
    requires forall j :: k <= j < |s| ==> !outranks(s[j], e)
    ensures InOrder(outranks, s[..k] + [e] + s[k..])
    ensures multiset(s[..k] + [e] + s[k..]) == multiset(s) + multiset{e}
  {
    var t := s[..k] + [e] + s[k..];
    assert s == s[..k] + s[k..];
    forall i, j | 0 <= i < j < |t| ensures !outranks(t[j], t[i]) {
      assert t[i] == if i < k then s[i] else if i == k then e else s[i - 1];
      assert t[j] == if j < k then s[j] else if j == k then e else s[j - 1];
    }
  }

  function Eligible(candidates: seq<Emotion>): seq<Emotion> {
    if candidates == [] then []
    else
      var front, e := Eligible(candidates[..|candidates| - 1]), candidates[|candidates| - 1];
      if Tier(e) >= 1 then front + [e] else front
  }

  datatype Reply = Reply(shown: seq<Emotion>, total: nat, belowThreshold: nat, cappedByLimit: nat, rewindowed: bool)

  class Pulse {
    var cursor: Stamp
    var remembered: map<Key, Stamp>

    constructor ()
      ensures cursor == UNSET && remembered == map[]
    {
      cursor, remembered := UNSET, map[];
    }

    /** reset_story_pulse_cursor */
    method Reset()
      modifies this
      ensures cursor == UNSET && remembered == map[]
    {
      cursor, remembered := UNSET, map[];
    }

    method CollectCandidates(felt: seq<Emotion>, floor: Stamp) returns (candidates: seq<Emotion>)
      modifies this`remembered
      ensures Scan(candidates, remembered) == ScanFrom(Scan([], old(remembered)), floor, felt)
    {
      candidates := [];
      for i := 0 to |felt|
        invariant Scan(candidates, remembered) == ScanFrom(Scan([], old(remembered)), floor, felt[..i])
      {
        var e := felt[i];
        assert felt[..i + 1][..i] == felt[..i];
        if Later(e.stamp, floor) {
          if e.key !in remembered || Later(e.stamp, remembered[e.key]) {
            remembered := remembered[e.key := e.stamp];
            candidates := candidates + [e];
          }
        }
      }
      assert felt[..|felt|] == felt;
    }

    method PruneRemembered()
      modifies this`remembered
      ensures remembered == map k | k in old(remembered) && Later(old(remembered)[k], cursor) :: old(remembered)[k]
    {
      var rest := remembered.Keys;
      while rest != {}
        invariant rest <= remembered.Keys <= old(remembered).Keys
        invariant forall k :: k in old(remembered) ==>
          (k in remembered <==> k in rest || Later(old(remembered)[k], cursor))
        invariant forall k :: k in remembered ==> remembered[k] == old(remembered)[k]
        decreases rest
      {
        var k :| k in rest;
        if !Later(remembered[k], cursor) {
          remembered := remembered - {k};
        }
        rest := rest - {k};
      }
    }

    /** handleStoryPulse, on everything the citizens feel in whatever order they are walked. */
    method HandleStoryPulse(felt: seq<Emotion>, maxParam: int) returns (reply: Reply)
      modifies this
      ensures State(cursor, remembered) == Advance(State(old(cursor), old(remembered)), felt)
      ensures var candidates := ScanCall(State(old(cursor), old(remembered)), felt).candidates;
        var limit := if maxParam <= 0 || maxParam > MAX_LINES then MAX_LINES else maxParam;
        && IsTopOf(reply.shown, Eligible(candidates), limit)
        && reply.total == |candidates|
        && |reply.shown| + reply.belowThreshold + reply.cappedByLimit == reply.total
        && reply.cappedByLimit == |Eligible(candidates)| - |reply.shown|
      ensures reply.rewindowed <==> old(cursor).year < 0 && Largest(felt).year >= 0
    {
      var limit := if maxParam <= 0 || maxParam > MAX_LINES then MAX_LINES else maxParam;
      var largest := FindLargest(felt);
      var rewindowed := cursor.year < 0 && largest.year >= 0;
      var candidates := CollectCandidates(felt, Floor(cursor, largest));
      if largest.year >= 0 {
        cursor := largest;
      }
      PruneRemembered();
      var eligible := SelectEligible(candidates);
      EligibleSize(candidates);
      var sorted := Sort(eligible);
      var showCount := if limit < |sorted| then limit else |sorted|;
      SameSize(sorted, eligible);
      TopOfSorted(sorted, eligible, limit);
      reply := Reply(sorted[..showCount], |candidates|, |candidates| - |eligible|, |eligible| - showCount, rewindowed);
    }
  }

  method FindLargest(felt: seq<Emotion>) returns (largest: Stamp)
    ensures largest == Largest(felt)
  {
    largest := UNSET;
    for i := 0 to |felt|
      invariant largest == Largest(felt[..i])
    {
      assert felt[..i + 1][..i] == felt[..i];
      if Later(felt[i].stamp, largest) {
        largest := felt[i].stamp;
      }
    }
    assert felt[..|felt|] == felt;
  }

  method SelectEligible(candidates: seq<Emotion>) returns (eligible: seq<Emotion>)
    ensures eligible == Eligible(candidates)
  {
    eligible := [];
    for i := 0 to |candidates|
      invariant eligible == Eligible(candidates[..i])
    {
      assert candidates[..i + 1][..i] == candidates[..i];
      if Tier(candidates[i]) >= 1 {
        eligible := eligible + [candidates[i]];
      }
    }
    assert candidates[..|candidates|] == candidates;
  }

  lemma {:induction false} EligibleSize(candidates: seq<Emotion>)
    ensures |Eligible(candidates)| <= |candidates|
  {
    if candidates != [] {
      EligibleSize(candidates[..|candidates| - 1]);
    }
  }

  lemma SameSize(s: seq<Emotion>, t: seq<Emotion>)
    requires multiset(s) == multiset(t)
    ensures |s| == |t|
  {
    assert |multiset(s)| == |multiset(t)|;
  }

  /**
   `shown` is a top list of `eligible`: at most `limit` of them, in order, and nothing hidden outranks
   anything shown.
   */
  ghost predicate IsTopOf(shown: seq<Emotion>, eligible: seq<Emotion>, limit: nat) {
    && |shown| == (if limit < |eligible| then limit else |eligible|)
    && multiset(shown) <= multiset(eligible)
    && InOrder(MoreSalient, shown)
    && NoneOutranks(MoreSalient, multiset(eligible) - multiset(shown), shown)
  }

  ghost predicate NoneOutranks<T(!new)>(outranks: (T, T) -> bool, hidden: multiset<T>, shown: seq<T>) {
    forall h, i :: h in hidden && 0 <= i < |shown| ==> !outranks(h, shown[i])
  }

  lemma TopOfSorted(sorted: seq<Emotion>, eligible: seq<Emotion>, limit: nat)
    requires IsSortOf(sorted, eligible)
    ensures IsTopOf(sorted[..if limit < |sorted| then limit else |sorted|], eligible, limit)
  {
    var k := if limit < |sorted| then limit else |sorted|;
    SameSize(sorted, eligible);
    Hidden(sorted, k);
    PrefixOutranksRest(MoreSalient, sorted, k);
  }

  lemma Hidden<T>(s: seq<T>, k: nat)
    requires k <= |s|
    ensures multiset(s[..k]) <= multiset(s) && multiset(s) - multiset(s[..k]) == multiset(s[k..])
  {
    assert s == s[..k] + s[k..];
  }

  lemma PrefixOutranksRest<T(!new)>(outranks: (T, T) -> bool, s: seq<T>, k: nat)
    requires InOrder(outranks, s) && k <= |s|
    ensures InOrder(outranks, s[..k]) && NoneOutranks(outranks, multiset(s[k..]), s[..k])
  {
    forall h, i | h in multiset(s[k..]) && 0 <= i < k ensures !outranks(h, s[..k][i]) {
      assert h in s[k..];
      var j :| 0 <= j < |s[k..]| && s[k..][j] == h;
      assert s[k + j] == h;
    }
  }

  // ---------------------------------------------------------------------
  // Across calls
  // ---------------------------------------------------------------------

  /** The state at a call boundary: nothing remembered, the cursor unset or in a real year. */
  predicate Quiet(s: State) {
    s.remembered == map[] && (s.cursor == UNSET || s.cursor.year >= 0)
  }

  lemma {:induction false} ScanFromFacts(s: Scan, floor: Stamp, felt: seq<Emotion>)
    requires forall c :: c in s.candidates ==> c.key in s.remembered && !Later(c.stamp, s.remembered[c.key])
    ensures var t := ScanFrom(s, floor, felt);
      && (forall c :: c in t.candidates ==> c.key in t.remembered && !Later(c.stamp, t.remembered[c.key]))
      && (forall c :: c in t.candidates && c !in s.candidates ==> c in felt && Later(c.stamp, floor))
      && (forall k :: k in t.remembered ==>
            || (k in s.remembered && t.remembered[k] == s.remembered[k])
            || exists c :: c in t.candidates && c in felt && c.key == k && c.stamp == t.remembered[k])
  {
    if felt != [] {
      var n := |felt| - 1;
      ScanFromFacts(s, floor, felt[..n]);
      assert felt == felt[..n] + [felt[n]];
      assert felt[n] in felt;
    }
  }

  /** Nothing at least as recent is remembered of the key. */
  predicate PastRemembered(remembered: map<Key, Stamp>, e: Emotion) {
    e.key in remembered ==> Later(e.stamp, remembered[e.key])
  }

  /** Every emotion past the floor and what is remembered is reported, or a feeling of its key at least as recent is. */
  lemma {:induction false} NothingIsSkipped(remembered: map<Key, Stamp>, floor: Stamp, felt: seq<Emotion>, e: Emotion)
    requires e in felt && Later(e.stamp, floor) && PastRemembered(remembered, e)
    ensures exists c ::
      c in ScanFrom(Scan([], remembered), floor, felt).candidates && c.key == e.key && !Later(e.stamp, c.stamp)
  {
    var n := |felt| - 1;
    var start := Scan([], remembered);
    var before, t := ScanFrom(start, floor, felt[..n]), ScanFrom(start, floor, felt);
    ScanFromFacts(start, floor, felt[..n]);
    if felt[n] == e {
      if IsFresh(floor, before.remembered, e) {
        assert e in t.candidates;
      } else {
        var c :| c in before.candidates && c.key == e.key && c.stamp == before.remembered[e.key];
        assert c in t.candidates;
      }
    } else {
      assert felt == felt[..n] + [felt[n]];
      NothingIsSkipped(remembered, floor, felt[..n], e);
      var c :| c in before.candidates && c.key == e.key && !Later(e.stamp, c.stamp);
      assert c in t.candidates;
    }
  }

  /** An emotion of the year -1 past the unset cursor: the one kind of thing the prune leaves behind. */
  predicate IsResidue(stamp: Stamp) { stamp.year == -1 && stamp.tick > -1 }

  ghost predicate HasResidue(felt: seq<Emotion>) {
    exists e :: e in felt && IsResidue(e.stamp)
  }

  /**
   Any state at a call boundary: the cursor is unset or in a real year, and only residue is remembered,
   under an unset cursor.
   */
  ghost predicate AtBoundary(s: State) {
    && (s.cursor == UNSET || s.cursor.year >= 0)
    && forall k :: k in s.remembered ==> s.cursor == UNSET && IsResidue(s.remembered[k])
  }

  /** After a call nothing is remembered, except exactly when it left the cursor unset over residue, old or new. */
  lemma RememberedIsEmptyExactly(s: State, felt: seq<Emotion>)
    requires AtBoundary(s)
    ensures AtBoundary(Advance(s, felt))
    ensures Advance(s, felt).remembered == map[] <==>
      s.cursor.year >= 0 || Largest(felt).year >= 0 || (s.remembered == map[] && !HasResidue(felt))
  {
    var start, floor, after := Scan([], s.remembered), Floor(s.cursor, Largest(felt)), Advance(s, felt);
    ScanFromFacts(start, floor, felt);
    var scan := ScanFrom(start, floor, felt);
    forall k | k in after.remembered
      ensures s.cursor == UNSET && Largest(felt).year < 0 && IsResidue(after.remembered[k])
      ensures k in s.remembered || HasResidue(felt)
    {
      OnlyResidueIsLeft(s, felt, k);
    }
    if s.cursor.year < 0 && Largest(felt).year < 0 {
      if k :| k in s.remembered {
        StaysRemembered(start, floor, felt, k);
        assert k in after.remembered;
      } else if HasResidue(felt) {
        var e :| e in felt && IsResidue(e.stamp);
        SomethingIsRemembered(start, floor, felt, e);
        var k :| k in scan.remembered && Later(scan.remembered[k], floor);
        assert k in after.remembered;
      }
    }
  }

  lemma OnlyResidueIsLeft(s: State, felt: seq<Emotion>, k: Key)
    requires AtBoundary(s) && k in Advance(s, felt).remembered
    ensures s.cursor == UNSET && Largest(felt).year < 0 && IsResidue(Advance(s, felt).remembered[k])
    ensures k in s.remembered || HasResidue(felt)
  {
    var floor, after := Floor(s.cursor, Largest(felt)), Advance(s, felt);
    ScanFromFacts(Scan([], s.remembered), floor, felt);
    var stamp := after.remembered[k];
    assert Later(stamp, after.cursor);
    if !(k in s.remembered && stamp == s.remembered[k]) {
      var scan := ScanCall(s, felt);
      var c :| c in scan.candidates && c in felt && c.key == k && c.stamp == stamp;
      assert !Later(c.stamp, Largest(felt)) && Later(c.stamp, floor);
    }
  }

  lemma {:induction false} StaysRemembered(s: Scan, floor: Stamp, felt: seq<Emotion>, k: Key)
    requires k in s.remembered && Later(s.remembered[k], floor)
    ensures k in ScanFrom(s, floor, felt).remembered && Later(ScanFrom(s, floor, felt).remembered[k], floor)
  {
    if felt != [] {
      StaysRemembered(s, floor, felt[..|felt| - 1], k);
    }
  }

  ghost predicate SawRealYear(calls: seq<seq<Emotion>>) {
    exists i :: 0 <= i < |calls| && Largest(calls[i]).year >= 0
  }

  ghost predicate SawResidue(calls: seq<seq<Emotion>>) {
    exists i :: 0 <= i < |calls| && HasResidue(calls[i])
  }

  lemma SawOneMore(calls: seq<seq<Emotion>>)
    requires calls != []
    ensures var n := |calls| - 1;
      && (SawRealYear(calls) <==> SawRealYear(calls[..n]) || Largest(calls[n]).year >= 0)
      && (SawResidue(calls) <==> SawResidue(calls[..n]) || HasResidue(calls[n]))
  {
    var n := |calls| - 1;
    assert forall i :: 0 <= i < n ==> calls[..n][i] == calls[i];
  }

  /**
   Over a run of calls from the start: something is remembered exactly when no call saw a real year and
   some call saw residue.
   */
  lemma {:induction false} RememberedOverRuns(calls: seq<seq<Emotion>>)
    ensures var s := Calls(State(UNSET, map[]), calls).0;
      && AtBoundary(s) && (s.cursor.year >= 0 <==> SawRealYear(calls))
      && (s.remembered != map[] <==> !SawRealYear(calls) && SawResidue(calls))
  {
    if calls != [] {
      var n := |calls| - 1;
      RememberedOverRuns(calls[..n]);
      SawOneMore(calls);
      RememberedIsEmptyExactly(Calls(State(UNSET, map[]), calls[..n]).0, calls[n]);
    }
  }

  lemma {:induction false} SomethingIsRemembered(s: Scan, floor: Stamp, felt: seq<Emotion>, e: Emotion)
    requires e in felt && Later(e.stamp, floor)
    ensures exists k :: k in ScanFrom(s, floor, felt).remembered && Later(ScanFrom(s, floor, felt).remembered[k], floor)
  {
    var n := |felt| - 1;
    var t, before := ScanFrom(s, floor, felt), ScanFrom(s, floor, felt[..n]);
    if felt[n] == e {
      assert e.key in t.remembered && Later(t.remembered[e.key], floor);
    } else {
      assert felt == felt[..n] + [felt[n]];
      SomethingIsRemembered(s, floor, felt[..n], e);
      var k :| k in before.remembered && Later(before.remembered[k], floor);
      assert k in t.remembered && Later(t.remembered[k], floor);
    }
  }

  /** The same feeling with the same stamp. */
  predicate SameNews(a: Emotion, b: Emotion) { a.key == b.key && a.stamp == b.stamp }

  ghost predicate NoRepeats(news: seq<Emotion>) {
    forall i, j :: 0 <= i < j < |news| ==> !SameNews(news[i], news[j])
  }

  lemma {:induction false} OneCallHasNoRepeats(s: Scan, floor: Stamp, felt: seq<Emotion>)
    requires NoRepeats(s.candidates)
    requires forall c :: c in s.candidates ==> c.key in s.remembered && !Later(c.stamp, s.remembered[c.key])
    ensures NoRepeats(ScanFrom(s, floor, felt).candidates)
  {
    if felt != [] {
      var n := |felt| - 1;
      OneCallHasNoRepeats(s, floor, felt[..n]);
      ScanFromFacts(s, floor, felt[..n]);
      var before, e := ScanFrom(s, floor, felt[..n]), felt[n];
      forall i | 0 <= i < |before.candidates|
        ensures IsFresh(floor, before.remembered, e) ==> !SameNews(before.candidates[i], e)
      {
        assert before.candidates[i] in before.candidates;
      }
    }
  }

  /** The state and everything reported after a sequence of calls. */
  function Calls(s: State, calls: seq<seq<Emotion>>): (State, seq<Emotion>) {
    if calls == [] then (s, [])
    else
      var (before, news) := Calls(s, calls[..|calls| - 1]);
      (Advance(before, calls[|calls| - 1]), news + ScanCall(before, calls[|calls| - 1]).candidates)
  }

  /** A call that does not move the cursor back. */
  predicate KeepsUp(s: State, felt: seq<Emotion>) {
    Largest(felt).year >= 0 ==> !Later(s.cursor, Largest(felt))
  }

  ghost predicate AllKeepUp(s: State, calls: seq<seq<Emotion>>) {
    forall i :: 0 <= i < |calls| ==> KeepsUp(Calls(s, calls[..i]).0, calls[i])
  }

  lemma QuietStaysQuiet(s: State, felt: seq<Emotion>)
    requires Quiet(s) && (s.cursor.year >= 0 || forall e :: e in felt ==> e.stamp.year >= 0)
    ensures Quiet(Advance(s, felt))
  {
    RememberedIsEmptyExactly(s, felt);
  }

  /** What keeps a reported feeling from being news again: a real cursor at or past it, or else the remembered map. */
  predicate Accounted(s: State, c: Emotion) {
    if s.cursor.year >= 0 then !Later(c.stamp, s.cursor)
    else c.key in s.remembered && !Later(c.stamp, s.remembered[c.key])
  }

  /** A scan only ever moves what is remembered of a key forward, and reports nothing at or before it. */
  lemma {:induction false} ScanMovesForward(s: Scan, floor: Stamp, felt: seq<Emotion>)
    ensures var t := ScanFrom(s, floor, felt);
      && (forall k :: k in s.remembered ==> k in t.remembered && !Later(s.remembered[k], t.remembered[k]))
      && (forall c :: c in t.candidates && c !in s.candidates && c.key in s.remembered ==>
           Later(c.stamp, s.remembered[c.key]))
  {
    if felt != [] {
      ScanMovesForward(s, floor, felt[..|felt| - 1]);
    }
  }

  lemma StaysAccounted(s: State, felt: seq<Emotion>, c: Emotion)
    requires AtBoundary(s) && KeepsUp(s, felt) && Accounted(s, c)
    ensures Accounted(Advance(s, felt), c)
  {
    ScanMovesForward(Scan([], s.remembered), Floor(s.cursor, Largest(felt)), felt);
    if s.cursor.year < 0 {
      assert IsResidue(s.remembered[c.key]);
    }
  }

  lemma ReportedIsAccounted(s: State, felt: seq<Emotion>, c: Emotion)
    requires AtBoundary(s) && c in ScanCall(s, felt).candidates
    ensures Accounted(Advance(s, felt), c)
  {
    ScanFromFacts(Scan([], s.remembered), Floor(s.cursor, Largest(felt)), felt);
    assert c in felt && !Later(c.stamp, Largest(felt));
  }

  lemma AccountedIsNoNews(s: State, felt: seq<Emotion>, older: Emotion, c: Emotion)
    requires AtBoundary(s) && Accounted(s, older) && c in ScanCall(s, felt).candidates
    ensures !SameNews(older, c)
  {
    ScanFromFacts(Scan([], s.remembered), Floor(s.cursor, Largest(felt)), felt);
    ScanMovesForward(Scan([], s.remembered), Floor(s.cursor, Largest(felt)), felt);
  }

  /**
   Without a reset, and while no call moves the cursor back, nothing is reported
   twice over any number of calls, whatever years they see.
   */
  lemma {:induction false} NothingIsReportedTwice(s: State, calls: seq<seq<Emotion>>)
    requires AtBoundary(s) && AllKeepUp(s, calls)
    ensures AtBoundary(Calls(s, calls).0) && NoRepeats(Calls(s, calls).1)
    ensures forall c :: c in Calls(s, calls).1 ==> Accounted(Calls(s, calls).0, c)
  {
    if calls != [] {
      var n := |calls| - 1;
      assert forall i :: 0 <= i < n ==> calls[..n][..i] == calls[..i];
      assert AllKeepUp(s, calls[..n]);
      NothingIsReportedTwice(s, calls[..n]);
      var (before, news) := Calls(s, calls[..n]);
      assert KeepsUp(before, calls[n]);
      OneMoreIsNoRepeat(before, news, calls[n]);
    }
  }

  lemma OneMoreIsNoRepeat(s: State, news: seq<Emotion>, felt: seq<Emotion>)
    requires AtBoundary(s) && KeepsUp(s, felt) && NoRepeats(news) && forall c :: c in news ==> Accounted(s, c)
    ensures AtBoundary(Advance(s, felt)) && NoRepeats(news + ScanCall(s, felt).candidates)
    ensures forall c :: c in news + ScanCall(s, felt).candidates ==> Accounted(Advance(s, felt), c)
  {
    var newer := ScanCall(s, felt).candidates;
    RememberedIsEmptyExactly(s, felt);
    OneCallHasNoRepeats(Scan([], s.remembered), Floor(s.cursor, Largest(felt)), felt);
    forall c | c in news ensures Accounted(Advance(s, felt), c) {
      StaysAccounted(s, felt, c);
    }
    forall c | c in newer ensures Accounted(Advance(s, felt), c) {
      ReportedIsAccounted(s, felt, c);
    }
    forall a, b | a in news && b in newer ensures !SameNews(a, b) {
      AccountedIsNoNews(s, felt, a, b);
    }
    NewsAcross(news, newer);
  }

  lemma NewsAcross(older: seq<Emotion>, newer: seq<Emotion>)
    requires NoRepeats(older) && NoRepeats(newer)
    requires forall a, b :: a in older && b in newer ==> !SameNews(a, b)
    ensures NoRepeats(older + newer)
  {
    var news := older + newer;
    forall i, j | 0 <= i < j < |news| ensures !SameNews(news[i], news[j]) {
      if i < |older| <= j {
        assert news[i] in older && news[j] in newer;
      }
    }
  }

  lemma OneEmotion(cursor: Stamp, e: Emotion)
    requires cursor.year >= 0
    ensures ScanCall(State(cursor, map[]), [e]).candidates == if Later(e.stamp, cursor) then [e] else []
  {
    var empty := Scan([], map[]);
    assert [e][..0] == [] && ScanFrom(empty, cursor, []) == empty;
    assert ScanFrom(empty, cursor, [e]) ==
      if Later(e.stamp, cursor) then Scan([] + [e], map[e.key := e.stamp]) else empty;
  }

  /** `e` is in `felt`, with no feeling of its key at least as recent before it. */
  ghost predicate IsNewest(felt: seq<Emotion>, e: Emotion) {
    exists i :: 0 <= i < |felt| && felt[i] == e && NewerThanAll(felt[..i], e)
  }

  predicate NewerThanAll(felt: seq<Emotion>, e: Emotion) {
    forall c :: c in felt && c.key == e.key ==> Later(e.stamp, c.stamp)
  }

  /**
   What is fresh after a scan: past the floor and what was remembered, and newer than everything of its
   key scanned so far.
   */
  lemma FreshExactly(remembered: map<Key, Stamp>, floor: Stamp, felt: seq<Emotion>, e: Emotion)
    ensures IsFresh(floor, ScanFrom(Scan([], remembered), floor, felt).remembered, e) <==>
      Later(e.stamp, floor) && PastRemembered(remembered, e) && NewerThanAll(felt, e)
  {
    var scan := ScanFrom(Scan([], remembered), floor, felt);
    ScanFromFacts(Scan([], remembered), floor, felt);
    ScanMovesForward(Scan([], remembered), floor, felt);
    if IsFresh(floor, scan.remembered, e) {
      forall c | c in felt && c.key == e.key ensures Later(e.stamp, c.stamp) {
        if Later(c.stamp, floor) && PastRemembered(remembered, c) {
          NothingIsSkipped(remembered, floor, felt, c);
        }
      }
    }
  }

  /**
   Exactly the emotions past the floor and what is remembered that are newest of their key when their
   turn comes are reported.
   */
  lemma {:induction false} ReportedExactly(remembered: map<Key, Stamp>, floor: Stamp, felt: seq<Emotion>, e: Emotion)
    ensures e in ScanFrom(Scan([], remembered), floor, felt).candidates <==>
      Later(e.stamp, floor) && PastRemembered(remembered, e) && IsNewest(felt, e)
  {
    if felt != [] {
      var n := |felt| - 1;
      ReportedExactly(remembered, floor, felt[..n], e);
      FreshExactly(remembered, floor, felt[..n], felt[n]);
      NewestSoFar(felt, e);
    }
  }

  lemma NewestSoFar(felt: seq<Emotion>, e: Emotion)
    requires felt != []
    ensures var n := |felt| - 1;
      IsNewest(felt, e) <==> IsNewest(felt[..n], e) || (felt[n] == e && NewerThanAll(felt[..n], e))
  {
    var n := |felt| - 1;
    assert forall i :: 0 <= i <= n ==> felt[..n][..i] == felt[..i];
    if IsNewest(felt[..n], e) {
      var i :| 0 <= i < n && felt[..n][i] == e && NewerThanAll(felt[..n][..i], e);
      assert felt[i] == e && NewerThanAll(felt[..i], e);
    }
    if IsNewest(felt, e) {
      var i :| 0 <= i < |felt| && felt[i] == e && NewerThanAll(felt[..i], e);
      assert i < n ==> felt[..n][i] == e && NewerThanAll(felt[..n][..i], e);
    }
  }

  /**
   A stamp the cursor had already covered is reported again by a later call exactly when a call in
   between fell behind it and nothing of its key at least as recent comes before it in the later call.
   */
  lemma CoveredIsReportedAgainExactly(s: State, felt: seq<Emotion>, later: seq<Emotion>, e: Emotion)
    requires Quiet(s) && s.cursor.year >= 0 && !Later(e.stamp, s.cursor)
    ensures e in ScanCall(Advance(s, felt), later).candidates <==>
      Largest(felt).year >= 0 && Later(e.stamp, Largest(felt)) && IsNewest(later, e)
  {
    QuietStaysQuiet(s, felt);
    ReportedExactly(map[], Advance(s, felt).cursor, later, e);
  }

  lemma ThreeCalls(s0: State, s1: State, s2: State, first: seq<Emotion>, second: seq<Emotion>, third: seq<Emotion>)
    requires s1 == Advance(s0, first) && s2 == Advance(s1, second)
    ensures Calls(s0, [first, second, third]).1 ==
      ScanCall(s0, first).candidates + ScanCall(s1, second).candidates + ScanCall(s2, third).candidates
  {
    var news1, news2 := ScanCall(s0, first).candidates, ScanCall(s1, second).candidates;
    OneMoreCall(s0, s0, [], [], first);
    OneMoreCall(s0, s1, [] + news1, [first], second);
    OneMoreCall(s0, s2, [] + news1 + news2, [first, second], third);
    assert [] + [first] == [first] && [first] + [second] == [first, second]
      && [first, second] + [third] == [first, second, third];
    assert [] + news1 == news1;
  }

  lemma OneMoreCall(s: State, before: State, news: seq<Emotion>, calls: seq<seq<Emotion>>, felt: seq<Emotion>)
    requires Calls(s, calls) == (before, news)
    ensures Calls(s, calls + [felt]) == (Advance(before, felt), news + ScanCall(before, felt).candidates)
  {
    assert (calls + [felt])[..|calls|] == calls;
  }

  /** A citizen who leaves for one call and returns is reported twice. */
  lemma FallingBehindReportsTwice(key1: Key, key2: Key)
    requires key1 != key2
    ensures var early, late := Felt(key1, 100), Felt(key2, 200);
      !NoRepeats(Calls(State(UNSET, map[]), [[early, late], [early], [early, late]]).1)
  {
    var early, late := Felt(key1, 100), Felt(key2, 200);
    var s0, both, one := State(UNSET, map[]), [early, late], [early];
    var s1, s2 := State(Stamp(5, 200), map[]), State(Stamp(5, 100), map[]);
    FirstCall(key1, key2);
    LaterCalls(key1, key2);
    ThreeCalls(s0, s1, s2, both, one, both);
    var news := Calls(s0, [both, one, both]).1;
    assert news == both + [] + [late];
    assert SameNews(news[1], news[2]);
  }

  function Felt(key: Key, tick: int): Emotion { Emotion(key, Stamp(5, tick), 60, 0, false, false) }

  lemma FirstCall(key1: Key, key2: Key)
    requires key1 != key2
    ensures var s0, both := State(UNSET, map[]), [Felt(key1, 100), Felt(key2, 200)];
      ScanCall(s0, both).candidates == both && Advance(s0, both) == State(Stamp(5, 200), map[])
  {
    var early, late := Felt(key1, 100), Felt(key2, 200);
    var both, one := [early, late], [early];
    assert both[..1] == one && one[..0] == [];
    assert Largest(one) == Stamp(5, 100) && Largest(both) == Stamp(5, 200);
    assert ScanFrom(Scan([], map[]), Floor(UNSET, Stamp(5, 200)), one) == Scan([early], map[key1 := Stamp(5, 100)]);
    assert ScanFrom(Scan([], map[]), Floor(UNSET, Stamp(5, 200)), both).candidates == [early] + [late];
  }

  lemma LaterCalls(key1: Key, key2: Key)
    ensures var s1, s2 := State(Stamp(5, 200), map[]), State(Stamp(5, 100), map[]);
      var one, both := [Felt(key1, 100)], [Felt(key1, 100), Felt(key2, 200)];
      ScanCall(s1, one).candidates == [] && Advance(s1, one) == s2 && ScanCall(s2, both).candidates == [Felt(key2, 200)]
  {
    var early, late := Felt(key1, 100), Felt(key2, 200);
    var both, one := [early, late], [early];
    assert both[..1] == one && one[..0] == [];
    OneEmotion(Stamp(5, 200), early);
    assert Largest(one) == Stamp(5, 100);
    assert ScanFrom(Scan([], map[]), Stamp(5, 200), one) == Scan([], map[]);
    assert ScanFrom(Scan([], map[]), Stamp(5, 100), one) == Scan([], map[]);
    assert ScanFrom(Scan([], map[]), Stamp(5, 100), both).candidates == [] + [late];
  }
}
