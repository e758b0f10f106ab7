/**
 The combat-log ingest: a cursor over an append-only report log, continuation
 lines stitched onto their parents, and a rolling buffer of the last records.
 */
module CombatIngest {
  import opened Logs
  import opened Sequences

  const BUFFER_CAP := 400  // kCombatReportBufferCap

  /** df::report; `combat` is isCombatReportType of its type. */
  datatype Report = Report(id: int, continuation: bool, combat: bool, year: int, time: int,
                           x: int, y: int, z: int, kind: int, text: string)

  datatype Record = Record(id: int, year: int, time: int, x: int, y: int, z: int, kind: int, text: string,
                           unitIds: seq<int>)

  /** A unit's own report logs, oldest first. */
  datatype UnitLog = UnitLog(id: int, combat: seq<int>, sparring: seq<int>)

  // ---------------------------------------------------------------------
  // The roster: backward tail scans against whole-log filters
  // ---------------------------------------------------------------------

  /** The entries of a log beyond the cursor, oldest first. */
  function Beyond(log: seq<int>, cursor: int): seq<int> {
    if log == [] then [] else
      var front := Beyond(log[..|log| - 1], cursor);
      if log[|log| - 1] > cursor then front + [log[|log| - 1]] else front
  }

  /** The entries a scan from the end meets before the first one at or below the cursor, oldest first. */
  function Tail(log: seq<int>, cursor: int): seq<int> {
    if log == [] || log[|log| - 1] <= cursor then [] else Tail(log[..|log| - 1], cursor) + [log[|log| - 1]]
  }

  /** Nothing beyond the cursor lies under something at or below it. */
  predicate SplitAt(log: seq<int>, cursor: int) {
    forall i, j :: 0 <= i < j < |log| && log[j] <= cursor ==> log[i] <= cursor
  }

  lemma {:induction false} NothingBeyond(log: seq<int>, cursor: int)
    ensures Beyond(log, cursor) == [] <==> forall i :: 0 <= i < |log| ==> log[i] <= cursor
  {
    if log != [] {
      NothingBeyond(log[..|log| - 1], cursor);
    }
  }

  /** The tail scan equals filtering the whole log exactly when the log is split at the cursor. */
  lemma {:induction false} TailScanIsFilterExactly(log: seq<int>, cursor: int)
    ensures Tail(log, cursor) == Beyond(log, cursor) <==> SplitAt(log, cursor)
  {
    if log != [] {
      var n := |log| - 1;
      TailScanIsFilterExactly(log[..n], cursor);
      NothingBeyond(log[..n], cursor);
      if log[n] <= cursor {
        assert SplitAt(log, cursor) <==> forall i :: 0 <= i < n ==> log[i] <= cursor;
      } else {
        assert SplitAt(log, cursor) <==> SplitAt(log[..n], cursor);
        assert Tail(log, cursor)[..|Tail(log, cursor)| - 1] == Tail(log[..n], cursor);
        assert Beyond(log, cursor)[..|Beyond(log, cursor)| - 1] == Beyond(log[..n], cursor);
      }
    }
  }

  /** An append-ordered log is split at every cursor. */
  lemma AppendOrderedIsSplit(log: seq<int>, cursor: int)
    requires Ascending(log)
    ensures SplitAt(log, cursor)
  {
  }

  /** `unit` once per mention of `id` in its log. */
  function Mentions(log: seq<int>, id: int, unit: int): seq<int> {
    if log == [] then [] else
      var front := Mentions(log[..|log| - 1], id, unit);
      if log[|log| - 1] == id then front + [unit] else front
  }

  /** The units whose combat log mentions the report, in the order of the active list. */
  function Attending(units: seq<UnitLog>, id: int): seq<int> {
    if units == [] then [] else
      var u := units[|units| - 1];
      Attending(units[..|units| - 1], id) + Mentions(u.combat, id, u.id)
  }

  predicate IsSparring(units: seq<UnitLog>, id: int) {
    exists i :: 0 <= i < |units| && id in units[i].sparring
  }

  function Lookup(byReport: map<int, seq<int>>, id: int): seq<int> {
    if id in byReport then byReport[id] else []
  }

  /** The roster is `byReport0` with the mentions of `log` added. */
  ghost predicate Added(byReport0: map<int, seq<int>>, byReport: map<int, seq<int>>, log: seq<int>, unit: int) {
    forall id :: Lookup(byReport, id) == Lookup(byReport0, id) + Mentions(log, id, unit)
  }

  /** Where the scan from the end stops. */
  lemma {:induction false} TailIs(log: seq<int>, cursor: int, k: nat)
    requires k <= |log| && (k > 0 ==> log[k - 1] <= cursor) && AllBeyond(log[k..], cursor)
    ensures Tail(log, cursor) == log[k..]
  {
    if k < |log| {
      var n := |log| - 1;
      assert log[k..] == log[..n][k..] + [log[n]];
      assert log[k..][n - k] == log[n];
      TailIs(log[..n], cursor, k);
    }
  }

  /** One backward scan of a combat log into the roster. */
  method ScanCombat(byReport0: map<int, seq<int>>, u: UnitLog, cursor: int) returns (byReport: map<int, seq<int>>)
    ensures Added(byReport0, byReport, Tail(u.combat, cursor), u.id)
  {
    byReport := byReport0;
    var log, k := u.combat, |u.combat|;
    while k > 0 && log[k - 1] > cursor
      invariant 0 <= k <= |log| && AllBeyond(log[k..], cursor)
      invariant Added(byReport0, byReport, log[k..], u.id)
    {
      ScanStep(byReport0, byReport, log, k, cursor, u.id);
      k := k - 1;
      byReport := byReport[log[k] := Lookup(byReport, log[k]) + [u.id]];
    }
    TailIs(log, cursor, k);
  }

  lemma ScanStep(byReport0: map<int, seq<int>>, byReport: map<int, seq<int>>, log: seq<int>, k: nat, cursor: int,
                 unit: int)
    requires 0 < k <= |log| && log[k - 1] > cursor && AllBeyond(log[k..], cursor)
    requires Added(byReport0, byReport, log[k..], unit)
    ensures AllBeyond(log[k - 1..], cursor)
    ensures Added(byReport0, byReport[log[k - 1] := Lookup(byReport, log[k - 1]) + [unit]], log[k - 1..], unit)
  {
    OneMore(log, k, cursor);
    MentionFromTheBack(byReport0, byReport, log[k - 1], log[k..], unit);
  }

  predicate AllBeyond(met: seq<int>, cursor: int) {
    forall i :: 0 <= i < |met| ==> met[i] > cursor
  }

  lemma OneMore(log: seq<int>, k: nat, cursor: int)
    requires 0 < k <= |log| && AllBeyond(log[k..], cursor)
    ensures log[k - 1..] == [log[k - 1]] + log[k..]
    ensures log[k - 1] > cursor ==> AllBeyond(log[k - 1..], cursor)
  {
  }

  lemma MentionFromTheBack(byReport0: map<int, seq<int>>, byReport: map<int, seq<int>>, x: int, met: seq<int>,
                           unit: int)
    requires Added(byReport0, byReport, met, unit)
    ensures Added(byReport0, byReport[x := Lookup(byReport, x) + [unit]], [x] + met, unit)
  {
    forall id
      ensures Lookup(byReport[x := Lookup(byReport, x) + [unit]], id) ==
        Lookup(byReport0, id) + Mentions([x] + met, id, unit)
    {
      MentionsFront(x, met, id, unit);
      AddedAt(byReport0, byReport, x, Mentions(met, id, unit), unit, id);
    }
  }

  lemma AddedAt(byReport0: map<int, seq<int>>, byReport: map<int, seq<int>>, x: int, before: seq<int>, unit: int,
                id: int)
    requires Lookup(byReport, id) == Lookup(byReport0, id) + before
    ensures Lookup(byReport[x := Lookup(byReport, x) + [unit]], id) ==
      Lookup(byReport0, id) + if id == x then before + [unit] else before
  {
  }

  lemma {:induction false} NoMentions(log: seq<int>, id: int, unit: int)
    requires id !in log
    ensures Mentions(log, id, unit) == []
  {
    if log != [] {
      NoMentions(log[..|log| - 1], id, unit);
    }
  }

  lemma {:induction false} MentionsAreEqual(log: seq<int>, id: int, unit: int)
    ensures forall i :: 0 <= i < |Mentions(log, id, unit)| ==> Mentions(log, id, unit)[i] == unit
  {
    if log != [] {
      MentionsAreEqual(log[..|log| - 1], id, unit);
    }
  }

  lemma {:induction false} MentionsConcat(a: seq<int>, b: seq<int>, id: int, unit: int)
    ensures Mentions(a + b, id, unit) == Mentions(a, id, unit) + Mentions(b, id, unit)
  {
    if b == [] {
      assert a + b == a;
    } else {
      assert (a + b)[..|a + b| - 1] == a + b[..|b| - 1];
      MentionsConcat(a, b[..|b| - 1], id, unit);
    }
  }

  /** Meeting one more entry from the back adds one equal mention, so the order of the scan does not show. */
  lemma MentionsFront(x: int, met: seq<int>, id: int, unit: int)
    ensures Mentions([x] + met, id, unit) ==
      if id == x then Mentions(met, id, unit) + [unit] else Mentions(met, id, unit)
  {
    MentionsConcat([x], met, id, unit);
    MentionsAreEqual(met, id, unit);
    assert [x][..0] == [];
  }

  method ScanSparring(ids0: set<int>, u: UnitLog, cursor: int) returns (ids: set<int>)
    ensures forall id :: id in ids <==> id in ids0 || id in Tail(u.sparring, cursor)
  {
    ids := ids0;
    var k := |u.sparring|;
    while k > 0 && u.sparring[k - 1] > cursor
      invariant 0 <= k <= |u.sparring| && AllBeyond(u.sparring[k..], cursor)
      invariant forall id :: id in ids <==> id in ids0 || id in u.sparring[k..]
    {
      OneMore(u.sparring, k, cursor);
      ids := ids + {u.sparring[k - 1]};
      k := k - 1;
    }
    TailIs(u.sparring, cursor, k);
  }

  /** The unit logs as far back as the scans look. */
  function Tails(units: seq<UnitLog>, cursor: int): (tails: seq<UnitLog>)
    ensures |tails| == |units|
    ensures forall i :: 0 <= i < |units| ==>
      tails[i] == UnitLog(units[i].id, Tail(units[i].combat, cursor), Tail(units[i].sparring, cursor))
  {
    seq(|units|, i requires 0 <= i < |units| =>
      UnitLog(units[i].id, Tail(units[i].combat, cursor), Tail(units[i].sparring, cursor)))
  }

  /** build_combat_roster: for each report id, who mentions it within the reach of the scans. */
  method BuildCombatRoster(units: seq<UnitLog>, cursor: int) returns (byReport: map<int, seq<int>>, sparring: set<int>)
    ensures forall id :: Lookup(byReport, id) == Attending(Tails(units, cursor), id)
    ensures forall id :: id in sparring <==> IsSparring(Tails(units, cursor), id)
  {
    byReport, sparring := map[], {};
    ghost var tails := Tails(units, cursor);
    for i := 0 to |units|
      invariant forall id :: Lookup(byReport, id) == Attending(tails[..i], id)
      invariant forall id :: id in sparring <==> IsSparring(tails[..i], id)
    {
      OneMoreUnit(tails, i);
      byReport := ScanCombat(byReport, units[i], cursor);
      sparring := ScanSparring(sparring, units[i], cursor);
    }
    assert tails[..|units|] == tails;
  }

  /** Every log is split at the cursor, as append-ordered logs are. */
  ghost predicate AllSplitAt(units: seq<UnitLog>, cursor: int) {
    forall i :: 0 <= i < |units| ==> SplitAt(units[i].combat, cursor) && SplitAt(units[i].sparring, cursor)
  }

  /**
   Over split logs the reach of the scans does not show: beyond the cursor it is as if every log were
   read in full.
   */
  lemma {:induction false} TailRosterIsFull(units: seq<UnitLog>, cursor: int, id: int)
    requires AllSplitAt(units, cursor) && id > cursor
    ensures Attending(Tails(units, cursor), id) == Attending(units, id)
    ensures IsSparring(Tails(units, cursor), id) <==> IsSparring(units, id)
  {
    if units != [] {
      var n := |units| - 1;
      var u := units[n];
      assert Tails(units, cursor)[..n] == Tails(units[..n], cursor);
      TailRosterIsFull(units[..n], cursor, id);
      OneMoreUnit(units, n);
      OneMoreUnit(Tails(units, cursor), n);
      assert units[..n + 1] == units && Tails(units, cursor)[..n + 1] == Tails(units, cursor);
      TailMentions(u.combat, cursor, id, u.id);
      TailMentions(u.sparring, cursor, id, u.id);
    }
  }

  lemma {:induction false} TailMentions(log: seq<int>, cursor: int, id: int, unit: int)
    requires SplitAt(log, cursor) && id > cursor
    ensures Mentions(Tail(log, cursor), id, unit) == Mentions(log, id, unit)
    ensures id in Tail(log, cursor) <==> id in log
  {
    if log != [] {
      var n := |log| - 1;
      if log[n] > cursor {
        TailMentions(log[..n], cursor, id, unit);
        SplitLast(log);
        MentionsLast(log[..n], log[n], id, unit);
        MentionsLast(Tail(log[..n], cursor), log[n], id, unit);
      } else {
        OldUnderOld(log, cursor, id);
        NoMentions(log, id, unit);
      }
    }
  }

  lemma MentionsLast(front: seq<int>, x: int, id: int, unit: int)
    ensures Mentions(front + [x], id, unit) == Mentions(front, id, unit) + if x == id then [unit] else []
  {
    assert (front + [x])[..|front|] == front;
  }

  lemma OldUnderOld(log: seq<int>, cursor: int, id: int)
    requires log != [] && SplitAt(log, cursor) && log[|log| - 1] <= cursor < id
    ensures id !in log
  {
    forall i | 0 <= i < |log| - 1 ensures log[i] <= cursor {
      var n := |log| - 1;
      assert log[n] <= cursor;
    }
  }

  lemma OneMoreUnit(units: seq<UnitLog>, i: nat)
    requires i < |units|
    ensures forall id ::
      Attending(units[..i + 1], id) == Attending(units[..i], id) + Mentions(units[i].combat, id, units[i].id)
    ensures forall id :: IsSparring(units[..i + 1], id) <==> IsSparring(units[..i], id) || id in units[i].sparring
  {
    assert units[..i + 1][..i] == units[..i];
    forall id ensures IsSparring(units[..i + 1], id) <==> IsSparring(units[..i], id) || id in units[i].sparring {
      if id in units[i].sparring {
        assert units[..i + 1][i] == units[i];
      }
      if IsSparring(units[..i], id) {
        var j :| 0 <= j < i && id in units[..i][j].sparring;
        assert units[..i + 1][j] == units[..i][j];
      }
      if IsSparring(units[..i + 1], id) {
        var j :| 0 <= j < i + 1 && id in units[..i + 1][j].sparring;
        assert j < i ==> units[..i][j] == units[j];
      }
    }
  }

  // ---------------------------------------------------------------------
  // Stitching
  // ---------------------------------------------------------------------

  /** The records one pass has built so far, and whether it is inside a run it does not keep. */
  datatype Stitched = Stitched(records: seq<Record>, skipRun: bool)

  const NOTHING := Stitched([], false)

  function RecordOf(units: seq<UnitLog>, r: Report): Record {
    Record(r.id, r.year, r.time, r.x, r.y, r.z, r.kind, r.text, Attending(units, r.id))
  }

  predicate IsKept(units: seq<UnitLog>, r: Report) { r.combat && !IsSparring(units, r.id) }

  /** Appends text to the last record. */
  function Extended(records: seq<Record>, text: string): seq<Record> {
    if records == [] then records
    else records[|records| - 1 := records[|records| - 1].(text := records[|records| - 1].text + text)]
  }

  ghost function StitchLine(units: seq<UnitLog>, s: Stitched, r: Report): Stitched {
    if r.continuation then if s.skipRun then s else s.(records := Extended(s.records, r.text))
    else if !IsKept(units, r) then s.(skipRun := true)
    else Stitched(s.records + [RecordOf(units, r)], false)
  }

  ghost function Stitch(units: seq<UnitLog>, s: Stitched, lines: seq<Report>): Stitched {
    if lines == [] then s else StitchLine(units, Stitch(units, s, lines[..|lines| - 1]), lines[|lines| - 1])
  }

  lemma {:induction false} StitchConcat(units: seq<UnitLog>, s: Stitched, a: seq<Report>, b: seq<Report>)
    ensures Stitch(units, s, a + b) == Stitch(units, Stitch(units, s, a), b)
  {
    if b == [] {
      assert a + b == a;
    } else {
      assert (a + b)[..|a + b| - 1] == a + b[..|b| - 1];
      StitchConcat(units, s, a, b[..|b| - 1]);
    }
  }

  predicate HasHead(lines: seq<Report>) { exists i :: 0 <= i < |lines| && !lines[i].continuation }

  /** The text of the continuation lines before the first line of its own. */
  function LeadText(lines: seq<Report>): string {
    if lines == [] then []
    else
      var front := lines[..|lines| - 1];
      if HasHead(front) || !lines[|lines| - 1].continuation then LeadText(front)
      else LeadText(front) + lines[|lines| - 1].text
  }

  /** A kept record is waiting for its continuation lines. */
  predicate IsOpen(s: Stitched) { !s.skipRun && s.records != [] }

  function Lead(s: Stitched, text: string): seq<Record> {
    if IsOpen(s) then Extended(s.records, text) else s.records
  }

  lemma ExtendedTwice(records: seq<Record>, a: string, b: string)
    ensures Extended(Extended(records, a), b) == Extended(records, a + b)
  {
    if records != [] {
      var r := records[|records| - 1];
      assert r.text + a + b == r.text + (a + b);
    }
  }

  lemma ExtendedConcat(a: seq<Record>, b: seq<Record>, text: string)
    requires b != []
    ensures Extended(a + b, text) == a + Extended(b, text)
  {
  }

  /** A pass over `lines` alone, set beside the same lines continued from `s`: only the leading text can differ. */
  lemma {:induction false} StitchFrom(units: seq<UnitLog>, s: Stitched, lines: seq<Report>)
    ensures var alone, whole := Stitch(units, NOTHING, lines), Stitch(units, s, lines);
      && whole.records == Lead(s, LeadText(lines)) + alone.records
      && (if HasHead(lines) then whole.skipRun == alone.skipRun && (alone.skipRun || alone.records != [])
          else whole.skipRun == s.skipRun && alone == NOTHING)
  {
    if lines == [] {
      assert LeadText(lines) == [];
      ExtendedByNothing(s.records);
    } else {
      var n := |lines| - 1;
      var front, r := lines[..n], lines[n];
      StitchFrom(units, s, front);
      assert HasHead(lines) <==> HasHead(front) || !r.continuation by {
        if HasHead(front) {
          var i :| 0 <= i < n && !front[i].continuation;
          assert !lines[i].continuation;
        }
        if HasHead(lines) {
          var i :| 0 <= i <= n && !lines[i].continuation;
          assert i < n ==> !front[i].continuation;
        }
      }
      StitchFromStep(units, s, front, r);
    }
  }

  lemma ExtendedByNothing(records: seq<Record>)
    ensures Extended(records, []) == records
  {
    if records != [] {
      var r := records[|records| - 1];
      assert r.text + [] == r.text;
      assert r.(text := r.text + []) == r;
    }
  }

  lemma StitchFromStep(units: seq<UnitLog>, s: Stitched, front: seq<Report>, r: Report)
    requires var alone, whole := Stitch(units, NOTHING, front), Stitch(units, s, front);
      && whole.records == Lead(s, LeadText(front)) + alone.records
      && (if HasHead(front) then whole.skipRun == alone.skipRun && (alone.skipRun || alone.records != [])
          else whole.skipRun == s.skipRun && alone == NOTHING)
    ensures var alone := StitchLine(units, Stitch(units, NOTHING, front), r);
      var whole := StitchLine(units, Stitch(units, s, front), r);
      var text := if HasHead(front) || !r.continuation then LeadText(front) else LeadText(front) + r.text;
      && whole.records == Lead(s, text) + alone.records
      && (if HasHead(front) || !r.continuation
          then whole.skipRun == alone.skipRun && (alone.skipRun || alone.records != [])
          else whole.skipRun == s.skipRun && alone == NOTHING)
  {
    var alone, whole := Stitch(units, NOTHING, front), Stitch(units, s, front);
    if r.continuation {
      if HasHead(front) {
        if !alone.skipRun {
          ExtendedConcat(Lead(s, LeadText(front)), alone.records, r.text);
        }
      } else {
        ExtendedTwice(s.records, LeadText(front), r.text);
      }
    }
  }

  /** The two rosters say the same of every line. */
  ghost predicate SameRoster(a: seq<UnitLog>, b: seq<UnitLog>, lines: seq<Report>) {
    forall r :: r in lines ==>
      Attending(a, r.id) == Attending(b, r.id) && (IsSparring(a, r.id) <==> IsSparring(b, r.id))
  }

  lemma {:induction false} StitchSame(a: seq<UnitLog>, b: seq<UnitLog>, s: Stitched, lines: seq<Report>)
    requires SameRoster(a, b, lines)
    ensures Stitch(a, s, lines) == Stitch(b, s, lines)
  {
    if lines != [] {
      var front, r := lines[..|lines| - 1], lines[|lines| - 1];
      StitchSame(a, b, s, front);
      assert r in lines;
    }
  }

  /**
   Two passes, each with the roster of its time, keep the same records as one with the later
   roster exactly when the second pass has no leading continuation text, or the first left no
   record open to receive it.
   */
  lemma SplitPassExactly(early: seq<UnitLog>, late: seq<UnitLog>, a: seq<Report>, b: seq<Report>)
    requires SameRoster(early, late, a)
    ensures Stitch(late, NOTHING, a + b).records == Stitch(early, NOTHING, a).records + Stitch(late, NOTHING, b).records
      <==> LeadText(b) == [] || !IsOpen(Stitch(early, NOTHING, a))
  {
    StitchSame(early, late, NOTHING, a);
    var first := Stitch(late, NOTHING, a);
    StitchConcat(late, NOTHING, a, b);
    StitchFrom(late, first, b);
    ExtendedByNothing(first.records);
    if IsOpen(first) && LeadText(b) != [] {
      var n := |first.records| - 1;
      var whole, parts := Stitch(late, NOTHING, a + b).records, first.records + Stitch(late, NOTHING, b).records;
      assert |whole[n].text| == |first.records[n].text| + |LeadText(b)|;
      assert parts[n] == first.records[n];
    }
  }

  lemma {:induction false} NoLeadText(lines: seq<Report>)
    requires lines == [] || !lines[0].continuation
    ensures LeadText(lines) == []
  {
    if lines != [] {
      var front := lines[..|lines| - 1];
      NoLeadText(front);
      if |lines| > 1 {
        assert !front[0].continuation;
      }
    }
  }

  // ---------------------------------------------------------------------
  // The pass
  // ---------------------------------------------------------------------

  datatype State = State(cursor: int, buffer: seq<Record>)

  function ReportId(r: Report): int { r.id }

  predicate IsLog(reports: seq<Report>) { Rising(reports, ReportId) }

  function LastOf<T>(s: seq<T>, cap: nat): seq<T> { if |s| > cap then s[|s| - cap..] else s }

  /** ingest_combat_reports, as a function of what it finds. */
  ghost function Ingest(s: State, reports: seq<Report>, units: seq<UnitLog>): State {
    var lines := Unread(reports, ReportId, s.cursor);
    if lines == [] then s
    else State(lines[|lines| - 1].id,
               LastOf(s.buffer + Stitch(Tails(units, s.cursor), NOTHING, lines).records, BUFFER_CAP))
  }

  /** The record-building loop over the reports beyond the cursor. */
  method BuildRecords(lines: seq<Report>, cursor: int, units: seq<UnitLog>) returns (newRecords: seq<Record>)
    ensures newRecords == Stitch(Tails(units, cursor), NOTHING, lines).records
  {
    var byReport, sparring := BuildCombatRoster(units, cursor);
    newRecords := [];
    var skipRun := false;
    for i := 0 to |lines|
      invariant Stitched(newRecords, skipRun) == Stitch(Tails(units, cursor), NOTHING, lines[..i])
    {
      var r := lines[i];
      assert lines[..i + 1][..i] == lines[..i];
      if r.continuation {
        if !skipRun && newRecords != [] {
          var last := newRecords[|newRecords| - 1];
          newRecords := newRecords[|newRecords| - 1 := last.(text := last.text + r.text)];
        }
      } else if !r.combat {
        skipRun := true;
      } else if r.id in sparring {
        skipRun := true;
      } else {
        skipRun := false;
        newRecords := newRecords +
          [Record(r.id, r.year, r.time, r.x, r.y, r.z, r.kind, r.text, Lookup(byReport, r.id))];
      }
    }
    assert lines[..|lines|] == lines;
  }

  class CombatLog {
    var cursor: int
    var buffer: seq<Record>

    constructor ()
      ensures cursor == -1 && buffer == []
    {
      cursor, buffer := -1, [];
    }

    /** ingest_combat_reports; the binary search may land anywhere at or before the first new report. */
    method IngestCombatReports(reports: seq<Report>, units: seq<UnitLog>)
      requires IsLog(reports)
      modifies this
      ensures State(cursor, buffer) == Ingest(State(old(cursor), old(buffer)), reports, units)
    {
      if reports == [] {
        return;
      }
      var idx := SkipOld(reports);
      if idx >= |reports| {
        return;
      }
      var lines := reports[idx..];
      var newRecords := BuildRecords(lines, cursor, units);
      cursor := lines[|lines| - 1].id;
      buffer := buffer + newRecords;
      TrimBuffer();
    }

    /** The oldest records leave while there are too many. */
    method TrimBuffer()
      modifies this`buffer
      ensures buffer == LastOf(old(buffer), BUFFER_CAP)
    {
      while |buffer| > BUFFER_CAP
        invariant LastOf(buffer, BUFFER_CAP) == LastOf(old(buffer), BUFFER_CAP)
        decreases |buffer|
      {
        buffer := buffer[1..];
      }
    }

    /** The walk from wherever the binary search landed to the first new report. */
    method SkipOld(reports: seq<Report>) returns (idx: nat)
      requires IsLog(reports)
      ensures idx == FirstNew(reports, ReportId, cursor)
    {
      ghost var first := FirstNew(reports, ReportId, cursor);
      idx :| idx <= FirstNew(reports, ReportId, cursor);
      while idx < |reports| && reports[idx].id <= cursor
        invariant idx <= first
      {
        idx := idx + 1;
      }
    }
  }

  // ---------------------------------------------------------------------
  // Any number of passes
  // ---------------------------------------------------------------------

  lemma LastOfTwice<T>(a: seq<T>, b: seq<T>, cap: nat)
    ensures LastOf(LastOf(a, cap) + b, cap) == LastOf(a + b, cap)
  {
  }

  /** The state after reading `lines`, all of them new, with the attendance `roster`. */
  ghost function After(s: State, roster: seq<UnitLog>, lines: seq<Report>): State
    requires lines != []
  {
    State(lines[|lines| - 1].id, LastOf(s.buffer + Stitch(roster, NOTHING, lines).records, BUFFER_CAP))
  }

  lemma AfterTwice(s: State, early: seq<UnitLog>, late: seq<UnitLog>, a: seq<Report>, b: seq<Report>)
    requires a != [] && b != [] && !b[0].continuation && SameRoster(early, late, a)
    ensures After(After(s, early, a), late, b) == After(s, late, a + b)
  {
    NoLeadText(b);
    SplitPassExactly(early, late, a, b);
    Rebuffered(s.buffer, Stitch(early, NOTHING, a).records, Stitch(late, NOTHING, b).records);
  }

  lemma Rebuffered(buffer: seq<Record>, first: seq<Record>, second: seq<Record>)
    ensures LastOf(LastOf(buffer + first, BUFFER_CAP) + second, BUFFER_CAP) ==
      LastOf(buffer + (first + second), BUFFER_CAP)
  {
    LastOfTwice(buffer + first, second, BUFFER_CAP);
    assert buffer + (first + second) == buffer + first + second;
  }

  /** The logs of every unit are append-ordered. */
  ghost predicate InOrder(units: seq<UnitLog>) {
    forall k :: 0 <= k < |units| ==> Ascending(units[k].combat) && Ascending(units[k].sparring)
  }

  lemma OrderedIsSplit(units: seq<UnitLog>, cursor: int)
    requires InOrder(units)
    ensures AllSplitAt(units, cursor)
  {
    forall i | 0 <= i < |units| ensures SplitAt(units[i].combat, cursor) && SplitAt(units[i].sparring, cursor) {
      AppendOrderedIsSplit(units[i].combat, cursor);
      AppendOrderedIsSplit(units[i].sparring, cursor);
    }
  }

  /** Over new lines, the scans' roster is the roster of the full logs. */
  lemma ReachDoesNotShow(units: seq<UnitLog>, cursor: int, lines: seq<Report>)
    requires InOrder(units) && forall r :: r in lines ==> r.id > cursor
    ensures SameRoster(Tails(units, cursor), units, lines)
  {
    OrderedIsSplit(units, cursor);
    forall r | r in lines
      ensures Attending(Tails(units, cursor), r.id) == Attending(units, r.id)
      ensures IsSparring(Tails(units, cursor), r.id) <==> IsSparring(units, r.id)
    {
      TailRosterIsFull(units, cursor, r.id);
    }
  }

  /** A pass, with its lines named and its roster read in full. */
  lemma IngestIsAfter(s: State, reports: seq<Report>, units: seq<UnitLog>, lines: seq<Report>)
    requires IsLog(reports) && InOrder(units) && lines == Unread(reports, ReportId, s.cursor)
    ensures Ingest(s, reports, units) == if lines == [] then s else After(s, units, lines)
  {
    UnreadIsNew(reports, ReportId, s.cursor);
    assert forall r :: r in lines ==> ReportId(r) > s.cursor;
    ReachDoesNotShow(units, s.cursor, lines);
    StitchSame(Tails(units, s.cursor), units, NOTHING, lines);
  }

  /**
   A pass over a prefix of the log, then one over all of it with the roster of its own time, equals a
   single late pass.
   */
  lemma TwoPassesEqualOne(s: State, reports: seq<Report>, k: nat, early: seq<UnitLog>, late: seq<UnitLog>)
    requires IsLog(reports) && k <= |reports| && InOrder(early) && InOrder(late)
    requires SameRoster(early, late, Unread(reports[..k], ReportId, s.cursor))
    requires k < |reports| ==> !reports[k].continuation
    ensures Ingest(Ingest(s, reports[..k], early), reports, late) == Ingest(s, reports, late)
  {
    var a := Unread(reports[..k], ReportId, s.cursor);
    PrefixIsRead(reports, ReportId, s.cursor, k);
    if a != [] {
      IngestIsAfter(s, reports[..k], early, a);
      IngestTheRest(s, reports, early, late, a, reports[k..]);
    }
  }

  lemma IngestTheRest(s: State, reports: seq<Report>, early: seq<UnitLog>, late: seq<UnitLog>, a: seq<Report>,
                      b: seq<Report>)
    requires IsLog(reports) && InOrder(late) && a != [] && (b != [] ==> !b[0].continuation) &&
      SameRoster(early, late, a)
    requires Unread(reports, ReportId, s.cursor) == a + b && Unread(reports, ReportId, a[|a| - 1].id) == b
    ensures Ingest(After(s, early, a), reports, late) == Ingest(s, reports, late)
  {
    IngestIsAfter(After(s, early, a), reports, late, b);
    IngestIsAfter(s, reports, late, a + b);
    if b == [] {
      assert a + b == a;
      StitchSame(early, late, NOTHING, a);
    } else {
      AfterTwice(s, early, late, a, b);
    }
  }

  /** One pass after another, each over a longer prefix and with the unit logs of its own time. */
  ghost function IngestPasses(s: State, reports: seq<Report>, cuts: seq<nat>, rosters: seq<seq<UnitLog>>): State
    requires |cuts| == |rosters| && forall i :: 0 <= i < |cuts| ==> cuts[i] <= |reports|
  {
    if cuts == [] then s
    else
      var n := |cuts| - 1;
      Ingest(IngestPasses(s, reports, cuts[..n], rosters[..n]), reports[..cuts[n]], rosters[n])
  }

  /** The log seen by each pass is a longer prefix, and no later pass begins with a continuation line. */
  predicate CleanCuts(reports: seq<Report>, cuts: seq<nat>) {
    && (forall i :: 0 <= i < |cuts| ==>
         cuts[i] <= |reports| && (cuts[i] < |reports| ==> !reports[cuts[i]].continuation))
    && (forall i, j :: 0 <= i < j < |cuts| ==> cuts[i] <= cuts[j])
  }

  /** The lines that pass `i` reads. */
  ghost function LinesOf(s: State, reports: seq<Report>, cuts: seq<nat>, rosters: seq<seq<UnitLog>>,
                         i: nat): seq<Report>
    requires i < |cuts| == |rosters| && forall i :: 0 <= i < |cuts| ==> cuts[i] <= |reports|
  {
    Unread(reports[..cuts[i]], ReportId, IngestPasses(s, reports, cuts[..i], rosters[..i]).cursor)
  }

  /** Unit logs are append-ordered, and each pass knew of the lines it read what the last roster still says of them. */
  ghost predicate Remembered(s: State, reports: seq<Report>, cuts: seq<nat>, rosters: seq<seq<UnitLog>>,
                             last: seq<UnitLog>)
    requires |cuts| == |rosters| && forall i :: 0 <= i < |cuts| ==> cuts[i] <= |reports|
  {
    forall i :: 0 <= i < |cuts| ==>
      InOrder(rosters[i]) && SameRoster(rosters[i], last, LinesOf(s, reports, cuts, rosters, i))
  }

  /**
   Any number of passes, while the unit logs grow, gives the same cursor and the same rolling buffer as
   one at the end.
   */
  lemma PassesEqualOne(s: State, reports: seq<Report>, cuts: seq<nat>, rosters: seq<seq<UnitLog>>)
    requires IsLog(reports) && cuts != [] && CleanCuts(reports, cuts) && |cuts| == |rosters|
    requires Remembered(s, reports, cuts, rosters, rosters[|rosters| - 1])
    ensures IngestPasses(s, reports, cuts, rosters) == Ingest(s, reports[..cuts[|cuts| - 1]], rosters[|cuts| - 1])
  {
    assert InOrder(rosters[|rosters| - 1]);
    PassesEqualLateOne(s, reports, cuts, rosters, rosters[|rosters| - 1]);
  }

  lemma {:induction false} PassesEqualLateOne(s: State, reports: seq<Report>, cuts: seq<nat>,
                                              rosters: seq<seq<UnitLog>>, last: seq<UnitLog>)
    requires IsLog(reports) && cuts != [] && CleanCuts(reports, cuts) && |cuts| == |rosters| && InOrder(last)
    requires Remembered(s, reports, cuts, rosters, last)
    ensures IngestPasses(s, reports, cuts, rosters) == Ingest(s, reports[..cuts[|cuts| - 1]], last)
  {
    var n := |cuts| - 1;
    LastPassIsLate(s, reports, cuts, rosters, last);
    if n > 0 {
      RememberedEarlier(s, reports, cuts, rosters, last);
      PassesEqualLateOne(s, reports, cuts[..n], rosters[..n], last);
      LongerPass(s, reports, cuts[n - 1], cuts[n], last);
    }
  }

  lemma LastPassIsLate(s: State, reports: seq<Report>, cuts: seq<nat>, rosters: seq<seq<UnitLog>>, last: seq<UnitLog>)
    requires IsLog(reports) && cuts != [] && CleanCuts(reports, cuts) && |cuts| == |rosters| && InOrder(last)
    requires Remembered(s, reports, cuts, rosters, last)
    ensures var n := |cuts| - 1;
      IngestPasses(s, reports, cuts, rosters) ==
        Ingest(IngestPasses(s, reports, cuts[..n], rosters[..n]), reports[..cuts[n]], last)
  {
    var n := |cuts| - 1;
    assert InOrder(rosters[n]) && SameRoster(rosters[n], last, LinesOf(s, reports, cuts, rosters, n));
    SameLinesSamePass(IngestPasses(s, reports, cuts[..n], rosters[..n]), reports[..cuts[n]], rosters[n], last);
  }

  lemma LongerPass(s: State, reports: seq<Report>, k: nat, m: nat, units: seq<UnitLog>)
    requires IsLog(reports) && k <= m <= |reports| && InOrder(units) && (k < |reports| ==> !reports[k].continuation)
    ensures Ingest(Ingest(s, reports[..k], units), reports[..m], units) == Ingest(s, reports[..m], units)
  {
    assert reports[..m][..k] == reports[..k];
    TwoPassesEqualOne(s, reports[..m], k, units, units);
  }

  /** A pass looks at its roster only for the lines it reads. */
  lemma SameLinesSamePass(s: State, reports: seq<Report>, a: seq<UnitLog>, b: seq<UnitLog>)
    requires IsLog(reports) && InOrder(a) && InOrder(b) && SameRoster(a, b, Unread(reports, ReportId, s.cursor))
    ensures Ingest(s, reports, a) == Ingest(s, reports, b)
  {
    var lines := Unread(reports, ReportId, s.cursor);
    IngestIsAfter(s, reports, a, lines);
    IngestIsAfter(s, reports, b, lines);
    StitchSame(a, b, NOTHING, lines);
  }

  lemma RememberedEarlier(s: State, reports: seq<Report>, cuts: seq<nat>, rosters: seq<seq<UnitLog>>,
                          last: seq<UnitLog>)
    requires |cuts| == |rosters| > 0 && CleanCuts(reports, cuts) && Remembered(s, reports, cuts, rosters, last)
    ensures var n := |cuts| - 1; Remembered(s, reports, cuts[..n], rosters[..n], last)
  {
    var n := |cuts| - 1;
    forall i | 0 <= i < n
      ensures InOrder(rosters[..n][i]) &&
        SameRoster(rosters[..n][i], last, LinesOf(s, reports, cuts[..n], rosters[..n], i))
    {
      assert InOrder(rosters[i]) && SameRoster(rosters[i], last, LinesOf(s, reports, cuts, rosters, i));
      assert cuts[..n][..i] == cuts[..i] && rosters[..n][..i] == rosters[..i];
    }
  }
}
