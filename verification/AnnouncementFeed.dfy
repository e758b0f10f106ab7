/**
 The announcement delivery protocol: an id cursor for new reports, a map of the
 repeat counts last sent, a tail window for bumps, and a cap per message.
 */
module AnnouncementFeed {
  import opened Bytes
  import opened Logs
  import opened Sequences

  const TAIL_WINDOW := 200
  const MAX_PER_MSG := 64

  /** df::report, with the severity that classify_severity gives its type. */
  datatype Report = Report(id: Int32, kind: UInt16, severity: Byte, x: Int16, y: Int16, z: Int16,
                           year: Int32, time: Int32, text: seq<Byte>, repeatCount: UInt32)

  datatype Feed = Feed(cursor: Int32, sent: map<Int32, UInt32>)

  const NO_FEED := Feed(-1, map[])

  /** Reports are appended with growing ids and never removed. */
  ghost predicate IsLog(log: seq<Report>) {
    (forall i :: 0 <= i < |log| ==> log[i].id >= 0) && Rising(log, ReportId)
  }

  function ReportId(r: Report): int { r.id }

  function IsNew(cursor: int): Report -> bool { (r: Report) => r.id > cursor }

  function LastCount(sent: map<Int32, UInt32>, id: Int32): UInt32 { if id in sent then sent[id] else 0 }

  function IsBumped(f: Feed): Report -> bool {
    (r: Report) => r.id <= f.cursor && r.repeatCount > LastCount(f.sent, r.id)
  }

  function TailStart(log: seq<Report>): (start: nat)
    ensures start <= |log| && |log| - start <= TAIL_WINDOW
  {
    if |log| > TAIL_WINDOW then |log| - TAIL_WINDOW else 0
  }

  /** Everything one poll finds to send: new reports, then bumps near the tail. */
  function News(f: Feed, log: seq<Report>): seq<Report> {
    Unseen(f, log) + Bumps(f, log)
  }

  function Unseen(f: Feed, log: seq<Report>): seq<Report> { Filter(log, IsNew(f.cursor)) }

  function Bumps(f: Feed, log: seq<Report>): seq<Report> { Filter(log[TailStart(log)..], IsBumped(f)) }

  /** The repeat map without the entries that have left the tail window. */
  function Pruned(sent: map<Int32, UInt32>, log: seq<Report>): map<Int32, UInt32> {
    if log == [] then sent else map id | id in sent && id >= log[TailStart(log)].id :: sent[id]
  }

  function Capped(n: nat): nat { if n > MAX_PER_MSG then MAX_PER_MSG else n }

  function Highest(cursor: Int32, batch: seq<Report>): (h: Int32)
    ensures h >= cursor && forall r :: r in batch ==> r.id <= h
    ensures h == cursor || exists r :: r in batch && r.id == h
  {
    if batch == [] then cursor else
      var h := Highest(cursor, batch[..|batch| - 1]);
      if batch[|batch| - 1].id > h then batch[|batch| - 1].id else h
  }

  function Recorded(sent: map<Int32, UInt32>, batch: seq<Report>): (m: map<Int32, UInt32>)
    ensures forall id :: id in m <==> id in sent || exists r :: r in batch && r.id == id
    ensures forall id :: id in sent && (forall r :: r in batch ==> r.id != id) ==> m[id] == sent[id]
  {
    if batch == [] then sent else
      Recorded(sent, batch[..|batch| - 1])[batch[|batch| - 1].id := batch[|batch| - 1].repeatCount]
  }

  /** The batch one poll hands to the socket. */
  function Batch(f: Feed, log: seq<Report>, online: bool): seq<Report> {
    if online then News(f, log)[..Capped(|News(f, log)|)] else []
  }

  /** The feed after one poll. */
  function Poll(f: Feed, log: seq<Report>, online: bool): Feed {
    var batch := Batch(f, log, online);
    Feed(Highest(f.cursor, batch), Recorded(Pruned(f.sent, log), batch))
  }

  // ---------------------------------------------------------------------
  // Runs
  // ---------------------------------------------------------------------

  /** `delivered` lists what the socket was handed since the last reset. */
  datatype World = World(log: seq<Report>, feed: Feed, delivered: seq<Report>)

  datatype Event =
    | Append(report: Report)
    | Bump(index: nat, count: UInt32)
    | PollAndSend(online: bool)
    | Reset

  const START := World([], NO_FEED, [])

  function Next(w: World, e: Event): World {
    match e
    case Append(r) =>
      if r.id >= 0 && (w.log == [] || r.id > w.log[|w.log| - 1].id) then w.(log := w.log + [r]) else w
    case Bump(i, count) =>
      if i < |w.log| && count > w.log[i].repeatCount then w.(log := w.log[i := w.log[i].(repeatCount := count)]) else w
    case PollAndSend(online) =>
      World(w.log, Poll(w.feed, w.log, online), w.delivered + Batch(w.feed, w.log, online))
    case Reset => World(w.log, NO_FEED, [])
  }

  function Run(events: seq<Event>): World {
    if events == [] then START else Next(Run(events[..|events| - 1]), events[|events| - 1])
  }

  /** The repeat count last delivered for a report, or -1. */
  function LastDelivered(delivered: seq<Report>, id: int): int {
    if delivered == [] then -1
    else if delivered[|delivered| - 1].id == id then delivered[|delivered| - 1].repeatCount
    else LastDelivered(delivered[..|delivered| - 1], id)
  }

  ghost predicate HasId(s: seq<Report>, id: int) { exists r :: r in s && r.id == id }

  /** Exactly the reports up to the cursor have been handed to the socket. */
  ghost predicate DeliveredUpToCursor(w: World) {
    forall id :: HasId(w.delivered, id) <==> HasId(w.log, id) && id <= w.feed.cursor
  }

  /** Nothing is ever sent again with a count it was sent with before. */
  ghost predicate CountsGrow(delivered: seq<Report>) {
    forall i, j :: 0 <= i < j < |delivered| && delivered[i].id == delivered[j].id ==>
      delivered[i].repeatCount < delivered[j].repeatCount
  }

  /** The map is exact where it is defined, and defined on the sent part of the window. */
  ghost predicate MapIsExact(w: World) { EntriesAreExact(w) && WindowIsCovered(w) }

  ghost predicate EntriesAreExact(w: World) {
    forall id :: id in w.feed.sent ==>
      HasId(w.log, id) && id <= w.feed.cursor && w.feed.sent[id] == LastDelivered(w.delivered, id)
  }

  ghost predicate WindowIsCovered(w: World) {
    forall i :: TailStart(w.log) <= i < |w.log| && w.log[i].id <= w.feed.cursor ==> w.log[i].id in w.feed.sent
  }

  /** A count delivered was the report's count at some earlier moment. */
  ghost predicate NeverAhead(w: World) {
    forall d, r :: d in w.delivered && r in w.log && d.id == r.id ==> d.repeatCount <= r.repeatCount
  }

  ghost predicate Safe(w: World) {
    && IsLog(w.log)
    && (w.feed.cursor == -1 || HasId(w.log, w.feed.cursor))
    && DeliveredUpToCursor(w)
    && CountsGrow(w.delivered)
    && NeverAhead(w)
    && MapIsExact(w)
    && |w.feed.sent| <= TAIL_WINDOW + MAX_PER_MSG
  }

  // ---------------------------------------------------------------------
  // What one poll finds
  // ---------------------------------------------------------------------

  ghost predicate Distinct(s: seq<Report>) {
    forall i, j :: 0 <= i < j < |s| ==> s[i].id != s[j].id
  }

  lemma {:induction false} FilterIsRising(s: seq<Report>, p: Report -> bool)
    requires Rising(s, ReportId)
    ensures Rising(Filter(s, p), ReportId)
  {
    if s != [] {
      FilterIsRising(s[..|s| - 1], p);
      var front := Filter(s[..|s| - 1], p);
      forall i | 0 <= i < |front| ensures front[i].id < s[|s| - 1].id {
        assert front[i] in s[..|s| - 1];
      }
    }
  }

  lemma NewsIsDistinct(f: Feed, log: seq<Report>)
    requires IsLog(log)
    ensures Distinct(News(f, log))
    ensures Rising(Filter(log, IsNew(f.cursor)), ReportId)
  {
    FilterIsRising(log, IsNew(f.cursor));
    FilterIsRising(log[TailStart(log)..], IsBumped(f));
    DistinctAcross(Filter(log, IsNew(f.cursor)), Filter(log[TailStart(log)..], IsBumped(f)), f.cursor);
  }

  lemma DistinctAcross(a: seq<Report>, b: seq<Report>, cursor: int)
    requires Rising(a, ReportId) && Rising(b, ReportId)
    requires (forall r :: r in a ==> r.id > cursor) && forall r :: r in b ==> r.id <= cursor
    ensures Distinct(a + b)
  {
    var s: seq<Report> := a + b;
    forall i, j | 0 <= i < j < |s| ensures s[i].id != s[j].id {
      if i < |a| <= j {
        assert s[i] in a && s[j] in b;
      }
    }
  }

  /** A member of a batch is new, or an in-window report whose count grew. */
  ghost predicate Due(f: Feed, log: seq<Report>, r: Report) {
    r in log && (r.id > f.cursor || (r in log[TailStart(log)..] && r.repeatCount > LastCount(f.sent, r.id)))
  }

  lemma BatchIsDue(f: Feed, log: seq<Report>, online: bool)
    requires IsLog(log)
    ensures forall r :: r in Batch(f, log, online) ==> Due(f, log, r)
    ensures Distinct(Batch(f, log, online))
    ensures |Batch(f, log, online)| <= MAX_PER_MSG
  {
    NewsIsDistinct(f, log);
    forall r | r in Batch(f, log, online) ensures Due(f, log, r) {
      assert r in News(f, log);
    }
  }

  /** The cursor never passes a report that is not in the batch. */
  lemma CursorSkipsNothing(f: Feed, log: seq<Report>, online: bool, r: Report)
    requires IsLog(log) && r in log && f.cursor < r.id <= Poll(f, log, online).cursor
    ensures r in Batch(f, log, online)
  {
    var batch := Batch(f, log, online);
    NewsIsDistinct(f, log);
    var top :| top in batch && top.id == Poll(f, log, online).cursor;
    FrontReaches(Unseen(f, log), Bumps(f, log), |batch|, r, top);
  }

  /** What lies below a member of the front, and is not among the bumps, is in the front. */
  lemma FrontReaches(unseen: seq<Report>, bumps: seq<Report>, m: nat, r: Report, top: Report)
    requires Rising(unseen, ReportId) && r in unseen && m <= |unseen + bumps|
    requires top in (unseen + bumps)[..m] && r.id <= top.id && forall b :: b in bumps ==> b.id < r.id
    ensures r in (unseen + bumps)[..m]
  {
    FoundInFront(unseen, bumps, m, top);
    var p :| 0 <= p < m && p < |unseen| && unseen[p] == top;
    var q :| 0 <= q < |unseen| && unseen[q] == r;
    RisingBack(unseen, p, q);
    assert (unseen + bumps)[..m][q] == r;
  }

  lemma FoundInFront(a: seq<Report>, b: seq<Report>, m: nat, r: Report)
    requires m <= |a + b| && r in (a + b)[..m]
    ensures r in b || exists p :: 0 <= p < m && p < |a| && a[p] == r
  {
    var p :| 0 <= p < m && (a + b)[p] == r;
    if p >= |a| {
      assert b[p - |a|] == r;
    }
  }

  lemma RisingBack(s: seq<Report>, p: nat, q: nat)
    requires Rising(s, ReportId) && p < |s| && q < |s| && s[q].id <= s[p].id
    ensures q <= p
  {
  }

  lemma {:induction false} RecordedSize(m: map<Int32, UInt32>, batch: seq<Report>)
    ensures |Recorded(m, batch)| <= |m| + |batch|
  {
    if batch != [] {
      var before := Recorded(m, batch[..|batch| - 1]);
      RecordedSize(m, batch[..|batch| - 1]);
      var id := batch[|batch| - 1].id;
      assert before[id := batch[|batch| - 1].repeatCount].Keys == before.Keys + {id};
      assert |before.Keys + {id}| <= |before.Keys| + 1;
    }
  }

  function IdsOf(s: seq<Report>): set<Int32> { set r | r in s :: r.id }

  lemma {:induction false} IdsOfSize(s: seq<Report>)
    ensures |IdsOf(s)| <= |s|
  {
    if s != [] {
      IdsOfSize(s[..|s| - 1]);
      assert s == s[..|s| - 1] + [s[|s| - 1]];
      assert IdsOf(s) == IdsOf(s[..|s| - 1]) + {s[|s| - 1].id};
    }
  }

  lemma PrunedSize(f: Feed, log: seq<Report>)
    requires IsLog(log) && log != []
    requires forall id :: id in f.sent ==> HasId(log, id)
    ensures |Pruned(f.sent, log)| <= TAIL_WINDOW
  {
    var window := log[TailStart(log)..];
    forall id | id in Pruned(f.sent, log) ensures id in IdsOf(window) {
      var r :| r in log && r.id == id;
      var i :| 0 <= i < |log| && log[i] == r;
      assert window[i - TailStart(log)] == r;
    }
    assert Pruned(f.sent, log).Keys <= IdsOf(window);
    IdsOfSize(window);
    SubsetSize(Pruned(f.sent, log).Keys, IdsOf(window));
  }

  lemma SubsetSize(a: set<Int32>, b: set<Int32>)
    requires a <= b
    ensures |a| <= |b|
  {
    assert b == a + (b - a);
  }

  // ---------------------------------------------------------------------
  // Safety over every run
  // ---------------------------------------------------------------------

  lemma {:induction false} LastDeliveredIsHighest(delivered: seq<Report>, r: Report)
    requires CountsGrow(delivered) && r in delivered
    ensures r.repeatCount <= LastDelivered(delivered, r.id)
  {
    var n := |delivered| - 1;
    if delivered[n].id == r.id {
      var i :| 0 <= i <= n && delivered[i] == r;
    } else {
      LastDeliveredIsHighest(delivered[..n], r);
    }
  }

  lemma {:induction false} RecordedIsLastDelivered(sent: map<Int32, UInt32>, delivered: seq<Report>, batch: seq<Report>,
                                                   id: Int32)
    requires id in sent ==> sent[id] == LastDelivered(delivered, id)
    requires id in Recorded(sent, batch)
    ensures Recorded(sent, batch)[id] == LastDelivered(delivered + batch, id)
  {
    if batch == [] {
      assert delivered + batch == delivered;
    } else {
      var n := |batch| - 1;
      assert (delivered + batch)[..|delivered + batch| - 1] == delivered + batch[..n];
      if batch[n].id != id {
        RecordedIsLastDelivered(sent, delivered, batch[..n], id);
      }
    }
  }

  lemma PollDelivers(w: World, online: bool)
    requires Safe(w)
    ensures DeliveredUpToCursor(Next(w, PollAndSend(online)))
    ensures var c := Next(w, PollAndSend(online)).feed.cursor; c == -1 || HasId(w.log, c)
  {
    var w' := Next(w, PollAndSend(online));
    var batch := Batch(w.feed, w.log, online);
    BatchIsDue(w.feed, w.log, online);
    forall id ensures HasId(w'.delivered, id) <==> HasId(w'.log, id) && id <= w'.feed.cursor {
      if HasId(w'.delivered, id) {
        var r :| r in w'.delivered && r.id == id;
        if r in batch {
          assert Due(w.feed, w.log, r);
        } else {
          assert HasId(w.delivered, id);
        }
      }
      if HasId(w.log, id) && id <= w'.feed.cursor {
        var r :| r in w.log && r.id == id;
        if id > w.feed.cursor {
          CursorSkipsNothing(w.feed, w.log, online, r);
          assert r in w'.delivered;
        } else {
          assert HasId(w.delivered, id);
          var d :| d in w.delivered && d.id == id;
          assert d in w'.delivered;
        }
      }
    }
    if w'.feed.cursor != w.feed.cursor {
      var r :| r in batch && r.id == w'.feed.cursor;
      assert Due(w.feed, w.log, r);
    }
  }

  lemma PollGrowsCounts(w: World, online: bool)
    requires Safe(w)
    ensures CountsGrow(Next(w, PollAndSend(online)).delivered)
  {
    BatchIsDue(w.feed, w.log, online);
    DueGrows(w, Batch(w.feed, w.log, online));
    GrowthAcross(w.delivered, Batch(w.feed, w.log, online));
  }

  lemma DueGrows(w: World, batch: seq<Report>)
    requires Safe(w) && forall b :: b in batch ==> Due(w.feed, w.log, b)
    ensures forall d, b :: d in w.delivered && b in batch && d.id == b.id ==> d.repeatCount < b.repeatCount
  {
    forall d, b | d in w.delivered && b in batch && d.id == b.id ensures d.repeatCount < b.repeatCount {
      assert Due(w.feed, w.log, b);
      ResendOnlyGrowth(w, d, b);
    }
  }

  lemma GrowthAcross(delivered: seq<Report>, batch: seq<Report>)
    requires CountsGrow(delivered) && Distinct(batch)
    requires forall d, b :: d in delivered && b in batch && d.id == b.id ==> d.repeatCount < b.repeatCount
    ensures CountsGrow(delivered + batch)
  {
    var s: seq<Report> := delivered + batch;
    forall i, j | 0 <= i < j < |s| && s[i].id == s[j].id ensures s[i].repeatCount < s[j].repeatCount {
      if i < |delivered| <= j {
        assert s[i] in delivered && s[j] in batch;
      }
    }
  }

  lemma ResendOnlyGrowth(w: World, before: Report, due: Report)
    requires Safe(w) && before in w.delivered && due.id == before.id && Due(w.feed, w.log, due)
    ensures before.repeatCount < due.repeatCount
  {
    assert HasId(w.delivered, before.id);
    var i :| 0 <= i < |w.log[TailStart(w.log)..]| && w.log[TailStart(w.log)..][i] == due;
    assert w.log[TailStart(w.log) + i] == due;
    LastDeliveredIsHighest(w.delivered, before);
  }

  lemma PollKeepsMapExact(w: World, online: bool)
    requires Safe(w)
    ensures MapIsExact(Next(w, PollAndSend(online)))
  {
    PollKeepsEntries(w, online);
    PollKeepsWindow(w, online);
  }

  lemma PollKeepsEntries(w: World, online: bool)
    requires Safe(w)
    ensures EntriesAreExact(Next(w, PollAndSend(online)))
  {
    var w' := Next(w, PollAndSend(online));
    forall id | id in w'.feed.sent
      ensures HasId(w.log, id) && id <= w'.feed.cursor && w'.feed.sent[id] == LastDelivered(w'.delivered, id)
    {
      SentEntryIsExact(w, online, id);
    }
  }

  lemma PollKeepsWindow(w: World, online: bool)
    requires Safe(w)
    ensures WindowIsCovered(Next(w, PollAndSend(online)))
  {
    var w' := Next(w, PollAndSend(online));
    forall i | TailStart(w.log) <= i < |w.log| && w.log[i].id <= w'.feed.cursor
      ensures w.log[i].id in w'.feed.sent
    {
      WindowStaysCovered(w, online, i);
    }
  }

  lemma SentEntryIsExact(w: World, online: bool, id: Int32)
    requires Safe(w) && id in Next(w, PollAndSend(online)).feed.sent
    ensures var w' := Next(w, PollAndSend(online));
      HasId(w.log, id) && id <= w'.feed.cursor && w'.feed.sent[id] == LastDelivered(w'.delivered, id)
  {
    var batch := Batch(w.feed, w.log, online);
    BatchIsDue(w.feed, w.log, online);
    RecordedIsLastDelivered(Pruned(w.feed.sent, w.log), w.delivered, batch, id);
    if r :| r in batch && r.id == id {
      assert Due(w.feed, w.log, r);
    }
  }

  lemma WindowStaysCovered(w: World, online: bool, i: nat)
    requires Safe(w) && TailStart(w.log) <= i < |w.log|
    requires w.log[i].id <= Poll(w.feed, w.log, online).cursor
    ensures w.log[i].id in Poll(w.feed, w.log, online).sent
  {
    if w.log[i].id > w.feed.cursor {
      CursorSkipsNothing(w.feed, w.log, online, w.log[i]);
    } else {
      SentInWindowIsKept(w.feed.sent, w.log, i);
    }
  }

  lemma SentInWindowIsKept(sent: map<Int32, UInt32>, log: seq<Report>, i: nat)
    requires IsLog(log) && TailStart(log) <= i < |log| && log[i].id in sent
    ensures log[i].id in Pruned(sent, log)
  {
    assert log[i].id >= log[TailStart(log)].id;
  }

  lemma PollIsNeverAhead(w: World, online: bool)
    requires Safe(w)
    ensures NeverAhead(Next(w, PollAndSend(online)))
  {
    BatchIsDue(w.feed, w.log, online);
    forall d, r | d in Batch(w.feed, w.log, online) && r in w.log && d.id == r.id ensures d == r {
      assert Due(w.feed, w.log, d);
      SameIdSameReport(w.log, d, r);
    }
  }

  lemma SameIdSameReport(log: seq<Report>, a: Report, b: Report)
    requires IsLog(log) && a in log && b in log && a.id == b.id
    ensures a == b
  {
  }

  /** The parts of safety. */
  datatype Part = Ordered | Anchored | Delivering | Growing | Behind | Exact | Bounded

  ghost function Holds(part: Part): World -> bool {
    match part
    case Ordered => (w: World) => IsLog(w.log)
    case Anchored => (w: World) => w.feed.cursor == -1 || HasId(w.log, w.feed.cursor)
    case Delivering => (w: World) => DeliveredUpToCursor(w)
    case Growing => (w: World) => CountsGrow(w.delivered)
    case Behind => (w: World) => NeverAhead(w)
    case Exact => (w: World) => MapIsExact(w)
    case Bounded => (w: World) => |w.feed.sent| <= TAIL_WINDOW + MAX_PER_MSG
  }

  lemma SafeInParts(w: World)
    requires forall part :: Holds(part)(w)
    ensures Safe(w)
  {
    assert Holds(Ordered)(w) && Holds(Anchored)(w) && Holds(Delivering)(w) && Holds(Growing)(w);
    assert Holds(Behind)(w) && Holds(Exact)(w) && Holds(Bounded)(w);
  }

  lemma PollKeepsPart(w: World, online: bool, part: Part)
    requires Safe(w)
    ensures Holds(part)(Next(w, PollAndSend(online)))
  {
    var v := Next(w, PollAndSend(online));
    match part
    case Ordered => assert v.log == w.log;
    case Anchored => PollDelivers(w, online);
    case Delivering => PollDelivers(w, online);
    case Growing => PollGrowsCounts(w, online);
    case Behind => PollIsNeverAhead(w, online);
    case Exact => PollKeepsMapExact(w, online);
    case Bounded => PollKeepsMapBounded(w.feed, w.log, online);
  }

  lemma PollIsSafe(w: World, online: bool)
    requires Safe(w)
    ensures Safe(Next(w, PollAndSend(online)))
  {
    forall part ensures Holds(part)(Next(w, PollAndSend(online))) {
      PollKeepsPart(w, online, part);
    }
    SafeInParts(Next(w, PollAndSend(online)));
  }

  lemma PollKeepsMapBounded(f: Feed, log: seq<Report>, online: bool)
    requires IsLog(log) && forall id :: id in f.sent ==> HasId(log, id)
    ensures |Poll(f, log, online).sent| <= TAIL_WINDOW + MAX_PER_MSG
  {
    BatchIsDue(f, log, online);
    RecordedSize(Pruned(f.sent, log), Batch(f, log, online));
    if log != [] {
      PrunedSize(f, log);
    } else {
      assert forall id :: id in f.sent.Keys ==> HasId(log, id);
      assert f.sent.Keys == {};
      assert |f.sent| == |f.sent.Keys| == 0;
    }
  }

  /** The log grew only beyond the cursor: what is up to it has kept its ids, and its places in the window. */
  ghost predicate GrowsBeyond(was: seq<Report>, log: seq<Report>, cursor: int) {
    && (forall id :: id <= cursor ==> (HasId(log, id) <==> HasId(was, id)))
    && (forall i :: TailStart(log) <= i < |log| && log[i].id <= cursor ==>
         TailStart(was) <= i < |was| && log[i].id == was[i].id)
  }

  /** The feed stays safe under any log growth beyond the cursor. */
  lemma LogGrowthIsSafe(w: World, log: seq<Report>)
    requires Safe(w) && IsLog(log) && GrowsBeyond(w.log, log, w.feed.cursor)
    requires NeverAhead(w.(log := log))
    ensures Safe(w.(log := log))
  {
    GrowthKeepsDelivered(w, log);
    GrowthKeepsMap(w, log);
  }

  lemma GrowthKeepsDelivered(w: World, log: seq<Report>)
    requires DeliveredUpToCursor(w) && GrowsBeyond(w.log, log, w.feed.cursor)
    ensures DeliveredUpToCursor(w.(log := log))
  {
    var w' := w.(log := log);
    forall id ensures HasId(w'.delivered, id) <==> HasId(w'.log, id) && id <= w'.feed.cursor {
      assert HasId(w.delivered, id) <==> HasId(w.log, id) && id <= w.feed.cursor;
    }
  }

  lemma GrowthKeepsMap(w: World, log: seq<Report>)
    requires MapIsExact(w) && GrowsBeyond(w.log, log, w.feed.cursor)
    ensures MapIsExact(w.(log := log))
  {
  }

  lemma CursorWithinLog(log: seq<Report>, cursor: Int32)
    requires IsLog(log) && (cursor == -1 || HasId(log, cursor))
    ensures cursor == -1 || (log != [] && cursor <= log[|log| - 1].id)
  {
    if q :| q in log && q.id == cursor {
      var i :| 0 <= i < |log| && log[i] == q;
      assert i == |log| - 1 || ReportId(log[i]) < ReportId(log[|log| - 1]);
    }
  }

  lemma AppendIsSafe(w: World, r: Report)
    requires Safe(w)
    ensures Safe(Next(w, Append(r)))
  {
    var v := Next(w, Append(r));
    if v != w {
      GrowthByOneIsSafe(w, r);
      assert v == w.(log := w.log + [r]);
    }
  }

  lemma GrowthByOneIsSafe(w: World, r: Report)
    requires Safe(w) && r.id >= 0 && (w.log == [] || r.id > w.log[|w.log| - 1].id)
    ensures Safe(w.(log := w.log + [r]))
  {
    CursorWithinLog(w.log, w.feed.cursor);
    AppendedLog(w.log, r, w.feed.cursor);
    AppendNeverAhead(w, r);
    LogGrowthIsSafe(w, w.log + [r]);
  }

  lemma AppendNeverAhead(w: World, r: Report)
    requires Safe(w) && r.id > w.feed.cursor
    ensures NeverAhead(w.(log := w.log + [r]))
  {
    forall d | d in w.delivered ensures d.id <= w.feed.cursor {
      assert HasId(w.delivered, d.id);
    }
  }

  lemma AppendedWindow(log: seq<Report>, r: Report, cursor: int)
    requires r.id > cursor
    ensures forall i :: TailStart(log + [r]) <= i < |log + [r]| && (log + [r])[i].id <= cursor ==>
      TailStart(log) <= i < |log| && (log + [r])[i].id == log[i].id
  {
  }

  lemma AppendedLog(log: seq<Report>, r: Report, cursor: int)
    requires IsLog(log) && r.id >= 0 && (log == [] || r.id > log[|log| - 1].id) && r.id > cursor
    ensures IsLog(log + [r]) && GrowsBeyond(log, log + [r], cursor)
  {
    AppendedIds(log, r);
    AppendedWindow(log, r, cursor);
  }

  lemma AppendedIds(log: seq<Report>, r: Report)
    ensures forall id :: HasId(log + [r], id) <==> HasId(log, id) || id == r.id
  {
    assert r in log + [r];
    forall id | HasId(log, id) ensures HasId(log + [r], id) {
      var q :| q in log && q.id == id;
      assert q in log + [r];
    }
  }

  lemma BumpIsSafe(w: World, index: nat, count: UInt32)
    requires Safe(w)
    ensures Safe(Next(w, Bump(index, count)))
  {
    if index < |w.log| && count > w.log[index].repeatCount {
      BumpedLog(w.log, index, count, w.feed.cursor);
      BumpNeverAhead(w, index, count);
      LogGrowthIsSafe(w, w.log[index := w.log[index].(repeatCount := count)]);
    } else {
      assert Next(w, Bump(index, count)) == w;
    }
  }

  lemma BumpNeverAhead(w: World, index: nat, count: UInt32)
    requires Safe(w) && index < |w.log| && count > w.log[index].repeatCount
    ensures NeverAhead(w.(log := w.log[index := w.log[index].(repeatCount := count)]))
  {
    var log := w.log[index := w.log[index].(repeatCount := count)];
    forall d, r | d in w.delivered && r in log && d.id == r.id ensures d.repeatCount <= r.repeatCount {
      var i :| 0 <= i < |log| && log[i] == r;
      assert w.log[i] in w.log && w.log[i].repeatCount <= r.repeatCount;
    }
  }

  lemma BumpedLog(log: seq<Report>, index: nat, count: UInt32, cursor: int)
    requires IsLog(log) && index < |log|
    ensures var log' := log[index := log[index].(repeatCount := count)];
      IsLog(log') && GrowsBeyond(log, log', cursor)
  {
    BumpedIds(log, index, count);
  }

  lemma BumpedIds(log: seq<Report>, index: nat, count: UInt32)
    requires index < |log|
    ensures forall id :: HasId(log[index := log[index].(repeatCount := count)], id) <==> HasId(log, id)
  {
    var log' := log[index := log[index].(repeatCount := count)];
    forall id ensures HasId(log', id) <==> HasId(log, id) {
      if r :| r in log && r.id == id {
        var i :| 0 <= i < |log| && log[i] == r;
        assert log'[i] in log';
      }
      if r :| r in log' && r.id == id {
        var i :| 0 <= i < |log| && log'[i] == r;
        assert log[i] in log;
      }
    }
  }

  /** Every run of appends, bumps, polls and resets is safe. */
  lemma {:induction false} EveryRunIsSafe(events: seq<Event>)
    ensures Safe(Run(events))
  {
    if events != [] {
      var w, e := Run(events[..|events| - 1]), events[|events| - 1];
      EveryRunIsSafe(events[..|events| - 1]);
      match e
      case Append(r) => AppendIsSafe(w, r);
      case Bump(i, count) => BumpIsSafe(w, i, count);
      case PollAndSend(online) => PollIsSafe(w, online);
      case Reset =>
    }
  }

  // ---------------------------------------------------------------------
  // Progress
  // ---------------------------------------------------------------------

  /** `p'` is `p` without the reports already taken. */
  predicate Drops(s: seq<Report>, p: Report -> bool, p': Report -> bool, taken: seq<Report>) {
    forall r :: r in s ==> (p'(r) <==> p(r) && r !in taken)
  }

  /** Dropping the first selected reports from the predicate drops exactly them from the selection. */
  lemma {:induction false} FilterDrops(s: seq<Report>, p: Report -> bool, p': Report -> bool, m: nat)
    requires Rising(s, ReportId) && m <= |Filter(s, p)|
    requires Drops(s, p, p', Filter(s, p)[..m])
    ensures Filter(s, p') == Filter(s, p)[m..]
  {
    if s != [] {
      var front, x := s[..|s| - 1], s[|s| - 1];
      var chosen := Filter(front, p);
      var m' := if m <= |chosen| then m else |chosen|;
      DropsStep(s, p, p', m, m');
      FilterDrops(front, p, p', m');
      DropsAtEnd(chosen, x, p(x), m);
    }
  }

  lemma DropsStep(s: seq<Report>, p: Report -> bool, p': Report -> bool, m: nat, m': nat)
    requires s != [] && Rising(s, ReportId) && m <= |Filter(s, p)| && Drops(s, p, p', Filter(s, p)[..m])
    requires var n := |Filter(s[..|s| - 1], p)|; m' == if m <= n then m else n
    ensures var front, x := s[..|s| - 1], s[|s| - 1];
      && Rising(front, ReportId) && Drops(front, p, p', Filter(front, p)[..m'])
      && (p'(x) <==> p(x) && m <= |Filter(front, p)|)
  {
    var front, x := s[..|s| - 1], s[|s| - 1];
    RisingLast(s);
    DropsInFront(front, x, p, p', Filter(front, p), m);
  }

  lemma RisingLast(s: seq<Report>)
    requires s != [] && Rising(s, ReportId)
    ensures var front, x := s[..|s| - 1], s[|s| - 1];
      s == front + [x] && x !in front && Rising(front, ReportId)
  {
  }

  lemma DropsInFront(front: seq<Report>, x: Report, p: Report -> bool, p': Report -> bool, chosen: seq<Report>, m: nat)
    requires x !in front && x !in chosen && m <= |chosen| + (if p(x) then 1 else 0)
    requires Drops(front + [x], p, p', (chosen + if p(x) then [x] else [])[..m])
    ensures Drops(front, p, p', chosen[..if m <= |chosen| then m else |chosen|])
    ensures p'(x) <==> p(x) && m <= |chosen|
  {
    var all := front + [x];
    assert x in all;
    if m <= |chosen| {
      FrontOfFilter(chosen, if p(x) then [x] else [], m);
    } else {
      assert (chosen + [x])[..m] == chosen + [x];
    }
    forall r | r in front ensures r in all && r != x {
    }
  }

  /** The two ways the last report of a log can follow those dropped. */
  lemma DropsAtEnd(chosen: seq<Report>, x: Report, selected: bool, m: nat)
    requires m <= |chosen| + (if selected then 1 else 0)
    ensures (chosen + if selected then [x] else [])[m..] ==
      chosen[if m <= |chosen| then m else |chosen|..] + if selected && m <= |chosen| then [x] else []
  {
  }

  lemma FrontOfFilter(chosen: seq<Report>, last: seq<Report>, m: nat)
    requires m <= |chosen|
    ensures (chosen + last)[..m] == chosen[..m]
  {
  }

  lemma {:induction false} RecordedAt(m: map<Int32, UInt32>, batch: seq<Report>, i: nat)
    requires Distinct(batch) && i < |batch|
    ensures batch[i].id in Recorded(m, batch) && Recorded(m, batch)[batch[i].id] == batch[i].repeatCount
  {
    var n := |batch| - 1;
    if i < n {
      var front := batch[..n];
      assert front[i] == batch[i] && batch[i].id != batch[n].id;
      assert Distinct(front);
      RecordedAt(m, front, i);
    }
  }

  // How many new reports, and how many bumps, one online poll takes.

  function Least(a: nat, b: nat): nat { if a <= b then a else b }

  function NewTaken(f: Feed, log: seq<Report>): (m: nat)
    ensures m <= |Unseen(f, log)|
  {
    Least(Capped(|News(f, log)|), |Unseen(f, log)|)
  }

  function BumpsTaken(f: Feed, log: seq<Report>): (m: nat)
    ensures m <= |Bumps(f, log)|
  {
    Capped(|News(f, log)|) - NewTaken(f, log)
  }

  lemma BatchSplits(f: Feed, log: seq<Report>)
    ensures Batch(f, log, true) == Unseen(f, log)[..NewTaken(f, log)] + Bumps(f, log)[..BumpsTaken(f, log)]
    ensures News(f, log)[Capped(|News(f, log)|)..] ==
      Unseen(f, log)[NewTaken(f, log)..] + Bumps(f, log)[BumpsTaken(f, log)..]
  {
    var k := Capped(|News(f, log)|);
    ConcatSplits(Unseen(f, log), Bumps(f, log), News(f, log), k, NewTaken(f, log), BumpsTaken(f, log));
  }

  lemma ConcatSplits(a: seq<Report>, b: seq<Report>, all: seq<Report>, k: nat, m: nat, n: nat)
    requires all == a + b && k <= |all| && m == Least(k, |a|) && n == k - m
    ensures n <= |b| && all[..k] == a[..m] + b[..n] && all[k..] == a[m..] + b[n..]
  {
  }

  /** A capped poll takes the front of the queue and leaves the rest of it, in order, for the next. */
  lemma PollTakesTheFront(f: Feed, log: seq<Report>)
    requires IsLog(log)
    ensures News(Poll(f, log, true), log) == News(f, log)[Capped(|News(f, log)|)..]
  {
    BatchSplits(f, log);
    UnseenAfterPoll(f, Poll(f, log, true), log);
    BumpsAfterPoll(f, Poll(f, log, true), log);
  }

  lemma UnseenAfterPoll(f: Feed, f': Feed, log: seq<Report>)
    requires IsLog(log) && f' == Poll(f, log, true)
    ensures Unseen(f', log) == Unseen(f, log)[NewTaken(f, log)..]
  {
    forall r | r in log
      ensures IsNew(f'.cursor)(r) <==> IsNew(f.cursor)(r) && r !in Unseen(f, log)[..NewTaken(f, log)]
    {
      NewAfterPoll(f, log, r);
    }
    FilterDrops(log, IsNew(f.cursor), IsNew(f'.cursor), NewTaken(f, log));
  }

  lemma BumpsAfterPoll(f: Feed, f': Feed, log: seq<Report>)
    requires IsLog(log) && f' == Poll(f, log, true)
    ensures Bumps(f', log) == Bumps(f, log)[BumpsTaken(f, log)..]
  {
    var window := log[TailStart(log)..];
    forall r | r in window ensures IsBumped(f')(r) <==> IsBumped(f)(r) && r !in Bumps(f, log)[..BumpsTaken(f, log)] {
      BumpedAfterPoll(f, log, r);
    }
    FilterDrops(window, IsBumped(f), IsBumped(f'), BumpsTaken(f, log));
  }

  lemma NewAfterPoll(f: Feed, log: seq<Report>, r: Report)
    requires IsLog(log) && r in log
    ensures r.id > Poll(f, log, true).cursor <==> r.id > f.cursor && r !in Unseen(f, log)[..NewTaken(f, log)]
  {
    BatchSplits(f, log);
    if f.cursor < r.id <= Poll(f, log, true).cursor {
      CursorSkipsNothing(f, log, true, r);
    }
  }

  lemma NotInBatch(f: Feed, log: seq<Report>, r: Report)
    requires IsLog(log) && r in log && r !in Batch(f, log, true)
    ensures forall b :: b in Batch(f, log, true) ==> b.id != r.id
  {
    BatchIsDue(f, log, true);
    forall b | b in Batch(f, log, true) ensures b.id != r.id {
      assert Due(f, log, b);
      if b.id == r.id {
        SameIdSameReport(log, b, r);
      }
    }
  }

  lemma BumpedAfterPoll(f: Feed, log: seq<Report>, r: Report)
    requires IsLog(log) && r in log[TailStart(log)..]
    ensures IsBumped(Poll(f, log, true))(r) <==> IsBumped(f)(r) && r !in Bumps(f, log)[..BumpsTaken(f, log)]
  {
    BatchSplits(f, log);
    if r in Batch(f, log, true) {
      SentIsNotBumped(f, log, r);
      if IsBumped(f)(r) {
        assert r !in Unseen(f, log);
      }
    } else {
      UnsentIsAsBefore(f, log, r);
    }
  }

  lemma SentIsNotBumped(f: Feed, log: seq<Report>, r: Report)
    requires IsLog(log) && r in Batch(f, log, true)
    ensures !IsBumped(Poll(f, log, true))(r)
  {
    var batch := Batch(f, log, true);
    BatchIsDue(f, log, true);
    var i :| 0 <= i < |batch| && batch[i] == r;
    RecordedAt(Pruned(f.sent, log), batch, i);
  }

  lemma UnsentIsAsBefore(f: Feed, log: seq<Report>, r: Report)
    requires IsLog(log) && r in log[TailStart(log)..] && r !in Batch(f, log, true)
    ensures IsBumped(Poll(f, log, true))(r) <==> IsBumped(f)(r)
  {
    NotInBatch(f, log, r);
    if f.cursor < r.id <= Poll(f, log, true).cursor {
      CursorSkipsNothing(f, log, true, r);
    }
    assert r.id >= log[TailStart(log)].id;
  }

  /** The world after `n` online polls with nothing in between. */
  function PollTimes(w: World, n: nat): (v: World)
    ensures v.log == w.log
  {
    if n == 0 then w else PollOnce(PollTimes(w, n - 1))
  }

  function PollOnce(w: World): (v: World)
    ensures v.log == w.log
  {
    Next(w, PollAndSend(true))
  }

  /** Entry by entry: from `k` on, the queue loses its front to what is sent. */
  predicate TakesFront(queue: nat -> seq<Report>, sent: nat -> seq<Report>, k: nat) {
    var m := Capped(|queue(k)|);
    queue(k + 1) == queue(k)[m..] && sent(k + 1) == sent(k) + queue(k)[..m]
  }

  /** How many of `size` entries `n` polls take. */
  function Taken(size: nat, n: nat): (m: nat)
    ensures m <= size
  {
    if MAX_PER_MSG * n <= size then MAX_PER_MSG * n else size
  }

  lemma {:induction false} FrontsAddUp(queue: nat -> seq<Report>, sent: nat -> seq<Report>, n: nat)
    requires forall k: nat :: TakesFront(queue, sent, k)
    ensures var m := Taken(|queue(0)|, n); queue(n) == queue(0)[m..] && sent(n) == sent(0) + queue(0)[..m]
  {
    if n > 0 {
      FrontsAddUp(queue, sent, n - 1);
      assert TakesFront(queue, sent, n - 1);
      FrontOfRest(queue(0), Taken(|queue(0)|, n - 1), Capped(|queue(n - 1)|), sent(0));
    }
  }

  lemma FrontOfRest(q: seq<Report>, m: nat, k: nat, before: seq<Report>)
    requires m + k <= |q|
    ensures q[m..][k..] == q[m + k..] && before + q[..m] + q[m..][..k] == before + q[..m + k]
  {
  }

  function Queues(w: World): nat -> seq<Report> { (k: nat) => News(PollTimes(w, k).feed, w.log) }

  function Sendings(w: World): nat -> seq<Report> { (k: nat) => PollTimes(w, k).delivered }

  lemma OneMorePoll(w: World, v: World)
    requires IsLog(w.log) && v.log == w.log
    ensures var m, u := Capped(|News(v.feed, w.log)|), PollOnce(v);
      News(u.feed, w.log) == News(v.feed, w.log)[m..] && u.delivered == v.delivered + News(v.feed, w.log)[..m]
  {
    PollTakesTheFront(v.feed, w.log);
  }

  lemma PollsTakeFronts(w: World)
    requires IsLog(w.log)
    ensures forall k: nat :: TakesFront(Queues(w), Sendings(w), k)
  {
    forall k: nat ensures TakesFront(Queues(w), Sendings(w), k) {
      OneMorePoll(w, PollTimes(w, k));
    }
  }

  /**
   With no new appends or bumps, n polls send exactly the first 64 * n entries of the queue, in order,
   and leave the rest.
   */
  lemma QueueDrains(w: World, n: nat)
    requires IsLog(w.log)
    ensures var v, queue := PollTimes(w, n), News(w.feed, w.log);
      var m := Taken(|queue|, n);
      v.log == w.log && News(v.feed, v.log) == queue[m..] && v.delivered == w.delivered + queue[..m]
  {
    PollsTakeFronts(w);
    FrontsAddUp(Queues(w), Sendings(w), n);
    assert Queues(w)(0) == News(w.feed, w.log) && Sendings(w)(0) == w.delivered;
    assert Queues(w)(n) == News(PollTimes(w, n).feed, w.log) && Sendings(w)(n) == PollTimes(w, n).delivered;
  }

  predicate Passes(p: nat -> bool, k: nat) { p(k) ==> p(k + 1) }

  lemma {:induction false} Inductive(p: nat -> bool, n: nat)
    requires p(0) && forall k: nat :: Passes(p, k)
    ensures p(n)
  {
    if n > 0 {
      Inductive(p, n - 1);
      assert Passes(p, n - 1);
    }
  }

  lemma PollOnceIsSafe(w: World, v: World)
    requires Safe(w) && v == PollOnce(w)
    ensures Safe(v)
  {
    PollIsSafe(w, true);
  }

  lemma PollsAreSafe(w: World, n: nat)
    requires Safe(w)
    ensures Safe(PollTimes(w, n))
  {
    var p := (k: nat) => Safe(PollTimes(w, k));
    forall k: nat ensures Passes(p, k) {
      if p(k) {
        PollOnceIsSafe(PollTimes(w, k), PollTimes(w, k + 1));
      }
    }
    assert PollTimes(w, 0) == w;
    Inductive(p, n);
  }

  /** In a quiet world, enough online polls deliver every report and every current count in the window. */
  lemma EnoughPollsCatchUp(w: World, n: nat)
    requires Safe(w) && MAX_PER_MSG * n >= |News(w.feed, w.log)|
    ensures var v := PollTimes(w, n);
      && v.log == w.log
      && (forall r :: r in w.log ==> HasId(v.delivered, r.id))
      && forall i :: TailStart(w.log) <= i < |w.log| ==> LastDelivered(v.delivered, w.log[i].id) == w.log[i].repeatCount
  {
    PollsAreSafe(w, n);
    QueueDrains(w, n);
    DrainedIsCaughtUp(w, PollTimes(w, n), Taken(|News(w.feed, w.log)|, n));
  }

  lemma DrainedIsCaughtUp(w: World, v: World, m: nat)
    requires Safe(v) && v.log == w.log && m == |News(w.feed, w.log)| && News(v.feed, v.log) == News(w.feed, w.log)[m..]
    ensures forall r :: r in w.log ==> HasId(v.delivered, r.id)
    ensures forall i :: TailStart(w.log) <= i < |w.log| ==>
      LastDelivered(v.delivered, w.log[i].id) == w.log[i].repeatCount
  {
    EmptyQueueIsCaughtUp(v);
  }

  /** An empty queue means the peer has every report, and every current count in the tail window. */
  lemma EmptyQueueIsCaughtUp(w: World)
    requires Safe(w) && News(w.feed, w.log) == []
    ensures forall r :: r in w.log ==> HasId(w.delivered, r.id)
    ensures forall i :: TailStart(w.log) <= i < |w.log| ==>
      LastDelivered(w.delivered, w.log[i].id) == w.log[i].repeatCount
  {
    assert Filter(w.log, IsNew(w.feed.cursor)) == [] && Filter(w.log[TailStart(w.log)..], IsBumped(w.feed)) == [];
    forall r | r in w.log ensures HasId(w.delivered, r.id) && r.id <= w.feed.cursor {
      assert !IsNew(w.feed.cursor)(r) by {
        assert r !in Filter(w.log, IsNew(w.feed.cursor));
      }
      assert HasId(w.log, r.id);
    }
    forall i | TailStart(w.log) <= i < |w.log|
      ensures LastDelivered(w.delivered, w.log[i].id) == w.log[i].repeatCount
    {
      var r := w.log[i];
      assert w.log[TailStart(w.log)..][i - TailStart(w.log)] == r;
      assert r !in Filter(w.log[TailStart(w.log)..], IsBumped(w.feed));
      assert !IsBumped(w.feed)(r);
      LastDeliveredIsOne(w.delivered, r.id);
    }
  }

  lemma {:induction false} LastDeliveredIsOne(delivered: seq<Report>, id: int)
    requires HasId(delivered, id)
    ensures exists d :: d in delivered && d.id == id && d.repeatCount == LastDelivered(delivered, id)
  {
    var n := |delivered| - 1;
    if delivered[n].id != id {
      LastDeliveredIsOne(delivered[..n], id);
    }
  }

  lemma {:induction false} FilterIgnores(s: seq<Report>, p: Report -> bool, i: nat, x: Report)
    requires i < |s| && !p(s[i]) && !p(x)
    ensures Filter(s[i := x], p) == Filter(s, p)
  {
    var n := |s| - 1;
    if i < n {
      FilterIgnores(s[..n], p, i, x);
      assert s[i := x][..n] == s[..n][i := x];
    } else {
      assert s[i := x][..n] == s[..n];
    }
  }

  /** A bump outside the tail window of a report already sent is never scanned. */
  lemma BumpOutsideWindowIsUnseen(f: Feed, log: seq<Report>, i: nat, count: UInt32)
    requires i < TailStart(log) && log[i].id <= f.cursor
    ensures News(f, log[i := log[i].(repeatCount := count)]) == News(f, log)
  {
    var r := log[i].(repeatCount := count);
    FilterIgnores(log, IsNew(f.cursor), i, r);
    BumpsIgnore(f, log, i, r);
  }

  lemma BumpsIgnore(f: Feed, log: seq<Report>, i: nat, r: Report)
    requires i < TailStart(log)
    ensures Bumps(f, log[i := r]) == Bumps(f, log)
  {
    assert log[i := r][TailStart(log)..] == log[TailStart(log)..];
  }

  /**
   The nested poll of a tripped step finds nothing new exactly when the first
   poll was not capped; a report beyond the cap is found again by the next poll.
   */
  lemma NestedPollFindsNothingExactly(f: Feed, log: seq<Report>)
    requires IsLog(log)
    ensures News(Poll(f, log, true), log) == [] <==> |News(f, log)| <= MAX_PER_MSG
    ensures forall i :: 0 <= i < |News(f, log)| ==>
      (News(f, log)[i] in News(Poll(f, log, true), log) <==> i >= MAX_PER_MSG)
  {
    PollTakesTheFront(f, log);
    NewsIsDistinct(f, log);
    FrontIsGone(News(f, log));
  }

  lemma FrontIsGone(news: seq<Report>)
    requires Distinct(news)
    ensures news[Capped(|news|)..] == [] <==> |news| <= MAX_PER_MSG
    ensures forall i :: 0 <= i < |news| ==> (news[i] in news[Capped(|news|)..] <==> i >= MAX_PER_MSG)
  {
    forall i | 0 <= i < |news| ensures news[i] in news[Capped(|news|)..] <==> i >= MAX_PER_MSG {
      if i >= MAX_PER_MSG {
        assert news[Capped(|news|)..][i - MAX_PER_MSG] == news[i];
      }
    }
  }

  lemma {:induction false} FilterKeepsAll(s: seq<Report>, p: Report -> bool)
    requires forall r :: r in s ==> p(r)
    ensures Filter(s, p) == s
  {
    if s != [] {
      var n := |s| - 1;
      assert s == s[..n] + [s[n]] && s[n] in s;
      FilterKeepsAll(s[..n], p);
    }
  }

  /** From a cold start, more reports than a message holds leave work for the next poll. */
  lemma ColdFloodLeavesWork(log: seq<Report>)
    requires IsLog(log) && |log| > MAX_PER_MSG
    ensures News(Poll(NO_FEED, log, true), log) != []
  {
    FilterKeepsAll(log, IsNew(NO_FEED.cursor));
    NestedPollFindsNothingExactly(NO_FEED, log);
  }

  predicate IsCritical(r: Report) { r.severity == 2 && r.text != [] }

  /** 65 critical reports at once: the poll that trips on them leaves one for the nested poll to find. */
  lemma CappedPollLeavesWork()
    ensures exists log ::
      && IsLog(log) && (forall i :: 0 <= i < |log| ==> IsCritical(log[i]))
      && News(Poll(NO_FEED, log, true), log) != []
  {
    AlarmsAreLog();
    ColdFloodLeavesWork(Alarms());
  }

  function Alarm(id: Int32): Report { Report(id, 0, 2, 0, 0, 0, 0, 0, [0x21], 0) }

  function Alarms(): (log: seq<Report>)
    ensures |log| == 65 && forall i :: 0 <= i < 65 ==> log[i] == Alarm(i)
  {
    seq(65, i requires 0 <= i < 65 => Alarm(i))
  }

  lemma AlarmsAreLog()
    ensures IsLog(Alarms()) && forall i :: 0 <= i < 65 ==> IsCritical(Alarms()[i])
  {
    var log := Alarms();
    forall i, j | 0 <= i < j < |log| ensures ReportId(log[i]) < ReportId(log[j]) {
      assert log[i] == Alarm(i) && log[j] == Alarm(j);
    }
  }
}
