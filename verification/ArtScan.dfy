/**
 The incremental art-history scan: a cursor over the id-sorted history events,
 and four tables of what was composed at the fort's own site.
 */
module ArtScan {
  import opened Logs

  datatype Kind = PoeticForm | MusicalForm | DanceForm | WrittenContent | NotArt

  /** `work` is the form or content id the event created. */
  datatype Event = Event(id: int, kind: Kind, site: int, work: int, year: int)

  datatype Composed = Composed(poetic: map<int, int>, musical: map<int, int>, dance: map<int, int>,
                               written: map<int, int>)

  const NOTHING := Composed(map[], map[], map[], map[])

  function Note(c: Composed, e: Event): Composed {
    match e.kind
    case PoeticForm => c.(poetic := c.poetic[e.work := e.year])
    case MusicalForm => c.(musical := c.musical[e.work := e.year])
    case DanceForm => c.(dance := c.dance[e.work := e.year])
    case WrittenContent => c.(written := c.written[e.work := e.year])
    case NotArt => c
  }

  function IdOf(e: Event): int { e.id }

  /** Everything composed at a site over the whole history: the latest event about a work wins. */
  function FullFold(events: seq<Event>, site: int): Composed {
    Fold(NOTHING, events, AtSite(site))
  }

  function Fold(c: Composed, events: seq<Event>, p: Event -> bool): Composed {
    if events == [] then c
    else
      var before := Fold(c, events[..|events| - 1], p);
      if p(events[|events| - 1]) then Note(before, events[|events| - 1]) else before
  }

  predicate IsHistory(events: seq<Event>) { Rising(events, IdOf) }

  datatype State = State(cursor: int, composed: Composed)

  const COLD := State(-1, NOTHING)

  /** What one pass does: with no resolvable site it only moves the cursor. */
  function Scan(s: State, events: seq<Event>, site: int): State {
    var unseen := Unread(events, IdOf, s.cursor);
    if unseen == [] then s else After(s, unseen, site)
  }

  function AtSite(site: int): Event -> bool { (e: Event) => e.site == site }

  class ArtLog {
    var cursor: int
    var composed: Composed

    constructor ()
      ensures State(cursor, composed) == COLD
    {
      cursor, composed := -1, NOTHING;
    }

    /** scan_art_history_events; the binary search may land anywhere at or before the first new event. */
    method ScanArtHistoryEvents(events: seq<Event>, site: int)
      requires IsHistory(events)
      modifies this
      ensures State(cursor, composed) == Scan(State(old(cursor), old(composed)), events, site)
    {
      ghost var first := FirstNew(events, IdOf, cursor);
      var idx: nat :| idx <= FirstNew(events, IdOf, cursor);
      while idx < |events| && events[idx].id <= cursor
        invariant idx <= first
      {
        idx := idx + 1;
      }
      assert idx == first;
      ghost var unseen := events[first..];
      for i := idx to |events|
        invariant i == first ==> cursor == old(cursor)
        invariant i > first ==> cursor == events[i - 1].id
        invariant composed == if site < 0 then old(composed) else Fold(old(composed), unseen[..i - first], AtSite(site))
      {
        var e := events[i];
        assert unseen[..i + 1 - first][..i - first] == unseen[..i - first] && unseen[i - first] == e;
        cursor := e.id;
        if site >= 0 && e.site == site {
          match e.kind {
            case PoeticForm => composed := composed.(poetic := composed.poetic[e.work := e.year]);
            case MusicalForm => composed := composed.(musical := composed.musical[e.work := e.year]);
            case DanceForm => composed := composed.(dance := composed.dance[e.work := e.year]);
            case WrittenContent => composed := composed.(written := composed.written[e.work := e.year]);
            case NotArt =>
          }
        }
      }
      assert unseen[..|unseen|] == unseen;
    }
  }

  lemma {:induction false} FoldConcat(c: Composed, a: seq<Event>, b: seq<Event>, p: Event -> bool)
    ensures Fold(c, a + b, p) == Fold(Fold(c, a, p), b, p)
  {
    if b == [] {
      assert a + b == a;
    } else {
      assert (a + b)[..|a + b| - 1] == a + b[..|b| - 1];
      FoldConcat(c, a, b[..|b| - 1], p);
    }
  }

  /** A pass over a prefix of the history, then one over all of it, equals a single pass. */
  lemma TwoScansEqualOne(s: State, events: seq<Event>, k: nat, site: int)
    requires IsHistory(events) && k <= |events|
    ensures Scan(Scan(s, events[..k], site), events, site) == Scan(s, events, site)
  {
    var a := Unread(events[..k], IdOf, s.cursor);
    PrefixIsRead(events, IdOf, s.cursor, k);
    if a != [] {
      ReadOn(s, a, events[k..], site);
    }
  }

  /** The state after reading `unseen`. */
  function After(s: State, unseen: seq<Event>, site: int): State
    requires unseen != []
  {
    State(unseen[|unseen| - 1].id, if site < 0 then s.composed else Fold(s.composed, unseen, AtSite(site)))
  }

  lemma ReadOn(s: State, a: seq<Event>, b: seq<Event>, site: int)
    requires a != []
    ensures (if b == [] then After(s, a, site) else After(After(s, a, site), b, site)) == After(s, a + b, site)
  {
    if b == [] {
      assert a + b == a;
    } else {
      FoldConcat(s.composed, a, b, AtSite(site));
    }
  }

  function ScanPasses(s: State, events: seq<Event>, cuts: seq<nat>, site: int): State
    requires forall i :: 0 <= i < |cuts| ==> cuts[i] <= |events|
  {
    if cuts == [] then s
    else Scan(ScanPasses(s, events, cuts[..|cuts| - 1], site), events[..cuts[|cuts| - 1]], site)
  }

  lemma {:induction false} PassesEqualOne(s: State, events: seq<Event>, cuts: seq<nat>, site: int)
    requires IsHistory(events) && cuts != []
    requires forall i :: 0 <= i < |cuts| ==> cuts[i] <= |events|
    requires forall i, j :: 0 <= i < j < |cuts| ==> cuts[i] <= cuts[j]
    ensures ScanPasses(s, events, cuts, site) == Scan(s, events[..cuts[|cuts| - 1]], site)
  {
    var n := |cuts| - 1;
    if n > 0 {
      PassesEqualOne(s, events, cuts[..n], site);
      var k, m := cuts[n - 1], cuts[n];
      assert events[..m][..k] == events[..k];
      TwoScansEqualOne(s, events[..m], k, site);
    }
  }

  lemma {:induction false} FoldSkips(c: Composed, events: seq<Event>, p: Event -> bool)
    requires forall e :: e in events && p(e) ==> e.kind == NotArt
    ensures Fold(c, events, p) == c
  {
    if events != [] {
      var n := |events| - 1;
      assert events == events[..n] + [events[n]];
      FoldSkips(c, events[..n], p);
    }
  }

  /** Once noted, a work is never forgotten. */
  lemma {:induction false} FoldNotes(c: Composed, events: seq<Event>, p: Event -> bool, e: Event)
    requires e in events && p(e) && e.kind != NotArt
    ensures Fold(c, events, p) != NOTHING
  {
    var n := |events| - 1;
    if p(events[n]) && events[n].kind != NotArt {
      var last, after := events[n], Fold(c, events, p);
      match last.kind {
        case PoeticForm => assert last.work in after.poetic;
        case MusicalForm => assert last.work in after.musical;
        case DanceForm => assert last.work in after.dance;
        case WrittenContent => assert last.work in after.written;
      }
    } else {
      assert events == events[..n] + [events[n]];
      FoldNotes(c, events[..n], p, e);
    }
  }

  /**
   From a cold start, any number of passes with one site equals the full fold
   exactly when the site is resolvable or nothing was composed there.
   */
  lemma IncrementalEqualsFullFoldExactly(events: seq<Event>, cuts: seq<nat>, site: int)
    requires IsHistory(events) && (forall i :: 0 <= i < |events| ==> events[i].id >= 0)
    requires cuts != [] && cuts[|cuts| - 1] == |events|
    requires forall i :: 0 <= i < |cuts| ==> cuts[i] <= |events|
    requires forall i, j :: 0 <= i < j < |cuts| ==> cuts[i] <= cuts[j]
    ensures ScanPasses(COLD, events, cuts, site).composed == FullFold(events, site) <==>
      site >= 0 || forall e :: e in events && e.site == site ==> e.kind == NotArt
  {
    PassesEqualOne(COLD, events, cuts, site);
    assert events[..|events|] == events;
    FirstNewUnique(events, IdOf, -1, 0);
    assert events[0..] == events;
    if site < 0 {
      if e :| e in events && e.site == site && e.kind != NotArt {
        FoldNotes(NOTHING, events, AtSite(site), e);
      } else {
        FoldSkips(NOTHING, events, AtSite(site));
      }
    }
  }

  /** Whatever was composed before the site could be resolved is lost for good. */
  lemma EventsBeforeTheSiteAreLost(events: seq<Event>, k: nat, site: int)
    requires IsHistory(events) && (forall i :: 0 <= i < |events| ==> events[i].id >= 0)
    requires k <= |events| && site >= 0
    ensures Scan(Scan(COLD, events[..k], -1), events, site).composed == Fold(NOTHING, events[k..], AtSite(site))
  {
    FirstNewUnique(events[..k], IdOf, -1, 0);
    assert events[..k][0..] == events[..k];
    FirstNewUnique(events, IdOf, if k == 0 then -1 else events[k - 1].id, k);
  }

  function Table(c: Composed, kind: Kind): map<int, int> {
    match kind
    case PoeticForm => c.poetic
    case MusicalForm => c.musical
    case DanceForm => c.dance
    case WrittenContent => c.written
    case NotArt => map[]
  }

  /** The work was composed at the site somewhere in `events`. */
  ghost predicate ComposedIn(events: seq<Event>, site: int, kind: Kind, work: int) {
    exists e :: e in events && e.site == site && e.kind == kind && e.work == work
  }

  lemma NoteAt(c: Composed, e: Event, kind: Kind, work: int)
    ensures Table(Note(c, e), kind) ==
      if e.kind == kind && kind != NotArt then Table(c, kind)[e.work := e.year] else Table(c, kind)
  {
  }

  /** A fold shows a work exactly if it was there or was composed, and what was composed hides what was there. */
  lemma {:induction false} FoldAt(c: Composed, d: Composed, events: seq<Event>, site: int, kind: Kind, work: int)
    requires kind != NotArt
    ensures var t, u := Table(Fold(c, events, AtSite(site)), kind), Table(Fold(d, events, AtSite(site)), kind);
      if ComposedIn(events, site, kind, work) then work in t && work in u && t[work] == u[work]
      else (work in t <==> work in Table(c, kind)) && (work in t ==> t[work] == Table(c, kind)[work])
  {
    if events != [] {
      var n := |events| - 1;
      FoldAt(c, d, events[..n], site, kind, work);
      NoteAt(Fold(c, events[..n], AtSite(site)), events[n], kind, work);
      NoteAt(Fold(d, events[..n], AtSite(site)), events[n], kind, work);
      assert events == events[..n] + [events[n]];
    }
  }

  lemma ShownIsComposed(events: seq<Event>, site: int, kind: Kind, work: int)
    requires kind != NotArt
    ensures work in Table(Fold(NOTHING, events, AtSite(site)), kind) <==> ComposedIn(events, site, kind, work)
  {
    FoldAt(NOTHING, NOTHING, events, site, kind, work);
  }

  /** Every work composed at the site in `earlier` is composed there again in `later`. */
  ghost predicate Recomposed(earlier: seq<Event>, later: seq<Event>, site: int) {
    forall kind, work :: kind != NotArt && ComposedIn(earlier, site, kind, work) ==> ComposedIn(later, site, kind, work)
  }

  /**
   A scan that could resolve the site only after `k` events equals the full fold
   exactly when every work composed there before is composed again.
   */
  lemma LateSiteEqualsFullFoldExactly(events: seq<Event>, k: nat, site: int)
    requires IsHistory(events) && (forall i :: 0 <= i < |events| ==> events[i].id >= 0)
    requires k <= |events| && site >= 0
    ensures Scan(Scan(COLD, events[..k], -1), events, site).composed == FullFold(events, site) <==>
      Recomposed(events[..k], events[k..], site)
  {
    EventsBeforeTheSiteAreLost(events, k, site);
    assert events == events[..k] + events[k..];
    FoldConcat(NOTHING, events[..k], events[k..], AtSite(site));
    ForgottenExactly(events[..k], events[k..], site);
  }

  lemma ForgottenExactly(earlier: seq<Event>, later: seq<Event>, site: int)
    ensures Fold(NOTHING, later, AtSite(site)) == Fold(Fold(NOTHING, earlier, AtSite(site)), later, AtSite(site)) <==>
      Recomposed(earlier, later, site)
  {
    var shown := Fold(NOTHING, earlier, AtSite(site));
    var part, full := Fold(NOTHING, later, AtSite(site)), Fold(shown, later, AtSite(site));
    if part == full {
      forall kind, work | kind != NotArt && ComposedIn(earlier, site, kind, work)
        ensures ComposedIn(later, site, kind, work)
      {
        LostUnlessRecomposed(earlier, later, site, kind, work);
      }
    }
    if Recomposed(earlier, later, site) {
      forall kind, work | kind != NotArt ensures SameAt(part, full, kind, work) {
        KeptIfRecomposed(earlier, later, site, kind, work);
      }
      SameTables(part, full);
    }
  }

  /** A work composed earlier and not later shows in the full fold only. */
  lemma LostUnlessRecomposed(earlier: seq<Event>, later: seq<Event>, site: int, kind: Kind, work: int)
    requires kind != NotArt && ComposedIn(earlier, site, kind, work)
    requires Fold(NOTHING, later, AtSite(site)) == Fold(Fold(NOTHING, earlier, AtSite(site)), later, AtSite(site))
    ensures ComposedIn(later, site, kind, work)
  {
    ShownIsComposed(earlier, site, kind, work);
    FoldAt(Fold(NOTHING, earlier, AtSite(site)), NOTHING, later, site, kind, work);
    ShownIsComposed(later, site, kind, work);
  }

  lemma KeptIfRecomposed(earlier: seq<Event>, later: seq<Event>, site: int, kind: Kind, work: int)
    requires kind != NotArt && Recomposed(earlier, later, site)
    ensures SameAt(Fold(NOTHING, later, AtSite(site)),
                   Fold(Fold(NOTHING, earlier, AtSite(site)), later, AtSite(site)), kind, work)
  {
    ShownIsComposed(earlier, site, kind, work);
    FoldAt(Fold(NOTHING, earlier, AtSite(site)), NOTHING, later, site, kind, work);
    ShownIsComposed(later, site, kind, work);
  }

  predicate SameAt(c: Composed, d: Composed, kind: Kind, work: int) {
    if work in Table(c, kind) then work in Table(d, kind) && Table(c, kind)[work] == Table(d, kind)[work]
    else work !in Table(d, kind)
  }

  lemma SameTables(c: Composed, d: Composed)
    requires forall kind, work :: kind != NotArt ==> SameAt(c, d, kind, work)
    ensures c == d
  {
    SameTable(c, d, PoeticForm);
    SameTable(c, d, MusicalForm);
    SameTable(c, d, DanceForm);
    SameTable(c, d, WrittenContent);
  }

  lemma SameTable(c: Composed, d: Composed, kind: Kind)
    requires forall work :: SameAt(c, d, kind, work)
    ensures Table(c, kind) == Table(d, kind)
  {
    var t, u := Table(c, kind), Table(d, kind);
    forall work ensures work in t <==> work in u {
      assert SameAt(c, d, kind, work);
    }
    forall work | work in t ensures t[work] == u[work] {
      assert SameAt(c, d, kind, work);
    }
  }
}
