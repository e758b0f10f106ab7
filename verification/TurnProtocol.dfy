/**
 The turn protocol: the step, pause and tripwire machine of df_ai_protocol.cpp,
 wired to the announcement poll that can re-enter it.
 */
module TurnProtocol {
  import opened Bytes
  import opened Sequences
  import opened AnnouncementFeed

  // ---------------------------------------------------------------------
  // The step machine
  // ---------------------------------------------------------------------

  /** What took a live target back to -1. */
  datatype How = Tripped | Reached | PausedByHand | Unpaused

  datatype Claim = Claim(step: int, how: How)

  /** `started` counts the steps begun so far; `claims` lists every step whose live target was taken away, in order. */
  datatype Steps = Steps(target: int, tripwire: bool, paused: bool, frame: nat, started: nat, claims: seq<Claim>)

  const NO_STEPS := Steps(-1, false, true, 0, 0, [])

  /** trip_step_tripwire: only the poll whose exchange finds a live target trips. */
  function Trip(s: Steps): Steps {
    if s.target < 0 then s.(target := -1)
    else s.(target := -1, tripwire := true, paused := true, claims := s.claims + [Claim(s.started - 1, Tripped)])
  }

  /** The pause and unpause commands clear the target without looking at it; a live one is taken. */
  function Cleared(s: Steps, how: How): Steps {
    s.(target := -1, claims := if s.target >= 0 then s.claims + [Claim(s.started - 1, how)] else s.claims)
  }

  function PauseByHand(s: Steps): Steps { Cleared(s, PausedByHand).(paused := true) }

  function Unpause(s: Steps): Steps { Cleared(s, Unpaused).(paused := false) }

  /** A new step overwrites the target of one still live, which is then never claimed. */
  function StartStep(s: Steps, ticks: UInt32): Steps {
    s.(tripwire := false, target := s.frame + ticks, paused := false, started := s.started + 1)
  }

  /** The auto-repause check of drain_pending_work_impl. */
  function Repause(s: Steps): Steps {
    if 0 <= s.target <= s.frame
    then s.(paused := true, target := -1, claims := s.claims + [Claim(s.started - 1, Reached)])
    else s
  }

  datatype Command = PauseCommand(mode: Byte, ticks: UInt32) | OtherCommand

  function Execute(s: Steps, c: Command): Steps {
    match c
    case PauseCommand(mode, ticks) =>
      if mode == 1 then PauseByHand(s)
      else if mode == 0 then Unpause(s)
      else if mode == 2 then StartStep(s, ticks)
      else s
    case OtherCommand => s
  }

  function ExecuteAll(s: Steps, commands: seq<Command>): Steps {
    if commands == [] then s else Execute(ExecuteAll(s, commands[..|commands| - 1]), commands[|commands| - 1])
  }

  /** One drain: every queued command, then the auto-repause check. */
  function Drain(s: Steps, commands: seq<Command>): Steps {
    Repause(ExecuteAll(s, commands))
  }

  // What can happen, in any order: frames pass while unpaused, the player pauses or resumes by hand in the game,
  // work is drained, a poll does or does not find something critical.
  datatype Event = Frame | Player(paused: bool) | Drained(commands: seq<Command>) | Polled(critical: bool)

  function NextSteps(s: Steps, e: Event): Steps {
    match e
    case Frame => if s.paused then s else s.(frame := s.frame + 1)
    case Player(p) => s.(paused := p)
    case Drained(commands) => Drain(s, commands)
    case Polled(critical) => if critical then Trip(s) else s
  }

  function RunSteps(events: seq<Event>): Steps {
    if events == [] then NO_STEPS else NextSteps(RunSteps(events[..|events| - 1]), events[|events| - 1])
  }

  /** The latest step has been claimed, and how. */
  predicate LatestClaimed(s: Steps, how: How) {
    s.claims != [] && s.claims[|s.claims| - 1] == Claim(s.started - 1, how)
  }

  /** No step is claimed twice. */
  ghost predicate ClaimedOnce(claims: seq<Claim>) {
    forall i, j :: 0 <= i < j < |claims| ==> claims[i].step < claims[j].step
  }

  /** What every reachable state keeps. */
  ghost predicate Sound(s: Steps) {
    && s.target >= -1 && !(s.tripwire && s.target >= 0)
    && ClaimedOnce(s.claims) && (forall c :: c in s.claims ==> 0 <= c.step < s.started)
    && (s.target >= 0 ==> s.started > 0 && forall c :: c in s.claims ==> c.step < s.started - 1)
    && (s.target < 0 && s.started > 0 ==> s.claims != [] && s.claims[|s.claims| - 1].step == s.started - 1)
    && (s.tripwire <==> LatestClaimed(s, Tripped))
  }

  /** Taking a live target claims the latest step, which no one has claimed. */
  lemma ClaimIsSound(s: Steps, how: How, paused: bool)
    requires Sound(s) && s.target >= 0
    ensures var t := s.(target := -1, tripwire := how == Tripped, paused := paused,
                        claims := s.claims + [Claim(s.started - 1, how)]);
      Sound(t) && s.claims <= t.claims
  {
  }

  lemma StartIsSound(s: Steps, ticks: UInt32)
    requires Sound(s)
    ensures Sound(StartStep(s, ticks))
  {
  }

  lemma ClearedIsSound(s: Steps, how: How, paused: bool)
    requires Sound(s) && how != Tripped
    ensures Sound(Cleared(s, how).(paused := paused)) && s.claims <= Cleared(s, how).claims
  {
    if s.target >= 0 {
      ClaimIsSound(s, how, paused);
    }
  }

  lemma ExecuteIsSound(s: Steps, c: Command)
    requires Sound(s)
    ensures Sound(Execute(s, c)) && s.claims <= Execute(s, c).claims
  {
    if c.PauseCommand? {
      if c.mode == 1 {
        ClearedIsSound(s, PausedByHand, true);
      } else if c.mode == 0 {
        ClearedIsSound(s, Unpaused, false);
      } else if c.mode == 2 {
        StartIsSound(s, c.ticks);
      }
    }
  }

  lemma {:induction false} ExecuteAllIsSound(s: Steps, commands: seq<Command>)
    requires Sound(s)
    ensures Sound(ExecuteAll(s, commands)) && s.claims <= ExecuteAll(s, commands).claims
  {
    if commands != [] {
      ExecuteAllIsSound(s, commands[..|commands| - 1]);
      ExecuteIsSound(ExecuteAll(s, commands[..|commands| - 1]), commands[|commands| - 1]);
    }
  }

  lemma RepauseIsSound(s: Steps)
    requires Sound(s)
    ensures Sound(Repause(s)) && s.claims <= Repause(s).claims
  {
    if 0 <= s.target <= s.frame {
      ClaimIsSound(s, Reached, true);
    }
  }

  lemma TripIsSound(s: Steps)
    requires Sound(s)
    ensures Sound(Trip(s)) && s.claims <= Trip(s).claims
  {
    if s.target >= 0 {
      ClaimIsSound(s, Tripped, true);
    }
  }

  /** Time and the player's own pausing touch nothing the tripwire looks at. */
  lemma DriftIsSound(s: Steps, frame: nat, paused: bool)
    requires Sound(s)
    ensures Sound(s.(frame := frame, paused := paused))
  {
  }

  lemma NextIsSound(s: Steps, e: Event)
    requires Sound(s)
    ensures Sound(NextSteps(s, e)) && s.claims <= NextSteps(s, e).claims
  {
    match e
    case Drained(commands) =>
      ExecuteAllIsSound(s, commands);
      RepauseIsSound(ExecuteAll(s, commands));
    case Polled(critical) => TripIsSound(s);
    case Frame => DriftIsSound(s, s.frame + 1, s.paused);
    case Player(p) => DriftIsSound(s, s.frame, p);
  }

  /**
   The tripwire flag and a live target never coexist, the flag says exactly whether the latest
   step was tripped, and the latest step is unclaimed exactly while its target is live.
   */
  lemma {:induction false} EveryRunIsSound(events: seq<Event>)
    ensures Sound(RunSteps(events))
  {
    if events != [] {
      EveryRunIsSound(events[..|events| - 1]);
      NextIsSound(RunSteps(events[..|events| - 1]), events[|events| - 1]);
    }
  }

  /** Over any run and any continuation of it, claims stand, and no step is claimed twice. */
  lemma {:induction false} EachStepEndsOnce(events: seq<Event>, more: seq<Event>)
    ensures RunSteps(events).claims <= RunSteps(events + more).claims
    ensures ClaimedOnce(RunSteps(events + more).claims)
  {
    EveryRunIsSound(events + more);
    if more == [] {
      assert events + more == events;
    } else {
      var earlier, e := events + more[..|more| - 1], more[|more| - 1];
      EachStepEndsOnce(events, more[..|more| - 1]);
      assert events + more == earlier + [e];
      EveryRunIsSound(earlier);
      NextIsSound(RunSteps(earlier), e);
      RunLast(earlier, e);
    }
  }

  lemma RunLast(events: seq<Event>, e: Event)
    ensures RunSteps(events + [e]) == NextSteps(RunSteps(events), e)
  {
    assert (events + [e])[..|events|] == events;
  }

  /** A step that was overtaken while live is never claimed at all. */
  lemma OvertakenIsNeverClaimed(events: seq<Event>, commands: seq<Command>, ticks: UInt32, more: seq<Event>)
    requires ExecuteAll(RunSteps(events), commands).target >= 0
    ensures var live := ExecuteAll(RunSteps(events), commands).started - 1;
      forall c :: c in RunSteps(events + [Drained(commands + [PauseCommand(2, ticks)])] + more).claims ==>
        c.step != live
  {
    var s := ExecuteAll(RunSteps(events), commands);
    var drained := events + [Drained(commands + [PauseCommand(2, ticks)])];
    EveryRunIsSound(events);
    ExecuteAllIsSound(RunSteps(events), commands);
    OvertakenIsUnclaimed(s, ticks);
    DrainStarts(RunSteps(events), commands, ticks);
    RunLast(events, Drained(commands + [PauseCommand(2, ticks)]));
    StaysUnclaimed(drained, more, s.started - 1);
  }

  lemma DrainStarts(s: Steps, commands: seq<Command>, ticks: UInt32)
    ensures Drain(s, commands + [PauseCommand(2, ticks)]) == Repause(StartStep(ExecuteAll(s, commands), ticks))
  {
    assert (commands + [PauseCommand(2, ticks)])[..|commands|] == commands;
  }

  lemma OvertakenIsUnclaimed(s: Steps, ticks: UInt32)
    requires Sound(s) && s.target >= 0
    ensures NotClaimed(Repause(StartStep(s, ticks)), s.started - 1)
  {
  }

  ghost predicate NotClaimed(s: Steps, step: int) {
    step < s.started - 1 && forall c :: c in s.claims ==> c.step != step
  }

  lemma {:induction false} StaysUnclaimedInQueue(s: Steps, commands: seq<Command>, step: int)
    requires Sound(s) && NotClaimed(s, step)
    ensures NotClaimed(ExecuteAll(s, commands), step)
  {
    if commands != [] {
      StaysUnclaimedInQueue(s, commands[..|commands| - 1], step);
    }
  }

  lemma {:induction false} StaysUnclaimed(events: seq<Event>, more: seq<Event>, step: int)
    requires NotClaimed(RunSteps(events), step)
    ensures NotClaimed(RunSteps(events + more), step)
  {
    if more == [] {
      assert events + more == events;
    } else {
      var all := events + more;
      assert all[..|all| - 1] == events + more[..|more| - 1];
      StaysUnclaimed(events, more[..|more| - 1], step);
      EveryRunIsSound(all[..|all| - 1]);
      if all[|all| - 1].Drained? {
        StaysUnclaimedInQueue(RunSteps(all[..|all| - 1]), all[|all| - 1].commands, step);
      }
    }
  }

  /** After a drain no live target is due: it is -1 or ahead of the frame counter. */
  lemma DrainLeavesNoDueTarget(events: seq<Event>, commands: seq<Command>)
    ensures var s := RunSteps(events + [Drained(commands)]); s.target == -1 || s.frame < s.target
  {
    assert (events + [Drained(commands)])[..|events|] == events;
    EveryRunIsSound(events);
    ExecuteAllIsSound(RunSteps(events), commands);
  }

  // ---------------------------------------------------------------------
  // The plugin
  // ---------------------------------------------------------------------

  /** The first critical report with a text, as the poll looks for it. */
  function CriticalText(news: seq<Report>): seq<Byte> {
    if news == [] then []
    else
      var earlier := CriticalText(news[..|news| - 1]);
      var r := news[|news| - 1];
      if earlier == [] && r.severity == 2 then r.text else earlier
  }

  lemma FilterStep(s: seq<Report>, p: Report -> bool, i: nat)
    requires i < |s|
    ensures Filter(s[..i + 1], p) == Filter(s[..i], p) + if p(s[i]) then [s[i]] else []
  {
    assert s[..i + 1][..i] == s[..i];
  }

  lemma FilterAfter(before: seq<Report>, s: seq<Report>, p: Report -> bool, i: nat)
    requires i < |s|
    ensures before + Filter(s[..i + 1], p) == before + Filter(s[..i], p) + if p(s[i]) then [s[i]] else []
  {
    FilterStep(s, p, i);
  }

  lemma HighestStep(cursor: Int32, batch: seq<Report>, r: Report)
    ensures Highest(cursor, batch + [r]) == if r.id > Highest(cursor, batch) then r.id else Highest(cursor, batch)
  {
    assert (batch + [r])[..|batch|] == batch;
  }

  lemma CriticalStep(news: seq<Report>, r: Report)
    ensures CriticalText(news + [r]) ==
      if CriticalText(news) == [] && r.severity == 2 then r.text else CriticalText(news)
  {
    assert (news + [r])[..|news|] == news;
  }

  /** What polls, trips and refreshes change. */
  datatype Front = Front(feed: Feed, steps: Steps, reason: seq<Byte>, wire: seq<seq<Report>>)

  /** The game's reports and the state of the connection, which they do not. */
  datatype Link = Link(log: seq<Report>, connected: bool, online: bool)

  /** One poll without its trip: at most one message. */
  function Delivered(f: Front, link: Link): Front {
    f.(feed := Poll(f.feed, link.log, link.online), wire := f.wire + Message(Batch(f.feed, link.log, link.online)))
  }

  /** push_state_refresh, with no step live. */
  function Refreshed(f: Front, link: Link): Front {
    if link.connected && link.online then Delivered(f, link) else f
  }

  function TrippedBy(f: Front, link: Link, text: seq<Byte>): Front {
    if f.steps.target < 0 then f.(steps := Trip(f.steps))
    else Refreshed(f.(steps := Trip(f.steps), reason := text), link)
  }

  function PolledFront(f: Front, link: Link, text: seq<Byte>): Front {
    if text == [] then Delivered(f, link) else TrippedBy(Delivered(f, link), link, text)
  }

  function Executed(f: Front, link: Link, c: Command): Front {
    var g := f.(steps := Execute(f.steps, c));
    if c.PauseCommand? && c.mode == 1 then Refreshed(g, link)
    else if c.PauseCommand? && c.mode == 2 then g.(reason := [])
    else g
  }

  function ExecutedAll(f: Front, link: Link, commands: seq<Command>): Front {
    if commands == [] then f
    else Executed(ExecutedAll(f, link, commands[..|commands| - 1]), link, commands[|commands| - 1])
  }

  function DrainedFront(f: Front, link: Link, commands: seq<Command>): Front {
    var g := ExecutedAll(f, link, commands);
    if 0 <= g.steps.target <= g.steps.frame then Refreshed(g.(steps := Repause(g.steps)), link) else g
  }

  /**
   A poll claims the live step, changes the reason and sends a second message for the same cause:
   something critical was found while a target was live.
   */
  lemma ClaimGoesWithReasonAndMessage(f: Front, link: Link, text: seq<Byte>)
    ensures var g, once := PolledFront(f, link, text), Delivered(f, link);
      var tripped := text != [] && f.steps.target >= 0;
      && g.steps.claims == (if tripped then f.steps.claims + [Claim(f.steps.started - 1, Tripped)] else f.steps.claims)
      && g.reason == (if tripped then text else f.reason)
      && g.steps.tripwire == (tripped || f.steps.tripwire)
      && g.feed == (if tripped then Refreshed(once, link) else once).feed
      && g.wire == (if tripped then Refreshed(once, link) else once).wire
  {
  }

  /**
   A trip over an online connection sends the front of the queue and then the front of the rest:
   two messages, rather than one or none, exactly when the first was capped.
   */
  lemma TripSendsTwiceExactly(f: Front, link: Link, text: seq<Byte>)
    requires IsLog(link.log) && f.steps.target >= 0 && text != [] && link.connected && link.online
    ensures var news, wire := News(f.feed, link.log), PolledFront(f, link, text).wire;
      var m := Capped(|news|);
      && wire == f.wire + Message(news[..m]) + Message(news[m..][..Capped(|news| - m)])
      && (|wire| == |f.wire| + 2 <==> |news| > MAX_PER_MSG)
  {
    PollTakesTheFront(f.feed, link.log);
  }

  lemma {:induction false} QueueRunsTheSteps(f: Front, link: Link, commands: seq<Command>)
    ensures ExecutedAll(f, link, commands).steps == ExecuteAll(f.steps, commands)
    ensures DrainedFront(f, link, commands).steps == Drain(f.steps, commands)
  {
    if commands != [] {
      QueueRunsTheSteps(f, link, commands[..|commands| - 1]);
    }
  }

  class Plugin {
    // the game and the connection
    var announcements: seq<Report>
    var frame: nat
    var paused: bool
    var connected: bool
    var online: bool
    // g_last_sent_report_id, g_last_sent_repeat_count
    var cursor: Int32
    var sent: map<Int32, UInt32>
    // g_step_target_frame, g_step_tripwire, g_tripwire_reason
    var target: int
    var tripwire: bool
    var reason: seq<Byte>
    // what the socket has been handed
    var wire: seq<seq<Report>>
    ghost var started: nat
    ghost var claims: seq<Claim>

    ghost function StepsNow(): Steps
      reads this
    {
      Steps(target, tripwire, paused, frame, started, claims)
    }

    ghost function FrontNow(): Front
      reads this
    {
      Front(Feed(cursor, sent), StepsNow(), reason, wire)
    }

    ghost function LinkNow(): Link
      reads this
    {
      Link(announcements, connected, online)
    }

    // the measure of the re-entrant calls: a live target is claimed at most once
    function Live(): nat
      reads this
    {
      if target >= 0 then 1 else 0
    }

    /** send_announcement_update: at most one capped message. */
    method SendAnnouncementUpdate(news: seq<Report>) returns (count: nat)
      modifies this`wire
      ensures count == if online then Capped(|news|) else 0
      ensures wire == old(wire) + Message(news[..count])
    {
      if !online || news == [] {
        return 0;
      }
      count := if |news| > MAX_PER_MSG then MAX_PER_MSG else |news|;
      wire := wire + [news[..count]];
    }

    method CollectNew() returns (news: seq<Report>, newHighest: Int32, criticalText: seq<Byte>)
      ensures news == Unseen(Feed(cursor, sent), announcements)
      ensures newHighest == Highest(cursor, news)
      ensures criticalText == CriticalText(news)
    {
      news, newHighest, criticalText := [], cursor, [];
      for i := 0 to |announcements|
        invariant news == Filter(announcements[..i], IsNew(cursor))
        invariant newHighest == Highest(cursor, news)
        invariant criticalText == CriticalText(news)
      {
        FilterStep(announcements, IsNew(cursor), i);
        if announcements[i].id > cursor {
          newHighest, criticalText := TakeNew(news, newHighest, criticalText, announcements[i]);
          news := news + [announcements[i]];
        }
      }
      assert announcements[..|announcements|] == announcements;
    }

    /** What one new report changes. */
    method TakeNew(ghost news: seq<Report>, newHighest0: Int32, criticalText0: seq<Byte>, r: Report)
      returns (newHighest: Int32, criticalText: seq<Byte>)
      requires newHighest0 == Highest(cursor, news) && criticalText0 == CriticalText(news)
      ensures newHighest == Highest(cursor, news + [r]) && criticalText == CriticalText(news + [r])
    {
      CriticalStep(news, r);
      HighestStep(cursor, news, r);
      newHighest, criticalText := newHighest0, criticalText0;
      if r.id > newHighest {
        newHighest := r.id;
      }
      if criticalText == [] && r.severity == 2 {
        criticalText := r.text;
      }
    }

    method CollectBumps(news0: seq<Report>, criticalText0: seq<Byte>)
      returns (news: seq<Report>, criticalText: seq<Byte>)
      requires criticalText0 == CriticalText(news0)
      ensures news == news0 + Bumps(Feed(cursor, sent), announcements)
      ensures criticalText == CriticalText(news)
    {
      var window, f := announcements[TailStart(announcements)..], Feed(cursor, sent);
      news, criticalText := news0, criticalText0;
      for i := 0 to |window|
        invariant news == news0 + Filter(window[..i], IsBumped(f))
        invariant criticalText == CriticalText(news)
      {
        var r := window[i];
        FilterAfter(news0, window, IsBumped(f), i);
        CriticalStep(news, r);
        if r.id <= f.cursor && r.repeatCount > LastCount(f.sent, r.id) {
          news := news + [r];
          if criticalText == [] && r.severity == 2 {
            criticalText := r.text;
          }
        }
      }
      assert window[..|window|] == window;
    }

    /** Forgets the counts of reports that left the tail window, in whatever order the map is walked. */
    method PruneSent()
      requires announcements != []
      modifies this`sent
      ensures sent == Pruned(old(sent), announcements)
    {
      var boundary := announcements[TailStart(announcements)].id;
      var rest := sent.Keys;
      while rest != {}
        invariant rest <= sent.Keys <= old(sent).Keys
        invariant forall id :: id in old(sent) ==> (id in sent <==> id in rest || id >= boundary)
        invariant forall id :: id in sent ==> sent[id] == old(sent)[id]
        decreases rest
      {
        var id :| id in rest;
        if id < boundary {
          sent := sent - {id};
        }
        rest := rest - {id};
      }
    }

    /** The cursor takes over the highest id among the reports just sent. */
    method AdvanceCursor(news: seq<Report>, newHighest: Int32, count: nat)
      requires count <= |news| && newHighest == Highest(cursor, news)
      modifies this`cursor
      ensures cursor == Highest(old(cursor), news[..count])
    {
      if count == |news| {
        assert news[..count] == news;
        cursor := newHighest;
      } else {
        var partial := cursor;
        for i := 0 to count
          invariant cursor == old(cursor) && partial == Highest(cursor, news[..i])
        {
          assert news[..i + 1][..i] == news[..i];
          if news[i].id > partial {
            partial := news[i].id;
          }
        }
        cursor := partial;
      }
    }

    /** The map takes over the count of every report just sent. */
    method RecordCounts(news: seq<Report>, count: nat)
      requires count <= |news|
      modifies this`sent
      ensures sent == Recorded(old(sent), news[..count])
    {
      for i := 0 to count
        invariant sent == Recorded(old(sent), news[..i])
      {
        assert news[..i + 1][..i] == news[..i];
        sent := sent[news[i].id := news[i].repeatCount];
      }
    }

    /** Sends what was collected, and on success moves the cursor and the map past it. */
    method Deliver(news: seq<Report>, newHighest: Int32) returns (count: nat)
      requires newHighest == Highest(cursor, news)
      modifies this`cursor, this`sent, this`wire
      ensures count == if online then Capped(|news|) else 0
      ensures cursor == Highest(old(cursor), news[..count])
      ensures sent == Recorded(old(sent), news[..count])
      ensures wire == old(wire) + Message(news[..count])
    {
      count := SendAnnouncementUpdate(news);
      if count > 0 {
        AdvanceCursor(news, newHighest, count);
        RecordCounts(news, count);
      }
    }

    /** A non-empty announcement list: everything new is collected, capped, sent and recorded. */
    method PollLog() returns (count: nat, text: seq<Byte>, ghost news: seq<Report>)
      requires announcements != []
      modifies this`cursor, this`sent, this`wire
      ensures news == News(old(Feed(cursor, sent)), announcements)
      ensures CriticalText(news) != [] ==> text == CriticalText(news)
      ensures count == if online then Capped(|news|) else 0
      ensures cursor == Highest(old(cursor), news[..count])
      ensures sent == Recorded(Pruned(old(sent), announcements), news[..count])
      ensures wire == old(wire) + Message(news[..count])
    {
      var unseen, newHighest, newText := CollectNew();
      HighestOfNews(Feed(cursor, sent), announcements);
      var all;
      all, text := CollectBumps(unseen, newText);
      news := all;
      PruneSent();
      if text == [] {
        text := *;
      }
      count := Deliver(all, newHighest);
    }

    /** The poll up to the trip: `text` is a critical report's, or else whatever the wildlife check says. */
    method PollFeed() returns (count: nat, text: seq<Byte>)
      modifies this`cursor, this`sent, this`wire
      ensures CriticalText(News(old(Feed(cursor, sent)), announcements)) != [] ==>
        text == CriticalText(News(old(Feed(cursor, sent)), announcements))
      ensures count == |Batch(old(Feed(cursor, sent)), announcements, online)|
      ensures FrontNow() == Delivered(old(FrontNow()), LinkNow())
    {
      if announcements == [] {
        NothingToPoll(Feed(cursor, sent), online);
        text := *;
        count := 0;
      } else {
        ghost var f, news := Feed(cursor, sent), [];
        count, text, news := PollLog();
        PollOfNews(f, announcements, online, news, count);
      }
    }

    /** poll_and_send_announcements. A trip re-enters it once, through the state refresh. */
    method PollAndSend() returns (count: nat, criticalText: seq<Byte>)
      modifies this
      ensures LinkNow() == old(LinkNow())
      ensures CriticalText(News(old(Feed(cursor, sent)), announcements)) != [] ==>
        criticalText == CriticalText(News(old(Feed(cursor, sent)), announcements))
      ensures count == |Batch(old(Feed(cursor, sent)), announcements, online)|
      ensures FrontNow() == PolledFront(old(FrontNow()), LinkNow(), criticalText)
      decreases Live(), 1
    {
      count, criticalText := PollFeed();
      if criticalText != [] {
        TripStepTripwire(criticalText);
      }
    }

    /** trip_step_tripwire */
    method TripStepTripwire(text: seq<Byte>)
      modifies this
      ensures LinkNow() == old(LinkNow())
      ensures FrontNow() == TrippedBy(old(FrontNow()), LinkNow(), text)
      decreases Live(), 0
    {
      var claimed := target;
      target := -1;
      if claimed < 0 {
        return;
      }
      tripwire, reason := true, text;
      paused := true;
      claims := claims + [Claim(started - 1, Tripped)];
      PushStateRefresh();
    }

    /** push_state_refresh, called at every turn boundary, when no step is left running. */
    method PushStateRefresh()
      requires target == -1
      modifies this
      ensures LinkNow() == old(LinkNow())
      ensures FrontNow() == Refreshed(old(FrontNow()), LinkNow())
      decreases Live(), 2
    {
      if !connected || !online {
        return;
      }
      var _, _ := PollAndSend();
    }

    /** The PAUSE case of executeCommand; other commands leave the step machine alone. */
    method ExecuteCommand(c: Command)
      modifies this
      ensures LinkNow() == old(LinkNow())
      ensures FrontNow() == Executed(old(FrontNow()), LinkNow(), c)
    {
      if c.PauseCommand? {
        if c.mode == 1 {
          claims := if target >= 0 then claims + [Claim(started - 1, PausedByHand)] else claims;
          paused := true;
          target := -1;
          PushStateRefresh();
        } else if c.mode == 0 {
          claims := if target >= 0 then claims + [Claim(started - 1, Unpaused)] else claims;
          paused := false;
          target := -1;
        } else if c.mode == 2 {
          tripwire, reason := false, [];
          target := frame + c.ticks;
          paused := false;
          started := started + 1;
        }
      }
    }

    /** drain_pending_work_impl, up to the query queue. */
    method DrainPendingWork(queue: seq<Command>)
      modifies this
      ensures LinkNow() == old(LinkNow())
      ensures FrontNow() == DrainedFront(old(FrontNow()), LinkNow(), queue)
      ensures StepsNow() == Drain(old(StepsNow()), queue)
      ensures target < 0 || frame < target
    {
      ghost var link := LinkNow();
      for i := 0 to |queue|
        invariant LinkNow() == link && FrontNow() == ExecutedAll(old(FrontNow()), link, queue[..i])
      {
        assert queue[..i + 1][..i] == queue[..i];
        ExecuteCommand(queue[i]);
      }
      assert queue[..|queue|] == queue;
      if target >= 0 && frame >= target {
        paused := true;
        target := -1;
        claims := claims + [Claim(started - 1, Reached)];
        PushStateRefresh();
      }
      QueueRunsTheSteps(old(FrontNow()), link, queue);
    }
  }

  lemma NothingToPoll(f: Feed, online: bool)
    ensures News(f, []) == [] && Batch(f, [], online) == [] && Poll(f, [], online) == f
  {
  }

  lemma PollOfNews(f: Feed, log: seq<Report>, online: bool, news: seq<Report>, count: nat)
    requires news == News(f, log) && count == if online then Capped(|news|) else 0
    ensures count <= |news| && Batch(f, log, online) == news[..count]
    ensures Poll(f, log, online).cursor == Highest(f.cursor, news[..count])
    ensures Poll(f, log, online).sent == Recorded(Pruned(f.sent, log), news[..count])
    ensures count == 0 ==> Poll(f, log, online) == Feed(f.cursor, Pruned(f.sent, log))
  {
  }

  /** An empty batch is no message at all. */
  function Message(batch: seq<Report>): seq<seq<Report>> {
    if batch == [] then [] else [batch]
  }

  lemma HighestOfNews(f: Feed, log: seq<Report>)
    ensures Highest(f.cursor, News(f, log)) == Highest(f.cursor, Unseen(f, log))
  {
    HighestIgnoresOld(f.cursor, Unseen(f, log), Bumps(f, log));
  }

  lemma {:induction false} HighestIgnoresOld(cursor: Int32, batch: seq<Report>, stale: seq<Report>)
    requires forall r :: r in stale ==> r.id <= cursor
    ensures Highest(cursor, batch + stale) == Highest(cursor, batch)
  {
    if stale == [] {
      assert batch + stale == batch;
    } else {
      var n := |stale| - 1;
      assert (batch + stale)[..|batch + stale| - 1] == batch + stale[..n];
      HighestIgnoresOld(cursor, batch, stale[..n]);
    }
  }
}
