/**
 Whole runs of the plugin: polls, the polls nested in trips, refreshes and drains
 together are a run of the delivery protocol, and what the messages hold is what it delivered.
 */
module PluginRuns {
  import opened AnnouncementFeed
  import opened Bytes
  import opened TurnProtocol

  type FeedEvent = AnnouncementFeed.Event

  /** Every report handed to the socket, in order. */
  function Handed(wire: seq<seq<Report>>): seq<Report> {
    if wire == [] then [] else Handed(wire[..|wire| - 1]) + wire[|wire| - 1]
  }

  /** The delivery protocol's view of a plugin whose game has this log. */
  function WorldOf(f: Front, log: seq<Report>): World { World(log, f.feed, Handed(f.wire)) }

  function Follow(w: World, events: seq<FeedEvent>): World {
    if events == [] then w else AnnouncementFeed.Next(Follow(w, events[..|events| - 1]), events[|events| - 1])
  }

  lemma {:induction false} FollowConcat(w: World, a: seq<FeedEvent>, b: seq<FeedEvent>)
    ensures Follow(w, a + b) == Follow(Follow(w, a), b)
  {
    if b == [] {
      assert a + b == a;
    } else {
      assert (a + b)[..|a + b| - 1] == a + b[..|b| - 1];
      FollowConcat(w, a, b[..|b| - 1]);
    }
  }

  lemma FollowOne(w: World, e: FeedEvent)
    ensures Follow(w, [e]) == AnnouncementFeed.Next(w, e)
  {
    assert [e][..0] == [];
    assert Follow(w, []) == w;
  }

  lemma {:induction false} FollowIsRun(events: seq<FeedEvent>)
    ensures Follow(START, events) == AnnouncementFeed.Run(events)
  {
    if events != [] {
      FollowIsRun(events[..|events| - 1]);
    }
  }

  // ---------------------------------------------------------------------
  // What each operation does to the feed
  // ---------------------------------------------------------------------

  function RefreshTrace(link: Link): seq<FeedEvent> {
    if link.connected && link.online then [PollAndSend(true)] else []
  }

  /** One poll, and a second one if it trips a step. */
  function PollTrace(f: Front, link: Link, text: seq<Byte>): seq<FeedEvent> {
    [PollAndSend(link.online)] + if text != [] && f.steps.target >= 0 then RefreshTrace(link) else []
  }

  function CommandTrace(link: Link, c: Command): seq<FeedEvent> {
    if c.PauseCommand? && c.mode == 1 then RefreshTrace(link) else []
  }

  function QueueTrace(link: Link, commands: seq<Command>): seq<FeedEvent> {
    if commands == [] then []
    else QueueTrace(link, commands[..|commands| - 1]) + CommandTrace(link, commands[|commands| - 1])
  }

  function DrainTrace(f: Front, link: Link, commands: seq<Command>): seq<FeedEvent> {
    var s := ExecuteAll(f.steps, commands);
    QueueTrace(link, commands) + if 0 <= s.target <= s.frame then RefreshTrace(link) else []
  }

  lemma HandedMessage(wire: seq<seq<Report>>, batch: seq<Report>)
    ensures Handed(wire + Message(batch)) == Handed(wire) + batch
  {
    if batch == [] {
      assert wire + Message(batch) == wire;
    } else {
      assert (wire + [batch])[..|wire|] == wire;
    }
  }

  lemma DeliveredFollows(f: Front, link: Link)
    ensures WorldOf(Delivered(f, link), link.log) ==
      AnnouncementFeed.Next(WorldOf(f, link.log), PollAndSend(link.online))
  {
    HandedMessage(f.wire, Batch(f.feed, link.log, link.online));
  }

  lemma RefreshedFollows(f: Front, link: Link)
    ensures WorldOf(Refreshed(f, link), link.log) == Follow(WorldOf(f, link.log), RefreshTrace(link))
  {
    if link.connected && link.online {
      DeliveredFollows(f, link);
      FollowOne(WorldOf(f, link.log), PollAndSend(true));
    }
  }

  lemma PolledFollows(f: Front, link: Link, text: seq<Byte>)
    ensures WorldOf(PolledFront(f, link, text), link.log) == Follow(WorldOf(f, link.log), PollTrace(f, link, text))
  {
    var g, w, e := Delivered(f, link), WorldOf(f, link.log), PollAndSend(link.online);
    DeliveredFollows(f, link);
    FollowOne(w, e);
    if text != [] && f.steps.target >= 0 {
      RefreshedFollows(g.(steps := Trip(g.steps), reason := text), link);
      FollowConcat(w, [e], RefreshTrace(link));
    } else {
      assert PollTrace(f, link, text) == [e];
    }
  }

  lemma ExecutedFollows(f: Front, link: Link, c: Command)
    ensures WorldOf(Executed(f, link, c), link.log) == Follow(WorldOf(f, link.log), CommandTrace(link, c))
  {
    RefreshedFollows(f.(steps := Execute(f.steps, c)), link);
  }

  lemma {:induction false} ExecutedAllFollows(f: Front, link: Link, commands: seq<Command>)
    ensures WorldOf(ExecutedAll(f, link, commands), link.log) ==
      Follow(WorldOf(f, link.log), QueueTrace(link, commands))
  {
    if commands != [] {
      var front, c := commands[..|commands| - 1], commands[|commands| - 1];
      ExecutedAllFollows(f, link, front);
      ExecutedFollows(ExecutedAll(f, link, front), link, c);
      FollowConcat(WorldOf(f, link.log), QueueTrace(link, front), CommandTrace(link, c));
    }
  }

  lemma DrainedFollows(f: Front, link: Link, commands: seq<Command>)
    ensures WorldOf(DrainedFront(f, link, commands), link.log) ==
      Follow(WorldOf(f, link.log), DrainTrace(f, link, commands))
  {
    var g := ExecutedAll(f, link, commands);
    QueueRunsTheSteps(f, link, commands);
    ExecutedAllFollows(f, link, commands);
    if 0 <= g.steps.target <= g.steps.frame {
      RefreshedFollows(g.(steps := Repause(g.steps)), link);
      FollowConcat(WorldOf(f, link.log), QueueTrace(link, commands), RefreshTrace(link));
    } else {
      assert DrainTrace(f, link, commands) == QueueTrace(link, commands);
    }
  }

  // ---------------------------------------------------------------------
  // Runs
  // ---------------------------------------------------------------------

  // What can happen, in any order: the game appends or bumps reports, time and the player move the step machine,
  // the plugin polls, drains, or starts over with a new connection.
  datatype Happening =
    | Appended(report: Report)
    | Bumped(index: nat, count: UInt32)
    | Passes(frame: nat, paused: bool)
    | Polls(connected: bool, online: bool, text: seq<Byte>)
    | Drains(connected: bool, online: bool, commands: seq<Command>)
    | Reconnects

  datatype Running = Running(front: Front, log: seq<Report>) {
    function World(): World { WorldOf(front, log) }
  }

  const STARTING := Running(Front(NO_FEED, NO_STEPS, [], []), [])

  function Happened(r: Running, h: Happening): Running {
    match h
    case Appended(report) => r.(log := AnnouncementFeed.Next(r.World(), Append(report)).log)
    case Bumped(index, count) => r.(log := AnnouncementFeed.Next(r.World(), Bump(index, count)).log)
    case Passes(frame, paused) => r.(front := r.front.(steps := r.front.steps.(frame := frame, paused := paused)))
    case Polls(connected, online, text) => r.(front := PolledFront(r.front, Link(r.log, connected, online), text))
    case Drains(connected, online, commands) =>
      r.(front := DrainedFront(r.front, Link(r.log, connected, online), commands))
    case Reconnects => r.(front := r.front.(feed := NO_FEED, wire := []))
  }

  function TraceOf(r: Running, h: Happening): seq<FeedEvent> {
    match h
    case Appended(report) => [Append(report)]
    case Bumped(index, count) => [Bump(index, count)]
    case Passes(_, _) => []
    case Polls(connected, online, text) => PollTrace(r.front, Link(r.log, connected, online), text)
    case Drains(connected, online, commands) => DrainTrace(r.front, Link(r.log, connected, online), commands)
    case Reconnects => [Reset]
  }

  function RunPlugin(happenings: seq<Happening>): Running {
    if happenings == [] then STARTING
    else Happened(RunPlugin(happenings[..|happenings| - 1]), happenings[|happenings| - 1])
  }

  function TraceOfRun(happenings: seq<Happening>): seq<FeedEvent> {
    if happenings == [] then []
    else
      var n := |happenings| - 1;
      TraceOfRun(happenings[..n]) + TraceOf(RunPlugin(happenings[..n]), happenings[n])
  }

  lemma HappenedFollows(r: Running, h: Happening)
    ensures Happened(r, h).World() == Follow(r.World(), TraceOf(r, h))
  {
    match h
    case Appended(report) => FollowOne(r.World(), Append(report));
    case Bumped(index, count) => FollowOne(r.World(), Bump(index, count));
    case Passes(_, _) =>
    case Polls(connected, online, text) => PolledFollows(r.front, Link(r.log, connected, online), text);
    case Drains(connected, online, commands) => DrainedFollows(r.front, Link(r.log, connected, online), commands);
    case Reconnects => FollowOne(r.World(), Reset);
  }

  /**
   Every run of the plugin is a run of the delivery protocol, and its messages together are what that
   run delivered.
   */
  lemma {:induction false} RunIsFeedRun(happenings: seq<Happening>)
    ensures RunPlugin(happenings).World() == AnnouncementFeed.Run(TraceOfRun(happenings))
  {
    FollowIsRun(TraceOfRun(happenings));
    if happenings != [] {
      var n := |happenings| - 1;
      var r := RunPlugin(happenings[..n]);
      RunIsFeedRun(happenings[..n]);
      FollowIsRun(TraceOfRun(happenings[..n]));
      HappenedFollows(r, happenings[n]);
      FollowConcat(START, TraceOfRun(happenings[..n]), TraceOf(r, happenings[n]));
    }
  }

  /** So over every run, nested polls and refreshes included, the plugin delivers safely. */
  lemma EveryPluginRunIsSafe(happenings: seq<Happening>)
    ensures Safe(RunPlugin(happenings).World())
  {
    RunIsFeedRun(happenings);
    EveryRunIsSafe(TraceOfRun(happenings));
  }

  // ---------------------------------------------------------------------
  // The step machine inside the plugin
  // ---------------------------------------------------------------------

  /**
   The step machine is sound, and a reason is on record exactly while the flag says that the latest
   step was tripped.
   */
  ghost predicate WellTold(f: Front) {
    Sound(f.steps) && (f.steps.tripwire <==> f.reason != [])
  }

  lemma PolledIsWellTold(f: Front, link: Link, text: seq<Byte>)
    requires WellTold(f)
    ensures WellTold(PolledFront(f, link, text)) && f.steps.claims <= PolledFront(f, link, text).steps.claims
  {
    TripIsSound(f.steps);
    ClaimGoesWithReasonAndMessage(f, link, text);
  }

  lemma ExecutedIsWellTold(f: Front, link: Link, c: Command)
    requires WellTold(f)
    ensures WellTold(Executed(f, link, c)) && f.steps.claims <= Executed(f, link, c).steps.claims
  {
    ExecuteIsSound(f.steps, c);
  }

  lemma {:induction false} ExecutedAllIsWellTold(f: Front, link: Link, commands: seq<Command>)
    requires WellTold(f)
    ensures WellTold(ExecutedAll(f, link, commands)) && f.steps.claims <= ExecutedAll(f, link, commands).steps.claims
  {
    if commands != [] {
      ExecutedAllIsWellTold(f, link, commands[..|commands| - 1]);
      ExecutedIsWellTold(ExecutedAll(f, link, commands[..|commands| - 1]), link, commands[|commands| - 1]);
    }
  }

  lemma DrainedIsWellTold(f: Front, link: Link, commands: seq<Command>)
    requires WellTold(f)
    ensures WellTold(DrainedFront(f, link, commands)) && f.steps.claims <= DrainedFront(f, link, commands).steps.claims
  {
    ExecutedAllIsWellTold(f, link, commands);
    RepauseIsSound(ExecutedAll(f, link, commands).steps);
  }

  lemma HappenedIsWellTold(r: Running, h: Happening)
    requires WellTold(r.front)
    ensures WellTold(Happened(r, h).front) && r.front.steps.claims <= Happened(r, h).front.steps.claims
  {
    match h
    case Passes(frame, paused) => DriftIsSound(r.front.steps, frame, paused);
    case Polls(connected, online, text) => PolledIsWellTold(r.front, Link(r.log, connected, online), text);
    case Drains(connected, online, commands) => DrainedIsWellTold(r.front, Link(r.log, connected, online), commands);
    case _ =>
  }

  /** Over every run of the plugin the step machine stays sound and the reason on record goes with the flag. */
  lemma {:induction false} EveryPluginRunIsWellTold(happenings: seq<Happening>)
    ensures WellTold(RunPlugin(happenings).front)
  {
    if happenings != [] {
      EveryPluginRunIsWellTold(happenings[..|happenings| - 1]);
      HappenedIsWellTold(RunPlugin(happenings[..|happenings| - 1]), happenings[|happenings| - 1]);
    }
  }

  /** Over any plugin run and continuation, claims stand and no step's end is claimed twice. */
  lemma {:induction false} EachPluginStepEndsOnce(happenings: seq<Happening>, more: seq<Happening>)
    ensures var claims := RunPlugin(happenings + more).front.steps.claims;
      RunPlugin(happenings).front.steps.claims <= claims && ClaimedOnce(claims)
  {
    EveryPluginRunIsWellTold(happenings + more);
    if more == [] {
      assert happenings + more == happenings;
    } else {
      var earlier, h := happenings + more[..|more| - 1], more[|more| - 1];
      EachPluginStepEndsOnce(happenings, more[..|more| - 1]);
      assert happenings + more == earlier + [h];
      EveryPluginRunIsWellTold(earlier);
      HappenedIsWellTold(RunPlugin(earlier), h);
      RunPluginLast(earlier, h);
    }
  }

  lemma RunPluginLast(happenings: seq<Happening>, h: Happening)
    ensures RunPlugin(happenings + [h]) == Happened(RunPlugin(happenings), h)
  {
    assert (happenings + [h])[..|happenings|] == happenings;
  }
}
