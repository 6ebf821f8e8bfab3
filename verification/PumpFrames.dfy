/** The pump frame by frame, as the `run` loop sees it: what arrived since the last frame, each
    callback with all its posts, and then one update with the posts of its handler. These are
    runs of module Pump in which nothing comes between the posts of one callback. */
module PumpFrames {
  import opened Handlers
  import opened Messages
  import opened Options
  import opened Pump
  import opened PumpLists

  datatype Event =
    | Arrives(m: Message)                     // a screen, or an engine callback with a single post
    | TrackArrives(track: nat, video: bool)
    | JoinEnds(stamp: int, e: Engine)
    | UserCloses(d: Dialog)

  /** What happens before an update, and what the engine answers during it. */
  datatype Frame = Frame(events: seq<Event>, e: Engine)

  predicate Allowed(event: Event) { event.Arrives? ==> !ControllerOnly(event.m.id) }

  ghost predicate AllAllowed(frames: seq<Frame>) { forall f <- frames, event <- f.events :: Allowed(event) }

  /** Every callback has made its posts. */
  ghost predicate Quiet(s: System) { s.scripts != [] && forall script <- s.scripts :: script == [] }

  // ---------------------------------------------------------------- the steps of a frame

  function PostAll(i: nat, n: nat): seq<Step> { seq(n, _ => PostNext(i)) }

  function EventSteps(s: System, event: Event): seq<Step> {
    match event
    case Arrives(m) => [Outside(m)]
    case TrackArrives(track, video) => [ReceiveTrack(track, video)]
    case JoinEnds(stamp, e) => [JoinStarts(stamp, e)] + PostAll(|s.scripts|, |JoinScript(stamp)|)
    case UserCloses(d) => [Close(d)]
  }

  function UpdateSteps(s: System, e: Engine): seq<Step> {
    if s.queue == [] then []
    else [Update(e)] + PostAll(0, |PostsFor(s.devices, s.vision.login, s.queue[0].m, e)|)
  }

  function EventsSteps(s: System, events: seq<Event>): seq<Step> {
    if events == [] then []
    else
      var before := EventsSteps(s, events[..|events| - 1]);
      before + EventSteps(Run(s, before), events[|events| - 1])
  }

  function FrameSteps(s: System, f: Frame): seq<Step> {
    var before := EventsSteps(s, f.events);
    before + UpdateSteps(Run(s, before), f.e)
  }

  function FramesSteps(s: System, frames: seq<Frame>): seq<Step> {
    if frames == [] then []
    else
      var before := FramesSteps(s, frames[..|frames| - 1]);
      before + FrameSteps(Run(s, before), frames[|frames| - 1])
  }

  lemma {:induction false} RunThen(s: System, a: seq<Step>, b: seq<Step>)
    requires AllTaken(s, a)
    ensures Run(s, a + b) == Run(Run(s, a), b)
    ensures AllTaken(s, a + b) <==> AllTaken(Run(s, a), b)
    decreases |a|
  {
    if a == [] {
      assert a + b == b;
    } else {
      assert (a + b)[1..] == a[1..] + b;
      RunThen(Next(s, a[0]).value, a[1..], b);
    }
  }

  lemma RunOne(s: System, step: Step)
    requires Next(s, step).Some?
    ensures AllTaken(s, [step]) && Run(s, [step]) == Next(s, step).value
  {
    assert [step][1..] == [];
  }

  // ---------------------------------------------------------------- all posts of a callback

  function Entered(i: nat, ms: seq<Message>): seq<Entry> {
    seq(|ms|, j requires 0 <= j < |ms| => Entry(i, ms[j]))
  }

  function Postings(ms: seq<Message>): seq<Happening> {
    seq(|ms|, j requires 0 <= j < |ms| => Posting(ms[j]))
  }

  function MessagesOf(queue: seq<Entry>): seq<Message> {
    seq(|queue|, j requires 0 <= j < |queue| => queue[j].m)
  }

  /** What is left of script i is posted. */
  function AllPosted(s: System, i: nat): System
    requires i < |s.scripts|
  {
    var rendered := RenderAll(s.devices, s.scripts[i]);
    s.(queue := s.queue + Entered(i, rendered), scripts := s.scripts[i := []], log := s.log + Postings(rendered))
  }

  lemma {:induction false} PostsAll(s: System, i: nat, n: nat)
    requires i < |s.scripts| && n == |s.scripts[i]|
    ensures AllTaken(s, PostAll(i, n)) && Run(s, PostAll(i, n)) == AllPosted(s, i)
    decreases n
  {
    if n == 0 {
      assert s.scripts[i := []] == s.scripts;
      assert s.queue + Entered(i, RenderAll(s.devices, s.scripts[i])) == s.queue;
      assert s.log + Postings(RenderAll(s.devices, s.scripts[i])) == s.log;
    } else {
      var s' := Next(s, PostNext(i)).value;
      assert PostAll(i, n)[1..] == PostAll(i, n - 1);
      PostsAll(s', i, n - 1);
      FirstPosted(s, s', i);
    }
  }

  lemma FirstPosted(s: System, s': System, i: nat)
    requires Next(s, PostNext(i)) == Some(s')
    ensures AllPosted(s', i) == AllPosted(s, i)
  {
    var script := s.scripts[i];
    var rendered := RenderAll(s.devices, script);
    assert rendered == [Render(s.devices, script[0])] + RenderAll(s.devices, script[1..]);
    assert Entered(i, rendered) == [Entry(i, rendered[0])] + Entered(i, RenderAll(s.devices, script[1..]));
    assert Postings(rendered) == [Posting(rendered[0])] + Postings(RenderAll(s.devices, script[1..]));
    assert s'.log + Postings(RenderAll(s.devices, script[1..])) == s.log + Postings(rendered);
    assert s'.queue + Entered(i, RenderAll(s.devices, script[1..])) == s.queue + Entered(i, rendered);
    assert s'.scripts[i := []] == s.scripts[i := []];
  }

  // ---------------------------------------------------------------- what an event does

  /** What the callback behind an event posts once it has refreshed the maps. */
  function EventPosts(event: Event): seq<Post> {
    match event
    case Arrives(m) => [PostMsg(m)]
    case TrackArrives(track, video) => [PostMsg(Message(ADD_TRACK, Track(track, video)))]
    case JoinEnds(stamp, e) => JoinScript(stamp)
    case UserCloses(_) => []
  }

  function EventDevices(d: Devices, event: Event): Devices {
    if event.JoinEnds? then Refresh(d, event.e) else d
  }

  function EventVision(v: Vision, event: Event): Vision {
    if event.UserCloses? then v.(screens := Closed(v.screens, event.d)) else v
  }

  function EventTracks(event: Event): multiset<nat> {
    if event.TrackArrives? then multiset{event.track} else multiset{}
  }

  ghost predicate Did(s: System, s': System, event: Event) {
    && Quiet(s') && s'.trace == s.trace && s'.vision == EventVision(s.vision, event)
    && s'.devices == EventDevices(s.devices, event) && s'.handed == s.handed + EventTracks(event)
    && MessagesOf(s'.queue) == MessagesOf(s.queue) + RenderAll(s'.devices, EventPosts(event))
  }

  lemma JoinIsPump(s: System, stamp: int, e: Engine)
    requires Quiet(s)
    ensures AllTaken(s, EventSteps(s, JoinEnds(stamp, e)))
    ensures Did(s, Run(s, EventSteps(s, JoinEnds(stamp, e))), JoinEnds(stamp, e))
  {
    var s1, k := Next(s, JoinStarts(stamp, e)).value, |s.scripts|;
    RunOne(s, JoinStarts(stamp, e));
    PostsAll(s1, k, |JoinScript(stamp)|);
    RunThen(s, [JoinStarts(stamp, e)], PostAll(k, |JoinScript(stamp)|));
    assert AllPosted(s1, k).scripts == s.scripts + [[]];
  }

  lemma EventIsPump(s: System, event: Event)
    requires Quiet(s) && Allowed(event)
    ensures AllTaken(s, EventSteps(s, event)) && Did(s, Run(s, EventSteps(s, event)), event)
  {
    if event.JoinEnds? {
      JoinIsPump(s, event.stamp, event.e);
    } else {
      assert s.scripts[0] in s.scripts;
      RunOne(s, EventSteps(s, event)[0]);
    }
  }

  ghost predicate Updated(s: System, s': System, e: Engine)
    requires s.queue != []
  {
    var o := Handle(s.vision, s.devices, s.queue[0].m, e);
    && Quiet(s') && s'.trace == s.trace + [Handled(s.queue[0], o.effect)]
    && s'.vision == o.vision && s'.devices == o.devices && s'.handed == s.handed
    && MessagesOf(s'.queue) == MessagesOf(s.queue)[1..] + RenderAll(o.devices, o.posts)
  }

  lemma UpdatesThenPosts(s: System, s1: System, e: Engine)
    requires Quiet(s) && Next(s, Update(e)) == Some(s1)
    ensures Updated(s, AllPosted(s1, 0), e)
  {
    var s2 := AllPosted(s1, 0);
    var o := Handle(s.vision, s.devices, s.queue[0].m, e);
    var rendered := RenderAll(o.devices, o.posts);
    assert s1.scripts[0] == o.posts && s2.queue == s.queue[1..] + Entered(0, rendered);
    assert MessagesOf(Entered(0, rendered)) == rendered;
    assert MessagesOf(s2.queue) == MessagesOf(s.queue[1..]) + MessagesOf(Entered(0, rendered));
    assert s2.scripts == s.scripts;
  }

  lemma UpdateIsPump(s: System, e: Engine)
    requires Quiet(s) && s.queue != []
    ensures AllTaken(s, UpdateSteps(s, e)) && Updated(s, Run(s, UpdateSteps(s, e)), e)
  {
    assert s.scripts[0] in s.scripts;
    var s1 := Next(s, Update(e)).value;
    var posts := PostsFor(s.devices, s.vision.login, s.queue[0].m, e);
    assert s1.scripts[0] == posts;
    RunOne(s, Update(e));
    PostsAll(s1, 0, |posts|);
    RunThen(s, [Update(e)], PostAll(0, |posts|));
    UpdatesThenPosts(s, s1, e);
  }

  // ---------------------------------------------------------------- from the start

  ghost function EffectsOf(trace: seq<Handled>): seq<Effect> {
    if trace == [] then []
    else
      var effect := trace[|trace| - 1].effect;
      EffectsOf(trace[..|trace| - 1]) + if effect.Some? then [effect.value] else []
  }

  ghost function TracksIn(queue: seq<Message>): multiset<nat> {
    if queue == [] then multiset{} else TrackOf(queue[0]) + TracksIn(queue[1..])
  }

  ghost function ReleasedIn(effects: seq<Effect>): multiset<nat> {
    if effects == [] then multiset{}
    else
      var last := effects[|effects| - 1];
      ReleasedIn(effects[..|effects| - 1]) + if last.Released? then multiset{last.track} else multiset{}
  }

  ghost function EventsTracks(events: seq<Event>): multiset<nat> {
    if events == [] then multiset{}
    else EventsTracks(events[..|events| - 1]) + EventTracks(events[|events| - 1])
  }

  /** The track references handed over in some frames. */
  ghost function FramesTracks(frames: seq<Frame>): multiset<nat> {
    if frames == [] then multiset{}
    else FramesTracks(frames[..|frames| - 1]) + EventsTracks(frames[|frames| - 1].events)
  }

  lemma {:induction false} QueuedIsTracksIn(queue: seq<Entry>)
    ensures Queued(queue) == TracksIn(MessagesOf(queue))
  {
    if queue != [] {
      assert MessagesOf(queue)[1..] == MessagesOf(queue[1..]);
      QueuedIsTracksIn(queue[1..]);
    }
  }

  lemma {:induction false} ReleasedByIsReleasedIn(trace: seq<Handled>)
    ensures ReleasedBy(trace) == ReleasedIn(EffectsOf(trace))
  {
    if trace != [] {
      var before := EffectsOf(trace[..|trace| - 1]);
      ReleasedByIsReleasedIn(trace[..|trace| - 1]);
      assert EffectsOf(trace) != before ==> EffectsOf(trace)[..|before|] == before;
    }
  }

  lemma {:induction false} EffectsOfTrace(trace: seq<Handled>, effect: Effect)
    requires effect in EffectsOf(trace)
    ensures exists h <- trace :: h.effect == Some(effect)
  {
    if trace != [] {
      var before, last := trace[..|trace| - 1], trace[|trace| - 1];
      if last.effect != Some(effect) {
        EffectsOfTrace(before, effect);
        var h :| h in before && h.effect == Some(effect);
        assert h in trace;
      }
    }
  }

  /** The laws of the pump, on the messages queued and the effects in order. */
  lemma RunObeys(steps: seq<Step>)
    ensures var s := Run(FRESH, steps);
      && s.vision.screens.start != s.vision.screens.stream && s.vision.login != RECONNECT
      && (forall effect <- EffectsOf(s.trace) :: NeedsLogin(Some(effect)) ==> s.vision.login == LOGIN)
      && s.handed == TracksIn(MessagesOf(s.queue)) + ReleasedIn(EffectsOf(s.trace))
      && (s.queue == [] && Quiet(s) ==> GivenSize(s.vision.told) == |s.devices.windows|)
  {
    var s := Run(FRESH, steps);
    MeetingsOnlyAfterLogin(steps);
    forall effect <- EffectsOf(s.trace) | NeedsLogin(Some(effect)) ensures s.vision.login == LOGIN {
      EffectsOfTrace(s.trace, effect);
      CallsComeLate(s, effect);
    }
    TracksReleasedOnce(steps);
    QueuedIsTracksIn(s.queue);
    ReleasedByIsReleasedIn(s.trace);
    DrainedWindowsAgree(steps);
  }

  lemma CallsComeLate(s: System, effect: Effect)
    requires LoginJustified(s) && NeedsLogin(Some(effect)) && exists h <- s.trace :: h.effect == Some(effect)
    ensures s.vision.login == LOGIN
  {
    var i :| 0 <= i < |s.trace| && s.trace[i].effect == Some(effect);
    assert NeedsLogin(s.trace[i].effect);
    var h :| h in s.trace[..i] && IsLogin(h.e.m);
    assert h in s.trace;
  }

  // ---------------------------------------------------------------- whole runs of frames

  /** The steps of the frames can all be taken, and hand over exactly the frames' tracks. */
  ghost predicate Plays(s: System, steps: seq<Step>, tracks: multiset<nat>) {
    AllTaken(s, steps) && Quiet(Run(s, steps)) && Run(s, steps).handed == s.handed + tracks
  }

  lemma {:induction false} EventsPlay(s: System, events: seq<Event>)
    requires Quiet(s) && forall event <- events :: Allowed(event)
    ensures Plays(s, EventsSteps(s, events), EventsTracks(events))
  {
    if events != [] {
      var before, last := events[..|events| - 1], events[|events| - 1];
      EventsPlay(s, before);
      var s1 := Run(s, EventsSteps(s, before));
      EventIsPump(s1, last);
      RunThen(s, EventsSteps(s, before), EventSteps(s1, last));
    }
  }

  lemma FramePlays(s: System, f: Frame)
    requires Quiet(s) && forall event <- f.events :: Allowed(event)
    ensures Plays(s, FrameSteps(s, f), EventsTracks(f.events))
  {
    EventsPlay(s, f.events);
    var before := EventsSteps(s, f.events);
    var s1 := Run(s, before);
    if s1.queue != [] {
      UpdateIsPump(s1, f.e);
    }
    RunThen(s, before, UpdateSteps(s1, f.e));
  }

  lemma {:induction false} FramesPlay(s: System, frames: seq<Frame>)
    requires Quiet(s) && AllAllowed(frames)
    ensures Plays(s, FramesSteps(s, frames), FramesTracks(frames))
  {
    if frames != [] {
      var before, last := frames[..|frames| - 1], frames[|frames| - 1];
      FramesPlay(s, before);
      var s1 := Run(s, FramesSteps(s, before));
      FramePlays(s1, last);
      RunThen(s, FramesSteps(s, before), FrameSteps(s1, last));
    }
  }
}
