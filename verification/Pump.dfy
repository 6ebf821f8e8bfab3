/** The message pump as a whole: the UI thread that takes messages off the shared queue and
    handles them, and the engine's threads and the screens that post into it. Each post is a
    step of its own, so the posts of any callbacks interleave freely. */
module Pump {
  import opened Handlers
  import opened Messages
  import opened Options

  /** A queued message and the script that posted it (0: the UI thread, a screen, or an engine
      callback with a single post). */
  datatype Entry = Entry(from: nat, m: Message)

  /** A message that was handled and the effect that had. */
  datatype Handled = Handled(e: Entry, effect: Option<Effect>)

  /** One thing that happened: a message was posted or handled, the user closed a dialog, or the
      engine answered a joining callback about its devices. */
  datatype Happening = Posting(m: Message) | Handling(m: Message, e: Engine) | Closing(d: Dialog) | Answering(e: Engine)

  /** `scripts[0]` are the posts of the message being handled that are still to come; every other
      script is one OnJoinMeetingSuccess. `handed` are the track references handed over,
      and `log` is everything that happened. */
  datatype System = System(
    vision: Vision, devices: Devices, queue: seq<Entry>, scripts: seq<seq<Post>>,
    trace: seq<Handled>, handed: multiset<nat>, log: seq<Happening>)

  datatype Step =
    | Outside(m: Message)                     // a screen, or an engine callback with a single post
    | ReceiveTrack(track: nat, video: bool)   // OnReceiveTrack
    | JoinStarts(stamp: int, e: Engine)       // OnJoinMeetingSuccess up to its first post
    | PostNext(i: nat)                        // the next post of a callback
    | Update(e: Engine)                       // one `update` of the UI thread
    | Close(d: Dialog)                        // the user closes a dialog, between two updates

  const JOIN_KINDS := LIST_KINDS + [JOIN_MEETING_OK]

  function JoinScript(stamp: int): seq<Post> { LIST_POSTS + [PostMsg(Message(JOIN_MEETING_OK, Stamp(stamp)))] }

  /** Only the controller posts lists, tracks and the end of a join. */
  predicate ControllerOnly(id: MessageType) {
    IsListInfo(id) || id.ADD_TRACK? || id.REMOVE_TRACK? || id.JOIN_MEETING_OK?
  }

  const FRESH := System(FRESH_VISION, NO_DEVICES, [], [[]], [], multiset{}, [])

  /** m goes to the end of the queue. */
  function Enqueue(s: System, from: nat, m: Message): System {
    s.(queue := s.queue + [Entry(from, m)], log := s.log + [Posting(m)])
  }

  function Next(s: System, step: Step): (r: Option<System>)
    ensures r.Some? ==> |r.value.scripts| >= |s.scripts|
  {
    match step
    case Outside(m) =>
      if ControllerOnly(m.id) then None else Some(Enqueue(s, 0, m))
    case ReceiveTrack(track, video) =>
      Some(Enqueue(s, 0, Message(ADD_TRACK, Track(track, video))).(handed := s.handed + multiset{track}))
    case JoinStarts(stamp, e) =>
      if s.scripts == [] then None
      else Some(s.(devices := Refresh(s.devices, e), scripts := s.scripts + [JoinScript(stamp)],
                   log := s.log + [Answering(e)]))
    case PostNext(i) =>
      if i >= |s.scripts| || s.scripts[i] == [] then None
      else Some(Enqueue(s, i, Render(s.devices, s.scripts[i][0])).(scripts := s.scripts[i := s.scripts[i][1..]]))
    case Update(e) =>
      if s.queue == [] || s.scripts == [] || s.scripts[0] != [] then None
      else
        var m := s.queue[0].m;
        var o := Handle(s.vision, s.devices, m, e);
        Some(System(o.vision, o.devices, s.queue[1..], s.scripts[0 := o.posts],
                    s.trace + [Handled(s.queue[0], o.effect)], s.handed, s.log + [Handling(m, e)]))
    case Close(d) =>
      if s.scripts == [] || s.scripts[0] != [] then None
      else Some(s.(vision := s.vision.(screens := Closed(s.vision.screens, d)), log := s.log + [Closing(d)]))
  }

  /** A run stops at the first step that cannot be taken. */
  function Run(s: System, steps: seq<Step>): System
    decreases |steps|
  {
    if steps == [] || Next(s, steps[0]).None? then s else Run(Next(s, steps[0]).value, steps[1..])
  }

  // ---------------------------------------------------------------- login and windows

  ghost predicate LoginJustified(s: System) {
    && s.vision.login != RECONNECT
    && (s.vision.login == LOGIN <==> exists h <- s.trace :: IsLogin(h.e.m))
    && (forall i :: 0 <= i < |s.trace| && NeedsLogin(s.trace[i].effect) ==> exists h <- s.trace[..i] :: IsLogin(h.e.m))
    && s.vision.screens.start != s.vision.screens.stream
  }

  lemma UpdateJustified(s: System, e: Engine)
    requires LoginJustified(s) && Next(s, Update(e)).Some?
    ensures LoginJustified(Next(s, Update(e)).value)
    ensures s.vision.login == LOGIN ==> Next(s, Update(e)).value.vision.login == LOGIN
  {
    var s' := Next(s, Update(e)).value;
    var h := s'.trace[|s.trace|];
    MeetingCallsNeedLogin(s.vision.login, h.e.m);
    OneScreenShown(s.vision.screens, s.vision.login, h.e.m);
    assert s'.trace == s.trace + [h];
    assert forall x <- s.trace :: x in s'.trace;
    assert h in s'.trace;
    forall i | 0 <= i < |s'.trace| && NeedsLogin(s'.trace[i].effect)
      ensures exists h <- s'.trace[..i] :: IsLogin(h.e.m)
    {
      assert s'.trace[..i] == s.trace[..i];
      assert i == |s.trace| ==> s.trace[..i] == s.trace;
    }
  }

  lemma {:induction false} RunJustified(s: System, steps: seq<Step>)
    requires LoginJustified(s)
    ensures LoginJustified(Run(s, steps))
    ensures s.vision.login == LOGIN ==> Run(s, steps).vision.login == LOGIN
    decreases |steps|
  {
    if steps != [] && Next(s, steps[0]).Some? {
      if steps[0].Update? {
        UpdateJustified(s, steps[0].e);
      }
      RunJustified(Next(s, steps[0]).value, steps[1..]);
    }
  }

  /** Over all runs: RECONNECT is never reached; the state is LOGIN exactly when some
      LOGIN_SUCCESS naming a user was handled, and stays so; a create, booking or join call comes
      after such a message; between updates exactly one of start and stream window is shown. */
  lemma MeetingsOnlyAfterLogin(steps: seq<Step>)
    ensures LoginJustified(Run(FRESH, steps))
  {
    RunJustified(FRESH, steps);
  }

  // ---------------------------------------------------------------- what the controller posts

  /** Scripts hold list posts, the end of a join, or media information. */
  predicate ScriptPost(p: Post) {
    match p
    case PostList(kind) => IsListInfo(kind)
    case PostMsg(m) => (m.id.JOIN_MEETING_OK? && m.data.Stamp?) || m.id.MEETING_MEDIA_INFO?
  }

  /** What only the controller posts carries the payload its handler casts to. */
  predicate WellTyped(m: Message) {
    && (IsListInfo(m.id) ==> IsList(m))
    && (m.id.ADD_TRACK? ==> m.data.Track?) && !m.id.REMOVE_TRACK?
  }

  /** A list that was handled went to the stream window as it was posted. */
  predicate DeliveredIfList(h: Handled) {
    WellTyped(h.e.m) && (IsList(h.e.m) ==> h.effect == Some(Delivered(h.e.m.id, NamesIn(h.e.m))))
  }

  ghost predicate Typed(s: System) {
    && s.scripts != []
    && (forall script <- s.scripts, p <- script :: ScriptPost(p))
    && (forall e <- s.queue :: WellTyped(e.m))
    && (forall h <- s.trace :: DeliveredIfList(h))
  }

  lemma RenderTyped(d: Devices, p: Post)
    requires ScriptPost(p)
    ensures WellTyped(Render(d, p)) && !IsTrack(Render(d, p))
    ensures p.PostList? ==> Render(d, p).id == p.kind && NamesIn(Render(d, p)) == ListOf(d, p.kind)
  {
  }

  lemma PostsTyped(d: Devices, login: VisionType, m: Message, e: Engine)
    ensures forall p <- PostsFor(d, login, m, e) :: ScriptPost(p)
  {
  }

  lemma EffectOfTyped(login: VisionType, m: Message)
    ensures IsList(m) ==> EffectOf(login, m) == Some(Delivered(m.id, NamesIn(m)))
    ensures IsTrack(m) <==> EffectOf(login, m).Some? && EffectOf(login, m).value.Released?
    ensures IsTrack(m) ==> EffectOf(login, m) == Some(Released(m.data.track))
  {
  }

  lemma UpdateTyped(s: System, e: Engine)
    requires Typed(s) && Next(s, Update(e)).Some?
    ensures Typed(Next(s, Update(e)).value)
  {
    var s' := Next(s, Update(e)).value;
    var h := s'.trace[|s.trace|];
    assert s.queue[0] in s.queue;
    EffectOfTyped(s.vision.login, h.e.m);
    assert h.effect == EffectOf(s.vision.login, h.e.m);
    PostsTyped(s.devices, s.vision.login, h.e.m, e);
    assert s'.trace == s.trace + [h];
    assert forall x <- s'.scripts :: x == s'.scripts[0] || x in s.scripts;
  }

  lemma PostTyped(s: System, i: nat)
    requires Typed(s) && Next(s, PostNext(i)).Some?
    ensures Typed(Next(s, PostNext(i)).value)
  {
    var s' := Next(s, PostNext(i)).value;
    assert s.scripts[i] in s.scripts && s.scripts[i][0] in s.scripts[i];
    RenderTyped(s.devices, s.scripts[i][0]);
    assert forall x <- s'.scripts :: x == s.scripts[i][1..] || x in s.scripts;
    assert forall p <- s.scripts[i][1..] :: p in s.scripts[i];
  }

  lemma TypedKept(s: System, step: Step)
    requires Typed(s) && Next(s, step).Some?
    ensures Typed(Next(s, step).value)
  {
    if step.Update? {
      UpdateTyped(s, step.e);
    } else if step.PostNext? {
      PostTyped(s, step.i);
    }
  }

  // ---------------------------------------------------------------- track references

  function TrackOf(m: Message): multiset<nat> { if IsTrack(m) then multiset{m.data.track} else multiset{} }

  ghost function Queued(queue: seq<Entry>): multiset<nat> {
    if queue == [] then multiset{} else TrackOf(queue[0].m) + Queued(queue[1..])
  }

  ghost function ReleasedBy(trace: seq<Handled>): multiset<nat> {
    if trace == [] then multiset{}
    else
      var effect := trace[|trace| - 1].effect;
      ReleasedBy(trace[..|trace| - 1]) +
      if effect.Some? && effect.value.Released? then multiset{effect.value.track} else multiset{}
  }

  lemma {:induction false} QueuedAppend(queue: seq<Entry>, e: Entry)
    ensures Queued(queue + [e]) == Queued(queue) + TrackOf(e.m)
  {
    if queue != [] {
      assert (queue + [e])[1..] == queue[1..] + [e];
      QueuedAppend(queue[1..], e);
    } else {
      assert ([e])[1..] == [];
    }
  }

  ghost predicate TracksConserved(s: System) {
    s.handed == Queued(s.queue) + ReleasedBy(s.trace)
  }

  lemma TracksUpdated(s: System, e: Engine)
    requires TracksConserved(s) && Next(s, Update(e)).Some?
    ensures TracksConserved(Next(s, Update(e)).value)
  {
    var s' := Next(s, Update(e)).value;
    EffectOfTyped(s.vision.login, s.queue[0].m);
    assert s'.trace[..|s.trace|] == s.trace;
    assert ReleasedBy(s'.trace) == ReleasedBy(s.trace) + TrackOf(s.queue[0].m);
  }

  lemma TracksPosted(s: System, s': System, e: Entry)
    requires TracksConserved(s) && s'.trace == s.trace && s'.queue == s.queue + [e]
    requires s'.handed == s.handed + TrackOf(e.m)
    ensures TracksConserved(s')
  {
    QueuedAppend(s.queue, e);
  }

  lemma TracksKept(s: System, step: Step)
    requires Typed(s) && TracksConserved(s) && Next(s, step).Some?
    ensures TracksConserved(Next(s, step).value)
  {
    if step.Update? {
      TracksUpdated(s, step.e);
    } else if step.PostNext? {
      assert s.scripts[step.i] in s.scripts && s.scripts[step.i][0] in s.scripts[step.i];
      RenderTyped(s.devices, s.scripts[step.i][0]);
      TracksPosted(s, Next(s, step).value, Entry(step.i, Render(s.devices, s.scripts[step.i][0])));
    } else if step.ReceiveTrack? {
      TracksPosted(s, Next(s, step).value, Entry(0, Message(ADD_TRACK, Track(step.track, step.video))));
    } else if step.Outside? {
      TracksPosted(s, Next(s, step).value, Entry(0, step.m));
    }
  }

  lemma {:induction false} RunConservesTracks(s: System, steps: seq<Step>)
    requires Typed(s) && TracksConserved(s)
    ensures Typed(Run(s, steps)) && TracksConserved(Run(s, steps))
    decreases |steps|
  {
    if steps != [] && Next(s, steps[0]).Some? {
      TypedKept(s, steps[0]);
      TracksKept(s, steps[0]);
      RunConservesTracks(Next(s, steps[0]).value, steps[1..]);
    }
  }

  /** Over every run, each track reference handed over is either in a queued ADD_TRACK or was
      released by `update`, exactly once, for audio and video alike. */
  lemma TracksReleasedOnce(steps: seq<Step>)
    ensures var s := Run(FRESH, steps); s.handed == Queued(s.queue) + ReleasedBy(s.trace)
  {
    RunConservesTracks(FRESH, steps);
  }

  // ---------------------------------------------------------------- order of a join's posts

  function Entries(trace: seq<Handled>): seq<Entry> {
    seq(|trace|, i requires 0 <= i < |trace| => trace[i].e)
  }

  /** Everything ever posted, in order. */
  function Posted(s: System): seq<Entry> { Entries(s.trace) + s.queue }

  ghost function KindsFrom(k: nat, es: seq<Entry>): seq<MessageType> {
    if es == [] then []
    else KindsFrom(k, es[..|es| - 1]) + if es[|es| - 1].from == k then [es[|es| - 1].m.id] else []
  }

  lemma KindsAppend(k: nat, es: seq<Entry>, e: Entry)
    ensures KindsFrom(k, es + [e]) == KindsFrom(k, es) + if e.from == k then [e.m.id] else []
  {
    assert (es + [e])[..|es|] == es;
  }

  lemma {:induction false} KindsConcat(k: nat, a: seq<Entry>, b: seq<Entry>)
    ensures KindsFrom(k, a + b) == KindsFrom(k, a) + KindsFrom(k, b)
    decreases |b|
  {
    if b == [] {
      assert a + b == a;
    } else {
      var last := |b| - 1;
      assert a + b == (a + b[..last]) + [b[last]];
      KindsAppend(k, a + b[..last], b[last]);
      KindsConcat(k, a, b[..last]);
    }
  }

  /** The kinds of the lists that the stream window was given from script k. */
  ghost function DeliveredFrom(k: nat, trace: seq<Handled>): seq<MessageType> {
    if trace == [] then []
    else
      var h := trace[|trace| - 1];
      DeliveredFrom(k, trace[..|trace| - 1]) +
      if h.e.from == k && h.effect.Some? && h.effect.value.Delivered? then [h.effect.value.kind] else []
  }

  /** A join has posted its first messages and still has the others to post. */
  ghost predicate Halfway(kinds: seq<MessageType>, script: seq<Post>) {
    && |kinds| + |script| == |JOIN_KINDS| && kinds == JOIN_KINDS[..|kinds|]
    && exists stamp :: script == JoinScript(stamp)[|kinds|..]
  }

  ghost predicate JoinsInOrder(s: System) {
    && (forall k :: 0 < k < |s.scripts| ==> Halfway(KindsFrom(k, Posted(s)), s.scripts[k]))
    && (forall e <- Posted(s) :: e.from < |s.scripts|)
  }

  lemma UpdatePosted(s: System, e: Engine)
    requires Next(s, Update(e)).Some?
    ensures Posted(Next(s, Update(e)).value) == Posted(s)
  {
  }

  lemma {:induction false} NothingFrom(k: nat, es: seq<Entry>)
    requires forall e <- es :: e.from < k
    ensures KindsFrom(k, es) == []
    decreases |es|
  {
    if es != [] {
      NothingFrom(k, es[..|es| - 1]);
    }
  }

  lemma HalfwayMoves(kinds: seq<MessageType>, script: seq<Post>, d: Devices)
    requires Halfway(kinds, script) && script != []
    ensures Halfway(kinds + [Render(d, script[0]).id], script[1..])
  {
    var stamp :| script == JoinScript(stamp)[|kinds|..];
    assert script[0] == JoinScript(stamp)[|kinds|];
    assert script[1..] == JoinScript(stamp)[|kinds| + 1..];
    assert Render(d, script[0]).id == JOIN_KINDS[|kinds|];
  }

  lemma PostKeepsJoins(s: System, i: nat)
    requires JoinsInOrder(s) && Next(s, PostNext(i)).Some?
    ensures JoinsInOrder(Next(s, PostNext(i)).value)
  {
    var s' := Next(s, PostNext(i)).value;
    var e := Entry(i, Render(s.devices, s.scripts[i][0]));
    assert Posted(s') == Posted(s) + [e];
    forall k | 0 < k < |s'.scripts| ensures Halfway(KindsFrom(k, Posted(s')), s'.scripts[k]) {
      KindsAppend(k, Posted(s), e);
      if k == i {
        HalfwayMoves(KindsFrom(k, Posted(s)), s.scripts[k], s.devices);
      }
    }
  }

  lemma OtherPostKeepsJoins(s: System, s': System, m: Message)
    requires JoinsInOrder(s) && s.scripts != [] && s'.scripts == s.scripts
    requires s'.trace == s.trace && s'.queue == s.queue + [Entry(0, m)]
    ensures JoinsInOrder(s')
  {
    assert Posted(s') == Posted(s) + [Entry(0, m)];
    forall k | 0 < k < |s'.scripts| ensures Halfway(KindsFrom(k, Posted(s')), s'.scripts[k]) {
      KindsAppend(k, Posted(s), Entry(0, m));
    }
  }

  lemma JoinsKept(s: System, step: Step)
    requires JoinsInOrder(s) && s.scripts != [] && Next(s, step).Some?
    ensures JoinsInOrder(Next(s, step).value)
  {
    var s' := Next(s, step).value;
    match step
    case Outside(m) => OtherPostKeepsJoins(s, s', m);
    case ReceiveTrack(track, video) => OtherPostKeepsJoins(s, s', Message(ADD_TRACK, Track(track, video)));
    case PostNext(i) => PostKeepsJoins(s, i);
    case Update(e) => UpdatePosted(s, e);
    case JoinStarts(stamp, e) =>
      assert Posted(s') == Posted(s);
      NothingFrom(|s.scripts|, Posted(s));
      assert JoinScript(stamp) == JoinScript(stamp)[0..];
    case Close(d) => assert Posted(s') == Posted(s);
  }

  predicate PostsEnd(p: Post) { p.PostMsg? && p.m.id.JOIN_MEETING_OK? }

  /** The end of a join is posted by a join, never by the UI thread or a screen. */
  ghost predicate EndsFromJoins(s: System) {
    && (s.scripts != [] ==> forall p <- s.scripts[0] :: !PostsEnd(p))
    && (forall e <- s.queue :: e.m.id.JOIN_MEETING_OK? ==> e.from > 0)
    && (forall h <- s.trace :: h.e.m.id.JOIN_MEETING_OK? ==> h.e.from > 0)
  }

  lemma EndsKept(s: System, step: Step)
    requires Typed(s) && EndsFromJoins(s) && Next(s, step).Some?
    ensures EndsFromJoins(Next(s, step).value)
  {
    if step.PostNext? {
      var script := s.scripts[step.i];
      assert script in s.scripts && script[0] in script;
      RenderTyped(s.devices, script[0]);
      assert forall p <- script[1..] :: p in script;
    } else if step.Update? {
      UpdateEnds(s, step.e);
    }
  }

  lemma UpdateEnds(s: System, e: Engine)
    requires EndsFromJoins(s) && Next(s, Update(e)).Some?
    ensures EndsFromJoins(Next(s, Update(e)).value)
  {
    var posts := PostsFor(s.devices, s.vision.login, s.queue[0].m, e);
    assert forall p <- posts :: !PostsEnd(p);
    assert s.queue[0] in s.queue;
  }

  lemma {:induction false} RunKeepsJoins(s: System, steps: seq<Step>)
    requires Typed(s) && JoinsInOrder(s) && EndsFromJoins(s)
    ensures Typed(Run(s, steps)) && JoinsInOrder(Run(s, steps)) && EndsFromJoins(Run(s, steps))
    decreases |steps|
  {
    if steps != [] && Next(s, steps[0]).Some? {
      TypedKept(s, steps[0]);
      EndsKept(s, steps[0]);
      JoinsKept(s, steps[0]);
      RunKeepsJoins(Next(s, steps[0]).value, steps[1..]);
    }
  }

  predicate IsPrefix<X(==)>(a: seq<X>, b: seq<X>) { |a| <= |b| && a == b[..|a|] }

  lemma PrefixFront<X>(a: seq<X>, x: seq<X>, b: seq<X>)
    requires IsPrefix(a + x, b)
    ensures IsPrefix(a, b) && forall y <- x :: y in b
  {
    assert (a + x)[..|a|] == a;
    forall y <- x ensures y in b {
      var i :| 0 <= i < |x| && x[i] == y;
      assert (a + x)[|a| + i] == y;
    }
  }

  /** While a join's messages are handled in order, its lists are delivered in order. */
  lemma {:induction false} ListsDelivered(k: nat, trace: seq<Handled>)
    requires forall h <- trace :: DeliveredIfList(h)
    requires IsPrefix(KindsFrom(k, Entries(trace)), LIST_KINDS)
    ensures DeliveredFrom(k, trace) == KindsFrom(k, Entries(trace))
    decreases |trace|
  {
    if trace != [] {
      var before, h := trace[..|trace| - 1], trace[|trace| - 1];
      assert Entries(trace) == Entries(before) + [h.e];
      KindsAppend(k, Entries(before), h.e);
      var own := if h.e.from == k then [h.e.m.id] else [];
      PrefixFront(KindsFrom(k, Entries(before)), own, LIST_KINDS);
      assert h in trace && (h.e.from == k ==> h.e.m.id in own);
      ListsDelivered(k, before);
    }
  }

  /** What a script posted up to the i-th handled message, and that message, come first. */
  lemma HandledSoFar(s: System, i: nat, k: nat)
    requires i < |s.trace| && s.trace[i].e.from == k
    ensures IsPrefix(KindsFrom(k, Entries(s.trace[..i])) + [s.trace[i].e.m.id], KindsFrom(k, Posted(s)))
    ensures s.trace[i].e in Posted(s)
  {
    var done := Entries(s.trace[..i]);
    assert Posted(s)[i] == s.trace[i].e;
    assert Posted(s) == (done + [s.trace[i].e]) + Posted(s)[i + 1..];
    KindsConcat(k, done + [s.trace[i].e], Posted(s)[i + 1..]);
    KindsAppend(k, done, s.trace[i].e);
  }

  /** In every interleaving: when a JOIN_MEETING_OK is handled, the five lists posted by the same
      OnJoinMeetingSuccess have all been handed to the stream window, in their order. */
  lemma ListsBeforeJoinOk(steps: seq<Step>, i: nat)
    requires var s := Run(FRESH, steps);
      i < |s.trace| && s.trace[i].e.m.id == JOIN_MEETING_OK
    ensures var s := Run(FRESH, steps);
      s.trace[i].e.from > 0 && DeliveredFrom(s.trace[i].e.from, s.trace[..i]) == LIST_KINDS
  {
    RunKeepsJoins(FRESH, steps);
    assert Run(FRESH, steps).trace[i] in Run(FRESH, steps).trace;
    JoinOkComesLast(Run(FRESH, steps), i);
  }

  lemma JoinOkComesLast(s: System, i: nat)
    requires Typed(s) && JoinsInOrder(s)
    requires i < |s.trace| && s.trace[i].e.from > 0 && s.trace[i].e.m.id == JOIN_MEETING_OK
    ensures DeliveredFrom(s.trace[i].e.from, s.trace[..i]) == LIST_KINDS
  {
    var k := s.trace[i].e.from;
    HandledSoFar(s, i, k);
    OkIsSixth(KindsFrom(k, Entries(s.trace[..i])), KindsFrom(k, Posted(s)));
    ListsDelivered(k, s.trace[..i]);
  }

  lemma OkIsSixth(before: seq<MessageType>, kinds: seq<MessageType>)
    requires IsPrefix(kinds, JOIN_KINDS) && IsPrefix(before + [JOIN_MEETING_OK], kinds)
    ensures before == LIST_KINDS
  {
    assert JOIN_KINDS[..5] == LIST_KINDS;
    assert (before + [JOIN_MEETING_OK])[|before|] == kinds[|before|] == JOIN_KINDS[|before|];
    assert |before| == 5;
    assert before == kinds[..5] == JOIN_KINDS[..5];
  }
}
