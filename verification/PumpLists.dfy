/** Two more facts about every run of the pump: the list of shareable windows that the stream
    window is given keeps up with the controller's, and the pump drains. */
module PumpLists {
  import opened Handlers
  import opened Messages
  import opened Pump

  // ---------------------------------------------------------------- the list of windows to share

  /** The length of the newest SHARE_WINDOW_INFO list, or 0 before the first. */
  ghost function LastSize(es: seq<Entry>): nat {
    if es == [] then 0
    else
      var m := es[|es| - 1].m;
      if m.id.SHARE_WINDOW_INFO? && IsList(m) then |NamesIn(m)| else LastSize(es[..|es| - 1])
  }

  lemma LastSizeAppend(es: seq<Entry>, e: Entry)
    ensures LastSize(es + [e]) == if e.m.id.SHARE_WINDOW_INFO? && IsList(e.m) then |NamesIn(e.m)| else LastSize(es)
  {
    assert (es + [e])[..|es|] == es;
  }

  /** The length of the list of windows last given to the stream window. */
  function GivenSize(t: Told): nat {
    if SHARE_WINDOW_INFO in t.lists then |t.lists[SHARE_WINDOW_INFO]| else 0
  }

  /** A post of the current windows is still to come. */
  ghost predicate Refreshing(scripts: seq<seq<Post>>) {
    exists script <- scripts :: PostList(SHARE_WINDOW_INFO) in script
  }

  /** Although a refresh is posted only when the number of windows changes, the last posted list
      has as many entries as the controller's map unless a post of it is still to come; and the
      stream window has the last one handled. */
  ghost predicate WindowsCurrent(s: System) {
    && s.scripts != []
    && (LastSize(Posted(s)) == |s.devices.windows| || Refreshing(s.scripts))
    && GivenSize(s.vision.told) == LastSize(Entries(s.trace))
  }

  lemma PostKeepsCurrent(s: System, i: nat)
    requires Typed(s) && WindowsCurrent(s) && Next(s, PostNext(i)).Some?
    ensures WindowsCurrent(Next(s, PostNext(i)).value)
  {
    var s' := Next(s, PostNext(i)).value;
    var script := s.scripts[i];
    assert script in s.scripts && script[0] in script;
    RenderTyped(s.devices, script[0]);
    var e := Entry(i, Render(s.devices, script[0]));
    assert Posted(s') == Posted(s) + [e];
    LastSizeAppend(Posted(s), e);
    if script[0] != PostList(SHARE_WINDOW_INFO) && Refreshing(s.scripts) {
      var x :| x in s.scripts && PostList(SHARE_WINDOW_INFO) in x;
      StillRefreshing(s.scripts, i, x);
    }
  }

  lemma StillRefreshing(scripts: seq<seq<Post>>, i: nat, x: seq<Post>)
    requires i < |scripts| && scripts[i] != [] && scripts[i][0] != PostList(SHARE_WINDOW_INFO)
    requires x in scripts && PostList(SHARE_WINDOW_INFO) in x
    ensures Refreshing(scripts[i := scripts[i][1..]])
  {
    var scripts' := scripts[i := scripts[i][1..]];
    var j :| 0 <= j < |scripts| && scripts[j] == x;
    if j == i {
      var n :| 0 <= n < |x| && x[n] == PostList(SHARE_WINDOW_INFO);
      assert x[1..][n - 1] == PostList(SHARE_WINDOW_INFO);
    }
    assert scripts'[j] in scripts' && PostList(SHARE_WINDOW_INFO) in scripts'[j];
  }

  lemma OtherPostKeepsCurrent(s: System, s': System, m: Message)
    requires WindowsCurrent(s) && !m.id.SHARE_WINDOW_INFO?
    requires s'.vision == s.vision && s'.devices == s.devices && s'.scripts == s.scripts
    requires s'.trace == s.trace && s'.queue == s.queue + [Entry(0, m)]
    ensures WindowsCurrent(s')
  {
    assert Posted(s') == Posted(s) + [Entry(0, m)];
    LastSizeAppend(Posted(s), Entry(0, m));
  }

  /** A handler that changes the number of windows posts them. */
  lemma HandlersRefresh(d: Devices, login: VisionType, m: Message, e: Engine)
    ensures |DevicesAfter(d, login, m, e).windows| == |d.windows|
         || PostList(SHARE_WINDOW_INFO) in PostsFor(d, login, m, e)
  {
    assert LIST_POSTS[4] == PostList(SHARE_WINDOW_INFO);
  }

  /** The stream window is told of every list that is handled. */
  lemma ListsAreShown(t: Told, login: VisionType, m: Message)
    ensures GivenSize(ToldAfter(t, login, m)) ==
            if m.id.SHARE_WINDOW_INFO? && IsList(m) then |NamesIn(m)| else GivenSize(t)
  {
  }

  lemma UpdateKeepsCurrent(s: System, e: Engine)
    requires WindowsCurrent(s) && Next(s, Update(e)).Some?
    ensures WindowsCurrent(Next(s, Update(e)).value)
  {
    var s' := Next(s, Update(e)).value;
    UpdatePosted(s, e);
    HandlersRefresh(s.devices, s.vision.login, s.queue[0].m, e);
    ListsAreShown(s.vision.told, s.vision.login, s.queue[0].m);
    assert s'.scripts[0] in s'.scripts;
    assert Entries(s'.trace) == Entries(s.trace) + [s.queue[0]];
    LastSizeAppend(Entries(s.trace), s.queue[0]);
    if Refreshing(s.scripts) {
      var x :| x in s.scripts && PostList(SHARE_WINDOW_INFO) in x;
      var j :| 0 <= j < |s.scripts| && s.scripts[j] == x;
      assert s'.scripts[j] == x && s'.scripts[j] in s'.scripts;
    }
  }

  lemma CurrentKept(s: System, step: Step)
    requires Typed(s) && WindowsCurrent(s) && Next(s, step).Some?
    ensures WindowsCurrent(Next(s, step).value)
  {
    var s' := Next(s, step).value;
    match step
    case Outside(m) => OtherPostKeepsCurrent(s, s', m);
    case ReceiveTrack(track, video) => OtherPostKeepsCurrent(s, s', Message(ADD_TRACK, Track(track, video)));
    case PostNext(i) => PostKeepsCurrent(s, i);
    case Update(e) => UpdateKeepsCurrent(s, e);
    case JoinStarts(stamp, e) =>
      assert JoinScript(stamp)[4] == PostList(SHARE_WINDOW_INFO);
      assert JoinScript(stamp) in s'.scripts;
    case Close(d) => assert Posted(s') == Posted(s);
  }

  lemma {:induction false} RunKeepsCurrent(s: System, steps: seq<Step>)
    requires Typed(s) && WindowsCurrent(s)
    ensures Typed(Run(s, steps)) && WindowsCurrent(Run(s, steps))
    decreases |steps|
  {
    if steps != [] && Next(s, steps[0]).Some? {
      TypedKept(s, steps[0]);
      CurrentKept(s, steps[0]);
      RunKeepsCurrent(Next(s, steps[0]).value, steps[1..]);
    }
  }

  /** Over every run: when the queue is empty and every callback has made its posts, the list last
      given to the stream window is as long as the controller's map. */
  lemma DrainedWindowsAgree(steps: seq<Step>)
    ensures WindowsCurrent(Run(FRESH, steps))
    ensures var s := Run(FRESH, steps);
      s.queue == [] && (forall script <- s.scripts :: script == []) ==>
        GivenSize(s.vision.told) == |s.devices.windows|
  {
    RunKeepsCurrent(FRESH, steps);
    var s := Run(FRESH, steps);
    if s.queue == [] {
      assert Posted(s) == Entries(s.trace);
    }
  }

  // ---------------------------------------------------------------- draining

  /** Work that a queued message may still cause: itself, and twice each post it may make. */
  function Weight(m: Message): nat {
    if m.id.IS_CREATE? then 11
    else if m.id.REQUEST_WINDOW_LIST? || m.id.REQUEST_MEETING_INFO? then 3
    else 1
  }

  ghost function QueueWork(queue: seq<Entry>): nat {
    if queue == [] then 0 else Weight(queue[0].m) + QueueWork(queue[1..])
  }

  ghost function ScriptWork(scripts: seq<seq<Post>>): nat {
    if scripts == [] then 0 else 2 * |scripts[0]| + ScriptWork(scripts[1..])
  }

  ghost function Work(s: System): nat { QueueWork(s.queue) + ScriptWork(s.scripts) }

  lemma {:induction false} QueueWorkAppend(queue: seq<Entry>, e: Entry)
    ensures QueueWork(queue + [e]) == QueueWork(queue) + Weight(e.m)
  {
    if queue != [] {
      assert (queue + [e])[1..] == queue[1..] + [e];
      QueueWorkAppend(queue[1..], e);
    } else {
      assert [e][1..] == [];
    }
  }

  lemma {:induction false} ScriptWorkUpdate(scripts: seq<seq<Post>>, i: nat, script: seq<Post>)
    requires i < |scripts|
    ensures ScriptWork(scripts[i := script]) == ScriptWork(scripts) - 2 * |scripts[i]| + 2 * |script|
    ensures ScriptWork(scripts) >= 2 * |scripts[i]|
  {
    if i > 0 {
      assert scripts[i := script][1..] == scripts[1..][i - 1 := script];
      ScriptWorkUpdate(scripts[1..], i - 1, script);
    } else {
      assert scripts[i := script][1..] == scripts[1..];
    }
  }

  predicate Internal(step: Step) { step.PostNext? || step.Update? }

  /** Handling a message and making a post both use up work, although handlers post messages. */
  lemma InternalStepsWork(s: System, step: Step)
    requires Typed(s) && Internal(step) && Next(s, step).Some?
    ensures Work(Next(s, step).value) < Work(s)
  {
    if step.PostNext? {
      var i := step.i;
      var script := s.scripts[i];
      assert script in s.scripts && script[0] in script;
      QueueWorkAppend(s.queue, Entry(i, Render(s.devices, script[0])));
      ScriptWorkUpdate(s.scripts, i, script[1..]);
      PostsAreLight(s.devices, script[0]);
    } else {
      var m := s.queue[0].m;
      ScriptWorkUpdate(s.scripts, 0, PostsFor(s.devices, s.vision.login, m, step.e));
    }
  }

  lemma PostsAreLight(d: Devices, p: Post)
    requires ScriptPost(p)
    ensures Weight(Render(d, p)) == 1
  {
  }

  /** Every step of the run can be taken. */
  ghost predicate AllTaken(s: System, steps: seq<Step>)
    decreases |steps|
  {
    steps != [] ==> Next(s, steps[0]).Some? && AllTaken(Next(s, steps[0]).value, steps[1..])
  }

  lemma {:induction false} InternalRunsEnd(s: System, steps: seq<Step>)
    requires Typed(s) && AllTaken(s, steps) && forall step <- steps :: Internal(step)
    ensures Typed(Run(s, steps)) && |steps| + Work(Run(s, steps)) <= Work(s)
    decreases |steps|
  {
    if steps != [] {
      TypedKept(s, steps[0]);
      InternalStepsWork(s, steps[0]);
      InternalRunsEnd(Next(s, steps[0]).value, steps[1..]);
    }
  }

  ghost predicate Stuck(s: System, e: Engine) {
    (forall i: nat :: Next(s, PostNext(i)).None?) && Next(s, Update(e)).None?
  }

  ghost predicate Drained(s: System) {
    s.queue == [] && forall script <- s.scripts :: script == []
  }

  lemma StuckMeansDrained(s: System, e: Engine)
    requires Typed(s)
    ensures Stuck(s, e) <==> Drained(s)
  {
    if Stuck(s, e) {
      forall script <- s.scripts ensures script == [] {
        var i :| 0 <= i < |s.scripts| && s.scripts[i] == script;
        assert Next(s, PostNext(i)).None?;
      }
      assert s.scripts[0] in s.scripts;
    } else if Drained(s) {
      forall i: nat ensures Next(s, PostNext(i)).None? {
        assert i < |s.scripts| ==> s.scripts[i] in s.scripts;
      }
    }
  }

  /** From any reachable state, with no further posts from outside, at most Work(s) steps remain in
      any interleaving; and no such step remains exactly when queue and callbacks are exhausted. */
  lemma {:induction false} PumpDrains(before: seq<Step>, steps: seq<Step>, e: Engine)
    requires AllTaken(Run(FRESH, before), steps) && forall step <- steps :: Internal(step)
    ensures |steps| <= Work(Run(FRESH, before))
    ensures Stuck(Run(Run(FRESH, before), steps), e) <==> Drained(Run(Run(FRESH, before), steps))
  {
    RunKeepsJoins(FRESH, before);
    InternalRunsEnd(Run(FRESH, before), steps);
    StuckMeansDrained(Run(Run(FRESH, before), steps), e);
  }
}
