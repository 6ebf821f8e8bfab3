/** What callers of the shared queue can rely on over every interleaving: first in, first out for
    the plain pops, push order and a queue that never empties for the Flex pops, and exactly when
    an item can be left in the queue while its would-be reader sleeps. */
module QueueUse {
  import opened LockedQueue
  import opened Options
  import opened SafeQueue

  // ---------------------------------------------------------------- callers of one kind

  /** Flex pops only, or plain pops only, besides pushes. */
  predicate OnlyOp<T>(op: Op<T>, flex: bool) { op.PopOp? ==> op.flex == flex }

  ghost predicate OnlyCalls<T>(acts: seq<Action<T>>, flex: bool) { forall a <- acts :: a.Call? ==> OnlyOp(a.op, flex) }

  ghost predicate OnlyPcs<T>(s: State<T>, flex: bool) {
    forall t :: 0 <= t < |s.pcs| && Pending(s.pcs[t]).Some? ==> OnlyOp(Pending(s.pcs[t]).value, flex)
  }

  ghost predicate OnlyEffects<T>(effects: seq<(Tid, Result<T>)>, flex: bool) {
    forall e <- effects :: e.1.Popped? ==> e.1.flex == flex
  }

  lemma OnlyKept<T>(s: State<T>, h: History<T>, a: Action<T>, flex: bool)
    requires Inv(s) && OnlyPcs(s, flex) && OnlyEffects(h.effects, flex) && Next(s, a).Some?
    requires a.Call? ==> OnlyOp(a.op, flex)
    ensures OnlyPcs(Next(s, a).value, flex) && OnlyEffects(Record(h, a.t, MoveOf(s, a)).effects, flex)
  {
    ThreadMoves(s, a);
  }

  lemma {:induction false} OnlyRun<T>(s: State<T>, h: History<T>, acts: seq<Action<T>>, flex: bool)
    requires Linearized(s, h) && OnlyPcs(s, flex) && OnlyEffects(h.effects, flex) && OnlyCalls(acts, flex)
    ensures var (s', h') := Run(s, h, acts); Linearized(s', h') && OnlyEffects(h'.effects, flex)
    decreases |acts|
  {
    if acts != [] && Next(s, acts[0]).Some? {
      OnlyKept(s, h, acts[0], flex);
      LinearizedKept(s, h, acts[0]);
      OnlyRun(Next(s, acts[0]).value, Record(h, acts[0].t, MoveOf(s, acts[0])), acts[1..], flex);
    }
  }

  // ---------------------------------------------------------------- plain pops: first in, first out

  ghost function PushedItems<T>(effects: seq<(Tid, Result<T>)>): seq<T> {
    if effects == [] then []
    else
      var r := effects[|effects| - 1].1;
      PushedItems(effects[..|effects| - 1]) + if r.Pushed? then [r.v] else []
  }

  ghost function PoppedItems<T>(effects: seq<(Tid, Result<T>)>): seq<T> {
    if effects == [] then []
    else
      var r := effects[|effects| - 1].1;
      PoppedItems(effects[..|effects| - 1]) + if r.Popped? then [r.v] else []
  }

  lemma {:induction false} PlainFifo<T>(effects: seq<(Tid, Result<T>)>)
    requires AllAtomically(effects).Some? && OnlyEffects(effects, false)
    ensures PoppedItems(effects) + AllAtomically(effects).value == PushedItems(effects)
  {
    if effects != [] {
      PlainFifo(effects[..|effects| - 1]);
    }
  }

  /** Over every interleaving of Push, TryPop and WaitPop: items popped, in the order in which the
      pops took effect, followed by items queued are the items pushed. */
  lemma PlainRunsAreFifo<T>(threads: nat, acts: seq<Action<T>>)
    requires OnlyCalls(acts, false)
    ensures var (s, h) := Run(Init<T>(threads), History([], [], []), acts);
      PoppedItems(h.effects) + Abs(s) == PushedItems(h.effects)
  {
    OnlyRun(Init<T>(threads), History([], [], []), acts, false);
    PlainFifo(Run(Init<T>(threads), History([], [], []), acts).1.effects);
  }

  // ---------------------------------------------------------------- Flex pops: push order, never empty

  /** The effects so far as one feed: pushes feed it, pops (and refusals, which meet it empty) show
      its front. */
  ghost function FeedOf<T>(effects: seq<(Tid, Result<T>)>): Screen<T> {
    if effects == [] then Screen([], [], [], [])
    else
      var s := FeedOf(effects[..|effects| - 1]);
      var r := effects[|effects| - 1].1;
      if |s.queue| > |s.pushed| then s else FeedStep(s, if r.Pushed? then Feed(r.v) else Show)
  }

  lemma EffectFeeds<T>(s: Screen<T>, r: Result<T>)
    requires InPushOrder(s) && Atomically(s.queue, r).Some? && (r.Popped? ==> r.flex)
    ensures var s' := FeedStep(s, if r.Pushed? then Feed(r.v) else Show);
      && InPushOrder(s') && s'.queue == Atomically(s.queue, r).value
      && s'.pushed == s.pushed + (if r.Pushed? then [r.v] else [])
      && s'.shown == s.shown + (if r.Popped? then [r.v] else [])
  {
    FeedKeepsOrder(s, if r.Pushed? then Feed(r.v) else Show);
  }

  lemma {:induction false} FlexEffectsFeed<T>(effects: seq<(Tid, Result<T>)>)
    requires AllAtomically(effects).Some? && OnlyEffects(effects, true)
    ensures var s := FeedOf(effects);
      && InPushOrder(s) && s.queue == AllAtomically(effects).value
      && s.pushed == PushedItems(effects) && s.shown == PoppedItems(effects)
  {
    if effects != [] {
      var before, last := effects[..|effects| - 1], effects[|effects| - 1];
      assert last in effects;
      FlexEffectsFeed(before);
      EffectFeeds(FeedOf(before), last.1);
    }
  }

  /** Over every interleaving of Push and Flex pops: once something was pushed the queue is never
      empty again, and the items returned, in the order in which the pops took effect, follow the
      push order, only the newest being returned more than once. */
  lemma FlexRunsInPushOrder<T>(threads: nat, acts: seq<Action<T>>)
    requires OnlyCalls(acts, true)
    ensures var (s, h) := Run(Init<T>(threads), History([], [], []), acts);
      && InPushOrder(FeedOf(h.effects)) && FeedOf(h.effects).queue == Abs(s)
      && FeedOf(h.effects).pushed == PushedItems(h.effects) && FeedOf(h.effects).shown == PoppedItems(h.effects)
      && (PushedItems(h.effects) != [] ==> Abs(s) != [])
  {
    OnlyRun(Init<T>(threads), History([], [], []), acts, true);
    FlexEffectsFeed(Run(Init<T>(threads), History([], [], []), acts).1.effects);
  }

  ghost predicate NoPush<T>(effects: seq<(Tid, Result<T>)>) { forall e <- effects :: !e.1.Pushed? }

  lemma AllSplit<T>(pre: seq<(Tid, Result<T>)>, post: seq<(Tid, Result<T>)>)
    requires post != []
    ensures var before, last := AllAtomically(pre + post[..|post| - 1]), post[|post| - 1].1;
      AllAtomically(pre + post) == if before.None? then None else Atomically(before.value, last)
  {
    assert (pre + post)[..|pre + post| - 1] == pre + post[..|post| - 1];
  }

  lemma PoppedAgain<T>(q: seq<T>, n: nat, r: Result<T>)
    requires q != [] && Atomically(PopFlexTimes(q, n), r).Some? && !r.Pushed? && (r.Popped? ==> r.flex)
    ensures r.Popped? && Atomically(PopFlexTimes(q, n), r).value == PopFlexTimes(q, n + 1)
    ensures n >= 4 ==> r.v == q[|q| - 1]
  {
    FifthPopShowsNewest(q, n);
  }

  ghost predicate PoppedFrom<T>(q: seq<T>, pops: seq<T>, rest: seq<T>) {
    if q == [] then pops == [] && rest == []
    else rest == PopFlexTimes(q, |pops|) && forall i :: 4 <= i < |pops| ==> pops[i] == q[|q| - 1]
  }

  lemma PoppedFromStep<T>(q: seq<T>, pops: seq<T>, rest: seq<T>, r: Result<T>)
    requires PoppedFrom(q, pops, rest) && Atomically(rest, r).Some? && !r.Pushed? && (r.Popped? ==> r.flex)
    ensures PoppedFrom(q, pops + if r.Popped? then [r.v] else [], Atomically(rest, r).value)
  {
    if q != [] {
      PoppedAgain(q, |pops|, r);
    }
  }

  /** After the last push, each Flex pop that takes effect, whoever made it, is one more pop of the
      queue as it was then; so from the fifth on they return its newest item. */
  lemma {:induction false} PopsAfterLastPush<T>(pre: seq<(Tid, Result<T>)>, post: seq<(Tid, Result<T>)>)
    requires AllAtomically(pre + post).Some? && OnlyEffects(post, true) && NoPush(post)
    ensures AllAtomically(pre).Some?
    ensures PoppedFrom(AllAtomically(pre).value, PoppedItems(post), AllAtomically(pre + post).value)
    decreases |post|
  {
    if post == [] {
      assert pre + post == pre;
    } else {
      var before, last := post[..|post| - 1], post[|post| - 1];
      assert last in post;
      AllSplit(pre, post);
      PopsAfterLastPush(pre, before);
      PoppedFromStep(AllAtomically(pre).value, PoppedItems(before), AllAtomically(pre + before).value, last.1);
    }
  }

  lemma NewestIsLastPushed<T>(effects: seq<(Tid, Result<T>)>)
    requires AllAtomically(effects).Some? && OnlyEffects(effects, true)
    ensures var q, pushed := AllAtomically(effects).value, PushedItems(effects);
      q != [] ==> pushed != [] && q[|q| - 1] == pushed[|pushed| - 1]
  {
    FlexEffectsFeed(effects);
  }

  /** Over every interleaving of Push and Flex pops: once pushing stops, all pops from the fifth on,
      in the order in which they took effect and whoever made them, return the item pushed last. */
  lemma FlexReadersCatchUp<T>(threads: nat, acts: seq<Action<T>>, pre: seq<(Tid, Result<T>)>,
                              post: seq<(Tid, Result<T>)>)
    requires OnlyCalls(acts, true) && NoPush(post)
    requires Run(Init<T>(threads), History([], [], []), acts).1.effects == pre + post
    ensures var pushed, pops := PushedItems(pre), PoppedItems(post);
      forall i :: 4 <= i < |pops| ==> pushed != [] && pops[i] == pushed[|pushed| - 1]
  {
    OnlyRun(Init<T>(threads), History([], [], []), acts, true);
    assert forall e <- pre :: e in pre + post;
    assert forall e <- post :: e in pre + post;
    PopsAfterLastPush(pre, post);
    NewestIsLastPushed(pre);
  }

  // ---------------------------------------------------------------- sleepers and items

  lemma {:induction false} CountUpdate<T>(pcs: seq<Pc<T>>, t: nat, pc: Pc<T>)
    requires t < |pcs|
    ensures Sleepers(pcs[t := pc]) ==
            Sleepers(pcs) - (if pcs[t].Sleeping? then 1 else 0) + (if pc.Sleeping? then 1 else 0)
    ensures Woken(pcs[t := pc]) ==
            Woken(pcs) - (if pcs[t].Waking? then 1 else 0) + (if pc.Waking? then 1 else 0)
  {
    if t > 0 {
      assert pcs[t := pc][1..] == pcs[1..][t - 1 := pc];
      CountUpdate(pcs[1..], t - 1, pc);
    } else {
      assert pcs[t := pc][1..] == pcs[1..];
    }
  }

  /** One item may still be without a woken thread: the one being announced right now, or the one
      that the current lock holder was woken for or is about to take. */
  ghost function InHand<T>(s: State<T>): nat {
    if s.lock.None? || s.lock.value >= |s.pcs| then 0
    else
      var pc := s.pcs[s.lock.value];
      if pc.Notifying? || pc.Rechecking? || Popping(pc) then 1 else 0
  }

  /** While somebody sleeps, every queued item has a thread that is awake on its way to the lock. */
  ghost predicate Attended<T>(s: State<T>) {
    Inv(s) && (Sleepers(s.pcs) > 0 ==> |s.queue| <= Woken(s.pcs) + InHand(s))
  }

  /** A Flex pop about to leave the only item in the queue, with nobody awake to look at it. */
  ghost predicate Forgets<T>(s: State<T>, a: Action<T>) {
    && a.Pop? && a.t < |s.pcs| && s.pcs[a.t].Trimmed?
    && |s.queue| == 1 && Sleepers(s.pcs) > 0 && Woken(s.pcs) == 0
  }

  lemma CountsMove<T>(s: State<T>, a: Action<T>)
    requires Next(s, a).Some? && !(a.Notify? && a.woken.Some?)
    ensures var pc, pc' := s.pcs[a.t], Next(s, a).value.pcs[a.t]; var pcs' := Next(s, a).value.pcs;
      && pcs' == s.pcs[a.t := pc']
      && Sleepers(pcs') == Sleepers(s.pcs) - (if pc.Sleeping? then 1 else 0) + (if pc'.Sleeping? then 1 else 0)
      && Woken(pcs') == Woken(s.pcs) - (if pc.Waking? then 1 else 0) + (if pc'.Waking? then 1 else 0)
  {
    assert s.pcs[a.t := s.pcs[a.t]] == s.pcs;
    CountUpdate(s.pcs, a.t, Next(s, a).value.pcs[a.t]);
  }

  lemma NotifyAttended<T>(s: State<T>, a: Action<T>)
    requires Attended(s) && Next(s, a).Some? && a.Notify? && a.woken.Some?
    ensures Attended(Next(s, a).value)
  {
    InvKept(s, a);
    assert WellPlaced(s, a.t);
    var w, mid := a.woken.value, s.pcs[a.woken.value := Waking(s.pcs[a.woken.value].op, false)];
    CountUpdate(s.pcs, w, mid[w]);
    CountUpdate(mid, a.t, Leaving(Pushed(s.pcs[a.t].v)));
  }

  lemma CountsKeptIff<T>(s: State<T>, a: Action<T>)
    requires Attended(s) && Next(s, a).Some? && !(a.Notify? && a.woken.Some?)
    ensures var s' := Next(s, a).value;
      (Sleepers(s'.pcs) > 0 ==> |s'.queue| <= Woken(s'.pcs) + InHand(s')) <==> !Forgets(s, a)
  {
    CountsMove(s, a);
    assert WellPlaced(s, a.t);
  }

  lemma StepAttendedIff<T>(s: State<T>, a: Action<T>)
    requires Attended(s) && Next(s, a).Some?
    ensures Attended(Next(s, a).value) <==> !Forgets(s, a)
  {
    InvKept(s, a);
    if a.Notify? && a.woken.Some? {
      NotifyAttended(s, a);
    } else {
      CountsKeptIff(s, a);
    }
  }

  ghost predicate AlwaysAttended<T>(s: State<T>, acts: seq<Action<T>>)
    decreases |acts|
  {
    Attended(s) && (acts != [] && Next(s, acts[0]).Some? ==> AlwaysAttended(Next(s, acts[0]).value, acts[1..]))
  }

  ghost predicate NeverForgets<T>(s: State<T>, acts: seq<Action<T>>)
    decreases |acts|
  {
    acts != [] && Next(s, acts[0]).Some? ==>
      !Forgets(s, acts[0]) && NeverForgets(Next(s, acts[0]).value, acts[1..])
  }

  /** Over every interleaving of all calls: items stay attended exactly as long as no Flex pop leaves
      the only item behind while somebody sleeps and nobody is awake on the way to the lock. */
  lemma {:induction false} AttendedIff<T>(s: State<T>, acts: seq<Action<T>>)
    requires Attended(s)
    ensures AlwaysAttended(s, acts) <==> NeverForgets(s, acts)
    decreases |acts|
  {
    if acts != [] && Next(s, acts[0]).Some? {
      StepAttendedIff(s, acts[0]);
      if !Forgets(s, acts[0]) {
        AttendedIff(Next(s, acts[0]).value, acts[1..]);
      }
    }
  }

  lemma {:induction false} PlainNeverForgets<T>(s: State<T>, h: History<T>, acts: seq<Action<T>>)
    requires Inv(s) && OnlyPcs(s, false) && OnlyEffects(h.effects, false) && OnlyCalls(acts, false)
    ensures NeverForgets(s, acts)
    decreases |acts|
  {
    if acts != [] && Next(s, acts[0]).Some? {
      var a := acts[0];
      assert WellPlaced(s, a.t);
      assert Pending(s.pcs[a.t]).Some? ==> OnlyOp(Pending(s.pcs[a.t]).value, false);
      OnlyKept(s, h, a, false);
      InvKept(s, a);
      PlainNeverForgets(Next(s, a).value, Record(h, a.t, MoveOf(s, a)), acts[1..]);
    }
  }

  lemma {:induction false} AlwaysAttendedEnds<T>(s: State<T>, h: History<T>, acts: seq<Action<T>>)
    requires AlwaysAttended(s, acts)
    ensures Attended(Run(s, h, acts).0)
    decreases |acts|
  {
    if acts != [] && Next(s, acts[0]).Some? {
      AlwaysAttendedEnds(Next(s, acts[0]).value, Record(h, acts[0].t, MoveOf(s, acts[0])), acts[1..]);
    }
  }

  /** Over every interleaving of Push, TryPop and WaitPop: whenever the lock is free and somebody
      sleeps, at least as many threads are awake on their way back to the lock as items are queued. */
  lemma NoLostWakeup<T>(threads: nat, acts: seq<Action<T>>)
    requires OnlyCalls(acts, false)
    ensures AlwaysAttended(Init<T>(threads), acts)
    ensures var s := Run(Init<T>(threads), History([], [], []), acts).0;
      s.lock.None? && Sleepers(s.pcs) > 0 ==> |s.queue| <= Woken(s.pcs)
  {
    PlainNeverForgets(Init<T>(threads), History([], [], []), acts);
    AttendedIff(Init<T>(threads), acts);
    AlwaysAttendedEnds(Init<T>(threads), History([], [], []), acts);
  }

  // ---------------------------------------------------------------- a run in which a sleeper is forgotten

  /** The state after all of the steps, if every one can be taken. */
  function Go<T>(s: State<T>, acts: seq<Action<T>>): Option<State<T>>
    decreases |acts|
  {
    if acts == [] then Some(s)
    else if Next(s, acts[0]).None? then None
    else Go(Next(s, acts[0]).value, acts[1..])
  }

  lemma GoStep<T>(s: State<T>, a: Action<T>, rest: seq<Action<T>>, s': State<T>)
    requires Next(s, a) == Some(s')
    ensures Go(s, [a] + rest) == Go(s', rest)
  {
    assert ([a] + rest)[1..] == rest;
  }

  lemma {:induction false} GoThen<T>(s: State<T>, acts: seq<Action<T>>, s': State<T>, rest: seq<Action<T>>)
    requires Go(s, acts) == Some(s')
    ensures Go(s, acts + rest) == Go(s', rest)
    decreases |acts|
  {
    if acts == [] {
      assert acts + rest == rest;
    } else {
      assert (acts + rest)[1..] == acts[1..] + rest;
      GoThen(Next(s, acts[0]).value, acts[1..], s', rest);
    }
  }

  lemma {:induction false} GoIsRun<T>(s: State<T>, h: History<T>, acts: seq<Action<T>>)
    requires Go(s, acts).Some?
    ensures Run(s, h, acts).0 == Go(s, acts).value
    decreases |acts|
  {
    if acts != [] {
      GoIsRun(Next(s, acts[0]).value, Record(h, acts[0].t, MoveOf(s, acts[0])), acts[1..]);
    }
  }

  const FLEX_WAIT: Op<int> := PopOp(true, true)

  function FallAsleep(t: Tid): seq<Action<int>> { [Call(t, FLEX_WAIT)] + ([Lock(t)] + ([Test(t)] + [])) }

  const PUSH_SEVEN: seq<Action<int>> :=
    [Call(0, PushOp(7))] + ([Lock(0)] + ([Test(0)] + ([Notify(0, Some(1))] + ([Unlock(0)] + []))))

  const FLEX_POP: seq<Action<int>> := [Lock(1)] + ([Test(1)] + ([Trim(1)] + ([Pop(1)] + ([Unlock(1)] + []))))

  /** Threads 1 and 2 fall asleep in a Flex WaitPop, thread 0 pushes 7 and wakes thread 1, which
      copies it, leaves it in the queue, and wakes nobody. */
  const FORGETTING: seq<Action<int>> := FallAsleep(1) + (FallAsleep(2) + (PUSH_SEVEN + FLEX_POP))

  lemma FallsAsleep(s: State<int>, t: Tid)
    requires t < |s.pcs| && s.pcs[t].Idle? && s.lock.None? && s.queue == []
    ensures Go(s, FallAsleep(t)) == Some(s.(pcs := s.pcs[t := Sleeping(FLEX_WAIT)]))
  {
    var s1 := Goto(s, t, Wants(FLEX_WAIT));
    var s2 := Goto(s1, t, Holds(FLEX_WAIT)).(lock := Some(t));
    var s3 := Goto(s2, t, Sleeping(FLEX_WAIT)).(lock := None);
    GoStep(s, Call(t, FLEX_WAIT), [Lock(t)] + ([Test(t)] + []), s1);
    GoStep(s1, Lock(t), [Test(t)] + [], s2);
    GoStep(s2, Test(t), [], s3);
    assert s3.pcs == s.pcs[t := Sleeping(FLEX_WAIT)];
  }

  /** Thread 0 at `pc0`, thread 1 at `pc1`, thread 2 asleep. */
  function Three(pc0: Pc<int>, pc1: Pc<int>, lock: Option<Tid>, queue: seq<int>, entry: seq<int>): State<int> {
    State([pc0, pc1, Sleeping(FLEX_WAIT)], lock, queue, entry)
  }

  lemma PushesSeven()
    ensures Go(Three(Idle, Sleeping(FLEX_WAIT), None, [], []), PUSH_SEVEN)
         == Some(Three(Idle, Waking(FLEX_WAIT, false), None, [7], []))
  {
    var asleep := Sleeping(FLEX_WAIT);
    var s0, s1 := Three(Idle, asleep, None, [], []), Three(Wants(PushOp(7)), asleep, None, [], []);
    var s2, s3 := Three(Holds(PushOp(7)), asleep, Some(0), [], []), Three(Notifying(7), asleep, Some(0), [7], []);
    var s4 := Three(Leaving(Pushed(7)), Waking(FLEX_WAIT, false), Some(0), [7], []);
    var s5 := Three(Idle, Waking(FLEX_WAIT, false), None, [7], []);
    assert s0.pcs[0 := Wants(PushOp(7))] == s1.pcs;
    assert s1.pcs[0 := Holds(PushOp(7))] == s2.pcs;
    assert s2.pcs[0 := Notifying(7)] == s3.pcs && [] + [7] == [7];
    assert s3.pcs[1 := Waking(FLEX_WAIT, false)][0 := Leaving(Pushed(7))] == s4.pcs;
    assert s4.pcs[0 := Idle] == s5.pcs;
    GoStep(s0, Call(0, PushOp(7)), [Lock(0)] + ([Test(0)] + ([Notify(0, Some(1))] + ([Unlock(0)] + []))), s1);
    GoStep(s1, Lock(0), [Test(0)] + ([Notify(0, Some(1))] + ([Unlock(0)] + [])), s2);
    GoStep(s2, Test(0), [Notify(0, Some(1))] + ([Unlock(0)] + []), s3);
    GoStep(s3, Notify(0, Some(1)), [Unlock(0)] + [], s4);
    GoStep(s4, Unlock(0), [], s5);
  }

  lemma PopsFlex()
    ensures Go(Three(Idle, Waking(FLEX_WAIT, false), None, [7], []), FLEX_POP)
         == Some(Three(Idle, Idle, None, [7], [7]))
  {
    var s0 := Three(Idle, Waking(FLEX_WAIT, false), None, [7], []);
    var s1 := Three(Idle, Rechecking(FLEX_WAIT, false), Some(1), [7], []);
    var s2 := Three(Idle, Copied(FLEX_WAIT, 7), Some(1), [7], [7]);
    var s3 := Three(Idle, Trimmed(FLEX_WAIT, 7), Some(1), [7], [7]);
    var s4 := Three(Idle, Leaving(Popped(7, true)), Some(1), [7], [7]);
    var s5 := Three(Idle, Idle, None, [7], [7]);
    assert s0.pcs[1 := s1.pcs[1]] == s1.pcs && s1.pcs[1 := s2.pcs[1]] == s2.pcs;
    assert s2.pcs[1 := s3.pcs[1]] == s3.pcs && s3.pcs[1 := s4.pcs[1]] == s4.pcs && s4.pcs[1 := s5.pcs[1]] == s5.pcs;
    GoStep(s0, Lock(1), [Test(1)] + ([Trim(1)] + ([Pop(1)] + ([Unlock(1)] + []))), s1);
    GoStep(s1, Test(1), [Trim(1)] + ([Pop(1)] + ([Unlock(1)] + [])), s2);
    GoStep(s2, Trim(1), [Pop(1)] + ([Unlock(1)] + []), s3);
    GoStep(s3, Pop(1), [Unlock(1)] + [], s4);
    GoStep(s4, Unlock(1), [], s5);
  }

  /** From a new queue and three threads, a run that ends with an item queued, a sleeper, and nobody
      awake. */
  lemma FlexPopForgetsSleeper()
    ensures var s := Run(Init<int>(3), History([], [], []), FORGETTING).0;
      s == Three(Idle, Idle, None, [7], [7]) && Sleepers(s.pcs) == 1 && Woken(s.pcs) == 0 && !Attended(s)
  {
    var s0 := Init<int>(3);
    FallsAsleep(s0, 1);
    var s1 := s0.(pcs := s0.pcs[1 := Sleeping(FLEX_WAIT)]);
    FallsAsleep(s1, 2);
    var s2 := Three(Idle, Sleeping(FLEX_WAIT), None, [], []);
    assert s1.pcs[2 := Sleeping(FLEX_WAIT)] == s2.pcs;
    PushesSeven();
    PopsFlex();
    GoThen(s0, FallAsleep(1), s1, FallAsleep(2) + (PUSH_SEVEN + FLEX_POP));
    GoThen(s1, FallAsleep(2), s2, PUSH_SEVEN + FLEX_POP);
    GoThen(s2, PUSH_SEVEN, Three(Idle, Waking(FLEX_WAIT, false), None, [7], []), FLEX_POP);
    GoIsRun(s0, History([], [], []), FORGETTING);
    CountThree(Idle, Idle);
  }

  lemma CountFront<T>(pc: Pc<T>, pcs: seq<Pc<T>>)
    ensures Sleepers([pc] + pcs) == (if pc.Sleeping? then 1 else 0) + Sleepers(pcs)
    ensures Woken([pc] + pcs) == (if pc.Waking? then 1 else 0) + Woken(pcs)
  {
    assert ([pc] + pcs)[1..] == pcs;
  }

  lemma CountThree(pc0: Pc<int>, pc1: Pc<int>)
    ensures var pcs := [pc0, pc1, Sleeping(FLEX_WAIT)];
      && Sleepers(pcs) == 1 + (if pc0.Sleeping? then 1 else 0) + (if pc1.Sleeping? then 1 else 0)
      && Woken(pcs) == (if pc0.Waking? then 1 else 0) + (if pc1.Waking? then 1 else 0)
  {
    var last := Sleeping(FLEX_WAIT);
    CountFront(last, []);
    CountFront(pc1, [last] + []);
    CountFront(pc0, [pc1] + ([last] + []));
    assert [pc0, pc1, last] == [pc0] + ([pc1] + ([last] + []));
  }
}
