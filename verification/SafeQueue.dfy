/** `ThreadSafeQueue`: what each critical section does to the queue. The class is the code under
    the mutex; module LockedQueue shows what many threads running it can observe. */
module SafeQueue {
  /** What a Flex pop leaves: items beyond the newest five go, then one more, but never the last. */
  function FlexRest<T>(q: seq<T>): seq<T>
    requires q != []
  {
    var kept := if |q| > 5 then q[|q| - 5..] else q;
    if |kept| > 1 then kept[1..] else kept
  }

  /** A waiting thread's next wake-up: the queue as other threads have left it by then, and
      whether the five milliseconds are over. */
  datatype Wake<T> = Wake(queue: seq<T>, timedOut: bool)

  class ThreadSafeQueue<T> {
    var queue: seq<T>

    constructor ()
      ensures queue == []
    {
      queue := [];
    }

    method Push(value: T)
      modifies this
      ensures queue == old(queue) + [value]
    {
      queue := queue + [value];
    }

    /** The reference parameter of the source is `value` going in and `out` coming back. */
    method TryPop(value: T) returns (ok: bool, out: T)
      modifies this
      ensures ok == (old(queue) != [])
      ensures ok ==> [out] + queue == old(queue)
      ensures !ok ==> out == value && queue == old(queue)
    {
      if queue == [] {
        return false, value;
      }
      out := queue[0];
      queue := queue[1..];
      return true, out;
    }

    method TryPopFlex(value: T) returns (ok: bool, out: T)
      modifies this
      ensures ok == (old(queue) != [])
      ensures ok ==> out == old(queue)[0] && queue == FlexRest(old(queue))
      ensures !ok ==> out == value && queue == old(queue)
    {
      if queue == [] {
        return false, value;
      }
      out := queue[0];
      DropStale();
      return true, out;
    }

    /** The two popping statements that the Flex pops share. */
    method DropStale()
      requires queue != []
      modifies this
      ensures queue == FlexRest(old(queue))
    {
      ghost var was := queue;
      while |queue| > 5
        invariant 0 < |queue| <= |was| && queue == was[|was| - |queue|..]
        invariant if |was| <= 5 then queue == was else |queue| >= 5
      {
        queue := queue[1..];
      }
      assert queue == if |was| > 5 then was[|was| - 5..] else was;
      if |queue| > 1 {
        queue := queue[1..];
      }
    }

    /** wait_for with a predicate: check, sleep, check again after each wake-up, and on a time-out
        report the predicate's value. The last wake-up of the script is the time-out. */
    method Wait(wakes: seq<Wake<T>>) returns (ready: bool, n: nat)
      requires wakes != [] && wakes[|wakes| - 1].timedOut
      modifies this
      ensures n <= |wakes| && queue == (if n == 0 then old(queue) else wakes[n - 1].queue)
      ensures ready <==> queue != []
      ensures !ready ==> n > 0 && wakes[n - 1].timedOut
      ensures n > 0 ==> old(queue) == [] && forall i :: 0 <= i < n - 1 ==> wakes[i].queue == [] && !wakes[i].timedOut
    {
      n := 0;
      while queue == []
        invariant n < |wakes| && queue == if n == 0 then old(queue) else wakes[n - 1].queue
        invariant n > 0 ==> old(queue) == []
        invariant forall i :: 0 <= i < n ==> !wakes[i].timedOut
        invariant forall i :: 0 <= i < n - 1 ==> wakes[i].queue == []
        decreases |wakes| - n
      {
        queue := wakes[n].queue;
        n := n + 1;
        if wakes[n - 1].timedOut {
          return queue != [], n;
        }
      }
      return true, n;
    }

    method WaitPop(value: T, wakes: seq<Wake<T>>) returns (ok: bool, out: T, ghost n: nat)
      requires wakes != [] && wakes[|wakes| - 1].timedOut
      modifies this
      ensures n <= |wakes|
      ensures n > 0 ==> old(queue) == [] && forall i :: 0 <= i < n - 1 ==> wakes[i].queue == [] && !wakes[i].timedOut
      ensures var last := if n == 0 then old(queue) else wakes[n - 1].queue;
        && ok == (last != [])
        && (ok ==> [out] + queue == last)
        && (!ok ==> out == value && queue == [] && n > 0 && wakes[n - 1].timedOut)
    {
      var ready, m := Wait(wakes);
      n := m;
      if !ready {
        return false, value, n;
      }
      out := queue[0];
      queue := queue[1..];
      return true, out, n;
    }

    method WaitPopFlex(value: T, wakes: seq<Wake<T>>) returns (ok: bool, out: T, ghost n: nat)
      requires wakes != [] && wakes[|wakes| - 1].timedOut
      modifies this
      ensures n <= |wakes|
      ensures n > 0 ==> old(queue) == [] && forall i :: 0 <= i < n - 1 ==> wakes[i].queue == [] && !wakes[i].timedOut
      ensures var last := if n == 0 then old(queue) else wakes[n - 1].queue;
        && ok == (last != [])
        && (ok ==> out == last[0] && queue == FlexRest(last))
        && (!ok ==> out == value && queue == [] && n > 0 && wakes[n - 1].timedOut)
    {
      var ready, m := Wait(wakes);
      n := m;
      if !ready {
        return false, value, n;
      }
      out := queue[0];
      DropStale();
      return true, out, n;
    }
  }

  // ---------------------------------------------------------------- one consumer that Flex-pops

  /** A Flex pop keeps the newest items: all of a single one, else at most four of n - 1. */
  lemma FlexKeepsSuffix<T>(q: seq<T>)
    requires q != []
    ensures var n := |q|; var k := if n == 1 then 1 else if n <= 4 then n - 1 else 4;
      k == FlexSize(n) && FlexRest(q) == q[n - k..] && |FlexRest(q)| == k && FlexRest(q)[k - 1] == q[n - 1]
  {
  }

  datatype FeedOp<T> = Feed(v: T) | Show

  /** The push position of an item that was returned, and how many pushes there had been. */
  datatype Mark = Mark(at: nat, seen: nat)

  /** A queue fed by Push and read by Flex pops, with what was pushed, what was returned, and at
      which positions that stands. */
  datatype Screen<T> = Screen(queue: seq<T>, pushed: seq<T>, shown: seq<T>, marks: seq<Mark>)

  function FeedStep<T>(s: Screen<T>, op: FeedOp<T>): Screen<T>
    requires |s.queue| <= |s.pushed|
  {
    match op
    case Feed(v) => s.(queue := s.queue + [v], pushed := s.pushed + [v])
    case Show =>
      if s.queue == [] then s
      else Screen(FlexRest(s.queue), s.pushed, s.shown + [s.queue[0]],
                  s.marks + [Mark(|s.pushed| - |s.queue|, |s.pushed|)])
  }

  /** The position shown lies before p, or is p itself and was the newest at that time. */
  predicate Before(m: Mark, p: int) {
    m.at < p || m.at == p == m.seen as int - 1
  }

  /** Positions shown never go back, and one is shown twice only while it is the newest. */
  ghost predicate Ordered(marks: seq<Mark>, next: int) {
    && (forall i, j :: 0 <= i < j < |marks| ==> Before(marks[i], marks[j].at))
    && (forall m <- marks :: Before(m, next))
  }

  ghost predicate InPushOrder<T>(s: Screen<T>) {
    && |s.queue| <= |s.pushed| && s.queue == s.pushed[|s.pushed| - |s.queue|..]
    && (s.pushed != [] ==> s.queue != [])
    && |s.shown| == |s.marks|
    && (forall i :: 0 <= i < |s.marks| ==>
          s.marks[i].at < s.marks[i].seen <= |s.pushed| && s.shown[i] == s.pushed[s.marks[i].at])
    && Ordered(s.marks, |s.pushed| - |s.queue|)
  }

  lemma OrderedExtends(marks: seq<Mark>, m: Mark, next: nat)
    requires Ordered(marks, m.at) && Before(m, next)
    ensures Ordered(marks + [m], next)
  {
    forall x <- marks ensures Before(x, next) {
      assert Before(x, m.at);
    }
  }

  lemma FlexRestIsTail<T>(q: seq<T>, pushed: seq<T>)
    requires q != [] && |q| <= |pushed| && q == pushed[|pushed| - |q|..]
    ensures var rest := FlexRest(q);
      && 0 < |rest| <= |q| && rest == pushed[|pushed| - |rest|..]
      && (|rest| == |q| ==> |q| == 1)
    ensures q[0] == pushed[|pushed| - |q|]
  {
    FlexKeepsSuffix(q);
  }

  lemma ShowKeepsOrder<T>(s: Screen<T>, s': Screen<T>, rest: seq<T>)
    requires InPushOrder(s) && s.queue != []
    requires 0 < |rest| <= |s.queue| && rest == s.pushed[|s.pushed| - |rest|..]
    requires |rest| == |s.queue| ==> |s.queue| == 1
    requires s' == Screen(rest, s.pushed, s.shown + [s.pushed[|s.pushed| - |s.queue|]],
                          s.marks + [Mark(|s.pushed| - |s.queue|, |s.pushed|)])
    ensures InPushOrder(s')
  {
    OrderedExtends(s.marks, Mark(|s.pushed| - |s.queue|, |s.pushed|), |s.pushed| - |rest|);
  }

  lemma PushKeepsOrder<T>(s: Screen<T>, v: T)
    requires InPushOrder(s)
    ensures InPushOrder(FeedStep(s, Feed(v)))
  {
    var s' := FeedStep(s, Feed(v));
    assert s'.queue == s'.pushed[|s'.pushed| - |s'.queue|..];
    assert |s'.pushed| - |s'.queue| == |s.pushed| - |s.queue| && s'.marks == s.marks;
  }

  lemma FeedKeepsOrder<T>(s: Screen<T>, op: FeedOp<T>)
    requires InPushOrder(s)
    ensures InPushOrder(FeedStep(s, op))
    ensures s.queue != [] ==> FeedStep(s, op).queue != []
  {
    match op
    case Show =>
      if s.queue != [] {
        FlexRestIsTail(s.queue, s.pushed);
        ShowKeepsOrder(s, FeedStep(s, Show), FlexRest(s.queue));
      }
    case Feed(v) => PushKeepsOrder(s, v);
  }

  function RunFeed<T>(s: Screen<T>, ops: seq<FeedOp<T>>): Screen<T>
    decreases |ops|
  {
    if ops == [] || |s.queue| > |s.pushed| then s else RunFeed(FeedStep(s, ops[0]), ops[1..])
  }

  /** Over every run of Push and Flex pops: a queue that was fed never empties, and what is shown
      follows the push order, repeating only the newest item. */
  lemma {:induction false} RunFeedInOrder<T>(s: Screen<T>, ops: seq<FeedOp<T>>)
    requires InPushOrder(s)
    ensures InPushOrder(RunFeed(s, ops))
    ensures s.queue != [] ==> RunFeed(s, ops).queue != []
    decreases |ops|
  {
    if ops != [] {
      FeedKeepsOrder(s, ops[0]);
      RunFeedInOrder(FeedStep(s, ops[0]), ops[1..]);
    }
  }

  function PopFlexTimes<T>(q: seq<T>, n: nat): (r: seq<T>)
    requires q != []
    ensures r != []
  {
    if n == 0 then q else FlexRest(PopFlexTimes(q, n - 1))
  }

  lemma FlexRestEnds<T>(q: seq<T>, rest: seq<T>)
    requires q != [] && rest == FlexRest(q)
    ensures |rest| == FlexSize(|q|) && rest[|rest| - 1] == q[|q| - 1]
  {
    FlexKeepsSuffix(q);
  }

  function FlexSize(n: nat): nat
    requires n > 0
  {
    if n == 1 then 1 else if n - 1 < 4 then n - 1 else 4
  }

  /** Once pushing stops, every call from the fifth on returns the newest item. */
  lemma {:induction false} FifthPopShowsNewest<T>(q: seq<T>, n: nat)
    requires q != []
    ensures var r := PopFlexTimes(q, n);
      && r[|r| - 1] == q[|q| - 1]
      && (n >= 1 ==> |r| <= (if n >= 4 then 1 else 5 - n))
      && (n >= 4 ==> r[0] == q[|q| - 1])
  {
    if n > 0 {
      FifthPopShowsNewest(q, n - 1);
      FlexRestEnds(PopFlexTimes(q, n - 1), PopFlexTimes(q, n));
    }
  }
}
