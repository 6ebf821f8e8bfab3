/** Two more facts about every interleaving of calls on the shared queue: when exactly a pop sleeps,
    gives up or takes what is there, told from the steps taken so far; and that no thread can be
    stuck, because the owner of the lock always has a next step and lets go after finitely many. */
module QueueWaits {
  import opened LockedQueue
  import opened Options
  import opened QueueUse
  import opened SafeQueue

  // ---------------------------------------------------------------- when a waiting pop gives up

  /** What last woke a thread since it started its call. */
  datatype Rouse = NotYet | Stirred | TimedOut

  /** Told from the steps alone: a notification and a spurious wake-up stir; a later wake-up
      replaces an earlier one. */
  ghost function Roused<T>(acts: seq<Action<T>>, t: Tid): Rouse {
    if acts == [] then NotYet
    else
      var a := acts[|acts| - 1];
      if a.Call? && a.t == t then NotYet
      else if a.Wake? && a.t == t then if a.timedOut then TimedOut else Stirred
      else if a.Notify? && a.woken == Some(t) then Stirred
      else Roused(acts[..|acts| - 1], t)
  }

  /** The call that thread t made last. */
  ghost function LastCall<T>(acts: seq<Action<T>>, t: Tid): Option<Op<T>> {
    if acts == [] then None
    else
      var a := acts[|acts| - 1];
      if a.Call? && a.t == t then Some(a.op) else LastCall(acts[..|acts| - 1], t)
  }

  /** A thread's place agrees with what it called and what woke it. */
  ghost predicate Agrees<T>(pc: Pc<T>, called: Option<Op<T>>, roused: Rouse) {
    && (Pending(pc).Some? ==> called == Pending(pc))
    && (pc.Wants? || pc.Holds? ==> roused == NotYet)
    && (pc.Sleeping? ==> roused != TimedOut)
    && (pc.Waking? || pc.Rechecking? ==> roused == if pc.timedOut then TimedOut else Stirred)
  }

  ghost predicate AllAgree<T>(s: State<T>, acts: seq<Action<T>>) {
    forall t :: 0 <= t < |s.pcs| ==> Agrees(s.pcs[t], LastCall(acts, t), Roused(acts, t))
  }

  lemma HistoryNext<T>(acts: seq<Action<T>>, a: Action<T>, t: Tid)
    ensures LastCall(acts + [a], t) == if a.Call? && a.t == t then Some(a.op) else LastCall(acts, t)
    ensures Roused(acts + [a], t) ==
            if a.Call? && a.t == t then NotYet
            else if a.Wake? && a.t == t then if a.timedOut then TimedOut else Stirred
            else if a.Notify? && a.woken == Some(t) then Stirred
            else Roused(acts, t)
  {
    assert (acts + [a])[..|acts|] == acts;
  }

  /** What another thread's step does to a thread: wake it, or nothing. */
  ghost predicate Stirs<T>(a: Action<T>, t: Tid, pc: Pc<T>, pc': Pc<T>) {
    if a.Notify? && a.woken == Some(t) then pc.Sleeping? && pc' == Waking(pc.op, false) else pc' == pc
  }

  lemma OthersStir<T>(s: State<T>, a: Action<T>, t: Tid)
    requires Next(s, a).Some? && t < |s.pcs| && a.t != t
    ensures Stirs(a, t, s.pcs[t], Next(s, a).value.pcs[t])
  {
  }

  lemma StirredAgrees<T>(acts: seq<Action<T>>, a: Action<T>, t: Tid, pc: Pc<T>, pc': Pc<T>)
    requires a.t != t && Stirs(a, t, pc, pc') && Agrees(pc, LastCall(acts, t), Roused(acts, t))
    ensures Agrees(pc', LastCall(acts + [a], t), Roused(acts + [a], t))
  {
    HistoryNext(acts, a, t);
  }

  lemma ThreadAgrees<T>(s: State<T>, acts: seq<Action<T>>, a: Action<T>, t: Tid)
    requires Next(s, a).Some? && t < |s.pcs|
    requires Agrees(s.pcs[t], LastCall(acts, t), Roused(acts, t))
    ensures Agrees(Next(s, a).value.pcs[t], LastCall(acts + [a], t), Roused(acts + [a], t))
  {
    if a.t == t {
      HistoryNext(acts, a, t);
    } else {
      OthersStir(s, a, t);
      StirredAgrees(acts, a, t, s.pcs[t], Next(s, a).value.pcs[t]);
    }
  }

  lemma {:induction false} RunAgrees<T>(s: State<T>, done: seq<Action<T>>, acts: seq<Action<T>>)
    requires Inv(s) && AllAgree(s, done) && Go(s, acts).Some?
    ensures Inv(Go(s, acts).value) && AllAgree(Go(s, acts).value, done + acts)
    decreases |acts|
  {
    if acts == [] {
      assert done + acts == done;
    } else {
      var a := acts[0];
      InvKept(s, a);
      forall t | 0 <= t < |s.pcs|
        ensures Agrees(Next(s, a).value.pcs[t], LastCall(done + [a], t), Roused(done + [a], t))
      {
        ThreadAgrees(s, done, a, t);
      }
      assert done + acts == (done + [a]) + acts[1..];
      RunAgrees(Next(s, a).value, done + [a], acts[1..]);
    }
  }

  /** Only a look at the queue refuses a pop or puts it to sleep. */
  lemma OnlyTestsDecide<T>(s: State<T>, a: Action<T>, t: Tid)
    requires Next(s, a).Some? && t < |s.pcs|
    ensures var pc, pc' := s.pcs[t], Next(s, a).value.pcs[t];
      pc' != pc && (pc'.Sleeping? || pc' == Leaving(Refused) || pc'.Copied?) ==> a == Test(t)
  {
  }

  /** Over every interleaving: a pop that looks at the queue takes the front if there is one; finding
      none it is refused exactly if it does not wait or was last woken by its time-out, and goes to
      sleep otherwise. */
  lemma LooksDecide<T>(threads: nat, acts: seq<Action<T>>, t: Tid)
    requires var s := Go(Init<T>(threads), acts);
      s.Some? && Next(s.value, Test(t)).Some? && LastCall(acts, t).Some? && LastCall(acts, t).value.PopOp?
    ensures var s, op := Go(Init<T>(threads), acts).value, LastCall(acts, t).value;
      Next(s, Test(t)).value.pcs[t] ==
      if s.queue != [] then Copied(op, s.queue[0])
      else if !op.wait || Roused(acts, t) == TimedOut then Leaving(Refused)
      else Sleeping(op)
  {
    RunAgrees(Init<T>(threads), [], acts);
    assert [] + acts == acts;
    var s := Go(Init<T>(threads), acts).value;
    assert WellPlaced(s, t) && Agrees(s.pcs[t], LastCall(acts, t), Roused(acts, t));
  }

  /** Over every interleaving: a pop whose time is up does not sleep again. */
  lemma TimeOutIsFinal<T>(threads: nat, acts: seq<Action<T>>, t: Tid)
    requires Go(Init<T>(threads), acts).Some? && t < threads && Roused(acts, t) == TimedOut
    ensures var s := Go(Init<T>(threads), acts).value; t < |s.pcs| && !s.pcs[t].Sleeping?
  {
    RunAgrees(Init<T>(threads), [], acts);
    assert [] + acts == acts;
    GoIsRun(Init<T>(threads), History([], [], []), acts);
    RunKeepsThreads(Init<T>(threads), History([], [], []), acts);
    assert Agrees(Go(Init<T>(threads), acts).value.pcs[t], LastCall(acts, t), Roused(acts, t));
  }

  // ---------------------------------------------------------------- nobody is stuck

  /** A step that thread t could take next, if it needs the lock or has it. */
  ghost function Turn<T>(s: State<T>, t: Tid): Action<T>
    requires t < |s.pcs|
  {
    match s.pcs[t]
    case Wants(_) => Lock(t)
    case Waking(_, _) => Lock(t)
    case Holds(_) => Test(t)
    case Rechecking(_, _) => Test(t)
    case Copied(op, _) => if op.PopOp? && op.flex then Trim(t) else Pop(t)
    case Trimmed(_, _) => Pop(t)
    case Notifying(_) => Notify(t, ASleeper(s.pcs))
    case Leaving(_) => Unlock(t)
    case Sleeping(_) => Action.Wake(t, true)
    case Idle => Unlock(t)
  }

  ghost function ASleeper<T>(pcs: seq<Pc<T>>): (r: Option<Tid>)
    ensures r.None? <==> Sleepers(pcs) == 0
    ensures r.Some? ==> r.value < |pcs| && pcs[r.value].Sleeping?
  {
    if pcs == [] then None
    else if pcs[0].Sleeping? then Some(0)
    else
      var r := ASleeper(pcs[1..]);
      if r.None? then None else Some(r.value + 1)
  }

  /** How many steps the owner of the lock needs at most until it lets go. */
  ghost function Left<T>(s: State<T>): nat {
    if s.lock.None? || s.lock.value >= |s.pcs| then 0
    else match s.pcs[s.lock.value]
      case Holds(_) => |s.queue| + 4
      case Rechecking(_, _) => |s.queue| + 4
      case Copied(_, _) => |s.queue| + 3
      case Trimmed(_, _) => 2
      case Notifying(_) => 2
      case _ => 1
  }

  /** Whatever the owner does next brings it closer to letting go, and there is such a step. */
  lemma OwnerMoves<T>(s: State<T>)
    requires Inv(s) && s.lock.Some?
    ensures Next(s, Turn(s, s.lock.value)).Some?
    ensures forall a: Action<T> :: a.t == s.lock.value && Next(s, a).Some? ==> Left(Next(s, a).value) < Left(s)
  {
    var t := s.lock.value;
    assert WellPlaced(s, t);
    forall a: Action<T> | a.t == t && Next(s, a).Some? ensures Left(Next(s, a).value) < Left(s) {
      OwnerStep(s, a);
    }
  }

  lemma OwnerStep<T>(s: State<T>, a: Action<T>)
    requires Inv(s) && s.lock == Some(a.t) && Next(s, a).Some?
    ensures Left(Next(s, a).value) < Left(s)
  {
    assert WellPlaced(s, a.t);
  }

  /** The others cannot delay it. */
  lemma OthersStep<T>(s: State<T>, a: Action<T>)
    requires Inv(s) && s.lock.Some? && s.lock.value != a.t && Next(s, a).Some?
    ensures Next(s, a).value.lock == s.lock && Left(Next(s, a).value) == Left(s)
  {
    assert WellPlaced(s, a.t) && WellPlaced(s, s.lock.value);
  }

  ghost function StepsOf<T>(acts: seq<Action<T>>, t: Tid): nat {
    if acts == [] then 0 else (if acts[0].t == t then 1 else 0) + StepsOf(acts[1..], t)
  }

  /** In any interleaving, the owner lets go after at most Left(s) steps of its own. */
  lemma {:induction false} OwnerLetsGo<T>(s: State<T>, acts: seq<Action<T>>)
    requires Inv(s) && s.lock.Some? && Go(s, acts).Some? && StepsOf(acts, s.lock.value) >= Left(s)
    ensures exists n :: 0 <= n <= |acts| && Go(s, acts[..n]).Some? && Go(s, acts[..n]).value.lock.None?
    decreases |acts|
  {
    var a, t := acts[0], s.lock.value;
    var s1 := Next(s, a).value;
    InvKept(s, a);
    if a.t == t {
      OwnerStep(s, a);
    } else {
      OthersStep(s, a);
    }
    if s1.lock.None? {
      assert acts[..1][1..] == [];
      assert Go(s, acts[..1]) == Go(s1, []);
    } else {
      OwnerKeeps(s, a);
      OwnerLetsGo(s1, acts[1..]);
      var n :| 0 <= n <= |acts[1..]| && Go(s1, acts[1..][..n]).Some? && Go(s1, acts[1..][..n]).value.lock.None?;
      assert acts[..n + 1][1..] == acts[1..][..n];
    }
  }

  lemma OwnerKeeps<T>(s: State<T>, a: Action<T>)
    requires Inv(s) && s.lock.Some? && Next(s, a).Some? && Next(s, a).value.lock.Some?
    ensures Next(s, a).value.lock == s.lock
  {
    assert WellPlaced(s, a.t) && WellPlaced(s, s.lock.value);
  }

  /** While some call has not returned, some thread can go on: the caller, or the owner of the
      lock. */
  lemma NobodyStuck<T>(threads: nat, acts: seq<Action<T>>, t: Tid)
    requires Go(Init<T>(threads), acts).Some?
    requires var s := Go(Init<T>(threads), acts).value; t < |s.pcs| && !s.pcs[t].Idle?
    ensures var s := Go(Init<T>(threads), acts).value;
      if s.lock.Some? then s.lock.value < |s.pcs| && Next(s, Turn(s, s.lock.value)).Some?
      else Next(s, Turn(s, t)).Some?
  {
    RunAgrees(Init<T>(threads), [], acts);
    var s := Go(Init<T>(threads), acts).value;
    assert WellPlaced(s, t);
    if s.lock.Some? {
      OwnerMoves(s);
    }
  }
}
