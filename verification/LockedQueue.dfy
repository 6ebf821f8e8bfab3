/** Many threads calling `ThreadSafeQueue`, at the grain of its lock and condition variable: ask
    for the lock, get it, test the queue, copy the front, pop one stale item at a time, notify,
    sleep, wake (by a notification, by time-out, or spuriously), let go of the lock.

    Every interleaving is a run of an atomic queue: each call takes effect at one moment between
    its start and its return (`Linearizable`). */
module LockedQueue {
  import opened Options
  import opened SafeQueue

  type Tid = nat

  datatype Op<T> = PushOp(v: T) | PopOp(flex: bool, wait: bool)

  datatype Result<T> = Pushed(v: T) | Popped(v: T, flex: bool) | Refused

  /** Where a thread is in the code. The states that own the lock are those of `InCritical`. */
  datatype Pc<T> =
    | Idle
    | Wants(op: Op<T>)                         // before the lock
    | Holds(op: Op<T>)                         // has it, has not looked yet
    | Sleeping(op: Op<T>)                      // inside wait_for, lock released
    | Waking(op: Op<T>, timedOut: bool)        // woken, must get the lock back
    | Rechecking(op: Op<T>, timedOut: bool)    // has it back
    | Copied(op: Op<T>, v: T)                  // value = front(); a Flex pop is in its while loop
    | Trimmed(op: Op<T>, v: T)                 // a Flex pop behind its while loop
    | Notifying(v: T)                          // pushed, notify_one still to come
    | Leaving(r: Result<T>)                    // about to release the lock and return

  predicate InCritical<T>(pc: Pc<T>) {
    !(pc.Idle? || pc.Wants? || pc.Sleeping? || pc.Waking?)
  }

  /** `entry` is the queue as the lock holder found it when it copied the front. */
  datatype State<T> = State(pcs: seq<Pc<T>>, lock: Option<Tid>, queue: seq<T>, entry: seq<T>)

  datatype Action<T> =
    | Call(t: Tid, op: Op<T>)
    | Lock(t: Tid)
    | Test(t: Tid)
    | Trim(t: Tid)
    | Pop(t: Tid)
    | Notify(t: Tid, woken: Option<Tid>)
    | Wake(t: Tid, timedOut: bool)
    | Unlock(t: Tid)

  function Init<T>(threads: nat): State<T> {
    State(seq(threads, _ => Idle), None, [], [])
  }

  function Goto<T>(s: State<T>, t: Tid, pc: Pc<T>): State<T>
    requires t < |s.pcs|
  {
    s.(pcs := s.pcs[t := pc])
  }

  /** The emptiness check of a popping thread: copy the front, sleep, or give up. */
  function Look<T>(s: State<T>, t: Tid, op: Op<T>, maySleep: bool): State<T>
    requires t < |s.pcs|
  {
    if s.queue != [] then Goto(s, t, Copied(op, s.queue[0])).(entry := s.queue)
    else if maySleep then Goto(s, t, Sleeping(op)).(lock := None)
    else Goto(s, t, Leaving(Refused))
  }

  /** The pop statement behind the copy (TryPop, WaitPop) or behind the loop (Flex). */
  function PopOnce<T>(q: seq<T>, flex: bool): seq<T> {
    if q == [] || (flex && |q| == 1) then q else q[1..]
  }

  /** One step of thread a.t, or None when it cannot take that step. */
  function Next<T>(s: State<T>, a: Action<T>): (r: Option<State<T>>)
    ensures r.Some? ==> a.t < |s.pcs| == |r.value.pcs|
  {
    if a.t >= |s.pcs| then None else
    var pc := s.pcs[a.t];
    match a
    case Call(t, op) =>
      if pc.Idle? then Some(Goto(s, t, Wants(op))) else None
    case Lock(t) =>
      if s.lock.Some? then None
      else if pc.Wants? then Some(Goto(s, t, Holds(pc.op)).(lock := Some(t)))
      else if pc.Waking? then Some(Goto(s, t, Rechecking(pc.op, pc.timedOut)).(lock := Some(t)))
      else None
    case Test(t) =>
      if pc.Holds? && pc.op.PushOp? then
        Some(Goto(s, t, Notifying(pc.op.v)).(queue := s.queue + [pc.op.v]))
      else if pc.Holds? then Some(Look(s, t, pc.op, pc.op.wait))
      else if pc.Rechecking? then Some(Look(s, t, pc.op, !pc.timedOut))
      else None
    case Trim(t) =>
      if !pc.Copied? || !(pc.op.PopOp? && pc.op.flex) then None
      else if |s.queue| > 5 then Some(s.(queue := s.queue[1..]))
      else Some(Goto(s, t, Trimmed(pc.op, pc.v)))
    case Pop(t) =>
      if pc.Copied? && pc.op.PopOp? && !pc.op.flex then
        Some(Goto(s, t, Leaving(Popped(pc.v, false))).(queue := PopOnce(s.queue, false)))
      else if pc.Trimmed? then
        Some(Goto(s, t, Leaving(Popped(pc.v, true))).(queue := PopOnce(s.queue, true)))
      else None
    case Notify(t, woken) =>
      if !pc.Notifying? then None
      else if woken.Some? then
        if woken.value < |s.pcs| && s.pcs[woken.value].Sleeping?
        then Some(Goto(Goto(s, woken.value, Waking(s.pcs[woken.value].op, false)), t, Leaving(Pushed(pc.v))))
        else None
      else if Sleepers(s.pcs) == 0 then Some(Goto(s, t, Leaving(Pushed(pc.v))))
      else None
    case Wake(t, timedOut) =>
      if pc.Sleeping? then Some(Goto(s, t, Waking(pc.op, timedOut))) else None
    case Unlock(t) =>
      if pc.Leaving? then Some(Goto(s, t, Idle).(lock := None)) else None
  }

  function Sleepers<T>(pcs: seq<Pc<T>>): nat {
    if pcs == [] then 0 else (if pcs[0].Sleeping? then 1 else 0) + Sleepers(pcs[1..])
  }

  /** Threads that were woken and have not got the lock back yet. */
  function Woken<T>(pcs: seq<Pc<T>>): nat {
    if pcs == [] then 0 else (if pcs[0].Waking? then 1 else 0) + Woken(pcs[1..])
  }

  // ---------------------------------------------------------------- mutual exclusion

  predicate Popping<T>(pc: Pc<T>) { pc.Copied? || pc.Trimmed? }

  /** What a thread between its copy and its last pop has done to the queue so far. */
  ghost predicate MidPop<T>(pc: Pc<T>, queue: seq<T>, entry: seq<T>)
    requires Popping(pc)
  {
    && pc.op.PopOp? && 0 < |queue| <= |entry| && pc.v == entry[0]
    && queue == entry[|entry| - |queue|..]
    && (if pc.Trimmed? then pc.op.flex && |queue| == (if |entry| <= 5 then |entry| else 5)
        else if |entry| <= 5 || !pc.op.flex then |queue| == |entry| else |queue| >= 5)
  }

  ghost predicate WellPlaced<T>(s: State<T>, t: Tid)
    requires t < |s.pcs|
  {
    var pc := s.pcs[t];
    && (InCritical(pc) <==> s.lock == Some(t))
    && (Popping(pc) ==> MidPop(pc, s.queue, s.entry))
    && (pc.Sleeping? || pc.Waking? || pc.Rechecking? ==> pc.op.PopOp? && pc.op.wait)
  }

  /** At most the lock holder is in a critical section; a thread that copied the front works on a
      tail of the queue it found; only WaitPops sleep. */
  ghost predicate Inv<T>(s: State<T>) {
    && (s.lock.Some? ==> s.lock.value < |s.pcs|)
    && forall t :: 0 <= t < |s.pcs| ==> WellPlaced(s, t)
  }

  lemma OtherPlaced<T>(s: State<T>, s': State<T>, t: Tid)
    requires t < |s.pcs| == |s'.pcs| && WellPlaced(s, t) && s'.pcs[t] == s.pcs[t]
    requires s.lock.Some? && s.lock.value != t && (s'.lock == s.lock || s'.lock.None?)
    ensures WellPlaced(s', t)
  {
  }

  lemma TesterPlaced<T>(s: State<T>, a: Action<T>)
    requires Inv(s) && Next(s, a).Some? && a.Test?
    ensures s.lock == Some(a.t) && WellPlaced(Next(s, a).value, a.t)
  {
    assert WellPlaced(s, a.t);
  }

  lemma PopperPlaced<T>(s: State<T>, a: Action<T>)
    requires Inv(s) && Next(s, a).Some? && (a.Trim? || a.Pop?)
    ensures s.lock == Some(a.t) && WellPlaced(Next(s, a).value, a.t)
  {
    assert WellPlaced(s, a.t);
  }

  lemma InvKeptWithQueue<T>(s: State<T>, a: Action<T>)
    requires Inv(s) && Next(s, a).Some? && (a.Test? || a.Trim? || a.Pop?)
    ensures Inv(Next(s, a).value)
  {
    if a.Test? {
      TesterPlaced(s, a);
    } else {
      PopperPlaced(s, a);
    }
    forall t | 0 <= t < |s.pcs| && t != a.t ensures WellPlaced(Next(s, a).value, t) {
      OtherPlaced(s, Next(s, a).value, t);
    }
  }

  lemma InvKept<T>(s: State<T>, a: Action<T>)
    requires Inv(s) && Next(s, a).Some?
    ensures Inv(Next(s, a).value)
  {
    if a.Test? || a.Trim? || a.Pop? {
      InvKeptWithQueue(s, a);
    } else {
      var s' := Next(s, a).value;
      assert s'.queue == s.queue && s'.entry == s.entry;
      assert WellPlaced(s, a.t);
      forall t | 0 <= t < |s'.pcs| ensures WellPlaced(s', t) {
        assert WellPlaced(s, t);
      }
    }
  }

  /** No step that pops or copies ever finds the queue empty. */
  lemma NeverPopsEmpty<T>(s: State<T>, t: Tid)
    requires Inv(s) && t < |s.pcs| && Popping(s.pcs[t])
    ensures s.lock == Some(t) && s.queue != []
    ensures forall u :: 0 <= u < |s.pcs| && u != t ==> !InCritical(s.pcs[u])
  {
    assert WellPlaced(s, t);
    forall u | 0 <= u < |s.pcs| && u != t ensures !InCritical(s.pcs[u]) {
      assert WellPlaced(s, u);
    }
  }

  // ---------------------------------------------------------------- the atomic queue

  /** The queue a caller may think of: while somebody is in the middle of a pop, the one it found. */
  ghost function Abs<T>(s: State<T>): seq<T> {
    if s.lock.Some? && s.lock.value < |s.pcs| && Popping(s.pcs[s.lock.value]) then s.entry else s.queue
  }

  /** One call on the atomic queue; None when it could not have this result. */
  ghost function Atomically<T>(q: seq<T>, r: Result<T>): Option<seq<T>> {
    match r
    case Pushed(v) => Some(q + [v])
    case Popped(v, flex) =>
      if q == [] || q[0] != v then None else Some(if flex then FlexRest(q) else q[1..])
    case Refused => if q == [] then Some(q) else None
  }

  ghost function AllAtomically<T>(effects: seq<(Tid, Result<T>)>): Option<seq<T>> {
    if effects == [] then Some([])
    else
      var before := AllAtomically(effects[..|effects| - 1]);
      if before.None? then None else Atomically(before.value, effects[|effects| - 1].1)
  }

  /** What a thread's current call has already achieved, and what it still has to. */
  function Achieved<T>(pc: Pc<T>): Option<Result<T>> {
    if pc.Notifying? then Some(Pushed(pc.v)) else if pc.Leaving? then Some(pc.r) else None
  }

  function Pending<T>(pc: Pc<T>): Option<Op<T>> {
    if pc.Idle? || pc.Notifying? || pc.Leaving? then None else Some(pc.op)
  }

  /** The moment a call takes effect: this step gives its thread a result. */
  function EffectOf<T>(s: State<T>, a: Action<T>): Option<Result<T>>
    requires Next(s, a).Some?
  {
    var s' := Next(s, a).value;
    if Achieved(s.pcs[a.t]).None? then Achieved(s'.pcs[a.t]) else None
  }

  lemma PopRefines<T>(s: State<T>, a: Action<T>)
    requires Inv(s) && a.Pop? && Next(s, a).Some?
    ensures EffectOf(s, a).Some? && Atomically(Abs(s), EffectOf(s, a).value) == Some(Abs(Next(s, a).value))
  {
    assert WellPlaced(s, a.t);
    var pc := s.pcs[a.t];
    if pc.Trimmed? {
      assert s.queue == if |s.entry| > 5 then s.entry[|s.entry| - 5..] else s.entry;
    } else {
      assert s.queue == s.entry;
    }
  }

  lemma TestRefines<T>(s: State<T>, a: Action<T>)
    requires Inv(s) && (a.Test? || a.Trim?) && Next(s, a).Some?
    ensures var s' := Next(s, a).value; match EffectOf(s, a)
      case None => Abs(s') == Abs(s)
      case Some(r) => Atomically(Abs(s), r) == Some(Abs(s'))
  {
    assert WellPlaced(s, a.t);
  }

  lemma QuietRefines<T>(s: State<T>, a: Action<T>)
    requires Inv(s) && !a.Test? && !a.Trim? && !a.Pop? && Next(s, a).Some?
    ensures EffectOf(s, a).None? && Abs(Next(s, a).value) == Abs(s)
  {
    assert WellPlaced(s, a.t);
    if s.lock.Some? {
      assert WellPlaced(s, s.lock.value);
    }
  }

  /** Every step is invisible or is one whole call on the atomic queue. */
  lemma StepRefines<T>(s: State<T>, a: Action<T>)
    requires Inv(s) && Next(s, a).Some?
    ensures var s' := Next(s, a).value; match EffectOf(s, a)
      case None => Abs(s') == Abs(s)
      case Some(r) => Atomically(Abs(s), r) == Some(Abs(s'))
  {
    if a.Pop? {
      PopRefines(s, a);
    } else if a.Test? || a.Trim? {
      TestRefines(s, a);
    } else {
      QuietRefines(s, a);
    }
  }

  // ---------------------------------------------------------------- histories and linearizability

  /** Calls started, calls that took effect, and calls that returned, each in time order. */
  datatype History<T> = History(
    calls: seq<(Tid, Op<T>)>, effects: seq<(Tid, Result<T>)>, finished: seq<(Tid, Result<T>)>)

  datatype Move<T> = Started(op: Op<T>) | TookEffect(r: Result<T>) | Returned(r: Result<T>) | Quiet

  function MoveOf<T>(s: State<T>, a: Action<T>): Move<T>
    requires Next(s, a).Some?
  {
    if a.Call? then Started(a.op)
    else if a.Unlock? then Returned(s.pcs[a.t].r)
    else match EffectOf(s, a)
      case Some(r) => TookEffect(r)
      case None => Quiet
  }

  function Record<T>(h: History<T>, t: Tid, m: Move<T>): History<T> {
    match m
    case Started(op) => h.(calls := h.calls + [(t, op)])
    case TookEffect(r) => h.(effects := h.effects + [(t, r)])
    case Returned(r) => h.(finished := h.finished + [(t, r)])
    case Quiet => h
  }

  /** One thread's part of a history. */
  ghost function Of<X>(t: Tid, log: seq<(Tid, X)>): seq<X> {
    if log == [] then []
    else Of(t, log[..|log| - 1]) + if log[|log| - 1].0 == t then [log[|log| - 1].1] else []
  }

  lemma OfAppend<X>(t: Tid, log: seq<(Tid, X)>, e: (Tid, X))
    ensures Of(t, log + [e]) == Of(t, log) + if e.0 == t then [e.1] else []
  {
    assert (log + [e])[..|log|] == log;
  }

  predicate Fits<T(==)>(op: Op<T>, r: Result<T>) {
    match r
    case Pushed(v) => op == PushOp(v)
    case Popped(_, flex) => op.PopOp? && op.flex == flex
    case Refused => op.PopOp?
  }

  /** A thread's calls, effects and returns agree one by one, except that the current call may
      not have taken effect yet, or not have returned yet. */
  ghost predicate InStep<T>(calls: seq<Op<T>>, effects: seq<Result<T>>, finished: seq<Result<T>>, pc: Pc<T>) {
    && effects == finished + (if Achieved(pc).Some? then [Achieved(pc).value] else [])
    && |calls| == |effects| + (if Pending(pc).Some? then 1 else 0)
    && (Pending(pc).Some? ==> calls[|calls| - 1] == Pending(pc).value)
    && forall i :: 0 <= i < |effects| ==> Fits(calls[i], effects[i])
  }

  ghost predicate Linearized<T>(s: State<T>, h: History<T>) {
    && Inv(s)
    && AllAtomically(h.effects) == Some(Abs(s))
    && AllInStep(s.pcs, h)
  }

  ghost predicate AllInStep<T>(pcs: seq<Pc<T>>, h: History<T>) {
    forall t :: 0 <= t < |pcs| ==> InStep(Of(t, h.calls), Of(t, h.effects), Of(t, h.finished), pcs[t])
  }

  /** How a thread's place changes when it starts a call, gets its result, or returns. */
  ghost predicate Moved<T>(pc: Pc<T>, pc': Pc<T>, m: Move<T>) {
    match m
    case Started(op) => Pending(pc).None? && Achieved(pc).None? && Achieved(pc').None? && Pending(pc') == Some(op)
    case TookEffect(r) =>
      && Pending(pc).Some? && Fits(Pending(pc).value, r) && Achieved(pc).None?
      && Pending(pc').None? && Achieved(pc') == Some(r)
    case Returned(r) => Pending(pc).None? && Achieved(pc) == Some(r) && Pending(pc').None? && Achieved(pc').None?
    case Quiet => Pending(pc') == Pending(pc) && Achieved(pc') == Achieved(pc)
  }

  lemma ThreadMoves<T>(s: State<T>, a: Action<T>)
    requires Inv(s) && Next(s, a).Some?
    ensures Moved(s.pcs[a.t], Next(s, a).value.pcs[a.t], MoveOf(s, a))
    ensures forall u :: 0 <= u < |s.pcs| && u != a.t ==> Moved(s.pcs[u], Next(s, a).value.pcs[u], Quiet)
  {
    assert WellPlaced(s, a.t);
  }

  lemma InStepMoves<T>(calls: seq<Op<T>>, effects: seq<Result<T>>, finished: seq<Result<T>>,
                       pc: Pc<T>, pc': Pc<T>, m: Move<T>)
    requires InStep(calls, effects, finished, pc) && Moved(pc, pc', m)
    ensures match m
      case Started(op) => InStep(calls + [op], effects, finished, pc')
      case TookEffect(r) => InStep(calls, effects + [r], finished, pc')
      case Returned(r) => InStep(calls, effects, finished + [r], pc')
      case Quiet => InStep(calls, effects, finished, pc')
  {
  }

  lemma RecordOf<T>(h: History<T>, t: Tid, m: Move<T>, u: Tid)
    ensures var h' := Record(h, t, m);
      && Of(u, h'.calls) == Of(u, h.calls) + (if m.Started? && u == t then [m.op] else [])
      && Of(u, h'.effects) == Of(u, h.effects) + (if m.TookEffect? && u == t then [m.r] else [])
      && Of(u, h'.finished) == Of(u, h.finished) + (if m.Returned? && u == t then [m.r] else [])
  {
    match m
    case Started(op) => OfAppend(u, h.calls, (t, op));
    case TookEffect(r) => OfAppend(u, h.effects, (t, r));
    case Returned(r) => OfAppend(u, h.finished, (t, r));
    case Quiet =>
  }

  lemma AllInStepKept<T>(pcs: seq<Pc<T>>, pcs': seq<Pc<T>>, h: History<T>, t: Tid, m: Move<T>)
    requires AllInStep(pcs, h) && t < |pcs| == |pcs'| && Moved(pcs[t], pcs'[t], m)
    requires forall u :: 0 <= u < |pcs| && u != t ==> Moved(pcs[u], pcs'[u], Quiet)
    ensures AllInStep(pcs', Record(h, t, m))
  {
    var h' := Record(h, t, m);
    forall u | 0 <= u < |pcs'|
      ensures InStep(Of(u, h'.calls), Of(u, h'.effects), Of(u, h'.finished), pcs'[u])
    {
      RecordOf(h, t, m, u);
      InStepMoves(Of(u, h.calls), Of(u, h.effects), Of(u, h.finished), pcs[u], pcs'[u], if u == t then m else Quiet);
    }
  }

  lemma LinearizedKept<T>(s: State<T>, h: History<T>, a: Action<T>)
    requires Linearized(s, h) && Next(s, a).Some?
    ensures Linearized(Next(s, a).value, Record(h, a.t, MoveOf(s, a)))
  {
    InvKept(s, a);
    StepRefines(s, a);
    ThreadMoves(s, a);
    AllInStepKept(s.pcs, Next(s, a).value.pcs, h, a.t, MoveOf(s, a));
    EffectsKept(s, h, a);
  }

  lemma EffectsKept<T>(s: State<T>, h: History<T>, a: Action<T>)
    requires Inv(s) && Next(s, a).Some? && AllAtomically(h.effects) == Some(Abs(s))
    ensures AllAtomically(Record(h, a.t, MoveOf(s, a)).effects) == Some(Abs(Next(s, a).value))
  {
    StepRefines(s, a);
    ThreadMoves(s, a);
    var h' := Record(h, a.t, MoveOf(s, a));
    if MoveOf(s, a).TookEffect? {
      assert h'.effects[..|h.effects|] == h.effects;
    } else {
      assert EffectOf(s, a).None?;
    }
  }

  /** A run stops at the first step that cannot be taken. */
  function Run<T>(s: State<T>, h: History<T>, acts: seq<Action<T>>): (State<T>, History<T>)
    decreases |acts|
  {
    if acts == [] || Next(s, acts[0]).None? then (s, h)
    else Run(Next(s, acts[0]).value, Record(h, acts[0].t, MoveOf(s, acts[0])), acts[1..])
  }

  lemma {:induction false} RunLinearized<T>(s: State<T>, h: History<T>, acts: seq<Action<T>>)
    requires Linearized(s, h)
    ensures Linearized(Run(s, h, acts).0, Run(s, h, acts).1)
    decreases |acts|
  {
    if acts != [] && Next(s, acts[0]).Some? {
      LinearizedKept(s, h, acts[0]);
      RunLinearized(Next(s, acts[0]).value, Record(h, acts[0].t, MoveOf(s, acts[0])), acts[1..]);
    }
  }

  /** Every interleaving is linearizable: the effects, in their order, are a run of the atomic
      queue that ends in the queue's contents; and of each thread, the calls, effects and returns
      agree one by one. In particular a call is refused only when it found the queue empty. */
  lemma Linearizable<T>(threads: nat, acts: seq<Action<T>>)
    ensures var (s, h) := Run(Init<T>(threads), History([], [], []), acts);
      && AllAtomically(h.effects) == Some(Abs(s))
      && (s.lock.None? ==> Abs(s) == s.queue)
      && |s.pcs| == threads && AllInStep(s.pcs, h)
  {
    RunLinearized(Init<T>(threads), History([], [], []), acts);
    RunKeepsThreads(Init<T>(threads), History([], [], []), acts);
  }

  lemma {:induction false} RunKeepsThreads<T>(s: State<T>, h: History<T>, acts: seq<Action<T>>)
    ensures |Run(s, h, acts).0.pcs| == |s.pcs|
    decreases |acts|
  {
    if acts != [] && Next(s, acts[0]).Some? {
      RunKeepsThreads(Next(s, acts[0]).value, Record(h, acts[0].t, MoveOf(s, acts[0])), acts[1..]);
    }
  }
}
