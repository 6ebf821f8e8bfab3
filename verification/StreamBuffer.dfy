/** The growable stream buffer of asio (`basic_streambuf`) as a value: one character vector and
    the five stream positions, kept as offsets from `&buffer_[0]`. The get area and the put area
    share the vector. `Reserve` is the only operation that moves characters; everything else
    moves offsets.

    The independent reference is a `Tape`: everything ever accepted, in order, and how far the
    reader has got. The run theorems at the end say that the offset machine refines the tape. */
module StreamBuffer {

  const SIZE_MAX: nat := 0xFFFF_FFFF_FFFF_FFFF
  const INT_MAX: nat := 0x7FFF_FFFF
  const BUFFER_DELTA: nat := 128

  /** std::size_t on a 64-bit target; assigning to it is a proof that no step wraps. */
  type SizeT = n: int | 0 <= n <= SIZE_MAX

  function Min(a: int, b: int): int { if a <= b then a else b }

  function Max(a: int, b: int): int { if a <= b then b else a }

  /** static_cast<int> of a std::size_t: the low 32 bits, read as two's complement. */
  function ToInt(n: nat): int {
    var low := n % 0x1_0000_0000;
    if low <= INT_MAX then low else low - 0x1_0000_0000
  }

  function Zeros(n: nat): seq<char> { seq(n, _ => '\0') }

  datatype Buf = Buf(data: seq<char>, gptr: int, egptr: int, pptr: int, epptr: int, maxSize: nat) {

    ghost predicate Valid() {
      && 0 <= gptr <= egptr <= pptr <= epptr <= maxSize <= SIZE_MAX
      && |data| == Max(epptr, 1)
    }

    function Size(): int { pptr - gptr }

    /** asio's input sequence: the characters a reader can still get. */
    function Input(): seq<char>
      requires 0 <= gptr <= pptr <= |data|
    {
      data[gptr..pptr]
    }

    /** asio's output sequence: the writable characters behind the input sequence. */
    function Output(): seq<char>
      requires 0 <= pptr <= epptr <= |data|
    {
      data[pptr..epptr]
    }
  }

  /** Either a normal return or std::length_error; both carry the buffer that is left behind. */
  datatype Outcome = Done(b: Buf) | TooLong(b: Buf)

  // ---------------------------------------------------------------- operations

  function Init(maxSize: SizeT): (b: Buf)
    ensures b.Valid() && b.Input() == []
  {
    var pend := Min(maxSize, BUFFER_DELTA);
    Buf(Zeros(Max(pend, 1)), 0, 0, 0, pend, maxSize)
  }

  /** The vector after the memmove of the unread characters to its start. */
  function Shifted(b: Buf): (data: seq<char>)
    requires b.Valid()
    ensures |data| == |b.data|
  {
    b.Input() + b.data[b.Size()..]
  }

  function Reserve(b: Buf, n: SizeT): Outcome
    requires b.Valid()
  {
    var size := b.Size();
    if n <= b.epptr - b.pptr then Done(b)
    else if n <= b.epptr - size then
      Done(Buf(Shifted(b), 0, size, size, b.epptr, b.maxSize))
    else if n <= b.maxSize && size <= b.maxSize - n then
      Done(Buf(Shifted(b) + Zeros(Max(size + n, 1) - |b.data|), 0, size, size, size + n, b.maxSize))
    else
      TooLong(b.(data := Shifted(b)))
  }

  function Commit(b: Buf, n: SizeT): Buf
    requires b.Valid()
  {
    var pptr := b.pptr + ToInt(Min(n, b.epptr - b.pptr));
    b.(pptr := pptr, egptr := pptr)
  }

  /** Whether the pointer sum `gptr() + n` passes the top of the address space, for a vector
      that starts at address `base`. */
  predicate Wraps(b: Buf, n: SizeT, base: nat) { base + b.gptr + n > SIZE_MAX }

  function Consume(b: Buf, n: SizeT, base: nat): Buf
    requires b.Valid() && base + |b.data| <= SIZE_MAX
  {
    var sum := (base + b.gptr + n) % (SIZE_MAX + 1);
    var m := if sum > base + b.pptr then b.Size() else n;
    b.(egptr := b.pptr, gptr := b.gptr + ToInt(m))
  }

  function Store(b: Buf, c: char): Buf
    requires b.Valid() && b.pptr < b.epptr
  {
    b.(data := b.data[b.pptr := c], pptr := b.pptr + 1)
  }

  function OverflowRequest(b: Buf): SizeT
    requires b.Valid()
  {
    if b.Size() < b.maxSize && b.maxSize - b.Size() < BUFFER_DELTA
    then b.maxSize - b.Size() else BUFFER_DELTA
  }

  function Overflow(b: Buf, c: char): Outcome
    requires b.Valid()
  {
    if b.pptr < b.epptr then Done(Store(b, c))
    else
      ReserveCorrect(b, OverflowRequest(b));
      match Reserve(b, OverflowRequest(b))
      case TooLong(b') => TooLong(b')
      case Done(b') => Done(Store(b', c))
  }

  /** egptr catches up with pptr when there is something to read. */
  function Underflow(b: Buf): Buf {
    if b.gptr < b.pptr then b.(egptr := b.pptr) else b
  }

  /** The public sbumpc of [streambuf.pub.get]: read one character, asking underflow if the get
      area is used up. */
  function Bump(b: Buf): Buf {
    var b' := if b.gptr < b.egptr then b else Underflow(b);
    if b'.gptr < b'.egptr then b'.(gptr := b'.gptr + 1) else b'
  }

  /** The public sungetc: step back inside the get area; the inherited pbackfail refuses. */
  function Unget(b: Buf): Buf {
    if 0 < b.gptr then b.(gptr := b.gptr - 1) else b
  }

  /** A caller filling part of the memory that `prepare` handed out. */
  function Write(b: Buf, at: nat, cs: seq<char>): Buf
    requires b.Valid() && at + |cs| <= |b.Output()|
  {
    var i := b.pptr + at;
    b.(data := b.data[..i] + cs + b.data[i + |cs|..])
  }

  /** `capacity` is the vector's capacity, never below its size. */
  function ReadSizeHelper(b: Buf, capacity: SizeT, maxSize: SizeT): (r: SizeT)
    requires b.Valid() && |b.data| <= capacity
  {
    Min(Max(512, capacity - b.Size()), Min(maxSize, b.maxSize - b.Size()))
  }

  // ---------------------------------------------------------------- reserve, prepare, overflow

  /** `reserve` fails exactly when the input sequence plus n exceeds max_size; otherwise the
      readable characters are untouched, n characters are writable, the vector has not shrunk,
      and a shift has only dropped characters in front of the read position. */
  lemma ReserveCorrect(b: Buf, n: SizeT)
    requires b.Valid()
    ensures Reserve(b, n).TooLong? <==> b.Size() + n > b.maxSize
    ensures var b' := Reserve(b, n).b; Reserve(b, n).Done? ==>
      && b'.Valid() && b'.maxSize == b.maxSize && |b'.data| >= |b.data|
      && b'.Input() == b.Input() && |b'.Output()| >= n
      && b'.pptr <= b.pptr && b'.data[..b'.pptr] == b.data[b.pptr - b'.pptr..b.pptr]
      && b'.Output() == b'.data[b'.pptr..b'.epptr]
  {
    ReserveFits(b, n);
    if Reserve(b, n).Done? {
      ReserveKeeps(b, n);
    }
  }

  lemma ReserveFits(b: Buf, n: SizeT)
    requires b.Valid()
    ensures Reserve(b, n).TooLong? <==> b.Size() + n > b.maxSize
    ensures var b' := Reserve(b, n).b; Reserve(b, n).Done? ==>
      b'.Valid() && b'.maxSize == b.maxSize && |b'.data| >= |b.data| && b'.epptr - b'.pptr >= n
  {
  }

  lemma ReserveKeeps(b: Buf, n: SizeT)
    requires b.Valid() && Reserve(b, n).Done?
    ensures var b' := Reserve(b, n).b;
      && b'.Valid() && b'.Input() == b.Input()
      && b'.pptr <= b.pptr && b'.data[..b'.pptr] == b.data[b.pptr - b'.pptr..b.pptr]
  {
    ReserveFits(b, n);
    var b' := Reserve(b, n).b;
    if n <= b.epptr - b.pptr {
      assert b.data[0..b.pptr] == b.data[..b.pptr];
    } else {
      ShiftedStart(b, b'.data);
      assert b'.data[0..b.Size()] == b'.data[..b.Size()];
    }
  }

  lemma ShiftedStart(b: Buf, data: seq<char>)
    requires b.Valid() && Shifted(b) <= data
    ensures data[..b.Size()] == b.Input()
  {
    assert data[..b.Size()] == Shifted(b)[..b.Size()];
  }

  /** Without room for n the text moves to the start of the vector, all of it readable at once, and
      the vector grows to hold n more characters, if it did not already; otherwise nothing moves. */
  lemma ReserveLayout(b: Buf, n: SizeT)
    requires b.Valid() && Reserve(b, n).Done?
    ensures var b' := Reserve(b, n).b;
      if n <= |b.Output()| then b' == b
      else b'.gptr == 0 && b'.egptr == b'.pptr == b.Size() && b'.epptr == Max(b.epptr, b.Size() + n)
  {
  }

  lemma ShiftedAt(b: Buf, k: nat)
    requires b.Valid() && k < |b.data|
    ensures Shifted(b)[k] == if k < b.Size() then b.Input()[k] else b.data[k]
  {
  }

  /** A throwing `reserve` has already shifted the vector but not the positions. What a reader
      then sees is unchanged exactly when the unread text repeats itself every gptr places
      (always, when gptr is 0 or at least size()). */
  lemma FailedReserveKeepsInput(b: Buf, n: SizeT)
    requires b.Valid() && b.Size() + n > b.maxSize
    ensures Reserve(b, n) == TooLong(b.(data := Shifted(b))) && Reserve(b, n).b.Valid()
    ensures Reserve(b, n).b.Input() == b.Input() <==>
            forall i {:trigger b.Input()[i]} :: 0 <= i && i + b.gptr < b.Size() ==>
              b.Input()[i + b.gptr] == b.Input()[i]
  {
    var old' := b.Input();
    var now := Reserve(b, n).b.Input();
    var g := b.gptr;
    forall i | 0 <= i < |old'| ensures now[i] == if i + g < |old'| then old'[i + g] else old'[i] {
      ShiftedAt(b, g + i);
      assert now[i] == Shifted(b)[g + i] && old'[i] == b.data[g + i];
    }
    if now == old' {
      forall i | 0 <= i && i + g < |old'| ensures old'[i + g] == old'[i] {
        assert now[i] == old'[i + g];
      }
    } else {
      assert |now| == |old'|;
      var i :| 0 <= i < |old'| && now[i] != old'[i];
      assert i + g < |old'| && old'[i + g] != old'[i];
    }
  }

  lemma FailedReserveLosesInput()
    ensures var b := Buf(['a', 'b', 'c'], 1, 3, 3, 3, 3);
      && b.Valid() && Reserve(b, 2).TooLong?
      && b.Input() == ['b', 'c'] && Reserve(b, 2).b.Input() == ['c', 'c']
  {
    var b := Buf(['a', 'b', 'c'], 1, 3, 3, 3, 3);
    assert b.Input() == ['b', 'c'];
    assert Shifted(b) == ['b', 'c', 'c'];
    assert Reserve(b, 2).b.data[1..3] == ['c', 'c'];
  }

  lemma ShiftedWhole(b: Buf)
    requires b.Valid() && b.gptr == 0
    ensures Shifted(b) == b.data
  {
  }

  lemma StoreAppends(b: Buf, c: char)
    requires b.Valid() && b.pptr < b.epptr
    ensures Store(b, c).Valid() && Store(b, c).Input() == b.Input() + [c] && |Store(b, c).data| == |b.data|
  {
  }

  /** A full buffer starts at gptr, so the failing reserve has nothing to shift. */
  lemma FullReserveFails(b: Buf, n: SizeT)
    requires b.Valid() && b.Size() == b.maxSize && n > 0
    ensures b.gptr == 0 && b.pptr == b.epptr && Reserve(b, n) == TooLong(b)
  {
    ShiftedWhole(b);
  }

  /** A character is refused exactly when the buffer is full, and a refusal changes nothing:
      gptr is then at the start of the vector, so no shift has happened. */
  lemma OverflowCorrect(b: Buf, c: char)
    requires b.Valid()
    ensures Overflow(b, c).TooLong? <==> b.Size() == b.maxSize
    ensures Overflow(b, c).TooLong? ==> Overflow(b, c).b == b && b.gptr == 0
    ensures var b' := Overflow(b, c).b; Overflow(b, c).Done? ==>
      b'.Valid() && b'.maxSize == b.maxSize && |b'.data| >= |b.data| && b'.Input() == b.Input() + [c]
  {
    if b.Size() == b.maxSize {
      FullReserveFails(b, OverflowRequest(b));
    } else if b.pptr == b.epptr {
      var n := OverflowRequest(b);
      ReserveCorrect(b, n);
      assert b.Size() + n <= b.maxSize && n > 0;
      StoreAppends(Reserve(b, n).b, c);
    } else {
      StoreAppends(b, c);
    }
  }

  /** The preferred read size always fits, and is 0 only for a zero request or a full buffer. */
  lemma ReadSizeHelperFits(b: Buf, capacity: SizeT, m: SizeT)
    requires b.Valid() && |b.data| <= capacity
    ensures var n := ReadSizeHelper(b, capacity, m);
      && Reserve(b, n).Done?
      && (n == 0 <==> m == 0 || b.Size() == b.maxSize)
  {
    ReserveCorrect(b, ReadSizeHelper(b, capacity, m));
  }

  /** It is the largest count that is asked for, keeps within max_size(), and either needs no new
      memory or is at most 512. */
  lemma ReadSizeIsLargest(b: Buf, capacity: SizeT, maxSize: SizeT, k: nat)
    requires b.Valid() && |b.data| <= capacity
    ensures k <= ReadSizeHelper(b, capacity, maxSize) <==>
            k <= maxSize && b.Size() + k <= b.maxSize && (k <= 512 || b.Size() + k <= capacity)
  {
  }

  /** A put that finds no room makes room for 128 characters, or for all that max_size() allows, or
      for as many as were read already, whichever the vector then has room for. */
  lemma OverflowMakesRoom(b: Buf, c: char)
    requires b.Valid() && |b.Output()| == 0 && b.Size() < b.maxSize
    ensures var b' := Overflow(b, c).b;
      && b'.gptr == 0 && b'.egptr == b.Size()
      && b'.epptr == Max(b.epptr, Min(b.Size() + 128, b.maxSize))
  {
    ReserveFits(b, OverflowRequest(b));
    OverflowStores(b, c);
    ReserveLayout(b, OverflowRequest(b));
  }

  // ---------------------------------------------------------------- the casts to int

  lemma ToIntExactIff(n: SizeT)
    ensures ToInt(n) == n <==> n <= INT_MAX
  {
  }

  lemma CommitExact(b: Buf, n: SizeT)
    requires b.Valid() && Min(n, |b.Output()|) <= INT_MAX
    ensures var m := Min(n, |b.Output()|); var b' := Commit(b, n);
      && b'.Valid() && b'.pptr == b.pptr + m
      && b'.Input() == b.Input() + b.Output()[..m] && b'.Output() == b.Output()[m..]
  {
    var m := Min(n, |b.Output()|);
    ToIntExactIff(m);
    SliceCut(b.data, b.gptr, b.pptr, b.epptr, m);
  }

  lemma SliceCut(s: seq<char>, i: nat, j: nat, k: nat, m: nat)
    requires i <= j <= j + m <= k <= |s|
    ensures s[i..j] + s[j..k][..m] == s[i..j + m] && s[j..k][m..] == s[j + m..k]
  {
  }

  /** What the documentation promises of commit, and when the code keeps it: the first
      min(n, |output|) output characters join the input exactly if that count fits an int. */
  lemma CommitExactIff(b: Buf, n: SizeT)
    requires b.Valid()
    ensures var m := Min(n, |b.Output()|); var b' := Commit(b, n);
      m <= INT_MAX <==>
      b'.Valid() && b'.Input() == b.Input() + b.Output()[..m] && b'.Output() == b.Output()[m..]
  {
    var m := Min(n, |b.Output()|);
    if m <= INT_MAX {
      CommitExact(b, n);
    } else {
      ToIntExactIff(m);
      var b' := Commit(b, n);
      assert b'.pptr != b.pptr + m;
      assert b'.Valid() ==> |b'.Input()| == b'.pptr - b'.gptr;
      assert |b.Input() + b.Output()[..m]| == b.pptr - b.gptr + m;
    }
  }

  /** Committing 2^31 characters at once moves the put pointer in front of the vector. */
  lemma HugeCommitBreaks()
    ensures var b := Buf(Zeros(0x8000_0000), 0, 0, 0, 0x8000_0000, 0x8000_0000);
      b.Valid() && Commit(b, 0x8000_0000).pptr == -0x8000_0000
  {
  }

  lemma ConsumeCount(b: Buf, n: SizeT, base: nat)
    requires b.Valid() && base + |b.data| <= SIZE_MAX
    ensures Consume(b, n, base) == b.(egptr := b.pptr,
              gptr := b.gptr + ToInt(if Wraps(b, n, base) then n else Min(n, b.Size())))
  {
    var sum := base + b.gptr + n;
    assert sum % (SIZE_MAX + 1) == if Wraps(b, n, base) then sum - (SIZE_MAX + 1) else sum;
  }

  /** consume(n) drops the first min(n, size()) characters. Without a wrap of gptr() + n it does
      so exactly if that count fits an int; with a wrap the clamp is skipped and it does so only
      if the low 32 bits of n happen to spell size(). */
  lemma ConsumeExactIff(b: Buf, n: SizeT, base: nat)
    requires b.Valid() && base + |b.data| <= SIZE_MAX
    ensures var m := Min(n, b.Size()); var b' := Consume(b, n, base);
      (b'.gptr == b.gptr + m) <==> (if Wraps(b, n, base) then ToInt(n) == b.Size() else m <= INT_MAX)
    ensures var m := Min(n, b.Size()); var b' := Consume(b, n, base);
      b'.gptr == b.gptr + m ==> b'.Valid() && b'.Input() == b.Input()[m..] && b'.Output() == b.Output()
  {
    ConsumeCount(b, n, base);
    ToIntExactIff(Min(n, b.Size()));
  }

  /** consume(SIZE_MAX), meant to drop everything, un-reads one character instead. */
  lemma ConsumeAllUnreads(base: nat)
    requires base + 4 <= SIZE_MAX
    ensures var b := Buf(['a', 'b', 'c', 'd'], 2, 4, 4, 4, 4);
      b.Valid() && Consume(b, SIZE_MAX, base).Input() == ['b', 'c', 'd']
  {
    var b := Buf(['a', 'b', 'c', 'd'], 2, 4, 4, 4, 4);
    assert (base + 2 + SIZE_MAX) % (SIZE_MAX + 1) == base + 1;
    assert ToInt(SIZE_MAX) == -1;
    assert b.data[1..4] == ['b', 'c', 'd'];
  }

  // ---------------------------------------------------------------- the tape, and whole runs

  /** Everything ever accepted, and the number of characters already handed to the reader. */
  datatype Tape = Tape(accepted: seq<char>, pos: nat)

  datatype Move = Append(cs: seq<char>) | Advance(k: nat) | Retreat | Stay

  function Play(t: Tape, m: Move): Tape {
    match m
    case Append(cs) => t.(accepted := t.accepted + cs)
    case Advance(k) => t.(pos := t.pos + k)
    case Retreat => if t.pos > 0 then t.(pos := t.pos - 1) else t
    case Stay => t
  }

  /** The vector up to pptr is always the tail of the tape, and the rest of the tape after the
      reader's position is what is readable. */
  ghost predicate Represents(b: Buf, t: Tape) {
    && b.Valid()
    && b.pptr <= |t.accepted|
    && b.data[..b.pptr] == t.accepted[|t.accepted| - b.pptr..]
    && t.pos == |t.accepted| - b.Size()
  }

  datatype Op =
    | Prepare(n: SizeT)
    | Fill(at: nat, cs: seq<char>)
    | CommitOp(n: SizeT)
    | ConsumeOp(n: SizeT, base: nat)
    | Put(c: char)
    | Flush
    | Peek
    | Take
    | PutBack

  /** The callers' side: memory is only written where prepare said, an address range fits the
      address space, and a count that passes through an int survives it. */
  ghost predicate Allowed(b: Buf, op: Op)
    requires b.Valid()
  {
    match op
    case Fill(at, cs) => at + |cs| <= |b.Output()|
    case CommitOp(n) => Min(n, |b.Output()|) <= INT_MAX
    case ConsumeOp(n, base) => base + |b.data| <= SIZE_MAX && !Wraps(b, n, base) && Min(n, b.Size()) <= INT_MAX
    case _ => true
  }

  function Step(b: Buf, op: Op): Outcome
    requires b.Valid() && Allowed(b, op)
  {
    match op
    case Prepare(n) => Reserve(b, n)
    case Fill(at, cs) => Done(Write(b, at, cs))
    case CommitOp(n) => Done(Commit(b, n))
    case ConsumeOp(n, base) => Done(Consume(b, n, base))
    case Put(c) => Overflow(b, c)
    case Flush => Done(b)
    case Peek => Done(Underflow(b))
    case Take => Done(Bump(b))
    case PutBack => Done(Unget(b))
  }

  /** What each operation means for the tape, said through the input and output sequences only
      (sungetc also needs to know whether the vector still holds an earlier character). */
  function Meaning(b: Buf, op: Op): Move
    requires b.Valid()
  {
    match op
    case CommitOp(n) => Append(b.Output()[..Min(n, |b.Output()|)])
    case Put(c) => if b.Size() == b.maxSize then Stay else Append([c])
    case ConsumeOp(n, _) => Advance(Min(n, |b.Input()|))
    case Take => Advance(Min(1, |b.Input()|))
    case PutBack => if b.gptr > 0 then Retreat else Stay
    case _ => Stay
  }

  lemma RepresentsInput(b: Buf, t: Tape)
    requires Represents(b, t)
    ensures b.Input() == t.accepted[t.pos..]
    ensures t.accepted[..t.pos] + b.Input() == t.accepted
  {
    assert b.Input() == b.data[..b.pptr][b.gptr..];
  }

  lemma AppendRepresents(b: Buf, b': Buf, t: Tape, cs: seq<char>)
    requires Represents(b, t) && b'.Valid()
    requires b'.gptr == b.gptr && b'.pptr == b.pptr + |cs|
    requires b'.data[..b'.pptr] == b.data[..b.pptr] + cs
    ensures Represents(b', Play(t, Append(cs)))
  {
  }

  lemma ReserveRepresents(b: Buf, n: SizeT, t: Tape)
    requires Represents(b, t) && Reserve(b, n).Done?
    ensures Represents(Reserve(b, n).b, t)
  {
    ReserveCorrect(b, n);
    var b' := Reserve(b, n).b;
    assert |b'.Input()| == b'.Size();
    assert b'.data[..b'.pptr] == b.data[..b.pptr][b.pptr - b'.pptr..];
  }

  lemma StoreRepresents(b: Buf, c: char, t: Tape)
    requires Represents(b, t) && b.pptr < b.epptr
    ensures Represents(Store(b, c), Play(t, Append([c])))
  {
    StoreAppends(b, c);
    AppendRepresents(b, Store(b, c), t, [c]);
  }

  lemma OverflowStores(b: Buf, c: char)
    requires b.Valid() && Overflow(b, c).Done? && b.pptr == b.epptr
    ensures var r := Reserve(b, OverflowRequest(b));
      r.Done? && r.b.Valid() && r.b.pptr < r.b.epptr && Overflow(b, c) == Done(Store(r.b, c))
  {
    ReserveCorrect(b, OverflowRequest(b));
  }

  lemma PutRepresents(b: Buf, c: char, t: Tape)
    requires Represents(b, t) && Overflow(b, c).Done?
    ensures Represents(Overflow(b, c).b, Play(t, Append([c])))
  {
    if b.pptr < b.epptr {
      StoreRepresents(b, c, t);
    } else {
      OverflowStores(b, c);
      ReserveRepresents(b, OverflowRequest(b), t);
      StoreRepresents(Reserve(b, OverflowRequest(b)).b, c, t);
    }
  }

  /** Moving only the read position, within what the vector holds, moves only the tape's. */
  lemma MoveRepresents(b: Buf, b': Buf, t: Tape)
    requires Represents(b, t) && b'.Valid() && b'.pptr == b.pptr
    requires b'.data[..b.pptr] == b.data[..b.pptr]
    ensures Represents(b', t.(pos := t.pos + b'.gptr - b.gptr))
  {
  }

  /** The operation throws and leaves something else behind than it found: a prepare that is too
      long, after its shift. A refused put leaves the buffer as it was. */
  predicate Harmed(b: Buf, op: Op)
    requires b.Valid() && Allowed(b, op)
  {
    Step(b, op).TooLong? && Step(b, op).b != b
  }

  /** What one operation must do: stay a view of the tape after its move, and not shrink. */
  ghost predicate Refines(b: Buf, op: Op, t: Tape)
    requires b.Valid() && Allowed(b, op)
  {
    !Harmed(b, op) ==>
      && Represents(Step(b, op).b, Play(t, Meaning(b, op)))
      && Step(b, op).b.maxSize == b.maxSize && |Step(b, op).b.data| >= |b.data|
  }

  lemma PrepareRefines(b: Buf, n: SizeT, t: Tape)
    requires Represents(b, t)
    ensures Refines(b, Prepare(n), t)
  {
    ReserveCorrect(b, n);
    if Reserve(b, n).Done? {
      ReserveRepresents(b, n, t);
    }
  }

  lemma PutRefines(b: Buf, c: char, t: Tape)
    requires Represents(b, t)
    ensures Refines(b, Put(c), t)
  {
    OverflowCorrect(b, c);
    if Overflow(b, c).Done? {
      PutRepresents(b, c, t);
    }
  }

  lemma CommitRefines(b: Buf, n: SizeT, t: Tape)
    requires Represents(b, t) && Allowed(b, CommitOp(n))
    ensures Refines(b, CommitOp(n), t)
  {
    CommitExact(b, n);
    var cs := b.Output()[..Min(n, |b.Output()|)];
    assert cs == b.data[b.pptr..b.pptr + |cs|];
    assert b.data[..b.pptr + |cs|] == b.data[..b.pptr] + cs;
    assert Commit(b, n).pptr == b.pptr + |cs| && Commit(b, n).data == b.data;
    AppendRepresents(b, Commit(b, n), t, cs);
  }

  lemma ConsumeExact(b: Buf, n: SizeT, base: nat)
    requires b.Valid() && Allowed(b, ConsumeOp(n, base))
    ensures Consume(b, n, base) == b.(gptr := b.gptr + Min(n, b.Size()), egptr := b.pptr)
  {
    ConsumeCount(b, n, base);
    ToIntExactIff(Min(n, b.Size()));
  }

  lemma ConsumeRefines(b: Buf, n: SizeT, base: nat, t: Tape)
    requires Represents(b, t) && Allowed(b, ConsumeOp(n, base))
    ensures Refines(b, ConsumeOp(n, base), t)
  {
    ConsumeExact(b, n, base);
    MoveRepresents(b, Consume(b, n, base), t);
  }

  lemma FillRefines(b: Buf, at: nat, cs: seq<char>, t: Tape)
    requires Represents(b, t) && Allowed(b, Fill(at, cs))
    ensures Refines(b, Fill(at, cs), t)
  {
    MoveRepresents(b, Write(b, at, cs), t);
  }

  /** Reading and stepping back leave the vector and the put area alone. */
  lemma ReadMoves(b: Buf)
    requires b.Valid()
    ensures Underflow(b) == b.(egptr := if b.gptr < b.pptr then b.pptr else b.egptr)
    ensures Bump(b).Valid() && Bump(b) == b.(gptr := b.gptr + Min(1, b.Size()), egptr := Bump(b).egptr)
    ensures Unget(b).Valid() && Unget(b) == b.(gptr := if b.gptr > 0 then b.gptr - 1 else 0)
  {
  }

  lemma ReadRefines(b: Buf, op: Op, t: Tape)
    requires Represents(b, t) && (op.Peek? || op.Take? || op.PutBack? || op.Flush?)
    ensures Refines(b, op, t)
  {
    ReadMoves(b);
    var b' := Step(b, op).b;
    assert b'.data == b.data && b'.maxSize == b.maxSize && b'.pptr == b.pptr && b'.Valid();
    MoveRepresents(b, b', t);
    if op.Take? {
      assert Play(t, Meaning(b, op)) == t.(pos := t.pos + b'.gptr - b.gptr);
    } else if op.PutBack? {
      assert Play(t, Meaning(b, op)) == t.(pos := t.pos + b'.gptr - b.gptr);
    }
  }

  /** One operation of the buffer is one move on the tape; no operation shrinks the vector. */
  lemma StepRefines(b: Buf, op: Op, t: Tape)
    requires Represents(b, t) && Allowed(b, op)
    ensures Refines(b, op, t)
  {
    match op
    case Prepare(n) => PrepareRefines(b, n, t);
    case Put(c) => PutRefines(b, c, t);
    case CommitOp(n) => CommitRefines(b, n, t);
    case ConsumeOp(n, base) => ConsumeRefines(b, n, base, t);
    case Fill(at, cs) => FillRefines(b, at, cs, t);
    case _ => ReadRefines(b, op, t);
  }

  // ---------------------------------------------------------------- the end of the get area

  /** What can be read without asking underflow: commit, consume, a prepare that shifts, and a look
      at an unread text catch up with everything written; a put that finds no room with what was
      there before it; nothing else moves the end. */
  lemma GetAreaEnds(b: Buf, op: Op)
    requires b.Valid() && Allowed(b, op) && Step(b, op).Done?
    ensures var b' := Step(b, op).b;
      b'.egptr ==
      if op.CommitOp? || op.ConsumeOp? || (op.Prepare? && op.n > |b.Output()|) then b'.pptr
      else if op.Put? && |b.Output()| == 0 then b'.pptr - 1
      else if b.Size() > 0 && (op.Peek? || (op.Take? && b.gptr == b.egptr)) then b.pptr
      else b.egptr
  {
    match op
    case Prepare(n) => ReserveLayout(b, n);
    case Put(c) =>
      OverflowCorrect(b, c);
      if |b.Output()| == 0 {
        ReserveLayout(b, OverflowRequest(b));
      }
    case _ =>
  }

  // ---------------------------------------------------------------- runs

  /** Only a prepare that is too long and whose shift changes the vector does harm. */
  lemma HarmedIff(b: Buf, op: Op)
    requires b.Valid() && Allowed(b, op)
    ensures Harmed(b, op) <==> op.Prepare? && b.Size() + op.n > b.maxSize && Shifted(b) != b.data
  {
    match op
    case Prepare(n) => ReserveCorrect(b, n);
    case Put(c) => OverflowCorrect(b, c);
    case _ =>
  }

  /** What sbumpc returns; nothing at the end of the input. */
  function Taken(b: Buf): seq<char>
    requires b.Valid()
  {
    var b' := if b.gptr < b.egptr then b else Underflow(b);
    if b'.gptr < b'.egptr then [b'.data[b'.gptr]] else []
  }

  /** A buffer in use, the tape, and the characters handed to the reader: each one that sbumpc
      returned or that consume passed over, less those that sungetc took back. */
  datatype Session = Session(b: Buf, t: Tape, got: seq<char>)

  function Got(b: Buf, op: Op, got: seq<char>): seq<char>
    requires b.Valid() && Allowed(b, op)
  {
    match op
    case Take => got + Taken(b)
    case ConsumeOp(n, base) =>
      var end := Consume(b, n, base).gptr;
      if b.gptr <= end <= |b.data| then got + b.data[b.gptr..end] else got
    case PutBack => if b.gptr > 0 && got != [] then got[..|got| - 1] else got
    case _ => got
  }

  /** A run goes on after every exception that leaves the buffer as it was; it stops at the first
      operation that is misused or does harm. */
  ghost function Run(s: Session, ops: seq<Op>): Session
    decreases |ops|
  {
    if ops == [] || !s.b.Valid() || !Allowed(s.b, ops[0]) || Harmed(s.b, ops[0]) then s
    else
      Run(Session(Step(s.b, ops[0]).b, Play(s.t, Meaning(s.b, ops[0])), Got(s.b, ops[0], s.got)), ops[1..])
  }

  /** The buffer is a view of the tape, and the reader got what stands before its position. */
  ghost predicate InStep(s: Session) {
    Represents(s.b, s.t) && s.t.pos <= |s.t.accepted| && s.got == s.t.accepted[..s.t.pos]
  }

  lemma TakenIsFirst(b: Buf)
    requires b.Valid()
    ensures Taken(b) == if b.Size() == 0 then [] else [b.Input()[0]]
  {
  }

  lemma TakeHandsOut(b: Buf, t: Tape, got: seq<char>)
    requires InStep(Session(b, t, got))
    ensures var n := t.pos + Min(1, b.Size());
      n <= |t.accepted| && got + Taken(b) == t.accepted[..n]
  {
    RepresentsInput(b, t);
    TakenIsFirst(b);
  }

  lemma ConsumePasses(b: Buf, n: SizeT, base: nat, got: seq<char>)
    requires b.Valid() && Allowed(b, ConsumeOp(n, base))
    ensures Got(b, ConsumeOp(n, base), got) == got + b.Input()[..Min(n, b.Size())]
  {
    ConsumeExact(b, n, base);
    SliceStart(b.data, b.gptr, b.pptr, Min(n, b.Size()));
  }

  lemma ConsumeHandsOut(b: Buf, n: SizeT, base: nat, t: Tape, got: seq<char>)
    requires InStep(Session(b, t, got)) && Allowed(b, ConsumeOp(n, base))
    ensures var end := t.pos + Min(n, b.Size());
      end <= |t.accepted| && Got(b, ConsumeOp(n, base), got) == t.accepted[..end]
  {
    ConsumePasses(b, n, base, got);
    RepresentsInput(b, t);
    SplitAt(t.accepted, t.pos, Min(n, b.Size()));
  }

  lemma SplitAt(s: seq<char>, i: nat, m: nat)
    requires i + m <= |s|
    ensures s[..i] + s[i..][..m] == s[..i + m]
  {
  }

  lemma SliceStart(s: seq<char>, i: nat, j: nat, m: nat)
    requires i + m <= j <= |s|
    ensures s[i..i + m] == s[i..j][..m]
  {
  }

  /** One operation hands out exactly what its move on the tape passes over. */
  lemma GotRefines(b: Buf, op: Op, t: Tape, got: seq<char>)
    requires InStep(Session(b, t, got)) && Allowed(b, op)
    ensures var t' := Play(t, Meaning(b, op));
      t'.pos <= |t'.accepted| && Got(b, op, got) == t'.accepted[..t'.pos]
  {
    match op
    case Take => TakeHandsOut(b, t, got);
    case ConsumeOp(n, base) => ConsumeHandsOut(b, n, base, t, got);
    case PutBack => UngetTakesBack(b, t, got);
    case _ =>
  }

  lemma UngetTakesBack(b: Buf, t: Tape, got: seq<char>)
    requires InStep(Session(b, t, got))
    ensures Got(b, PutBack, got) == if b.gptr > 0 then t.accepted[..t.pos - 1] else got
  {
  }

  /** What a step back shows is the last character that was handed out. */
  lemma StepBackShowsLast(s: Session)
    requires InStep(s) && s.b.gptr > 0
    ensures s.got != [] && s.b.data[s.b.gptr - 1] == s.got[|s.got| - 1]
  {
    assert s.b.data[..s.b.pptr][s.b.gptr - 1] == s.t.accepted[|s.t.accepted| - s.b.pptr..][s.b.gptr - 1];
  }

  /** Every run keeps the buffer a view of the tape ... */
  lemma {:induction false} RunRefines(s: Session, ops: seq<Op>)
    requires InStep(s)
    ensures InStep(Run(s, ops)) && Run(s, ops).b.maxSize == s.b.maxSize && |Run(s, ops).b.data| >= |s.b.data|
    decreases |ops|
  {
    if ops != [] && Allowed(s.b, ops[0]) && !Harmed(s.b, ops[0]) {
      StepRefines(s.b, ops[0], s.t);
      GotRefines(s.b, ops[0], s.t, s.got);
      RunRefines(Session(Step(s.b, ops[0]).b, Play(s.t, Meaning(s.b, ops[0])), Got(s.b, ops[0], s.got)), ops[1..]);
    }
  }

  /** ... so from a fresh buffer what the reader got, followed by what is still readable, is
      exactly what was committed or put, in order; and size() never exceeds max_size(). */
  lemma FifoConservation(maxSize: SizeT, ops: seq<Op>)
    ensures var s := Run(Session(Init(maxSize), Tape([], 0), []), ops);
      && s.b.Valid() && s.b.maxSize == maxSize && s.b.Size() <= maxSize
      && s.got + s.b.Input() == s.t.accepted
  {
    var s0 := Session(Init(maxSize), Tape([], 0), []);
    assert s0.b.data[..0] == [];
    RunRefines(s0, ops);
    RepresentsInput(Run(s0, ops).b, Run(s0, ops).t);
  }

  lemma WriteAt(b: Buf, at: nat, cs: seq<char>, k: nat)
    requires b.Valid() && at + |cs| <= |b.Output()| && k < |b.data|
    ensures var i := b.pptr + at; var w := Write(b, at, cs);
      && |w.data| == |b.data|
      && w.data[k] == if i <= k < i + |cs| then cs[k - i] else b.data[k]
  {
  }

  lemma WriteShows(b: Buf, at: nat, cs: seq<char>)
    requires b.Valid() && at + |cs| <= |b.Output()|
    ensures var w := Write(b, at, cs);
      && w.Valid() && w.Input() == b.Input()
      && w.Output() == b.Output()[..at] + cs + b.Output()[at + |cs|..]
  {
    var w := Write(b, at, cs);
    var r := b.Output()[..at] + cs + b.Output()[at + |cs|..];
    forall k | 0 <= k < |b.Input()| ensures w.Input()[k] == b.Input()[k] {
      WriteAt(b, at, cs, b.gptr + k);
    }
    forall k | 0 <= k < |r| ensures w.Output()[k] == r[k] {
      WriteAt(b, at, cs, b.pptr + k);
      if at <= k < at + |cs| {
        assert r[k] == cs[k - at];
      } else {
        assert r[k] == b.Output()[k];
      }
    }
  }

  /** The documented receive pattern: prepare n, fill in at most n characters, commit them. */
  lemma ReceiveAppends(b: Buf, n: SizeT, cs: seq<char>)
    requires b.Valid() && |cs| <= n && |cs| <= INT_MAX && b.Size() + n <= b.maxSize
    ensures Reserve(b, n).Done? && Reserve(b, n).b.Valid() && |cs| <= |Reserve(b, n).b.Output()|
    ensures var b' := Commit(Write(Reserve(b, n).b, 0, cs), |cs|);
      b'.Valid() && b'.maxSize == b.maxSize && b'.Input() == b.Input() + cs
  {
    ReserveCorrect(b, n);
    var r := Reserve(b, n).b;
    WriteShows(r, 0, cs);
    CommitExact(Write(r, 0, cs), |cs|);
  }

  /** Under a max_size that fits an int no count can be damaged by the casts. */
  lemma SmallBuffersNeverTruncate(b: Buf, n: SizeT, base: nat)
    requires b.Valid() && b.maxSize <= INT_MAX
    ensures Allowed(b, CommitOp(n))
    ensures base + |b.data| <= SIZE_MAX && !Wraps(b, n, base) ==> Allowed(b, ConsumeOp(n, base))
  {
  }
}
