/** The buffer part of asio's `basic_socket_streambuf` as values: a put area that is flushed by a
    send that may take any part of it, and a get area that recv refills behind a putback zone.
    The socket is an oracle: a script of what each system call does. When the script ends, the
    expiry time has passed. */
module SocketBuffer {
  import opened Options

  const BUFFER_SIZE: nat := 512
  const PUTBACK_MAX: nat := 8

  datatype Error = NoError | WouldBlock | TryAgain | TimedOut | EndOfFile | Other(code: int)

  predicate Retry(ec: Error) { ec == WouldBlock || ec == TryAgain }

  /** One pass of the send loop: send takes n bytes (at most what it is given), or fails; after a
      would_block or try_again, poll waits and may fail in turn. */
  datatype SendEvent = Took(n: nat) | SendFailed(ec: Error, pollOk: bool, pollEc: Error)

  datatype RecvEvent = Got(cs: seq<char>) | RecvFailed(ec: Error, pollOk: bool, pollEc: Error)

  datatype Sock = Sock(put: seq<char>, pptr: nat, get: seq<char>, gptr: nat, egptr: nat, ec: Error, wire: seq<char>) {

    ghost predicate Valid() {
      && (|put| == BUFFER_SIZE || |put| == 0) && pptr <= |put|
      && |get| == BUFFER_SIZE && gptr <= egptr <= BUFFER_SIZE
      && forall i :: 0 <= i < PUTBACK_MAX ==> get[i] == '\0'
    }

    /** Characters put but not yet sent. */
    function Pending(): seq<char>
      requires pptr <= |put|
    {
      put[..pptr]
    }

    /** Characters received but not yet read. */
    function Unread(): seq<char>
      requires gptr <= egptr <= |get|
    {
      get[gptr..egptr]
    }
  }

  function Init(): (s: Sock)
    ensures s.Valid() && s.Pending() == [] && s.Unread() == []
  {
    var zeros := seq(BUFFER_SIZE, _ => '\0');
    Sock(zeros, 0, zeros, PUTBACK_MAX, PUTBACK_MAX, NoError, [])
  }

  // ---------------------------------------------------------------- put side

  /** The send loop of `overflow` on `left` bytes: how many were taken, and whether all were. */
  datatype Flushed = Flushed(taken: nat, ok: bool, ec: Error)

  function Flush(left: nat, env: seq<SendEvent>, ec: Error): Flushed
    decreases |env|
  {
    if left == 0 then Flushed(0, true, ec)
    else if env == [] then Flushed(0, false, TimedOut)
    else match env[0]
      case Took(n) =>
        if n == 0 then Flushed(0, false, NoError)
        else
          var m := if n < left then n else left;
          var rest := Flush(left - m, env[1..], NoError);
          rest.(taken := m + rest.taken)
      case SendFailed(e, pollOk, pollEc) =>
        if !Retry(e) then Flushed(0, false, e)
        else if !pollOk then Flushed(0, false, pollEc)
        else Flush(left, env[1..], pollEc)
  }

  datatype Put = Put(s: Sock, ok: bool, taken: nat)

  /** `c` is None for traits_type::eof(). */
  function Overflow(s: Sock, c: Option<char>, env: seq<SendEvent>): Put
    requires s.Valid()
  {
    if s.put == [] then
      if c.None? then Put(s, true, 0)
      else
        var r := Flush(1, env, s.ec);
        Put(s.(ec := r.ec, wire := s.wire + if r.ok then [c.value] else []), r.ok, r.taken)
    else
      FlushTakesAll(s.pptr, env, s.ec);
      var r := Flush(s.pptr, env, s.ec);
      var sent := s.(ec := r.ec, wire := s.wire + s.put[..r.taken]);
      if !r.ok then Put(sent, false, r.taken)
      else if c.None? then Put(sent.(pptr := 0), true, r.taken)
      else Put(sent.(put := s.put[0 := c.value], pptr := 1), true, r.taken)
  }

  function Sputc(s: Sock, c: char, env: seq<SendEvent>): Put
    requires s.Valid()
  {
    if s.pptr < |s.put| then Put(s.(put := s.put[s.pptr := c], pptr := s.pptr + 1), true, 0)
    else Overflow(s, Some(c), env)
  }

  /** setbuf: only setbuf(0, 0) on an empty put area is honoured; it switches buffering off. */
  function Setbuf(s: Sock, isNull: bool, n: int): Put
    requires s.Valid()
  {
    if s.pptr == 0 && isNull && n == 0 then Put(s.(put := []), true, 0) else Put(s, false, 0)
  }

  lemma ConsPrefix<E>(env: seq<E>, n: nat)
    requires n < |env|
    ensures env[..n + 1] == [env[0]] + env[1..][..n] && env[..n + 1][1..] == env[1..][..n]
  {
  }

  /** The loop reports success exactly when every byte was taken; a failure leaves at least one. */
  lemma {:induction false} FlushTakesAll(left: nat, env: seq<SendEvent>, ec: Error)
    ensures var r := Flush(left, env, ec); r.taken <= left && (r.ok <==> r.taken == left)
    decreases |env|
  {
    if left > 0 && env != [] {
      match env[0]
      case Took(n) =>
        if n > 0 {
          FlushTakesAll(left - if n < left then n else left, env[1..], NoError);
        }
      case SendFailed(e, pollOk, pollEc) => FlushTakesAll(left, env[1..], pollEc);
    }
  }

  /** The pass takes some bytes, or waits successfully. */
  predicate Harmless(e: SendEvent) {
    match e
    case Took(n) => n > 0
    case SendFailed(ec, pollOk, _) => (ec == WouldBlock || ec == TryAgain) && pollOk
  }

  function Offered(env: seq<SendEvent>): nat {
    if env == [] then 0
    else (if env[0].Took? then env[0].n else 0) + Offered(env[1..])
  }

  /** The first k passes of the script are positive sends and successful waits, and take enough. */
  ghost predicate Enough(env: seq<SendEvent>, k: nat, left: int) {
    k <= |env| && (forall e <- env[..k] :: Harmless(e)) && Offered(env[..k]) >= left
  }

  function Gain(e: SendEvent): nat { if e.Took? then e.n else 0 }

  lemma EnoughTail(env: seq<SendEvent>, k: nat, left: int)
    requires env != [] && Harmless(env[0]) && 0 < k <= |env|
    ensures Enough(env, k, left) <==> Enough(env[1..], k - 1, left - Gain(env[0]))
  {
    ConsPrefix(env, k - 1);
  }

  lemma {:induction false} FlushSucceedsIfEnough(left: nat, env: seq<SendEvent>, ec: Error, k: nat)
    requires Enough(env, k, left)
    ensures Flush(left, env, ec).ok
    decreases k
  {
    if left > 0 {
      assert k > 0;
      assert env[..k][0] == env[0];
      EnoughTail(env, k, left);
      FlushSucceedsIfEnough(if Gain(env[0]) < left then left - Gain(env[0]) else 0, env[1..],
                            if env[0].Took? then NoError else env[0].pollEc, k - 1);
    }
  }

  lemma {:induction false} FlushNeedsEnough(left: nat, env: seq<SendEvent>, ec: Error) returns (k: nat)
    requires Flush(left, env, ec).ok
    ensures Enough(env, k, left)
    decreases |env|
  {
    if left == 0 {
      k := 0;
    } else {
      k := FlushNeedsEnough(if Gain(env[0]) < left then left - Gain(env[0]) else 0, env[1..],
                            if env[0].Took? then NoError else env[0].pollEc);
      EnoughTail(env, k + 1, left);
      k := k + 1;
    }
  }

  /** When a flush succeeds, without looking at the loop: some first part of the script has only
      positive sends and successful waits, and takes enough. */
  lemma FlushSucceedsIff(left: nat, env: seq<SendEvent>, ec: Error)
    ensures Flush(left, env, ec).ok <==> exists k: nat :: Enough(env, k, left)
  {
    if Flush(left, env, ec).ok {
      var k := FlushNeedsEnough(left, env, ec);
    }
    forall k: nat | Enough(env, k, left) ensures Flush(left, env, ec).ok {
      FlushSucceedsIfEnough(left, env, ec, k);
    }
  }

  /** Why a flush failed, and after how many bytes: everything before went well but was not enough,
      and then the time was up, or send took nothing (which leaves no error behind), or send or
      poll failed. */
  lemma {:induction false} FlushFailsBecause(left: nat, env: seq<SendEvent>, ec: Error) returns (k: nat)
    requires !Flush(left, env, ec).ok
    ensures k <= |env| && (forall e <- env[..k] :: Harmless(e)) && (k < |env| ==> !Harmless(env[k]))
    ensures Flush(left, env, ec).taken == Offered(env[..k]) < left
    ensures Flush(left, env, ec).ec ==
            if k == |env| then TimedOut
            else match env[k]
              case Took(_) => NoError
              case SendFailed(e, _, pollEc) => if e == WouldBlock || e == TryAgain then pollEc else e
    decreases |env|
  {
    if env == [] || !Harmless(env[0]) {
      k := 0;
    } else {
      FlushTakesAll(left, env, ec);
      var n := FlushFailsBecause(left - Gain(env[0]), env[1..], if env[0].Took? then NoError else env[0].pollEc);
      ConsPrefix(env, n);
      k := n + 1;
    }
  }

  /** The script ends or turns bad after k good passes that take some, but not all, of the bytes. */
  ghost predicate SpillsAt(left: nat, env: seq<SendEvent>, k: nat) {
    && k <= |env| && (forall e <- env[..k] :: Harmless(e)) && (k < |env| ==> !Harmless(env[k]))
    && 0 < Offered(env[..k]) < left
  }

  ghost predicate Spills(left: nat, env: seq<SendEvent>) { exists k: nat :: SpillsAt(left, env, k) }

  lemma {:induction false} SpillTaken(left: nat, env: seq<SendEvent>, ec: Error, k: nat)
    requires k <= |env| && (forall e <- env[..k] :: Harmless(e)) && (k < |env| ==> !Harmless(env[k]))
    requires Offered(env[..k]) < left
    ensures !Flush(left, env, ec).ok && Flush(left, env, ec).taken == Offered(env[..k])
    decreases k
  {
    if k > 0 {
      assert env[..k][0] == env[0] && Harmless(env[0]);
      ConsPrefix(env, k - 1);
      assert Offered(env[..k]) == Gain(env[0]) + Offered(env[1..][..k - 1]);
      SpillTaken(left - Gain(env[0]), env[1..], if env[0].Took? then NoError else env[0].pollEc, k - 1);
    } else {
      assert env[..k] == [];
    }
  }

  /** Whether a failing flush gets bytes out, read off the number of bytes and the script. */
  lemma SpillsIff(left: nat, env: seq<SendEvent>, ec: Error)
    ensures !Flush(left, env, ec).ok && Flush(left, env, ec).taken > 0 <==> Spills(left, env)
  {
    if !Flush(left, env, ec).ok && Flush(left, env, ec).taken > 0 {
      var k := FlushFailsBecause(left, env, ec);
      assert SpillsAt(left, env, k);
    }
    if Spills(left, env) {
      var k: nat :| SpillsAt(left, env, k);
      SpillTaken(left, env, ec, k);
    }
  }

  /** A flush that had something to send and succeeds ends with a good send. */
  lemma {:induction false} FlushClearsError(left: nat, env: seq<SendEvent>, ec: Error)
    requires Flush(left, env, ec).ok
    ensures Flush(left, env, ec).ec == if left == 0 then ec else NoError
    decreases |env|
  {
    if left > 0 {
      var more := if Gain(env[0]) < left then left - Gain(env[0]) else 0;
      FlushClearsError(more, env[1..], if env[0].Took? then NoError else env[0].pollEc);
    }
  }

  /** How many bytes an overflow has to send. */
  function ToSend(s: Sock, c: Option<char>): nat {
    if s.put != [] then s.pptr else if c.Some? then 1 else 0
  }

  /** The error is that of the first pass which is not harmless, or of the time that is up. */
  ghost predicate FailsWith(env: seq<SendEvent>, k: nat, ec: Error) {
    && k <= |env| && (forall e <- env[..k] :: Harmless(e)) && (k < |env| ==> !Harmless(env[k]))
    && ec ==
       if k == |env| then TimedOut
       else match env[k]
         case Took(_) => NoError
         case SendFailed(e, _, pollEc) => if e == WouldBlock || e == TryAgain then pollEc else e
  }

  /** What error() says after an overflow, on the script alone: nothing new if there was nothing to
      send; no error if all was sent; and else why not. */
  ghost predicate ErrorTells(toSend: nat, env: seq<SendEvent>, ok: bool, before: Error, after: Error) {
    if !ok then exists k: nat :: FailsWith(env, k, after) && Offered(env[..k]) < toSend
    else after == if toSend == 0 then before else NoError
  }

  lemma OverflowError(s: Sock, c: Option<char>, env: seq<SendEvent>)
    requires s.Valid()
    ensures var r := Overflow(s, c, env); ErrorTells(ToSend(s, c), env, r.ok, s.ec, r.s.ec)
  {
    var n := ToSend(s, c);
    if s.put != [] || c.Some? {
      if Flush(n, env, s.ec).ok {
        FlushClearsError(n, env, s.ec);
      } else {
        var k := FlushFailsBecause(n, env, s.ec);
        assert FailsWith(env, k, Flush(n, env, s.ec).ec);
      }
    }
  }

  /** What one overflow does to the bytes on the wire and the pending ones: success moves all of
      them out and takes the new character in; failure sends a proper prefix of the put area and
      leaves it as it was. */
  lemma OverflowCorrect(s: Sock, c: Option<char>, env: seq<SendEvent>)
    requires s.Valid()
    ensures var r := Overflow(s, c, env);
      && r.s.Valid() && |r.s.put| == |s.put|
      && r.s.get == s.get && r.s.gptr == s.gptr && r.s.egptr == s.egptr
    ensures var r := Overflow(s, c, env); var new_ := if c.Some? then [c.value] else []; r.ok ==>
      && r.s.wire == s.wire + s.Pending() + (if s.put == [] then new_ else [])
      && r.s.Pending() == if s.put == [] then [] else new_
    ensures var r := Overflow(s, c, env); !r.ok ==>
      && r.s.Pending() == s.Pending()
      && (s.put == [] ==> r.taken == 0)
      && (s.put != [] ==> r.taken < |s.Pending()|)
      && r.s.wire == s.wire + s.Pending()[..r.taken]
  {
    FlushTakesAll(1, env, s.ec);
    FlushTakesAll(s.pptr, env, s.ec);
    var r := Overflow(s, c, env);
    if s.put != [] {
      assert s.put[..r.taken] == s.Pending()[..r.taken];
      if r.ok && c.Some? {
        assert r.s.Pending() == [c.value];
      }
    }
  }

  /** setbuf never drops a pending byte: with one it refuses, without one nothing is lost. */
  lemma SetbufDropsNothing(s: Sock, isNull: bool, n: int)
    requires s.Valid()
    ensures var r := Setbuf(s, isNull, n);
      && r.s.Valid() && r.s.wire == s.wire && r.s.Pending() == s.Pending()
      && (r.ok <==> isNull && n == 0 && s.Pending() == [])
      && (r.s.put == [] <==> r.ok || s.put == []) && r.s == s.(put := r.s.put)
  {
  }

  datatype PutOp =
    | PutChar(c: char, env: seq<SendEvent>)
    | Sync(env: seq<SendEvent>)
    | SetBuffer(isNull: bool, n: int)

  function PutStep(s: Sock, op: PutOp): Put
    requires s.Valid()
  {
    match op
    case PutChar(c, env) => Sputc(s, c, env)
    case Sync(env) => Overflow(s, None, env)
    case SetBuffer(isNull, n) => Setbuf(s, isNull, n)
  }

  /** What one operation put on the wire: a whole put area or character, or the part of one that a
      failing flush got out. */
  datatype Chunk = Sent(bs: seq<char>) | Leaked(bs: seq<char>)

  /** A run, with the characters that sputc accepted and everything on the wire, in chunks. */
  datatype PutRun = PutRun(s: Sock, accepted: seq<char>, chunks: seq<Chunk>)

  function Accepted(op: PutOp, ok: bool): seq<char> { if op.PutChar? && ok then [op.c] else [] }

  function NewChunk(before: seq<char>, after: seq<char>, ok: bool): seq<Chunk> {
    if |after| <= |before| then []
    else if ok then [Sent(after[|before|..])] else [Leaked(after[|before|..])]
  }

  function After(r: PutRun, op: PutOp): PutRun
    requires r.s.Valid()
  {
    var p := PutStep(r.s, op);
    PutRun(p.s, r.accepted + Accepted(op, p.ok), r.chunks + NewChunk(r.s.wire, p.s.wire, p.ok))
  }

  const FRESH := PutRun(Init(), [], [])

  ghost function RunPuts(r: PutRun, ops: seq<PutOp>): PutRun
    decreases |ops|
  {
    if ops == [] || !r.s.Valid() then r else RunPuts(After(r, ops[0]), ops[1..])
  }

  ghost function Wire(chunks: seq<Chunk>): seq<char> {
    if chunks == [] then [] else Wire(chunks[..|chunks| - 1]) + chunks[|chunks| - 1].bs
  }

  /** The wire without what failed flushes got out. */
  ghost function Good(chunks: seq<Chunk>): seq<char> {
    if chunks == [] then []
    else
      var last := chunks[|chunks| - 1];
      Good(chunks[..|chunks| - 1]) + if last.Sent? then last.bs else []
  }

  ghost function LeakedBytes(chunks: seq<Chunk>): nat {
    if chunks == [] then 0
    else
      var last := chunks[|chunks| - 1];
      LeakedBytes(chunks[..|chunks| - 1]) + if last.Leaked? then |last.bs| else 0
  }

  lemma ChunkAppend(chunks: seq<Chunk>, c: Chunk)
    ensures Wire(chunks + [c]) == Wire(chunks) + c.bs
    ensures Good(chunks + [c]) == Good(chunks) + if c.Sent? then c.bs else []
    ensures LeakedBytes(chunks + [c]) == LeakedBytes(chunks) + if c.Leaked? then |c.bs| else 0
  {
    assert (chunks + [c])[..|chunks|] == chunks;
  }

  /** What leaked is not empty, and the good bytes that follow it start with it once more. */
  ghost predicate Repeats(chunks: seq<Chunk>, pending: seq<char>) {
    forall i :: 0 <= i < |chunks| && chunks[i].Leaked? ==>
      chunks[i].bs != [] && chunks[i].bs <= Good(chunks[i + 1..]) + pending
  }

  ghost predicate Conserved(r: PutRun) {
    && r.s.Valid()
    && Wire(r.chunks) == r.s.wire
    && Good(r.chunks) + r.s.Pending() == r.accepted
    && Repeats(r.chunks, r.s.Pending())
  }

  lemma PrefixExtends(bs: seq<char>, good: seq<char>, a: seq<char>, b: seq<char>)
    requires bs <= good + a && a <= b
    ensures bs <= good + b
  {
  }

  lemma RepeatsLater(chunks: seq<Chunk>, pending: seq<char>, pending': seq<char>)
    requires Repeats(chunks, pending) && pending <= pending'
    ensures Repeats(chunks, pending')
  {
    forall i | 0 <= i < |chunks| && chunks[i].Leaked?
      ensures chunks[i].bs != [] && chunks[i].bs <= Good(chunks[i + 1..]) + pending'
    {
      PrefixExtends(chunks[i].bs, Good(chunks[i + 1..]), pending, pending');
    }
  }

  lemma GoodAfter(tail: seq<Chunk>, c: Chunk, pending: seq<char>)
    ensures Good(tail + [c]) + pending == Good(tail) + ((if c.Sent? then c.bs else []) + pending)
  {
    ChunkAppend(tail, c);
  }

  lemma RepeatsAfter(chunks: seq<Chunk>, pending: seq<char>, c: Chunk, pending': seq<char>)
    requires pending == (if c.Sent? then c.bs else []) + pending' && Repeats(chunks, pending)
    requires c.Leaked? ==> c.bs != [] && c.bs <= pending'
    ensures Repeats(chunks + [c], pending')
  {
    var all := chunks + [c];
    forall i | 0 <= i < |all| && all[i].Leaked?
      ensures all[i].bs != [] && all[i].bs <= Good(all[i + 1..]) + pending'
    {
      if i < |chunks| {
        assert all[i + 1..] == chunks[i + 1..] + [c];
        GoodAfter(chunks[i + 1..], c, pending');
      } else {
        assert all[i + 1..] == [] && Good([]) + pending' == pending';
      }
    }
  }

  /** A step that puts `out` on the wire as a whole and takes `taken` in. */
  lemma SentConserves(r: PutRun, s': Sock, taken: seq<char>, out: seq<char>)
    requires Conserved(r) && s'.Valid() && s'.wire == r.s.wire + out && r.s.Pending() + taken == out + s'.Pending()
    ensures Conserved(PutRun(s', r.accepted + taken, r.chunks + NewChunk(r.s.wire, s'.wire, true)))
  {
    RepeatsLater(r.chunks, r.s.Pending(), out + s'.Pending());
    assert Good(r.chunks) + out + s'.Pending() == Good(r.chunks) + (out + s'.Pending());
    assert Good(r.chunks) + (r.s.Pending() + taken) == (Good(r.chunks) + r.s.Pending()) + taken;
    if out == [] {
      assert out + s'.Pending() == s'.Pending() && r.chunks + [] == r.chunks;
    } else {
      assert NewChunk(r.s.wire, s'.wire, true) == [Sent(out)];
      ChunkAppend(r.chunks, Sent(out));
      RepeatsAfter(r.chunks, out + s'.Pending(), Sent(out), s'.Pending());
    }
  }

  /** A failing step that gets a first part of the pending bytes out. */
  lemma LeakConserves(r: PutRun, s': Sock, out: seq<char>)
    requires Conserved(r) && s'.Valid() && s'.wire == r.s.wire + out
    requires s'.Pending() == r.s.Pending() && out <= s'.Pending()
    ensures Conserved(PutRun(s', r.accepted + [], r.chunks + NewChunk(r.s.wire, s'.wire, false)))
  {
    assert r.accepted + [] == r.accepted;
    if out == [] {
      assert r.chunks + [] == r.chunks;
    } else {
      LeakedChunk(r.s.wire, out);
      ChunkAppend(r.chunks, Leaked(out));
      assert Good(r.chunks) + [] == Good(r.chunks);
      assert [] + s'.Pending() == s'.Pending();
      RepeatsAfter(r.chunks, r.s.Pending(), Leaked(out), s'.Pending());
    }
  }

  lemma LeakedChunk(before: seq<char>, out: seq<char>)
    requires out != []
    ensures NewChunk(before, before + out, false) == [Leaked(out)]
  {
    assert (before + out)[|before|..] == out;
  }

  lemma OverflowConserves(r: PutRun, c: Option<char>, env: seq<SendEvent>)
    requires Conserved(r)
    ensures var p := Overflow(r.s, c, env);
      Conserved(PutRun(p.s, r.accepted + (if c.Some? && p.ok then [c.value] else []),
                       r.chunks + NewChunk(r.s.wire, p.s.wire, p.ok)))
  {
    OverflowCorrect(r.s, c, env);
    var p := Overflow(r.s, c, env);
    var new_ := if c.Some? then [c.value] else [];
    if p.ok {
      var out := r.s.Pending() + if r.s.put == [] then new_ else [];
      assert p.s.wire == r.s.wire + out;
      SentConserves(r, p.s, new_, out);
    } else {
      LeakConserves(r, p.s, r.s.Pending()[..p.taken]);
    }
  }

  lemma PutConserves(r: PutRun, op: PutOp)
    requires Conserved(r)
    ensures Conserved(After(r, op))
  {
    var p := PutStep(r.s, op);
    match op
    case PutChar(c, env) =>
      if r.s.pptr < |r.s.put| {
        assert p.s.Pending() == r.s.Pending() + [c];
        SentConserves(r, p.s, [c], []);
      } else {
        OverflowConserves(r, Some(c), env);
      }
    case Sync(env) => OverflowConserves(r, None, env);
    case SetBuffer(isNull, n) =>
      SetbufDropsNothing(r.s, isNull, n);
      if p.ok {
        SentConserves(r, p.s, [], []);
      } else {
        LeakConserves(r, p.s, []);
      }
  }

  lemma {:induction false} RunPutsConserve(r: PutRun, ops: seq<PutOp>)
    requires Conserved(r)
    ensures Conserved(RunPuts(r, ops))
    decreases |ops|
  {
    if ops != [] {
      PutConserves(r, ops[0]);
      RunPutsConserve(After(r, ops[0]), ops[1..]);
    }
  }

  // ---------------------------------------------------------------- exactly once, exactly when

  /** The operation flushes a put area, and the script cuts the flush off in the middle. */
  ghost predicate SpillsOn(s: Sock, op: PutOp) {
    match op
    case PutChar(_, env) => s.put != [] && s.pptr == |s.put| && Spills(s.pptr, env)
    case Sync(env) => s.put != [] && Spills(s.pptr, env)
    case SetBuffer(_, _) => false
  }

  ghost predicate NeverSpills(s: Sock, ops: seq<PutOp>)
    decreases |ops|
  {
    ops != [] && s.Valid() ==> !SpillsOn(s, ops[0]) && NeverSpills(PutStep(s, ops[0]).s, ops[1..])
  }

  lemma ChunksLeak(chunks: seq<Chunk>, before: seq<char>, after: seq<char>, ok: bool)
    requires |after| >= |before|
    ensures LeakedBytes(chunks + NewChunk(before, after, ok)) ==
            LeakedBytes(chunks) + if ok then 0 else |after| - |before|
  {
    if |after| == |before| {
      assert chunks + [] == chunks;
    } else {
      ChunkAppend(chunks, if ok then Sent(after[|before|..]) else Leaked(after[|before|..]));
    }
  }

  lemma OverflowSpillsIff(s: Sock, c: Option<char>, env: seq<SendEvent>)
    requires s.Valid()
    ensures var r := Overflow(s, c, env);
      && |r.s.wire| >= |s.wire|
      && (!r.ok && |r.s.wire| > |s.wire| <==> s.put != [] && Spills(s.pptr, env))
  {
    OverflowCorrect(s, c, env);
    SpillsIff(s.pptr, env, s.ec);
  }

  lemma StepLeaksIff(r: PutRun, op: PutOp)
    requires Conserved(r)
    ensures LeakedBytes(After(r, op).chunks) >= LeakedBytes(r.chunks)
    ensures LeakedBytes(After(r, op).chunks) > LeakedBytes(r.chunks) <==> SpillsOn(r.s, op)
  {
    match op {
      case PutChar(c, env) => OverflowSpillsIff(r.s, Some(c), env);
      case Sync(env) => OverflowSpillsIff(r.s, None, env);
      case SetBuffer(isNull, n) => SetbufDropsNothing(r.s, isNull, n);
    }
    var p := PutStep(r.s, op);
    ChunksLeak(r.chunks, r.s.wire, p.s.wire, p.ok);
  }

  lemma {:induction false} RunLeaksIff(r: PutRun, ops: seq<PutOp>)
    requires Conserved(r)
    ensures LeakedBytes(RunPuts(r, ops).chunks) >= LeakedBytes(r.chunks)
    ensures LeakedBytes(RunPuts(r, ops).chunks) == LeakedBytes(r.chunks) <==> NeverSpills(r.s, ops)
    decreases |ops|
  {
    if ops != [] {
      StepLeaksIff(r, ops[0]);
      PutConserves(r, ops[0]);
      RunLeaksIff(After(r, ops[0]), ops[1..]);
    }
  }

  lemma {:induction false} WireLength(chunks: seq<Chunk>)
    ensures |Wire(chunks)| == |Good(chunks)| + LeakedBytes(chunks)
    ensures LeakedBytes(chunks) == 0 ==> Wire(chunks) == Good(chunks)
  {
    if chunks != [] {
      WireLength(chunks[..|chunks| - 1]);
    }
  }

  /** Over every run of sputc, sync and setbuf on a new buffer: the bytes on the wire followed by
      the pending ones are exactly the characters accepted if and only if no flush of a put area
      meets a socket that takes some of it and then fails. In any case, leaving out what failed
      flushes got out, wire and put area are what was accepted, and each leaked part is the
      beginning of what follows it (`Conserved`). */
  lemma ExactlyOnceIff(ops: seq<PutOp>)
    ensures var r := RunPuts(FRESH, ops);
      && Conserved(r)
      && |r.s.wire| + |r.s.Pending()| == |r.accepted| + LeakedBytes(r.chunks)
      && (r.s.wire + r.s.Pending() == r.accepted <==> NeverSpills(Init(), ops))
  {
    RunPutsConserve(FRESH, ops);
    RunLeaksIff(FRESH, ops);
    var r := RunPuts(FRESH, ops);
    WireLength(r.chunks);
    assert |r.s.wire + r.s.Pending()| == |r.s.wire| + |r.s.Pending()|;
  }

  /** Two characters, a flush that gets one out and fails, and a flush that succeeds. */
  lemma FailedFlushRepeats()
    ensures RunPuts(FRESH,
                    [PutChar('a', []), PutChar('b', []), Sync([Took(1)]), Sync([Took(2)])]).s.wire == ['a', 'a', 'b']
  {
    var r0 := FRESH;
    var r1 := After(r0, PutChar('a', []));
    var r2 := After(r1, PutChar('b', []));
    assert r2.s.Pending() == ['a', 'b'];
    var r3 := After(r2, Sync([Took(1)]));
    assert Flush(1, [Took(1)][1..], NoError) == Flushed(0, false, TimedOut);
    assert Flush(2, [Took(1)], NoError) == Flushed(1, false, TimedOut);
    assert r3.s.wire == ['a'];
    var r4 := After(r3, Sync([Took(2)]));
    assert Flush(0, [Took(2)][1..], NoError) == Flushed(0, true, NoError);
    assert Flush(2, [Took(2)], TimedOut) == Flushed(2, true, NoError);
    assert r3.s.put[..2] == ['a', 'b'];
    assert r4.s.wire == ['a', 'a', 'b'];
    var ops := [PutChar('a', []), PutChar('b', []), Sync([Took(1)]), Sync([Took(2)])];
    assert RunPuts(r0, ops) == RunPuts(r1, ops[1..]) == RunPuts(r2, ops[1..][1..])
        == RunPuts(r3, ops[1..][1..][1..]) == RunPuts(r4, ops[1..][1..][1..][1..]);
  }

  // ---------------------------------------------------------------- get side

  datatype Get = Get(s: Sock, c: Option<char>, got: seq<char>)

  /** recv into the get buffer behind the putback zone, at most the 504 bytes it is offered. */
  function Refill(s: Sock, cs: seq<char>): (s': Sock)
    requires s.Valid() && 0 < |cs| <= BUFFER_SIZE - PUTBACK_MAX
    ensures s'.Valid() && s'.Unread() == cs
  {
    s.(get := s.get[..PUTBACK_MAX] + cs + s.get[PUTBACK_MAX + |cs|..],
       gptr := PUTBACK_MAX, egptr := PUTBACK_MAX + |cs|, ec := NoError)
  }

  function Truncated(cs: seq<char>): (r: seq<char>)
    ensures |r| <= BUFFER_SIZE - PUTBACK_MAX && r <= cs
  {
    if |cs| <= BUFFER_SIZE - PUTBACK_MAX then cs else cs[..BUFFER_SIZE - PUTBACK_MAX]
  }

  function Receive(s: Sock, env: seq<RecvEvent>): Get
    requires s.Valid()
    decreases |env|
  {
    if env == [] then Get(s.(ec := TimedOut), None, [])
    else match env[0]
      case Got(cs) =>
        if cs == [] then Get(s.(ec := EndOfFile), None, [])
        else Get(Refill(s, Truncated(cs)), Some(cs[0]), Truncated(cs))
      case RecvFailed(e, pollOk, pollEc) =>
        if !Retry(e) then Get(s.(ec := e), None, [])
        else if !pollOk then Get(s.(ec := pollEc), None, [])
        else Receive(s, env[1..])
  }

  /** underflow reports eof when the get area is not used up. */
  function Underflow(s: Sock, env: seq<RecvEvent>): Get
    requires s.Valid()
  {
    if s.gptr != s.egptr then Get(s, None, []) else Receive(s, env)
  }

  function Sgetc(s: Sock, env: seq<RecvEvent>): Get
    requires s.Valid()
  {
    if s.gptr < s.egptr then Get(s, Some(s.get[s.gptr]), []) else Underflow(s, env)
  }

  function Sbumpc(s: Sock, env: seq<RecvEvent>): Get
    requires s.Valid()
  {
    var r := Sgetc(s, env);
    if r.c.None? then r else r.(s := r.s.(gptr := r.s.gptr + 1))
  }

  function Sungetc(s: Sock): Sock {
    if s.gptr > 0 then s.(gptr := s.gptr - 1) else s
  }

  lemma {:induction false} ReceiveCorrect(s: Sock, env: seq<RecvEvent>)
    requires s.Valid() && s.gptr == s.egptr
    ensures var r := Receive(s, env);
      && r.s.Valid() && r.s.Unread() == r.got
      && r.c == (if r.got == [] then None else Some(r.got[0]))
      && (if r.got == [] then r.s == s.(ec := r.s.ec) else r.s.gptr == PUTBACK_MAX)
      && r.s.put == s.put && r.s.pptr == s.pptr && r.s.wire == s.wire
    decreases |env|
  {
    if env != [] && env[0].RecvFailed? {
      ReceiveCorrect(s, env[1..]);
    }
  }

  /** underflow refuses a get area that is not used up, and otherwise receives. */
  lemma UnderflowCorrect(s: Sock, env: seq<RecvEvent>)
    requires s.Valid()
    ensures var r := Underflow(s, env);
      && r.s.Valid() && r.s.Unread() == s.Unread() + r.got
      && r.c == (if s.Unread() != [] || r.got == [] then None else Some(r.got[0]))
  {
    if s.gptr == s.egptr {
      ReceiveCorrect(s, env);
    }
  }

  predicate Retried(e: RecvEvent) { e.RecvFailed? && (e.ec == WouldBlock || e.ec == TryAgain) && e.pollOk }

  /** How a receive loop ends whose first pass that is not a successful wait is the k-th. */
  ghost predicate EndsAt(env: seq<RecvEvent>, k: nat, got: seq<char>, ec: Error) {
    && k <= |env| && (forall e <- env[..k] :: Retried(e)) && (k < |env| ==> !Retried(env[k]))
    && if k == |env| then got == [] && ec == TimedOut
       else match env[k]
         case Got(cs) =>
           && got == (if |cs| <= 504 then cs else cs[..504])
           && ec == if cs == [] then EndOfFile else NoError
         case RecvFailed(e, _, pollEc) =>
           got == [] && ec == if e == WouldBlock || e == TryAgain then pollEc else e
  }

  /** How the receive loop ends: after retries only, the time is up, bytes or the end of the stream
      arrive, or recv or poll fails. All that arrived, up to the 504 bytes asked for, is readable. */
  lemma {:induction false} ReceiveEnds(s: Sock, env: seq<RecvEvent>) returns (k: nat)
    requires s.Valid()
    ensures EndsAt(env, k, Receive(s, env).got, Receive(s, env).s.ec)
    decreases |env|
  {
    if env == [] || !Retried(env[0]) {
      k := 0;
    } else {
      var n := ReceiveEnds(s, env[1..]);
      ConsPrefix(env, n);
      k := n + 1;
    }
  }

  /** A read that finds the get area used up receives, and the whole of what came is then unread;
      with something unread nothing is received and the error stays. */
  ghost predicate Reads(before: Sock, env: seq<RecvEvent>, got: seq<char>, ec: Error) {
    if before.gptr < before.egptr then got == [] && ec == before.ec
    else exists k: nat :: EndsAt(env, k, got, ec)
  }

  lemma UnderflowReads(s: Sock, env: seq<RecvEvent>)
    requires s.Valid()
    ensures var r := Underflow(s, env); Reads(s, env, r.got, r.s.ec)
    ensures var r := Sbumpc(s, env); Reads(s, env, r.got, r.s.ec)
  {
    if s.gptr == s.egptr {
      var k := ReceiveEnds(s, env);
    }
  }

  datatype GetOp = Peek(env: seq<RecvEvent>) | Next(env: seq<RecvEvent>) | Unget

  datatype GetRun = GetRun(s: Sock, received: seq<char>, delivered: seq<char>)

  function Then(r: GetRun, op: GetOp): GetRun
    requires r.s.Valid()
  {
    match op
    case Peek(env) =>
      var g := Sgetc(r.s, env);
      GetRun(g.s, r.received + g.got, r.delivered)
    case Next(env) =>
      var g := Sbumpc(r.s, env);
      GetRun(g.s, r.received + g.got, if g.c.Some? then r.delivered + [g.c.value] else r.delivered)
    case Unget =>
      GetRun(Sungetc(r.s), r.received,
             if r.s.gptr > 0 && r.delivered != [] then r.delivered[..|r.delivered| - 1] else r.delivered)
  }

  ghost function RunGets(r: GetRun, ops: seq<GetOp>): GetRun
    decreases |ops|
  {
    if ops == [] || !r.s.Valid() then r else RunGets(Then(r, ops[0]), ops[1..])
  }

  /** Nothing received is lost, repeated or reordered. */
  ghost predicate InOrder(r: GetRun) { r.s.Valid() && r.delivered + r.s.Unread() == r.received }

  /** What lies between the putback zone and the read position is what was delivered last. */
  ghost predicate Remembers(r: GetRun)
    requires r.s.Valid()
  {
    var back := r.s.gptr - PUTBACK_MAX;
    back >= 0 ==> back <= |r.delivered| && r.s.get[PUTBACK_MAX..r.s.gptr] == r.delivered[|r.delivered| - back..]
  }

  ghost predicate Sound(r: GetRun) { InOrder(r) && r.s.egptr >= PUTBACK_MAX && Remembers(r) }

  predicate LastIsZero(cs: seq<char>) { cs != [] && cs[|cs| - 1] == '\0' }

  /** A step back over the putback zone, whose zeros nobody sent, unless it takes back a zero. */
  predicate Invents(r: GetRun, op: GetOp) {
    op.Unget? && 0 < r.s.gptr <= PUTBACK_MAX && !LastIsZero(r.delivered)
  }

  lemma PeekSound(r: GetRun, env: seq<RecvEvent>)
    requires Sound(r)
    ensures Sound(Then(r, Peek(env)))
    ensures var unread := Then(r, Peek(env)).s.Unread();
      Sgetc(r.s, env).c == if unread == [] then None else Some(unread[0])
  {
    if r.s.gptr == r.s.egptr {
      ReceiveCorrect(r.s, env);
    }
  }

  lemma TakeSound(p: GetRun, n: GetRun)
    requires Sound(p) && p.s.gptr < p.s.egptr
    requires n == GetRun(p.s.(gptr := p.s.gptr + 1), p.received, p.delivered + [p.s.get[p.s.gptr]])
    ensures Sound(n)
  {
    assert p.s.Unread() == [p.s.get[p.s.gptr]] + n.s.Unread();
    if p.s.gptr >= PUTBACK_MAX {
      assert n.s.get[PUTBACK_MAX..n.s.gptr] == p.s.get[PUTBACK_MAX..p.s.gptr] + [p.s.get[p.s.gptr]];
    }
  }

  lemma NextSound(r: GetRun, env: seq<RecvEvent>)
    requires Sound(r)
    ensures Sound(Then(r, Next(env)))
  {
    PeekSound(r, env);
    var p := Then(r, Peek(env));
    if p.s.Unread() != [] {
      TakeSound(p, Then(r, Next(env)));
    }
  }

  lemma UngetShows(s: Sock)
    requires s.Valid() && s.gptr > 0
    ensures Sungetc(s).Valid() && Sungetc(s).Unread() == [s.get[s.gptr - 1]] + s.Unread()
  {
  }

  /** A step back gives the last delivered byte back. */
  ghost predicate Restores(r: GetRun)
    requires r.s.Valid()
  {
    r.delivered != [] && Sungetc(r.s).Unread() == [r.delivered[|r.delivered| - 1]] + r.s.Unread()
  }

  lemma FrontRemembered(r: GetRun)
    requires Sound(r) && r.s.gptr > PUTBACK_MAX
    ensures r.delivered != [] && r.s.get[r.s.gptr - 1] == r.delivered[|r.delivered| - 1]
  {
    assert r.s.get[PUTBACK_MAX..r.s.gptr][r.s.gptr - 1 - PUTBACK_MAX] == r.delivered[|r.delivered| - 1];
  }

  /** The putback zone is never filled: sungetc gives the last delivered character back exactly if
      one was taken since the last refill, or there is still a zero before the read position and
      that character happened to be '\0'. */
  lemma UngetRestoresIff(r: GetRun)
    requires Sound(r)
    ensures Restores(r) <==> r.s.gptr > PUTBACK_MAX || (r.s.gptr > 0 && LastIsZero(r.delivered))
  {
    if r.s.gptr > 0 {
      UngetShows(r.s);
      assert Sungetc(r.s).Unread()[0] == r.s.get[r.s.gptr - 1];
      if r.s.gptr > PUTBACK_MAX {
        FrontRemembered(r);
      }
    }
  }

  lemma UngetRemembers(r: GetRun)
    requires Sound(r)
    ensures Then(r, Unget).s.Valid() && Remembers(Then(r, Unget))
  {
    var n := Then(r, Unget);
    if r.s.gptr > PUTBACK_MAX {
      FrontRemembered(r);
      var back, c := n.s.gptr - PUTBACK_MAX, r.s.get[r.s.gptr - 1];
      assert r.s.get[PUTBACK_MAX..r.s.gptr] == n.s.get[PUTBACK_MAX..n.s.gptr] + [c];
      assert r.delivered == n.delivered + [c];
      assert r.delivered[|n.delivered| - back..] == n.delivered[|n.delivered| - back..] + [c];
    }
  }

  lemma UngetSoundIff(r: GetRun)
    requires Sound(r)
    ensures if Invents(r, Unget) then !InOrder(Then(r, Unget)) else Sound(Then(r, Unget))
  {
    var n := Then(r, Unget);
    UngetRemembers(r);
    if r.s.gptr > 0 {
      UngetShows(r.s);
      if r.s.gptr > PUTBACK_MAX {
        FrontRemembered(r);
      }
      if r.delivered != [] {
        var last := r.delivered[|r.delivered| - 1];
        assert r.delivered == n.delivered + [last];
        assert n.delivered + n.s.Unread() == n.delivered + [r.s.get[r.s.gptr - 1]] + r.s.Unread();
        assert (n.delivered + n.s.Unread())[|n.delivered|] == r.s.get[r.s.gptr - 1];
        assert r.received[|n.delivered|] == last;
      }
    }
  }

  lemma StepInOrderIff(r: GetRun, op: GetOp)
    requires Sound(r)
    ensures if Invents(r, op) then !InOrder(Then(r, op)) else Sound(Then(r, op))
  {
    match op
    case Peek(env) => PeekSound(r, env);
    case Next(env) => NextSound(r, env);
    case Unget => UngetSoundIff(r);
  }

  ghost predicate AlwaysInOrder(r: GetRun, ops: seq<GetOp>)
    decreases |ops|
  {
    InOrder(r) && (ops != [] ==> AlwaysInOrder(Then(r, ops[0]), ops[1..]))
  }

  ghost predicate NeverInvents(r: GetRun, ops: seq<GetOp>)
    decreases |ops|
  {
    ops != [] && r.s.Valid() ==> !Invents(r, ops[0]) && NeverInvents(Then(r, ops[0]), ops[1..])
  }

  /** Over every run of reads, refills and steps back: bytes delivered followed by bytes readable
      are at every point the bytes received exactly if no step back goes over the putback zone,
      except to take back a zero. */
  lemma {:induction false} InOrderIff(r: GetRun, ops: seq<GetOp>)
    requires Sound(r)
    ensures AlwaysInOrder(r, ops) <==> NeverInvents(r, ops)
    decreases |ops|
  {
    if ops != [] {
      StepInOrderIff(r, ops[0]);
      if !Invents(r, ops[0]) {
        InOrderIff(Then(r, ops[0]), ops[1..]);
      }
    }
  }

  lemma {:induction false} AlwaysInOrderEnds(r: GetRun, ops: seq<GetOp>)
    requires AlwaysInOrder(r, ops)
    ensures InOrder(RunGets(r, ops))
    decreases |ops|
  {
    if ops != [] {
      AlwaysInOrderEnds(Then(r, ops[0]), ops[1..]);
    }
  }

  const FRESH_GET := GetRun(Init(), [], [])

  /** From a new buffer. */
  lemma DeliveredInOrderIff(ops: seq<GetOp>)
    ensures AlwaysInOrder(FRESH_GET, ops) <==> NeverInvents(FRESH_GET, ops)
    ensures NeverInvents(FRESH_GET, ops) ==>
      var r := RunGets(FRESH_GET, ops); r.s.Valid() && r.delivered + r.s.Unread() == r.received
  {
    InOrderIff(FRESH_GET, ops);
    if NeverInvents(FRESH_GET, ops) {
      AlwaysInOrderEnds(FRESH_GET, ops);
    }
  }

  /** Read 'a', look ahead (which refills), step back: not 'a' but '\0' comes next. */
  lemma UngetAfterRefillShowsZero()
    ensures var s := Sgetc(Sbumpc(Init(), [Got(['a'])]).s, [Got(['b'])]).s; Sungetc(s).Unread() == ['\0', 'b']
  {
    var s1 := Sbumpc(Init(), [Got(['a'])]).s;
    assert s1 == Refill(Init(), ['a']).(gptr := PUTBACK_MAX + 1);
    var s2 := Sgetc(s1, [Got(['b'])]).s;
    assert s2 == Refill(s1, ['b']);
    UngetShows(s2);
  }
}
