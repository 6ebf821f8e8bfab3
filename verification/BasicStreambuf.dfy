/** `basic_streambuf` as the object it is: a vector that methods shift, grow and write in place,
    and stream positions that they move. Every method is proved against the value-level
    operation of the same name in module StreamBuffer. */
module BasicStreambuf {
  import opened Options
  import opened StreamBuffer

  /** std::memmove inside one array, for a destination that does not lie behind the source. */
  method MemMove(a: array<char>, dst: nat, src: nat, n: nat)
    requires dst <= src && src + n <= a.Length
    modifies a
    ensures a[..] == old(a[..dst] + a[src..src + n] + a[dst + n..])
  {
    ghost var was := a[..];
    for i := 0 to n
      invariant forall k :: dst <= k < dst + i ==> a[k] == was[k + src - dst]
      invariant forall k :: 0 <= k < dst || dst + i <= k < a.Length ==> a[k] == was[k]
    {
      a[dst + i] := a[src + i];
    }
    Spliced(a[..], was, dst, src, n);
  }

  lemma Spliced(now: seq<char>, was: seq<char>, dst: nat, src: nat, n: nat)
    requires dst <= src && src + n <= |was| == |now|
    requires forall k :: dst <= k < dst + n ==> now[k] == was[k + src - dst]
    requires forall k :: 0 <= k < dst || dst + n <= k < |was| ==> now[k] == was[k]
    ensures now == was[..dst] + was[src..src + n] + was[dst + n..]
  {
    assert now[dst..dst + n] == was[src..src + n];
    assert now == now[..dst] + now[dst..dst + n] + now[dst + n..];
  }

  /** std::vector::resize to a larger size: the old characters, then zeros. */
  method Grow(a: array<char>, length: nat) returns (r: array<char>)
    requires a.Length <= length
    ensures fresh(r) && r[..] == a[..] + Zeros(length - a.Length)
  {
    r := new char[length](i requires 0 <= i < length reads a => if i < a.Length then a[i] else '\0');
  }

  class StreamBuf {
    const maxSize: SizeT
    var buffer: array<char>
    var gptr: int
    var egptr: int
    var pptr: int
    var epptr: int

    ghost function State(): Buf
      reads this, buffer
    {
      Buf(buffer[..], gptr, egptr, pptr, epptr, maxSize)
    }

    ghost predicate Valid()
      reads this, buffer
    {
      State().Valid()
    }

    /** The characters a reader can still get. */
    ghost function Text(): (s: seq<char>)
      requires Valid()
      reads this, buffer
      ensures |s| == pptr - gptr <= maxSize
    {
      State().Input()
    }

    constructor (maximumSize: SizeT)
      ensures State() == Init(maximumSize) && fresh(buffer) && buffer.Length == Max(epptr, 1)
      ensures gptr == egptr == pptr == 0 && epptr == Min(maximumSize, 128) && maxSize == maximumSize
    {
      var pend := Min(maximumSize, BUFFER_DELTA);
      maxSize := maximumSize;
      buffer := new char[Max(pend, 1)](_ => '\0');
      gptr, egptr, pptr, epptr := 0, 0, 0, pend;
    }

    method Size() returns (n: SizeT)
      requires Valid()
      ensures n == |Text()| <= maxSize
    {
      n := pptr - gptr;
    }

    /** The size_t locals are of type SizeT: no subtraction or sum in here wraps. */
    method Reserve(n: SizeT) returns (threw: bool)
      requires Valid()
      modifies this, buffer
      ensures var r := StreamBuffer.Reserve(old(State()), n); threw == r.TooLong? && State() == r.b
      ensures buffer == old(buffer) || fresh(buffer)
    {
      var gnext: SizeT, pnext: SizeT, pend: SizeT := gptr, pptr, epptr;
      var room: SizeT := pend - pnext;
      if n <= room {
        return false;
      }
      if gnext > 0 {
        pnext := pnext - gnext;
      }
      Shift();
      room := pend - pnext;
      if n > room {
        if n <= maxSize && pnext <= maxSize - n {
          pend := pnext + n;
          buffer := Grow(buffer, Max(pend, 1));
        } else {
          return true;
        }
      }
      gptr, egptr := 0, pnext;
      pptr, epptr := pnext, pend;
      return false;
    }

    /** The memmove of `reserve`: the unread characters go to the start of the vector. */
    method Shift()
      requires Valid()
      modifies buffer
      ensures buffer[..] == Shifted(old(State()))
    {
      if gptr > 0 {
        MemMove(buffer, 0, gptr, pptr - gptr);
      } else {
        ShiftedWhole(State());
      }
    }

    method Prepare(n: SizeT) returns (threw: bool)
      requires Valid()
      modifies this, buffer
      ensures var r := StreamBuffer.Reserve(old(State()), n); threw == r.TooLong? && State() == r.b
      ensures threw <==> |old(Text())| + n > maxSize
      ensures !threw ==> Valid() && Text() == old(Text()) && |State().Output()| >= n
      ensures buffer == old(buffer) || fresh(buffer)
    {
      ReserveCorrect(State(), n);
      threw := Reserve(n);
    }

    method Commit(n: SizeT)
      requires Valid()
      modifies this
      ensures buffer == old(buffer) && State() == StreamBuffer.Commit(old(State()), n)
      ensures var written := old(State().Output()); var m := Min(n, |written|); m <= INT_MAX ==>
        Valid() && Text() == old(Text()) + written[..m] && State().Output() == written[m..] && egptr == pptr
    {
      CommitExactIff(State(), n);
      var m: SizeT := if n < epptr - pptr then n else epptr - pptr;
      pptr := pptr + ToInt(m);
      egptr := pptr;
    }

    method Consume(n: SizeT, base: nat)
      requires Valid() && base + buffer.Length <= SIZE_MAX
      modifies this
      ensures buffer == old(buffer) && State() == StreamBuffer.Consume(old(State()), n, base)
      ensures var m := Min(n, |old(Text())|); !Wraps(old(State()), n, base) && m <= INT_MAX ==>
        Valid() && Text() == old(Text())[m..] && State().Output() == old(State().Output())
    {
      ConsumeExactIff(State(), n, base);
      var m := n;
      if egptr < pptr {
        egptr := pptr;
      }
      if (base + gptr + n) % (SIZE_MAX + 1) > base + pptr {
        m := pptr - gptr;
      }
      gptr := gptr + ToInt(m);
    }

    method Underflow() returns (c: Option<char>)
      requires Valid()
      modifies this
      ensures buffer == old(buffer) && State() == StreamBuffer.Underflow(old(State()))
      ensures c == (if old(Text()) == [] then None else Some(old(Text())[0])) && Valid() && Text() == old(Text())
    {
      if gptr < pptr {
        egptr := pptr;
        return Some(buffer[gptr]);
      }
      return None;
    }

    /** `c` is None for traits_type::eof(). */
    method Overflow(c: Option<char>) returns (threw: bool)
      requires Valid()
      modifies this, buffer
      ensures c.None? ==> !threw && State() == old(State())
      ensures c.Some? ==>
        var r := StreamBuffer.Overflow(old(State()), c.value); threw == r.TooLong? && State() == r.b
      ensures c.Some? ==>
        && (threw <==> |old(Text())| == maxSize)
        && Valid() && Text() == if threw then old(Text()) else old(Text()) + [c.value]
      ensures buffer == old(buffer) || fresh(buffer)
    {
      if c.None? {
        return false;
      }
      OverflowCorrect(State(), c.value);
      ghost var before := State();
      if pptr == epptr {
        var bufferSize: SizeT := pptr - gptr;
        if bufferSize < maxSize && maxSize - bufferSize < BUFFER_DELTA {
          threw := Reserve(maxSize - bufferSize);
        } else {
          threw := Reserve(BUFFER_DELTA);
        }
        assert State() == StreamBuffer.Reserve(before, OverflowRequest(before)).b;
        if threw {
          return true;
        }
        OverflowStores(before, c.value);
      }
      Append(c.value);
      return false;
    }

    /** Write one character at pptr and step over it. */
    method Append(c: char)
      requires Valid() && pptr < epptr
      modifies this, buffer
      ensures buffer == old(buffer) && State() == Store(old(State()), c)
    {
      buffer[pptr] := c;
      pptr := pptr + 1;
    }

    /** sputc: straight into the put area while there is room. */
    method Put(c: char) returns (threw: bool)
      requires Valid()
      modifies this, buffer
      ensures var r := StreamBuffer.Overflow(old(State()), c); threw == r.TooLong? && State() == r.b
      ensures threw <==> |old(Text())| == maxSize
      ensures Valid() && Text() == if threw then old(Text()) else old(Text()) + [c]
      ensures buffer == old(buffer) || fresh(buffer)
    {
      OverflowCorrect(State(), c);
      if pptr < epptr {
        Append(c);
        return false;
      }
      threw := Overflow(Some(c));
    }

    /** sbumpc. */
    method Take() returns (c: Option<char>)
      requires Valid()
      modifies this
      ensures buffer == old(buffer) && State() == Bump(old(State()))
      ensures c == (if old(Text()) == [] then None else Some(old(Text())[0]))
      ensures Valid() && Text() == if old(Text()) == [] then [] else old(Text())[1..]
    {
      ReadMoves(State());
      if egptr <= gptr {
        c := Underflow();
        if c.None? {
          return;
        }
      }
      c := Some(buffer[gptr]);
      gptr := gptr + 1;
    }

    /** sungetc. */
    method PutBack() returns (ok: bool)
      requires Valid()
      modifies this
      ensures buffer == old(buffer) && State() == Unget(old(State()))
      ensures ok <==> old(gptr) > 0
      ensures Valid() && Text() == (if ok then [old(buffer[gptr - 1])] else []) + old(Text())
    {
      ReadMoves(State());
      ok := 0 < gptr;
      if ok {
        gptr := gptr - 1;
      }
    }

    /** The composed read of asio: `read_some` may deliver any part of what it is offered, or
        report an error (no characters), until the buffer is full. `default_max_transfer_size`
        keeps every count inside an int, so nothing is ever truncated and nothing throws. */
    method ReadAll(readSome: (nat, nat) -> seq<char>, slack: nat -> nat)
        returns (received: seq<char>, error: bool, ghost requests: seq<nat>)
      requires Valid()
      requires forall i, n :: |readSome(i, n)| <= n
      modifies this, buffer
      ensures Valid() && Text() == old(Text()) + received
      ensures Served(readSome, requests, received, error) && (error || |Text()| == maxSize)
      ensures buffer == old(buffer) || fresh(buffer)
    {
      received, error, requests := [], false, [];
      ghost var start := Text();
      var calls := 0;
      var available: SizeT := ReadSize(slack(0), error);
      while available > 0
        invariant Valid() && Text() == start + received
        invariant available <= DEFAULT_MAX_TRANSFER_SIZE && |Text()| + available <= maxSize
        invariant available == 0 <==> error || |Text()| == maxSize
        invariant calls == |requests| && Served(readSome, requests, received, error)
        invariant buffer == old(buffer) || fresh(buffer)
        decreases !error, maxSize - |Text()|
      {
        received, error := ReadOnce(readSome, calls, available, received, requests, start);
        requests := requests + [available];
        calls := calls + 1;
        available := ReadSize(slack(calls), error);
      }
    }

    method ReadOnce(readSome: (nat, nat) -> seq<char>, calls: nat, n: SizeT, before: seq<char>,
                    ghost requests: seq<nat>, ghost start: seq<char>)
        returns (received: seq<char>, error: bool)
      requires Valid() && 0 < n <= 65536 && |Text()| + n <= maxSize && Text() == start + before
      requires Served(readSome, requests, before, false) && calls == |requests| && |readSome(calls, n)| <= n
      modifies this, buffer
      ensures Valid() && Text() == start + received && (error <==> |received| == |before|)
      ensures |received| >= |before|
      ensures Served(readSome, requests + [n], received, error)
      ensures buffer == old(buffer) || fresh(buffer)
    {
      var cs := readSome(calls, n);
      Receive(n, cs);
      ServedOnce(readSome, requests, before, n);
      received, error := before + cs, cs == [];
      assert (start + before) + cs == start + received;
    }

    /** prepare(n), let `read_some` put cs there, commit(|cs|). */
    method Receive(n: SizeT, cs: seq<char>)
      requires Valid() && |cs| <= n <= INT_MAX && |Text()| + n <= maxSize
      modifies this, buffer
      ensures Valid() && Text() == old(Text()) + cs
      ensures buffer == old(buffer) || fresh(buffer)
    {
      ReceiveAppends(State(), n, cs);
      var threw := Prepare(n);
      FillOutput(cs);
      Commit(|cs|);
    }

    /** What `read_some` does with the memory that prepare returned. */
    method FillOutput(cs: seq<char>)
      requires Valid() && |cs| <= |State().Output()|
      modifies buffer
      ensures State() == Write(old(State()), 0, cs)
    {
      forall i | 0 <= i < |cs| {
        buffer[pptr + i] := cs[i];
      }
      assert buffer[..] == old(buffer[..pptr]) + cs + old(buffer[pptr + |cs|..]);
    }

    /** The number of bytes to ask for next: 0 after an error, else at most 65536. `slack` is
        how far the vector's capacity exceeds its size. */
    method ReadSize(slack: nat, error: bool) returns (n: SizeT)
      requires Valid()
      ensures n <= DEFAULT_MAX_TRANSFER_SIZE && |Text()| + n <= maxSize
      ensures n == 0 <==> error || |Text()| == maxSize
      ensures n <= 512 || |Text()| + n <= buffer.Length + slack
      ensures !error ==> n >= Min(512, maxSize - |Text()|)
    {
      var wanted := if error then 0 else DEFAULT_MAX_TRANSFER_SIZE;
      var capacity: SizeT := Min(buffer.Length + slack, SIZE_MAX);
      n := Min(Max(512, capacity - (pptr - gptr)), Min(wanted, maxSize - (pptr - gptr)));
      assert n == ReadSizeHelper(State(), capacity, wanted);
      ReadSizeHelperFits(State(), capacity, wanted);
      ReserveCorrect(State(), n);
    }
  }

  /** What the stream delivers to a series of requests. */
  ghost function Deliveries(readSome: (nat, nat) -> seq<char>, requests: seq<nat>): seq<char> {
    if requests == [] then []
    else
      var last := |requests| - 1;
      Deliveries(readSome, requests[..last]) + readSome(last, requests[last])
  }

  /** The stream was asked for these numbers of characters, each from 1 to 65536, and what it
      delivered is `received`; only the last delivery may be empty, and is so after an error. */
  ghost predicate Served(readSome: (nat, nat) -> seq<char>, requests: seq<nat>, received: seq<char>, error: bool) {
    && received == Deliveries(readSome, requests)
    && (forall n <- requests :: 0 < n <= 65536)
    && (forall i :: 0 <= i < |requests| - 1 ==> readSome(i, requests[i]) != [])
    && (error <==> requests != [] && readSome(|requests| - 1, requests[|requests| - 1]) == [])
  }

  lemma ServedOnce(readSome: (nat, nat) -> seq<char>, requests: seq<nat>, received: seq<char>, n: nat)
    requires Served(readSome, requests, received, false) && 0 < n <= DEFAULT_MAX_TRANSFER_SIZE
    ensures var cs := readSome(|requests|, n); Served(readSome, requests + [n], received + cs, cs == [])
  {
    assert (requests + [n])[..|requests|] == requests;
  }

  const DEFAULT_MAX_TRANSFER_SIZE: SizeT := 65536
}
