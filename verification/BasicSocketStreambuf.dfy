/** `basic_socket_streambuf`, buffer part, as the object it is: two character vectors, their stream
    positions, and the last error. The loops of underflow and overflow run against the scripted
    socket of module SocketBuffer; `wire` is what the socket has taken so far. */
module BasicSocketStreambuf {
  import opened Options
  import opened SocketBuffer

  class SocketStreamBuf {
    var putBuffer: array<char>
    var pptr: nat
    var getBuffer: array<char>
    var gptr: nat
    var egptr: nat
    var ec: Error
    ghost var wire: seq<char>

    ghost function State(): Sock
      reads this, putBuffer, getBuffer
    {
      Sock(putBuffer[..], pptr, getBuffer[..], gptr, egptr, ec, wire)
    }

    ghost predicate Valid()
      reads this, putBuffer, getBuffer
    {
      putBuffer != getBuffer && State().Valid()
    }

    constructor ()
      ensures State() == Init() && putBuffer != getBuffer && fresh(putBuffer) && fresh(getBuffer)
      ensures putBuffer.Length == getBuffer.Length == 512 && pptr == 0 && gptr == egptr == 8 && ec == NoError
    {
      putBuffer := new char[BUFFER_SIZE](_ => '\0');
      getBuffer := new char[BUFFER_SIZE](_ => '\0');
      pptr, gptr, egptr, ec, wire := 0, PUTBACK_MAX, PUTBACK_MAX, NoError, [];
    }

    /** The send loop: `output` is what is left to send. */
    method Send(output: seq<char>, env: seq<SendEvent>) returns (ok: bool)
      modifies this`ec, this`wire
      ensures var r := Flush(|output|, env, old(ec));
        r.taken <= |output| && ok == r.ok && ec == r.ec && wire == old(wire) + output[..r.taken]
    {
      var left := output;
      var i := 0;
      ghost var all := Flush(|output|, env, ec);
      FlushTakesAll(|output|, env, ec);
      while |left| > 0
        invariant i <= |env| && |left| <= |output| && left == output[|output| - |left|..]
        invariant wire == old(wire) + output[..|output| - |left|]
        invariant all == Flush(|left|, env[i..], ec).(taken := |output| - |left| + Flush(|left|, env[i..], ec).taken)
        decreases |env| - i
      {
        assert env[i..] == [] || env[i..][1..] == env[i + 1..];
        if i == |env| {
          ec := TimedOut;
          return false;
        }
        match env[i] {
          case Took(n) =>
            ec := NoError;
            if n == 0 {
              return false;
            }
            var m := if n < |left| then n else |left|;
            wire := wire + left[..m];
            left := left[m..];
          case SendFailed(e, pollOk, pollEc) =>
            ec := e;
            if !Retry(e) {
              return false;
            }
            ec := pollEc;
            if !pollOk {
              return false;
            }
        }
        i := i + 1;
      }
      return true;
    }

    /** `c` is None for traits_type::eof(). */
    method Overflow(c: Option<char>, env: seq<SendEvent>) returns (ok: bool)
      requires Valid()
      modifies this, putBuffer
      ensures var r := SocketBuffer.Overflow(old(State()), c, env); ok == r.ok && State() == r.s
      ensures putBuffer == old(putBuffer) && getBuffer == old(getBuffer) && Valid()
      ensures ok ==> wire + State().Pending() == old(wire + State().Pending()) + (if c.Some? then [c.value] else [])
      ensures !ok ==> State().Pending() == old(State().Pending()) && old(wire) <= wire <= old(wire + State().Pending())
      ensures ErrorTells(old(ToSend(State(), c)), env, ok, old(ec), ec)
    {
      OverflowCorrect(State(), c, env);
      OverflowError(State(), c, env);
      ghost var before := State();
      if putBuffer.Length == 0 {
        if c.None? {
          return true;
        }
        FlushTakesAll(1, env, ec);
        ok := Send([c.value], env);
        return;
      }
      assert before.Pending() == putBuffer[..pptr];
      FlushTakesAll(pptr, env, ec);
      ok := Send(putBuffer[..pptr], env);
      if ok {
        pptr := 0;
        if c.Some? {
          putBuffer[0] := c.value;
          pptr := 1;
        }
      }
    }

    method Sync(env: seq<SendEvent>) returns (ok: bool)
      requires Valid()
      modifies this, putBuffer
      ensures var r := SocketBuffer.Overflow(old(State()), None, env); ok == r.ok && State() == r.s
      ensures putBuffer == old(putBuffer) && getBuffer == old(getBuffer) && Valid()
      ensures if ok then State().Pending() == [] && wire == old(wire + State().Pending())
              else State().Pending() == old(State().Pending()) && old(wire) <= wire < old(wire + State().Pending())
      ensures ErrorTells(old(pptr), env, ok, old(ec), ec)
    {
      OverflowCorrect(State(), None, env);
      ok := Overflow(None, env);
    }

    method Sputc(c: char, env: seq<SendEvent>) returns (ok: bool)
      requires Valid()
      modifies this, putBuffer
      ensures var r := SocketBuffer.Sputc(old(State()), c, env); ok == r.ok && State() == r.s
      ensures putBuffer == old(putBuffer) && getBuffer == old(getBuffer) && Valid()
      ensures if ok then wire + State().Pending() == old(wire + State().Pending()) + [c]
              else State().Pending() == old(State().Pending()) && old(wire) <= wire <= old(wire + State().Pending())
      ensures if old(pptr < putBuffer.Length) then ok && ec == old(ec)
              else ErrorTells(old(ToSend(State(), Some(c))), env, ok, old(ec), ec)
    {
      if pptr < putBuffer.Length {
        putBuffer[pptr] := c;
        pptr := pptr + 1;
        assert State().Pending() == old(State().Pending()) + [c];
        return true;
      }
      ok := Overflow(Some(c), env);
    }

    method Setbuf(isNull: bool, n: int) returns (ok: bool)
      requires Valid()
      modifies this
      ensures var r := SocketBuffer.Setbuf(old(State()), isNull, n); ok == r.ok && State() == r.s
      ensures (putBuffer == old(putBuffer) || fresh(putBuffer)) && getBuffer == old(getBuffer) && Valid()
      ensures State().Pending() == old(State().Pending()) && wire == old(wire) && ec == old(ec)
    {
      if pptr == 0 && isNull && n == 0 {
        putBuffer := new char[0];
        pptr := 0;
        ok := Sync([]);
        return true;
      }
      return false;
    }

    /** Copy what recv delivered behind the putback zone and restart the get area there. */
    method Fill(cs: seq<char>)
      requires Valid() && 0 < |cs| <= BUFFER_SIZE - PUTBACK_MAX
      modifies this`gptr, this`egptr, this`ec, getBuffer
      ensures State() == Refill(old(State()), cs)
    {
      forall i | 0 <= i < |cs| {
        getBuffer[PUTBACK_MAX + i] := cs[i];
      }
      assert getBuffer[..] == old(getBuffer[..PUTBACK_MAX]) + cs + old(getBuffer[PUTBACK_MAX + |cs|..]);
      gptr, egptr, ec := PUTBACK_MAX, PUTBACK_MAX + |cs|, NoError;
    }

    /** The receive loop of underflow. */
    method Recv(env: seq<RecvEvent>) returns (c: Option<char>)
      requires Valid() && gptr == egptr
      modifies this, getBuffer
      ensures var r := Receive(old(State()), env); c == r.c && State() == r.s
      ensures putBuffer == old(putBuffer) && getBuffer == old(getBuffer)
    {
      ghost var before := State();
      var i := 0;
      while true
        invariant i <= |env| && putBuffer == old(putBuffer) && getBuffer == old(getBuffer)
        invariant State() == before.(ec := ec)
        invariant Receive(before, env) == Receive(before, env[i..])
        decreases |env| - i
      {
        assert env[i..] == [] || env[i..][1..] == env[i + 1..];
        if i == |env| {
          ec := TimedOut;
          return None;
        }
        match env[i] {
          case Got(cs) =>
            if cs == [] {
              ec := EndOfFile;
              return None;
            }
            Fill(Truncated(cs));
            return Some(getBuffer[gptr]);
          case RecvFailed(e, pollOk, pollEc) =>
            ec := e;
            if !Retry(e) {
              return None;
            }
            ec := pollEc;
            if !pollOk {
              return None;
            }
        }
        i := i + 1;
      }
    }

    method Underflow(env: seq<RecvEvent>) returns (c: Option<char>)
      requires Valid()
      modifies this, getBuffer
      ensures var r := SocketBuffer.Underflow(old(State()), env);
        && c == r.c && State() == r.s && Valid()
        && State().Unread() == old(State().Unread()) + r.got
        && c == (if old(State().Unread()) != [] || r.got == [] then None else Some(r.got[0]))
        && Reads(old(State()), env, r.got, ec)
      ensures putBuffer == old(putBuffer) && getBuffer == old(getBuffer)
    {
      UnderflowCorrect(State(), env);
      UnderflowReads(State(), env);
      if gptr != egptr {
        return None;
      }
      c := Recv(env);
    }

    method Sbumpc(env: seq<RecvEvent>) returns (c: Option<char>)
      requires Valid()
      modifies this, getBuffer
      ensures var r := SocketBuffer.Sbumpc(old(State()), env); var text := old(State().Unread()) + r.got;
        && c == r.c && State() == r.s && Valid()
        && c == (if text == [] then None else Some(text[0]))
        && State().Unread() == (if text == [] then [] else text[1..])
        && Reads(old(State()), env, r.got, ec)
      ensures putBuffer == old(putBuffer) && getBuffer == old(getBuffer)
    {
      UnderflowCorrect(State(), env);
      UnderflowReads(State(), env);
      if gptr < egptr {
        c := Some(getBuffer[gptr]);
      } else {
        c := Underflow(env);
      }
      if c.Some? {
        gptr := gptr + 1;
      }
    }

    method Sungetc() returns (ok: bool)
      requires Valid()
      modifies this
      ensures ok == (old(gptr) > 0) && State() == SocketBuffer.Sungetc(old(State())) && Valid()
      ensures ok ==> State().Unread() == [old(getBuffer[gptr - 1])] + old(State().Unread())
      ensures putBuffer == old(putBuffer) && getBuffer == old(getBuffer)
    {
      ok := 0 < gptr;
      if ok {
        gptr := gptr - 1;
      }
    }

    /** The destructor flushes what is pending; what a failing flush does not get out is lost. */
    method Destroy(env: seq<SendEvent>)
      requires Valid()
      modifies this, putBuffer
      ensures var pending := old(State().Pending()); var r := Flush(|pending|, env, old(ec));
        r.taken <= |pending| && wire == old(wire) + pending[..r.taken]
      ensures wire == old(wire + State().Pending()) <==> Flush(|old(State().Pending())|, env, old(ec)).ok
    {
      FlushTakesAll(pptr, env, ec);
      OverflowCorrect(State(), None, env);
      if pptr != 0 {
        var ok := Overflow(None, env);
      }
    }
  }
}
