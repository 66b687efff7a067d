/** `ReadBuff` and `SendBuff`: two loops over a kernel that moves as few bytes as it likes. */
module Network {
  newtype byte = x: int | 0 <= x < 256

  const INT_MAX := 0x7fff_ffff

  function Least(a: int, b: int, c: int): int {
    if a <= b && a <= c then a else if b <= c then b else c
  }

  /** A connected socket. `kernel` is the schedule: the most each coming call will move, where a number
      that is not positive is returned as it is; calls beyond the schedule fail. */
  class Fd {
    var incoming: seq<byte>
    var outgoing: seq<byte>
    var kernel: seq<int>
    var calls: nat
    var last: int

    constructor (incoming: seq<byte>, kernel: seq<int>)
      ensures this.incoming == incoming && this.kernel == kernel && outgoing == []
    {
      this.incoming, this.outgoing, this.kernel, this.calls, this.last := incoming, [], kernel, 0, 0;
    }

    method NextCall() returns (most: int)
      modifies this`kernel, this`calls
      ensures calls == old(calls) + 1
      ensures old(kernel) == [] ==> most == -1 && kernel == []
      ensures old(kernel) != [] ==> most == old(kernel)[0] && kernel == old(kernel)[1..]
    {
      calls := calls + 1;
      if kernel == [] { return -1; }
      most := kernel[0];
      kernel := kernel[1..];
    }

    /** `read(fd, buff, len)` */
    method Read(buff: array<byte>, len: nat) returns (n: int)
      requires 0 < len <= buff.Length
      modifies this, buff
      ensures outgoing == old(outgoing) && calls == old(calls) + 1 && last == n
      ensures n <= 0 ==> incoming == old(incoming)
      ensures n > 0 ==> n <= len && buff[..n] + incoming == old(incoming)
      ensures old(kernel) != [] && old(kernel)[0] > 0 && old(incoming) != [] ==>
                n == Least(old(kernel)[0], len, |old(incoming)|)
    {
      n := NextCall();
      if n > 0 {
        n := if n <= len then n else len;
        n := if n <= |incoming| then n else |incoming|;
        if n == 0 {
          n := -1;
        } else {
          forall i | 0 <= i < n {
            buff[i] := incoming[i];
          }
          assert buff[..n] == incoming[..n];
          incoming := incoming[n..];
        }
      }
      last := n;
    }

    /** `write(fd, buff + pos, len)` */
    method Write(buff: array<byte>, pos: nat, len: nat) returns (n: int)
      requires 0 < len && pos + len <= buff.Length
      modifies this
      ensures incoming == old(incoming) && calls == old(calls) + 1 && last == n
      ensures n < 0 ==> outgoing == old(outgoing)
      ensures n >= 0 ==> n <= len && outgoing == old(outgoing) + buff[pos..pos + n]
      ensures n == if old(kernel) == [] then -1 else Least(old(kernel)[0], len, len)
      ensures n < 0 || |kernel| < |old(kernel)|
    {
      n := NextCall();
      if n > len {
        n := len;
      }
      if n >= 0 {
        outgoing := outgoing + buff[pos..pos + n];
      }
      last := n;
    }
  }

  /** The next bytes of the stream, in order: all that were asked for, unless some read brought none. */
  method ReadBuff(fd: Fd, length: int) returns (ret: seq<byte>)
    requires -1 <= length < INT_MAX
    modifies fd
    ensures ret + fd.incoming == old(fd.incoming) && fd.outgoing == old(fd.outgoing)
    ensures |ret| <= if length > 0 then length else 0
    ensures fd.calls <= old(fd.calls) + if length > 0 then length else 0
    ensures |ret| < length <==> fd.calls > old(fd.calls) && fd.last <= 0
    ensures fd.calls >= old(fd.calls) && (length > 0 ==> fd.calls > old(fd.calls))
  {
    var len := length;
    var buff := new byte[len + 1];
    ret := [];
    while len > 0
      invariant fresh(buff) && buff.Length == length + 1
      invariant len == length - |ret| && if length > 0 then len >= 0 else ret == []
      invariant ret + fd.incoming == old(fd.incoming) && fd.outgoing == old(fd.outgoing)
      invariant fd.calls <= old(fd.calls) + |ret|
      invariant fd.calls >= old(fd.calls) && (fd.calls > old(fd.calls) ==> fd.last > 0)
      invariant fd.calls == old(fd.calls) ==> ret == []
    {
      var n := fd.Read(buff, len);
      if n <= 0 {
        return ret;
      }
      ret := ret + buff[..n];
      len := len - n;
    }
  }

  /** Zero exactly when every byte has been written; otherwise the error of the last write, which leaves a proper
      prefix behind. The loop ends because a write that moves nothing uses up the schedule. */
  method SendBuff(fd: Fd, buff: array<byte>, length: nat) returns (ret: int)
    requires length <= buff.Length && length <= INT_MAX
    modifies fd
    ensures fd.incoming == old(fd.incoming) && ret <= 0
    ensures ret == 0 ==> fd.outgoing == old(fd.outgoing) + buff[..length]
    ensures ret < 0 ==> exists p | 0 <= p < length :: fd.outgoing == old(fd.outgoing) + buff[..p]
    ensures ret < 0 ==> fd.calls > old(fd.calls) && fd.last == ret
  {
    var len, pos := length, 0;
    while len > 0
      invariant 0 <= pos <= length && len == length - pos
      invariant fd.incoming == old(fd.incoming) && fd.outgoing == old(fd.outgoing) + buff[..pos]
      invariant fd.calls >= old(fd.calls)
      decreases len, |fd.kernel|
    {
      var n := fd.Write(buff, pos, len);
      if n < 0 {
        assert 0 <= pos < length && fd.outgoing == old(fd.outgoing) + buff[..pos];
        return n;
      }
      assert buff[..pos] + buff[pos..pos + n] == buff[..pos + n];
      len := len - n;
      pos := pos + n;
    }
    return 0;
  }
}
