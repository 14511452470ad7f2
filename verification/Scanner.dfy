/** The serial scanner loop: a byte reader and an idle-flush ticker sharing one buffer. */
module Scanner {
  import opened Text

  newtype byte = x: int | 0 <= x < 256

  const IDLE_MS: int := 80

  /** One critical section of the reader or of the ticker, in the order they got the lock.  The
      ticker decides in one section and flushes in a later one. */
  datatype Step = Read(b: byte, now: int) | IdleCheck(now: int) | IdleFlush

  predicate LineEnd(b: byte) {
    b == 10 || b == 13
  }

  function DataOf(step: Step): seq<byte> {
    if step.Read? && !LineEnd(step.b) then [step.b] else []
  }

  /** The bytes of a schedule that are not CR or LF, in order. */
  function Data(steps: seq<Step>): seq<byte> {
    if steps == [] then [] else Data(steps[..|steps| - 1]) + DataOf(steps[|steps| - 1])
  }

  /** A schedule contributes the bytes it reads, one after another, except 10 and 13. */
  lemma {:induction false} DataExactly(xs: seq<Step>, ys: seq<Step>, b: byte, now: int)
    ensures Data(xs + ys) == Data(xs) + Data(ys)
    ensures Data([Read(b, now)]) == if b == 10 || b == 13 then [] else [b]
    ensures Data([IdleCheck(now)]) == Data([IdleFlush]) == []
    decreases |ys|
  {
    assert forall s: Step :: [s][..0] == [];
    if ys == [] {
      assert xs + ys == xs;
    } else {
      var n := |ys| - 1;
      assert (xs + ys)[..|xs| + n] == xs + ys[..n];
      DataExactly(xs, ys[..n], b, now);
    }
  }

  /** Go's string(b) for a byte: the character with that number. */
  function Char(b: byte): char {
    b as char
  }

  function Chars(bs: seq<byte>): string {
    seq(|bs|, i requires 0 <= i < |bs| => Char(bs[i]))
  }

  function Concat(parts: seq<string>): string {
    if parts == [] then "" else Concat(parts[..|parts| - 1]) + parts[|parts| - 1]
  }

  /** The scans a sequence of flushed buffers produces: the trims that are not blank. */
  function Scans(parts: seq<string>): seq<string> {
    if parts == [] then []
    else
      var t := TrimSpace(parts[|parts| - 1]);
      Scans(parts[..|parts| - 1]) + if t == "" then [] else [t]
  }

  class Listener {
    var buffer: string
    var lastByte: int      // -1 before the first byte
    var idle: bool         // the ticker has decided to flush
    var scans: seq<string>
    ghost var taken: seq<string>

    constructor ()
      ensures buffer == "" && lastByte == -1 && !idle && scans == [] && taken == []
    {
      buffer, lastByte, idle, scans, taken := "", -1, false, [], [];
    }

    /** flushBuffer: takes the whole buffer, and emits its trim unless that is blank. */
    method FlushBuffer()
      modifies this`buffer, this`scans, this`taken
      ensures buffer == ""
      ensures taken == if old(buffer) == "" then old(taken) else old(taken) + [old(buffer)]
      ensures Concat(taken) == Concat(old(taken)) + old(buffer)
      ensures old(scans) == Scans(old(taken)) ==> scans == Scans(taken)
    {
      if buffer == "" {
        assert Concat(taken) + "" == Concat(taken);
        return;
      }
      var scanned := TrimSpace(buffer);
      taken := taken + [buffer];
      assert taken[..|taken| - 1] == old(taken);
      buffer := "";
      if scanned == "" {
        return;
      }
      scans := scans + [scanned];
    }

    /** One byte from the port. */
    method ReadByte(b: byte, now: int)
      modifies this`buffer, this`lastByte, this`scans, this`taken
      ensures Concat(taken) + buffer == Concat(old(taken)) + old(buffer) + if b == 10 || b == 13 then "" else [b as char]
      ensures old(scans) == Scans(old(taken)) ==> scans == Scans(taken)
      ensures b == 10 || b == 13 ==> buffer == "" && lastByte == old(lastByte)
      ensures b != 10 && b != 13 ==> buffer == old(buffer) + [Char(b)] && taken == old(taken) && lastByte == now
      ensures taken == old(taken) || (taken == old(taken) + [old(buffer)] && old(buffer) != "")
    {
      if LineEnd(b) {
        FlushBuffer();
      } else {
        assert Concat(taken) + (buffer + [Char(b)]) == Concat(taken) + buffer + [Char(b)];
        buffer := buffer + [Char(b)];
        lastByte := now;
      }
    }

    /** The idle check and the idle flush are two sections: bytes may arrive in between. */
    method RunSection(step: Step)
      modifies this
      ensures Concat(taken) + buffer == Concat(old(taken)) + old(buffer) + Chars(DataOf(step))
      ensures old(scans) == Scans(old(taken)) ==> scans == Scans(taken)
      ensures taken == old(taken) || (taken == old(taken) + [old(buffer)] && old(buffer) != "")
      ensures step.IdleCheck? ==>
                taken == old(taken) && (idle <==> lastByte != -1 && buffer != "" && step.now - lastByte >= IDLE_MS)
      ensures taken != old(taken) ==> (step.Read? && LineEnd(step.b)) || (step.IdleFlush? && old(idle))
      ensures (step.Read? && LineEnd(step.b)) || (step.IdleFlush? && old(idle)) ==> buffer == ""
    {
      match step {
        case Read(b, now) =>
          ReadByte(b, now);
        case IdleCheck(now) =>
          idle := lastByte != -1 && buffer != "" && now - lastByte >= IDLE_MS;
        case IdleFlush =>
          if idle {
            FlushBuffer();
            idle := false;
          }
      }
    }

    /** listen, for any interleaving of the reader's and the ticker's critical sections: what
        successive flushes took, followed by what is still buffered, is exactly the input
        without line ends, in order; and the scans are the non-blank trims of those buffers. */
    method Listen(steps: seq<Step>)
      requires buffer == "" && !idle && scans == [] && taken == []
      modifies this
      ensures Concat(taken) + buffer == Chars(Data(steps))
      ensures scans == Scans(taken)
      ensures forall i :: 0 <= i < |taken| ==> taken[i] != ""
    {
      var n := 0;
      while n < |steps|
        invariant 0 <= n <= |steps|
        invariant Concat(taken) + buffer == Chars(Data(steps[..n]))
        invariant scans == Scans(taken)
        invariant forall i :: 0 <= i < |taken| ==> taken[i] != ""
      {
        assert steps[..n + 1][..n] == steps[..n];
        CharsAppend(Data(steps[..n]), DataOf(steps[n]));
        RunSection(steps[n]);
        n := n + 1;
      }
      assert steps[..n] == steps;
    }
  }

  lemma CharsAppend(bs: seq<byte>, cs: seq<byte>)
    ensures Chars(bs + cs) == Chars(bs) + Chars(cs)
  {
  }

  /** A Go string holds the UTF-8 encoding of its characters; these are below 256. */
  function Utf8(c: char): seq<byte>
    requires c as int < 256
  {
    var n := c as int;
    if n < 128 then [n as byte] else [(192 + n / 64) as byte, (128 + n % 64) as byte]
  }

  function Encoded(bs: seq<byte>): seq<byte> {
    if bs == [] then [] else Encoded(bs[..|bs| - 1]) + Utf8(Char(bs[|bs| - 1]))
  }

  function HighBytes(bs: seq<byte>): nat {
    if bs == [] then 0 else HighBytes(bs[..|bs| - 1]) + if bs[|bs| - 1] < 128 then 0 else 1
  }

  lemma {:induction false} EncodedLength(bs: seq<byte>)
    ensures |Encoded(bs)| == |bs| + HighBytes(bs)
    decreases |bs|
  {
    if bs != [] {
      EncodedLength(bs[..|bs| - 1]);
    }
  }

  lemma {:induction false} AsciiKept(bs: seq<byte>)
    requires HighBytes(bs) == 0
    ensures Encoded(bs) == bs
    decreases |bs|
  {
    if bs != [] {
      var n := |bs| - 1;
      AsciiKept(bs[..n]);
      assert Utf8(Char(bs[n])) == [bs[n]];
      assert bs == bs[..n] + [bs[n]];
    }
  }

  lemma {:induction false} AllAscii(bs: seq<byte>)
    ensures HighBytes(bs) == 0 <==> forall i :: 0 <= i < |bs| ==> bs[i] < 128
    decreases |bs|
  {
    if bs != [] {
      AllAscii(bs[..|bs| - 1]);
      assert forall i :: 0 <= i < |bs| - 1 ==> bs[..|bs| - 1][i] == bs[i];
    }
  }

  /** The callbacks receive the scanner's own bytes if and only if all of them are ASCII: every
      other byte is delivered as a two-byte character. */
  lemma BytesKeptExactly(bs: seq<byte>)
    ensures Encoded(bs) == bs <==> forall i :: 0 <= i < |bs| ==> bs[i] < 128
  {
    EncodedLength(bs);
    AllAscii(bs);
    if HighBytes(bs) == 0 {
      AsciiKept(bs);
    }
  }

  /** A byte such as 0xE9 comes out as C3 A9. */
  lemma HighByteReencoded()
    ensures Encoded([0xE9]) == [0xC3, 0xA9]
  {
    assert [0xE9 as byte][..0] == [];
    assert Encoded([]) == [];
  }
}
