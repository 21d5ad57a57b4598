/** The bounded read window that the stream connectors share: a buffer that is
    compacted and refilled in place, and that callers cannot tell from the whole
    stream being in memory. */
module ReadWindows {
  import opened ItchDecoders

  /** What a length-framed stream starts with. */
  datatype Frame = End | Broken | Whole(message: seq<byte>)

  function FirstFrame(bytes: seq<byte>): (frame: Frame)
    ensures frame.Whole? ==> 0 < |frame.message| && 2 + |frame.message| <= |bytes|
  {
    if bytes == [] then End
    else if |bytes| < 2 then Broken
    else
      var length := Field(bytes, 0, 2);
      if length == 0 || |bytes| < 2 + length then Broken
      else Whole(bytes[2..2 + length])
  }

  /** A frame is as long as its first two bytes say, the more significant one first;
      an empty one is broken, and so is one that is cut short. */
  lemma FrameByBytes(bytes: seq<byte>)
    ensures FirstFrame(bytes).End? <==> bytes == []
    ensures FirstFrame(bytes).Broken? <==>
      || |bytes| == 1
      || (|bytes| >= 2 && 256 * (bytes[0] as int) + bytes[1] == 0)
      || (|bytes| >= 2 && |bytes| < 2 + 256 * (bytes[0] as int) + bytes[1])
    ensures FirstFrame(bytes).Whole? ==>
      var length := 256 * (bytes[0] as int) + bytes[1];
      2 + length <= |bytes| && FirstFrame(bytes).message == bytes[2..2 + length]
  {
    if |bytes| >= 2 {
      TwoBytes(bytes, 0);
    }
    hide Field;
  }

  function Framed(message: seq<byte>): seq<byte> {
    PutBigEndian(|message|, 2) + message
  }

  function FrameAll(bodies: seq<seq<byte>>): seq<byte> {
    if bodies == [] then [] else Framed(bodies[0]) + FrameAll(bodies[1..])
  }

  lemma {:induction false} FrameAllSplits(bodies: seq<seq<byte>>, i: nat)
    requires i <= |bodies|
    ensures FrameAll(bodies) == FrameAll(bodies[..i]) + FrameAll(bodies[i..])
  {
    if i > 0 {
      FrameAllSplits(bodies[1..], i - 1);
      assert bodies[1..][..i - 1] == bodies[..i][1..] && bodies[1..][i - 1..] == bodies[i..];
    } else {
      assert bodies[i..] == bodies;
    }
  }

  lemma FirstOfFramed(message: seq<byte>, behind: seq<byte>)
    requires 0 < |message| < 0x1_0000
    ensures FirstFrame(Framed(message) + behind) == Whole(message)
    ensures (Framed(message) + behind)[2 + |message|..] == behind
  {
    assert Bound(2) == 256 * Bound(1);
    var prefix := PutBigEndian(|message|, 2);
    assert Framed(message) + behind == [] + prefix + (message + behind);
    FieldAt([], |message|, 2, message + behind);
  }

  /** A file being read: each read hands out some non-empty prefix of the rest, of
      a length the file chooses, or nothing at the end. */
  class ByteSource {
    var rest: seq<byte>

    constructor (bytes: seq<byte>)
      ensures rest == bytes
    {
      rest := bytes;
    }

    method Read(limit: nat) returns (got: seq<byte>)
      modifies this
      ensures old(rest) == got + rest && |got| <= limit
      ensures got == [] <==> limit == 0 || old(rest) == []
    {
      if limit == 0 || rest == [] {
        got := [];
      } else {
        var n: nat :| 0 < n <= limit && n <= |rest|;
        got := rest[..n];
        rest := rest[n..];
      }
    }
  }

  class ReadWindow {
    var buffer: array<byte>
    const input: ByteSource
    var pos: nat
    var size: nat
    var eof: bool

    ghost predicate Valid()
      reads this
    {
      pos <= size <= buffer.Length && (buffer.Length > 0 || eof)
    }

    /** Everything not consumed yet: what the window holds, then what the source
        still has. */
    ghost function Unread(): seq<byte>
      requires Valid()
      reads this, buffer, input
    {
      buffer[pos..size] + if eof then [] else input.rest
    }

    /** The whole stream in the buffer. */
    constructor InMemory(data: seq<byte>)
      ensures Valid() && Unread() == data && fresh(buffer) && fresh(input)
    {
      buffer := new byte[|data|](i requires 0 <= i < |data| => data[i]);
      input := new ByteSource([]);
      pos, size, eof := 0, |data|, true;
      new;
      assert buffer[..] == data;
    }

    /** A window of `capacity` bytes over a source. */
    constructor Over(source: ByteSource, capacity: nat)
      requires capacity > 0
      ensures Valid() && Unread() == source.rest && fresh(buffer) && input == source
    {
      buffer := new byte[capacity](_ => 0);
      input := source;
      pos, size, eof := 0, 0, false;
    }

    /** Moves the unread bytes to the front of the buffer. */
    method Compact()
      requires Valid()
      modifies this`pos, this`size, buffer
      ensures Valid() && pos == 0 && size == old(size - pos)
      ensures Unread() == old(Unread())
    {
      ghost var unread := buffer[pos..size];
      forall i | 0 <= i < size - pos {
        buffer[i] := buffer[pos + i];
      }
      pos, size := 0, size - pos;
      assert buffer[pos..size] == unread;
    }

    method Resize(length: nat)
      requires Valid() && size <= length && length > 0
      modifies this`buffer
      ensures Valid() && fresh(buffer) && buffer.Length == length
      ensures Unread() == old(Unread())
    {
      var kept := buffer;
      var used := size;
      buffer := new byte[length](i requires 0 <= i reads this, kept => if i < used
        && i < kept.Length then kept[i] else 0);
      assert buffer[pos..size] == kept[pos..size];
    }

    /** One read into the free part of the buffer. */
    method ReadMore()
      requires Valid() && size < buffer.Length && !eof
      modifies this`size, this`eof, buffer, input
      ensures Valid() && Unread() == old(Unread()) && size - pos <= |Unread()|
      ensures eof || |input.rest| < old(|input.rest|)
    {
      ghost var held := buffer[pos..size];
      var got := input.Read(buffer.Length - size);
      if |got| == 0 {
        eof := true;
      } else {
        forall i | 0 <= i < |got| {
          buffer[size + i] := got[i];
        }
        size := size + |got|;
        assert buffer[pos..size] == held + got;
      }
    }

    /** Makes `n` unread bytes available, if the stream has that many. Nothing
        unread is lost or reordered, whatever the lengths of the reads. */
    method Ensure(n: nat) returns (ok: bool)
      requires Valid()
      modifies this, buffer, input
      ensures Valid() && Unread() == old(Unread())
      ensures ok <==> |Unread()| >= n
      ensures ok ==> size - pos >= n
      ensures !ok ==> eof
      ensures buffer == old(buffer) || fresh(buffer)
    {
      if size - pos >= n {
        return true;
      }
      if eof {
        return false;
      }
      if pos > 0 {
        Compact();
      }
      if buffer.Length < n {
        Resize(n);
      }
      while size < n && !eof
        invariant Valid() && pos == 0 && buffer.Length > 0
        invariant Unread() == old(Unread())
        invariant buffer == old(buffer) || fresh(buffer)
        decreases !eof, |input.rest|
      {
        if size == buffer.Length {
          Resize(2 * buffer.Length);
        }
        ReadMore();
      }
      return size - pos >= n;
    }

    method PeekLength() returns (length: nat)
      requires Valid() && size - pos >= 2
      ensures length == Field(Unread(), 0, 2)
    {
      length := ReadBe16(buffer[pos..size], 0);
      assert buffer[pos..size][0..2] == Unread()[0..2];
    }

    method Consume(n: nat) returns (taken: seq<byte>)
      requires Valid() && size - pos >= n
      modifies this`pos
      ensures Valid() && taken == old(Unread())[..n] && Unread() == old(Unread())[n..]
    {
      ghost var unread := Unread();
      taken := buffer[pos..pos + n];
      assert unread[..n] == taken;
      pos := pos + n;
      assert Unread() == unread[n..];
    }

    /** Takes the first frame off the stream; a frame that is empty or cut short
        stays where it is. */
    method TakeFrame() returns (frame: Frame)
      requires Valid()
      modifies this, buffer, input
      ensures Valid() && (buffer == old(buffer) || fresh(buffer))
      ensures frame == FirstFrame(old(Unread()))
      ensures Unread() == if frame.Whole? then old(Unread())[2 + |frame.message|..] else old(Unread())
    {
      hide Field;
      ghost var unread := Unread();
      var ok := Ensure(2);
      if !ok {
        frame := if size - pos == 0 then End else Broken;
      } else {
        var length := PeekLength();
        if length == 0 {
          frame := Broken;
        } else {
          ok := Ensure(2 + length);
          if !ok {
            frame := Broken;
          } else {
            var taken := Consume(2 + length);
            assert unread[..2 + length][2..] == unread[2..2 + length];
            frame := Whole(taken[2..]);
          }
        }
      }
    }
  }
}
