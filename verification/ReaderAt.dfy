/** `readerAt` in `cmd/policy-helper/utils.go`: random access over a sequential stream. */
module ReaderAt {
  import opened Wrappers
  import opened Hex

  datatype IoError = EOF | UnsupportedOffset | UnexpectedEOF | Failed

  /** `dt` is what `content` holds at `off`; nothing is said about where no data ends up. */
  predicate IsSlice(dt: Bytes, content: Bytes, off: int) {
    dt != [] ==> 0 <= off && off + |dt| <= |content| && dt == content[off..off + |dt|]
  }

  lemma SlicesJoin(first: Bytes, second: Bytes, content: Bytes, off: int)
    requires IsSlice(first, content, off) && IsSlice(second, content, off + |first|)
    ensures IsSlice(first + second, content, off)
  {
    if first == [] {
      assert first + second == second;
    } else if second == [] {
      assert first + second == first;
    } else {
      var m, n := |first|, |first| + |second|;
      assert content[off..off + n] == content[off..off + m] + content[off + m..off + n];
    }
  }

  /**
   * The wrapped `io.Reader`. Its contracts allow short reads, data together with EOF, errors at
   * any time, scratch writes behind the data, and finitely many empty reads without error.
   */
  class Stream {
    const content: Bytes
    const seekable: bool   // implements io.Seeker
    const direct: bool     // implements io.ReaderAt
    const sound: bool      // never fails but by the end of its content
    var pos: nat
    var stalls: nat        // how many more empty reads there can be

    constructor (content: Bytes, seekable: bool, direct: bool, sound: bool, stalls: nat)
      ensures pos == 0 && this.content == content && this.sound == sound
      ensures this.seekable == seekable && this.direct == direct
    {
      this.content, this.seekable, this.direct, this.sound := content, seekable, direct, sound;
      this.pos, this.stalls := 0, stalls;
    }

    method Read(b: array<Byte>, lo: nat) returns (n: nat, err: Option<IoError>)
      requires lo < b.Length
      modifies this, b
      ensures lo + n <= b.Length && pos == old(pos) + n
      ensures IsSlice(b[lo..lo + n], content, old(pos))
      ensures b[..lo] == old(b[..lo])
      ensures err == Some(EOF) ==> pos >= |content|
      ensures stalls <= old(stalls) && (n == 0 && err.None? ==> stalls < old(stalls))
      ensures sound ==> err.None? || err == Some(EOF)
    {
      var fails: bool := *;
      var left := if pos < |content| then |content| - pos else 0;
      n :| 0 <= n <= left && lo + n <= b.Length && (sound && stalls == 0 && left > 0 ==> n > 0);
      forall i | 0 <= i < n {
        b[lo + i] := content[pos + i];
      }
      forall i | lo + n <= i < b.Length {
        b[i] := 0;
      }
      pos := pos + n;
      if pos >= |content| && (n == 0 || fails) {
        err := Some(EOF);
      } else if n == 0 && (stalls == 0 || (fails && !sound)) {
        err := Some(Failed);
      } else if n == 0 {
        err, stalls := None, stalls - 1;
      } else {
        err := None;
      }
    }

    method Seek(off: int) returns (err: Option<IoError>)
      requires seekable
      modifies this`pos
      ensures err.None? ==> off == pos
      ensures err.Some? ==> err == Some(Failed) && pos == old(pos)
      ensures sound && off >= 0 ==> err.None?
    {
      var fails: bool := *;
      if off < 0 || (fails && !sound) {
        return Some(Failed);
      }
      pos := off;
      return None;
    }

    /** The stream's own `ReadAt`, which does not move its position. */
    method ReadAt(b: array<Byte>, off: int) returns (n: nat, err: Option<IoError>)
      requires direct
      modifies b
      ensures n <= b.Length && (err.None? ==> n == b.Length)
      ensures IsSlice(b[..n], content, off)
      ensures err == Some(EOF) ==> off + n >= |content|
      ensures sound && off >= 0 ==> err.None? || err == Some(EOF)
      ensures err == Some(EOF) ==> n < b.Length
    {
      if b.Length == 0 {
        return 0, None;
      }
      var fails: bool := *;
      if off < 0 || (fails && !sound) {
        return 0, Some(Failed);
      }
      var left := if off < |content| then |content| - off else 0;
      n := if left < b.Length then left else b.Length;
      forall i | 0 <= i < n {
        b[i] := content[off + i];
      }
      err := if n < b.Length then Some(EOF) else None;
    }
  }

  /** A stream that never fails of itself can be read at `off`: at once, after a seek, or where it stands. */
  predicate Reachable(reader: Stream, offset: int, off: int) {
    off >= 0 && (reader.direct || reader.seekable || offset == off)
  }

  /** All that was asked for if the content reaches that far, else all there is and the end of it. */
  predicate Complete(content: Bytes, asked: nat, off: int, got: nat, err: Option<IoError>) {
    if asked == 0 || off + asked <= |content| then got == asked && err.None?
    else err == Some(EOF) && got == if off < |content| then |content| - off else 0
  }

  class ReaderAt {
    const reader: Stream
    const size: int
    var offset: int

    /** The recorded offset is where the stream really is. */
    ghost predicate Valid()
      reads this, reader
    {
      offset == reader.pos
    }

    constructor (reader: Stream, size: int)
      requires reader.pos == 0
      ensures Valid() && this.reader == reader && this.size == size
    {
      this.reader, this.size, this.offset := reader, size, 0;
    }

    /**
     * A nil error means the whole buffer holds the content at `off`; any other result is a
     * correct prefix of it. The stream ends where the data handed out ends.
     */
    method ReadAt(b: array<Byte>, off: int) returns (totalN: nat, err: Option<IoError>)
      requires Valid()
      modifies this`offset, reader, b
      ensures Valid()
      ensures totalN <= b.Length && (err.None? ==> totalN == b.Length)
      ensures IsSlice(b[..totalN], reader.content, off)
      ensures err == Some(EOF) ==> off + totalN >= |reader.content|
      ensures !reader.direct && err == Some(EOF) ==> totalN < b.Length
      ensures reader.direct ==> offset == old(offset)
      ensures !reader.direct && old(offset) != off && !reader.seekable ==>
                totalN == 0 && err == Some(UnsupportedOffset) && offset == old(offset)
      ensures !reader.direct && err.None? ==> offset == off + b.Length
      ensures !reader.direct && totalN > 0 ==> offset == off + totalN
      ensures reader.sound && Reachable(reader, old(offset), off) ==>
                Complete(reader.content, b.Length, off, totalN, err)
    {
      if reader.direct {
        totalN, err := reader.ReadAt(b, off);
        return;
      }
      if offset != off {
        if reader.seekable {
          var e := reader.Seek(off);
          if e.Some? {
            return 0, e;
          }
          offset := off;
        } else {
          return 0, Some(UnsupportedOffset);
        }
      }
      totalN, err := ReadFull(b);
    }

    /** The loop of `ReadAt`, from where the stream is. */
    method ReadFull(b: array<Byte>) returns (totalN: nat, err: Option<IoError>)
      requires Valid()
      modifies this`offset, reader, b
      ensures Valid()
      ensures totalN <= b.Length && (err.None? ==> totalN == b.Length)
      ensures IsSlice(b[..totalN], reader.content, old(offset))
      ensures err == Some(EOF) ==> offset >= |reader.content|
      ensures offset == old(offset) + totalN
      ensures err == Some(EOF) ==> totalN < b.Length
      ensures reader.sound ==> err.None? || err == Some(EOF)
    {
      totalN := 0;
      var off := offset;
      while totalN < b.Length
        invariant Valid() && totalN <= b.Length && offset == off + totalN
        invariant IsSlice(b[..totalN], reader.content, off)
        decreases b.Length - totalN, reader.stalls
      {
        ghost var before := b[..totalN];
        var n;
        n, err := reader.Read(b, totalN);
        SlicesJoin(before, b[totalN..totalN + n], reader.content, off);
        assert b[..totalN + n] == before + b[totalN..totalN + n];
        if err == Some(EOF) && totalN + n == b.Length {
          err := None;
        }
        offset := offset + n;
        totalN := totalN + n;
        if err.Some? {
          return;
        }
      }
      return totalN, None;
    }

    /** containerd's `content.ReadBlob` over this reader: no error means exactly the first `size` bytes. */
    method ReadBlob() returns (p: array<Byte>, err: Option<IoError>)
      requires Valid() && size >= 0
      modifies this`offset, reader
      ensures Valid() && fresh(p) && p.Length == size
      ensures err.None? && size > 0 ==> size <= |reader.content| && p[..] == reader.content[..size]
      ensures reader.sound && Reachable(reader, old(offset), 0) ==>
                (err.None? <==> size <= |reader.content|) && (err.Some? ==> err == Some(UnexpectedEOF))
    {
      p := new Byte[size];
      var n;
      n, err := ReadAt(p, 0);
      if err == Some(EOF) {
        err := if n != size then Some(UnexpectedEOF) else None;
      }
      assert n == p.Length ==> p[..n] == p[..];
    }
  }
}
