/**
 An open file: its bytes, and the position sequential reads start from. How many
 bytes one read delivers is up to the operating system, so a read picks any
 non-empty prefix of what is left.
 */
module Files {
  import opened Utf8

  const LF: Byte := 0x0A

  class FileHandle {
    const content: seq<Byte>
    var pos: nat

    constructor (content: seq<Byte>)
      ensures this.content == content && pos == 0
    {
      this.content := content;
      pos := 0;
    }

    ghost predicate Valid()
      reads this
    {
      pos <= |content|
    }

    /** A sequential read into the front of buf, overwriting what was there. */
    method Read(buf: array<Byte>) returns (n: nat)
      requires Valid() && buf.Length > 0
      modifies this`pos, buf
      ensures Valid() && n <= buf.Length && pos == old(pos) + n
      ensures n == 0 <==> old(pos) == |content|
      ensures buf[..n] == content[old(pos)..pos]
    {
      var left := |content| - pos;
      n :| 0 <= n <= left && n <= buf.Length && (n == 0 <==> left == 0) by {
        assert if left == 0 then 0 <= left else 1 <= left && 1 <= buf.Length;
      }
      forall i | 0 <= i < n {
        buf[i] := content[pos + i];
      }
      pos := pos + n;
    }

    /** A positional read of at most size bytes into buf from offset on. */
    method ReadAt(buf: array<Byte>, offset: nat, size: nat, position: nat) returns (n: nat)
      requires offset + size <= buf.Length
      modifies buf
      ensures n <= size && (n == 0 <==> size == 0 || position >= |content|)
      ensures n > 0 ==> position + n <= |content| && buf[offset..offset + n] == content[position..position + n]
      ensures buf[..offset] == old(buf[..offset])
    {
      if size == 0 || position >= |content| {
        return 0;
      }
      n :| 1 <= n <= size && position + n <= |content|;
      forall i | 0 <= i < n {
        buf[offset + i] := content[position + i];
      }
    }

    /** A positional read that fills the block, as the tail scan relies on. */
    method ReadBlock(buf: array<Byte>, position: nat)
      requires position + buf.Length <= |content|
      modifies buf
      ensures buf[..] == content[position..position + buf.Length]
    {
      forall i | 0 <= i < buf.Length {
        buf[i] := content[position + i];
      }
    }
  }
}
