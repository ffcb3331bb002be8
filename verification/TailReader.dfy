/**
 The tail reader scans a file backwards block by block, counting line feeds,
 until it knows where the last tailCount lines start, then decodes from there.
 */
module TailReader {
  import opened Wrappers
  import opened Utf8
  import opened LineCutting
  import opened Files
  import opened LineReader
  import opened TextDecoding

  function Last<T>(ps: seq<T>, count: nat): seq<T> {
    if |ps| <= count then ps else ps[|ps| - count..]
  }

  /** The offset from which exactly the last `count` pieces of the file run to its end. */
  ghost predicate IsTailStart(content: seq<Byte>, count: nat, start: nat) {
    && start <= |content|
    && Pieces(content[start..], LF) == Last(Pieces(content, LF), count)
  }

  method FindTailStart(fh: FileHandle, tailCount: nat, blockSize: nat) returns (startOffset: nat)
    requires tailCount > 0 && fh.content != [] && blockSize > 0
    ensures IsTailStart(fh.content, tailCount, startOffset)
  {
    hide IsTailStart, CountLf;
    ghost var all := fh.content;
    var size := |fh.content|;
    var pos: nat := size;
    var foundLf := 0;
    startOffset := 0;
    var needLf := tailCount;
    var sawTailBlock := false;
    NoneCounted(all);

    while pos > 0 && foundLf < needLf
      invariant 0 <= pos <= size
      invariant sawTailBlock <==> pos < size
      invariant !sawTailBlock ==> foundLf == 0
      invariant needLf == if sawTailBlock && EndsWith(all, LF) then tailCount + 1 else tailCount
      invariant foundLf < needLf ==> foundLf == CountLf(all[pos..], LF)
      invariant foundLf < needLf || FoundAt(all, startOffset, needLf)
      decreases pos
    {
      var readSize := if blockSize < pos then blockSize else pos;
      pos := pos - readSize;
      var buf := new Byte[readSize];
      fh.ReadBlock(buf, pos);
      if !sawTailBlock {
        sawTailBlock := true;
        var endsWithNewline := buf[readSize - 1] == LF;
        assert buf[..][readSize - 1] == all[size - 1];
        needLf := if endsWithNewline then tailCount + 1 else tailCount;
      }
      foundLf, startOffset := ScanBlock(all, buf, pos, foundLf, needLf);
    }

    if foundLf < needLf {
      startOffset := 0;
      WholeFileIsTail(all, tailCount);
    } else {
      TailStartsAfter(all, tailCount, startOffset);
    }
  }

  /** Backwards through one block, up to the line feed looked for. */
  method ScanBlock(ghost all: seq<Byte>, buf: array<Byte>, pos: nat, found: nat, needLf: nat)
    returns (foundLf: nat, startOffset: nat)
    requires pos + buf.Length <= |all| && buf[..] == all[pos..pos + buf.Length]
    requires found < needLf && found == CountLf(all[pos + buf.Length..], LF)
    ensures if foundLf < needLf then foundLf == CountLf(all[pos..], LF) && startOffset == 0
            else foundLf == needLf && FoundAt(all, startOffset, needLf)
  {
    hide CountLf;
    foundLf, startOffset := found, 0;
    for i := buf.Length downto 0
      invariant foundLf < needLf && foundLf == CountLf(all[pos + i..], LF)
    {
      var byte := buf[i];
      assert buf[..][i] == all[pos + i];
      CountBackwards(all, pos + i);
      if byte != LF {
        continue;
      }
      foundLf := foundLf + 1;
      if foundLf == needLf {
        return foundLf, pos + i + 1;
      }
    }
  }

  /** start lies just after a line feed and that feed is the needLf-th from the end. */
  ghost predicate FoundAt(all: seq<Byte>, start: nat, needLf: nat) {
    && 1 <= start <= |all| && all[start - 1] == LF
    && CountLf(all[start..], LF) == needLf - 1
  }

  lemma NoneCounted(all: seq<Byte>)
    ensures CountLf(all[|all|..], LF) == 0
  {
  }

  lemma CountBackwards(all: seq<Byte>, p: nat)
    requires p < |all|
    ensures CountLf(all[p..], LF) == CountLf(all[p + 1..], LF) + if all[p] == LF then 1 else 0
  {
    assert all[p..] == [all[p]] + all[p + 1..];
    CountLfConcat([all[p]], all[p + 1..], LF);
  }

  lemma WholeFileIsTail(all: seq<Byte>, count: nat)
    requires CountLf(all[0..], LF) < if EndsWith(all, LF) then count + 1 else count
    ensures IsTailStart(all, count, 0)
  {
    assert all[0..] == all;
    PieceCount(all, LF);
  }

  lemma TailStartsAfter(all: seq<Byte>, count: nat, start: nat)
    requires count > 0
    requires FoundAt(all, start, if EndsWith(all, LF) then count + 1 else count)
    ensures IsTailStart(all, count, start)
  {
    hide Pieces;
    assert all == all[..start] + all[start..];
    PiecesConcat(all[..start], all[start..], LF);
    PieceCount(all[start..], LF);
  }

  /** Read exactly the bytes asked for, or fewer if the file ends first, however short each read is. */
  method ReadRange(fh: FileHandle, start: nat, length: nat) returns (data: seq<Byte>)
    requires start <= |fh.content|
    ensures data == fh.content[start..if start + length <= |fh.content| then start + length else |fh.content|]
  {
    var buf := new Byte[length];
    var offset := 0;
    while offset < length
      invariant offset <= length && start + offset <= |fh.content|
      invariant buf[..offset] == fh.content[start..start + offset]
    {
      var bytesRead := fh.ReadAt(buf, offset, length - offset, start + offset);
      if bytesRead == 0 {
        break;
      }
      ghost var all, from := fh.content, start + offset;
      assert all[start..from + bytesRead] == all[start..from] + all[from..from + bytesRead];
      assert buf[..offset + bytesRead] == buf[..offset] + buf[offset..offset + bytesRead];
      offset := offset + bytesRead;
    }
    data := if offset == length then buf[..] else buf[..offset];
  }

  /** What the last tailCount lines of a file are: its last pieces, decoded together and cut again. */
  ghost predicate TailYields(content: seq<Byte>, tailCount: int, decode: Decoder, lines: seq<Text>, ok: bool) {
    if tailCount <= 0 || content == [] then ok && lines == []
    else
      exists start: nat :: IsTailStart(content, tailCount, start) &&
        match decode(content[start..], start != 0)
        case None => !ok && lines == []
        case Some(text) => ok && lines == Pieces(text, 0x0A)
  }

  method ReadTailLines(fh: FileHandle, tailCount: int, blockSize: nat, decode: Decoder)
    returns (lines: seq<Text>, ok: bool)
    requires blockSize > 0
    ensures TailYields(fh.content, tailCount, decode, lines, ok)
  {
    if tailCount <= 0 || |fh.content| == 0 {
      return [], true;
    }
    hide Pieces;
    var startOffset := FindTailStart(fh, tailCount, blockSize);
    var data := ReadRange(fh, startOffset, |fh.content| - startOffset);
    assert data == fh.content[startOffset..];
    var text := decode(data, startOffset != 0);
    if text == None {
      return [], false;
    }
    lines := SplitLinesKeepingTerminator(text.value, 0x0A);
    ok := true;
  }

  /** There is only one such offset. */
  lemma TailStartIsUnique(content: seq<Byte>, count: nat, start: nat)
    requires IsTailStart(content, count, start)
    ensures content[start..] == Join(Last(Pieces(content, LF), count))
  {
    PiecesIsCut(content[start..], LF);
  }

  lemma IgnoringTail(content: seq<Byte>, tailCount: int, lines: seq<Text>, ok: bool)
    requires TailYields(content, tailCount, Ignoring, lines, ok) && tailCount > 0
    ensures ok && lines == NonEmpty(Texts(Last(Pieces(content, LF), tailCount)))
  {
    if content != [] {
      hide Pieces, Decode;
      var start: nat :| IsTailStart(content, tailCount, start) && lines == Pieces(Decode(content[start..]), 0x0A);
      CutCommutesWithDecode(content[start..]);
    }
  }

  lemma IgnoringForward(content: seq<Byte>, forward: seq<Text>, ok: bool)
    requires Yields(content, 1, Unlimited, Ignoring, forward, ok)
    ensures ok && forward == Texts(Pieces(content, LF))
  {
    hide Pieces, Decode;
  }

  /**
   The tail reader against the forward reader, errors ignored: the same last lines,
   but for empty ones. They are the same exactly when the unterminated tail of the
   file, if there is one, has a character in it.
   */
  lemma TailAgreesWithForwardReader(content: seq<Byte>, tailCount: int, lines: seq<Text>, ok: bool,
                                    forward: seq<Text>, all: bool)
    requires TailYields(content, tailCount, Ignoring, lines, ok) && tailCount > 0
    requires Yields(content, 1, Unlimited, Ignoring, forward, all)
    ensures ok && all && lines == NonEmpty(Last(forward, tailCount))
    ensures lines == Last(forward, tailCount) <==> (Rest(content, LF) != [] ==> Decode(Rest(content, LF)) != [])
  {
    hide Pieces, Decode, Rest, TailYields, Yields;
    IgnoringTail(content, tailCount, lines, ok);
    IgnoringForward(content, forward, all);
    var last := Last(forward, tailCount);
    assert last == Texts(Last(Pieces(content, LF), tailCount));
    NonEmptyKeepsAll(last);
    OnlyTailDecodesToNothing(content);
    assert forward != [] ==> last[|last| - 1] == forward[|forward| - 1];
  }

  /** On a lone continuation byte the forward reader yields an empty line and the tail reader none. */
  lemma ReadersDiffer(tailCount: int)
    requires tailCount > 0
    ensures Yields([0x80], 1, Unlimited, Ignoring, [[]], true)
    ensures TailYields([0x80], tailCount, Ignoring, [], true)
  {
    hide Pieces, Decode;
    ExtraEmptyLine();
    assert [0x80][0..] == [0x80];
    assert IsTailStart([0x80], tailCount, 0);
  }

  /** Strictly read, the tail fails exactly when one of its lines is ill-formed. */
  lemma StrictTailFails(content: seq<Byte>, tailCount: int, lines: seq<Text>, ok: bool)
    requires TailYields(content, tailCount, Strict, lines, ok) && tailCount > 0
    ensures ok <==> WellFormed(Join(Last(Pieces(content, LF), tailCount)))
  {
    if content == [] {
      assert WellFormed([]);
    } else {
      hide Pieces;
      var start: nat :| IsTailStart(content, tailCount, start) &&
        (ok <==> Strict(content[start..], start != 0) != None);
      TailStartIsUnique(content, tailCount, start);
      StrictMeaning(content[start..], start != 0);
    }
  }

  lemma {:induction false} PiecesAreWellFormed(s: seq<Byte>)
    requires WellFormed(s)
    ensures forall p :: p in Pieces(s, LF) ==> WellFormed(p)
    decreases |s|
  {
    hide Pieces, WellFormed, FirstEnd;
    NothingToCut();
    if s != [] {
      var k := FirstEnd(s);
      FirstPiece(s);
      assert s == s[..k] + s[k..];
      WellFormedConcat(s[..k], s[k..]);
      PiecesAreWellFormed(s[k..]);
    }
  }

  /** Well-formed bytes cut as their text does, piece by piece, the mark being left in place. */
  lemma WellFormedCut(s: seq<Byte>)
    requires WellFormed(s)
    ensures Pieces<Scalar>(Decode(s), 0x0A) == Texts(Pieces(s, LF))
    ensures forall p :: p in Pieces(s, LF) ==> Strict(p, true) == Some(Decode(p))
  {
    hide Pieces, WellFormed, Decode, Strict;
    CutCommutesWithDecode(s);
    PiecesAreWellFormed(s);
    PiecesIsCut(s, LF);
    var ps := Pieces(s, LF);
    forall i | 0 <= i < |ps| ensures Texts(ps)[i] != [] {
      assert ps[i] in ps;
      DecodesToSomething(ps[i]);
    }
    NonEmptyKeepsAll(Texts(ps));
    forall p | p in ps ensures Strict(p, true) == Some(Decode(p)) {
      StrictMeaning(p, true);
    }
  }

  lemma DecodesToSomething(s: seq<Byte>)
    requires WellFormed(s) && s != []
    ensures Decode(s) != []
  {
    WellFormedIffReencodes(s);
  }

  /** A file that is more than a mark cuts as its text does, the mark being lost in piece 0. */
  lemma WellFormedCutWithoutBom(s: seq<Byte>)
    requires WellFormed(s) && s != BOM && s != []
    ensures var ps, ts := Pieces(s, LF), Pieces<Scalar>(Decode(WithoutBom(s)), 0x0A);
      |ts| == |ps| && forall i :: 0 <= i < |ps| ==> Strict(ps[i], i != 0) == Some(ts[i])
  {
    hide Pieces, WellFormed, Decode, Strict, FirstEnd, CharLen, WithoutBom;
    var k := FirstEnd(s);
    var p, t := s[..k], s[k..];
    FirstPiece(s);
    BomIsInFirstPiece(s);
    assert s == p + t;
    WellFormedConcat(p, t);
    StrictMeaning(p, false);
    FirstPieceWithoutBom(s);
    var q := WithoutBom(p);
    BomIsWellFormed(p);
    DecodedPiece(q);
    DecodesToSomething(q);
    DecodeAtCleanCut(q, t);
    WellFormedCut(t);
    var ps, ts := Pieces(s, LF), Pieces<Scalar>(Decode(WithoutBom(s)), 0x0A);
    if EndsWith(p, LF) {
      PiecesConcat<Scalar>(Decode(q), Decode(t), 0x0A);
      assert ts == [Decode(q)] + Texts(Pieces(t, LF));
      forall i | 0 <= i < |ps| ensures Strict(ps[i], i != 0) == Some(ts[i]) {
        if i > 0 {
          assert ps[i] == Pieces(t, LF)[i - 1] && ps[i] in Pieces(t, LF);
        }
      }
    } else {
      assert t == [] && WithoutBom(s) == q;
      NothingToCut();
    }
  }

  /** The mark is not all of the first piece, and taking it off leaves the line feed and adds none. */
  lemma FirstPieceWithoutBom(s: seq<Byte>)
    requires s != [] && s != BOM
    ensures var p := s[..FirstEnd(s)];
      var q := WithoutBom(p);
      && q != [] && LF !in q[..|q| - 1] && (EndsWith(q, LF) <==> EndsWith(p, LF))
  {
    hide FirstEnd;
    var k := FirstEnd(s);
    var p := s[..k];
    assert p == BOM ==> p == s;
    assert p[..|p| - 1] == s[..k - 1];
  }

  lemma BomIsWellFormed(p: seq<Byte>)
    requires WellFormed(p)
    ensures WellFormed(WithoutBom(p))
  {
    if BOM <= p {
      assert IsChar(p[..3]);
      assert p == p[..3] + p[3..];
      WellFormedReads(p);
    }
  }

  lemma WellFormedReads(p: seq<Byte>)
    requires WellFormed(p) && |p| >= 3 && IsChar(p[..3])
    ensures WellFormed(p[3..])
  {
    var k :| 1 <= k <= |p| && IsChar(p[..k]) && WellFormed(p[k..]);
    CharLenUnique(p, k);
    CharLenUnique(p, 3);
  }

  /**
   Strictly read, a tail that decodes has exactly the texts the forward reader gives
   those lines, unless the whole file is a byte order mark: then the forward reader
   yields one empty line and the tail reader none.
   */
  lemma StrictTailAgreesWithForwardReader(content: seq<Byte>, tailCount: int, lines: seq<Text>)
    requires TailYields(content, tailCount, Strict, lines, true) && tailCount > 0
    ensures var ps := Pieces(content, LF);
      var from := |ps| - |Last(ps, tailCount)|;
      |lines| == |ps| - from && Decoded(ps, from, Strict, lines) <==> content != BOM
  {
    hide Pieces, Strict, WithoutBom, Decode, WellFormed;
    NothingToCut();
    if content != [] {
      var start: nat :| IsTailStart(content, tailCount, start) &&
        Strict(content[start..], start != 0) != None &&
        lines == Pieces(Strict(content[start..], start != 0).value, 0x0A);
      var suffix := content[start..];
      var ps, last := Pieces(content, LF), Last(Pieces(content, LF), tailCount);
      TailStartIsUnique(content, tailCount, start);
      StrictMeaning(suffix, start != 0);
      PiecesIsCut(content, LF);
      if start == 0 {
        assert suffix == content;
        assert last == ps;
        StrictWholeFile(content, lines);
      } else {
        assert last != ps;
        StrictSuffix(suffix, ps, lines);
        LoneBom();
      }
    }
  }

  lemma StrictWholeFile(content: seq<Byte>, lines: seq<Text>)
    requires WellFormed(content) && content != [] && lines == Pieces<Scalar>(Decode(WithoutBom(content)), 0x0A)
    ensures |lines| == |Pieces(content, LF)| && Decoded(Pieces(content, LF), 0, Strict, lines) <==> content != BOM
  {
    hide Pieces, Strict, WithoutBom, Decode, WellFormed;
    if content == BOM {
      LoneBom();
    } else {
      WellFormedCutWithoutBom(content);
    }
  }

  lemma StrictSuffix(suffix: seq<Byte>, ps: seq<seq<Byte>>, lines: seq<Text>)
    requires WellFormed(suffix) && lines == Pieces<Scalar>(Decode(suffix), 0x0A)
    requires |Pieces(suffix, LF)| < |ps| && Pieces(suffix, LF) == ps[|ps| - |Pieces(suffix, LF)|..]
    ensures |lines| == |Pieces(suffix, LF)| && Decoded(ps, |ps| - |lines|, Strict, lines)
  {
    hide Pieces, Strict, Decode, WellFormed;
    WellFormedCut(suffix);
    var last := Pieces(suffix, LF);
    forall j | 0 <= j < |lines| ensures Strict(ps[|ps| - |last| + j], true) == Some(lines[j]) {
      assert last[j] in last;
    }
  }

  lemma LoneBom()
    ensures Pieces(BOM, LF) == [BOM] && Pieces<Scalar>(Decode(WithoutBom(BOM)), 0x0A) == []
  {
    SinglePiece(BOM, LF);
    assert WithoutBom(BOM) == [];
    NothingToCut();
  }
}
