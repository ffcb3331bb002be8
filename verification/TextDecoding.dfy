/**
 Decoding whole files and decoding them line by line must tell the same story.
 Strict decoding throws on ill-formed input and drops a leading byte order mark
 unless told to leave it; ignoring decoding is the lossy decoder, which never
 looks for a mark.
 */
module TextDecoding {
  import opened Wrappers
  import opened Utf8
  import opened LineCutting
  import opened Files
  import opened LineReader

  const BOM: seq<Byte> := [0xEF, 0xBB, 0xBF]

  function WithoutBom(data: seq<Byte>): seq<Byte> {
    if BOM <= data then data[3..] else data
  }

  /** TextDecoder with fatal set, as the Encoding Standard defines it for UTF-8. */
  function Strict(data: seq<Byte>, ignoreBom: bool): Option<Text> {
    if EncodeAll(Decode(data)) == data then Some(Decode(if ignoreBom then data else WithoutBom(data))) else None
  }

  function Ignoring(data: seq<Byte>, ignoreBom: bool): Option<Text> {
    Some(Decode(data))
  }

  function Texts(ps: seq<seq<Byte>>): seq<Text> {
    seq(|ps|, i requires 0 <= i < |ps| => Decode(ps[i]))
  }

  function NonEmpty(ts: seq<Text>): seq<Text> {
    if ts == [] then [] else (if ts[0] == [] then [] else [ts[0]]) + NonEmpty(ts[1..])
  }

  /** Where the first piece ends: after the first line feed, or at the end. */
  function FirstEnd(s: seq<Byte>): (k: nat)
    requires s != []
    ensures 1 <= k <= |s| && LF !in s[..k - 1] && (k == |s| || s[k - 1] == LF)
  {
    if s[0] == LF || |s| == 1 then 1 else 1 + FirstEnd(s[1..])
  }

  /** Taking the first piece off leaves the other pieces; the cut between them splits no character. */
  lemma {:induction false} FirstPiece(s: seq<Byte>)
    requires s != []
    ensures var k := FirstEnd(s);
      && Pieces(s, LF) == [s[..k]] + Pieces(s[k..], LF)
      && CleanCut(s[..k], s[k..]) && (s[k..] == [] || EndsWith(s[..k], LF))
  {
    var k := FirstEnd(s);
    assert s[..k][..k - 1] == s[..k - 1];
    SinglePiece(s[..k], LF);
    assert s == s[..k] + s[k..];
    if k < |s| {
      PiecesConcat(s[..k], s[k..], LF);
    } else {
      assert s[k..] == [] && s[..k] == s;
    }
  }

  lemma {:induction false} NoLfDecoded(s: seq<Byte>)
    requires LF !in s
    ensures LF !in Decode(s)
    decreases |s|
  {
    if s != [] {
      var n := CharLen(s);
      if n == 0 {
        NoLfDecoded(s[1..]);
      } else {
        NoLfDecoded(s[n..]);
        EncodeScalarOf(s[..n]);
        assert s[..n][0] == s[0];
        assert Decode(s) == [ScalarOf(s[..n])] + Decode(s[n..]);
      }
    }
  }

  /** A piece keeps its line feed, and gains none, when it is decoded. */
  lemma DecodedPiece(p: seq<Byte>)
    requires p != [] && LF !in p[..|p| - 1]
    ensures EndsWith(p, LF) ==> Decode(p) == Decode(p[..|p| - 1]) + [LF]
    ensures EndsWith(p, LF) ==> Pieces<Scalar>(Decode(p), 0x0A) == [Decode(p)]
    ensures !EndsWith(p, LF) ==> Pieces<Scalar>(Decode(p), 0x0A) == NonEmpty([Decode(p)])
  {
    var body := p[..|p| - 1];
    assert p == body + [p[|p| - 1]];
    if EndsWith(p, LF) {
      DecodeAtCleanCut(body, [LF]);
      CharsPrepend([LF], []);
      assert [LF] + [] == [LF];
      NoLfDecoded(body);
      assert Decode(p)[..|Decode(p)| - 1] == Decode(body);
      SinglePiece<Scalar>(Decode(p), 0x0A);
    } else {
      NoLfDecoded(p);
      NoLfNoCut<Scalar>(Decode(p), 0x0A);
    }
  }

  lemma NothingToCut()
    ensures Decode([]) == [] && WellFormed([]) && Pieces<Byte>([], LF) == [] && Pieces<Scalar>([], 0x0A) == []
  {
  }

  /** Cutting and lossy decoding commute, but for a tail that decodes to nothing. */
  lemma {:induction false} CutCommutesWithDecode(s: seq<Byte>)
    ensures Pieces<Scalar>(Decode(s), 0x0A) == NonEmpty(Texts(Pieces(s, LF)))
    decreases |s|
  {
    hide Decode, Pieces;
    NothingToCut();
    if s != [] {
      var k := FirstEnd(s);
      var p, t := s[..k], s[k..];
      FirstPiece(s);
      assert s == p + t && p[..|p| - 1] == s[..k - 1];
      DecodedPiece(p);
      DecodeAtCleanCut(p, t);
      var ts := Texts(Pieces(s, LF));
      assert ts[1..] == Texts(Pieces(t, LF));
      if EndsWith(p, LF) {
        CutCommutesWithDecode(t);
        PiecesConcat<Scalar>(Decode(p), Decode(t), 0x0A);
      } else {
        assert t == [] && s == p;
        assert ts == [Decode(p)];
      }
    }
  }

  lemma {:induction false} NonEmptyKeepsAll(ts: seq<Text>)
    ensures NonEmpty(ts) == ts <==> forall i :: 0 <= i < |ts| ==> ts[i] != []
    ensures |NonEmpty(ts)| <= |ts|
  {
    if ts != [] {
      NonEmptyKeepsAll(ts[1..]);
      if ts[0] == [] {
        assert |NonEmpty(ts)| < |ts|;
      } else if NonEmpty(ts) == ts {
        assert NonEmpty(ts)[1..] == ts[1..];
        forall i | 0 <= i < |ts| ensures ts[i] != [] {
          assert i > 0 ==> ts[i] == ts[1..][i - 1];
        }
      } else {
        assert ts == [ts[0]] + ts[1..];
        var j :| 0 <= j < |ts[1..]| && ts[1..][j] == [];
        assert ts[j + 1] == [];
      }
    }
  }

  /** Of all pieces only the unterminated tail can have no character in it. */
  lemma OnlyTailDecodesToNothing(s: seq<Byte>)
    ensures var ts := Texts(Pieces(s, LF));
      forall i :: 0 <= i < |ts| && ts[i] == [] ==> i == |ts| - 1 && Rest(s, LF) != [] && Decode(Rest(s, LF)) == []
    ensures Rest(s, LF) != [] ==>
      var ts := Texts(Pieces(s, LF)); ts != [] && ts[|ts| - 1] == Decode(Rest(s, LF))
  {
    hide Terminated, Rest, Decode;
    TerminatedShape(s, LF);
    var ps, ts := Pieces(s, LF), Texts(Pieces(s, LF));
    forall i | 0 <= i < |Terminated(s, LF)| ensures ts[i] != [] {
      assert IsTerminatedPiece(ps[i], LF);
      DecodedPiece(ps[i]);
    }
  }

  /**
   Reading line by line with errors ignored gives the lines of the decoded text,
   except for exactly one kind of file: one whose unterminated tail has no
   character in it, for which an extra empty line is yielded.
   */
  lemma IgnoringLinesAreLinesOfText(s: seq<Byte>)
    ensures Texts(Pieces(s, LF)) == Pieces<Scalar>(Decode(s), 0x0A)
       <==> (Rest(s, LF) != [] ==> Decode(Rest(s, LF)) != [])
  {
    hide Pieces, Rest, Decode;
    CutCommutesWithDecode(s);
    NonEmptyKeepsAll(Texts(Pieces(s, LF)));
    OnlyTailDecodesToNothing(s);
  }

  /** A lone continuation byte is such a file: one line for the reader, none in the text. */
  lemma ExtraEmptyLine()
    ensures Texts(Pieces([0x80], LF)) == [[]] && Pieces<Scalar>(Decode([0x80]), 0x0A) == []
  {
  }

  /** The mark sits inside the first piece or nowhere, so stripping it there is stripping it from the file. */
  lemma BomIsInFirstPiece(s: seq<Byte>)
    requires s != []
    ensures var k := FirstEnd(s);
      && WithoutBom(s) == WithoutBom(s[..k]) + s[k..]
      && CleanCut(WithoutBom(s[..k]), s[k..])
  {
    hide Pieces, Terminated, Rest, FirstEnd;
    var k := FirstEnd(s);
    FirstPiece(s);
    var p := s[..k];
    assert s == p + s[k..];
    if |s| >= 3 && s[0] == 0xEF && s[1] == 0xBB && s[2] == 0xBF {
      assert k >= 3;
      assert p[0] == 0xEF && p[1] == 0xBB && p[2] == 0xBF;
      assert s[3..] == p[3..] + s[k..];
    }
  }

  /** The texts strict decoding gives the pieces from index `from` on; only piece 0 may lose a mark. */
  function StrictTexts(ps: seq<seq<Byte>>, from: nat): seq<Option<Text>> {
    seq(|ps|, i requires 0 <= i < |ps| => Strict(ps[i], from + i != 0))
  }

  function Values(ts: seq<Option<Text>>): Option<Text> {
    if ts == [] then Some([])
    else match (ts[0], Values(ts[1..]))
      case (Some(a), Some(b)) => Some(a + b)
      case _ => None
  }

  lemma StrictMeaning(data: seq<Byte>, ignoreBom: bool)
    ensures Strict(data, ignoreBom) ==
      if WellFormed(data) then Some(Decode(if ignoreBom then data else WithoutBom(data))) else None
  {
    WellFormedIffReencodes(data);
  }

  lemma {:induction false} StrictTail(s: seq<Byte>, from: nat)
    requires from > 0
    ensures Values(StrictTexts(Pieces(s, LF), from)) == Strict(s, true)
    decreases |s|
  {
    hide Pieces, Decode, WellFormed, Strict, FirstEnd, EndsWith;
    NothingToCut();
    StrictMeaning(s, true);
    if s != [] {
      var k := FirstEnd(s);
      FirstPiece(s);
      assert s == s[..k] + s[k..];
      StrictTail(s[k..], from + 1);
      StrictMeaning(s[..k], true);
      StrictMeaning(s[k..], true);
      WellFormedConcat(s[..k], s[k..]);
      DecodeAtCleanCut(s[..k], s[k..]);
      assert StrictTexts(Pieces(s, LF), from)[1..] == StrictTexts(Pieces(s[k..], LF), from + 1);
    }
  }

  lemma NothingToRead()
    ensures Pieces<Byte>([], LF) == [] && Strict([], false) == Some([])
  {
  }

  /** Strict decoding line by line joins up to strict decoding of the file, errors included. */
  lemma StrictLinesJoinToText(s: seq<Byte>)
    ensures Values(StrictTexts(Pieces(s, LF), 0)) == Strict(s, false)
  {
    hide Pieces, Decode, WellFormed, WithoutBom, FirstEnd, EndsWith;
    if s == [] {
      NothingToRead();
    } else {
      hide Strict;
      var k := FirstEnd(s);
      FirstPiece(s);
      assert s == s[..k] + s[k..];
      StrictTail(s[k..], 1);
      StrictMeaning(s, false);
      StrictMeaning(s[..k], false);
      StrictMeaning(s[k..], true);
      WellFormedConcat(s[..k], s[k..]);
      BomIsInFirstPiece(s);
      DecodeAtCleanCut(WithoutBom(s[..k]), s[k..]);
      assert StrictTexts(Pieces(s, LF), 0)[1..] == StrictTexts(Pieces(s[k..], LF), 1);
    }
  }

  lemma {:induction false} ValuesOfAll(ts: seq<Option<Text>>, lines: seq<Text>)
    requires |lines| <= |ts| && forall j :: 0 <= j < |lines| ==> ts[j] == Some(lines[j])
    ensures |lines| == |ts| ==> Values(ts) == Some(Concat(lines))
    ensures |lines| < |ts| && ts[|lines|] == None ==> Values(ts) == None
  {
    if lines != [] {
      ValuesOfAll(ts[1..], lines[1..]);
    }
  }

  function Concat(lines: seq<Text>): Text {
    if lines == [] then [] else lines[0] + Concat(lines[1..])
  }

  /**
   readLines against readText, strict: the reader gets through every line exactly
   when the file is well-formed, and its lines are then the text readText returns.
   */
  lemma StrictReaderAgreesWithReadText(content: seq<Byte>, lines: seq<Text>, ok: bool)
    requires Yields(content, 1, Unlimited, Strict, lines, ok)
    ensures ok <==> WellFormed(content)
    ensures ok ==> Strict(content, false) == Some(Concat(lines))
  {
    ValuesOfAll(StrictTexts(Pieces(content, LF), 0), lines);
    StrictLinesJoinToText(content);
    StrictMeaning(content, false);
  }
}
