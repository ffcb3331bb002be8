/**
 The streaming line reader. It reads chunks of arbitrary size into one buffer it
 keeps reusing, and carries the bytes of an unfinished line over to the next
 chunk in copies. The result is held against cutting the whole file.
 */
module LineReader {
  import opened Wrappers
  import opened Utf8
  import opened LineCutting
  import opened Files

  type Text = seq<Scalar>

  /**
   Decoding one line: bytes, and whether a byte order mark is to be left in place.
   No text stands for the error strict decoding throws.
   */
  type Decoder = (seq<Byte>, bool) -> Option<Text>

  datatype Limit = Unlimited | AtMost(lines: int)

  /** The index of the first piece asked for: line numbers below 1 mean line 1. */
  function First(startLine: int): nat {
    if startLine <= 1 then 0 else startLine - 1
  }

  /** How many of the file's pieces are asked for: a limit below 1 still lets one line through. */
  function Wanted(pieces: nat, startLine: int, limit: Limit): nat {
    var available := if pieces <= First(startLine) then 0 else pieces - First(startLine);
    match limit
    case Unlimited => available
    case AtMost(lines) =>
      var room := if lines < 1 then 1 else lines;
      if room < available then room else available
  }

  /** The texts are those of the pieces from index `from` on; only piece 0 may lose a byte order mark. */
  ghost predicate Decoded(ps: seq<seq<Byte>>, from: nat, decode: Decoder, lines: seq<Text>) {
    && (lines == [] || from + |lines| <= |ps|)
    && forall j :: 0 <= j < |lines| ==> decode(ps[from + j], from + j != 0) == Some(lines[j])
  }

  /**
   What reading lines startLine .. startLine + limit - 1 of a file yields: the
   texts of exactly those pieces, or of those before the first that has none.
   */
  ghost predicate Yields(content: seq<Byte>, startLine: int, limit: Limit, decode: Decoder,
                         lines: seq<Text>, ok: bool) {
    var ps := Pieces(content, LF);
    var from, wanted := First(startLine), Wanted(|ps|, startLine, limit);
    && Decoded(ps, from, decode, lines)
    && (if ok then |lines| == wanted
        else |lines| < wanted && decode(ps[from + |lines|], from + |lines| != 0) == None)
  }

  /** The bytes held in the carried-over copies. */
  function Held(pending: seq<array<Byte>>): seq<Byte>
    reads pending
  {
    if pending == [] then [] else Held(pending[..|pending| - 1]) + pending[|pending| - 1][..]
  }

  method CopyOf(buf: array<Byte>, lo: nat, hi: nat) returns (r: array<Byte>)
    requires lo <= hi <= buf.Length
    ensures fresh(r) && r[..] == buf[lo..hi]
  {
    r := new Byte[hi - lo];
    forall i | 0 <= i < hi - lo {
      r[i] := buf[lo + i];
    }
  }

  method ReadUtf8Lines(fh: FileHandle, chunkSize: nat, decode: Decoder, startLine: int, limit: Limit)
    returns (lines: seq<Text>, ok: bool)
    requires fh.Valid() && fh.pos == 0 && chunkSize > 0
    modifies fh
    ensures Yields(fh.content, startLine, limit, decode, lines, ok)
  {
    hide Terminated, Rest, Pieces, Held, Yields, ReadSoFar;
    var buf := new Byte[chunkSize];
    var pending: seq<array<Byte>> := [];
    var pendingOffset := 0;
    var fileOffset := 0;
    var lineNo := 1;
    lines := [];
    ghost var all := fh.content;
    NothingRead(all, startLine, limit, decode);

    while true
      invariant fh.Valid() && fh.pos == fileOffset <= |all|
      invariant fresh(buf) && fresh(pending) && buf !in pending && buf.Length == chunkSize
      invariant pending == [] <==> Held(pending) == []
      invariant pending != [] ==> pendingOffset == fileOffset - |Held(pending)|
      invariant ReadSoFar(all, fileOffset, Held(pending), lineNo, startLine, limit, decode, lines)
      decreases |all| - fileOffset
    {
      var n := fh.Read(buf);
      if n == 0 {
        break;
      }
      var lineStart, stopped;
      lines, lineNo, lineStart, ok, stopped :=
        CutChunk(all, buf, n, fileOffset, Held(pending), pendingOffset, lineNo, startLine, limit, decode, lines);
      if stopped {
        return lines, ok;
      }
      if lineStart > 0 {
        HeldNothing();
        pending := [];
      }
      if lineStart < n {
        var tail := CopyOf(buf, lineStart, n);
        if pending == [] {
          pendingOffset := fileOffset + lineStart;
        }
        HeldOneMore(pending, tail);
        pending := pending + [tail];
      } else {
        assert Held(pending) + buf[lineStart..n] == Held(pending);
      }
      fileOffset := fileOffset + n;
    }

    if pending != [] {
      if lineNo >= startLine {
        var text := decode(Held(pending), pendingOffset != 0);
        TailLine(all, Held(pending), lineNo, startLine, limit, decode, lines, text);
        if text == None {
          return lines, false;
        }
        lines := lines + [text.value];
        return lines, true;
      }
    }
    NoTailLine(all, Held(pending), lineNo, startLine, limit, decode, lines);
    return lines, true;
  }

  /**
   The inner loop: cut the n bytes just read after each line feed, the first line
   being continued from the bytes held. The result is where the still open line
   starts in the chunk, or that reading stops here.
   */
  method CutChunk(ghost all: seq<Byte>, chunk: array<Byte>, n: nat, fileOffset: nat, held: seq<Byte>, heldOffset: int,
                  lineNo0: int, startLine: int, limit: Limit, decode: Decoder, lines0: seq<Text>)
    returns (lines: seq<Text>, lineNo: int, lineStart: nat, ok: bool, stopped: bool)
    requires n <= chunk.Length && fileOffset + n <= |all| && chunk[..n] == all[fileOffset..fileOffset + n]
    requires held != [] ==> heldOffset == fileOffset - |held|
    requires ReadSoFar(all, fileOffset, held, lineNo0, startLine, limit, decode, lines0)
    ensures stopped ==> Yields(all, startLine, limit, decode, lines, ok)
    ensures !stopped ==> lineStart <= n
    ensures !stopped ==>
      ReadSoFar(all, fileOffset + n, (if lineStart == 0 then held else []) + chunk[lineStart..n],
                lineNo, startLine, limit, decode, lines)
  {
    hide Terminated, Rest, Pieces, Yields, ReadSoFar;
    var pending, pendingOffset := held, heldOffset;
    lines, lineNo, lineStart, ok, stopped := lines0, lineNo0, 0, true, false;
    ghost var open := held;
    for i := 0 to n
      invariant 0 <= lineStart <= i
      invariant pending == if lineStart == 0 then held else []
      invariant open == pending + chunk[lineStart..i]
      invariant pending != [] ==> pendingOffset == heldOffset
      invariant ReadSoFar(all, fileOffset + i, open, lineNo, startLine, limit, decode, lines)
    {
      var byte := chunk[i];
      ghost var at := fileOffset + i;
      assert chunk[..n][i] == all[at];
      assert chunk[lineStart..i + 1] == chunk[lineStart..i] + [byte];
      if byte != LF {
        OpenLineGrows(all, at, open, lineNo, startLine, limit, decode, lines);
        open := open + [byte];
        continue;
      }
      var lineOffset := if pending == [] then fileOffset + lineStart else pendingOffset;
      var line := if pending == [] then chunk[lineStart..i + 1] else pending + chunk[lineStart..i + 1];
      assert line == open + [LF] && lineOffset == at - |open|;
      lines, ok, stopped := YieldLine(all, at, open, line, lineOffset, lineNo, startLine, limit, decode, lines);
      if stopped {
        return;
      }
      pending := [];
      lineStart := i + 1;
      lineNo := lineNo + 1;
      open := [];
    }
  }

  /** A complete line: decode it if it is asked for, and stop when it fails or fills the limit. */
  method YieldLine(ghost all: seq<Byte>, ghost at: nat, ghost open: seq<Byte>, line: seq<Byte>, lineOffset: int,
                   lineNo: int, startLine: int, limit: Limit, decode: Decoder, lines0: seq<Text>)
    returns (lines: seq<Text>, ok: bool, stopped: bool)
    requires ReadSoFar(all, at, open, lineNo, startLine, limit, decode, lines0)
    requires at < |all| && all[at] == LF && line == open + [LF] && lineOffset == at - |open|
    ensures stopped ==> Yields(all, startLine, limit, decode, lines, ok)
    ensures !stopped ==> ok && ReadSoFar(all, at + 1, [], lineNo + 1, startLine, limit, decode, lines)
  {
    hide Terminated, Rest, Pieces, Yields, ReadSoFar;
    if lineNo < startLine {
      LineSkipped(all, at, open, lineNo, startLine, limit, decode, lines0);
      return lines0, true, false;
    }
    var text := decode(line, lineOffset != 0);
    LineYielded(all, at, open, lineNo, startLine, limit, decode, lines0, lineOffset, text);
    if text == None {
      return lines0, false, true;
    }
    lines := lines0 + [text.value];
    return lines, true, limit.AtMost? && |lines| >= limit.lines;
  }

  /**
   After the first p bytes of the file: `open` is the line not ended yet, the
   completed lines from the first one asked for are decoded, and there is room.
   */
  ghost predicate ReadSoFar(all: seq<Byte>, p: nat, open: seq<Byte>, lineNo: int, startLine: int, limit: Limit,
                            decode: Decoder, lines: seq<Text>) {
    && p <= |all|
    && open == Rest(all[..p], LF)
    && var done := Terminated(all[..p], LF);
    && lineNo == |done| + 1
    && |lines| == (if |done| <= First(startLine) then 0 else |done| - First(startLine))
    && Decoded(done, First(startLine), decode, lines)
    && (limit.AtMost? ==> |lines| == 0 || |lines| < limit.lines)
  }

  lemma NothingRead(all: seq<Byte>, startLine: int, limit: Limit, decode: Decoder)
    ensures Held([]) == []
    ensures ReadSoFar(all, 0, [], 1, startLine, limit, decode, [])
  {
  }

  lemma NextByte(all: seq<Byte>, p: nat)
    requires p < |all|
    ensures all[p] == LF ==>
      && Terminated(all[..p + 1], LF) == Terminated(all[..p], LF) + [Rest(all[..p], LF) + [LF]]
      && Rest(all[..p + 1], LF) == []
    ensures all[p] != LF ==>
      && Terminated(all[..p + 1], LF) == Terminated(all[..p], LF)
      && Rest(all[..p + 1], LF) == Rest(all[..p], LF) + [all[p]]
  {
    assert all[..p + 1][..p] == all[..p];
  }

  lemma HeldNothing()
    ensures Held([]) == []
  {
  }

  lemma HeldOneMore(pending: seq<array<Byte>>, tail: array<Byte>)
    ensures Held(pending + [tail]) == Held(pending) + tail[..]
  {
    assert (pending + [tail])[..|pending|] == pending;
  }

  lemma OpenLineGrows(all: seq<Byte>, p: nat, open: seq<Byte>, lineNo: int, startLine: int, limit: Limit,
                      decode: Decoder, lines: seq<Text>)
    requires ReadSoFar(all, p, open, lineNo, startLine, limit, decode, lines)
    requires p < |all| && all[p] != LF
    ensures ReadSoFar(all, p + 1, open + [all[p]], lineNo, startLine, limit, decode, lines)
  {
    hide Terminated, Rest;
    NextByte(all, p);
  }

  lemma LineSkipped(all: seq<Byte>, p: nat, open: seq<Byte>, lineNo: int, startLine: int, limit: Limit,
                    decode: Decoder, lines: seq<Text>)
    requires ReadSoFar(all, p, open, lineNo, startLine, limit, decode, lines)
    requires p < |all| && all[p] == LF && lineNo < startLine
    ensures ReadSoFar(all, p + 1, [], lineNo + 1, startLine, limit, decode, lines)
  {
    hide Terminated, Rest;
    NextByte(all, p);
  }

  lemma LineYielded(all: seq<Byte>, p: nat, open: seq<Byte>, lineNo: int, startLine: int, limit: Limit,
                    decode: Decoder, lines: seq<Text>, lineOffset: int, text: Option<Text>)
    requires ReadSoFar(all, p, open, lineNo, startLine, limit, decode, lines)
    requires p < |all| && all[p] == LF && lineNo >= startLine
    requires lineOffset == p - |open| && text == decode(open + [LF], lineOffset != 0)
    ensures text == None ==> Yields(all, startLine, limit, decode, lines, false)
    ensures text != None ==>
      var more := lines + [text.value];
      if limit.AtMost? && |more| >= limit.lines then Yields(all, startLine, limit, decode, more, true)
      else ReadSoFar(all, p + 1, [], lineNo + 1, startLine, limit, decode, more)
  {
    hide Terminated, Rest, Pieces;
    NextByte(all, p);
    OffsetZero(all[..p], LF);
    TerminatedGrows(all, p + 1, LF);
    assert Terminated(all[..p + 1], LF)[lineNo - 1] == Pieces(all, LF)[lineNo - 1] == open + [LF];
  }

  lemma TailLine(all: seq<Byte>, open: seq<Byte>, lineNo: int, startLine: int, limit: Limit,
                 decode: Decoder, lines: seq<Text>, text: Option<Text>)
    requires ReadSoFar(all, |all|, open, lineNo, startLine, limit, decode, lines)
    requires open != [] && lineNo >= startLine && text == decode(open, |all| - |open| != 0)
    ensures text == None ==> Yields(all, startLine, limit, decode, lines, false)
    ensures text != None ==> Yields(all, startLine, limit, decode, lines + [text.value], true)
  {
    hide Terminated, Rest;
    assert all[..|all|] == all;
    OffsetZero(all, LF);
  }

  lemma NoTailLine(all: seq<Byte>, open: seq<Byte>, lineNo: int, startLine: int, limit: Limit,
                   decode: Decoder, lines: seq<Text>)
    requires ReadSoFar(all, |all|, open, lineNo, startLine, limit, decode, lines)
    requires open == [] || lineNo < startLine
    ensures Yields(all, startLine, limit, decode, lines, true)
  {
    hide Terminated, Rest;
    assert all[..|all|] == all;
  }

  // Reading a part of the lines.

  /** Lines startLine to startLine + count - 1, as far as there are any; lines are numbered from 1. */
  function Lines<T>(all: seq<T>, startLine: nat, count: nat): seq<T>
    requires startLine >= 1
  {
    if |all| < startLine then []
    else if |all| < startLine - 1 + count then all[startLine - 1..]
    else all[startLine - 1..startLine - 1 + count]
  }

  lemma EveryPieceDecodes(content: seq<Byte>, decode: Decoder, all: seq<Text>)
    requires Yields(content, 1, Unlimited, decode, all, true)
    ensures |all| == |Pieces(content, LF)|
    ensures forall k :: 0 <= k < |all| ==> decode(Pieces(content, LF)[k], k != 0) == Some(all[k])
  {
    hide Pieces;
    var ps := Pieces(content, LF);
    forall k | 0 <= k < |all| ensures decode(ps[k], k != 0) == Some(all[k]) {
      assert decode(ps[0 + k], 0 + k != 0) == Some(all[k]);
    }
  }

  lemma FromThere(content: seq<Byte>, decode: Decoder, all: seq<Text>, startLine: int, limit: Limit,
                  lines: seq<Text>, ok: bool)
    requires Yields(content, 1, Unlimited, decode, all, true) && Yields(content, startLine, limit, decode, lines, ok)
    ensures ok && |lines| == Wanted(|all|, startLine, limit)
    ensures lines != [] ==> First(startLine) + |lines| <= |all|
    ensures forall j :: 0 <= j < |lines| ==> lines[j] == all[First(startLine) + j]
  {
    EveryPieceDecodes(content, decode, all);
    WantedFits(|all|, startLine, limit);
    hide Pieces, Wanted, First;
  }

  lemma WantedFits(n: nat, startLine: int, limit: Limit)
    ensures Wanted(n, startLine, limit) > 0 ==> First(startLine) + Wanted(n, startLine, limit) <= n
  {
  }

  /** Whoever asks for some of the lines of a file gets exactly those of all its lines. */
  lemma PartIsSlice(content: seq<Byte>, decode: Decoder, all: seq<Text>, startLine: nat, count: nat,
                    lines: seq<Text>, ok: bool)
    requires Yields(content, 1, Unlimited, decode, all, true)
    requires startLine >= 1 && count >= 1 && Yields(content, startLine, AtMost(count), decode, lines, ok)
    ensures ok && lines == Lines(all, startLine, count)
  {
    FromThere(content, decode, all, startLine, AtMost(count), lines, ok);
    hide Yields;
  }

  /** Without a limit, or from a line below 1, the rest: the start counts as line 1. */
  lemma RestIsSlice(content: seq<Byte>, decode: Decoder, all: seq<Text>, startLine: int, lines: seq<Text>, ok: bool)
    requires Yields(content, 1, Unlimited, decode, all, true)
    requires Yields(content, startLine, Unlimited, decode, lines, ok)
    ensures ok && lines == if startLine <= 1 then all else if |all| < startLine then [] else all[startLine - 1..]
  {
    FromThere(content, decode, all, startLine, Unlimited, lines, ok);
    hide Yields;
  }

  /** A limit below 1 acts as 1. */
  lemma LimitIsAtLeastOne(content: seq<Byte>, decode: Decoder, startLine: int, limit: int, lines: seq<Text>, ok: bool)
    requires limit < 1
    ensures Yields(content, startLine, AtMost(limit), decode, lines, ok) <==>
      Yields(content, startLine, AtMost(1), decode, lines, ok)
  {
  }
}
