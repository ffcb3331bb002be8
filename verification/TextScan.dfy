/**
 The text scan: one pass in chunks that counts lines, classifies line endings
 across chunk boundaries, looks for NUL and validates UTF-8.
 */
module TextScan {
  import opened Utf8
  import opened LineCutting
  import opened Files
  import LineReader
  import TextDecoding
  import V = Utf8Validator

  const CR: Byte := 0x0D

  datatype Flags = Flags(hasCrLf: bool, hasLf: bool, hasLoneCr: bool)
  datatype Scan = Scan(totalLines: nat, endsWithNewline: bool, hasNul: bool, flags: Flags)
  /** Invalid stands for the thrown 'Invalid UTF-8 data'. */
  datatype Result = Scanned(scan: Scan) | Invalid

  // What the flags mean for a whole file.

  ghost predicate HasCrLf(s: seq<Byte>) {
    exists i :: 0 <= i < |s| - 1 && s[i] == CR && s[i + 1] == LF
  }

  ghost predicate HasBareLf(s: seq<Byte>) {
    exists i :: 0 <= i < |s| && s[i] == LF && (i == 0 || s[i - 1] != CR)
  }

  ghost predicate HasLoneCr(s: seq<Byte>) {
    exists i :: 0 <= i < |s| && s[i] == CR && (i == |s| - 1 || s[i + 1] != LF)
  }

  /** A lone CR that what follows cannot turn into half of a CR LF. */
  ghost predicate HasSettledLoneCr(s: seq<Byte>) {
    exists i :: 0 <= i < |s| - 1 && s[i] == CR && s[i + 1] != LF
  }

  class LineEndingFlags {
    var hasCrLf: bool
    var hasLf: bool
    var hasLoneCr: bool

    constructor ()
      ensures !hasCrLf && !hasLf && !hasLoneCr
    {
      hasCrLf, hasLf, hasLoneCr := false, false, false;
    }

    /** The flags say of the bytes s what can be said without seeing what follows a final CR. */
    ghost predicate Describes(s: seq<Byte>)
      reads this
    {
      && (hasCrLf <==> HasCrLf(s))
      && (hasLf <==> HasBareLf(s))
      && (hasLoneCr <==> HasSettledLoneCr(s))
    }
  }

  method UpdateLineEndingFlagsFromBytes(flags: LineEndingFlags, chunk: array<Byte>, n: nat, prevWasCr0: bool,
                                        ghost before: seq<Byte>)
    returns (prevWasCr: bool)
    requires n <= chunk.Length
    requires flags.Describes(before) && (prevWasCr0 <==> EndsWith(before, CR))
    modifies flags
    ensures flags.Describes(before + chunk[..n])
    ensures prevWasCr <==> EndsWith(before + chunk[..n], CR)
  {
    prevWasCr := prevWasCr0;
    assert before + chunk[..0] == before;
    for i := 0 to n
      invariant flags.Describes(before + chunk[..i])
      invariant prevWasCr <==> EndsWith(before + chunk[..i], CR)
    {
      var byte := chunk[i];
      ghost var s := before + chunk[..i];
      assert before + chunk[..i + 1] == s + [byte];
      OneMoreByte(s, byte);
      if byte == CR {
        if prevWasCr {
          flags.hasLoneCr := true;
        }
        prevWasCr := true;
      } else if byte == LF {
        if prevWasCr {
          flags.hasCrLf := true;
        } else {
          flags.hasLf := true;
        }
        prevWasCr := false;
      } else {
        if prevWasCr {
          flags.hasLoneCr := true;
        }
        prevWasCr := false;
      }
    }
  }

  /** A byte settles the fate of a CR right before it, and of nothing else. */
  lemma OneMoreByte(s: seq<Byte>, b: Byte)
    ensures HasCrLf(s + [b]) <==> HasCrLf(s) || (b == LF && EndsWith(s, CR))
    ensures HasBareLf(s + [b]) <==> HasBareLf(s) || (b == LF && !EndsWith(s, CR))
    ensures HasSettledLoneCr(s + [b]) <==> HasSettledLoneCr(s) || (b != LF && EndsWith(s, CR))
  {
    var t := s + [b];
    assert forall i :: 0 <= i < |s| ==> t[i] == s[i];
    if EndsWith(s, CR) {
      assert t[|s| - 1] == CR && t[|s|] == b;
    }
    if b == LF {
      assert t[|s|] == LF;
    }
  }

  lemma LoneCrAtEnd(s: seq<Byte>)
    ensures HasLoneCr(s) <==> HasSettledLoneCr(s) || EndsWith(s, CR)
  {
    if EndsWith(s, CR) {
      assert s[|s| - 1] == CR;
    }
  }

  /** What the scan of a well-formed file must report. */
  ghost predicate Reports(content: seq<Byte>, scan: Scan) {
    && scan.totalLines == |Pieces(content, LF)|
    && (scan.endsWithNewline <==> EndsWith(content, LF))
    && (scan.hasNul <==> 0 in content)
    && (scan.flags.hasCrLf <==> HasCrLf(content))
    && (scan.flags.hasLf <==> HasBareLf(content))
    && (scan.flags.hasLoneCr <==> HasLoneCr(content))
  }

  method ScanTextFile(fh: FileHandle, chunkSize: nat) returns (r: Result)
    requires fh.Valid() && fh.pos == 0 && chunkSize > 0
    modifies fh
    ensures r.Scanned? <==> WellFormed(fh.content)
    ensures r.Scanned? ==> Reports(fh.content, r.scan)
  {
    hide WellFormed, V.Run, CountLf, HasCrLf, HasBareLf, HasSettledLoneCr, HasLoneCr, Pieces, EndsWith;
    var buf := new Byte[chunkSize];
    var flags := new LineEndingFlags();
    var validator := new V.Validator();
    var totalLines, totalBytes := 0, 0;
    var endsWithNewline, hasNul, prevWasCr := false, false, false;
    ghost var all := fh.content;
    NothingSeen(all, flags);

    while true
      invariant fh.Valid() && fh.pos == totalBytes <= |all|
      invariant fresh(buf) && fresh(flags) && fresh(validator) && buf.Length == chunkSize
      invariant validator.Valid() && validator.seen == all[..totalBytes]
      invariant totalLines == CountLf(all[..totalBytes], LF)
      invariant hasNul <==> 0 in all[..totalBytes]
      invariant endsWithNewline <==> EndsWith(all[..totalBytes], LF)
      invariant flags.Describes(all[..totalBytes]) && (prevWasCr <==> EndsWith(all[..totalBytes], CR))
      decreases |all| - totalBytes
    {
      var bytesRead := fh.Read(buf);
      if bytesRead == 0 {
        break;
      }
      ghost var before := all[..totalBytes];
      assert before + buf[..bytesRead] == all[..totalBytes + bytesRead];
      LastByteRead(before, buf, bytesRead);
      var ok := validator.Write(buf, bytesRead);
      if !ok {
        RejectedPrefix(all, totalBytes + bytesRead);
        return Invalid;
      }
      hasNul, totalLines := CountChunk(buf, bytesRead, hasNul, totalLines, before);
      prevWasCr := UpdateLineEndingFlagsFromBytes(flags, buf, bytesRead, prevWasCr, before);
      totalBytes := totalBytes + bytesRead;
      endsWithNewline := buf[bytesRead - 1] == LF;
    }

    assert all[..totalBytes] == all;
    LoneCrAtEnd(all);
    PieceCount(all, LF);
    if prevWasCr {
      flags.hasLoneCr := true;
    }
    var ok := validator.End();
    if !ok {
      return Invalid;
    }
    if totalBytes > 0 && !endsWithNewline {
      totalLines := totalLines + 1;
    }
    r := Scanned(Scan(totalLines, endsWithNewline, hasNul, Flags(flags.hasCrLf, flags.hasLf, flags.hasLoneCr)));
  }

  method CountChunk(chunk: array<Byte>, n: nat, hasNul0: bool, totalLines0: nat, ghost before: seq<Byte>)
    returns (hasNul: bool, totalLines: nat)
    requires n <= chunk.Length && (hasNul0 <==> 0 in before) && totalLines0 == CountLf(before, LF)
    ensures hasNul <==> 0 in before + chunk[..n]
    ensures totalLines == CountLf(before + chunk[..n], LF)
  {
    hasNul, totalLines := hasNul0, totalLines0;
    assert before + chunk[..0] == before;
    for i := 0 to n
      invariant hasNul <==> 0 in before + chunk[..i]
      invariant totalLines == CountLf(before + chunk[..i], LF)
    {
      var byte := chunk[i];
      ghost var s := before + chunk[..i];
      assert before + chunk[..i + 1] == s + [byte] && (s + [byte])[..|s|] == s;
      if byte == 0 {
        hasNul := true;
      }
      if byte == LF {
        totalLines := totalLines + 1;
      }
    }
  }

  lemma NothingSeen(all: seq<Byte>, flags: LineEndingFlags)
    requires !flags.hasCrLf && !flags.hasLf && !flags.hasLoneCr
    ensures !EndsWith<Byte>([], LF) && !EndsWith<Byte>([], CR)
    ensures all[..0] == [] && CountLf<Byte>([], LF) == 0 && flags.Describes([])
  {
  }

  lemma LastByteRead(before: seq<Byte>, buf: array<Byte>, n: nat)
    requires 0 < n <= buf.Length
    ensures EndsWith(before + buf[..n], LF) <==> buf[n - 1] == LF
  {
  }

  lemma RejectedPrefix(all: seq<Byte>, p: nat)
    requires p <= |all| && V.Run(V.Start, all[..p]).Failed?
    ensures !WellFormed(all)
  {
    assert all == all[..p] + all[p..];
    V.RunConcat(V.Start, all[..p], all[p..]);
    V.AcceptsIffWellFormed(all);
  }

  /**
   Scan and strict reader of the same file agree: one succeeds exactly when the other
   does, and then the count the scan reports is the number of lines the reader yields.
   */
  lemma ScanAgreesWithStrictReader(content: seq<Byte>, r: Result, lines: seq<LineReader.Text>, ok: bool)
    requires r.Scanned? <==> WellFormed(content)
    requires r.Scanned? ==> Reports(content, r.scan)
    requires LineReader.Yields(content, 1, LineReader.Unlimited, TextDecoding.Strict, lines, ok)
    ensures r.Scanned? <==> ok
    ensures ok ==> r.scan.totalLines == |lines|
  {
    hide Pieces;
    TextDecoding.StrictReaderAgreesWithReadText(content, lines, ok);
  }
}
