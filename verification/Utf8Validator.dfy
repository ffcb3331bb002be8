/**
 The streaming UTF-8 validator: an object with three counters that is fed a file
 chunk by chunk. The theorems say that however the bytes are cut into chunks it
 accepts exactly the well-formed strings, and that it fails at the first byte
 after which no continuation could be well-formed.
 */
module Utf8Validator {
  import opened Utf8

  /** How many tail bytes are still owed, and the range the next one must lie in. */
  datatype State = State(needed: nat, lower: int, upper: int)

  const Start := State(0, 0x80, 0xBF)

  datatype Verdict = Running(state: State) | Failed

  /** One byte through the branches of write. */
  function Step(st: State, b: Byte): Verdict {
    if st.needed == 0 then
      if b <= 0x7F then Running(st)
      else if 0xC2 <= b <= 0xDF then Running(st.(needed := 1))
      else if b == 0xE0 then Running(st.(needed := 2, lower := 0xA0))
      else if 0xE1 <= b <= 0xEC then Running(st.(needed := 2))
      else if b == 0xED then Running(st.(needed := 2, upper := 0x9F))
      else if 0xEE <= b <= 0xEF then Running(st.(needed := 2))
      else if b == 0xF0 then Running(st.(needed := 3, lower := 0x90))
      else if 0xF1 <= b <= 0xF3 then Running(st.(needed := 3))
      else if b == 0xF4 then Running(st.(needed := 3, upper := 0x8F))
      else Failed
    else if b < st.lower || b > st.upper then Failed
    else Running(State(st.needed - 1, 0x80, 0xBF))
  }

  function Run(st: State, s: seq<Byte>): Verdict
    decreases |s|
  {
    if s == [] then Running(st)
    else match Step(st, s[0])
      case Failed => Failed
      case Running(next) => Run(next, s[1..])
  }

  /** Byte k of the chunk is the first the validator rejects. */
  ghost predicate FailsAt(before: seq<Byte>, chunk: seq<Byte>, k: nat)
    requires k < |chunk|
  {
    && Run(Start, before + chunk[..k]).Running?
    && Run(Start, before + chunk[..k + 1]).Failed?
  }

  class Validator {
    var needed: nat
    var lower: int
    var upper: int
    /** Every byte accepted so far, over all chunks. */
    ghost var seen: seq<Byte>

    ghost predicate Valid()
      reads this
    {
      Run(Start, seen) == Running(State(needed, lower, upper))
    }

    constructor ()
      ensures Valid() && seen == []
    {
      needed, lower, upper := 0, 0x80, 0xBF;
      seen := [];
    }

    /**
     Feed the first n bytes of chunk. A false answer is the thrown TypeError; the
     bytes up to and including the offending one are then beyond repair.
     */
    method Write(chunk: array<Byte>, n: nat) returns (ok: bool)
      requires Valid() && n <= chunk.Length
      modifies this
      ensures ok ==> Valid() && seen == old(seen) + chunk[..n]
      ensures ok <==> Run(Start, old(seen) + chunk[..n]).Running?
      ensures !ok ==> exists k :: 0 <= k < n && FailsAt(old(seen), chunk[..n], k)
    {
      assert chunk[..0] == [];
      assert seen + chunk[..0] == seen;
      var i := 0;
      while i < n
        invariant 0 <= i <= n && Valid()
        invariant seen == old(seen) + chunk[..i]
      {
        var byte := chunk[i];
        RunSnoc(Start, seen, byte);
        assert seen + [byte] == old(seen) + chunk[..i + 1];
        if needed == 0 {
          if byte <= 0x7F {
          } else if 0xC2 <= byte <= 0xDF {
            needed := 1;
          } else if byte == 0xE0 {
            needed, lower := 2, 0xA0;
          } else if 0xE1 <= byte <= 0xEC {
            needed := 2;
          } else if byte == 0xED {
            needed, upper := 2, 0x9F;
          } else if 0xEE <= byte <= 0xEF {
            needed := 2;
          } else if byte == 0xF0 {
            needed, lower := 3, 0x90;
          } else if 0xF1 <= byte <= 0xF3 {
            needed := 3;
          } else if byte == 0xF4 {
            needed, upper := 3, 0x8F;
          } else {
            FailedStaysFailed(chunk, old(seen), i, n);
            return false;
          }
        } else {
          if byte < lower || byte > upper {
            FailedStaysFailed(chunk, old(seen), i, n);
            return false;
          }
          lower, upper := 0x80, 0xBF;
          needed := needed - 1;
        }
        seen := seen + [byte];
        i := i + 1;
      }
      return true;
    }

    /** False is the thrown TypeError for a file that stops inside a character. */
    method End() returns (ok: bool)
      requires Valid()
      ensures ok <==> WellFormed(seen)
    {
      AcceptsIffWellFormed(seen);
      RunShape(seen);
      return needed == 0;
    }
  }

  lemma FailedStaysFailed(chunk: array<Byte>, before: seq<Byte>, i: nat, n: nat)
    requires i < n <= chunk.Length
    requires Run(Start, before + chunk[..i]).Running? && Run(Start, before + chunk[..i + 1]).Failed?
    ensures Run(Start, before + chunk[..n]).Failed?
    ensures FailsAt(before, chunk[..n], i)
  {
    assert chunk[..n][..i] == chunk[..i] && chunk[..n][..i + 1] == chunk[..i + 1];
    assert before + chunk[..n] == (before + chunk[..i + 1]) + chunk[i + 1..n];
    RunConcat(Start, before + chunk[..i + 1], chunk[i + 1..n]);
  }

  /** Chunk boundaries leave no trace: a run over two chunks is the run over their concatenation. */
  lemma {:induction false} RunConcat(st: State, x: seq<Byte>, y: seq<Byte>)
    ensures Run(st, x + y) == match Run(st, x) case Failed => Failed case Running(mid) => Run(mid, y)
    decreases |x|
  {
    if x == [] {
      assert x + y == y;
    } else {
      assert (x + y)[1..] == x[1..] + y;
      match Step(st, x[0])
      case Failed =>
      case Running(next) => RunConcat(next, x[1..], y);
    }
  }

  lemma RunSnoc(st: State, x: seq<Byte>, b: Byte)
    ensures Run(st, x + [b]) == match Run(st, x) case Failed => Failed case Running(mid) => Step(mid, b)
  {
    RunConcat(st, x, [b]);
  }

  /** The states a run can be in: at rest, or inside a character with a legal range. */
  ghost predicate Reachable(st: State) {
    && st.needed <= 3 && 0x80 <= st.lower <= st.upper <= 0xBF
    && (st.needed == 0 ==> st == Start)
  }

  lemma {:induction false} RunShape(s: seq<Byte>)
    ensures Run(Start, s).Running? ==> Reachable(Run(Start, s).state)
  {
    if s != [] {
      var last := |s| - 1;
      RunShape(s[..last]);
      RunSnoc(Start, s[..last], s[last]);
      assert s == s[..last] + [s[last]];
    }
  }

  /** Two steps of a run, spelled out. */
  lemma RunTwo(st: State, s: seq<Byte>)
    requires s != []
    ensures Run(st, s) == match Step(st, s[0]) case Failed => Failed case Running(next) => Run(next, s[1..])
    ensures |s| == 1 ==> Run(st, s) == Step(st, s[0])
    ensures |s| > 1 ==> s[1..][0] == s[1] && s[1..][1..] == s[2..]
  {
  }

  lemma {:induction false} RunOverChar(c: Char)
    ensures Run(Start, c) == Running(Start)
  {
    RunTwo(Start, c);
    if |c| > 1 {
      var v1 := Step(Start, c[0]);
      RunTwo(v1.state, c[1..]);
      if |c| > 2 {
        RunTail(State(|c| - 2, 0x80, 0xBF), c[2..]);
      }
    }
  }

  lemma {:induction false} RunTail(st: State, s: seq<Byte>)
    requires 1 <= |s| <= 2 && st == State(|s|, 0x80, 0xBF) && forall i :: 0 <= i < |s| ==> IsTail(s[i])
    ensures Run(st, s) == Running(Start)
    decreases |s|
  {
    RunTwo(st, s);
    if |s| == 2 {
      RunTail(Step(st, s[0]).state, s[1..]);
    }
  }

  /** A run that is at rest at the end of a non-empty string has begun with a character. */
  lemma {:induction false} RestMeansChar(s: seq<Byte>)
    requires s != [] && Run(Start, s) == Running(Start)
    ensures CharLen(s) > 0
  {
    RunTwo(Start, s);
    var v1 := Step(Start, s[0]).state;
    if v1.needed == 0 {
      CharLenUnique(s, 1);
    } else {
      RunTwo(v1, s[1..]);
      var v2 := Step(v1, s[1]).state;
      if v2.needed == 0 {
        CharLenUnique(s, 2);
      } else {
        RunTwo(v2, s[2..]);
        assert s[1..][1..] == s[2..];
        var v3 := Step(v2, s[2]).state;
        if v3.needed == 0 {
          CharLenUnique(s, 3);
        } else {
          RunTwo(v3, s[3..]);
          assert s[2..][1..] == s[3..];
          CharLenUnique(s, 4);
        }
      }
    }
  }

  /** The validator is at rest exactly when it has seen a well-formed string. */
  lemma {:induction false} AcceptsIffWellFormed(s: seq<Byte>)
    ensures Run(Start, s) == Running(Start) <==> WellFormed(s)
    decreases |s|
  {
    if s != [] {
      var n := CharLen(s);
      if n == 0 {
        if Run(Start, s) == Running(Start) {
          RestMeansChar(s);
        }
      } else {
        assert s == s[..n] + s[n..];
        RunOverChar(s[..n]);
        RunConcat(Start, s[..n], s[n..]);
        AcceptsIffWellFormed(s[n..]);
        if WellFormed(s) {
          var k :| 1 <= k <= |s| && IsChar(s[..k]) && WellFormed(s[k..]);
          CharLenUnique(s, k);
        }
      }
    }
  }

  /** The bytes that would complete the character a run is inside of. */
  function Completion(st: State): seq<Byte>
    requires Reachable(st)
  {
    if st.needed == 0 then [] else [st.lower] + seq(st.needed - 1, _ => 0x80)
  }

  lemma CompletionRests(st: State)
    requires Reachable(st)
    ensures Run(st, Completion(st)) == Running(Start)
  {
    if st.needed > 0 {
      var t := seq(st.needed - 1, _ => 0x80);
      assert Completion(st)[1..] == t;
      if st.needed > 1 {
        RunTail(State(st.needed - 1, 0x80, 0xBF), t);
      }
    }
  }

  /** The validator fails at the earliest byte: what it has not rejected can still become well-formed. */
  lemma FailsOnlyWhenHopeless(s: seq<Byte>)
    ensures Run(Start, s).Running? <==> exists t :: WellFormed(s + t)
  {
    RunShape(s);
    if Run(Start, s).Running? {
      var st := Run(Start, s).state;
      CompletionRests(st);
      RunConcat(Start, s, Completion(st));
      AcceptsIffWellFormed(s + Completion(st));
    }
    forall t | WellFormed(s + t) ensures Run(Start, s).Running? {
      AcceptsIffWellFormed(s + t);
      RunConcat(Start, s, t);
    }
  }

  /** Validator and lossy decoder agree: it accepts exactly when the decoder drops nothing. */
  lemma AcceptsIffDecoderDropsNothing(s: seq<Byte>)
    ensures Run(Start, s) == Running(Start) <==> EncodeAll(Decode(s)) == s
  {
    AcceptsIffWellFormed(s);
    WellFormedIffReencodes(s);
  }

  /** Any division of a file into chunks, fed one after the other. */
  function RunChunks(st: State, chunks: seq<seq<Byte>>): Verdict
    decreases |chunks|
  {
    if chunks == [] then Running(st)
    else match Run(st, chunks[0])
      case Failed => Failed
      case Running(next) => RunChunks(next, chunks[1..])
  }

  function Joined(chunks: seq<seq<Byte>>): seq<Byte> {
    if chunks == [] then [] else chunks[0] + Joined(chunks[1..])
  }

  lemma {:induction false} ChunkingIsInvisible(st: State, chunks: seq<seq<Byte>>)
    ensures RunChunks(st, chunks) == Run(st, Joined(chunks))
    decreases |chunks|
  {
    if chunks != [] {
      RunConcat(st, chunks[0], Joined(chunks[1..]));
      match Run(st, chunks[0])
      case Failed =>
      case Running(next) => ChunkingIsInvisible(next, chunks[1..]);
    }
  }

  /** Every write succeeds and end succeeds, for whatever chunks, exactly on well-formed files. */
  lemma StreamingAcceptance(chunks: seq<seq<Byte>>)
    ensures RunChunks(Start, chunks) == Running(Start) <==> WellFormed(Joined(chunks))
    ensures RunChunks(Start, chunks) == Running(Start) <==>
            EncodeAll(Decode(Joined(chunks))) == Joined(chunks)
  {
    ChunkingIsInvisible(Start, chunks);
    AcceptsIffWellFormed(Joined(chunks));
    WellFormedIffReencodes(Joined(chunks));
  }
}
