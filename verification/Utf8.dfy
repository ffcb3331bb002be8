/**
 UTF-8 as RFC 3629 defines it: the encoder of section 3, the grammar of
 well-formed octet strings of section 4, and the lossy reading of an arbitrary
 byte string that keeps each well-formed character and drops every other byte.
 */
module Utf8 {
  type Byte = b: int | 0 <= b < 0x100

  /** A Unicode scalar value: a code point that is not a surrogate. */
  type Scalar = c: int | 0 <= c < 0xD800 || 0xE000 <= c <= 0x10FFFF

  predicate IsTail(b: Byte) {
    0x80 <= b <= 0xBF
  }

  /** UTF8-1 / UTF8-2 / UTF8-3 / UTF8-4 of section 4 of RFC 3629. */
  predicate IsChar(s: seq<Byte>) {
    if |s| == 1 then
      s[0] <= 0x7F
    else if |s| == 2 then
      0xC2 <= s[0] <= 0xDF && IsTail(s[1])
    else if |s| == 3 then
      && (|| (s[0] == 0xE0 && 0xA0 <= s[1] <= 0xBF)
          || (0xE1 <= s[0] <= 0xEC && IsTail(s[1]))
          || (s[0] == 0xED && 0x80 <= s[1] <= 0x9F)
          || (0xEE <= s[0] <= 0xEF && IsTail(s[1])))
      && IsTail(s[2])
    else if |s| == 4 then
      && (|| (s[0] == 0xF0 && 0x90 <= s[1] <= 0xBF)
          || (0xF1 <= s[0] <= 0xF3 && IsTail(s[1]))
          || (s[0] == 0xF4 && 0x80 <= s[1] <= 0x8F))
      && IsTail(s[2]) && IsTail(s[3])
    else
      false
  }

  type Char = s: seq<Byte> | IsChar(s) witness [0]

  /** UTF8-octets of section 4: a run of characters with nothing between them. */
  ghost predicate WellFormed(s: seq<Byte>)
    decreases |s|
  {
    s == [] || exists k :: 1 <= k <= |s| && IsChar(s[..k]) && WellFormed(s[k..])
  }

  /** The encoder of section 3: six bits to each octet after the first. */
  function Encode(c: Scalar): Char {
    var q1 := c / 0x40;
    var q2 := q1 / 0x40;
    var q3 := q2 / 0x40;
    if c < 0x80 then [c]
    else if c < 0x800 then [0xC0 + q1, 0x80 + c % 0x40]
    else if c < 0x10000 then [0xE0 + q2, 0x80 + q1 % 0x40, 0x80 + c % 0x40]
    else [0xF0 + q3, 0x80 + q2 % 0x40, 0x80 + q1 % 0x40, 0x80 + c % 0x40]
  }

  /** The scalar value a character stands for, from the payload bits of its octets. */
  function ScalarOf(s: Char): Scalar {
    if |s| == 1 then
      s[0]
    else if |s| == 2 then
      var b0: int, b1: int := s[0], s[1];
      (b0 - 0xC0) * 0x40 + (b1 - 0x80)
    else if |s| == 3 then
      var b0: int, b1: int, b2: int := s[0], s[1], s[2];
      ((b0 - 0xE0) * 0x40 + (b1 - 0x80)) * 0x40 + (b2 - 0x80)
    else
      var b0: int, b1: int, b2: int, b3: int := s[0], s[1], s[2], s[3];
      (((b0 - 0xF0) * 0x40 + (b1 - 0x80)) * 0x40 + (b2 - 0x80)) * 0x40 + (b3 - 0x80)
  }

  /** Every scalar value comes back from its octets. */
  lemma ScalarOfEncode(c: Scalar)
    ensures ScalarOf(Encode(c)) == c
  {
  }

  /** Every character of the grammar is the encoding of its scalar value. */
  lemma EncodeScalarOf(s: Char)
    ensures Encode(ScalarOf(s)) == s
  {
    if |s| == 2 {
      EncodeTwo(s[0] - 0xC0, s[1] - 0x80);
    } else if |s| == 3 {
      EncodeThree(s[0] - 0xE0, s[1] - 0x80, s[2] - 0x80);
    } else if |s| == 4 {
      EncodeFour(s[0] - 0xF0, s[1] - 0x80, s[2] - 0x80, s[3] - 0x80);
    }
  }

  lemma DivMod(q: int, r: int)
    requires 0 <= r < 0x40
    ensures (q * 0x40 + r) / 0x40 == q && (q * 0x40 + r) % 0x40 == r
  {
  }

  lemma EncodeTwo(x0: int, x1: int)
    requires 2 <= x0 < 0x20 && 0 <= x1 < 0x40
    ensures Encode(x0 * 0x40 + x1) == [0xC0 + x0, 0x80 + x1]
  {
    DivMod(x0, x1);
  }

  lemma EncodeThree(x0: int, x1: int, x2: int)
    requires 0 <= x0 < 0x10 && 0 <= x1 < 0x40 && 0 <= x2 < 0x40
    requires var c := (x0 * 0x40 + x1) * 0x40 + x2; 0x800 <= c && (c < 0xD800 || 0xE000 <= c)
    ensures Encode((x0 * 0x40 + x1) * 0x40 + x2) == [0xE0 + x0, 0x80 + x1, 0x80 + x2]
  {
    DivMod(x0, x1);
    DivMod(x0 * 0x40 + x1, x2);
  }

  lemma EncodeFour(x0: int, x1: int, x2: int, x3: int)
    requires 0 <= x0 < 8 && 0 <= x1 < 0x40 && 0 <= x2 < 0x40 && 0 <= x3 < 0x40
    requires 0x10000 <= ((x0 * 0x40 + x1) * 0x40 + x2) * 0x40 + x3 <= 0x10FFFF
    ensures Encode(((x0 * 0x40 + x1) * 0x40 + x2) * 0x40 + x3) == [0xF0 + x0, 0x80 + x1, 0x80 + x2, 0x80 + x3]
  {
    DivMod(x0, x1);
    DivMod(x0 * 0x40 + x1, x2);
    DivMod((x0 * 0x40 + x1) * 0x40 + x2, x3);
  }

  function Octets(vs: seq<Scalar>): seq<Char> {
    seq(|vs|, i requires 0 <= i < |vs| => Encode(vs[i]))
  }

  function Scalars(cs: seq<Char>): seq<Scalar> {
    seq(|cs|, i requires 0 <= i < |cs| => ScalarOf(cs[i]))
  }

  function Flatten(cs: seq<Char>): seq<Byte> {
    if cs == [] then [] else cs[0] + Flatten(cs[1..])
  }

  function EncodeAll(vs: seq<Scalar>): seq<Byte> {
    Flatten(Octets(vs))
  }

  lemma OctetsAndScalarsInvert(vs: seq<Scalar>, cs: seq<Char>)
    ensures Scalars(Octets(vs)) == vs
    ensures Octets(Scalars(cs)) == cs
  {
    forall i | 0 <= i < |vs| ensures Scalars(Octets(vs))[i] == vs[i] {
      ScalarOfEncode(vs[i]);
    }
    forall i | 0 <= i < |cs| ensures Octets(Scalars(cs))[i] == cs[i] {
      EncodeScalarOf(cs[i]);
    }
  }

  /** The length of the character s starts with, or 0 when it starts with none. */
  function CharLen(s: seq<Byte>): (n: nat)
    ensures n <= |s| && n <= 4
    ensures n > 0 ==> IsChar(s[..n])
    ensures n == 0 ==> forall k :: 0 <= k <= |s| ==> !IsChar(s[..k])
  {
    if |s| >= 1 && IsChar(s[..1]) then 1
    else if |s| >= 2 && IsChar(s[..2]) then 2
    else if |s| >= 3 && IsChar(s[..3]) then 3
    else if |s| >= 4 && IsChar(s[..4]) then 4
    else 0
  }

  /** No character is a proper prefix of another. */
  lemma CharLenUnique(s: seq<Byte>, k: nat)
    requires k <= |s| && IsChar(s[..k])
    ensures CharLen(s) == k
  {
    var n := CharLen(s);
    assert n > 0;
    assert s[..n][0] == s[0] == s[..k][0];
  }

  /**
   The characters a reader keeps that drops every byte not part of one: take the
   character the bytes start with, or else skip one byte.
   */
  function Chars(s: seq<Byte>): seq<Char>
    decreases |s|
  {
    var n := CharLen(s);
    if s == [] then [] else if n == 0 then Chars(s[1..]) else [s[..n]] + Chars(s[n..])
  }

  /** Every character that occurs anywhere in s, looked for at each byte in turn. */
  function Occurrences(s: seq<Byte>): seq<Char> {
    if s == [] then []
    else (if CharLen(s) > 0 then [s[..CharLen(s)]] else []) + Occurrences(s[1..])
  }

  /** Jumping over the character just taken skips no other character. */
  lemma {:induction false} CharsAreAllOccurrences(s: seq<Byte>)
    ensures Chars(s) == Occurrences(s)
    decreases |s|
  {
    if s != [] {
      var n := CharLen(s);
      if n == 0 {
        CharsAreAllOccurrences(s[1..]);
      } else {
        CharsAreAllOccurrences(s[n..]);
        TailsStartNothing(s[1..], n - 1);
        assert s[1..][n - 1..] == s[n..];
      }
    }
  }

  lemma {:induction false} TailsStartNothing(s: seq<Byte>, k: nat)
    requires k <= |s| && forall i :: 0 <= i < k ==> IsTail(s[i])
    ensures Occurrences(s) == Occurrences(s[k..])
  {
    if k > 0 {
      TailsStartNothing(s[1..], k - 1);
      assert s[1..][k - 1..] == s[k..];
    }
  }

  function Decode(s: seq<Byte>): seq<Scalar> {
    Scalars(Chars(s))
  }

  lemma CharsPrepend(c: Char, t: seq<Byte>)
    ensures Chars(c + t) == [c] + Chars(t)
  {
    assert (c + t)[..|c|] == c;
    assert (c + t)[|c|..] == t;
    CharLenUnique(c + t, |c|);
  }

  lemma {:induction false} CharsOfFlatten(cs: seq<Char>, t: seq<Byte>)
    ensures Chars(Flatten(cs) + t) == cs + Chars(t)
  {
    hide Chars, CharLen, IsChar;
    if cs == [] {
      assert Flatten(cs) + t == t;
    } else {
      assert Flatten(cs) + t == cs[0] + (Flatten(cs[1..]) + t);
      CharsPrepend(cs[0], Flatten(cs[1..]) + t);
      CharsOfFlatten(cs[1..], t);
    }
  }

  lemma ChoosesNothing()
    ensures Chars([]) == []
  {
  }

  /** Decoding undoes encoding, whatever follows. */
  lemma DecodeEncoded(vs: seq<Scalar>, t: seq<Byte>)
    ensures Decode(EncodeAll(vs)) == vs
    ensures Decode(EncodeAll(vs) + t) == vs + Decode(t)
  {
    hide Chars, CharLen, IsChar, Encode, ScalarOf, Flatten;
    ChoosesNothing();
    CharsOfFlatten(Octets(vs), t);
    CharsOfFlatten(Octets(vs), []);
    assert EncodeAll(vs) + [] == EncodeAll(vs);
    OctetsAndScalarsInvert(vs, []);
    assert Scalars(Octets(vs) + Chars(t)) == Scalars(Octets(vs)) + Decode(t);
  }

  /** Reading the re-encoded output again changes nothing. */
  lemma DecodeIsStable(s: seq<Byte>)
    ensures EncodeAll(Decode(s)) == Flatten(Chars(s))
    ensures Decode(EncodeAll(Decode(s))) == Decode(s)
  {
    OctetsAndScalarsInvert([], Chars(s));
    DecodeEncoded(Decode(s), []);
  }

  /** What is kept never exceeds the input, and is the whole input only when that is well-formed. */
  lemma {:induction false} KeptBytes(s: seq<Byte>)
    ensures |Flatten(Chars(s))| <= |s|
    ensures |Flatten(Chars(s))| == |s| ==> Flatten(Chars(s)) == s && WellFormed(s)
    decreases |s|
  {
    if s != [] {
      var n := CharLen(s);
      if n == 0 {
        KeptBytes(s[1..]);
      } else {
        KeptBytes(s[n..]);
        assert s == s[..n] + s[n..];
      }
    }
  }

  lemma {:induction false} WellFormedKeepsAll(s: seq<Byte>)
    requires WellFormed(s)
    ensures Flatten(Chars(s)) == s
    decreases |s|
  {
    hide IsChar, CharLen;
    if s != [] {
      var k :| 1 <= k <= |s| && IsChar(s[..k]) && WellFormed(s[k..]);
      CharLenUnique(s, k);
      WellFormedKeepsAll(s[k..]);
      assert s == s[..k] + s[k..];
    }
  }

  /** The bytes are well-formed exactly when re-encoding what was read gives them back. */
  lemma WellFormedIffReencodes(s: seq<Byte>)
    ensures WellFormed(s) <==> EncodeAll(Decode(s)) == s
  {
    DecodeIsStable(s);
    KeptBytes(s);
    if WellFormed(s) {
      WellFormedKeepsAll(s);
    }
  }

  /** A place where a byte string may be cut without splitting a character. */
  predicate CleanCut(x: seq<Byte>, y: seq<Byte>) {
    || x == [] || y == []
    || !IsTail(y[0])
    || x[|x| - 1] <= 0x7F
  }

  /** A character of the whole starts in x and ends in y. */
  ghost predicate Straddles(x: seq<Byte>, y: seq<Byte>) {
    exists i :: StraddlesAt(x, y, i)
  }

  predicate StraddlesAt(x: seq<Byte>, y: seq<Byte>, i: int) {
    0 <= i < |x| && CharLen((x + y)[i..]) > |x| - i
  }

  /** A character starts with no continuation byte and has nothing else after that; a longer one has no ASCII byte. */
  lemma CharShape(c: Char)
    ensures c != [] && !IsTail(c[0]) && forall k :: 1 <= k < |c| ==> IsTail(c[k])
    ensures |c| > 1 ==> c[0] > 0x7F
  {
  }

  /** A character that ends in time does not depend on what follows. */
  lemma CharLenConcat(x: seq<Byte>, y: seq<Byte>)
    ensures CharLen(x + y) <= |x| ==> CharLen(x) == CharLen(x + y)
    ensures CharLen(x + y) > |x| ==> CharLen(x) == 0
  {
    hide IsChar, CharLen;
    var m, n := CharLen(x), CharLen(x + y);
    if 0 < n <= |x| {
      assert (x + y)[..n] == x[..n];
      CharLenUnique(x, n);
    } else if m > 0 {
      assert (x + y)[..m] == x[..m];
      CharLenUnique(x + y, m);
    }
  }

  lemma {:induction false} OccurrencesConcat(x: seq<Byte>, y: seq<Byte>)
    requires !Straddles(x, y)
    ensures Occurrences(x + y) == Occurrences(x) + Occurrences(y)
    decreases |x|
  {
    hide IsChar, CharLen, Occurrences;
    if x == [] {
      assert x + y == y;
      NothingOccurs(x);
    } else {
      StraddlesNoRest(x, y);
      OccurrencesConcat(x[1..], y);
      OccurrencesStep(x);
      OccurrencesStep(x + y);
      assert (x + y)[1..] == x[1..] + y;
      assert CharLen(x) > 0 ==> (x + y)[..CharLen(x)] == x[..CharLen(x)];
    }
  }

  lemma StraddlesNoRest(x: seq<Byte>, y: seq<Byte>)
    requires x != [] && !Straddles(x, y)
    ensures !Straddles(x[1..], y) && CharLen(x + y) == CharLen(x)
  {
    hide IsChar, CharLen;
    assert (x + y)[0..] == x + y && !StraddlesAt(x, y, 0);
    CharLenConcat(x, y);
    forall i | StraddlesAt(x[1..], y, i) ensures StraddlesAt(x, y, i + 1) {
      assert (x[1..] + y)[i..] == (x + y)[i + 1..];
    }
  }

  /** The character that straddles the cut, and nothing else, is lost at it. */
  lemma {:induction false} OccurrencesAround(x: seq<Byte>, y: seq<Byte>, i: nat)
    requires StraddlesAt(x, y, i)
    ensures var t := (x + y)[i..];
      Occurrences(x + y) == Occurrences(x) + [t[..CharLen(t)]] + Occurrences(y)
    decreases i
  {
    hide IsChar, CharLen, Occurrences;
    var n, t := CharLen(x + y), (x + y)[i..];
    if i == 0 {
      assert t == x + y;
      FirstStraddles(x, y);
    } else {
      var rest := x[1..];
      assert (x + y)[1..] == rest + y && (rest + y)[i - 1..] == t;
      NoOverlap(x + y, i);
      CharLenConcat(x, y);
      assert n > 0 ==> (x + y)[..n] == x[..n];
      OccurrencesStep(x);
      OccurrencesStep(x + y);
      OccurrencesAround(rest, y, i - 1);
    }
  }

  /** Where a character starts, no other one has begun and not yet ended. */
  lemma NoOverlap(s: seq<Byte>, i: nat)
    requires 0 < i <= |s| && CharLen(s[i..]) > 0
    ensures CharLen(s) <= i
  {
    hide IsChar, CharLen;
    var n, c := CharLen(s), s[i..][..CharLen(s[i..])];
    if n > i {
      CharShape(s[..n]);
      assert s[..n][i] == s[i];
    }
    assert c[0] == s[i];
    CharShape(c);
  }

  /** Neither what x has of the character nor what y has of it holds a character. */
  lemma FirstStraddles(x: seq<Byte>, y: seq<Byte>)
    requires x != [] && CharLen(x + y) > |x|
    ensures Occurrences(x) == []
    ensures Occurrences(x + y) == [(x + y)[..CharLen(x + y)]] + Occurrences(y)
  {
    hide IsChar, CharLen, Occurrences;
    var n, s := CharLen(x + y), x + y;
    assert forall k :: 1 <= k < n ==> IsTail(s[k]) by {
      CharShape(s[..n]);
      assert forall k :: 1 <= k < n ==> s[..n][k] == s[k];
    }
    CharLenConcat(x, y);
    OccurrencesStep(x);
    OccurrencesStep(s);
    assert forall k :: 0 <= k < |x| - 1 ==> x[1..][k] == s[k + 1];
    TailsStartNothing(x[1..], |x| - 1);
    NothingOccurs(x[1..][|x| - 1..]);
    assert forall k :: 0 <= k < n - |x| ==> y[k] == s[|x| + k];
    TailsStartNothing(y, n - |x|);
    TailsStartNothing(s[1..], n - 1);
    assert s[1..][n - 1..] == y[n - |x|..];
  }

  lemma OccurrencesStep(s: seq<Byte>)
    requires s != []
    ensures Occurrences(s) == (if CharLen(s) > 0 then [s[..CharLen(s)]] else []) + Occurrences(s[1..])
  {
  }

  lemma NothingOccurs(s: seq<Byte>)
    requires s == []
    ensures Occurrences(s) == []
  {
  }

  lemma StraddledCut(x: seq<Byte>, y: seq<Byte>, i: nat)
    requires StraddlesAt(x, y, i)
    ensures !CleanCut(x, y)
  {
    hide IsChar, CharLen;
    var t := (x + y)[i..];
    var c := t[..CharLen(t)];
    CharShape(c);
    assert c[|x| - i] == y[0] && c[|x| - i - 1] == x[|x| - 1];
  }

  lemma CleanCutsAreClean(x: seq<Byte>, y: seq<Byte>)
    requires CleanCut(x, y)
    ensures !Straddles(x, y)
  {
    if Straddles(x, y) {
      var i :| StraddlesAt(x, y, i);
      StraddledCut(x, y, i);
    }
  }

  lemma CharsConcat(x: seq<Byte>, y: seq<Byte>)
    requires CleanCut(x, y)
    ensures Chars(x + y) == Chars(x) + Chars(y)
  {
    CleanCutsAreClean(x, y);
    OccurrencesConcat(x, y);
    CharsAreAllOccurrences(x);
    CharsAreAllOccurrences(y);
    CharsAreAllOccurrences(x + y);
  }

  /**
   Decoding may be cut anywhere but inside a character, and there it loses that one.
   No character is cut in front of a byte that is no continuation byte, nor after ASCII.
   */
  lemma DecodeConcat(x: seq<Byte>, y: seq<Byte>)
    ensures Decode(x + y) == Decode(x) + Decode(y) <==> !Straddles(x, y)
    ensures forall i {:trigger StraddlesAt(x, y, i)} :: StraddlesAt(x, y, i) ==>
      var t := (x + y)[i..];
      Decode(x + y) == Decode(x) + [ScalarOf(t[..CharLen(t)])] + Decode(y)
    ensures CleanCut(x, y) ==> !Straddles(x, y)
  {
    hide Chars, Occurrences, CharLen, ScalarOf, CleanCut;
    CharsAreAllOccurrences(x);
    CharsAreAllOccurrences(y);
    CharsAreAllOccurrences(x + y);
    forall i | StraddlesAt(x, y, i)
      ensures var t := (x + y)[i..];
        Decode(x + y) == Decode(x) + [ScalarOf(t[..CharLen(t)])] + Decode(y)
    {
      OccurrencesAround(x, y, i);
    }
    if !Straddles(x, y) {
      OccurrencesConcat(x, y);
    }
    if CleanCut(x, y) {
      CleanCutsAreClean(x, y);
    }
  }

  /** Decoding the two sides of a clean cut is decoding the whole. */
  lemma DecodeAtCleanCut(x: seq<Byte>, y: seq<Byte>)
    requires CleanCut(x, y)
    ensures Decode(x + y) == Decode(x) + Decode(y)
  {
    CharsConcat(x, y);
  }

  /** At a clean cut the whole is well-formed exactly when both sides are. */
  lemma WellFormedConcat(x: seq<Byte>, y: seq<Byte>)
    requires CleanCut(x, y)
    ensures WellFormed(x + y) <==> WellFormed(x) && WellFormed(y)
  {
    CharsConcat(x, y);
    FlattenConcat(Chars(x), Chars(y));
    KeptBytes(x);
    KeptBytes(y);
    KeptBytes(x + y);
    if WellFormed(x + y) {
      WellFormedKeepsAll(x + y);
    } else if WellFormed(x) && WellFormed(y) {
      WellFormedKeepsAll(x);
      WellFormedKeepsAll(y);
    }
  }

  lemma {:induction false} FlattenConcat(a: seq<Char>, b: seq<Char>)
    ensures Flatten(a + b) == Flatten(a) + Flatten(b)
  {
    if a == [] {
      assert a + b == b;
    } else {
      assert (a + b)[1..] == a[1..] + b;
      FlattenConcat(a[1..], b);
    }
  }
}
