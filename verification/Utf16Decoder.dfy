/**
 The hand-written UTF-16LE decoder behind errors: 'ignore': code units are read
 two bytes at a time, surrogate pairs combined, lone surrogates dropped.
 */
module Utf16Decoder {
  import opened Utf8

  type Unit = u: int | 0 <= u < 0x10000

  predicate IsHigh(u: Unit) {
    0xD800 <= u <= 0xDBFF
  }

  predicate IsLow(u: Unit) {
    0xDC00 <= u <= 0xDFFF
  }

  /** The code units of the bytes; a last byte without partner belongs to none. */
  function Units(data: seq<Byte>): seq<Unit> {
    if |data| < 2 then [] else [UnitOf(data[0], data[1])] + Units(data[2..])
  }

  function UnitOf(first: Byte, second: Byte): Unit {
    var lo: int, hi: int := first, second;
    lo + hi * 0x100
  }

  function Bytes(us: seq<Unit>): seq<Byte> {
    if us == [] then [] else [us[0] % 0x100, us[0] / 0x100] + Bytes(us[1..])
  }

  function Pair(high: Unit, low: Unit): Scalar
    requires IsHigh(high) && IsLow(low)
  {
    var h: int, l: int := high - 0xD800, low - 0xDC00;
    0x10000 + h * 0x400 + l
  }

  /** The scalar values the code units stand for, lone surrogates left out. */
  function DecodeUnits(us: seq<Unit>): seq<Scalar> {
    if us == [] then []
    else if IsHigh(us[0]) then
      if |us| > 1 && IsLow(us[1]) then [Pair(us[0], us[1])] + DecodeUnits(us[2..]) else DecodeUnits(us[1..])
    else if IsLow(us[0]) then DecodeUnits(us[1..])
    else [us[0]] + DecodeUnits(us[1..])
  }

  /** What is decoded, and what the remaining code units still give, make up the whole. */
  ghost predicate Completes(output: seq<Scalar>, rest: seq<Unit>, whole: seq<Scalar>) {
    output + DecodeUnits(rest) == whole
  }

  method DecodeUtf16LeIgnore(data: array<Byte>) returns (output: seq<Scalar>)
    ensures output == DecodeUnits(Units(data[..]))
  {
    hide Completes, DecodeUnits, Units, UnitOf, Pair;
    output := [];
    var i := 0;
    ghost var all := data[..];
    ghost var whole := DecodeUnits(Units(all));
    Begin(all);
    while i + 1 < data.Length
      invariant 0 <= i <= data.Length
      invariant Completes(output, Units(all[i..]), whole)
    {
      var codeUnit := UnitOf(data[i], data[i + 1]);
      NextUnit(all, i);
      FirstUnits(output, Units(all[i..]), whole);
      if IsHigh(codeUnit) {
        if i + 2 < data.Length && i + 3 < data.Length {
          var low := UnitOf(data[i + 2], data[i + 3]);
          NextUnit(all, i + 2);
          if IsLow(low) {
            output := output + [Pair(codeUnit, low)];
            i := i + 4;
            continue;
          }
        } else {
          NoUnits(all[i + 2..]);
        }
        i := i + 2;
        continue;
      }
      if IsLow(codeUnit) {
        i := i + 2;
        continue;
      }
      output := output + [codeUnit];
      i := i + 2;
    }
    NoUnits(all[i..]);
    Finished(output, whole);
  }

  lemma Begin(all: seq<Byte>)
    ensures Completes([], Units(all[0..]), DecodeUnits(Units(all)))
  {
    assert all[0..] == all;
  }

  lemma Finished(output: seq<Scalar>, whole: seq<Scalar>)
    requires Completes(output, [], whole)
    ensures output == whole
  {
  }

  /** The step the first code units call for. */
  lemma FirstUnits(output: seq<Scalar>, us: seq<Unit>, whole: seq<Scalar>)
    requires us != [] && Completes(output, us, whole)
    ensures
      if !IsHigh(us[0]) then Completes(if IsLow(us[0]) then output else output + [us[0]], us[1..], whole)
      else if |us| > 1 && IsLow(us[1]) then Completes(output + [Pair(us[0], us[1])], us[1..][1..], whole)
      else Completes(output, us[1..], whole)
  {
    assert |us| > 1 ==> us[1..][1..] == us[2..];
  }

  lemma NoUnits(bytes: seq<Byte>)
    requires |bytes| < 2
    ensures Units(bytes) == []
  {
  }

  lemma NextUnit(all: seq<Byte>, i: nat)
    requires i + 1 < |all|
    ensures Units(all[i..]) == [UnitOf(all[i], all[i + 1])] + Units(all[i + 2..])
    ensures Units(all[i..])[1..] == Units(all[i + 2..])
  {
    assert all[i..][2..] == all[i + 2..];
  }

  /** The encoder of section 2.1 of RFC 2781. */
  function Encode16(c: Scalar): seq<Unit> {
    if c < 0x10000 then [c]
    else var v: int := c - 0x10000; [0xD800 + v / 0x400, 0xDC00 + v % 0x400]
  }

  function Encode16All(vs: seq<Scalar>): seq<Unit> {
    if vs == [] then [] else Encode16(vs[0]) + Encode16All(vs[1..])
  }

  lemma DecodeOne(c: Scalar, t: seq<Unit>)
    ensures DecodeUnits(Encode16(c) + t) == [c] + DecodeUnits(t)
  {
    var us := Encode16(c) + t;
    if c < 0x10000 {
      assert us[1..] == t;
    } else {
      assert us[2..] == t;
      var v: int := c - 0x10000;
      assert v == v / 0x400 * 0x400 + v % 0x400;
      assert Pair(us[0], us[1]) == c;
    }
  }

  /** Decoding undoes encoding, whatever code units follow. */
  lemma {:induction false} Decode16Encoded(vs: seq<Scalar>, t: seq<Unit>)
    ensures DecodeUnits(Encode16All(vs) + t) == vs + DecodeUnits(t)
  {
    if vs == [] {
      assert Encode16All(vs) + t == t;
    } else {
      hide DecodeUnits, Encode16;
      assert Encode16All(vs) + t == Encode16(vs[0]) + (Encode16All(vs[1..]) + t);
      DecodeOne(vs[0], Encode16All(vs[1..]) + t);
      Decode16Encoded(vs[1..], t);
    }
  }

  lemma {:induction false} UnitsOfBytes(us: seq<Unit>, odd: seq<Byte>)
    requires |odd| <= 1
    ensures Units(Bytes(us) + odd) == us
  {
    if us != [] {
      UnitsOfBytes(us[1..], odd);
      assert (Bytes(us) + odd)[2..] == Bytes(us[1..]) + odd;
    }
  }

  /** On the bytes of any text, even with a stray byte at the end, the decoder returns the text. */
  lemma TextSurvives(vs: seq<Scalar>, odd: seq<Byte>)
    requires |odd| <= 1
    ensures DecodeUnits(Units(Bytes(Encode16All(vs)) + odd)) == vs
  {
    UnitsOfBytes(Encode16All(vs), odd);
    Decode16Encoded(vs, []);
    assert Encode16All(vs) + [] == Encode16All(vs);
  }

  predicate SplitsPair(x: seq<Unit>, y: seq<Unit>) {
    x != [] && y != [] && IsHigh(x[|x| - 1]) && IsLow(y[0])
  }

  /** Decoding may be cut anywhere but inside a surrogate pair, and there it loses one character. */
  lemma Decode16Concat(x: seq<Unit>, y: seq<Unit>)
    ensures DecodeUnits(x + y) == DecodeUnits(x) + DecodeUnits(y) <==> !SplitsPair(x, y)
    ensures SplitsPair(x, y) ==>
      DecodeUnits(x + y) == DecodeUnits(x) + ([Pair(x[|x| - 1], y[0])] + DecodeUnits(y))
  {
    hide DecodeUnits, Pair;
    if SplitsPair(x, y) {
      CutInsidePair(x, y);
    } else {
      CutBetween(x, y);
    }
  }

  lemma {:induction false} CutBetween(x: seq<Unit>, y: seq<Unit>)
    requires !SplitsPair(x, y)
    ensures DecodeUnits(x + y) == DecodeUnits(x) + DecodeUnits(y)
    decreases |x|
  {
    hide DecodeUnits, Pair;
    DecodesToNothing();
    if x == [] {
      assert x + y == y;
    } else if y == [] {
      assert x + y == x;
    } else {
      var n := if |x| > 1 && IsHigh(x[0]) && IsLow(x[1]) then 2 else 1;
      var first := OneStep(x, y, n);
      CutBetween(x[n..], y);
    }
  }

  lemma {:induction false} CutInsidePair(x: seq<Unit>, y: seq<Unit>)
    requires SplitsPair(x, y)
    ensures DecodeUnits(x + y) == DecodeUnits(x) + ([Pair(x[|x| - 1], y[0])] + DecodeUnits(y))
    decreases |x|
  {
    hide DecodeUnits, Pair;
    if |x| == 1 {
      PairAtCut(x[0], y);
      assert x == [x[0]];
    } else {
      var n := if IsHigh(x[0]) && IsLow(x[1]) then 2 else 1;
      var first := OneStep(x, y, n);
      CutInsidePair(x[n..], y);
    }
  }

  lemma DecodesToNothing()
    ensures DecodeUnits([]) == []
  {
  }

  lemma PairAtCut(high: Unit, y: seq<Unit>)
    requires IsHigh(high) && y != [] && IsLow(y[0])
    ensures DecodeUnits([high]) == []
    ensures DecodeUnits([high] + y) == [Pair(high, y[0])] + DecodeUnits(y)
  {
    assert ([high] + y)[2..] == y[1..];
  }

  /** The first step of decoding x is the first step of decoding x + y. */
  lemma OneStep(x: seq<Unit>, y: seq<Unit>, n: nat) returns (first: seq<Scalar>)
    requires x != [] && n == (if |x| > 1 && IsHigh(x[0]) && IsLow(x[1]) then 2 else 1)
    requires |x| == 1 ==> !SplitsPair(x, y)
    ensures DecodeUnits(x) == first + DecodeUnits(x[n..])
    ensures DecodeUnits(x + y) == first + DecodeUnits(x[n..] + y)
    ensures SplitsPair(x, y) <==> SplitsPair(x[n..], y)
    ensures SplitsPair(x, y) ==> x[n..][|x[n..]| - 1] == x[|x| - 1]
  {
    assert (x + y)[n..] == x[n..] + y;
    first :=
      if n == 2 then [Pair(x[0], x[1])] else if IsHigh(x[0]) || IsLow(x[0]) then [] else [x[0]];
    assert DecodeUnits(x) == first + DecodeUnits(x[n..]);
    assert DecodeUnits(x + y) == first + DecodeUnits(x[n..] + y);
  }
}
