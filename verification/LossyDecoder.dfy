/**
 The hand-written decoder behind errors: 'ignore', as the loop it is, and what
 its result means. No comparison accepts the undefined that reading past the end
 gives; the index tests say so.
 */
module LossyDecoder {
  import opened Utf8

  predicate IsContinuation(b: Byte) {
    0x80 <= b <= 0xBF
  }

  method DecodeUtf8Ignore(data: array<Byte>) returns (output: seq<Scalar>)
    ensures output == Decode(data[..])
  {
    hide Decode, IsChar, CharLen, Code2, Code3, Code4, ValidSecondOf3, ValidSecondOf4, IsContinuation;
    output := [];
    var i := 0;
    ghost var all := data[..];
    assert all[0..] == all;
    while i < data.Length
      invariant 0 <= i <= data.Length
      invariant output + Decode(all[i..]) == Decode(all)
    {
      var b0 := data[i];
      assert all[i] == b0;
      if b0 <= 0x7F {
        Keeps1(all, i, output);
        output := output + [b0];
        i := i + 1;
        continue;
      }
      if 0xC2 <= b0 <= 0xDF {
        if i + 1 < data.Length && IsContinuation(data[i + 1]) {
          Keeps2(all, i, output);
          output := output + [Code2(b0, data[i + 1])];
          i := i + 2;
          continue;
        }
        Drops2(all, i);
        i := i + 1;
        continue;
      }
      if 0xE0 <= b0 <= 0xEF {
        var validSecond := i + 1 < data.Length && ValidSecondOf3(b0, data[i + 1]);
        if validSecond && i + 2 < data.Length && IsContinuation(data[i + 2]) {
          Keeps3(all, i, output);
          output := output + [Code3(b0, data[i + 1], data[i + 2])];
          i := i + 3;
          continue;
        }
        Drops3(all, i);
        i := i + 1;
        continue;
      }
      if 0xF0 <= b0 <= 0xF4 {
        var validSecond := i + 1 < data.Length && ValidSecondOf4(b0, data[i + 1]);
        if
          && validSecond
          && i + 2 < data.Length && i + 3 < data.Length
          && IsContinuation(data[i + 2]) && IsContinuation(data[i + 3])
        {
          Keeps4(all, i, output);
          output := output + [Code4(b0, data[i + 1], data[i + 2], data[i + 3])];
          i := i + 4;
          continue;
        }
        Drops4(all, i);
        i := i + 1;
        continue;
      }
      DropsLead(all, i);
      i := i + 1;
    }
    NothingLeft(all);
  }

  predicate ValidSecondOf3(b0: Byte, b1: Byte) {
    || (b0 == 0xE0 && 0xA0 <= b1 <= 0xBF)
    || (0xE1 <= b0 <= 0xEC && IsContinuation(b1))
    || (b0 == 0xED && 0x80 <= b1 <= 0x9F)
    || (0xEE <= b0 <= 0xEF && IsContinuation(b1))
  }

  predicate ValidSecondOf4(b0: Byte, b1: Byte) {
    || (b0 == 0xF0 && 0x90 <= b1 <= 0xBF)
    || (0xF1 <= b0 <= 0xF3 && IsContinuation(b1))
    || (b0 == 0xF4 && 0x80 <= b1 <= 0x8F)
  }

  // The payload of two, three and four octets: masks are remainders, shifts are
  // products, and disjoint bit fields are added up.

  function Code2(b0: Byte, b1: Byte): Scalar
    requires 0xC2 <= b0 <= 0xDF && IsContinuation(b1)
  {
    var x0: int, x1: int := b0 % 0x20, b1 % 0x40;
    x0 * 0x40 + x1
  }

  function Code3(b0: Byte, b1: Byte, b2: Byte): Scalar
    requires ValidSecondOf3(b0, b1) && IsContinuation(b2)
  {
    var x0: int, x1: int, x2: int := b0 % 0x10, b1 % 0x40, b2 % 0x40;
    x0 * 0x1000 + x1 * 0x40 + x2
  }

  function Code4(b0: Byte, b1: Byte, b2: Byte, b3: Byte): Scalar
    requires ValidSecondOf4(b0, b1) && IsContinuation(b2) && IsContinuation(b3)
  {
    var x0: int, x1: int, x2: int, x3: int := b0 % 0x08, b1 % 0x40, b2 % 0x40, b3 % 0x40;
    x0 * 0x40000 + x1 * 0x1000 + x2 * 0x40 + x3
  }

  lemma NothingLeft(s: seq<Byte>)
    ensures Decode(s[|s|..]) == []
  {
  }

  lemma Keeps(s: seq<Byte>, i: nat, c: Char, output: seq<Scalar>)
    requires i + |c| <= |s| && s[i..i + |c|] == c
    ensures output + Decode(s[i..]) == output + [ScalarOf(c)] + Decode(s[i + |c|..])
  {
    hide Chars, CharLen, ScalarOf;
    assert s[i..] == c + s[i + |c|..];
    CharsPrepend(c, s[i + |c|..]);
  }

  lemma Keeps1(s: seq<Byte>, i: nat, output: seq<Scalar>)
    requires i < |s| && s[i] <= 0x7F
    ensures output + Decode(s[i..]) == output + [s[i]] + Decode(s[i + 1..])
  {
    Keeps(s, i, [s[i]], output);
  }

  lemma Keeps2(s: seq<Byte>, i: nat, output: seq<Scalar>)
    requires i + 1 < |s| && 0xC2 <= s[i] <= 0xDF && IsContinuation(s[i + 1])
    ensures output + Decode(s[i..]) == output + [Code2(s[i], s[i + 1])] + Decode(s[i + 2..])
  {
    hide Decode;
    var c := [s[i], s[i + 1]];
    assert s[i..i + 2] == c;
    Keeps(s, i, c, output);
  }

  lemma Keeps3(s: seq<Byte>, i: nat, output: seq<Scalar>)
    requires i + 2 < |s| && ValidSecondOf3(s[i], s[i + 1]) && IsContinuation(s[i + 2])
    ensures output + Decode(s[i..]) == output + [Code3(s[i], s[i + 1], s[i + 2])] + Decode(s[i + 3..])
  {
    hide Decode;
    var c := [s[i], s[i + 1], s[i + 2]];
    assert s[i..i + 3] == c;
    Keeps(s, i, c, output);
  }

  lemma Keeps4(s: seq<Byte>, i: nat, output: seq<Scalar>)
    requires i + 3 < |s| && ValidSecondOf4(s[i], s[i + 1])
    requires IsContinuation(s[i + 2]) && IsContinuation(s[i + 3])
    ensures output + Decode(s[i..]) ==
      output + [Code4(s[i], s[i + 1], s[i + 2], s[i + 3])] + Decode(s[i + 4..])
  {
    hide Decode;
    var c := [s[i], s[i + 1], s[i + 2], s[i + 3]];
    assert s[i..i + 4] == c;
    Keeps(s, i, c, output);
  }

  lemma Drops(s: seq<Byte>, i: nat)
    requires i < |s| && CharLen(s[i..]) == 0
    ensures Decode(s[i..]) == Decode(s[i + 1..])
  {
    assert s[i..][1..] == s[i + 1..];
  }

  lemma Drops2(s: seq<Byte>, i: nat)
    requires i < |s| && 0xC2 <= s[i] <= 0xDF
    requires i + 1 < |s| ==> !IsContinuation(s[i + 1])
    ensures Decode(s[i..]) == Decode(s[i + 1..])
  {
    Drops(s, i);
  }

  lemma Drops3(s: seq<Byte>, i: nat)
    requires i < |s| && 0xE0 <= s[i] <= 0xEF
    requires i + 2 < |s| ==> !(ValidSecondOf3(s[i], s[i + 1]) && IsContinuation(s[i + 2]))
    ensures Decode(s[i..]) == Decode(s[i + 1..])
  {
    Drops(s, i);
  }

  lemma Drops4(s: seq<Byte>, i: nat)
    requires i < |s| && 0xF0 <= s[i] <= 0xF4
    requires i + 3 < |s| ==>
      !(ValidSecondOf4(s[i], s[i + 1]) && IsContinuation(s[i + 2]) && IsContinuation(s[i + 3]))
    ensures Decode(s[i..]) == Decode(s[i + 1..])
  {
    Drops(s, i);
  }

  lemma DropsLead(s: seq<Byte>, i: nat)
    requires i < |s| && (0x80 <= s[i] <= 0xC1 || 0xF5 <= s[i])
    ensures Decode(s[i..]) == Decode(s[i + 1..])
  {
    Drops(s, i);
  }
}
