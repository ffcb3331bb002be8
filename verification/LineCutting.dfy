/**
 Cutting a sequence after each line feed: the reference the line reader, the
 tail reader, the text scan and the text splitter are all held against. It is
 used on bytes and on decoded text alike.
 */
module LineCutting {
  /** The pieces of s that a line feed ends, in order. */
  function Terminated<T(==)>(s: seq<T>, lf: T): seq<seq<T>> {
    if s == [] then []
    else
      var init := s[..|s| - 1];
      if s[|s| - 1] == lf then Terminated(init, lf) + [Rest(init, lf) + [lf]] else Terminated(init, lf)
  }

  /** What follows the last line feed of s. */
  function Rest<T(==)>(s: seq<T>, lf: T): seq<T> {
    if s == [] || s[|s| - 1] == lf then [] else Rest(s[..|s| - 1], lf) + [s[|s| - 1]]
  }

  /** All pieces of s: the terminated ones, and the unterminated tail unless it is empty. */
  function Pieces<T(==)>(s: seq<T>, lf: T): seq<seq<T>> {
    if Rest(s, lf) == [] then Terminated(s, lf) else Terminated(s, lf) + [Rest(s, lf)]
  }

  function Join<T>(ps: seq<seq<T>>): seq<T> {
    if ps == [] then [] else Join(ps[..|ps| - 1]) + ps[|ps| - 1]
  }

  predicate EndsWith<T(==)>(s: seq<T>, lf: T) {
    s != [] && s[|s| - 1] == lf
  }

  /** What makes ps the cut of s: nothing lost, no empty piece, a line feed exactly at each inner end. */
  ghost predicate IsCut<T>(ps: seq<seq<T>>, s: seq<T>, lf: T) {
    && Join(ps) == s
    && (forall i :: 0 <= i < |ps| ==> ps[i] != [])
    && (forall i :: 0 <= i < |ps| ==> lf !in ps[i][..|ps[i]| - 1])
    && (forall i :: 0 <= i < |ps| - 1 ==> EndsWith(ps[i], lf))
  }

  lemma {:induction false} RestHasNoLf<T>(s: seq<T>, lf: T)
    ensures lf !in Rest(s, lf)
    ensures Rest(s, lf) == [] <==> s == [] || EndsWith(s, lf)
  {
    if s != [] {
      RestHasNoLf(s[..|s| - 1], lf);
    }
  }

  lemma JoinOneMore<T>(ps: seq<seq<T>>, p: seq<T>)
    ensures Join(ps + [p]) == Join(ps) + p
  {
    assert (ps + [p])[..|ps|] == ps;
  }

  lemma NothingJoined<T>(lf: T)
    ensures Join<T>(Terminated<T>([], lf)) + Rest<T>([], lf) == []
  {
  }

  lemma {:induction false} TerminatedJoins<T>(s: seq<T>, lf: T)
    ensures Join(Terminated(s, lf)) + Rest(s, lf) == s
  {
    hide Join;
    if s == [] {
      NothingJoined(lf);
    } else {
      var init, x := s[..|s| - 1], s[|s| - 1];
      var done, open := Join(Terminated(init, lf)), Rest(init, lf);
      TerminatedJoins(init, lf);
      assert s == done + open + [x];
      if x == lf {
        JoinOneMore(Terminated(init, lf), open + [lf]);
        assert done + (open + [lf]) == s;
      } else {
        assert done + (open + [x]) == s;
      }
    }
  }

  ghost predicate IsTerminatedPiece<T>(p: seq<T>, lf: T) {
    EndsWith(p, lf) && lf !in p[..|p| - 1]
  }

  lemma {:induction false} TerminatedShape<T>(s: seq<T>, lf: T)
    ensures forall i :: 0 <= i < |Terminated(s, lf)| ==> IsTerminatedPiece(Terminated(s, lf)[i], lf)
  {
    if s != [] {
      var init := s[..|s| - 1];
      TerminatedShape(init, lf);
      RestHasNoLf(init, lf);
      assert (Rest(init, lf) + [lf])[..|Rest(init, lf)|] == Rest(init, lf);
    }
  }

  /** Pieces is a cut of s ... */
  lemma PiecesIsCut<T>(s: seq<T>, lf: T)
    ensures IsCut(Pieces(s, lf), s, lf)
  {
    TerminatedShape(s, lf);
    TerminatedJoins(s, lf);
    RestHasNoLf(s, lf);
    var ps := Pieces(s, lf);
    if Rest(s, lf) != [] {
      assert ps[..|ps| - 1] == Terminated(s, lf);
    }
  }

  /** ... and the only one. */
  lemma {:induction false} CutIsUnique<T>(ps: seq<seq<T>>, s: seq<T>, lf: T)
    requires IsCut(ps, s, lf)
    ensures ps == Pieces(s, lf)
    decreases |ps|
  {
    hide Pieces;
    NothingCut(lf);
    if ps != [] {
      var front, last := ps[..|ps| - 1], ps[|ps| - 1];
      CutIsUnique(front, Join(front), lf);
      if front != [] {
        assert front[|front| - 1] == ps[|front| - 1];
        JoinEnd(front);
      }
      PiecesConcat(Join(front), last, lf);
      SinglePiece(last, lf);
    }
  }

  lemma NothingCut<T>(lf: T)
    ensures Pieces([], lf) == []
  {
  }

  lemma JoinEnd<T>(ps: seq<seq<T>>)
    requires ps != [] && ps[|ps| - 1] != []
    ensures Join(ps) != [] && Join(ps)[|Join(ps)| - 1] == ps[|ps| - 1][|ps[|ps| - 1]| - 1]
  {
  }

  lemma {:induction false} SinglePiece<T>(p: seq<T>, lf: T)
    requires p != [] && lf !in p[..|p| - 1]
    ensures Pieces(p, lf) == [p]
  {
    NoLfNoCut(p[..|p| - 1], lf);
    assert p == p[..|p| - 1] + [p[|p| - 1]];
  }

  lemma {:induction false} NoLfNoCut<T>(p: seq<T>, lf: T)
    requires lf !in p
    ensures Terminated(p, lf) == [] && Rest(p, lf) == p
  {
    if p != [] {
      NoLfNoCut(p[..|p| - 1], lf);
      assert p == p[..|p| - 1] + [p[|p| - 1]];
    }
  }

  /** After a line feed, or at the start, cutting begins afresh. */
  lemma {:induction false} TerminatedConcat<T>(a: seq<T>, b: seq<T>, lf: T)
    requires a == [] || EndsWith(a, lf)
    ensures Terminated(a + b, lf) == Terminated(a, lf) + Terminated(b, lf)
    ensures Rest(a + b, lf) == Rest(b, lf)
    decreases |b|
  {
    if b == [] {
      assert a + b == a;
    } else {
      var init := b[..|b| - 1];
      TerminatedConcat(a, init, lf);
      assert (a + b)[..|a + b| - 1] == a + init && (a + b)[|a + b| - 1] == b[|b| - 1];
    }
  }

  lemma PiecesConcat<T>(a: seq<T>, b: seq<T>, lf: T)
    requires a == [] || EndsWith(a, lf)
    ensures Pieces(a + b, lf) == Pieces(a, lf) + Pieces(b, lf)
  {
    TerminatedConcat(a, b, lf);
  }

  /** Reading on only ever adds terminated pieces. */
  lemma {:induction false} TerminatedGrows<T>(s: seq<T>, p: nat, lf: T)
    requires p <= |s|
    ensures Terminated(s[..p], lf) <= Terminated(s, lf)
    ensures Terminated(s[..p], lf) <= Pieces(s, lf)
    decreases |s|
  {
    if p == |s| {
      assert s[..p] == s;
    } else {
      TerminatedGrows(s[..|s| - 1], p, lf);
      assert s[..|s| - 1][..p] == s[..p];
    }
  }

  /** No piece has ended yet exactly when the open piece starts at offset 0. */
  lemma OffsetZero<T>(s: seq<T>, lf: T)
    ensures |Rest(s, lf)| <= |s|
    ensures |Rest(s, lf)| == |s| <==> Terminated(s, lf) == []
  {
    TerminatedShape(s, lf);
    TerminatedJoins(s, lf);
    if Terminated(s, lf) != [] {
      JoinEnd(Terminated(s, lf));
    }
  }

  /** How many line feeds s holds. */
  function CountLf<T(==)>(s: seq<T>, lf: T): nat {
    if s == [] then 0 else CountLf(s[..|s| - 1], lf) + if s[|s| - 1] == lf then 1 else 0
  }

  lemma {:induction false} CountLfConcat<T>(a: seq<T>, b: seq<T>, lf: T)
    ensures CountLf(a + b, lf) == CountLf(a, lf) + CountLf(b, lf)
    decreases |b|
  {
    if b == [] {
      assert a + b == a;
    } else {
      assert (a + b)[..|a + b| - 1] == a + b[..|b| - 1];
      CountLfConcat(a, b[..|b| - 1], lf);
    }
  }

  /** There are as many pieces as line feeds, and one more for an unterminated tail. */
  lemma {:induction false} PieceCount<T>(s: seq<T>, lf: T)
    ensures |Terminated(s, lf)| == CountLf(s, lf)
    ensures |Pieces(s, lf)| == CountLf(s, lf) + if s != [] && !EndsWith(s, lf) then 1 else 0
  {
    RestHasNoLf(s, lf);
    if s != [] {
      PieceCount(s[..|s| - 1], lf);
    }
  }

  /**
   splitLinesKeepingTerminator: the loop over decoded text, which slices off the
   text up to each line feed and the remainder if there is any.
   */
  method SplitLinesKeepingTerminator<T(==)>(text: seq<T>, lf: T) returns (lines: seq<seq<T>>)
    ensures lines == Pieces(text, lf)
  {
    lines := [];
    var start := 0;
    for i := 0 to |text|
      invariant 0 <= start <= i
      invariant lines == Terminated(text[..i], lf) && text[start..i] == Rest(text[..i], lf)
    {
      assert text[..i + 1][..i] == text[..i];
      assert text[start..i + 1] == text[start..i] + [text[i]];
      if text[i] == lf {
        lines := lines + [text[start..i + 1]];
        start := i + 1;
      }
    }
    assert text[..|text|] == text;
    if start < |text| {
      lines := lines + [text[start..]];
    }
  }
}
