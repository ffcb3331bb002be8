/**
 The SSH glob walker. It has the attributes of every entry from the listing, no
 directory keys, and must skip the dot entries an SFTP listing contains. On a
 tree it yields what the local walker yields, in the same order.
 */
module SshGlobWalk {
  import opened Wrappers
  import opened GlobWalk

  predicate IsDots(e: Entry) {
    e.name == "." || e.name == ".."
  }

  function WithoutDots(es: seq<Entry>): seq<Entry> {
    if es == [] then [] else (if IsDots(es[0]) then [] else [es[0]]) + WithoutDots(es[1..])
  }

  function ListingWithoutDots(fs: Fs, n: Node): Option<seq<Entry>> {
    match Readdir(fs, n) case None => None case Some(es) => Some(WithoutDots(es))
  }

  type Rank = Node -> nat

  /** Leaving the dot entries aside, directories only ever lead down. */
  ghost predicate Tree(fs: Fs, rank: Rank) {
    forall n, e :: Readdir(fs, n).Some? && e in Readdir(fs, n).value && !IsDots(e) ==> LeadsDown(fs, rank, n, e)
  }

  ghost predicate LeadsDown(fs: Fs, rank: Rank, n: Node, e: Entry) {
    IsDirectory(fs, e) ==> rank(e.target.value) < rank(n)
  }

  predicate IsDirectory(fs: Fs, e: Entry) {
    Stat(fs, e).Some? && Stat(fs, e).value.Dir?
  }

  function SshWalk(fs: Fs, rank: Rank, seg: SegmentTest, base: Path, n: Node, parts: seq<Part>): seq<Path>
    requires Tree(fs, rank)
    decreases rank(n), |parts|, 1, 0
  {
    if parts == [] then []
    else if parts[0].StarStar? then
      (if |parts| > 1 then SshWalk(fs, rank, seg, base, n, parts[1..]) else [base])
      + match Readdir(fs, n)
        case None => []
        case Some(es) => SshLoop(fs, rank, seg, base, n, es, parts)
    else
      match Readdir(fs, n)
      case None => []
      case Some(es) => SshLoop(fs, rank, seg, base, n, es, parts)
  }

  function SshLoop(fs: Fs, rank: Rank, seg: SegmentTest, base: Path, ghost n: Node, es: seq<Entry>, parts: seq<Part>): seq<Path>
    requires Tree(fs, rank) && parts != []
    requires forall e :: e in es && !IsDots(e) ==> LeadsDown(fs, rank, n, e)
    decreases rank(n), |parts|, 0, |es|
  {
    if es == [] then []
    else
      (if IsDots(es[0]) then [] else SshEntry(fs, rank, seg, base, n, es[0], parts))
      + SshLoop(fs, rank, seg, base, n, es[1..], parts)
  }

  function SshEntry(fs: Fs, rank: Rank, seg: SegmentTest, base: Path, ghost n: Node, e: Entry, parts: seq<Part>): seq<Path>
    requires Tree(fs, rank) && parts != [] && LeadsDown(fs, rank, n, e)
    decreases rank(n), |parts|, 0, 0
  {
    var fullPath := base + [e.name];
    if parts[0].StarStar? then
      if IsDirectory(fs, e) then SshWalk(fs, rank, seg, fullPath, e.target.value, parts)
      else if |parts| == 1 then [fullPath]
      else []
    else if !seg(parts[0].pattern, e.name) then []
    else if |parts| == 1 then [fullPath]
    else if IsDirectory(fs, e) then SshWalk(fs, rank, seg, fullPath, e.target.value, parts[1..])
    else []
  }

  /**
   The same tree seen from both sides: same directories, same listings once the dot
   entries are left out, and nothing a local stat fails on, as without symbolic links.
   */
  ghost predicate SameTree(local: Fs, remote: Fs) {
    && (forall n :: Readdir(local, n) == ListingWithoutDots(remote, n))
    && (forall e :: IsDirectory(local, e) <==> IsDirectory(remote, e))
    && (forall n, e :: Readdir(local, n).Some? && e in Readdir(local, n).value ==> Stat(local, e).Some?)
  }

  ghost predicate SameKey(a: FsNode, b: FsNode) {
    a.Dir? && b.Dir? && a.dev == b.dev && a.ino == b.ino
  }

  ghost predicate DistinctKeys(fs: Fs) {
    forall m, n :: m in fs && n in fs && SameKey(fs[m], fs[n]) ==> m == n
  }

  /** The visited keys are those of directories at or above the given rank. */
  ghost predicate AllAbove(fs: Fs, rank: Rank, bound: nat, visited: set<Key>) {
    forall m :: m in fs && fs[m].Dir? && (fs[m].dev, fs[m].ino) in visited ==> rank(m) >= bound
  }

  ghost predicate Comparable(local: Fs, remote: Fs, rank: Rank) {
    Keyed(local) && DistinctKeys(local) && SameTree(local, remote) && Tree(remote, rank)
  }

  lemma {:induction false} SameWalk(local: Fs, remote: Fs, rank: Rank, seg: SegmentTest, base: Path, n: Node,
                                    parts: seq<Part>, visited: set<Key>)
    requires Comparable(local, remote, rank) && AllAbove(local, rank, rank(n), visited)
    ensures Walk(local, seg, base, n, parts, visited) == SshWalk(remote, rank, seg, base, n, parts)
    decreases rank(n), |parts|, 1, 0
  {
    hide WalkBelow, WalkSegment, SshLoop;
    if parts != [] {
      if parts[0].StarStar? && |parts| > 1 {
        SameWalk(local, remote, rank, seg, base, n, parts[1..], visited);
      }
      if Readdir(remote, n).Some? {
        var es := Readdir(remote, n).value;
        forall e | e in es && !IsDots(e) ensures Stat(local, e).Some? {
          DotsLeftOut(es, e);
        }
        SameLoop(local, remote, rank, seg, base, n, es, parts, visited);
      }
    }
  }

  lemma {:induction false} DotsLeftOut(es: seq<Entry>, e: Entry)
    ensures e in WithoutDots(es) <==> e in es && !IsDots(e)
  {
    if es != [] {
      DotsLeftOut(es[1..], e);
    }
  }

  lemma {:induction false} SameLoop(local: Fs, remote: Fs, rank: Rank, seg: SegmentTest, base: Path, n: Node,
                                    es: seq<Entry>, parts: seq<Part>, visited: set<Key>)
    requires Comparable(local, remote, rank) && AllAbove(local, rank, rank(n), visited) && parts != []
    requires forall e :: e in es && !IsDots(e) ==> LeadsDown(remote, rank, n, e) && Stat(local, e).Some?
    ensures SshLoop(remote, rank, seg, base, n, es, parts) ==
      if parts[0].StarStar? then WalkBelow(local, seg, base, WithoutDots(es), parts, visited)
      else WalkSegment(local, seg, base, WithoutDots(es), parts, visited)
    decreases rank(n), |parts|, 0, |es|
  {
    hide BelowEntry, SegmentEntry, SshEntry;
    if es != [] {
      SameLoop(local, remote, rank, seg, base, n, es[1..], parts, visited);
      if !IsDots(es[0]) {
        SameEntry(local, remote, rank, seg, base, n, es[0], parts, visited);
        assert WithoutDots(es)[0] == es[0] && WithoutDots(es)[1..] == WithoutDots(es[1..]);
      } else {
        assert WithoutDots(es) == WithoutDots(es[1..]);
      }
    }
  }

  /** Below n nothing has been visited, so the local walker never turns back there. */
  lemma {:induction false} SameEntry(local: Fs, remote: Fs, rank: Rank, seg: SegmentTest, base: Path, n: Node,
                                     e: Entry, parts: seq<Part>, visited: set<Key>)
    requires Comparable(local, remote, rank) && AllAbove(local, rank, rank(n), visited) && parts != []
    requires LeadsDown(remote, rank, n, e) && Stat(local, e).Some?
    ensures SshEntry(remote, rank, seg, base, n, e, parts) ==
      if parts[0].StarStar? then BelowEntry(local, seg, base, e, parts, visited)
      else SegmentEntry(local, seg, base, e, parts, visited)
    decreases rank(n), |parts|, 0, 0
  {
    hide Walk, SshWalk;
    if IsDirectory(local, e) && (parts[0].StarStar? || |parts| > 1) {
      assert IsDirectory(remote, e);
      assert KeyOf(local, e) !in visited;
      SameWalk(local, remote, rank, seg, base + [e.name], e.target.value,
               if parts[0].StarStar? then parts else parts[1..], visited + {KeyOf(local, e)});
    } else if IsDirectory(remote, e) {
      assert IsDirectory(local, e);
    }
  }

  /** On a tree with distinct directory keys, both globs yield the same paths in the same order. */
  lemma GlobsAgreeOnTrees(local: Fs, remote: Fs, rank: Rank, seg: SegmentTest, root: Path, n: Node, parts: seq<Part>)
    requires Comparable(local, remote, rank)
    ensures Glob(local, seg, root, n, parts) == SshWalk(remote, rank, seg, root, n, parts)
  {
    SameWalk(local, remote, rank, seg, root, n, parts,
             if n in local && local[n].Dir? then {(local[n].dev, local[n].ino)} else {});
  }

  /** The SSH walk, too, yields its results in the order of the listing, dot entries aside. */
  lemma SshWalkFollowsListing(local: Fs, remote: Fs, rank: Rank, seg: SegmentTest, base: Path, n: Node, parts: seq<Part>)
    requires Comparable(local, remote, rank) && parts != [] && Readdir(remote, n).Some?
    ensures var ps := SshWalk(remote, rank, seg, base, n, parts);
      var here := if parts[0].Segment? then [] else if |parts| == 1 then [base] else SshWalk(remote, rank, seg, base, n, parts[1..]);
      here <= ps && InListingOrder(base, WithoutDots(Readdir(remote, n).value), ps, |here|)
  {
    hide Walk, SshWalk, InListingOrder;
    SameWalk(local, remote, rank, seg, base, n, parts, {});
    SameWalk(local, remote, rank, seg, base, n, parts[1..], {});
    WalkFollowsListing(local, seg, base, n, parts, {});
  }
}
