/**
 The glob walkers. The local one follows symbolic links over a directory graph
 that may contain cycles and carries the keys of the directories on its own path;
 the SSH one has no keys and runs over trees. A path is the list of names below
 the root; segment matching is left abstract.
 */
module GlobWalk {
  import opened Wrappers

  type Key = (nat, nat)
  type Path = seq<string>
  type Node = nat

  /** A directory entry and what it leads to; nothing when stat fails on it. */
  datatype Entry = Entry(name: string, target: Option<Node>)

  /** A directory has device and inode numbers, and a listing unless readdir fails on it. */
  datatype FsNode = File | Dir(dev: nat, ino: nat, listing: Option<seq<Entry>>)

  type Fs = map<Node, FsNode>

  datatype Part = StarStar | Segment(pattern: string)

  type SegmentTest = (string, string) -> bool

  /** No key stands for a file system without inode numbers. */
  function CycleKey(dev: nat, ino: nat): Option<Key> {
    if ino == 0 then None else Some((dev, ino))
  }

  function Readdir(fs: Fs, n: Node): Option<seq<Entry>> {
    if n in fs && fs[n].Dir? then fs[n].listing else None
  }

  function Stat(fs: Fs, e: Entry): Option<FsNode> {
    if e.target.Some? && e.target.value in fs then Some(fs[e.target.value]) else None
  }

  /** Every directory has an inode number, and no listing repeats a name. */
  ghost predicate Keyed(fs: Fs) {
    && (forall n :: n in fs && fs[n].Dir? ==> fs[n].ino != 0)
    && (forall n :: n in fs && Readdir(fs, n).Some? ==> DistinctNames(Readdir(fs, n).value))
  }

  ghost predicate DistinctNames(es: seq<Entry>) {
    forall i, j :: 0 <= i < j < |es| ==> es[i].name != es[j].name
  }

  ghost function AllKeys(fs: Fs): set<Key> {
    set n | n in fs && fs[n].Dir? :: (fs[n].dev, fs[n].ino)
  }

  // The local walker.

  function Walk(fs: Fs, seg: SegmentTest, base: Path, n: Node, parts: seq<Part>, visited: set<Key>): seq<Path>
    requires Keyed(fs)
    decreases AllKeys(fs) - visited, |parts|, 1, 0
  {
    if parts == [] then []
    else if parts[0].StarStar? then
      (if |parts| > 1 then Walk(fs, seg, base, n, parts[1..], visited) else [base])
      + match Readdir(fs, n)
        case None => []
        case Some(entries) => WalkBelow(fs, seg, base, entries, parts, visited)
    else
      match Readdir(fs, n)
      case None => []
      case Some(entries) => WalkSegment(fs, seg, base, entries, parts, visited)
  }

  /** The loop of the `**` case: descend with the whole pattern. */
  function WalkBelow(fs: Fs, seg: SegmentTest, base: Path, es: seq<Entry>, parts: seq<Part>, visited: set<Key>): seq<Path>
    requires Keyed(fs) && parts != []
    decreases AllKeys(fs) - visited, |parts|, 0, |es|
  {
    if es == [] then []
    else BelowEntry(fs, seg, base, es[0], parts, visited) + WalkBelow(fs, seg, base, es[1..], parts, visited)
  }

  function BelowEntry(fs: Fs, seg: SegmentTest, base: Path, e: Entry, parts: seq<Part>, visited: set<Key>): seq<Path>
    requires Keyed(fs) && parts != []
    decreases AllKeys(fs) - visited, |parts|, 0, 0
  {
    match Stat(fs, e)
    case None => []
    case Some(File) => if |parts| == 1 then [base + [e.name]] else []
    case Some(Dir(dev, ino, _)) =>
      var key := CycleKey(dev, ino).value;
      if key in visited then [] else Walk(fs, seg, base + [e.name], e.target.value, parts, visited + {key})
  }

  /** The loop of the other case: descend with the rest of the pattern. */
  function WalkSegment(fs: Fs, seg: SegmentTest, base: Path, es: seq<Entry>, parts: seq<Part>, visited: set<Key>): seq<Path>
    requires Keyed(fs) && parts != [] && parts[0].Segment?
    decreases AllKeys(fs) - visited, |parts|, 0, |es|
  {
    if es == [] then []
    else SegmentEntry(fs, seg, base, es[0], parts, visited) + WalkSegment(fs, seg, base, es[1..], parts, visited)
  }

  function SegmentEntry(fs: Fs, seg: SegmentTest, base: Path, e: Entry, parts: seq<Part>, visited: set<Key>): seq<Path>
    requires Keyed(fs) && parts != [] && parts[0].Segment?
    decreases AllKeys(fs) - visited, |parts|, 0, 0
  {
    if !seg(parts[0].pattern, e.name) then []
    else if |parts| == 1 then [base + [e.name]]
    else
      match Stat(fs, e)
      case Some(Dir(dev, ino, _)) =>
        var key := CycleKey(dev, ino).value;
        if key in visited then [] else Walk(fs, seg, base + [e.name], e.target.value, parts[1..], visited + {key})
      case _ => []
  }

  /** glob: the root's own key is on the path from the start. */
  function Glob(fs: Fs, seg: SegmentTest, root: Path, n: Node, parts: seq<Part>): seq<Path>
    requires Keyed(fs)
  {
    Walk(fs, seg, root, n, parts,
         if n in fs && fs[n].Dir? then {CycleKey(fs[n].dev, fs[n].ino).value} else {})
  }

  // What a walk is meant to find.

  /** The names match the pattern: `**` takes any number of them, a segment exactly one. */
  ghost predicate Matches(seg: SegmentTest, parts: seq<Part>, names: Path)
    decreases |parts| + |names|
  {
    if parts == [] then names == []
    else if parts[0].StarStar? then
      Matches(seg, parts[1..], names) || (names != [] && Matches(seg, parts, names[1..]))
    else
      names != [] && seg(parts[0].pattern, names[0]) && Matches(seg, parts[1..], names[1..])
  }

  function Named(es: seq<Entry>, name: string): Option<Entry> {
    if es == [] then None else if es[0].name == name then Some(es[0]) else Named(es[1..], name)
  }

  function Lookup(fs: Fs, n: Node, name: string): Option<Entry> {
    match Readdir(fs, n) case None => None case Some(es) => Named(es, name)
  }

  /** e leads to a directory that is not on the path yet. */
  ghost predicate Fresh(fs: Fs, e: Entry, visited: set<Key>) {
    Stat(fs, e).Some? && Stat(fs, e).value.Dir? && KeyOf(fs, e) !in visited
  }

  ghost function KeyOf(fs: Fs, e: Entry): Key {
    match Stat(fs, e) case Some(Dir(dev, ino, _)) => (dev, ino) case _ => (0, 0)
  }

  /** Following the names through directories none of which is on the path already: where that leads. */
  ghost function Enter(fs: Fs, n: Node, names: Path, visited: set<Key>): Option<Node>
    decreases |names|
  {
    if names == [] then Some(n)
    else match Lookup(fs, n, names[0])
      case None => None
      case Some(e) =>
        if Fresh(fs, e, visited) then Enter(fs, e.target.value, names[1..], visited + {KeyOf(fs, e)}) else None
  }

  ghost function Init(names: Path): Path
    requires names != []
  {
    names[..|names| - 1]
  }

  /** The entry the names lead to, all directories before it being entered. */
  ghost function EntryAt(fs: Fs, n: Node, names: Path, visited: set<Key>): Option<Entry>
    requires names != []
  {
    match Enter(fs, n, Init(names), visited)
    case None => None
    case Some(d) => Lookup(fs, d, names[|names| - 1])
  }

  /**
   The paths to be found below n. A pattern ending in `**` finds the directories
   that match it and can be entered, and the files in them. Any other pattern
   finds every entry that matches it, whatever it leads to.
   */
  ghost predicate Found(fs: Fs, seg: SegmentTest, n: Node, parts: seq<Part>, visited: set<Key>, names: Path) {
    parts != [] &&
    if parts[|parts| - 1].StarStar? then
      || (Enter(fs, n, names, visited).Some? && Matches(seg, parts, names))
      || (&& names != []
          && EntryAt(fs, n, names, visited).Some?
          && Stat(fs, EntryAt(fs, n, names, visited).value) == Some(File)
          && Matches(seg, parts, Init(names)))
    else
      && names != []
      && EntryAt(fs, n, names, visited).Some?
      && Matches(seg, parts, names)
  }

  /** In how many ways the pattern takes the names. */
  ghost function Ways(seg: SegmentTest, parts: seq<Part>, names: Path): nat
    decreases |parts| + |names|
  {
    if parts == [] then if names == [] then 1 else 0
    else if parts[0].StarStar? then
      Ways(seg, parts[1..], names) + if names == [] then 0 else Ways(seg, parts, names[1..])
    else if names != [] && seg(parts[0].pattern, names[0]) then Ways(seg, parts[1..], names[1..])
    else 0
  }

  /** How often a path is to be yielded: in each way in which it is to be found. */
  ghost function Times(fs: Fs, seg: SegmentTest, n: Node, parts: seq<Part>, visited: set<Key>, names: Path): nat {
    if parts == [] then 0
    else if parts[|parts| - 1].StarStar? then
      (if Enter(fs, n, names, visited).Some? then Ways(seg, parts, names) else 0)
      + if names != [] && EntryAt(fs, n, names, visited).Some?
           && Stat(fs, EntryAt(fs, n, names, visited).value) == Some(File)
        then Ways(seg, parts, Init(names)) else 0
    else if names != [] && EntryAt(fs, n, names, visited).Some? then Ways(seg, parts, names)
    else 0
  }

  lemma {:induction false} MatchesIfAWay(seg: SegmentTest, parts: seq<Part>, names: Path)
    ensures Matches(seg, parts, names) <==> Ways(seg, parts, names) > 0
    decreases |parts| + |names|
  {
    if parts != [] {
      if parts[0].StarStar? || names != [] {
        MatchesIfAWay(seg, parts[1..], if parts[0].StarStar? then names else names[1..]);
      }
      if parts[0].StarStar? && names != [] {
        MatchesIfAWay(seg, parts, names[1..]);
      }
    }
  }

  lemma FoundIfAnyTimes(fs: Fs, seg: SegmentTest, n: Node, parts: seq<Part>, visited: set<Key>, names: Path)
    ensures Found(fs, seg, n, parts, visited, names) <==> Times(fs, seg, n, parts, visited, names) > 0
  {
    MatchesIfAWay(seg, parts, names);
    if names != [] {
      MatchesIfAWay(seg, parts, Init(names));
    }
  }

  // The walk yields every path that often.

  /** How often the entry e makes a walk yield a path. */
  ghost function TimesThrough(fs: Fs, seg: SegmentTest, e: Entry, parts: seq<Part>, visited: set<Key>, names: Path): nat
    requires parts != [] && names != []
  {
    if parts[0].StarStar? then
      if Fresh(fs, e, visited) then Times(fs, seg, e.target.value, parts, visited + {KeyOf(fs, e)}, names[1..])
      else if Stat(fs, e) == Some(File) && |parts| == 1 && |names| == 1 then 1
      else 0
    else if !seg(parts[0].pattern, e.name) then 0
    else if |parts| == 1 then if |names| == 1 then 1 else 0
    else if Fresh(fs, e, visited) then Times(fs, seg, e.target.value, parts[1..], visited + {KeyOf(fs, e)}, names[1..])
    else 0
  }

  /** How often all entries of n together do: only the one with the first name can. */
  ghost function TimesBelow(fs: Fs, seg: SegmentTest, e: Option<Entry>, parts: seq<Part>, visited: set<Key>, names: Path): nat
    requires parts != []
  {
    if names == [] || e == None then 0 else TimesThrough(fs, seg, e.value, parts, visited, names)
  }

  lemma EnterHead(fs: Fs, n: Node, names: Path, visited: set<Key>, e: Entry)
    requires names != [] && Lookup(fs, n, names[0]) == Some(e)
    ensures Enter(fs, n, names, visited) ==
      if Fresh(fs, e, visited) then Enter(fs, e.target.value, names[1..], visited + {KeyOf(fs, e)}) else None
    ensures |names| == 1 ==> EntryAt(fs, n, names, visited) == Some(e)
    ensures |names| > 1 ==>
      EntryAt(fs, n, names, visited) ==
        if Fresh(fs, e, visited) then EntryAt(fs, e.target.value, names[1..], visited + {KeyOf(fs, e)}) else None
    ensures |names| > 1 ==> Init(names)[1..] == Init(names[1..]) && Init(names)[0] == names[0]
  {
    if |names| > 1 {
      assert Init(names)[1..] == Init(names[1..]);
    }
  }

  lemma {:induction false} NamedHasName(es: seq<Entry>, name: string)
    ensures Named(es, name).Some? ==> Named(es, name).value in es && Named(es, name).value.name == name
    ensures Named(es, name) == None ==> forall i :: 0 <= i < |es| ==> es[i].name != name
  {
    if es != [] && es[0].name != name {
      NamedHasName(es[1..], name);
    }
  }

  /** A last `**` takes the empty rest in one way only. */
  lemma NothingLeft(seg: SegmentTest, parts: seq<Part>)
    requires |parts| == 1
    ensures forall names: Path :: Ways(seg, parts[1..], names) == if names == [] then 1 else 0
  {
  }

  lemma WaysOfStar(seg: SegmentTest, parts: seq<Part>, names: Path)
    requires parts != [] && parts[0].StarStar?
    ensures Ways(seg, parts, names) ==
      Ways(seg, parts[1..], names) + if names == [] then 0 else Ways(seg, parts, names[1..])
  {
  }

  lemma {:induction false} SegmentNeedsName(seg: SegmentTest, parts: seq<Part>)
    requires parts != [] && parts[|parts| - 1].Segment?
    ensures Ways(seg, parts, []) == 0
  {
    if |parts| > 1 {
      SegmentNeedsName(seg, parts[1..]);
    }
  }

  /** A first name that is not listed leads nowhere. */
  lemma NotListed(fs: Fs, seg: SegmentTest, n: Node, parts: seq<Part>, visited: set<Key>, names: Path)
    requires names != [] && Lookup(fs, n, names[0]) == None
    ensures Times(fs, seg, n, parts, visited, names) == 0
  {
  }

  /** A segment must take the first name. */
  lemma TimesOfSegment(fs: Fs, seg: SegmentTest, n: Node, parts: seq<Part>, visited: set<Key>, names: Path)
    requires parts != [] && parts[0].Segment?
    ensures Times(fs, seg, n, parts, visited, names) ==
      TimesBelow(fs, seg, if names == [] then None else Lookup(fs, n, names[0]), parts, visited, names)
  {
    if names != [] {
      match Lookup(fs, n, names[0])
      case None => NotListed(fs, seg, n, parts, visited, names);
      case Some(e) =>
        EnterHead(fs, n, names, visited, e);
        LookupHasName(fs, n, names[0]);
        hide Enter, Lookup;
        if |parts| > 1 {
          assert parts[1..][|parts| - 2] == parts[|parts| - 1];
          if |names| == 1 && parts[|parts| - 1].Segment? {
            SegmentNeedsName(seg, parts[1..]);
          }
        } else {
          NothingLeft(seg, parts);
        }
    }
  }

  lemma LookupHasName(fs: Fs, n: Node, name: string)
    ensures Lookup(fs, n, name).Some? ==> Lookup(fs, n, name).value.name == name
  {
    if Readdir(fs, n).Some? {
      NamedHasName(Readdir(fs, n).value, name);
    }
  }

  /** `**` takes no name and leaves all to the rest of the pattern, or takes the first and stays. */
  lemma TimesOfStar(fs: Fs, seg: SegmentTest, n: Node, parts: seq<Part>, visited: set<Key>, names: Path)
    requires parts != [] && parts[0].StarStar?
    ensures Times(fs, seg, n, parts, visited, names) ==
      (if |parts| > 1 then Times(fs, seg, n, parts[1..], visited, names) else if names == [] then 1 else 0)
      + TimesBelow(fs, seg, if names == [] then None else Lookup(fs, n, names[0]), parts, visited, names)
  {
    WaysOfStar(seg, parts, names);
    if |parts| > 1 {
      assert parts[1..][|parts| - 2] == parts[|parts| - 1];
    } else {
      NothingLeft(seg, parts);
    }
    if names != [] {
      match Lookup(fs, n, names[0])
      case None =>
        NotListed(fs, seg, n, parts, visited, names);
        NotListed(fs, seg, n, parts[1..], visited, names);
      case Some(e) =>
        EnterHead(fs, n, names, visited, e);
        WaysOfStar(seg, parts, Init(names));
        if parts[|parts| - 1].Segment? {
          SegmentNeedsName(seg, parts);
        }
        assert |names| == 1 ==> Init(names) == [] && names[1..] == [];
    }
  }

  /**
   The walk yields each path exactly as often as there are ways for the pattern to take
   its names. It terminates, whatever cycles the links form, because every descent adds a key.
   */
  lemma {:induction false} WalkCounts(fs: Fs, seg: SegmentTest, base: Path, n: Node, parts: seq<Part>,
                                      visited: set<Key>, p: Path)
    requires Keyed(fs)
    ensures multiset(Walk(fs, seg, base, n, parts, visited))[p] ==
      if base <= p then Times(fs, seg, n, parts, visited, p[|base|..]) else 0
    decreases AllKeys(fs) - visited, |parts|, 1, 0
  {
    hide Times, TimesThrough, WalkBelow, WalkSegment, Ways;
    if parts == [] {
      NoPattern(fs, seg, n, visited);
    } else {
      if base <= p {
        assert p[|base|..] == [] <==> p == base;
        if parts[0].StarStar? {
          TimesOfStar(fs, seg, n, parts, visited, p[|base|..]);
        } else {
          TimesOfSegment(fs, seg, n, parts, visited, p[|base|..]);
        }
      }
      if parts[0].StarStar? && |parts| > 1 {
        WalkCounts(fs, seg, base, n, parts[1..], visited, p);
      }
      if Readdir(fs, n).Some? {
        LoopCounts(fs, seg, base, Readdir(fs, n).value, parts, visited, p);
      }
    }
  }

  lemma NoPattern(fs: Fs, seg: SegmentTest, n: Node, visited: set<Key>)
    ensures forall names :: Times(fs, seg, n, [], visited, names) == 0
  {
  }

  /** Either loop adds what the entry with the next name adds. */
  lemma {:induction false} LoopCounts(fs: Fs, seg: SegmentTest, base: Path, es: seq<Entry>, parts: seq<Part>,
                                      visited: set<Key>, p: Path)
    requires Keyed(fs) && parts != [] && DistinctNames(es)
    ensures multiset(if parts[0].StarStar? then WalkBelow(fs, seg, base, es, parts, visited)
                     else WalkSegment(fs, seg, base, es, parts, visited))[p] ==
      if base < p then TimesBelow(fs, seg, Named(es, p[|base|]), parts, visited, p[|base|..]) else 0
    decreases AllKeys(fs) - visited, |parts|, 0, |es|
  {
    hide TimesThrough, BelowEntry, SegmentEntry;
    if es != [] {
      LoopCounts(fs, seg, base, es[1..], parts, visited, p);
      EntryCounts(fs, seg, base, es[0], parts, visited, p);
      NamedHasName(es[1..], es[0].name);
    }
  }

  lemma {:induction false} EntryCounts(fs: Fs, seg: SegmentTest, base: Path, e: Entry, parts: seq<Part>,
                                       visited: set<Key>, p: Path)
    requires Keyed(fs) && parts != []
    ensures multiset(if parts[0].StarStar? then BelowEntry(fs, seg, base, e, parts, visited)
                     else SegmentEntry(fs, seg, base, e, parts, visited))[p] ==
      if base < p && p[|base|] == e.name then TimesThrough(fs, seg, e, parts, visited, p[|base|..]) else 0
    decreases AllKeys(fs) - visited, |parts|, 0, 0
  {
    hide Times, Walk;
    var below := base + [e.name];
    assert below <= p <==> base < p && p[|base|] == e.name;
    if Fresh(fs, e, visited) && (parts[0].StarStar? || |parts| > 1) {
      assert KeyOf(fs, e) in AllKeys(fs);
      WalkCounts(fs, seg, below, e.target.value,
                 if parts[0].StarStar? then parts else parts[1..], visited + {KeyOf(fs, e)}, p);
    }
    if base < p {
      assert p[|base|..][1..] == p[|below|..];
      assert p == below <==> p[|base|] == e.name && |p[|base|..]| == 1;
    }
  }

  /** The walk yields exactly the paths to be found. */
  lemma WalkIsExact(fs: Fs, seg: SegmentTest, base: Path, n: Node, parts: seq<Part>, visited: set<Key>, p: Path)
    requires Keyed(fs)
    ensures p in Walk(fs, seg, base, n, parts, visited) <==>
      base <= p && Found(fs, seg, n, parts, visited, p[|base|..])
  {
    hide Walk, Found, Times;
    WalkCounts(fs, seg, base, n, parts, visited, p);
    assert p in Walk(fs, seg, base, n, parts, visited) <==> p in multiset(Walk(fs, seg, base, n, parts, visited));
    if base <= p {
      FoundIfAnyTimes(fs, seg, n, parts, visited, p[|base|..]);
    }
  }

  function RootKey(fs: Fs, n: Node): set<Key> {
    if n in fs && fs[n].Dir? then {(fs[n].dev, fs[n].ino)} else {}
  }

  /** glob yields exactly the paths to be found, the root counting as entered. */
  lemma GlobIsExact(fs: Fs, seg: SegmentTest, root: Path, n: Node, parts: seq<Part>, p: Path)
    requires Keyed(fs)
    ensures p in Glob(fs, seg, root, n, parts) <==> root <= p && Found(fs, seg, n, parts, RootKey(fs, n), p[|root|..])
  {
    WalkIsExact(fs, seg, root, n, parts, RootKey(fs, n), p);
  }

  // In which order.

  /** The path goes on from base through an entry of the listing. */
  ghost predicate Through(base: Path, es: seq<Entry>, p: Path, i: nat) {
    base < p && i < |es| && es[i].name == p[|base|]
  }

  ghost predicate IsThrough(base: Path, es: seq<Entry>, p: Path) {
    exists i: nat :: Through(base, es, p, i)
  }

  /** From index `from` on, paths come in the order of the entries of the listing they go through. */
  ghost predicate InListingOrder(base: Path, es: seq<Entry>, ps: seq<Path>, from: nat) {
    && (forall a :: from <= a < |ps| ==> IsThrough(base, es, ps[a]))
    && (forall a, b, i: nat, j: nat :: from <= a < b < |ps| && Through(base, es, ps[a], i) && Through(base, es, ps[b], j) ==> i <= j)
  }

  ghost predicate AllThrough(base: Path, e: Entry, ps: seq<Path>) {
    forall a :: 0 <= a < |ps| ==> base < ps[a] && ps[a][|base|] == e.name
  }

  lemma EntryGoesThrough(fs: Fs, seg: SegmentTest, base: Path, e: Entry, parts: seq<Part>, visited: set<Key>)
    requires Keyed(fs) && parts != []
    ensures AllThrough(base, e, if parts[0].StarStar? then BelowEntry(fs, seg, base, e, parts, visited)
                                else SegmentEntry(fs, seg, base, e, parts, visited))
  {
    hide Walk, BelowEntry, SegmentEntry;
    var ps := if parts[0].StarStar? then BelowEntry(fs, seg, base, e, parts, visited)
              else SegmentEntry(fs, seg, base, e, parts, visited);
    forall a | 0 <= a < |ps| ensures base < ps[a] && ps[a][|base|] == e.name {
      EntryCounts(fs, seg, base, e, parts, visited, ps[a]);
      assert ps[a] in ps && ps[a] in multiset(ps);
    }
    assert AllThrough(base, e, ps);
  }

  /** What the first entry adds, in front of what the others do. */
  lemma EntryInFront(base: Path, es: seq<Entry>, first: seq<Path>, rest: seq<Path>)
    requires es != [] && DistinctNames(es)
    requires AllThrough(base, es[0], first) && InListingOrder(base, es[1..], rest, 0)
    ensures InListingOrder(base, es, first + rest, 0)
  {
    var ps := first + rest;
    forall a | 0 <= a < |ps| ensures IsThrough(base, es, ps[a]) {
      if a < |first| {
        assert Through(base, es, ps[a], 0);
      } else {
        assert IsThrough(base, es[1..], rest[a - |first|]);
        var i: nat :| Through(base, es[1..], rest[a - |first|], i);
        assert Through(base, es, ps[a], i + 1);
      }
    }
    forall a, b, i: nat, j: nat | 0 <= a < b < |ps| && Through(base, es, ps[a], i) && Through(base, es, ps[b], j)
      ensures i <= j
    {
      if i > 0 && j > 0 && a >= |first| {
        assert Through(base, es[1..], rest[a - |first|], i - 1) && Through(base, es[1..], rest[b - |first|], j - 1);
      }
    }
  }

  /** Of two entries of one listing, the earlier one's results come first. */
  lemma {:induction false} LoopFollowsListing(fs: Fs, seg: SegmentTest, base: Path, es: seq<Entry>, parts: seq<Part>,
                                              visited: set<Key>)
    requires Keyed(fs) && parts != [] && DistinctNames(es)
    ensures InListingOrder(base, es, if parts[0].StarStar? then WalkBelow(fs, seg, base, es, parts, visited)
                                     else WalkSegment(fs, seg, base, es, parts, visited), 0)
    decreases |es|
  {
    if es != [] {
      hide InListingOrder, AllThrough, BelowEntry, SegmentEntry;
      LoopFollowsListing(fs, seg, base, es[1..], parts, visited);
      EntryGoesThrough(fs, seg, base, es[0], parts, visited);
      EntryInFront(base, es, if parts[0].StarStar? then BelowEntry(fs, seg, base, es[0], parts, visited)
                             else SegmentEntry(fs, seg, base, es[0], parts, visited),
                   if parts[0].StarStar? then WalkBelow(fs, seg, base, es[1..], parts, visited)
                   else WalkSegment(fs, seg, base, es[1..], parts, visited));
    }
  }

  /**
   A walk yields its results in listing order. Before them a walk that starts with `**`
   yields what the rest of the pattern finds right here, or the directory itself.
   */
  lemma WalkFollowsListing(fs: Fs, seg: SegmentTest, base: Path, n: Node, parts: seq<Part>, visited: set<Key>)
    requires Keyed(fs) && parts != [] && Readdir(fs, n).Some?
    ensures var ps := Walk(fs, seg, base, n, parts, visited);
      var here := if parts[0].Segment? then [] else if |parts| == 1 then [base] else Walk(fs, seg, base, n, parts[1..], visited);
      here <= ps && InListingOrder(base, Readdir(fs, n).value, ps, |here|)
  {
    hide WalkBelow, WalkSegment;
    var es := Readdir(fs, n).value;
    var here := if parts[0].Segment? then [] else if |parts| == 1 then [base] else Walk(fs, seg, base, n, parts[1..], visited);
    var loop := if parts[0].StarStar? then WalkBelow(fs, seg, base, es, parts, visited)
                else WalkSegment(fs, seg, base, es, parts, visited);
    LoopFollowsListing(fs, seg, base, es, parts, visited);
    assert Walk(fs, seg, base, n, parts, visited) == here + loop;
    hide Walk;
    Shifted(base, es, here, loop);
  }

  lemma Shifted(base: Path, es: seq<Entry>, here: seq<Path>, loop: seq<Path>)
    requires InListingOrder(base, es, loop, 0)
    ensures InListingOrder(base, es, here + loop, |here|)
  {
    hide IsThrough, Through;
    var ps := here + loop;
    assert forall a :: |here| <= a < |ps| ==> ps[a] == loop[a - |here|];
  }

  // Which patterns can make a path appear twice.

  function Stars(parts: seq<Part>): nat {
    if parts == [] then 0 else (if parts[0].StarStar? then 1 else 0) + Stars(parts[1..])
  }

  ghost predicate Distinct(ps: seq<Path>) {
    forall i, j :: 0 <= i < j < |ps| ==> ps[i] != ps[j]
  }

  lemma DistinctIsCountedOnce(ps: seq<Path>)
    ensures Distinct(ps) <==> forall p :: multiset(ps)[p] <= 1
  {
    forall i, j | 0 <= i < j < |ps| && ps[i] == ps[j] ensures multiset(ps)[ps[i]] > 1 {
      SplitAt(ps, j);
      assert ps[..j][i] == ps[i] && ps[i] in ps[..j] && ps[i] in ps[j..] by {
        assert ps[j..][0] == ps[j];
      }
    }
    if Distinct(ps) {
      forall p ensures multiset(ps)[p] <= 1 {
        OnceIfDistinct(ps, p);
      }
    }
  }

  lemma SplitAt(ps: seq<Path>, j: nat)
    requires j <= |ps|
    ensures multiset(ps) == multiset(ps[..j]) + multiset(ps[j..])
  {
    assert ps == ps[..j] + ps[j..];
  }

  lemma {:induction false} OnceIfDistinct(ps: seq<Path>, p: Path)
    requires Distinct(ps)
    ensures multiset(ps)[p] <= 1
  {
    if ps != [] {
      OnceIfDistinct(ps[1..], p);
      SplitAt(ps, 1);
      assert ps[..1] == [ps[0]];
      if p == ps[0] {
        assert p !in ps[1..];
      }
    }
  }

  /** With one `**` the lengths leave it no choice, and without one there is none. */
  lemma {:induction false} WaysOfOneStar(seg: SegmentTest, parts: seq<Part>, names: Path)
    requires Stars(parts) <= 1
    ensures Ways(seg, parts, names) <= 1
    ensures Ways(seg, parts, names) > 0 ==> |names| >= |parts| - Stars(parts)
    ensures Ways(seg, parts, names) > 0 && Stars(parts) == 0 ==> |names| == |parts|
    decreases |parts| + |names|
  {
    if parts != [] {
      if parts[0].StarStar? {
        WaysOfOneStar(seg, parts[1..], names);
        if names != [] {
          WaysOfOneStar(seg, parts, names[1..]);
        }
      } else if names != [] {
        WaysOfOneStar(seg, parts[1..], names[1..]);
      }
    }
  }

  /** A file cannot be entered, so only one of the two reasons to yield a path applies. */
  lemma {:induction false} FilesAreNotEntered(fs: Fs, n: Node, names: Path, visited: set<Key>)
    requires names != [] && Enter(fs, n, names, visited).Some?
    ensures EntryAt(fs, n, names, visited).Some?
    ensures Stat(fs, EntryAt(fs, n, names, visited).value) != Some(File)
    decreases |names|
  {
    hide Lookup;
    var e := Lookup(fs, n, names[0]).value;
    EnterHead(fs, n, names, visited, e);
    if |names| > 1 {
      FilesAreNotEntered(fs, e.target.value, names[1..], visited + {KeyOf(fs, e)});
    }
  }

  /** With at most one `**` no path is yielded twice. */
  lemma WalkIsDistinct(fs: Fs, seg: SegmentTest, base: Path, n: Node, parts: seq<Part>, visited: set<Key>)
    requires Keyed(fs) && Stars(parts) <= 1
    ensures Distinct(Walk(fs, seg, base, n, parts, visited))
  {
    hide Walk, Distinct, Enter, EntryAt, Ways;
    var ps := Walk(fs, seg, base, n, parts, visited);
    forall p ensures multiset(ps)[p] <= 1 {
      WalkCounts(fs, seg, base, n, parts, visited, p);
      if base < p {
        var names := p[|base|..];
        WaysOfOneStar(seg, parts, names);
        WaysOfOneStar(seg, parts, Init(names));
        if Enter(fs, n, names, visited).Some? {
          FilesAreNotEntered(fs, n, names, visited);
        }
      } else if base == p {
        WaysOfOneStar(seg, parts, []);
      }
    }
    DistinctIsCountedOnce(ps);
  }

  /** Some name matches each segment. */
  ghost predicate Matchable(seg: SegmentTest, parts: seq<Part>) {
    forall i :: 0 <= i < |parts| && parts[i].Segment? ==> exists name :: seg(parts[i].pattern, name)
  }

  lemma {:induction false} UnmatchableHasNoWays(seg: SegmentTest, parts: seq<Part>, names: Path)
    requires !Matchable(seg, parts)
    ensures Ways(seg, parts, names) == 0
    decreases |parts| + |names|
  {
    if parts[0].StarStar? || (names != [] && seg(parts[0].pattern, names[0])) {
      var i :| 0 <= i < |parts| && parts[i].Segment? && !exists name :: seg(parts[i].pattern, name);
      assert i > 0 && parts[1..][i - 1] == parts[i];
      UnmatchableHasNoWays(seg, parts[1..], if parts[0].StarStar? then names else names[1..]);
    }
    if parts[0].StarStar? && names != [] {
      UnmatchableHasNoWays(seg, parts, names[1..]);
    }
  }

  lemma MatchableTail(seg: SegmentTest, parts: seq<Part>)
    requires parts != [] && Matchable(seg, parts)
    ensures Matchable(seg, parts[1..])
    ensures parts[0].Segment? ==> exists name :: seg(parts[0].pattern, name)
  {
  }

  /** Names the pattern takes. */
  lemma {:induction false} SomeWay(seg: SegmentTest, parts: seq<Part>) returns (names: Path)
    requires Matchable(seg, parts)
    ensures Ways(seg, parts, names) > 0
  {
    if parts == [] {
      return [];
    }
    MatchableTail(seg, parts);
    names := SomeWay(seg, parts[1..]);
    if parts[0].Segment? {
      var name :| seg(parts[0].pattern, name);
      names := [name] + names;
    }
  }

  /** `**` can drop any names in front of those the rest of the pattern takes. */
  lemma {:induction false} StarDrops(seg: SegmentTest, parts: seq<Part>, dropped: Path, names: Path)
    requires parts != [] && parts[0].StarStar?
    ensures Ways(seg, parts, dropped + names) >= Ways(seg, parts[1..], names)
    ensures dropped != [] ==>
      Ways(seg, parts, dropped + names) >= Ways(seg, parts[1..], dropped + names) + Ways(seg, parts[1..], names)
    decreases |dropped|
  {
    if dropped == [] {
      assert dropped + names == names;
    } else {
      StarDrops(seg, parts, dropped[1..], names);
      assert (dropped + names)[1..] == dropped[1..] + names;
    }
  }

  /** Around a `**` any names may be put in. */
  lemma {:induction false} RoomAtStar(seg: SegmentTest, parts: seq<Part>) returns (before: Path, after: Path)
    requires Matchable(seg, parts) && Stars(parts) >= 1
    ensures forall between: Path :: Ways(seg, parts, before + between + after) > 0
  {
    MatchableTail(seg, parts);
    if parts[0].StarStar? {
      before := [];
      after := SomeWay(seg, parts[1..]);
      forall between: Path ensures Ways(seg, parts, before + between + after) > 0 {
        StarDrops(seg, parts, between, after);
        assert before + between == between;
      }
    } else {
      var name :| seg(parts[0].pattern, name);
      before, after := RoomAtStar(seg, parts[1..]);
      forall between: Path ensures Ways(seg, parts, [name] + before + between + after) > 0 {
        assert ([name] + before + between + after)[1..] == before + between + after;
      }
      before := [name] + before;
    }
  }

  /** Names that a pattern with two `**` takes in two ways. */
  lemma {:induction false} TwoWays(seg: SegmentTest, parts: seq<Part>) returns (names: Path)
    requires Matchable(seg, parts) && Stars(parts) >= 2
    ensures names != [] && Ways(seg, parts, names) >= 2
  {
    MatchableTail(seg, parts);
    if parts[0].StarStar? {
      var before, after := RoomAtStar(seg, parts[1..]);
      var dropped := if before == [] then [""] else before;
      names := dropped + (before + after);
      assert before + [] + after == before + after;
      assert names == before + dropped + after;
      StarDrops(seg, parts, dropped, before + after);
    } else {
      var name :| seg(parts[0].pattern, name);
      names := TwoWays(seg, parts[1..]);
      names := [name] + names;
    }
  }

  /** One directory below the other, under the given names. */
  function Chain(names: Path): Fs {
    map i: nat | 0 <= i <= |names| ::
      Dir(1, i + 1, Some(if i < |names| then [Entry(names[i], Some(i + 1))] else []))
  }

  ghost function KeysTo(i: nat): (keys: set<Key>)
    ensures forall key :: key in keys ==> key.1 <= i + 1
  {
    (if i == 0 then {} else KeysTo(i - 1)) + {(1, i + 1)}
  }

  /** All of a chain can be entered. */
  lemma {:induction false} ChainIsEntered(names: Path, i: nat)
    requires i <= |names|
    ensures Enter(Chain(names), i, names[i..], KeysTo(i)).Some?
    decreases |names| - i
  {
    if i < |names| {
      var e := Entry(names[i], Some(i + 1));
      assert Readdir(Chain(names), i) == Some([e]);
      assert Lookup(Chain(names), i, names[i]) == Some(e);
      assert KeyOf(Chain(names), e) == (1, i + 2);
      assert Fresh(Chain(names), e, KeysTo(i));
      EnterHead(Chain(names), i, names[i..], KeysTo(i), e);
      assert KeysTo(i) + {(1, i + 2)} == KeysTo(i + 1);
      assert names[i..][1..] == names[i + 1..];
      ChainIsEntered(names, i + 1);
    } else {
      assert names[i..] == [];
    }
  }

  /** A chain makes every way of taking its names count. */
  lemma ChainRepeats(seg: SegmentTest, root: Path, parts: seq<Part>, names: Path)
    requires names != [] && Ways(seg, parts, names) >= 2
    ensures Keyed(Chain(names)) && !Distinct(Glob(Chain(names), seg, root, 0, parts))
  {
    assert parts != [];
    hide Ways, Enter, EntryAt, Walk, Distinct;
    var fs := Chain(names);
    assert Keyed(fs);
    ChainIsEntered(names, 0);
    assert names[0..] == names && KeysTo(0) == RootKey(fs, 0);
    FilesAreNotEntered(fs, 0, names, RootKey(fs, 0));
    assert (root + names)[|root|..] == names;
    WalkCounts(fs, seg, root, 0, parts, RootKey(fs, 0), root + names);
    DistinctIsCountedOnce(Glob(fs, seg, root, 0, parts));
  }

  /**
   Which patterns never yield a path twice, on no graph and from no directory: those with
   at most one `**`, and those with a segment no name matches, which never yield anything.
   */
  lemma DistinctIffOneStar(seg: SegmentTest, root: Path, parts: seq<Part>)
    ensures (forall fs: Fs, n: Node :: Keyed(fs) ==> Distinct(Glob(fs, seg, root, n, parts)))
       <==> Stars(parts) <= 1 || !Matchable(seg, parts)
  {
    hide Walk, Glob, Distinct, Keyed, Matchable, Ways;
    if Stars(parts) >= 2 && Matchable(seg, parts) {
      var names := TwoWays(seg, parts);
      ChainRepeats(seg, root, parts, names);
    } else {
      forall fs: Fs, n: Node | Keyed(fs) ensures Distinct(Glob(fs, seg, root, n, parts)) {
        GlobIsDistinct(fs, seg, root, n, parts);
      }
    }
  }

  lemma GlobIsDistinct(fs: Fs, seg: SegmentTest, root: Path, n: Node, parts: seq<Part>)
    requires Keyed(fs) && (Stars(parts) <= 1 || !Matchable(seg, parts))
    ensures Distinct(Glob(fs, seg, root, n, parts))
  {
    hide Walk, Distinct, Enter, EntryAt, Ways, Matchable;
    if Stars(parts) <= 1 {
      WalkIsDistinct(fs, seg, root, n, parts, RootKey(fs, n));
    } else {
      var ps := Glob(fs, seg, root, n, parts);
      forall p ensures multiset(ps)[p] <= 1 {
        WalkCounts(fs, seg, root, n, parts, RootKey(fs, n), p);
        forall names ensures Ways(seg, parts, names) == 0 {
          UnmatchableHasNoWays(seg, parts, names);
        }
      }
      DistinctIsCountedOnce(ps);
    }
  }

  /** Two `**` do yield paths twice: here an empty directory d below the root. */
  lemma TwoStarsRepeat(seg: SegmentTest)
    ensures
      var fs: Fs := map[0 := Dir(1, 1, Some([Entry("d", Some(1))])), 1 := Dir(1, 2, Some([]))];
      Keyed(fs) && Glob(fs, seg, [], 0, [StarStar, StarStar]) == [[], ["d"], ["d"]]
  {
    hide Found, Lookup, AllKeys;
    var fs: Fs := map[0 := Dir(1, 1, Some([Entry("d", Some(1))])), 1 := Dir(1, 2, Some([]))];
    var one, two := [StarStar], [StarStar, StarStar];
    var es := [Entry("d", Some(1))];
    var at0, at1 := {(1, 1)}, {(1, 1), (1, 2)};
    assert two[1..] == one && es[1..] == [] && at0 + {(1, 2)} == at1;
    assert [] + ["d"] == ["d"];
    assert Walk(fs, seg, ["d"], 1, one, at1) == [["d"]];
    assert Walk(fs, seg, ["d"], 1, two, at1) == [["d"]];
    assert WalkBelow(fs, seg, [], es, one, at0) == [["d"]];
    assert WalkBelow(fs, seg, [], es, two, at0) == [["d"]];
    assert Walk(fs, seg, [], 0, one, at0) == [[], ["d"]];
    assert Walk(fs, seg, [], 0, two, at0) == [[], ["d"], ["d"]];
  }
}
