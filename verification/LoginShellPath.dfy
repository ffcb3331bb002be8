/**
 Merging the login shell's PATH into the current one: the current string stays as
 it is, and the absolute entries it lacks are appended.
 */
module LoginShellPath {
  import opened Wrappers

  const COLON := ':'

  /** s.split(':'), which never has fewer than one part. */
  function Split(s: string): (parts: seq<string>)
    ensures parts != [] && forall p :: p in parts ==> COLON !in p
  {
    if s == "" then [""]
    else if s[0] == COLON then [""] + Split(s[1..])
    else [[s[0]] + Split(s[1..])[0]] + Split(s[1..])[1..]
  }

  /** parts.join(':') */
  function Join(parts: seq<string>): string {
    if parts == [] then ""
    else if |parts| == 1 then parts[0]
    else parts[0] + ":" + Join(parts[1..])
  }

  predicate IsAbsolute(entry: string) {
    entry != "" && entry[0] == '/'
  }

  /** The entries a current PATH has, empty ones not counted. */
  function Present(current: string): set<string> {
    set e | e in Split(current) && e != ""
  }

  /** Entry i of the login PATH is appended: absolute, not present, and the first of its kind. */
  ghost predicate IsAddition(current: string, login: seq<string>, i: nat)
    requires i < |login|
  {
    IsAbsolute(login[i]) && login[i] !in Present(current) && login[i] !in login[..i]
  }

  /** The entries to append, in the login shell's order. */
  ghost function Additions(current: string, login: seq<string>): seq<string> {
    if login == [] then []
    else
      var last := |login| - 1;
      Additions(current, login[..last]) + if IsAddition(current, login, last) then [login[last]] else []
  }

  ghost function Merged(currentPath: Option<string>, login: string): string {
    var current := if currentPath == None then "" else currentPath.value;
    var additions := Additions(current, Split(login));
    if additions == [] then current
    else if currentPath == None then Join(additions)
    else current + ":" + Join(additions)
  }

  method MergeLoginShellPath(currentPath: Option<string>, loginShellPath: string) returns (r: string)
    ensures r == Merged(currentPath, loginShellPath)
  {
    hide Split, Join, IsAddition, Additions;
    var current := if currentPath == None then "" else currentPath.value;
    var seen := set e | e in Split(current) && e != "";
    var additions: seq<string> := [];
    var login := Split(loginShellPath);
    NothingAdded(current, login);
    for i := 0 to |login|
      invariant seen == Present(current) + set e | e in login[..i] && IsAbsolute(e)
      invariant additions == Additions(current, login[..i])
    {
      var entry := login[i];
      OneMoreEntry(current, login, i);
      if !IsAbsolute(entry) || entry in seen {
        continue;
      }
      seen := seen + {entry};
      additions := additions + [entry];
    }
    assert login[..|login|] == login;
    if |additions| == 0 {
      return current;
    }
    if currentPath == None {
      return Join(additions);
    }
    return current + ":" + Join(additions);
  }

  lemma NothingAdded(current: string, login: seq<string>)
    ensures Additions(current, login[..0]) == []
  {
  }

  lemma OneMoreEntry(current: string, login: seq<string>, i: nat)
    requires i < |login|
    ensures Additions(current, login[..i + 1]) == Additions(current, login[..i]) +
      if IsAbsolute(login[i]) && login[i] !in Present(current) && login[i] !in login[..i] then [login[i]] else []
    ensures forall e :: e in login[..i + 1] <==> e in login[..i] || e == login[i]
  {
    assert login[..i + 1][..i] == login[..i];
    assert login[..i + 1] == login[..i] + [login[i]];
  }

  // Splitting and joining.

  lemma {:induction false} SplitConcat(a: string, b: string)
    ensures Split(a + ":" + b) == Split(a) + Split(b)
    decreases |a|
  {
    if a == "" {
      assert (a + ":" + b)[1..] == b;
    } else {
      assert (a + ":" + b)[1..] == a[1..] + ":" + b;
      SplitConcat(a[1..], b);
    }
  }

  lemma {:induction false} SplitPlain(p: string)
    requires COLON !in p
    ensures Split(p) == [p]
  {
    if p != "" {
      SplitPlain(p[1..]);
      assert [p[0]] + p[1..] == p;
    }
  }

  lemma {:induction false} SplitOfJoin(parts: seq<string>)
    requires parts != [] && forall p :: p in parts ==> COLON !in p
    ensures Split(Join(parts)) == parts
  {
    assert parts[0] in parts;
    SplitPlain(parts[0]);
    if |parts| > 1 {
      assert forall p :: p in parts[1..] ==> p in parts;
      SplitOfJoin(parts[1..]);
      SplitConcat(parts[0], Join(parts[1..]));
      assert [parts[0]] + parts[1..] == parts;
    }
  }

  /** Nothing is lost by splitting. */
  lemma {:induction false} JoinOfSplit(s: string)
    ensures Join(Split(s)) == s
  {
    hide Join;
    if s == "" {
      JoinOfOne("");
    } else {
      JoinOfSplit(s[1..]);
      JoinHead(s[0], Split(s[1..]));
      assert s == [s[0]] + s[1..];
    }
  }

  lemma JoinOfOne(part: string)
    ensures Join([part]) == part
  {
  }

  lemma JoinHead(c: char, parts: seq<string>)
    requires parts != []
    ensures Join([""] + parts) == ":" + Join(parts)
    ensures Join([[c] + parts[0]] + parts[1..]) == [c] + Join(parts)
  {
    hide Join;
    var more, longer := [""] + parts, [[c] + parts[0]] + parts[1..];
    JoinStep(more);
    assert more[1..] == parts && "" + ":" == ":";
    if |parts| == 1 {
      assert longer == [[c] + parts[0]] && parts == [parts[0]];
      JoinOfOne([c] + parts[0]);
      JoinOfOne(parts[0]);
    } else {
      JoinStep(longer);
      JoinStep(parts);
      assert longer[1..] == parts[1..];
      assert [c] + parts[0] + ":" + Join(parts[1..]) == [c] + (parts[0] + ":" + Join(parts[1..]));
    }
  }

  lemma JoinStep(parts: seq<string>)
    requires |parts| > 1
    ensures Join(parts) == parts[0] + ":" + Join(parts[1..])
  {
  }

  // What is appended.

  /** Appended are absolute entries the current PATH lacks, each once, and none of those is left out. */
  lemma {:induction false} AdditionsMean(current: string, login: seq<string>)
    ensures var adds := Additions(current, login);
      && (forall e :: e in adds <==> e in login && IsAbsolute(e) && e !in Present(current))
      && (forall i, j :: 0 <= i < j < |adds| ==> adds[i] != adds[j])
  {
    if login != [] {
      var init, last := login[..|login| - 1], login[|login| - 1];
      AdditionsMean(current, init);
      assert login == init + [last];
      assert forall e :: e in login <==> e in init || e == last;
    }
  }

  /** The parts of the merged PATH: all of the current one's, then the additions. */
  lemma MergedParts(currentPath: Option<string>, login: string)
    ensures var m, adds := Merged(currentPath, login), Additions(if currentPath == None then "" else currentPath.value, Split(login));
      && (currentPath.Some? ==> Split(m) == Split(currentPath.value) + adds)
      && (currentPath == None && adds != [] ==> Split(m) == adds)
      && (adds != [] ==> m != "")
  {
    var current := if currentPath == None then "" else currentPath.value;
    var adds := Additions(current, Split(login));
    AdditionsMean(current, Split(login));
    if adds != [] {
      assert adds[0] in adds;
      SplitOfJoin(adds);
      SplitConcat(current, Join(adds));
      assert Split("") == [""];
    } else {
      assert Split(current) + adds == Split(current);
    }
  }

  /** The login entry i is absolute, not an entry of the current PATH, and the first of its kind. */
  ghost predicate IsMissing(current: string, login: seq<string>, i: nat)
    requires i < |login|
  {
    && login[i] != "" && login[i][0] == '/'
    && login[i] !in Split(current)
    && forall j :: 0 <= j < i ==> login[j] != login[i]
  }

  ghost predicate Increasing(at: seq<nat>) {
    forall i, j :: 0 <= i < j < |at| ==> at[i] < at[j]
  }

  /** The given places of the login PATH, in its order, and what stands there. */
  ghost function Picked(login: seq<string>, at: seq<nat>): seq<string>
    requires forall i :: 0 <= i < |at| ==> at[i] < |login|
  {
    seq(|at|, i requires 0 <= i < |at| => login[at[i]])
  }

  lemma {:induction false} AdditionsArePicked(current: string, login: seq<string>) returns (at: seq<nat>)
    ensures forall i :: 0 <= i < |at| ==> at[i] < |login|
    ensures Increasing(at) && Additions(current, login) == Picked(login, at)
    ensures forall k :: 0 <= k < |login| ==> (k in at <==> IsMissing(current, login, k))
  {
    if login == [] {
      return [];
    }
    var last := |login| - 1;
    var init := login[..last];
    at := AdditionsArePicked(current, init);
    MissingPrefix(current, login);
    hide IsMissing, IsAddition;
    assert Picked(init, at) == Picked(login, at);
    if IsMissing(current, login, last) {
      assert Picked(login, at + [last]) == Picked(login, at) + [login[last]];
      at := at + [last];
    }
  }

  lemma MissingPrefix(current: string, login: seq<string>)
    requires login != []
    ensures var last := |login| - 1;
      && (IsAddition(current, login, last) <==> IsMissing(current, login, last))
      && (forall k :: 0 <= k < last ==> (IsMissing(current, login, k) <==> IsMissing(current, login[..last], k)))
  {
  }

  /**
   The parts of the merged PATH: all of the current one's, then exactly the absolute
   login entries it lacks, each once, in the login shell's own order. An unset PATH
   has no parts, and stays empty when nothing is missing.
   */
  lemma MergeKeepsLoginOrder(currentPath: Option<string>, login: string) returns (at: seq<nat>)
    ensures forall i :: 0 <= i < |at| ==> at[i] < |Split(login)|
    ensures Increasing(at)
    ensures forall k :: 0 <= k < |Split(login)| ==>
      (k in at <==> IsMissing(if currentPath == None then "" else currentPath.value, Split(login), k))
    ensures currentPath.Some? ==>
      Split(Merged(currentPath, login)) == Split(currentPath.value) + Picked(Split(login), at)
    ensures currentPath == None ==>
      if at == [] then Merged(currentPath, login) == "" else Split(Merged(currentPath, login)) == Picked(Split(login), at)
  {
    at := AdditionsArePicked(if currentPath == None then "" else currentPath.value, Split(login));
    MergedParts(currentPath, login);
  }

  /**
   The merged PATH starts with the current PATH verbatim, has every absolute login
   entry, and has nothing the current one lacks but absolute login entries, once each.
   */
  lemma MergeAddsExactlyTheMissing(currentPath: Option<string>, login: string)
    ensures var current := if currentPath == None then "" else currentPath.value;
      var m := Merged(currentPath, login);
      && current <= m
      && (forall e :: e in Split(login) && e != "" && e[0] == '/' ==> e in Split(m))
      && (forall e :: e in Split(m) && e !in Split(current) ==> e in Split(login) && e != "" && e[0] == '/')
      && (currentPath.Some? ==> exists adds ::
            Split(m) == Split(current) + adds && AreNewAndDistinct(current, adds))
  {
    var current := if currentPath == None then "" else currentPath.value;
    var adds := Additions(current, Split(login));
    AdditionsMean(current, Split(login));
    MergedParts(currentPath, login);
    if currentPath.Some? {
      assert AreNewAndDistinct(current, adds);
    }
    assert Split("") == [""];
  }

  ghost predicate AreNewAndDistinct(current: string, adds: seq<string>) {
    && (forall e :: e in adds ==> e != "" && e[0] == '/' && e !in Split(current))
    && (forall i, j :: 0 <= i < j < |adds| ==> adds[i] != adds[j])
  }

  /** Merging the same login PATH again changes nothing. */
  lemma MergeIsIdempotent(currentPath: Option<string>, login: string)
    ensures var m := Merged(currentPath, login); Merged(Some(m), login) == m
  {
    var m := Merged(currentPath, login);
    MergeAddsExactlyTheMissing(currentPath, login);
    AdditionsMean(m, Split(login));
    forall e ensures e !in Additions(m, Split(login)) {
    }
    NoneLeft(Additions(m, Split(login)));
  }

  lemma NoneLeft(entries: seq<string>)
    ensures entries == [] || exists e :: e in entries
  {
    if entries != [] {
      assert entries[0] in entries;
    }
  }

  // Writing it back.

  type Env = map<string, string>

  class Deps {
    var env: Env

    constructor (env: Env)
      ensures this.env == env
    {
      this.env := env;
    }

    function CurrentPath(): Option<string>
      reads this
    {
      if "PATH" in env then Some(env["PATH"]) else None
    }

    /** The probe's answer is a parameter; none means that it failed or does not apply. */
    method ApplyLoginShellPath(loginShellPath: Option<string>)
      modifies this
      ensures loginShellPath == None || NothingMissing(old(CurrentPath()), loginShellPath.value) ==> env == old(env)
      ensures loginShellPath.Some? && !NothingMissing(old(CurrentPath()), loginShellPath.value) ==>
        env == old(env)["PATH" := Merged(old(CurrentPath()), loginShellPath.value)]
    {
      if loginShellPath == None {
        return;
      }
      var currentPath := CurrentPath();
      var merged := MergeLoginShellPath(currentPath, loginShellPath.value);
      MergedDiffers(currentPath, loginShellPath.value);
      if merged == if currentPath == None then "" else currentPath.value {
        return;
      }
      env := env["PATH" := merged];
    }
  }

  /** The current PATH has every absolute entry of the login shell's. */
  ghost predicate NothingMissing(currentPath: Option<string>, login: string) {
    forall e :: e in Split(login) && e != "" && e[0] == '/' ==> currentPath.Some? && e in Split(currentPath.value)
  }

  /** The merged string is another one exactly when there was something to append. */
  lemma MergedDiffers(currentPath: Option<string>, login: string)
    ensures var current := if currentPath == None then "" else currentPath.value;
      Merged(currentPath, login) == current <==> NothingMissing(currentPath, login)
  {
    hide Split, Join, Additions;
    MergedParts(currentPath, login);
    var current := if currentPath == None then "" else currentPath.value;
    var adds := Additions(current, Split(login));
    AdditionsMean(current, Split(login));
    NoneLeft(adds);
    SplitPlain("");
    if currentPath.Some? && adds != [] {
      assert |Split(Merged(currentPath, login))| > |Split(current)|;
    }
  }
}
