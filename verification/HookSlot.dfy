/**
 The ordered hook slot: registrations kept in a list that is spliced in place,
 handed out as disposables, and run as a chain over a snapshot of the list.
 */
module HookSlot {
  import opened Wrappers

  /** What is handed down the chain; any type will do. */
  type Context(!new, 0, ==)

  /**
   A handler: the contexts it passes to next, in order, for the context it gets.
   No override means that next passes on the handler's own context.
   */
  type Handler = Context -> seq<Option<Context>>

  /** An entry is an object: two registrations under one id are different entries. */
  class HookEntry {
    const id: string
    const handler: Handler

    constructor (id: string, handler: Handler)
      ensures this.id == id && this.handler == handler
    {
      this.id, this.handler := id, handler;
    }
  }

  /** The errors register throws. */
  datatype Registered = Disposable(entry: HookEntry) | BothBeforeAndAfter | TargetMissing(target: string)

  ghost predicate UniqueIds(es: seq<HookEntry>) {
    forall i, j :: 0 <= i < j < |es| ==> es[i].id != es[j].id
  }

  ghost predicate HasId(es: seq<HookEntry>, id: string) {
    exists i :: 0 <= i < |es| && es[i].id == id
  }

  /** The entries under other ids, in their order. */
  function Without(es: seq<HookEntry>, id: string): seq<HookEntry> {
    if es == [] then [] else (if es[0].id == id then [] else [es[0]]) + Without(es[1..], id)
  }

  /** All entries but e itself, in their order. */
  function Minus(es: seq<HookEntry>, e: HookEntry): seq<HookEntry> {
    if es == [] then [] else (if es[0] == e then [] else [es[0]]) + Minus(es[1..], e)
  }

  lemma {:induction false} WithoutMembers(es: seq<HookEntry>, id: string)
    ensures forall e :: e in Without(es, id) <==> e in es && e.id != id
  {
    if es != [] {
      WithoutMembers(es[1..], id);
      assert forall e :: e in es <==> e == es[0] || e in es[1..];
    }
  }

  lemma {:induction false} WithoutComesFrom(es: seq<HookEntry>, id: string, j: nat) returns (i: nat)
    requires j < |Without(es, id)|
    ensures i < |es| && es[i] == Without(es, id)[j] && es[i].id != id
  {
    if es[0].id == id {
      i := WithoutComesFrom(es[1..], id, j);
      i := i + 1;
    } else if j == 0 {
      i := 0;
    } else {
      i := WithoutComesFrom(es[1..], id, j - 1);
      i := i + 1;
    }
  }

  lemma {:induction false} WithoutIsUnique(es: seq<HookEntry>, id: string)
    requires UniqueIds(es)
    ensures UniqueIds(Without(es, id))
  {
    if es != [] {
      WithoutIsUnique(es[1..], id);
      var rest := Without(es[1..], id);
      if es[0].id != id {
        forall j | 0 <= j < |rest| ensures rest[j].id != es[0].id {
          var i := WithoutComesFrom(es[1..], id, j);
          assert es[i + 1] == rest[j];
        }
        assert Without(es, id) == [es[0]] + rest;
      } else {
        assert Without(es, id) == rest;
      }
    }
  }

  lemma WithoutMeans(es: seq<HookEntry>, id: string)
    requires UniqueIds(es)
    ensures UniqueIds(Without(es, id)) && !HasId(Without(es, id), id)
    ensures forall e :: e in Without(es, id) <==> e in es && e.id != id
    ensures !HasId(es, id) ==> Without(es, id) == es
  {
    WithoutMembers(es, id);
    WithoutIsUnique(es, id);
    forall j | 0 <= j < |Without(es, id)| ensures Without(es, id)[j].id != id {
      var i := WithoutComesFrom(es, id, j);
    }
    if !HasId(es, id) {
      NothingToLeaveOut(es, id);
    }
  }

  lemma {:induction false} NothingToLeaveOut(es: seq<HookEntry>, id: string)
    requires forall i :: 0 <= i < |es| ==> es[i].id != id
    ensures Without(es, id) == es
  {
    if es != [] {
      NothingToLeaveOut(es[1..], id);
    }
  }

  /** Taking out the one entry at index k. */
  lemma {:induction false} WithoutIsSplice(es: seq<HookEntry>, k: nat, id: string)
    requires UniqueIds(es) && k < |es| && es[k].id == id
    ensures Without(es, id) == es[..k] + es[k + 1..]
    ensures Minus(es, es[k]) == es[..k] + es[k + 1..]
    decreases |es|
  {
    if k == 0 {
      NotThere(es[1..], id, es[0]);
      assert es[..0] + es[1..] == es[1..];
    } else {
      WithoutIsSplice(es[1..], k - 1, id);
      assert es[..k] + es[k + 1..] == [es[0]] + (es[1..][..k - 1] + es[1..][k..]);
      assert es[0].id != es[k].id;
    }
  }

  lemma {:induction false} NotThere(es: seq<HookEntry>, id: string, e: HookEntry)
    requires forall i :: 0 <= i < |es| ==> es[i].id != id
    requires e.id == id
    ensures Without(es, id) == es && Minus(es, e) == es
  {
    if es != [] {
      NotThere(es[1..], id, e);
    }
  }

  lemma {:induction false} NotMember(es: seq<HookEntry>, e: HookEntry)
    requires e !in es
    ensures Minus(es, e) == es
  {
    if es != [] {
      NotMember(es[1..], e);
    }
  }

  /** Where a registration goes among the other entries. */
  ghost predicate IsPlace(es: seq<HookEntry>, before: Option<string>, after: Option<string>, at: nat) {
    && at <= |es|
    && (before.Some? ==> at < |es| && es[at].id == before.value)
    && (after.Some? ==> 0 < at && es[at - 1].id == after.value)
    && (before == None && after == None ==> at == |es|)
  }

  class OrderedHookSlot {
    var entries: seq<HookEntry>

    ghost predicate Valid()
      reads this
    {
      UniqueIds(entries)
    }

    constructor ()
      ensures Valid() && entries == []
    {
      entries := [];
    }

    method FindIndex(id: string) returns (index: int)
      ensures -1 <= index < |entries|
      ensures index >= 0 ==> entries[index].id == id
      ensures index < 0 ==> !HasId(entries, id)
    {
      for i := 0 to |entries|
        invariant forall j :: 0 <= j < i ==> entries[j].id != id
      {
        if entries[i].id == id {
          return i;
        }
      }
      return -1;
    }

    method Delete(id: string) returns (found: bool)
      requires Valid()
      modifies this
      ensures Valid() && entries == Without(old(entries), id) && (found <==> HasId(old(entries), id))
    {
      var index := FindIndex(id);
      WithoutMeans(entries, id);
      if index < 0 {
        return false;
      }
      WithoutIsSplice(entries, index, id);
      entries := entries[..index] + entries[index + 1..];
      return true;
    }

    /**
     A registration replaces the one under the same id, takes its place relative to
     its target and leaves the order of all others alone. When the target is missing,
     or is the id itself, the registration it was to replace is gone all the same: a
     failed call leaves the slot as it was exactly when there was none.
     */
    method Register(id: string, handler: Handler, before: Option<string>, after: Option<string>)
      returns (r: Registered)
      requires Valid()
      modifies this
      ensures Valid()
      ensures before.Some? && after.Some? <==> r == BothBeforeAndAfter
      ensures r == BothBeforeAndAfter ==> entries == old(entries)
      ensures r.TargetMissing? ==>
        && (before == Some(r.target) || after == Some(r.target))
        && entries == Without(old(entries), id)
        && (entries == old(entries) <==> !HasId(old(entries), id))
      ensures r.TargetMissing? <==>
        before.Some? != after.Some? &&
        var target := if before.Some? then before.value else after.value;
        target == id || !HasId(old(entries), target)
      ensures r.Disposable? ==>
        && fresh(r.entry) && r.entry.id == id && r.entry.handler == handler
        && exists at: nat :: IsPlace(Without(old(entries), id), before, after, at)
             && entries == Without(old(entries), id)[..at] + [r.entry] + Without(old(entries), id)[at..]
    {
      if before.Some? && after.Some? {
        return BothBeforeAndAfter;
      }
      WithoutMeans(entries, id);
      var _ := Delete(id);
      ghost var others := entries;
      var entry := new HookEntry(id, handler);
      var target := if before.Some? then before else after;
      if target == None {
        entries := entries + [entry];
        assert others[..|others|] + [entry] + others[|others|..] == entries;
        Inserted(others, entry, |others|);
        return Disposable(entry);
      }
      HasIdWithout(old(entries), id, target.value);
      var targetIndex := FindIndex(target.value);
      if targetIndex < 0 {
        return TargetMissing(target.value);
      }
      var insertAt := if before.Some? then targetIndex else targetIndex + 1;
      entries := entries[..insertAt] + [entry] + entries[insertAt..];
      assert IsPlace(others, before, after, insertAt);
      Inserted(others, entry, insertAt);
      return Disposable(entry);
    }

    /** What the disposable of a registration does: it takes out its own entry and no other. */
    method DisposeEntry(entry: HookEntry)
      requires Valid()
      modifies this
      ensures Valid() && entries == Minus(old(entries), entry)
      ensures forall e :: e in old(entries) && e != entry ==> e in entries
    {
      if entry !in entries {
        NotMember(entries, entry);
        return;
      }
      var index :| 0 <= index < |entries| && entries[index] == entry;
      WithoutMeans(entries, entry.id);
      WithoutIsSplice(entries, index, entry.id);
      entries := entries[..index] + entries[index + 1..];
    }

    /** Whatever else happens to the slot while a handler runs. */
    method Meanwhile()
      requires Valid()
      modifies this
      ensures Valid()
    {
      if * {
        var id: string := *;
        var _ := Delete(id);
      }
    }

    /** run: the chain is fixed when the run begins, whatever handlers register or delete. */
    method Run(context: Context) returns (trace: seq<Call>)
      requires Valid()
      modifies this
      ensures Valid() && trace == Chain(old(entries), 0, context)
    {
      var snapshot := entries;
      trace := Dispatch(snapshot, 0, context);
    }

    /** The function next is, at the given place of the chain. */
    method Dispatch(snapshot: seq<HookEntry>, index: nat, current: Context) returns (trace: seq<Call>)
      requires Valid() && index <= |snapshot|
      modifies this
      ensures Valid() && trace == Chain(snapshot, index, current)
      decreases |snapshot| - index, 1, 0
    {
      if index == |snapshot| {
        return [Terminal(current)];
      }
      Meanwhile();
      var nexts := snapshot[index].handler(current);
      var more := CallNext(snapshot, index, current, nexts);
      return [Handled(index, current)] + more;
    }

    /** A handler calling next once for each override it has. */
    method CallNext(snapshot: seq<HookEntry>, index: nat, current: Context, nexts: seq<Option<Context>>)
      returns (trace: seq<Call>)
      requires Valid() && index < |snapshot|
      modifies this
      ensures Valid() && trace == Chains(snapshot, index + 1, current, nexts)
      decreases |snapshot| - index, 0, |nexts|
    {
      if nexts == [] {
        return [];
      }
      var first := Dispatch(snapshot, index + 1, if nexts[0].Some? then nexts[0].value else current);
      Meanwhile();
      var rest := CallNext(snapshot, index, current, nexts[1..]);
      return first + rest;
    }
  }

  /** A registration next to the one it replaces throws, and leaves neither. */
  method NextToItself(handler: Handler) returns (slot: OrderedHookSlot, first: Registered, second: Registered)
    ensures first.Disposable? && second == TargetMissing("a") && slot.entries == []
  {
    slot := new OrderedHookSlot();
    first := slot.Register("a", handler, None, None);
    ghost var es := slot.entries;
    second := slot.Register("a", handler, Some("a"), None);
    assert es == [first.entry] && es[1..] == [];
  }

  lemma HasIdWithout(es: seq<HookEntry>, id: string, other: string)
    requires UniqueIds(es)
    ensures HasId(Without(es, id), other) <==> other != id && HasId(es, other)
  {
    WithoutMeans(es, id);
    if other != id && HasId(es, other) {
      var i :| 0 <= i < |es| && es[i].id == other;
      assert es[i] in Without(es, id);
    }
    if HasId(Without(es, id), other) {
      var j :| 0 <= j < |Without(es, id)| && Without(es, id)[j].id == other;
      var i := WithoutComesFrom(es, id, j);
    }
  }

  lemma Inserted(es: seq<HookEntry>, e: HookEntry, at: nat)
    requires UniqueIds(es) && !HasId(es, e.id) && at <= |es|
    ensures UniqueIds(es[..at] + [e] + es[at..])
  {
    var all := es[..at] + [e] + es[at..];
    forall i, j | 0 <= i < j < |all| ensures all[i].id != all[j].id {
      var x := if i < at then i else i - 1;
      var y := if j < at then j else j - 1;
      if i != at && j != at {
        assert all[i] == es[x] && all[j] == es[y];
      }
    }
  }

  // A run.

  datatype Call = Handled(index: nat, context: Context) | Terminal(context: Context)

  /** The calls of a chain from place index on. */
  function Chain(es: seq<HookEntry>, index: nat, current: Context): seq<Call>
    requires index <= |es|
    decreases |es| - index, 1, 0
  {
    if index == |es| then [Terminal(current)]
    else [Handled(index, current)] + Chains(es, index + 1, current, es[index].handler(current))
  }

  function Chains(es: seq<HookEntry>, index: nat, current: Context, nexts: seq<Option<Context>>): seq<Call>
    requires index <= |es|
    decreases |es| - index, 2, |nexts|
  {
    if nexts == [] then []
    else
      Chain(es, index, if nexts[0].Some? then nexts[0].value else current) + Chains(es, index, current, nexts[1..])
  }

  /** How often the handler at place j, or the terminal for j == the length, is called. */
  function CallsOf(trace: seq<Call>, j: nat, length: nat): nat {
    if trace == [] then 0
    else (if PlaceOf(trace[0], length) == j then 1 else 0) + CallsOf(trace[1..], j, length)
  }

  function PlaceOf(c: Call, length: nat): nat {
    match c case Handled(i, _) => i case Terminal(_) => length
  }

  /** k[from] * ... * k[to - 1] */
  function Product(k: seq<nat>, from: nat, to: nat): nat
    requires from <= to <= |k|
    decreases |k| - from
  {
    if from == to then 1 else k[from] * Product(k, from + 1, to)
  }

  /** Handler i calls next k[i] times, whatever its context. */
  ghost predicate CallsNext(es: seq<HookEntry>, k: seq<nat>) {
    |k| == |es| && forall i, c :: 0 <= i < |es| ==> |es[i].handler(c)| == k[i]
  }

  lemma {:induction false} CallsOfConcat(a: seq<Call>, b: seq<Call>, j: nat, length: nat)
    ensures CallsOf(a + b, j, length) == CallsOf(a, j, length) + CallsOf(b, j, length)
    decreases |a|
  {
    if a == [] {
      assert a + b == b;
    } else {
      assert (a + b)[1..] == a[1..] + b;
      CallsOfConcat(a[1..], b, j, length);
    }
  }

  /** Counted from place index on, place j is called as often as the handlers in between call next, multiplied up. */
  lemma {:induction false} ChainCounts(es: seq<HookEntry>, k: seq<nat>, index: nat, current: Context, j: nat)
    requires CallsNext(es, k) && index <= |es| && j <= |es|
    ensures CallsOf(Chain(es, index, current), j, |es|) == if j < index then 0 else Product(k, index, j)
    decreases |es| - index, 1, 0
  {
    if index < |es| {
      var nexts := es[index].handler(current);
      ChainsCount(es, k, index + 1, current, nexts, j);
      assert |nexts| == k[index];
      var more := Chains(es, index + 1, current, nexts);
      assert Chain(es, index, current)[1..] == more;
    } else {
      assert Chain(es, index, current)[1..] == [];
    }
  }

  lemma {:induction false} ChainsCount(es: seq<HookEntry>, k: seq<nat>, index: nat, current: Context,
                                                nexts: seq<Option<Context>>, j: nat)
    requires CallsNext(es, k) && index <= |es| && j <= |es|
    ensures CallsOf(Chains(es, index, current, nexts), j, |es|) ==
      |nexts| * (if j < index then 0 else Product(k, index, j))
    decreases |es| - index, 2, |nexts|
  {
    if nexts != [] {
      var ctx := if nexts[0].Some? then nexts[0].value else current;
      ChainCounts(es, k, index, ctx, j);
      ChainsCount(es, k, index, current, nexts[1..], j);
      CallsOfConcat(Chain(es, index, ctx), Chains(es, index, current, nexts[1..]), j, |es|);
      var p := if j < index then 0 else Product(k, index, j);
      assert |nexts| * p == p + |nexts[1..]| * p by {
        assert |nexts| == 1 + |nexts[1..]|;
        Distribute(|nexts[1..]|, p);
      }
    }
  }

  lemma Distribute(n: nat, p: nat)
    ensures (1 + n) * p == p + n * p
  {
  }

  /** In a whole run handler j is called k0 * ... * k(j-1) times, and the terminal the product of all. */
  lemma RunCounts(es: seq<HookEntry>, k: seq<nat>, context: Context, j: nat)
    requires CallsNext(es, k) && j <= |es|
    ensures CallsOf(Chain(es, 0, context), j, |es|) == Product(k, 0, j)
  {
    ChainCounts(es, k, 0, context, j);
  }

  // Where contexts come from.

  /** What next hands on, called by a handler that got ctx. */
  function HandedOn(next: Option<Context>, ctx: Context): Context {
    if next.Some? then next.value else ctx
  }

  /** Call p is the doing of the earlier call q: one place up, its handler handed this context on. */
  ghost predicate CausedBy(es: seq<HookEntry>, trace: seq<Call>, q: nat, p: nat)
    requires q < p < |trace|
  {
    && trace[q].Handled? && trace[q].index < |es|
    && PlaceOf(trace[p], |es|) == trace[q].index + 1
    && exists n :: n in es[trace[q].index].handler(trace[q].context)
         && trace[p].context == HandedOn(n, trace[q].context)
  }

  /** Every call is caused by an earlier one, or is at the first place with one of the given contexts. */
  ghost predicate Caused(es: seq<HookEntry>, trace: seq<Call>, index: nat, roots: seq<Context>) {
    forall p: nat :: p < |trace| ==>
      || (PlaceOf(trace[p], |es|) == index && trace[p].context in roots)
      || HasCause(es, trace, p)
  }

  ghost predicate HasCause(es: seq<HookEntry>, trace: seq<Call>, p: nat)
    requires p < |trace|
  {
    exists q: nat :: q < p && CausedBy(es, trace, q, p)
  }

  lemma CausedConcat(es: seq<HookEntry>, a: seq<Call>, b: seq<Call>, index: nat, roots: seq<Context>)
    requires Caused(es, a, index, roots) && Caused(es, b, index, roots)
    ensures Caused(es, a + b, index, roots)
  {
    var t := a + b;
    forall p: nat | p < |t| && !(PlaceOf(t[p], |es|) == index && t[p].context in roots)
      ensures HasCause(es, t, p)
    {
      if p < |a| {
        var q: nat :| q < p && CausedBy(es, a, q, p);
        assert CausedBy(es, t, q, p);
      } else {
        assert t[p] == b[p - |a|];
        var q: nat :| q < p - |a| && CausedBy(es, b, q, p - |a|);
        assert t[|a| + q] == b[q];
        assert CausedBy(es, t, |a| + q, p);
      }
    }
  }

  lemma CausedByMore(es: seq<HookEntry>, a: seq<Call>, index: nat, roots: seq<Context>, more: seq<Context>)
    requires Caused(es, a, index, roots) && forall c :: c in roots ==> c in more
    ensures Caused(es, a, index, more)
  {
  }

  lemma {:induction false} ChainIsCaused(es: seq<HookEntry>, index: nat, current: Context)
    requires index <= |es|
    ensures Caused(es, Chain(es, index, current), index, [current])
    decreases |es| - index, 1, 0
  {
    if index < |es| {
      var nexts := es[index].handler(current);
      var below := Chains(es, index + 1, current, nexts);
      ChainsAreCaused(es, index + 1, current, nexts);
      assert Chain(es, index, current) == [Handled(index, current)] + below;
      CausedFromAbove(es, index, current, below);
    } else {
      assert Chain(es, index, current) == [Terminal(current)];
    }
  }

  /** Below a handler's call, what has no other cause has that call. */
  lemma CausedFromAbove(es: seq<HookEntry>, index: nat, current: Context, below: seq<Call>)
    requires index < |es| && Caused(es, below, index + 1, Roots(current, es[index].handler(current)))
    ensures Caused(es, [Handled(index, current)] + below, index, [current])
  {
    var t := [Handled(index, current)] + below;
    var nexts := es[index].handler(current);
    forall p: nat | p < |t| && p > 0 ensures HasCause(es, t, p) {
      assert t[p] == below[p - 1];
      if HasCause(es, below, p - 1) {
        var q: nat :| q < p - 1 && CausedBy(es, below, q, p - 1);
        assert t[q + 1] == below[q];
        assert CausedBy(es, t, q + 1, p);
      } else {
        var i :| 0 <= i < |nexts| && HandedOn(nexts[i], current) == below[p - 1].context;
        assert nexts[i] in nexts;
        assert CausedBy(es, t, 0, p);
      }
    }
  }

  function Roots(current: Context, nexts: seq<Option<Context>>): seq<Context> {
    seq(|nexts|, i requires 0 <= i < |nexts| => HandedOn(nexts[i], current))
  }

  lemma {:induction false} ChainsAreCaused(es: seq<HookEntry>, index: nat, current: Context, nexts: seq<Option<Context>>)
    requires index <= |es|
    ensures Caused(es, Chains(es, index, current, nexts), index, Roots(current, nexts))
    decreases |es| - index, 2, |nexts|
  {
    if nexts != [] {
      var roots := Roots(current, nexts);
      ChainIsCaused(es, index, HandedOn(nexts[0], current));
      ChainsAreCaused(es, index, current, nexts[1..]);
      assert roots[0] == HandedOn(nexts[0], current);
      assert forall i :: 0 <= i < |nexts| - 1 ==> Roots(current, nexts[1..])[i] == roots[i + 1];
      CausedByMore(es, Chain(es, index, roots[0]), index, [roots[0]], roots);
      CausedByMore(es, Chains(es, index, current, nexts[1..]), index, Roots(current, nexts[1..]), roots);
      CausedConcat(es, Chain(es, index, roots[0]), Chains(es, index, current, nexts[1..]), index, roots);
    }
  }

  /**
   In a run every call but the first is caused by an earlier one: the handler one place
   up handed on its override, or its own context when it gave none.
   */
  lemma RunHandsContextsDown(es: seq<HookEntry>, context: Context, p: nat)
    requires p < |Chain(es, 0, context)|
    ensures var trace := Chain(es, 0, context);
      || (PlaceOf(trace[p], |es|) == 0 && trace[p].context == context)
      || HasCause(es, trace, p)
  {
    ChainIsCaused(es, 0, context);
  }

  /** The contexts of the calls one place below, up to the first call that is not below: what one handler call causes. */
  function Children(rest: seq<Call>, place: nat, length: nat): seq<Context> {
    if rest == [] || PlaceOf(rest[0], length) <= place then []
    else (if PlaceOf(rest[0], length) == place + 1 then [rest[0].context] else []) + Children(rest[1..], place, length)
  }

  ghost predicate AllFrom(trace: seq<Call>, place: nat, length: nat) {
    forall p :: 0 <= p < |trace| ==> PlaceOf(trace[p], length) >= place
  }

  /** What follows a chain is not below it. */
  ghost predicate Follows(tail: seq<Call>, place: nat, length: nat) {
    tail == [] || PlaceOf(tail[0], length) <= place
  }

  lemma {:induction false} ChainGoesDown(es: seq<HookEntry>, index: nat, current: Context)
    requires index <= |es|
    ensures AllFrom(Chain(es, index, current), index, |es|)
    decreases |es| - index, 1, 0
  {
    if index < |es| {
      ChainsGoDown(es, index + 1, current, es[index].handler(current));
    }
  }

  lemma {:induction false} ChainsGoDown(es: seq<HookEntry>, index: nat, current: Context, nexts: seq<Option<Context>>)
    requires index <= |es|
    ensures AllFrom(Chains(es, index, current, nexts), index, |es|)
    decreases |es| - index, 2, |nexts|
  {
    if nexts != [] {
      ChainGoesDown(es, index, HandedOn(nexts[0], current));
      ChainsGoDown(es, index, current, nexts[1..]);
    }
  }

  lemma {:induction false} SkipDeeper(a: seq<Call>, rest: seq<Call>, place: nat, length: nat)
    requires AllFrom(a, place + 2, length)
    ensures Children(a + rest, place, length) == Children(rest, place, length)
    decreases |a|
  {
    if a == [] {
      assert a + rest == rest;
    } else {
      assert (a + rest)[1..] == a[1..] + rest;
      SkipDeeper(a[1..], rest, place, length);
    }
  }

  /** A chain counts once: with the context it was started with. */
  lemma ChainIsOneChild(es: seq<HookEntry>, index: nat, current: Context, rest: seq<Call>)
    requires 0 < index <= |es|
    ensures Children(Chain(es, index, current) + rest, index - 1, |es|) == [current] + Children(rest, index - 1, |es|)
  {
    hide Children, Chains;
    if index == |es| {
      OneMoreChild(Terminal(current), rest, index - 1, |es|);
    } else {
      var below := Chains(es, index + 1, current, es[index].handler(current));
      ChainsGoDown(es, index + 1, current, es[index].handler(current));
      assert Chain(es, index, current) + rest == [Handled(index, current)] + (below + rest);
      OneMoreChild(Handled(index, current), below + rest, index - 1, |es|);
      SkipDeeper(below, rest, index - 1, |es|);
    }
  }

  lemma OneMoreChild(c: Call, rest: seq<Call>, place: nat, length: nat)
    requires PlaceOf(c, length) == place + 1
    ensures Children([c] + rest, place, length) == [c.context] + Children(rest, place, length)
  {
    assert ([c] + rest)[1..] == rest;
  }

  lemma NoChildren(tail: seq<Call>, place: nat, length: nat)
    requires Follows(tail, place, length)
    ensures Children(tail, place, length) == []
  {
  }

  lemma {:induction false} ChainsAreChildren(es: seq<HookEntry>, index: nat, current: Context,
                                             nexts: seq<Option<Context>>, tail: seq<Call>)
    requires 0 < index <= |es| && Follows(tail, index - 1, |es|)
    ensures Children(Chains(es, index, current, nexts) + tail, index - 1, |es|) == Roots(current, nexts)
    decreases |nexts|
  {
    hide Children, Chain;
    if nexts == [] {
      assert Chains(es, index, current, nexts) + tail == tail;
      NoChildren(tail, index - 1, |es|);
    } else {
      var first := HandedOn(nexts[0], current);
      var more := Chains(es, index, current, nexts[1..]);
      ChainsAreChildren(es, index, current, nexts[1..], tail);
      assert Chains(es, index, current, nexts) + tail == Chain(es, index, first) + (more + tail);
      ChainIsOneChild(es, index, first, more + tail);
      assert Roots(current, nexts) == [first] + Roots(current, nexts[1..]);
    }
  }

  /** Call q of the trace is a handler's: the calls it causes, in order, have what its nexts hand on. */
  ghost predicate HandsOnAt(es: seq<HookEntry>, trace: seq<Call>, q: nat)
    requires q < |trace|
  {
    trace[q].Handled? ==>
      && trace[q].index < |es|
      && Children(trace[q + 1..], trace[q].index, |es|) ==
           Roots(trace[q].context, es[trace[q].index].handler(trace[q].context))
  }

  lemma {:induction false} ChainHandsOn(es: seq<HookEntry>, index: nat, current: Context, tail: seq<Call>, q: nat)
    requires index <= |es| && q < |Chain(es, index, current)| && Follows(tail, index, |es|)
    ensures HandsOnAt(es, Chain(es, index, current) + tail, q)
    decreases |es| - index, 1, 0
  {
    hide Children, Roots, Chains, CallsNext;
    var trace := Chain(es, index, current) + tail;
    if index < |es| {
      var nexts := es[index].handler(current);
      var below := Chains(es, index + 1, current, nexts);
      assert trace == [Handled(index, current)] + (below + tail);
      if q == 0 {
        assert trace[1..] == below + tail;
        ChainsAreChildren(es, index + 1, current, nexts, tail);
      } else {
        ChainsHandOn(es, index + 1, current, nexts, tail, q - 1);
        assert trace[q + 1..] == (below + tail)[q..] && trace[q] == (below + tail)[q - 1];
      }
    }
  }

  lemma {:induction false} ChainsHandOn(es: seq<HookEntry>, index: nat, current: Context, nexts: seq<Option<Context>>,
                                        tail: seq<Call>, q: nat)
    requires 0 < index <= |es| && q < |Chains(es, index, current, nexts)| && Follows(tail, index - 1, |es|)
    ensures HandsOnAt(es, Chains(es, index, current, nexts) + tail, q)
    decreases |es| - index, 2, |nexts|
  {
    hide Children, Roots, Chain;
    var first := HandedOn(nexts[0], current);
    var chain, more := Chain(es, index, first), Chains(es, index, current, nexts[1..]);
    var trace := Chains(es, index, current, nexts) + tail;
    assert trace == chain + (more + tail);
    if q < |chain| {
      FirstOfChains(es, index, current, nexts[1..]);
      ChainHandsOn(es, index, first, more + tail, q);
    } else {
      ChainsHandOn(es, index, current, nexts[1..], tail, q - |chain|);
      assert trace[q + 1..] == (more + tail)[q - |chain| + 1..] && trace[q] == (more + tail)[q - |chain|];
    }
  }

  lemma FirstOfChains(es: seq<HookEntry>, index: nat, current: Context, nexts: seq<Option<Context>>)
    requires index <= |es|
    ensures Chains(es, index, current, nexts) == [] || PlaceOf(Chains(es, index, current, nexts)[0], |es|) == index
  {
    if nexts != [] {
      assert Chain(es, index, HandedOn(nexts[0], current)) != [];
    }
  }

  /**
   In a run the calls one handler call causes one place up are, in order, one for each of
   its calls to next, with the context that one handed on: an override does not outlast it.
   */
  lemma RunHandsOnInOrder(es: seq<HookEntry>, context: Context, q: nat)
    requires q < |Chain(es, 0, context)| && Chain(es, 0, context)[q].Handled?
    ensures var trace := Chain(es, 0, context);
      && trace[q].index < |es|
      && var nexts := es[trace[q].index].handler(trace[q].context);
         var caused := Children(trace[q + 1..], trace[q].index, |es|);
         && |caused| == |nexts|
         && forall n :: 0 <= n < |nexts| ==>
              caused[n] == if nexts[n].Some? then nexts[n].value else trace[q].context
  {
    ChainHandsOn(es, 0, context, [], q);
    assert Chain(es, 0, context) + [] == Chain(es, 0, context);
  }
}
