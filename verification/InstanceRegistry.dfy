/**
 The life of one entry in the instance registry: heartbeat and update writes in
 any number, one release, peers writing their own entries and sweeping dead ones,
 all interleaved at the points where the code awaits.
 */
module InstanceRegistry {
  type ServerId = string
  type Pid = nat
  type WriterId = nat
  type SweepId = nat

  /** What register closes over: the flag, the write counter and the drain callback. */
  datatype Closure = Closure(released: bool, inflightWrites: int, waiting: bool, resolved: bool)

  // The stretches of register's closures that run without an await.

  /** write up to its first await. */
  function BeginWrite(c: Closure): Closure {
    if c.released then c else c.(inflightWrites := c.inflightWrites + 1)
  }

  /** The finally block of write. */
  function EndWrite(c: Closure): Closure {
    var left := c.inflightWrites - 1;
    c.(inflightWrites := left, resolved := c.resolved || (left == 0 && c.waiting))
  }

  /** release up to its first await, for the call that finds the flag down. */
  function BeginRelease(c: Closure): Closure {
    c.(released := true, waiting := c.inflightWrites > 0)
  }

  class Registration {
    var released: bool
    var inflightWrites: int
    /** onWritesDrained is set, and whether it has been called. */
    var onWritesDrained: bool
    var drained: bool

    function Abs(): Closure
      reads this
    {
      Closure(released, inflightWrites, onWritesDrained, drained)
    }

    constructor ()
      ensures Abs() == Closure(false, 0, false, false)
    {
      released, inflightWrites, onWritesDrained, drained := false, 0, false, false;
    }

    method StartWriting() returns (started: bool)
      modifies this
      ensures Abs() == BeginWrite(old(Abs())) && started == !old(released)
    {
      if released {
        return false;
      }
      inflightWrites := inflightWrites + 1;
      return true;
    }

    method FinishWriting()
      modifies this
      ensures Abs() == EndWrite(old(Abs()))
    {
      inflightWrites := inflightWrites - 1;
      if inflightWrites == 0 && onWritesDrained {
        drained := true;
      }
    }

    /** Whether this call does the release, and whether it has to wait first. */
    method StartRelease() returns (mine: bool, wait: bool)
      modifies this
      ensures mine == !old(released)
      ensures mine ==> Abs() == BeginRelease(old(Abs())) && wait == (old(inflightWrites) > 0)
      ensures !mine ==> Abs() == old(Abs())
    {
      if released {
        return false, false;
      }
      released := true;
      onWritesDrained := inflightWrites > 0;
      return true, onWritesDrained;
    }
  }

  // The protocol.

  datatype Phase = Registering(renamed: bool) | Registered | Aborted
  datatype ReleasePc = NotReleased | Waiting | Unlinking | Done

  /** A peer's sweep of one file: it has read an entry, or found its process dead. */
  datatype Sweep = HasRead(name: ServerId, pid: Pid) | FoundDead(name: ServerId)

  datatype State = State(
    files: map<ServerId, Pid>,
    closure: Closure,
    phase: Phase,
    writing: set<WriterId>,
    finishing: set<WriterId>,
    release: ReleasePc,
    sweeps: map<SweepId, Sweep>)

  datatype Input =
    | WriteStarts(w: WriterId)
    | WriteRenames(w: WriterId)
    | WriteFails(w: WriterId)
    | WriteEnds(w: WriterId)
    | RegisterReturns
    | ReleaseCalled
    | ReleaseWakes
    | ReleaseUnlinks
    | PeerWrites(name: ServerId, pid: Pid)
    | PeerUnlinks(name: ServerId)
    | SweepReads(k: SweepId, name: ServerId)
    | SweepProbes(k: SweepId, alive: bool)
    | SweepUnlinks(k: SweepId)

  /** The entry's own id and process id. */
  datatype Self = Self(id: ServerId, pid: Pid)

  /** register just before its first write; whatever peers have written under their own ids. */
  predicate IsInitial(me: Self, s: State) {
    && me.id !in s.files && s.closure == Closure(false, 1, false, false) && s.phase == Registering(false)
    && s.writing == {0} && s.finishing == {} && s.release == NotReleased && s.sweeps == map[]
  }

  /**
   What may happen in a state. Heartbeats, updates and release exist once register has
   returned; a peer writes and unlinks its own file only, sweeps leave live entries
   alone, and this entry's own process is alive.
   */
  predicate Allowed(me: Self, s: State, i: Input) {
    match i
    case WriteStarts(w) => s.phase.Registered? && w !in s.writing && w !in s.finishing
    case WriteRenames(w) => w in s.writing
    case WriteFails(w) => w in s.writing
    case WriteEnds(w) => w in s.finishing
    case RegisterReturns => s.phase.Registering? && s.writing == {} && s.finishing == {}
    case ReleaseCalled => s.phase.Registered?
    case ReleaseWakes => s.release == Waiting && s.closure.resolved
    case ReleaseUnlinks => s.release == Unlinking
    case PeerWrites(name, _) => name != me.id
    case PeerUnlinks(name) => name != me.id
    case SweepReads(k, name) => k !in s.sweeps
    case SweepProbes(k, alive) => k in s.sweeps && s.sweeps[k].HasRead? && (s.sweeps[k].pid == me.pid ==> alive)
    case SweepUnlinks(k) => k in s.sweeps && s.sweeps[k].FoundDead?
  }

  function Step(me: Self, s: State, i: Input): State
    requires Allowed(me, s, i)
  {
    match i
    case WriteStarts(w) =>
      s.(closure := BeginWrite(s.closure), writing := if s.closure.released then s.writing else s.writing + {w})
    case WriteRenames(w) =>
      s.(files := s.files[me.id := me.pid], writing := s.writing - {w}, finishing := s.finishing + {w},
         phase := if s.phase.Registering? then Registering(true) else s.phase)
    case WriteFails(w) =>
      s.(writing := s.writing - {w}, finishing := s.finishing + {w})
    case WriteEnds(w) =>
      s.(closure := EndWrite(s.closure), finishing := s.finishing - {w})
    case RegisterReturns =>
      s.(phase := if s.phase.renamed then Registered else Aborted)
    case ReleaseCalled =>
      if s.closure.released then s
      else s.(closure := BeginRelease(s.closure),
              release := if s.closure.inflightWrites > 0 then Waiting else Unlinking)
    case ReleaseWakes => s.(release := Unlinking)
    case ReleaseUnlinks => s.(files := s.files - {me.id}, release := Done)
    case PeerWrites(name, pid) => s.(files := s.files[name := pid])
    case PeerUnlinks(name) => s.(files := s.files - {name})
    case SweepReads(k, name) =>
      if name in s.files then s.(sweeps := s.sweeps[k := HasRead(name, s.files[name])]) else s
    case SweepProbes(k, alive) =>
      s.(sweeps := if alive then s.sweeps - {k} else s.sweeps[k := FoundDead(s.sweeps[k].name)])
    case SweepUnlinks(k) =>
      s.(files := s.files - {s.sweeps[k].name}, sweeps := s.sweeps - {k})
  }

  /** The inputs can happen one after the other. */
  predicate Possible(me: Self, s: State, inputs: seq<Input>)
    decreases |inputs|
  {
    inputs == [] || (Allowed(me, s, inputs[0]) && Possible(me, Step(me, s, inputs[0]), inputs[1..]))
  }

  function Run(me: Self, s: State, inputs: seq<Input>): State
    requires Possible(me, s, inputs)
    decreases |inputs|
  {
    if inputs == [] then s else Run(me, Step(me, s, inputs[0]), inputs[1..])
  }

  function InFlight(s: State): nat {
    |s.writing| + |s.finishing|
  }

  /** The counter counts the writes in flight, and a release waits for exactly those. */
  ghost predicate WritesAreCounted(s: State) {
    && s.writing !! s.finishing && s.closure.inflightWrites == InFlight(s)
    && (s.closure.released <==> s.release != NotReleased)
    && (s.release != NotReleased ==> s.phase == Registered)
    && (s.release == NotReleased ==> !s.closure.waiting && !s.closure.resolved)
    && (s.release == Waiting ==> s.closure.waiting && (s.closure.resolved <==> InFlight(s) == 0))
    && (s.release == Unlinking || s.release == Done ==> InFlight(s) == 0)
  }

  /** The entry is there when it should be and names this process, and no sweep is after it. */
  ghost predicate EntryIsSafe(me: Self, s: State) {
    && (s.phase == Registered && s.release != Done ==> me.id in s.files)
    && (s.phase == Registering(true) ==> me.id in s.files)
    && (s.release == Done ==> me.id !in s.files)
    && (me.id in s.files ==> s.files[me.id] == me.pid)
    && (forall k :: k in s.sweeps && s.sweeps[k].name == me.id ==> s.sweeps[k] == HasRead(me.id, me.pid))
  }

  ghost predicate Invariant(me: Self, s: State) {
    WritesAreCounted(s) && EntryIsSafe(me, s)
  }

  lemma InitialInvariant(me: Self, s: State)
    requires IsInitial(me, s)
    ensures Invariant(me, s)
  {
  }

  lemma StepKeepsInvariant(me: Self, s: State, i: Input)
    requires Invariant(me, s) && Allowed(me, s, i)
    ensures Invariant(me, Step(me, s, i))
  {
    StepKeepsCount(me, s, i);
    StepKeepsEntry(me, s, i);
  }

  lemma StepKeepsCount(me: Self, s: State, i: Input)
    requires WritesAreCounted(s) && Allowed(me, s, i)
    ensures WritesAreCounted(Step(me, s, i))
  {
    match i
    case WriteRenames(w) => Moves(s.writing, s.finishing, w);
    case WriteFails(w) => Moves(s.writing, s.finishing, w);
    case WriteStarts(w) =>
    case WriteEnds(w) =>
      assert |s.finishing - {w}| == |s.finishing| - 1;
    case _ =>
  }

  /** With nothing in flight after the unlink, nothing can bring the entry back. */
  lemma StepKeepsEntry(me: Self, s: State, i: Input)
    requires WritesAreCounted(s) && EntryIsSafe(me, s) && Allowed(me, s, i)
    ensures EntryIsSafe(me, Step(me, s, i))
  {
    hide BeginWrite, EndWrite, BeginRelease;
  }

  lemma Moves(a: set<WriterId>, b: set<WriterId>, w: WriterId)
    requires a !! b && w in a
    ensures |a - {w}| + |b + {w}| == |a| + |b| && (a - {w}) !! (b + {w})
  {
    assert |a - {w}| == |a| - 1;
  }

  lemma {:induction false} InvariantHolds(me: Self, s: State, inputs: seq<Input>)
    requires Invariant(me, s) && Possible(me, s, inputs)
    ensures Invariant(me, Run(me, s, inputs))
    decreases |inputs|
  {
    hide Invariant, Allowed, Step;
    if inputs != [] {
      StepKeepsInvariant(me, s, inputs[0]);
      InvariantHolds(me, Step(me, s, inputs[0]), inputs[1..]);
    }
  }

  /**
   Over every interleaving: from register's return until release's unlink the entry is
   there, and from then on it never is.
   */
  lemma PresentUntilReleased(me: Self, s: State, inputs: seq<Input>)
    requires IsInitial(me, s) && Possible(me, s, inputs)
    ensures var t := Run(me, s, inputs);
      && (t.phase == Registered ==> (me.id in t.files <==> t.release != Done))
      && (me.id in t.files ==> t.files[me.id] == me.pid)
  {
    InitialInvariant(me, s);
    InvariantHolds(me, s, inputs);
  }

  /** No wake-up is missed: with no write left in flight, a release is never still asleep. */
  lemma NoMissedWakeUp(me: Self, s: State, inputs: seq<Input>)
    requires IsInitial(me, s) && Possible(me, s, inputs)
    ensures var t := Run(me, s, inputs);
      && (t.release == Waiting && InFlight(t) == 0 ==> Allowed(me, t, ReleaseWakes))
      && (t.release == Waiting && InFlight(t) > 0 ==>
            exists w :: Allowed(me, t, WriteFails(w)) || Allowed(me, t, WriteEnds(w)))
  {
    InitialInvariant(me, s);
    InvariantHolds(me, s, inputs);
    var t := Run(me, s, inputs);
    if InFlight(t) > 0 {
      if t.writing != {} {
        var w :| w in t.writing;
        assert Allowed(me, t, WriteFails(w));
      } else {
        var w :| w in t.finishing;
        assert Allowed(me, t, WriteEnds(w));
      }
    }
  }

  /** The steps the release still has to wait for, and its own. */
  function Remaining(s: State): nat {
    2 * |s.writing| + |s.finishing| + match s.release case NotReleased => 3 case Waiting => 2 case Unlinking => 1 case Done => 0
  }

  predicate IsOwnProgress(i: Input) {
    i.WriteRenames? || i.WriteFails? || i.WriteEnds? || i.ReleaseWakes? || i.ReleaseUnlinks?
  }

  /**
   Once called, a release is done after boundedly many steps of its own side: each
   brings it nearer, and nothing anybody else does sets it back.
   */
  lemma ReleaseGetsNearer(me: Self, s: State, i: Input)
    requires s.writing !! s.finishing && Allowed(me, s, i) && s.closure.released
    ensures Remaining(Step(me, s, i)) <= Remaining(s)
    ensures IsOwnProgress(i) ==> Remaining(Step(me, s, i)) < Remaining(s)
  {
    hide BeginRelease, EndWrite;
    if i.WriteRenames? || i.WriteFails? {
      WriteLands(me, s, i);
    } else if i.WriteEnds? {
      WriteLeaves(me, s, i);
    }
  }

  lemma WriteLands(me: Self, s: State, i: Input)
    requires s.writing !! s.finishing && Allowed(me, s, i) && (i.WriteRenames? || i.WriteFails?)
    ensures Remaining(Step(me, s, i)) < Remaining(s)
  {
    MovedNearer(s, i.w);
  }

  lemma WriteLeaves(me: Self, s: State, i: Input)
    requires Allowed(me, s, i) && i.WriteEnds?
    ensures Remaining(Step(me, s, i)) < Remaining(s)
  {
    assert |s.finishing - {i.w}| == |s.finishing| - 1;
  }

  lemma MovedNearer(s: State, w: WriterId)
    requires s.writing !! s.finishing && w in s.writing
    ensures 2 * |s.writing - {w}| + |s.finishing + {w}| < 2 * |s.writing| + |s.finishing|
  {
    Moves(s.writing, s.finishing, w);
    assert |s.writing - {w}| == |s.writing| - 1;
  }

  function OwnSteps(inputs: seq<Input>): nat {
    if inputs == [] then 0 else (if IsOwnProgress(inputs[0]) then 1 else 0) + OwnSteps(inputs[1..])
  }

  lemma {:induction false} OwnStepsAreBounded(me: Self, s: State, inputs: seq<Input>)
    requires Invariant(me, s) && s.closure.released && Possible(me, s, inputs)
    ensures Remaining(Run(me, s, inputs)) + OwnSteps(inputs) <= Remaining(s)
    ensures Run(me, s, inputs).closure.released
    decreases |inputs|
  {
    hide Invariant, Remaining, IsOwnProgress, Allowed, Step;
    if inputs != [] {
      WritesAreDisjoint(me, s);
      ReleaseGetsNearer(me, s, inputs[0]);
      StepKeepsInvariant(me, s, inputs[0]);
      StaysReleased(me, s, inputs[0]);
      OwnStepsAreBounded(me, Step(me, s, inputs[0]), inputs[1..]);
    }
  }

  lemma WritesAreDisjoint(me: Self, s: State)
    requires Invariant(me, s)
    ensures s.writing !! s.finishing
  {
  }

  lemma StaysReleased(me: Self, s: State, i: Input)
    requires Allowed(me, s, i) && s.closure.released
    ensures Step(me, s, i).closure.released
  {
  }

  // Runs, from their inputs alone.

  lemma {:induction false} RunsJoin(me: Self, s: State, a: seq<Input>, b: seq<Input>)
    ensures Possible(me, s, a + b) <==> Possible(me, s, a) && Possible(me, Run(me, s, a), b)
    ensures Possible(me, s, a + b) ==> Run(me, s, a + b) == Run(me, Run(me, s, a), b)
    decreases |a|
  {
    hide Allowed, Step;
    if a == [] {
      assert a + b == b;
    } else {
      assert (a + b)[1..] == a[1..] + b;
      if Allowed(me, s, a[0]) {
        RunsJoin(me, Step(me, s, a[0]), a[1..], b);
      }
    }
  }

  lemma OneStep(me: Self, s: State, i: Input)
    ensures Possible(me, s, [i]) <==> Allowed(me, s, i)
    ensures Allowed(me, s, i) ==> Run(me, s, [i]) == Step(me, s, i)
  {
    assert [i][1..] == [];
  }

  /** After release has been called, at most two steps for each write in flight and two of its own are left. */
  lemma ReleaseIsBounded(me: Self, s: State, before: seq<Input>, after: seq<Input>)
    requires IsInitial(me, s) && Possible(me, s, before + [ReleaseCalled] + after)
    ensures Possible(me, s, before) && OwnSteps(after) <= 2 * InFlight(Run(me, s, before)) + 2
  {
    var t := CallTakesHold(me, s, before, after);
    OwnStepsAreBounded(me, t, after);
  }

  /** The first call raises the flag, and any later one finds it up. */
  lemma CallTakesHold(me: Self, s: State, before: seq<Input>, after: seq<Input>) returns (t: State)
    requires IsInitial(me, s) && Possible(me, s, before + [ReleaseCalled] + after)
    ensures Possible(me, s, before) && Possible(me, t, after)
    ensures Run(me, s, before + [ReleaseCalled] + after) == Run(me, t, after)
    ensures Invariant(me, t) && t.closure.released && Remaining(t) <= 2 * InFlight(Run(me, s, before)) + 2
  {
    hide Possible, Run, Allowed;
    RunsJoin(me, s, before + [ReleaseCalled], after);
    RunsJoin(me, s, before, [ReleaseCalled]);
    var u := Run(me, s, before);
    OneStep(me, u, ReleaseCalled);
    InitialInvariant(me, s);
    InvariantHolds(me, s, before);
    t := Step(me, u, ReleaseCalled);
    StepKeepsInvariant(me, u, ReleaseCalled);
  }

  /**
   A release gets done: when release has been called and nothing of its own side is left
   to happen, the entry is gone.
   */
  lemma ReleaseGetsDone(me: Self, s: State, before: seq<Input>, after: seq<Input>)
    requires IsInitial(me, s) && Possible(me, s, before + [ReleaseCalled] + after)
    requires forall i :: IsOwnProgress(i) ==> !Allowed(me, Run(me, s, before + [ReleaseCalled] + after), i)
    ensures me.id !in Run(me, s, before + [ReleaseCalled] + after).files
  {
    hide Possible, Run, Step;
    var u := CallTakesHold(me, s, before, after);
    OwnStepsAreBounded(me, u, after);
    InvariantHolds(me, u, after);
    var t := Run(me, u, after);
    if t.release != Done {
      var i := OwnProgressIsLeft(me, t);
    }
  }

  /** As long as a release is not done, something of its own side can go on. */
  lemma OwnProgressIsLeft(me: Self, t: State) returns (i: Input)
    requires WritesAreCounted(t) && t.closure.released && t.release != Done
    ensures IsOwnProgress(i) && Allowed(me, t, i)
  {
    if w :| w in t.writing {
      i := WriteFails(w);
    } else if w :| w in t.finishing {
      i := WriteEnds(w);
    } else {
      i := if t.release == Waiting then ReleaseWakes else ReleaseUnlinks;
    }
  }

  /** What the inputs so far say of register, its first write and the entry. */
  ghost predicate Tells(me: Self, inputs: seq<Input>, t: State) {
    TellsPhase(inputs, t) && TellsRelease(inputs, t) && (me.id in t.files <==> WriteRenames(0) in inputs && ReleaseUnlinks !in inputs)
  }

  ghost predicate TellsPhase(inputs: seq<Input>, t: State) {
    && (RegisterReturns !in inputs <==> t.phase.Registering?)
    && (t.phase == Registering(true) || t.phase == Registered <==> WriteRenames(0) in inputs)
    && (t.phase != Registered ==> t.writing + t.finishing <= {0})
    && (t.phase == Aborted ==> t.writing == {})
  }

  ghost predicate TellsRelease(inputs: seq<Input>, t: State) {
    && (t.closure.released <==> ReleaseCalled in inputs)
    && (t.release == Done <==> ReleaseUnlinks in inputs)
  }

  lemma StepTells(me: Self, inputs: seq<Input>, t: State, i: Input)
    requires Invariant(me, t) && Tells(me, inputs, t) && Allowed(me, t, i)
    ensures Tells(me, inputs + [i], Step(me, t, i))
  {
    StepTellsPhase(me, inputs, t, i);
    StepTellsRelease(me, inputs, t, i);
    StepTellsEntry(me, inputs, t, i);
  }

  lemma StepTellsPhase(me: Self, inputs: seq<Input>, t: State, i: Input)
    requires TellsPhase(inputs, t) && Allowed(me, t, i)
    ensures TellsPhase(inputs + [i], Step(me, t, i))
  {
    hide BeginWrite, EndWrite, BeginRelease;
    assert forall j :: j in inputs + [i] <==> j in inputs || j == i;
  }

  lemma StepTellsRelease(me: Self, inputs: seq<Input>, t: State, i: Input)
    requires WritesAreCounted(t) && TellsRelease(inputs, t) && Allowed(me, t, i)
    ensures TellsRelease(inputs + [i], Step(me, t, i))
  {
    assert forall j :: j in inputs + [i] <==> j in inputs || j == i;
  }

  lemma StepTellsEntry(me: Self, inputs: seq<Input>, t: State, i: Input)
    requires Invariant(me, t) && Tells(me, inputs, t) && Allowed(me, t, i)
    ensures me.id in Step(me, t, i).files <==> WriteRenames(0) in inputs + [i] && ReleaseUnlinks !in inputs + [i]
  {
    hide BeginWrite, EndWrite, BeginRelease;
    assert forall j :: j in inputs + [i] <==> j in inputs || j == i;
  }

  lemma {:induction false} RunTells(me: Self, s: State, inputs: seq<Input>)
    requires IsInitial(me, s) && Possible(me, s, inputs)
    ensures Tells(me, inputs, Run(me, s, inputs)) && Invariant(me, Run(me, s, inputs))
    decreases |inputs|
  {
    InitialInvariant(me, s);
    InvariantHolds(me, s, inputs);
    if inputs != [] {
      hide Tells, Invariant, Step, Allowed, Possible, Run;
      var init, last := inputs[..|inputs| - 1], inputs[|inputs| - 1];
      assert inputs == init + [last];
      RunsJoin(me, s, init, [last]);
      RunTells(me, s, init);
      OneStep(me, Run(me, s, init), last);
      StepTells(me, init, Run(me, s, init), last);
    }
  }

  /**
   Over every interleaving the entry is there exactly when register's first write has
   been renamed into place and release has not unlinked it; it then names this process.
   */
  lemma EntryIsThere(me: Self, s: State, inputs: seq<Input>)
    requires IsInitial(me, s) && Possible(me, s, inputs)
    ensures var t := Run(me, s, inputs);
      && (me.id in t.files <==> WriteRenames(0) in inputs && ReleaseUnlinks !in inputs)
      && (me.id in t.files ==> t.files[me.id] == me.pid)
  {
    RunTells(me, s, inputs);
  }

  /** register returns an instance exactly when its first write was renamed, and throws otherwise. */
  lemma RegisterReportsItsWrite(me: Self, s: State, inputs: seq<Input>)
    requires IsInitial(me, s) && Possible(me, s, inputs) && RegisterReturns in inputs
    ensures Run(me, s, inputs).phase == if WriteRenames(0) in inputs then Registered else Aborted
  {
    RunTells(me, s, inputs);
  }

  /** A heartbeat or update writes exactly when release has not been called. */
  lemma WritesUntilReleased(me: Self, s: State, inputs: seq<Input>, w: WriterId)
    requires IsInitial(me, s) && Possible(me, s, inputs + [WriteStarts(w)])
    ensures Allowed(me, Run(me, s, inputs + [WriteStarts(w)]), WriteRenames(w)) <==> ReleaseCalled !in inputs
  {
    RunsJoin(me, s, inputs, [WriteStarts(w)]);
    OneStep(me, Run(me, s, inputs), WriteStarts(w));
    RunTells(me, s, inputs);
    hide Possible, Run;
  }

  // Sweeps by peers.

  predicate IsAbout(i: Input, k: SweepId) {
    match i
    case SweepReads(j, _) => j == k
    case SweepProbes(j, _) => j == k
    case SweepUnlinks(j) => j == k
    case _ => false
  }

  lemma {:induction false} SweepWaits(me: Self, s: State, inputs: seq<Input>, k: SweepId)
    requires Possible(me, s, inputs) && forall i :: i in inputs ==> !IsAbout(i, k)
    ensures var t := Run(me, s, inputs);
      (k in t.sweeps <==> k in s.sweeps) && (k in s.sweeps ==> t.sweeps[k] == s.sweeps[k])
    decreases |inputs|
  {
    if inputs != [] {
      assert inputs[0] in inputs;
      SweepLeftAlone(me, s, inputs[0], k);
      hide Step, Allowed, IsAbout;
      SweepWaits(me, Step(me, s, inputs[0]), inputs[1..], k);
    }
  }

  lemma SweepLeftAlone(me: Self, s: State, i: Input, k: SweepId)
    requires Allowed(me, s, i) && !IsAbout(i, k)
    ensures var t := Step(me, s, i);
      (k in t.sweeps <==> k in s.sweeps) && (k in s.sweeps ==> t.sweeps[k] == s.sweeps[k])
  {
  }

  /**
   A sweep that has read an entry and found its process dead takes the file away, and no
   other; one that found it alive never gets that far.
   */
  lemma SweepRemovesTheDead(me: Self, s: State, k: SweepId, name: ServerId, a: seq<Input>, dead: bool, b: seq<Input>)
    requires k !in s.sweeps && name in s.files
    requires forall i :: i in a + b ==> !IsAbout(i, k)
    requires Possible(me, s, [SweepReads(k, name)] + a + [SweepProbes(k, !dead)] + b)
    ensures var t := Run(me, s, [SweepReads(k, name)] + a + [SweepProbes(k, !dead)] + b);
      && (Allowed(me, t, SweepUnlinks(k)) <==> dead)
      && (dead ==> Step(me, t, SweepUnlinks(k)).files == t.files - {name})
  {
    hide Possible, Run;
    RunsJoin(me, s, [SweepReads(k, name)] + a + [SweepProbes(k, !dead)], b);
    RunsJoin(me, s, [SweepReads(k, name)] + a, [SweepProbes(k, !dead)]);
    RunsJoin(me, s, [SweepReads(k, name)], a);
    OneStep(me, s, SweepReads(k, name));
    var s1 := Step(me, s, SweepReads(k, name));
    SweepWaits(me, s1, a, k);
    var s2 := Run(me, s1, a);
    OneStep(me, s2, SweepProbes(k, !dead));
    SweepWaits(me, Step(me, s2, SweepProbes(k, !dead)), b, k);
  }
}
