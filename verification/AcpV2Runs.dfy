/**
 What a client of a v2 session gets to see, said of the notifications and of the
 inputs alone: whose chunks an upsert replaces, which chunks share a message, what
 the inputs make go out, and with which reason each idle update does.
 */
module AcpV2Runs {
  import opened Wrappers
  import opened AcpV2Session

  function Prefix<T>(ts: seq<T>): seq<T>
    requires ts != []
  {
    ts[..|ts| - 1]
  }

  function Last<T>(ts: seq<T>): T
    requires ts != []
  {
    ts[|ts| - 1]
  }

  lemma {:induction false} RunsJoin(s: State, a: seq<Input>, b: seq<Input>)
    ensures Run(s, a + b) == Run(Run(s, a), b)
    decreases |a|
  {
    hide Step;
    if a == [] {
      assert a + b == b;
    } else {
      assert (a + b)[1..] == a[1..] + b;
      RunsJoin(Step(s, a[0]), a[1..], b);
    }
  }

  /** The last step of a run. */
  lemma RunLast(s: State, inputs: seq<Input>)
    requires inputs != []
    ensures Run(s, inputs) == Step(Run(s, Prefix(inputs)), Last(inputs))
  {
    hide Step;
    assert inputs == Prefix(inputs) + [Last(inputs)];
    RunsJoin(s, Prefix(inputs), [Last(inputs)]);
    assert [Last(inputs)][1..] == [];
  }

  // Messages, on the notifications alone.

  predicate IsChunk(n: Note, kind: Kind) {
    match kind case Agent => n.AgentChunk? case Thought => n.ThoughtChunk?
  }

  /** The defined contents of the chunks sent since a turn last started. */
  function Since(sent: seq<Note>, kind: Kind): seq<string> {
    if sent == [] || Last(sent).Running? then []
    else Since(Prefix(sent), kind) + if IsChunk(Last(sent), kind) && Last(sent).content.Some? then [Last(sent).content.value] else []
  }

  /** The message the latest chunk since then belongs to, if there was one. */
  function Current(sent: seq<Note>, kind: Kind): Option<Id> {
    if sent == [] || Last(sent).Running? then None
    else if IsChunk(Last(sent), kind) then Some(Last(sent).id)
    else Current(Prefix(sent), kind)
  }

  /** The upsert of a kind: everything since, under its message. */
  function Upsert(sent: seq<Note>, kind: Kind): seq<Note> {
    if Since(sent, kind) == [] || Current(sent, kind) == None then []
    else match kind
      case Agent => [AgentMessage(Current(sent, kind).value, Since(sent, kind))]
      case Thought => [AgentThought(Current(sent, kind).value, Since(sent, kind))]
  }

  ghost predicate Used(sent: seq<Note>, id: Id) {
    exists i :: 0 <= i < |sent| && (sent[i].AgentChunk? || sent[i].ThoughtChunk?) && sent[i].id == id
  }

  /** A chunk goes on the current message of its kind, or opens one under an id never seen. */
  ghost predicate ChunkFits(before: seq<Note>, n: Note, kind: Kind) {
    IsChunk(n, kind) ==>
      if Current(before, kind).Some? then n.id == Current(before, kind).value else !Used(before, n.id)
  }

  ghost predicate Fits(before: seq<Note>, n: Note) {
    && ChunkFits(before, n, Agent) && ChunkFits(before, n, Thought)
    && (n.AgentMessage? ==> [n] == Upsert(before, Agent))
    && (n.AgentThought? ==> [n] == Upsert(before, Thought))
  }

  ghost predicate FitsAt(sent: seq<Note>, j: nat)
    requires j < |sent|
  {
    Fits(sent[..j], sent[j])
  }

  /** What the session holds is what the client could have worked out. */
  ghost predicate ClientView(s: State) {
    && s.agentContent == Since(s.sent, Agent) && s.agentId == Current(s.sent, Agent)
    && s.thoughtContent == Since(s.sent, Thought) && s.thoughtId == Current(s.sent, Thought)
    && (forall id: Id :: Used(s.sent, id) ==> id < s.nextId)
    && forall j :: 0 <= j < |s.sent| ==> FitsAt(s.sent, j)
  }

  lemma OneMoreNote(sent: seq<Note>, n: Note, kind: Kind)
    ensures Since(sent + [n], kind) ==
      if n.Running? then [] else Since(sent, kind) + if IsChunk(n, kind) && n.content.Some? then [n.content.value] else []
    ensures Current(sent + [n], kind) ==
      if n.Running? then None else if IsChunk(n, kind) then Some(n.id) else Current(sent, kind)
  {
    assert Prefix(sent + [n]) == sent;
  }

  lemma OneMoreUsed(sent: seq<Note>, n: Note)
    ensures forall id: Id :: Used(sent + [n], id) <==>
      Used(sent, id) || ((n.AgentChunk? || n.ThoughtChunk?) && n.id == id)
  {
    var more := sent + [n];
    assert more[|sent|] == n && forall i :: 0 <= i < |sent| ==> more[i] == sent[i];
  }

  lemma OneMoreFits(sent: seq<Note>, n: Note)
    requires Fits(sent, n) && forall j :: 0 <= j < |sent| ==> FitsAt(sent, j)
    ensures forall j :: 0 <= j < |sent + [n]| ==> FitsAt(sent + [n], j)
  {
    hide Fits;
    var more := sent + [n];
    forall j | 0 <= j < |more| ensures FitsAt(more, j) {
      if j < |sent| {
        assert FitsAt(sent, j) && more[..j] == sent[..j];
      } else {
        assert more[..j] == sent;
      }
    }
  }

  /** A step hands over at most one notification, and that one fits. */
  lemma SeenStep(s: State, t: State, n: Note)
    requires ClientView(s) && t.sent == s.sent + [n] && Fits(s.sent, n) && s.nextId <= t.nextId
    requires n.AgentChunk? || n.ThoughtChunk? ==> n.id < t.nextId
    requires t.agentContent == if n.Running? then [] else s.agentContent + if n.AgentChunk? && n.content.Some? then [n.content.value] else []
    requires t.agentId == if n.Running? then None else if n.AgentChunk? then Some(n.id) else s.agentId
    requires t.thoughtContent == if n.Running? then [] else s.thoughtContent + if n.ThoughtChunk? && n.content.Some? then [n.content.value] else []
    requires t.thoughtId == if n.Running? then None else if n.ThoughtChunk? then Some(n.id) else s.thoughtId
    ensures ClientView(t)
  {
    hide Since, Current, Used, Fits, FitsAt;
    OneMoreNote(s.sent, n, Agent);
    OneMoreNote(s.sent, n, Thought);
    OneMoreUsed(s.sent, n);
    OneMoreFits(s.sent, n);
  }

  lemma QuietStep(s: State, t: State)
    requires ClientView(s) && t.sent == s.sent && s.nextId <= t.nextId
    requires t.agentContent == s.agentContent && t.agentId == s.agentId
    requires t.thoughtContent == s.thoughtContent && t.thoughtId == s.thoughtId
    ensures ClientView(t)
  {
  }

  /** Where a finish stands: it sends the agent's upsert, the thought's, and the idle update, in this order. */
  lemma FinishSends(s: State, reason: Option<string>)
    requires ClientView(s)
    ensures var ups := Upsert(s.sent, Agent) + Upsert(s.sent, Thought) + [Idle(StopReasonOf(reason))];
      FinishTurn(s, reason).sent == s.sent + ups[..1]
    ensures var ups := Upsert(s.sent, Thought) + [Idle(StopReasonOf(reason))];
      FinishFromThought(s, reason).sent == s.sent + ups[..1]
    ensures ClientView(FinishTurn(s, reason)) && ClientView(FinishFromThought(s, reason)) && ClientView(FinishFromIdle(s, reason))
  {
    hide Since, Current, StopReasonOf, ClientView;
    FinishFits(s, reason);
    WhatIsHeld(s);
  }

  lemma WhatIsHeld(s: State)
    requires ClientView(s)
    ensures Upsert(s.sent, Agent) ==
      if s.agentId.Some? && s.agentContent != [] then [AgentMessage(s.agentId.value, s.agentContent)] else []
    ensures Upsert(s.sent, Thought) ==
      if s.thoughtId.Some? && s.thoughtContent != [] then [AgentThought(s.thoughtId.value, s.thoughtContent)] else []
  {
  }

  lemma FinishFits(s: State, reason: Option<string>)
    requires ClientView(s)
    ensures ClientView(FinishTurn(s, reason)) && ClientView(FinishFromThought(s, reason)) && ClientView(FinishFromIdle(s, reason))
  {
    hide Since, Current, StopReasonOf, ClientView, Upsert;
    WhatIsHeld(s);
    var idle := Idle(StopReasonOf(reason));
    SeenStep(s, Notify(s, idle), idle);
    if s.agentId.Some? && s.agentContent != [] {
      SeenStep(s, FinishTurn(s, reason), AgentMessage(s.agentId.value, s.agentContent));
    }
    if s.thoughtId.Some? && s.thoughtContent != [] {
      SeenStep(s, FinishFromThought(s, reason), AgentThought(s.thoughtId.value, s.thoughtContent));
    }
  }

  lemma StepKeepsView(s: State, input: Input)
    requires ClientView(s)
    ensures ClientView(Step(s, input))
  {
    hide ClientView, FinishTurn, FinishFromThought, FinishFromIdle, Fits, Upsert, StopReasonOf;
    var t := Step(s, input);
    match input
    case PromptRequest => if !s.promptActive { Plain(s, UserMessage(s.nextId)); SeenStep(s, t, UserMessage(s.nextId)); }
    case UserMessageSent => QuietStep(s, t);
    case UserMessageFailed => QuietStep(s, t);
    case AdapterResolved(stopReason) =>
      if s.adapting > 0 {
        var u := s.(adapting := s.adapting - 1, promptActive := false);
        QuietStep(s, u);
        QuietStep(s, s.(adapting := s.adapting - 1));
        FinishFits(u, Some(stopReason));
      }
    case AdapterRejected =>
      if s.adapting > 0 {
        if s.promptActive { Plain(s, Idle(Refusal)); SeenStep(s, t, Idle(Refusal)); } else { QuietStep(s, t); }
      }
    case TurnStarted(agent) => if IsMainSessionEvent(agent) { Plain(s, Running); SeenStep(s, t, Running); }
    case TurnEnded(_, reason) =>
      QuietStep(s, s.(promptActive := false));
      FinishFits(s.(promptActive := false), reason);
    case CancelContinued =>
      QuietStep(s, s.(promptActive := false));
      FinishFits(s.(promptActive := false), Some("cancelled"));
    case UserUpdate(_) => ChunkKeepsView(s, input);
    case AgentUpdate(_) => ChunkKeepsView(s, input);
    case ThoughtUpdate(_) => ChunkKeepsView(s, input);
    case FinisherFails(i) => QuietStep(s, t);
    case FinisherContinues(i) =>
      if i < |s.finishers| {
        var u := s.(finishers := s.finishers[..i] + s.finishers[i + 1..]);
        QuietStep(s, u);
        FinishFits(u, s.finishers[i].reason);
      }
  }

  lemma ChunkKeepsView(s: State, input: Input)
    requires ClientView(s) && (input.UserUpdate? || input.AgentUpdate? || input.ThoughtUpdate?)
    ensures ClientView(Step(s, input))
  {
    hide ClientView, Fits;
    var t := Step(s, input);
    match input
    case UserUpdate(content) =>
      var n := UserChunk(if s.userId.Some? then s.userId.value else s.nextId, content);
      Plain(s, n);
      SeenStep(s, t, n);
    case AgentUpdate(content) =>
      var n := AgentChunk(if s.agentId.Some? then s.agentId.value else s.nextId, content);
      ChunkIsNext(s, n, Agent);
      SeenStep(s, t, n);
    case ThoughtUpdate(content) =>
      var n := ThoughtChunk(if s.thoughtId.Some? then s.thoughtId.value else s.nextId, content);
      ChunkIsNext(s, n, Thought);
      SeenStep(s, t, n);
  }

  lemma Plain(s: State, n: Note)
    requires !n.AgentChunk? && !n.ThoughtChunk? && !n.AgentMessage? && !n.AgentThought?
    ensures Fits(s.sent, n)
  {
  }

  lemma ChunkIsNext(s: State, n: Note, kind: Kind)
    requires ClientView(s) && IsChunk(n, kind)
    requires var id := if kind.Agent? then s.agentId else s.thoughtId; n.id == if id.Some? then id.value else s.nextId
    ensures Fits(s.sent, n) && n.id <= s.nextId
    ensures (if kind.Agent? then s.agentId else s.thoughtId).Some? ==> n.id < s.nextId
  {
    CurrentIsUsed(s.sent, kind);
  }

  lemma {:induction false} CurrentIsUsed(sent: seq<Note>, kind: Kind)
    ensures Current(sent, kind).Some? ==> Used(sent, Current(sent, kind).value)
  {
    if sent != [] && Current(sent, kind).Some? {
      if IsChunk(Last(sent), kind) {
        assert sent[|sent| - 1] == Last(sent);
      } else {
        CurrentIsUsed(Prefix(sent), kind);
        var id := Current(sent, kind).value;
        var i :| 0 <= i < |Prefix(sent)| && (Prefix(sent)[i].AgentChunk? || Prefix(sent)[i].ThoughtChunk?) && Prefix(sent)[i].id == id;
        assert sent[i] == Prefix(sent)[i];
      }
    }
  }

  lemma {:induction false} ViewHolds(inputs: seq<Input>)
    ensures ClientView(Run(Initial, inputs))
    decreases |inputs|
  {
    if inputs != [] {
      hide ClientView, Step, Run;
      RunLast(Initial, inputs);
      ViewHolds(Prefix(inputs));
      StepKeepsView(Run(Initial, Prefix(inputs)), Last(inputs));
    }
  }

  /**
   In every run, every agent_message carries exactly the defined contents of the agent
   chunks sent since a turn last started, under their id, and is not empty; and every
   agent_thought likewise those of the thought chunks.
   */
  lemma UpsertsCoverTheTurn(inputs: seq<Input>, j: nat)
    requires j < |Run(Initial, inputs).sent|
    ensures var sent := Run(Initial, inputs).sent;
      && (sent[j].AgentMessage? ==>
            sent[j].contents == Since(sent[..j], Agent) != [] && Current(sent[..j], Agent) == Some(sent[j].id))
      && (sent[j].AgentThought? ==>
            sent[j].contents == Since(sent[..j], Thought) != [] && Current(sent[..j], Thought) == Some(sent[j].id))
  {
    hide Run, Since, Current;
    ViewHolds(inputs);
    assert FitsAt(Run(Initial, inputs).sent, j);
  }

  ghost predicate TurnStartsBetween(sent: seq<Note>, i: int, j: int)
    requires 0 <= i <= j <= |sent|
  {
    exists r :: i <= r < j && sent[r].Running?
  }

  /** The latest chunk of the kind, and no turn has started since. */
  lemma {:induction false} WhereCurrent(sent: seq<Note>, kind: Kind) returns (m: nat)
    requires Current(sent, kind).Some?
    ensures m < |sent| && IsChunk(sent[m], kind) && sent[m].id == Current(sent, kind).value
    ensures !TurnStartsBetween(sent, m, |sent|)
    ensures forall k :: m < k < |sent| ==> !IsChunk(sent[k], kind)
  {
    if IsChunk(Last(sent), kind) {
      m := |sent| - 1;
    } else {
      m := WhereCurrent(Prefix(sent), kind);
      assert forall k :: 0 <= k < |sent| - 1 ==> sent[k] == Prefix(sent)[k];
    }
  }

  lemma {:induction false} NoneCurrent(sent: seq<Note>, kind: Kind, i: nat)
    requires i < |sent| && IsChunk(sent[i], kind) && !TurnStartsBetween(sent, i, |sent|)
    ensures Current(sent, kind).Some?
  {
    if !IsChunk(Last(sent), kind) {
      assert sent[|sent| - 1] == Last(sent);
      assert forall k :: 0 <= k < |sent| - 1 ==> sent[k] == Prefix(sent)[k];
      NoneCurrent(Prefix(sent), kind, i);
    }
  }

  /** Two chunks of one kind belong to the same message exactly when no turn started between them. */
  lemma {:induction false} MessagesAreTurns(inputs: seq<Input>, kind: Kind, i: nat, j: nat)
    requires i < j < |Run(Initial, inputs).sent|
    requires var sent := Run(Initial, inputs).sent; IsChunk(sent[i], kind) && IsChunk(sent[j], kind)
    ensures var sent := Run(Initial, inputs).sent;
      sent[i].id == sent[j].id <==> !TurnStartsBetween(sent, i, j)
    decreases j
  {
    hide Run, Since, Current, Used, Upsert, ClientView;
    var sent := Run(Initial, inputs).sent;
    ViewHolds(inputs);
    FitsThere(inputs, kind, j);
    var before := sent[..j];
    assert before[i] == sent[i] && forall k :: 0 <= k < j ==> before[k] == sent[k];
    if Current(before, kind).Some? {
      var m := WhereCurrent(before, kind);
      if i < m {
        MessagesAreTurns(inputs, kind, i, m);
      }
    } else {
      if !TurnStartsBetween(before, i, j) {
        NoneCurrent(before, kind, i);
      }
      IsUsed(before, i);
    }
  }

  lemma FitsThere(inputs: seq<Input>, kind: Kind, j: nat)
    requires j < |Run(Initial, inputs).sent|
    ensures ChunkFits(Run(Initial, inputs).sent[..j], Run(Initial, inputs).sent[j], kind)
  {
    hide Run, ChunkFits;
    ViewHolds(inputs);
    assert FitsAt(Run(Initial, inputs).sent, j);
  }

  lemma IsUsed(sent: seq<Note>, i: nat)
    requires i < |sent| && (sent[i].AgentChunk? || sent[i].ThoughtChunk?)
    ensures Used(sent, sent[i].id)
  {
  }

  // The user's messages.

  predicate OfUser(n: Note) {
    n.UserMessage? || n.UserChunk?
  }

  /** The user message a chunk of the user goes on. */
  function CurrentUser(sent: seq<Note>): Option<Id> {
    if sent == [] then None
    else if OfUser(Last(sent)) then Some(Last(sent).id)
    else CurrentUser(Prefix(sent))
  }

  ghost predicate UserFits(sent: seq<Note>, j: nat)
    requires j < |sent|
  {
    && (sent[j].UserChunk? && CurrentUser(sent[..j]).Some? ==> sent[j].id == CurrentUser(sent[..j]).value)
    && (sent[j].UserMessage? ==> forall i :: 0 <= i < j && OfUser(sent[i]) ==> sent[i].id != sent[j].id)
  }

  ghost predicate UserView(s: State) {
    && s.userId == CurrentUser(s.sent)
    && (forall i :: 0 <= i < |s.sent| && OfUser(s.sent[i]) ==> s.sent[i].id < s.nextId)
    && forall j :: 0 <= j < |s.sent| ==> UserFits(s.sent, j)
  }

  lemma UserNote(s: State, t: State, n: Note)
    requires UserView(s) && t.sent == s.sent + [n] && s.nextId <= t.nextId
    requires OfUser(n) ==> n.id < t.nextId
    requires n.UserChunk? && s.userId.Some? ==> n.id == s.userId.value
    requires n.UserMessage? ==> n.id == s.nextId
    requires t.userId == if OfUser(n) then Some(n.id) else s.userId
    ensures UserView(t)
  {
    assert Prefix(t.sent) == s.sent && t.sent[|s.sent|] == n;
    hide CurrentUser;
    assert CurrentUser(t.sent) == (if OfUser(n) then Some(n.id) else CurrentUser(s.sent)) by { UserNoteIsCurrent(s.sent, n); }
    forall j | 0 <= j < |t.sent| ensures UserFits(t.sent, j) {
      assert t.sent[..j] == s.sent[..j];
      assert j < |s.sent| ==> UserFits(s.sent, j);
      assert j == |s.sent| ==> s.sent[..j] == s.sent;
    }
  }

  lemma UserNoteIsCurrent(sent: seq<Note>, n: Note)
    ensures CurrentUser(sent + [n]) == if OfUser(n) then Some(n.id) else CurrentUser(sent)
  {
    assert Prefix(sent + [n]) == sent;
  }

  lemma StepKeepsUser(s: State, input: Input)
    requires UserView(s)
    ensures UserView(Step(s, input))
  {
    var t := Step(s, input);
    StepSendsOne(s, input);
    if s.userId.Some? {
      var i := CurrentUserIsThere(s.sent);
    }
    hide UserView, Step;
    if t.sent == s.sent {
      UserSilence(s, t);
    } else {
      UserNote(s, t, t.sent[|s.sent|]);
    }
  }

  lemma {:induction false} CurrentUserIsThere(sent: seq<Note>) returns (i: nat)
    requires CurrentUser(sent).Some?
    ensures i < |sent| && OfUser(sent[i]) && sent[i].id == CurrentUser(sent).value
  {
    if OfUser(Last(sent)) {
      i := |sent| - 1;
    } else {
      i := CurrentUserIsThere(Prefix(sent));
    }
  }

  lemma UserSilence(s: State, t: State)
    requires UserView(s) && t.sent == s.sent && t.userId == s.userId && s.nextId <= t.nextId
    ensures UserView(t)
  {
  }

  /** What a step does to the user's message shows in the one notification it may send. */
  ghost predicate UserStep(s: State, t: State) {
    && s.nextId <= t.nextId
    && (t.sent == s.sent || (|t.sent| == |s.sent| + 1 && t.sent == s.sent + [t.sent[|s.sent|]]))
    && (t.sent == s.sent ==> t.userId == s.userId)
    && (t.sent != s.sent ==>
          var n := t.sent[|s.sent|];
          && (OfUser(n) ==> n.id < t.nextId || Some(n.id) == s.userId)
          && (n.UserChunk? && s.userId.Some? ==> n.id == s.userId.value)
          && (n.UserMessage? ==> n.id == s.nextId)
          && t.userId == if OfUser(n) then Some(n.id) else s.userId)
  }

  lemma FinishIsUserStep(s: State, u: State, reason: Option<string>)
    requires u.sent == s.sent && u.userId == s.userId && u.nextId == s.nextId
    ensures UserStep(s, FinishTurn(u, reason)) && UserStep(s, FinishFromThought(u, reason)) && UserStep(s, FinishFromIdle(u, reason))
  {
    hide StopReasonOf;
  }

  lemma StepSendsOne(s: State, input: Input)
    ensures UserStep(s, Step(s, input))
  {
    hide StopReasonOf, Defined, FinishTurn, FinishFromThought, FinishFromIdle;
    match input
    case AdapterResolved(stopReason) =>
      FinishIsUserStep(s, s.(adapting := if s.adapting > 0 then s.adapting - 1 else 0, promptActive := false), Some(stopReason));
    case TurnEnded(_, reason) => FinishIsUserStep(s, s.(promptActive := false), reason);
    case CancelContinued => FinishIsUserStep(s, s.(promptActive := false), Some("cancelled"));
    case FinisherContinues(i) =>
      if i < |s.finishers| {
        FinishIsUserStep(s, s.(finishers := s.finishers[..i] + s.finishers[i + 1..]), s.finishers[i].reason);
      }
    case _ =>
  }

  lemma {:induction false} UserViewHolds(inputs: seq<Input>)
    ensures UserView(Run(Initial, inputs))
    decreases |inputs|
  {
    if inputs != [] {
      hide UserView, Step, Run;
      RunLast(Initial, inputs);
      UserViewHolds(Prefix(inputs));
      StepKeepsUser(Run(Initial, Prefix(inputs)), Last(inputs));
    }
  }

  /** In every run each user_message has an id of its own, and the user's chunks go on the latest message there is. */
  lemma UserChunksFollowTheirPrompt(inputs: seq<Input>, j: nat)
    requires j < |Run(Initial, inputs).sent|
    ensures UserFits(Run(Initial, inputs).sent, j)
  {
    UserViewHolds(inputs);
  }

  // The flag and the notifications, on the inputs alone.

  /** The main agent's events carry no agent id, or "main". */
  predicate OfMain(agent: Option<string>) {
    agent == None || agent.value == "main"
  }

  /** Prompts let in whose user_message is still being sent. */
  function Preparing(inputs: seq<Input>): nat
    decreases |inputs|
  {
    if inputs == [] then 0
    else
      var before := Preparing(Prefix(inputs));
      match Last(inputs)
      case PromptRequest => if Active(Prefix(inputs)) then before else before + 1
      case UserMessageSent => if before > 0 then before - 1 else 0
      case UserMessageFailed => if before > 0 then before - 1 else 0
      case _ => before
  }

  /** Prompts the adapter is working on. */
  function Adapting(inputs: seq<Input>): nat
    decreases |inputs|
  {
    if inputs == [] then 0
    else
      var before := Adapting(Prefix(inputs));
      match Last(inputs)
      case UserMessageSent => if Preparing(Prefix(inputs)) > 0 then before + 1 else before
      case AdapterResolved(_) => if before > 0 then before - 1 else 0
      case AdapterRejected => if before > 0 then before - 1 else 0
      case _ => before
  }

  /** A prompt or a turn of the main agent makes the session active; what ends either makes it idle. */
  function Active(inputs: seq<Input>): bool
    decreases |inputs|
  {
    if inputs == [] then false
    else
      match Last(inputs)
      case PromptRequest => true
      case TurnStarted(agent) => OfMain(agent) || Active(Prefix(inputs))
      case TurnEnded(agent, _) => !OfMain(agent) && Active(Prefix(inputs))
      case CancelContinued => false
      case UserMessageFailed => Preparing(Prefix(inputs)) == 0 && Active(Prefix(inputs))
      case AdapterResolved(_) => Adapting(Prefix(inputs)) == 0 && Active(Prefix(inputs))
      case AdapterRejected => Adapting(Prefix(inputs)) == 0 && Active(Prefix(inputs))
      case _ => Active(Prefix(inputs))
  }

  lemma {:induction false} FlagFollowsInputs(inputs: seq<Input>)
    ensures var t := Run(Initial, inputs);
      t.promptActive == Active(inputs) && t.preparing == Preparing(inputs) && t.adapting == Adapting(inputs)
    decreases |inputs|
  {
    if inputs != [] {
      hide Run, Step;
      RunLast(Initial, inputs);
      FlagFollowsInputs(Prefix(inputs));
      FlagStep(Run(Initial, Prefix(inputs)), Last(inputs));
    }
  }

  lemma FlagStep(s: State, input: Input)
    ensures var t := Step(s, input);
      && t.promptActive == (match input
           case PromptRequest => true
           case TurnStarted(agent) => OfMain(agent) || s.promptActive
           case TurnEnded(agent, _) => !OfMain(agent) && s.promptActive
           case CancelContinued => false
           case UserMessageFailed => s.preparing == 0 && s.promptActive
           case AdapterResolved(_) => s.adapting == 0 && s.promptActive
           case AdapterRejected => s.adapting == 0 && s.promptActive
           case _ => s.promptActive)
      && t.preparing == (match input
           case PromptRequest => if s.promptActive then s.preparing else s.preparing + 1
           case UserMessageSent => if s.preparing > 0 then s.preparing - 1 else 0
           case UserMessageFailed => if s.preparing > 0 then s.preparing - 1 else 0
           case _ => s.preparing)
      && t.adapting == (match input
           case UserMessageSent => if s.preparing > 0 then s.adapting + 1 else s.adapting
           case AdapterResolved(_) => if s.adapting > 0 then s.adapting - 1 else 0
           case AdapterRejected => if s.adapting > 0 then s.adapting - 1 else 0
           case _ => s.adapting)
  {
    hide StopReasonOf, Defined;
  }

  /** What the inputs make go out besides upserts and idle updates. */
  datatype Seen = SawPrompt | SawRunning | SawUser(content: Option<string>) | SawAgent(content: Option<string>) | SawThought(content: Option<string>)

  function Shows(n: Note): seq<Seen> {
    match n
    case UserMessage(_) => [SawPrompt]
    case Running => [SawRunning]
    case UserChunk(_, content) => [SawUser(content)]
    case AgentChunk(_, content) => [SawAgent(content)]
    case ThoughtChunk(_, content) => [SawThought(content)]
    case _ => []
  }

  function AllShown(sent: seq<Note>): seq<Seen> {
    if sent == [] then [] else AllShown(Prefix(sent)) + Shows(Last(sent))
  }

  function Told(inputs: seq<Input>): seq<Seen>
    decreases |inputs|
  {
    if inputs == [] then []
    else
      Told(Prefix(inputs)) +
      match Last(inputs)
      case PromptRequest => if Active(Prefix(inputs)) then [] else [SawPrompt]
      case TurnStarted(agent) => if OfMain(agent) then [SawRunning] else []
      case UserUpdate(content) => [SawUser(content)]
      case AgentUpdate(content) => [SawAgent(content)]
      case ThoughtUpdate(content) => [SawThought(content)]
      case _ => []
  }

  lemma OneMoreShown(sent: seq<Note>, n: Note)
    ensures AllShown(sent + [n]) == AllShown(sent) + Shows(n)
  {
    assert Prefix(sent + [n]) == sent;
  }

  /** Upserts and idle updates are all a finish sends. */
  lemma FinishShowsNothing(s: State, reason: Option<string>)
    ensures AllShown(FinishTurn(s, reason).sent) == AllShown(s.sent)
    ensures AllShown(FinishFromThought(s, reason).sent) == AllShown(s.sent)
    ensures AllShown(FinishFromIdle(s, reason).sent) == AllShown(s.sent)
  {
    hide AllShown, StopReasonOf;
    OneMoreShown(s.sent, Idle(StopReasonOf(reason)));
    if s.agentId.Some? {
      OneMoreShown(s.sent, AgentMessage(s.agentId.value, s.agentContent));
    }
    if s.thoughtId.Some? {
      OneMoreShown(s.sent, AgentThought(s.thoughtId.value, s.thoughtContent));
    }
  }

  lemma ShownByStep(s: State, input: Input)
    ensures AllShown(Step(s, input).sent) == AllShown(s.sent) +
      match input
      case PromptRequest => if s.promptActive then [] else [SawPrompt]
      case TurnStarted(agent) => if OfMain(agent) then [SawRunning] else []
      case UserUpdate(content) => [SawUser(content)]
      case AgentUpdate(content) => [SawAgent(content)]
      case ThoughtUpdate(content) => [SawThought(content)]
      case _ => []
  {
    hide AllShown, FinishTurn, FinishFromThought, FinishFromIdle, StopReasonOf, Defined;
    match input
    case PromptRequest => OneMoreShown(s.sent, UserMessage(s.nextId));
    case TurnStarted(_) => OneMoreShown(s.sent, Running);
    case AdapterResolved(stopReason) =>
      if s.adapting > 0 {
        FinishShowsNothing(s.(adapting := s.adapting - 1, promptActive := false), Some(stopReason));
      }
    case AdapterRejected => OneMoreShown(s.sent, Idle(Refusal));
    case TurnEnded(_, reason) => FinishShowsNothing(s.(promptActive := false), reason);
    case CancelContinued => FinishShowsNothing(s.(promptActive := false), Some("cancelled"));
    case UserUpdate(content) =>
      OneMoreShown(s.sent, UserChunk(if s.userId.Some? then s.userId.value else s.nextId, content));
    case AgentUpdate(content) =>
      OneMoreShown(s.sent, AgentChunk(if s.agentId.Some? then s.agentId.value else s.nextId, content));
    case ThoughtUpdate(content) =>
      OneMoreShown(s.sent, ThoughtChunk(if s.thoughtId.Some? then s.thoughtId.value else s.nextId, content));
    case FinisherContinues(i) =>
      if i < |s.finishers| {
        FinishShowsNothing(s.(finishers := s.finishers[..i] + s.finishers[i + 1..]), s.finishers[i].reason);
      }
    case _ =>
  }

  /**
   Prompts let in, turn starts of the main agent and chunks go out as they come in, one
   for one and in order, each chunk as what it is and with its content.
   */
  lemma {:induction false} NotesFollowInputs(inputs: seq<Input>)
    ensures AllShown(Run(Initial, inputs).sent) == Told(inputs)
    decreases |inputs|
  {
    if inputs != [] {
      hide Run, Step, AllShown, Active;
      RunLast(Initial, inputs);
      NotesFollowInputs(Prefix(inputs));
      FlagFollowsInputs(Prefix(inputs));
      ShownByStep(Run(Initial, Prefix(inputs)), Last(inputs));
    }
  }

  // Idle updates and their reasons.

  /** The reasons a turn or a prompt ends for, and the only stop reasons there are. */
  lemma StopReasonMeans(reason: Option<string>)
    ensures StopReasonOf(reason) == Cancelled <==> reason == Some("cancelled")
    ensures StopReasonOf(reason) == Refusal <==> reason in {Some("blocked"), Some("refusal")}
    ensures StopReasonOf(reason) == MaxTokens <==> reason == Some("max_tokens")
    ensures StopReasonOf(reason) == MaxTurnRequests <==> reason == Some("max_turn_requests")
  {
  }

  /** Idle updates sent with the given reason. */
  function IdlesFor(sent: seq<Note>, stop: StopReason): nat {
    if sent == [] then 0 else IdlesFor(Prefix(sent), stop) + Flag(Last(sent) == Idle(stop))
  }

  /** Those the finishes in flight will send. */
  function Owed(finishers: seq<Finisher>, stop: StopReason): nat {
    if finishers == [] then 0 else Owed(Prefix(finishers), stop) + Flag(StopReasonOf(Last(finishers).reason) == stop)
  }

  /** Those the inputs call for: one, with its reason, whenever the session turns idle but for a failed user_message. */
  function Due(inputs: seq<Input>, stop: StopReason): nat
    decreases |inputs|
  {
    if inputs == [] then 0
    else
      Due(Prefix(inputs), stop)
      + Flag(Active(Prefix(inputs)) && !Active(inputs) && CallsFor(Last(inputs), stop))
  }

  predicate CallsFor(input: Input, stop: StopReason) {
    match input
    case TurnEnded(_, reason) => stop == StopReasonOf(reason)
    case CancelContinued => stop == Cancelled
    case AdapterResolved(stopReason) => stop == StopReasonOf(Some(stopReason))
    case AdapterRejected => stop == Refusal
    case _ => false
  }

  /** Those lost because a notification of their finish failed. */
  function LostFor(inputs: seq<Input>, stop: StopReason): nat
    decreases |inputs|
  {
    if inputs == [] then 0
    else LostFor(Prefix(inputs), stop) + Flag(LosesFor(Run(Initial, Prefix(inputs)), Last(inputs), stop))
  }

  predicate LosesFor(s: State, input: Input, stop: StopReason) {
    LosesFinish(s, input) && StopReasonOf(s.finishers[input.i].reason) == stop
  }

  lemma OneMoreIdle(sent: seq<Note>, n: Note, stop: StopReason)
    ensures IdlesFor(sent + [n], stop) == IdlesFor(sent, stop) + Flag(n == Idle(stop))
  {
    assert Prefix(sent + [n]) == sent;
  }

  lemma OneMoreOwed(finishers: seq<Finisher>, f: Finisher, stop: StopReason)
    ensures Owed(finishers + [f], stop) == Owed(finishers, stop) + Flag(StopReasonOf(f.reason) == stop)
  {
    assert Prefix(finishers + [f]) == finishers;
  }

  lemma {:induction false} OneLessOwed(finishers: seq<Finisher>, i: nat, stop: StopReason)
    requires i < |finishers|
    ensures Owed(finishers, stop) ==
      Owed(finishers[..i] + finishers[i + 1..], stop) + Flag(StopReasonOf(finishers[i].reason) == stop)
    decreases |finishers|
  {
    hide StopReasonOf, Owed;
    var init, last := Prefix(finishers), Last(finishers);
    assert finishers == init + [last];
    OneMoreOwed(init, last, stop);
    if i == |init| {
      assert finishers[..i] + finishers[i + 1..] == init;
    } else {
      var less := init[..i] + init[i + 1..];
      OneLessOwed(init, i, stop);
      assert finishers[..i] + finishers[i + 1..] == less + [last];
      OneMoreOwed(less, last, stop);
    }
  }

  /** Sent or owed with the given reason. */
  function Counted(s: State, stop: StopReason): nat {
    IdlesFor(s.sent, stop) + Owed(s.finishers, stop)
  }

  lemma IdleOwes(s: State, reason: Option<string>, stop: StopReason)
    ensures Counted(FinishFromIdle(s, reason), stop) == Counted(s, stop) + Flag(StopReasonOf(reason) == stop)
  {
    hide IdlesFor, Owed, StopReasonOf;
    OneMoreIdle(s.sent, Idle(StopReasonOf(reason)), stop);
  }

  lemma ThoughtOwes(s: State, reason: Option<string>, stop: StopReason)
    ensures Counted(FinishFromThought(s, reason), stop) == Counted(s, stop) + Flag(StopReasonOf(reason) == stop)
  {
    hide IdlesFor, Owed, StopReasonOf, FinishFromIdle;
    IdleOwes(s, reason, stop);
    OneMoreOwed(s.finishers, SendingThought(reason), stop);
    if s.thoughtId.Some? {
      OneMoreIdle(s.sent, AgentThought(s.thoughtId.value, s.thoughtContent), stop);
    }
  }

  lemma FinishOwes(s: State, reason: Option<string>, stop: StopReason)
    ensures Counted(FinishTurn(s, reason), stop) == Counted(s, stop) + Flag(StopReasonOf(reason) == stop)
    ensures FinishTurn(s, reason).promptActive == s.promptActive
  {
    hide IdlesFor, Owed, StopReasonOf;
    ThoughtOwes(s, reason, stop);
    OneMoreOwed(s.finishers, SendingMessage(reason), stop);
    if s.agentId.Some? {
      OneMoreIdle(s.sent, AgentMessage(s.agentId.value, s.agentContent), stop);
    }
  }

  lemma ChunksOweNothing(s: State, input: Input, stop: StopReason)
    requires input.UserUpdate? || input.AgentUpdate? || input.ThoughtUpdate?
    ensures Counted(Step(s, input), stop) == Counted(s, stop)
  {
    hide IdlesFor, Owed, Defined;
    OneMoreIdle(s.sent, UserChunk(if s.userId.Some? then s.userId.value else s.nextId, input.content), stop);
    OneMoreIdle(s.sent, AgentChunk(if s.agentId.Some? then s.agentId.value else s.nextId, input.content), stop);
    OneMoreIdle(s.sent, ThoughtChunk(if s.thoughtId.Some? then s.thoughtId.value else s.nextId, input.content), stop);
  }

  lemma ContinuingOwes(s: State, i: nat, stop: StopReason)
    requires i < |s.finishers|
    ensures Counted(Step(s, FinisherContinues(i)), stop) == Counted(s, stop)
  {
    hide IdlesFor, Owed, StopReasonOf, FinishFromThought, FinishFromIdle;
    OneLessOwed(s.finishers, i, stop);
    var t := s.(finishers := s.finishers[..i] + s.finishers[i + 1..]);
    ThoughtOwes(t, s.finishers[i].reason, stop);
    IdleOwes(t, s.finishers[i].reason, stop);
  }

  lemma CountedByStep(s: State, input: Input, stop: StopReason)
    ensures var t := Step(s, input);
      Counted(t, stop) + Flag(LosesFor(s, input, stop)) ==
        Counted(s, stop) + Flag(s.promptActive && !t.promptActive && CallsFor(input, stop))
  {
    hide IdlesFor, Owed, FinishTurn, FinishFromThought, FinishFromIdle, StopReasonOf, Defined, IsMainSessionEvent;
    match input
    case PromptRequest => OneMoreIdle(s.sent, UserMessage(s.nextId), stop);
    case TurnStarted(_) => OneMoreIdle(s.sent, Running, stop);
    case AdapterResolved(stopReason) =>
      FinishOwes(s.(adapting := if s.adapting > 0 then s.adapting - 1 else 0, promptActive := false), Some(stopReason), stop);
    case AdapterRejected => OneMoreIdle(s.sent, Idle(Refusal), stop);
    case TurnEnded(_, reason) => FinishOwes(s.(promptActive := false), reason, stop);
    case CancelContinued =>
      FinishOwes(s.(promptActive := false), Some("cancelled"), stop);
      StopReasonMeans(Some("cancelled"));
    case UserUpdate(_) => ChunksOweNothing(s, input, stop);
    case AgentUpdate(_) => ChunksOweNothing(s, input, stop);
    case ThoughtUpdate(_) => ChunksOweNothing(s, input, stop);
    case FinisherFails(i) => if i < |s.finishers| { OneLessOwed(s.finishers, i, stop); }
    case FinisherContinues(i) =>
      if i < |s.finishers| {
        hide Counted;
        ContinuingOwes(s, i, stop);
      }
    case _ =>
  }

  /**
   Over every interleaving, and for each stop reason, the idle updates sent, owed by a
   finish in flight and lost to a failed notification are together those the inputs
   call for.
   */
  lemma {:induction false} IdleReasonsAreConserved(inputs: seq<Input>, stop: StopReason)
    ensures var t := Run(Initial, inputs);
      IdlesFor(t.sent, stop) + Owed(t.finishers, stop) + LostFor(inputs, stop) == Due(inputs, stop)
    decreases |inputs|
  {
    hide Run, Step, IdlesFor, Owed, LosesFor, CallsFor, Active;
    if inputs == [] {
      NothingDue(inputs, stop);
    } else {
      RunLast(Initial, inputs);
      IdleReasonsAreConserved(Prefix(inputs), stop);
      FlagFollowsInputs(Prefix(inputs));
      FlagFollowsInputs(inputs);
      CountedByStep(Run(Initial, Prefix(inputs)), Last(inputs), stop);
    }
  }

  lemma NothingDue(inputs: seq<Input>, stop: StopReason)
    requires inputs == []
    ensures IdlesFor(Run(Initial, inputs).sent, stop) == Owed(Run(Initial, inputs).finishers, stop) == 0
  {
  }

  // A finish from start to end.

  /** The next stretch of a finish in flight: the thought's upsert if it is still to come, else the idle update. */
  lemma FinisherSends(inputs: seq<Input>, i: nat)
    requires i < |Run(Initial, inputs).finishers|
    ensures var t := Run(Initial, inputs);
      var f := t.finishers[i];
      var ups := (if f.SendingMessage? then Upsert(t.sent, Thought) else []) + [Idle(StopReasonOf(f.reason))];
      Step(t, FinisherContinues(i)).sent == t.sent + ups[..1]
  {
    hide Run, Since, Current, ClientView, StopReasonOf, FinishFromThought, Upsert;
    var t := Run(Initial, inputs);
    var u := t.(finishers := t.finishers[..i] + t.finishers[i + 1..]);
    ViewHolds(inputs);
    QuietStep(t, u);
    FinishSends(u, t.finishers[i].reason);
  }

  /** The finish last begun goes on, undisturbed, for that many stretches. */
  function GoesOn(s: State, stretches: nat): seq<Input> {
    seq(stretches, _ => FinisherContinues(|s.finishers|))
  }

  lemma OneStretch(s: State, stretches: nat, f: Finisher)
    requires stretches > 0
    ensures Run(s.(finishers := s.finishers + [f]), GoesOn(s, stretches)) ==
      Run(match f
          case SendingMessage(reason) => FinishFromThought(s, reason)
          case SendingThought(reason) => FinishFromIdle(s, reason),
          GoesOn(s, stretches - 1))
  {
    hide FinishFromThought, FinishFromIdle;
    var t := s.(finishers := s.finishers + [f]);
    assert GoesOn(s, stretches)[1..] == GoesOn(s, stretches - 1);
    assert t.finishers[..|s.finishers|] + t.finishers[|s.finishers| + 1..] == s.finishers;
    assert t.(finishers := s.finishers) == s;
  }

  lemma ThoughtGoesThrough(s: State, reason: Option<string>)
    requires ClientView(s)
    ensures var ups := Upsert(s.sent, Thought);
      Run(FinishFromThought(s, reason), GoesOn(s, |ups|)).sent == s.sent + ups + [Idle(StopReasonOf(reason))]
  {
    hide ClientView, Step, StopReasonOf, Upsert, Run;
    WhatIsHeld(s);
    if s.thoughtId.Some? && s.thoughtContent != [] {
      var u := Notify(s, AgentThought(s.thoughtId.value, s.thoughtContent));
      OneStretch(u, 1, SendingThought(reason));
      RunNothing(FinishFromIdle(u, reason), GoesOn(u, 0));
    } else {
      RunNothing(FinishFromThought(s, reason), GoesOn(s, 0));
    }
  }

  lemma RunNothing(s: State, inputs: seq<Input>)
    requires inputs == []
    ensures Run(s, inputs) == s
  {
  }

  lemma WholeFinish(s: State, reason: Option<string>)
    requires ClientView(s)
    ensures var ups := Upsert(s.sent, Agent) + Upsert(s.sent, Thought);
      Run(FinishTurn(s, reason), GoesOn(s, |ups|)).sent == s.sent + ups + [Idle(StopReasonOf(reason))]
  {
    hide ClientView, Step, StopReasonOf, Upsert, Run, FinishFromThought;
    WhatIsHeld(s);
    ThoughtGoesThrough(s, reason);
    if s.agentId.Some? && s.agentContent != [] {
      var n := AgentMessage(s.agentId.value, s.agentContent);
      var u := Notify(s, n);
      FinishFitsOnce(s, n);
      OneStretch(u, |Upsert(s.sent, Agent) + Upsert(s.sent, Thought)|, SendingMessage(reason));
      ThoughtGoesThrough(u, reason);
    }
  }

  lemma FinishFitsOnce(s: State, n: Note)
    requires ClientView(s) && [n] == Upsert(s.sent, Agent)
    ensures ClientView(Notify(s, n)) && Upsert(Notify(s, n).sent, Thought) == Upsert(s.sent, Thought)
  {
    hide Since, Current;
    WhatIsHeld(s);
    OneMoreNote(s.sent, n, Thought);
    assert n.AgentMessage? && Since(s.sent + [n], Thought) == Since(s.sent, Thought);
    hide ClientView;
    SeenStep(s, Notify(s, n), n);
  }

  /**
   When a turn ends and nothing comes between, its finish sends the agent's message, then
   its thoughts, as far as there have been any, then the idle update with its reason.
   */
  lemma TurnEndGoesThrough(inputs: seq<Input>, agent: Option<string>, reason: Option<string>)
    requires Active(inputs) && OfMain(agent)
    ensures var t := Run(Initial, inputs);
      var ups := Upsert(t.sent, Agent) + Upsert(t.sent, Thought);
      Run(Step(t, TurnEnded(agent, reason)), GoesOn(t, |ups|)).sent == t.sent + ups + [Idle(StopReasonOf(reason))]
  {
    hide ClientView, StopReasonOf, Upsert, Run, FinishTurn;
    var t := Run(Initial, inputs);
    FlagFollowsInputs(inputs);
    ViewHolds(inputs);
    var u := t.(promptActive := false);
    QuietStep(t, u);
    WholeFinish(u, reason);
  }
}
