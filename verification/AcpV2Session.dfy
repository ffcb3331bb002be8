/**
 The ACP v2 session state: message ids, message contents and the prompt flag, as
 the handlers change them between two awaits. finishTurn awaits after every
 notification, so any number of finishes can be in flight at once, each at its
 own point; the other handlers interleave with them freely.
 */
module AcpV2Session {
  import opened Wrappers

  /** A message id: randomUUID never repeats itself, which a counter stands for. */
  type Id = nat

  datatype StopReason = EndTurn | Cancelled | Refusal | MaxTokens | MaxTurnRequests

  datatype Note =
    | UserMessage(id: Id)
    | UserChunk(id: Id, content: Option<string>)
    | AgentChunk(id: Id, content: Option<string>)
    | ThoughtChunk(id: Id, content: Option<string>)
    | AgentMessage(id: Id, contents: seq<string>)
    | AgentThought(id: Id, contents: seq<string>)
    | Running
    | Idle(stop: StopReason)

  // What is handed to the client counts as sent, whether or not it gets there.

  /** A finishTurn waiting for its agent_message, or for its agent_thought, to be sent. */
  datatype Finisher = SendingMessage(reason: Option<string>) | SendingThought(reason: Option<string>)

  datatype State = State(
    promptActive: bool,
    userId: Option<Id>,
    agentId: Option<Id>,
    thoughtId: Option<Id>,
    agentContent: seq<string>,
    thoughtContent: seq<string>,
    nextId: Id,
    preparing: nat,
    adapting: nat,
    finishers: seq<Finisher>,
    sent: seq<Note>)

  const Initial := State(false, None, None, None, [], [], 0, 0, 0, [], [])

  datatype Input =
    | PromptRequest
    | UserMessageSent
    | UserMessageFailed
    | AdapterResolved(stopReason: string)
    | AdapterRejected
    | TurnStarted(agent: Option<string>)
    | TurnEnded(agent: Option<string>, reason: Option<string>)
    | CancelContinued
    | UserUpdate(content: Option<string>)
    | AgentUpdate(content: Option<string>)
    | ThoughtUpdate(content: Option<string>)
    | FinisherContinues(i: nat)
    | FinisherFails(i: nat)

  predicate IsMainSessionEvent(agent: Option<string>) {
    agent == None || agent == Some("main")
  }

  function StopReasonOf(reason: Option<string>): StopReason {
    match reason
    case None => EndTurn
    case Some(r) =>
      if r == "cancelled" then Cancelled
      else if r == "blocked" || r == "refusal" then Refusal
      else if r == "max_tokens" then MaxTokens
      else if r == "max_turn_requests" then MaxTurnRequests
      else EndTurn
  }

  function Notify(s: State, n: Note): State {
    s.(sent := s.sent + [n])
  }

  // finishTurn, from its start and from after each of its awaits.

  function FinishTurn(s: State, reason: Option<string>): State {
    if s.agentId.Some? && s.agentContent != [] then
      Notify(s.(finishers := s.finishers + [SendingMessage(reason)]), AgentMessage(s.agentId.value, s.agentContent))
    else FinishFromThought(s, reason)
  }

  function FinishFromThought(s: State, reason: Option<string>): State {
    if s.thoughtId.Some? && s.thoughtContent != [] then
      Notify(s.(finishers := s.finishers + [SendingThought(reason)]), AgentThought(s.thoughtId.value, s.thoughtContent))
    else FinishFromIdle(s, reason)
  }

  function FinishFromIdle(s: State, reason: Option<string>): State {
    Notify(s, Idle(StopReasonOf(reason)))
  }

  function Step(s: State, input: Input): State {
    match input
    case PromptRequest =>
      if s.promptActive then s
      else Notify(s.(promptActive := true, userId := Some(s.nextId), nextId := s.nextId + 1, preparing := s.preparing + 1),
                  UserMessage(s.nextId))
    case UserMessageSent =>
      if s.preparing == 0 then s else s.(preparing := s.preparing - 1, adapting := s.adapting + 1)
    case UserMessageFailed =>
      if s.preparing == 0 then s else s.(preparing := s.preparing - 1, promptActive := false)
    case AdapterResolved(stopReason) =>
      if s.adapting == 0 then s
      else if !s.promptActive then s.(adapting := s.adapting - 1)
      else FinishTurn(s.(adapting := s.adapting - 1, promptActive := false), Some(stopReason))
    case AdapterRejected =>
      if s.adapting == 0 then s
      else if !s.promptActive then s.(adapting := s.adapting - 1)
      else Notify(s.(adapting := s.adapting - 1, promptActive := false), Idle(Refusal))
    case TurnStarted(agent) =>
      if !IsMainSessionEvent(agent) then s
      else Notify(s.(promptActive := true, agentId := None, thoughtId := None, agentContent := [], thoughtContent := []),
                  Running)
    case TurnEnded(agent, reason) =>
      if IsMainSessionEvent(agent) && s.promptActive then FinishTurn(s.(promptActive := false), reason) else s
    case CancelContinued =>
      if s.promptActive then FinishTurn(s.(promptActive := false), Some("cancelled")) else s
    case UserUpdate(content) =>
      var t := if s.userId.Some? then s else s.(userId := Some(s.nextId), nextId := s.nextId + 1);
      Notify(t, UserChunk(t.userId.value, content))
    case AgentUpdate(content) =>
      var t := if s.agentId.Some? then s else s.(agentId := Some(s.nextId), nextId := s.nextId + 1);
      Notify(t.(agentContent := t.agentContent + Defined(content)), AgentChunk(t.agentId.value, content))
    case ThoughtUpdate(content) =>
      var t := if s.thoughtId.Some? then s else s.(thoughtId := Some(s.nextId), nextId := s.nextId + 1);
      Notify(t.(thoughtContent := t.thoughtContent + Defined(content)), ThoughtChunk(t.thoughtId.value, content))
    case FinisherFails(i) =>
      if i >= |s.finishers| then s else s.(finishers := s.finishers[..i] + s.finishers[i + 1..])
    case FinisherContinues(i) =>
      if i >= |s.finishers| then s
      else
        var t := s.(finishers := s.finishers[..i] + s.finishers[i + 1..]);
        match s.finishers[i]
        case SendingMessage(reason) => FinishFromThought(t, reason)
        case SendingThought(reason) => FinishFromIdle(t, reason)
  }

  function Defined(content: Option<string>): seq<string> {
    match content case None => [] case Some(c) => [c]
  }

  /** The session object; each method is one stretch of a handler between two awaits. */
  class V2Session {
    var promptActive: bool
    var userId: Option<Id>
    var agentId: Option<Id>
    var thoughtId: Option<Id>
    var agentContent: seq<string>
    var thoughtContent: seq<string>
    var nextId: Id
    var preparing: nat
    var adapting: nat
    var finishers: seq<Finisher>
    var sent: seq<Note>

    function Abs(): State
      reads this
    {
      State(promptActive, userId, agentId, thoughtId, agentContent, thoughtContent,
            nextId, preparing, adapting, finishers, sent)
    }

    constructor ()
      ensures Abs() == Initial
    {
      promptActive, userId, agentId, thoughtId := false, None, None, None;
      agentContent, thoughtContent, nextId := [], [], 0;
      preparing, adapting, finishers, sent := 0, 0, [], [];
    }

    method Send(n: Note)
      modifies this`sent
      ensures sent == old(sent) + [n]
    {
      sent := sent + [n];
    }

    method RandomId() returns (id: Id)
      modifies this`nextId
      ensures id == old(nextId) && nextId == id + 1
    {
      id := nextId;
      nextId := nextId + 1;
    }

    method Finish(reason: Option<string>)
      modifies this
      ensures Abs() == FinishTurn(old(Abs()), reason)
    {
      if agentId.Some? && agentContent != [] {
        Send(AgentMessage(agentId.value, agentContent));
        finishers := finishers + [SendingMessage(reason)];
        return;
      }
      FinishThought(reason);
    }

    method FinishThought(reason: Option<string>)
      modifies this
      ensures Abs() == FinishFromThought(old(Abs()), reason)
    {
      if thoughtId.Some? && thoughtContent != [] {
        Send(AgentThought(thoughtId.value, thoughtContent));
        finishers := finishers + [SendingThought(reason)];
        return;
      }
      Send(Idle(StopReasonOf(reason)));
    }

    method ContinueFinisher(i: nat)
      requires i < |finishers|
      modifies this
      ensures Abs() == Step(old(Abs()), FinisherContinues(i))
    {
      var f := finishers[i];
      finishers := finishers[..i] + finishers[i + 1..];
      match f
      case SendingMessage(reason) => FinishThought(reason);
      case SendingThought(reason) => Send(Idle(StopReasonOf(reason)));
    }

    /** The notification could not be sent: the error is swallowed, and with it the rest of finishTurn. */
    method FailFinisher(i: nat)
      requires i < |finishers|
      modifies this
      ensures Abs() == Step(old(Abs()), FinisherFails(i))
    {
      finishers := finishers[..i] + finishers[i + 1..];
    }

    method OnTurnStarted(agent: Option<string>)
      modifies this
      ensures Abs() == Step(old(Abs()), TurnStarted(agent))
    {
      if !IsMainSessionEvent(agent) {
        return;
      }
      promptActive := true;
      agentId, thoughtId := None, None;
      agentContent, thoughtContent := [], [];
      Send(Running);
    }

    method OnTurnEnded(agent: Option<string>, reason: Option<string>)
      modifies this
      ensures Abs() == Step(old(Abs()), TurnEnded(agent, reason))
    {
      if IsMainSessionEvent(agent) && promptActive {
        promptActive := false;
        Finish(reason);
      }
    }

    /** The prompt request up to the user_message; true stands for the thrown 'already processing'. */
    method Prompt() returns (busy: bool)
      modifies this
      ensures Abs() == Step(old(Abs()), PromptRequest) && busy == old(promptActive)
    {
      if promptActive {
        return true;
      }
      promptActive := true;
      var id := RandomId();
      userId := Some(id);
      Send(UserMessage(id));
      preparing := preparing + 1;
      return false;
    }

    method OnUserMessageSettled(ok: bool)
      requires preparing > 0
      modifies this
      ensures Abs() == Step(old(Abs()), if ok then UserMessageSent else UserMessageFailed)
    {
      preparing := preparing - 1;
      if ok {
        adapting := adapting + 1;
      } else {
        promptActive := false;
      }
    }

    method OnAdapterResolved(stopReason: string)
      requires adapting > 0
      modifies this
      ensures Abs() == Step(old(Abs()), AdapterResolved(stopReason))
    {
      adapting := adapting - 1;
      if !promptActive {
        return;
      }
      promptActive := false;
      Finish(Some(stopReason));
    }

    method OnAdapterRejected()
      requires adapting > 0
      modifies this
      ensures Abs() == Step(old(Abs()), AdapterRejected)
    {
      adapting := adapting - 1;
      if !promptActive {
        return;
      }
      promptActive := false;
      Send(Idle(Refusal));
    }

    method OnCancelContinued()
      modifies this
      ensures Abs() == Step(old(Abs()), CancelContinued)
    {
      if promptActive {
        promptActive := false;
        Finish(Some("cancelled"));
      }
    }

    /** The message branches of legacyUpdateToV2, and the notification that follows at once. */
    method LegacyMessageUpdate(update: Input)
      requires update.UserUpdate? || update.AgentUpdate? || update.ThoughtUpdate?
      modifies this
      ensures Abs() == Step(old(Abs()), update)
    {
      match update
      case UserUpdate(content) => UserMessageChunk(content);
      case AgentUpdate(content) => AgentMessageChunk(content);
      case ThoughtUpdate(content) => AgentThoughtChunk(content);
    }

    method UserMessageChunk(content: Option<string>)
      modifies this
      ensures Abs() == Step(old(Abs()), UserUpdate(content))
    {
      if userId == None {
        var id := RandomId();
        userId := Some(id);
      }
      Send(UserChunk(userId.value, content));
    }

    method AgentMessageChunk(content: Option<string>)
      modifies this
      ensures Abs() == Step(old(Abs()), AgentUpdate(content))
    {
      if agentId == None {
        var id := RandomId();
        agentId := Some(id);
      }
      if content != None {
        agentContent := agentContent + [content.value];
      }
      Send(AgentChunk(agentId.value, content));
    }

    method AgentThoughtChunk(content: Option<string>)
      modifies this
      ensures Abs() == Step(old(Abs()), ThoughtUpdate(content))
    {
      if thoughtId == None {
        var id := RandomId();
        thoughtId := Some(id);
      }
      if content != None {
        thoughtContent := thoughtContent + [content.value];
      }
      Send(ThoughtChunk(thoughtId.value, content));
    }
  }

  /** A run from s. */
  function Run(s: State, inputs: seq<Input>): State
    decreases |inputs|
  {
    if inputs == [] then s else Run(Step(s, inputs[0]), inputs[1..])
  }

  // Upserts are folds of their chunks.

  datatype Kind = Agent | Thought

  /** The defined contents of the chunks sent under the id, in order. */
  ghost function ChunksOf(sent: seq<Note>, kind: Kind, id: Id): seq<string> {
    if sent == [] then []
    else ChunksOf(sent[..|sent| - 1], kind, id) + ChunkContent(sent[|sent| - 1], kind, id)
  }

  ghost function ChunkContent(n: Note, kind: Kind, id: Id): seq<string> {
    match (n, kind)
    case (AgentChunk(i, content), Agent) => if i == id then Defined(content) else []
    case (ThoughtChunk(i, content), Thought) => if i == id then Defined(content) else []
    case _ => []
  }

  ghost predicate FoldsChunks(sent: seq<Note>, j: nat)
    requires j < |sent|
  {
    && (sent[j].AgentMessage? ==> sent[j].contents == ChunksOf(sent[..j], Agent, sent[j].id))
    && (sent[j].AgentThought? ==> sent[j].contents == ChunksOf(sent[..j], Thought, sent[j].id))
  }

  ghost predicate IdsBelow(sent: seq<Note>, bound: Id) {
    forall j :: 0 <= j < |sent| ==>
      match sent[j]
      case AgentChunk(id, _) => id < bound
      case ThoughtChunk(id, _) => id < bound
      case _ => true
  }

  /** What is stored is the list of chunks under the current id, and every upsert so far was one. */
  ghost predicate ContentInvariant(s: State) {
    && IdsBelow(s.sent, s.nextId)
    && (s.agentId.Some? ==> s.agentId.value < s.nextId)
    && (s.thoughtId.Some? ==> s.thoughtId.value < s.nextId)
    && s.agentContent == (if s.agentId.Some? then ChunksOf(s.sent, Agent, s.agentId.value) else [])
    && s.thoughtContent == (if s.thoughtId.Some? then ChunksOf(s.sent, Thought, s.thoughtId.value) else [])
    && forall j :: 0 <= j < |s.sent| ==> FoldsChunks(s.sent, j)
  }

  lemma {:induction false} UnusedId(sent: seq<Note>, kind: Kind, id: Id)
    requires IdsBelow(sent, id)
    ensures ChunksOf(sent, kind, id) == []
  {
    if sent != [] {
      var init := sent[..|sent| - 1];
      assert forall j :: 0 <= j < |init| ==> init[j] == sent[j];
      UnusedId(init, kind, id);
      assert sent[|sent| - 1] == sent[|init|];
    }
  }

  lemma ChunksSnoc(sent: seq<Note>, n: Note, kind: Kind, id: Id)
    ensures ChunksOf(sent + [n], kind, id) == ChunksOf(sent, kind, id) + ChunkContent(n, kind, id)
  {
    assert (sent + [n])[..|sent|] == sent;
  }

  lemma FoldsSnoc(sent: seq<Note>, n: Note)
    requires forall j :: 0 <= j < |sent| ==> FoldsChunks(sent, j)
    requires n.AgentMessage? ==> n.contents == ChunksOf(sent, Agent, n.id)
    requires n.AgentThought? ==> n.contents == ChunksOf(sent, Thought, n.id)
    ensures forall j :: 0 <= j < |sent + [n]| ==> FoldsChunks(sent + [n], j)
  {
    hide ChunksOf;
    var more := sent + [n];
    forall j | 0 <= j < |more| ensures FoldsChunks(more, j) {
      if j < |sent| {
        assert FoldsChunks(sent, j) && more[..j] == sent[..j];
      } else {
        assert more[..j] == sent;
      }
    }
  }

  /** A notification that is no chunk keeps the invariant, if an upsert carries the current contents. */
  lemma NotifyKeeps(s: State, n: Note)
    requires ContentInvariant(s) && !n.AgentChunk? && !n.ThoughtChunk?
    requires n.AgentMessage? ==> s.agentId == Some(n.id) && n.contents == s.agentContent
    requires n.AgentThought? ==> s.thoughtId == Some(n.id) && n.contents == s.thoughtContent
    ensures ContentInvariant(Notify(s, n))
  {
    hide ChunksOf, FoldsChunks;
    FoldsSnoc(s.sent, n);
    if s.agentId.Some? {
      ChunksSnoc(s.sent, n, Agent, s.agentId.value);
    }
    if s.thoughtId.Some? {
      ChunksSnoc(s.sent, n, Thought, s.thoughtId.value);
    }
  }

  /** A chunk is stored and sent in one go. */
  lemma AgentChunkKeeps(s: State, content: Option<string>)
    requires ContentInvariant(s) && s.agentId.Some?
    ensures ContentInvariant(
      Notify(s.(agentContent := s.agentContent + Defined(content)), AgentChunk(s.agentId.value, content)))
  {
    hide ChunksOf, FoldsChunks;
    var n := AgentChunk(s.agentId.value, content);
    FoldsSnoc(s.sent, n);
    ChunksSnoc(s.sent, n, Agent, s.agentId.value);
    if s.thoughtId.Some? {
      ChunksSnoc(s.sent, n, Thought, s.thoughtId.value);
    }
  }

  lemma ThoughtChunkKeeps(s: State, content: Option<string>)
    requires ContentInvariant(s) && s.thoughtId.Some?
    ensures ContentInvariant(
      Notify(s.(thoughtContent := s.thoughtContent + Defined(content)), ThoughtChunk(s.thoughtId.value, content)))
  {
    hide ChunksOf, FoldsChunks;
    var n := ThoughtChunk(s.thoughtId.value, content);
    FoldsSnoc(s.sent, n);
    ChunksSnoc(s.sent, n, Thought, s.thoughtId.value);
    if s.agentId.Some? {
      ChunksSnoc(s.sent, n, Agent, s.agentId.value);
    }
  }

  lemma FinishKeeps(s: State, reason: Option<string>)
    requires ContentInvariant(s)
    ensures ContentInvariant(FinishTurn(s, reason))
    ensures ContentInvariant(FinishFromThought(s, reason))
    ensures ContentInvariant(FinishFromIdle(s, reason))
  {
    hide ContentInvariant, ChunksOf;
    var t := s.(finishers := s.finishers + [SendingMessage(reason)]);
    var u := s.(finishers := s.finishers + [SendingThought(reason)]);
    NotContent(s, t);
    NotContent(s, u);
    if s.agentId.Some? && s.agentContent != [] {
      NotifyKeeps(t, AgentMessage(s.agentId.value, s.agentContent));
    }
    if s.thoughtId.Some? && s.thoughtContent != [] {
      NotifyKeeps(u, AgentThought(s.thoughtId.value, s.thoughtContent));
    }
    NotifyKeeps(s, Idle(StopReasonOf(reason)));
  }

  /** The invariant does not look at flags, counters and finishers. */
  lemma NotContent(s: State, t: State)
    requires ContentInvariant(s)
    requires s.sent == t.sent && s.nextId <= t.nextId
    requires s.agentId == t.agentId && s.agentContent == t.agentContent
    requires s.thoughtId == t.thoughtId && s.thoughtContent == t.thoughtContent
    ensures ContentInvariant(t)
  {
  }

  /** A fresh id has no chunks under it yet. */
  lemma FreshId(s: State)
    requires ContentInvariant(s)
    ensures s.agentId == None ==> ContentInvariant(s.(agentId := Some(s.nextId), nextId := s.nextId + 1))
    ensures s.thoughtId == None ==> ContentInvariant(s.(thoughtId := Some(s.nextId), nextId := s.nextId + 1))
  {
    UnusedId(s.sent, Agent, s.nextId);
    UnusedId(s.sent, Thought, s.nextId);
  }

  lemma Cleared(s: State, t: State)
    requires ContentInvariant(s)
    requires s.sent == t.sent && s.nextId <= t.nextId
    requires t.agentId == None && t.agentContent == [] && t.thoughtId == None && t.thoughtContent == []
    ensures ContentInvariant(t)
  {
  }

  lemma StepKeepsContent(s: State, input: Input)
    requires ContentInvariant(s)
    ensures ContentInvariant(Step(s, input))
  {
    hide ContentInvariant, ChunksOf, FinishTurn, FinishFromThought, FinishFromIdle;
    match input
    case PromptRequest =>
      if !s.promptActive {
        var t := s.(promptActive := true, userId := Some(s.nextId), nextId := s.nextId + 1, preparing := s.preparing + 1);
        NotContent(s, t);
        NotifyKeeps(t, UserMessage(s.nextId));
      }
    case AdapterResolved(stopReason) =>
      if s.adapting > 0 {
        var t := s.(adapting := s.adapting - 1, promptActive := false);
        NotContent(s, t);
        NotContent(s, s.(adapting := s.adapting - 1));
        FinishKeeps(t, Some(stopReason));
      }
    case AdapterRejected =>
      if s.adapting > 0 {
        var t := s.(adapting := s.adapting - 1, promptActive := false);
        NotContent(s, t);
        NotContent(s, s.(adapting := s.adapting - 1));
        NotifyKeeps(t, Idle(Refusal));
      }
    case TurnStarted(_) =>
      var t := s.(promptActive := true, agentId := None, thoughtId := None, agentContent := [], thoughtContent := []);
      Cleared(s, t);
      NotifyKeeps(t, Running);
    case TurnEnded(_, reason) =>
      NotContent(s, s.(promptActive := false));
      FinishKeeps(s.(promptActive := false), reason);
    case CancelContinued =>
      NotContent(s, s.(promptActive := false));
      FinishKeeps(s.(promptActive := false), Some("cancelled"));
    case UserUpdate(content) =>
      var t := if s.userId.Some? then s else s.(userId := Some(s.nextId), nextId := s.nextId + 1);
      NotContent(s, t);
      NotifyKeeps(t, UserChunk(t.userId.value, content));
    case AgentUpdate(content) =>
      FreshId(s);
      var t := if s.agentId.Some? then s else s.(agentId := Some(s.nextId), nextId := s.nextId + 1);
      AgentChunkKeeps(t, content);
    case ThoughtUpdate(content) =>
      FreshId(s);
      var t := if s.thoughtId.Some? then s else s.(thoughtId := Some(s.nextId), nextId := s.nextId + 1);
      ThoughtChunkKeeps(t, content);
    case FinisherContinues(i) =>
      if i < |s.finishers| {
        var t := s.(finishers := s.finishers[..i] + s.finishers[i + 1..]);
        NotContent(s, t);
        FinishKeeps(t, s.finishers[i].reason);
      }
    case FinisherFails(i) =>
      NotContent(s, Step(s, input));
    case UserMessageSent =>
      NotContent(s, Step(s, input));
    case UserMessageFailed =>
      NotContent(s, Step(s, input));
  }

  lemma {:induction false} ContentHolds(s: State, inputs: seq<Input>)
    requires ContentInvariant(s)
    ensures ContentInvariant(Run(s, inputs))
    decreases |inputs|
  {
    if inputs != [] {
      StepKeepsContent(s, inputs[0]);
      ContentHolds(Step(s, inputs[0]), inputs[1..]);
    }
  }

  /** In every run, every upsert replaces exactly the chunks sent under its id before it. */
  lemma UpsertsFoldTheirChunks(inputs: seq<Input>, j: nat)
    requires j < |Run(Initial, inputs).sent|
    ensures FoldsChunks(Run(Initial, inputs).sent, j)
  {
    ContentHolds(Initial, inputs);
  }

  // Idle updates against activations.

  function Rises(s: State, inputs: seq<Input>): nat
    decreases |inputs|
  {
    if inputs == [] then 0
    else (if !s.promptActive && Step(s, inputs[0]).promptActive then 1 else 0) + Rises(Step(s, inputs[0]), inputs[1..])
  }

  function Falls(s: State, inputs: seq<Input>): nat
    decreases |inputs|
  {
    if inputs == [] then 0
    else (if s.promptActive && !Step(s, inputs[0]).promptActive then 1 else 0) + Falls(Step(s, inputs[0]), inputs[1..])
  }

  /** Falls because the user_message of a prompt could not be sent. */
  function FailedFalls(s: State, inputs: seq<Input>): nat
    decreases |inputs|
  {
    if inputs == [] then 0
    else
      (if inputs[0].UserMessageFailed? && s.promptActive && !Step(s, inputs[0]).promptActive then 1 else 0)
      + FailedFalls(Step(s, inputs[0]), inputs[1..])
  }

  predicate LosesFinish(s: State, input: Input) {
    input.FinisherFails? && input.i < |s.finishers|
  }

  /** Finishes cut off by a notification that failed. */
  function Lost(s: State, inputs: seq<Input>): nat
    decreases |inputs|
  {
    if inputs == [] then 0 else Flag(LosesFinish(s, inputs[0])) + Lost(Step(s, inputs[0]), inputs[1..])
  }

  function Idles(sent: seq<Note>): nat {
    if sent == [] then 0 else Idles(sent[..|sent| - 1]) + if sent[|sent| - 1].Idle? then 1 else 0
  }

  function Flag(b: bool): nat {
    if b then 1 else 0
  }

  lemma IdlesSnoc(s: State, n: Note)
    ensures Idles(Notify(s, n).sent) == Idles(s.sent) + Flag(n.Idle?)
  {
    assert (s.sent + [n])[..|s.sent|] == s.sent;
  }

  /** A finish has sent its idle update or is still in flight. */
  lemma FinishCounts(s: State, reason: Option<string>)
    ensures forall t :: t in [FinishTurn(s, reason), FinishFromThought(s, reason), FinishFromIdle(s, reason)] ==>
      && Idles(t.sent) + |t.finishers| == Idles(s.sent) + |s.finishers| + 1
      && t.promptActive == s.promptActive
  {
    hide Idles, StopReasonOf;
    IdlesSnoc(s, Idle(StopReasonOf(reason)));
    if s.agentId.Some? {
      IdlesSnoc(s, AgentMessage(s.agentId.value, s.agentContent));
    }
    if s.thoughtId.Some? {
      IdlesSnoc(s, AgentThought(s.thoughtId.value, s.thoughtContent));
    }
  }

  /** A message chunk is no idle update and leaves the flag and the finishes alone. */
  lemma UpdateConserves(s: State, input: Input)
    requires input.UserUpdate? || input.AgentUpdate? || input.ThoughtUpdate?
    ensures var t := Step(s, input);
      Idles(t.sent) == Idles(s.sent) && t.finishers == s.finishers && t.promptActive == s.promptActive
  {
    hide Idles;
    IdlesSnoc(s, UserChunk(if s.userId.Some? then s.userId.value else s.nextId, input.content));
    IdlesSnoc(s, AgentChunk(if s.agentId.Some? then s.agentId.value else s.nextId, input.content));
    IdlesSnoc(s, ThoughtChunk(if s.thoughtId.Some? then s.thoughtId.value else s.nextId, input.content));
  }

  /** Exactly the falls not due to a failed user_message owe an idle update, and only a failed finish forgets it. */
  lemma StepConserves(s: State, input: Input)
    ensures var t := Step(s, input);
      var fall := s.promptActive && !t.promptActive;
      Idles(t.sent) + |t.finishers| + Flag(LosesFinish(s, input)) ==
        Idles(s.sent) + |s.finishers| + Flag(fall && !input.UserMessageFailed?)
  {
    hide FinishTurn, FinishFromThought, FinishFromIdle, Idles, Defined, StopReasonOf, IsMainSessionEvent;
    match input
    case PromptRequest => IdlesSnoc(s, UserMessage(s.nextId));
    case AdapterResolved(stopReason) =>
      if s.adapting > 0 {
        FinishCounts(s.(adapting := s.adapting - 1, promptActive := false), Some(stopReason));
      }
    case AdapterRejected => IdlesSnoc(s, Idle(Refusal));
    case TurnStarted(_) => IdlesSnoc(s, Running);
    case TurnEnded(_, reason) => FinishCounts(s.(promptActive := false), reason);
    case CancelContinued => FinishCounts(s.(promptActive := false), Some("cancelled"));
    case UserUpdate(_) => UpdateConserves(s, input);
    case AgentUpdate(_) => UpdateConserves(s, input);
    case ThoughtUpdate(_) => UpdateConserves(s, input);
    case FinisherContinues(i) =>
      if i < |s.finishers| {
        FinishCounts(s.(finishers := s.finishers[..i] + s.finishers[i + 1..]), s.finishers[i].reason);
      }
    case _ =>
  }

  lemma {:induction false} RunConserves(s: State, inputs: seq<Input>)
    ensures var t := Run(s, inputs);
      && Flag(s.promptActive) + Rises(s, inputs) == Falls(s, inputs) + Flag(t.promptActive)
      && Idles(t.sent) + |t.finishers| + Lost(s, inputs) + FailedFalls(s, inputs) ==
           Idles(s.sent) + |s.finishers| + Falls(s, inputs)
    decreases |inputs|
  {
    hide Step;
    if inputs != [] {
      StepConserves(s, inputs[0]);
      RunConserves(Step(s, inputs[0]), inputs[1..]);
    }
  }

  /**
   Over every interleaving: each fall of promptActive that is not a failed
   user_message has sent its idle update, has a finish in flight, or had it cut off
   by a notification that failed; so idle updates never outnumber activations.
   */
  lemma IdlesAreConserved(inputs: seq<Input>)
    ensures var t := Run(Initial, inputs);
      && Idles(t.sent) + |t.finishers| + Lost(Initial, inputs) + FailedFalls(Initial, inputs) == Falls(Initial, inputs)
      && Falls(Initial, inputs) + Flag(t.promptActive) == Rises(Initial, inputs)
      && Idles(t.sent) <= Rises(Initial, inputs)
  {
    RunConserves(Initial, inputs);
  }

  /** How many idle updates may still be sent before the next activation. */
  function Budget(s: State): nat {
    |s.finishers| + Flag(s.promptActive)
  }

  /** Without an activation, no more than the budget is sent ... */
  lemma IdlesUntilActivation(s: State, rest: seq<Input>)
    requires Rises(s, rest) == 0
    ensures Idles(Run(s, rest).sent) <= Idles(s.sent) + Budget(s)
  {
    RunConserves(s, rest);
  }

  /** ... and the budget is reached. */
  lemma {:induction false} BudgetIsReached(s: State) returns (rest: seq<Input>)
    ensures Rises(s, rest) == 0 && Idles(Run(s, rest).sent) == Idles(s.sent) + Budget(s)
    decreases s.promptActive, StepsLeft(s.finishers)
  {
    if s.promptActive {
      var input := TurnEnded(None, None);
      StepConserves(s, input);
      FinishCounts(s.(promptActive := false), None);
      var more := BudgetIsReached(Step(s, input));
      rest := [input] + more;
      assert rest[1..] == more;
    } else if s.finishers != [] {
      var input := FinisherContinues(|s.finishers| - 1);
      StepConserves(s, input);
      LastFinisherSteps(s);
      var more := BudgetIsReached(Step(s, input));
      rest := [input] + more;
      assert rest[1..] == more;
    } else {
      rest := [];
    }
  }

  function StepsLeft(fs: seq<Finisher>): nat {
    if fs == [] then 0 else StepsLeft(fs[..|fs| - 1]) + if fs[|fs| - 1].SendingMessage? then 2 else 1
  }

  lemma LastFinisherSteps(s: State)
    requires s.finishers != [] && !s.promptActive
    ensures var t := Step(s, FinisherContinues(|s.finishers| - 1));
      !t.promptActive && StepsLeft(t.finishers) < StepsLeft(s.finishers)
  {
    var i := |s.finishers| - 1;
    assert s.finishers[..i] + s.finishers[i + 1..] == s.finishers[..i];
    var t := Step(s, FinisherContinues(i));
    if |t.finishers| > i {
      assert t.finishers[..i] == s.finishers[..i];
    }
  }

  /**
   Two idle updates with no activation between them: possible from a state exactly
   when a finish is in flight while the prompt is active again, or two are in flight.
   */
  lemma TwoIdlesWithoutActivation(s: State)
    ensures Budget(s) >= 2 <==>
      exists rest :: Rises(s, rest) == 0 && Idles(Run(s, rest).sent) >= Idles(s.sent) + 2
  {
    if Budget(s) >= 2 {
      var rest := BudgetIsReached(s);
    }
    forall rest | Rises(s, rest) == 0 && Idles(Run(s, rest).sent) >= Idles(s.sent) + 2 ensures Budget(s) >= 2 {
      IdlesUntilActivation(s, rest);
    }
  }

  /** Such a state is reachable: a turn starts while the upsert of the turn before is still being sent. */
  lemma OverlapIsReachable()
    ensures Budget(Run(Initial, [TurnStarted(None), AgentUpdate(Some("x")), TurnEnded(None, None), TurnStarted(None)])) == 2
  {
    var s1 := Step(Initial, TurnStarted(None));
    var s2 := Step(s1, AgentUpdate(Some("x")));
    assert s2.agentContent == ["x"];
    var s3 := Step(s2, TurnEnded(None, None));
    var s4 := Step(s3, TurnStarted(None));
    assert Run(s3, [TurnStarted(None)]) == s4;
    assert [TurnEnded(None, None), TurnStarted(None)][1..] == [TurnStarted(None)];
    assert Run(s2, [TurnEnded(None, None), TurnStarted(None)]) == s4;
    var three := [AgentUpdate(Some("x")), TurnEnded(None, None), TurnStarted(None)];
    assert three[1..] == [TurnEnded(None, None), TurnStarted(None)];
    assert Run(s1, three) == s4;
    assert ([TurnStarted(None)] + three)[1..] == three;
    assert [TurnStarted(None), AgentUpdate(Some("x")), TurnEnded(None, None), TurnStarted(None)] == [TurnStarted(None)] + three;
  }
}
