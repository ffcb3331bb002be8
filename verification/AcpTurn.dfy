/**
 One ACP turn: the listener that turns session events into session updates and
 settles the prompt. The claims are about every sequence of events the session
 may deliver, in any order, together with a rejection of the kick at any moment.
 */
module AcpTurn {
  import opened Wrappers
  import opened WireIds

  const MAIN_AGENT_ID := "main"
  const TURN_AGENT_BUSY := "turn.agent_busy"
  const AUTH_LOGIN_REQUIRED := "auth.login_required"
  const PROVIDER_AUTH_ERROR := "provider.auth_error"

  datatype Reason = Completed | Cancelled | Failed | Blocked

  /** A session event; the agent is absent for the main one too. */
  datatype Event = Event(agent: Option<string>, body: Body)

  datatype Body =
    | TurnStarted(turn: nat)
    | TurnEnded(turn: nat, reason: Reason, error: Option<string>)
    | ErrorRaised(turnId: Option<nat>, code: string)
    | StatusUpdated(turnId: Option<nat>, usage: Option<(nat, nat)>)
    | AssistantDelta(turn: nat, delta: string)
    | ThinkingDelta(turn: nat, delta: string)
    | ToolStarted(turn: nat, id: string, args: string, todo: bool)
    | ToolDelta(turn: nat, id: string, part: Option<string>)
    | ToolProgress(turn: nat, id: string, title: string)
    | ToolResult(turn: nat, id: string, isError: bool, content: string)
    | Unrelated(turnId: Option<nat>)

  datatype Update =
    | Usage(used: nat, size: nat)
    | MessageChunk(text: string)
    | ThoughtChunk(text: string)
    | Create(wire: string, text: string, pending: bool)
    | StartUpgrade(wire: string, text: string)
    | ArgsUpdate(wire: string, text: string)
    | Plan
    | Progress(wire: string, title: string)
    | Finished(wire: string, failed: bool, content: string)

  datatype StopReason = EndTurn | StopCancelled | Refusal

  datatype Outcome =
    | Resolved(stop: StopReason)
    | RejectedBusy
    | RejectedAuth
    | RejectedInternal

  /** What can happen to a turn: an event, or the kick that started it failing. */
  datatype Input = Deliver(event: Event) | KickRejected(code: Option<string>)

  predicate IsFromMainAgent(e: Event) {
    e.agent == None || e.agent == Some(MAIN_AGENT_ID)
  }

  predicate IsAuthErrorCode(code: Option<string>) {
    code == Some(AUTH_LOGIN_REQUIRED) || code == Some(PROVIDER_AUTH_ERROR)
  }

  function TurnEndReasonToStopReason(reason: Reason, error: Option<string>): StopReason {
    match reason
    case Completed => EndTurn
    case Cancelled => StopCancelled
    case Failed => if error == Some("provider.filtered") then Refusal else EndTurn
    case Blocked => Refusal
  }

  /** The number under 'turnId', for the events that carry one. */
  function TurnIdOf(b: Body): Option<nat> {
    match b
    case ErrorRaised(t, _) => t
    case StatusUpdated(t, _) => t
    case Unrelated(t) => t
    case _ => Some(b.turn)
  }

  function OrEmpty(part: Option<string>): string {
    match part case None => "" case Some(s) => s
  }

  datatype State = State(
    subscribed: bool,
    settled: bool,
    args: map<string, string>,
    started: set<string>,
    currentTurn: Option<nat>,
    hasOwn: bool,
    sent: seq<Update>,
    outcome: Option<Outcome>)

  function Begin(active: Option<nat>): State {
    State(true, false, map[], {}, active, false, [], None)
  }

  predicate IsOwnStart(active: Option<nat>, e: Event) {
    e.body.TurnStarted? && IsFromMainAgent(e) && (active == None || e.body.turn != active.value)
  }

  function Send(s: State, u: Update): State {
    s.(sent := s.sent + [u])
  }

  function Settle(s: State, o: Outcome): State {
    s.(settled := true, subscribed := false, args := map[], started := {}, currentTurn := None, outcome := Some(o))
  }

  function OnToolStarted(s: State, turn: nat, id: string, args: string, todo: bool): State {
    var wire := AcpToolCallId(turn, id);
    var seeded := s.(args := s.args[id := args], started := s.started + {wire});
    var told := Send(seeded, if wire in s.started then StartUpgrade(wire, args) else Create(wire, args, false));
    if todo then Send(told, Plan) else told
  }

  function OnToolDelta(s: State, turn: nat, id: string, part: Option<string>): State {
    var wire := AcpToolCallId(turn, id);
    if wire !in s.started then
      Send(s.(args := s.args[id := OrEmpty(part)], started := s.started + {wire}), Create(wire, OrEmpty(part), true))
    else
      var text := (if id in s.args then s.args[id] else "") + OrEmpty(part);
      Send(s.(args := s.args[id := text]), ArgsUpdate(wire, text))
  }

  /** The listener, one event from the main agent. */
  function OnMainEvent(active: Option<nat>, s0: State, e: Event): State {
    var s1 := s0.(hasOwn := s0.hasOwn || IsOwnStart(active, e));
    var s := if TurnIdOf(e.body).Some? then s1.(currentTurn := TurnIdOf(e.body)) else s1;
    match e.body
    case StatusUpdated(_, Some(usage)) => Send(s, Usage(usage.0, usage.1))
    case ErrorRaised(_, code) => if s.settled || code != TURN_AGENT_BUSY || s.hasOwn then s else Settle(s, RejectedBusy)
    case AssistantDelta(_, delta) => Send(s, MessageChunk(delta))
    case ThinkingDelta(_, delta) => Send(s, ThoughtChunk(delta))
    case ToolStarted(turn, id, args, todo) => OnToolStarted(s, turn, id, args, todo)
    case ToolDelta(turn, id, part) => OnToolDelta(s, turn, id, part)
    case ToolProgress(turn, id, title) => if title == "" then s else Send(s, Progress(AcpToolCallId(turn, id), title))
    case ToolResult(turn, id, isError, content) => Send(s, Finished(AcpToolCallId(turn, id), isError, content))
    case TurnEnded(_, reason, error) =>
      if s.settled then s
      else if reason == Failed && IsAuthErrorCode(error) then Settle(s, RejectedAuth)
      else Settle(s, Resolved(TurnEndReasonToStopReason(reason, error)))
    case _ => s
  }

  function Step(active: Option<nat>, s: State, input: Input): State {
    match input
    case Deliver(e) => if s.subscribed && IsFromMainAgent(e) then OnMainEvent(active, s, e) else s
    case KickRejected(code) =>
      if s.settled then s
      else s.(settled := true, subscribed := false,
              outcome := Some(if IsAuthErrorCode(code) then RejectedAuth else RejectedInternal))
  }

  function Run(active: Option<nat>, inputs: seq<Input>): State {
    if inputs == [] then Begin(active)
    else Step(active, Run(active, inputs[..|inputs| - 1]), inputs[|inputs| - 1])
  }

  /** The closure of runTurnBody: its captured variables as fields, its listener as a method. */
  class TurnBody {
    const initialActiveTurnId: Option<nat>
    var currentTurnId: Option<nat>
    var subscribed: bool
    var settled: bool
    var argsByToolCall: map<string, string>
    var startedToolCalls: set<string>
    var hasReceivedOwnTurnStarted: bool
    var sent: seq<Update>
    var outcome: Option<Outcome>

    function Abs(): State
      reads this
    {
      State(subscribed, settled, argsByToolCall, startedToolCalls, currentTurnId,
            hasReceivedOwnTurnStarted, sent, outcome)
    }

    constructor (currentTurnId: Option<nat>)
      ensures initialActiveTurnId == currentTurnId && Abs() == Begin(currentTurnId)
    {
      initialActiveTurnId, this.currentTurnId := currentTurnId, currentTurnId;
      subscribed, settled := true, false;
      argsByToolCall, startedToolCalls := map[], {};
      hasReceivedOwnTurnStarted := false;
      sent, outcome := [], None;
    }

    method SessionUpdate(u: Update)
      modifies this`sent
      ensures sent == old(sent) + [u]
    {
      sent := sent + [u];
    }

    method ToolCallStarted(turn: nat, id: string, args: string, todo: bool)
      modifies this`argsByToolCall, this`startedToolCalls, this`sent
      ensures Abs() == OnToolStarted(old(Abs()), turn, id, args, todo)
    {
      hide AcpToolCallId;
      argsByToolCall := argsByToolCall[id := args];
      var startedWireId := AcpToolCallId(turn, id);
      if startedWireId in startedToolCalls {
        SessionUpdate(StartUpgrade(startedWireId, args));
      } else {
        startedToolCalls := startedToolCalls + {startedWireId};
        SessionUpdate(Create(startedWireId, args, false));
      }
      if todo {
        SessionUpdate(Plan);
      }
      assert old(startedToolCalls) + {startedWireId} == startedToolCalls;
    }

    method ToolCallDelta(turn: nat, id: string, part: Option<string>)
      modifies this`argsByToolCall, this`startedToolCalls, this`sent
      ensures Abs() == OnToolDelta(old(Abs()), turn, id, part)
    {
      hide AcpToolCallId, OrEmpty;
      var deltaWireId := AcpToolCallId(turn, id);
      if deltaWireId !in startedToolCalls {
        argsByToolCall := argsByToolCall[id := OrEmpty(part)];
        startedToolCalls := startedToolCalls + {deltaWireId};
        SessionUpdate(Create(deltaWireId, OrEmpty(part), true));
        return;
      }
      var acc := if id in argsByToolCall then argsByToolCall[id] else "";
      acc := acc + OrEmpty(part);
      argsByToolCall := argsByToolCall[id := acc];
      SessionUpdate(ArgsUpdate(deltaWireId, acc));
    }

    /** Clearing, unsubscribing and answering the prompt. */
    method SettleTurn(o: Outcome)
      modifies this
      ensures Abs() == Settle(old(Abs()), o)
    {
      settled := true;
      argsByToolCall, startedToolCalls, currentTurnId := map[], {}, None;
      subscribed := false;
      outcome := Some(o);
    }

    /** The session hands events to the listener for as long as it is subscribed. */
    method OnEvent(event: Event)
      modifies this
      ensures Abs() == Step(initialActiveTurnId, old(Abs()), Deliver(event))
    {
      hide AcpToolCallId, IsAuthErrorCode, TurnEndReasonToStopReason, OnToolStarted, OnToolDelta, Settle;
      if !subscribed {
        return;
      }
      if event.body.TurnStarted? && IsFromMainAgent(event)
         && (initialActiveTurnId == None || event.body.turn != initialActiveTurnId.value)
      {
        hasReceivedOwnTurnStarted := true;
      }
      if TurnIdOf(event.body).Some? && IsFromMainAgent(event) {
        currentTurnId := TurnIdOf(event.body);
      }
      if !IsFromMainAgent(event) {
        return;
      }
      match event.body {
        case StatusUpdated(_, usage) =>
          if usage.Some? {
            SessionUpdate(Usage(usage.value.0, usage.value.1));
          }
        case ErrorRaised(_, code) =>
          if settled || code != TURN_AGENT_BUSY || hasReceivedOwnTurnStarted {
            return;
          }
          SettleTurn(RejectedBusy);
        case AssistantDelta(_, delta) =>
          SessionUpdate(MessageChunk(delta));
        case ThinkingDelta(_, delta) =>
          SessionUpdate(ThoughtChunk(delta));
        case ToolStarted(turn, id, args, todo) =>
          ToolCallStarted(turn, id, args, todo);
        case ToolDelta(turn, id, part) =>
          ToolCallDelta(turn, id, part);
        case ToolProgress(turn, id, title) =>
          if title != "" {
            SessionUpdate(Progress(AcpToolCallId(turn, id), title));
          }
        case ToolResult(turn, id, isError, content) =>
          SessionUpdate(Finished(AcpToolCallId(turn, id), isError, content));
        case TurnEnded(_, reason, error) =>
          if settled {
            return;
          }
          if reason == Failed && IsAuthErrorCode(error) {
            SettleTurn(RejectedAuth);
            return;
          }
          SettleTurn(Resolved(TurnEndReasonToStopReason(reason, error)));
        case _ =>
      }
    }

    method OnKickRejected(code: Option<string>)
      modifies this
      ensures Abs() == Step(initialActiveTurnId, old(Abs()), KickRejected(code))
    {
      if settled {
        return;
      }
      settled := true;
      subscribed := false;
      outcome := Some(if IsAuthErrorCode(code) then RejectedAuth else RejectedInternal);
    }
  }
}
