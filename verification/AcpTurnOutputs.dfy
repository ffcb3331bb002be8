/**
 What a turn sends and how it is answered, said of the literal events alone: which
 inputs count, what each of them makes go out, and what the one that ends the turn
 answers the prompt with.
 */
module AcpTurnOutputs {
  import opened Wrappers
  import opened WireIds
  import opened AcpTurn
  import opened AcpTurnRuns

  /** An event of the main agent carries no agent id, or "main". */
  predicate OfMain(i: Input) {
    i.Deliver? && (i.event.agent == None || i.event.agent.value == "main")
  }

  /** A turn of the main agent starts that is not the one already running. */
  predicate StartsOwn(active: Option<nat>, i: Input) {
    OfMain(i) && i.event.body.TurnStarted? && active != Some(i.event.body.turn)
  }

  /** The input ends a turn that has seen the inputs before. */
  ghost predicate Ends(active: Option<nat>, before: seq<Input>, i: Input) {
    || i.KickRejected?
    || (OfMain(i) && i.event.body.TurnEnded?)
    || (&& OfMain(i) && i.event.body.ErrorRaised? && i.event.body.code == "turn.agent_busy"
        && forall k :: 0 <= k < |before| ==> !StartsOwn(active, before[k]))
  }

  /** The inputs before the first that ends the turn. */
  ghost function Live(active: Option<nat>, inputs: seq<Input>): seq<Input> {
    if inputs == [] then []
    else
      var live := Live(active, Prefix(inputs));
      if live == Prefix(inputs) && !Ends(active, live, Last(inputs)) then inputs else live
  }

  lemma EndsIsSettles(active: Option<nat>, before: seq<Input>, i: Input)
    ensures Ends(active, before, i) <==> Settles(active, before, i)
  {
    assert forall j: Input :: j.Deliver? && IsOwnStart(active, j.event) <==> StartsOwn(active, j);
  }

  lemma {:induction false} LiveIsOpen(active: Option<nat>, inputs: seq<Input>)
    ensures var live := Live(active, inputs);
      && |live| <= |inputs| && live == inputs[..|live|] && Open(active, live)
      && (|live| < |inputs| ==> Settles(active, live, inputs[|live|]) && Ends(active, live, inputs[|live|]))
  {
    hide Settles, Ends;
    if inputs != [] {
      var before := Prefix(inputs);
      LiveIsOpen(active, before);
      var live := Live(active, before);
      if live == before {
        EndsIsSettles(active, before, Last(inputs));
        OpenPrefix(active, inputs);
      } else {
        assert before[..|live|] == inputs[..|live|];
      }
    }
  }

  /** From its end on a turn sends nothing. */
  lemma SentWhileLive(active: Option<nat>, inputs: seq<Input>)
    ensures Run(active, inputs).sent == Run(active, Live(active, inputs)).sent
  {
    hide Settles, Ends, Run, Live;
    LiveIsOpen(active, inputs);
    var n := |Live(active, inputs)|;
    if n < |inputs| {
      FirstSettlementIsFinal(active, inputs, n);
    } else {
      assert inputs[..n] == inputs;
    }
  }

  // What goes out.

  /** What an event makes go out besides the cards of tool calls. */
  ghost function Shows(i: Input): seq<Update> {
    if !OfMain(i) then []
    else
      match i.event.body
      case AssistantDelta(_, delta) => [MessageChunk(delta)]
      case ThinkingDelta(_, delta) => [ThoughtChunk(delta)]
      case StatusUpdated(_, Some(usage)) => [Usage(usage.0, usage.1)]
      case ToolStarted(_, _, _, todo) => if todo then [Plan] else []
      case ToolProgress(turn, id, title) => if title != "" then [Progress(AcpToolCallId(turn, id), title)] else []
      case ToolResult(turn, id, isError, content) => [Finished(AcpToolCallId(turn, id), isError, content)]
      case _ => []
  }

  ghost function AllShown(inputs: seq<Input>): seq<Update> {
    if inputs == [] then [] else AllShown(Prefix(inputs)) + Shows(Last(inputs))
  }

  predicate IsCard(u: Update) {
    u.Create? || u.StartUpgrade? || u.ArgsUpdate?
  }

  ghost function BesidesCards(sent: seq<Update>): seq<Update> {
    if sent == [] then []
    else BesidesCards(sent[..|sent| - 1]) + if IsCard(sent[|sent| - 1]) then [] else [sent[|sent| - 1]]
  }

  /** The wire ids the card updates are for. */
  ghost function Cards(sent: seq<Update>): seq<string> {
    if sent == [] then []
    else Cards(sent[..|sent| - 1]) + if IsCard(sent[|sent| - 1]) then [sent[|sent| - 1].wire] else []
  }

  /** The wire ids of the calls the main agent starts or streams arguments for. */
  ghost function CardEvents(inputs: seq<Input>): seq<string> {
    if inputs == [] then []
    else
      var i := Last(inputs);
      CardEvents(Prefix(inputs)) +
      if OfMain(i) && (i.event.body.ToolStarted? || i.event.body.ToolDelta?)
      then [AcpToolCallId(i.event.body.turn, i.event.body.id)] else []
  }

  lemma OneMoreUpdate(sent: seq<Update>, u: Update)
    ensures BesidesCards(sent + [u]) == BesidesCards(sent) + if IsCard(u) then [] else [u]
    ensures Cards(sent + [u]) == Cards(sent) + if IsCard(u) then [u.wire] else []
  {
    assert (sent + [u])[..|sent|] == sent;
  }

  /** One input while the turn is open. */
  lemma ShownByStep(active: Option<nat>, s: State, i: Input)
    requires s.subscribed && !s.settled
    ensures BesidesCards(Step(active, s, i).sent) == BesidesCards(s.sent) + Shows(i)
    ensures Cards(Step(active, s, i).sent) == Cards(s.sent) +
      if OfMain(i) && (i.event.body.ToolStarted? || i.event.body.ToolDelta?)
      then [AcpToolCallId(i.event.body.turn, i.event.body.id)] else []
  {
    hide BesidesCards, Cards, AcpToolCallId, OnMainEvent, OnToolStarted, OnToolDelta;
    if OfMain(i) {
      match i.event.body
      case ToolStarted(turn, id, args, todo) =>
        StepOfTool(active, s, i.event);
        ShownByStart(Now(active, s, i.event), turn, id, args, todo);
      case ToolDelta(turn, id, part) =>
        StepOfTool(active, s, i.event);
        ShownByDelta(Now(active, s, i.event), turn, id, part);
      case _ =>
        OtherSends(active, s, i);
        OtherUpdate(s.sent, Shows(i));
    }
  }

  lemma OtherUpdate(sent: seq<Update>, us: seq<Update>)
    requires |us| <= 1 && forall u :: u in us ==> !IsCard(u)
    ensures BesidesCards(sent + us) == BesidesCards(sent) + us && Cards(sent + us) == Cards(sent)
  {
    if us == [] {
      assert sent + us == sent;
    } else {
      assert us == [us[0]] && us[0] in us;
      OneMoreUpdate(sent, us[0]);
    }
  }

  lemma StepOfTool(active: Option<nat>, s: State, e: Event)
    requires s.subscribed && !s.settled && (e.body.ToolStarted? || e.body.ToolDelta?)
    ensures OnMainEvent(active, s, e) ==
      if e.body.ToolStarted? then OnToolStarted(Now(active, s, e), e.body.turn, e.body.id, e.body.args, e.body.todo)
      else OnToolDelta(Now(active, s, e), e.body.turn, e.body.id, e.body.part)
  {
    hide OnToolStarted, OnToolDelta;
  }

  lemma OtherSends(active: Option<nat>, s: State, i: Input)
    requires s.subscribed && !s.settled && OfMain(i) && !i.event.body.ToolStarted? && !i.event.body.ToolDelta?
    ensures |Shows(i)| <= 1 && OnMainEvent(active, s, i.event).sent == s.sent + Shows(i)
    ensures forall u :: u in Shows(i) ==> !IsCard(u)
  {
    hide AcpToolCallId, IsAuthErrorCode, TurnEndReasonToStopReason, IsOwnStart, TurnIdOf;
  }

  /** The state with the event's turn noted. */
  function Now(active: Option<nat>, s: State, e: Event): State {
    s.(hasOwn := s.hasOwn || IsOwnStart(active, e),
       currentTurn := if TurnIdOf(e.body).Some? then TurnIdOf(e.body) else s.currentTurn)
  }

  lemma ShownByStart(s: State, turn: nat, id: string, args: string, todo: bool)
    ensures var t := OnToolStarted(s, turn, id, args, todo);
      && BesidesCards(t.sent) == BesidesCards(s.sent) + (if todo then [Plan] else [])
      && Cards(t.sent) == Cards(s.sent) + [AcpToolCallId(turn, id)]
  {
    hide BesidesCards, Cards, AcpToolCallId;
    var u := OnToolStarted(s, turn, id, args, false).sent[|s.sent|];
    OneMoreUpdate(s.sent, u);
    OneMoreUpdate(s.sent + [u], Plan);
  }

  lemma ShownByDelta(s: State, turn: nat, id: string, part: Option<string>)
    ensures var t := OnToolDelta(s, turn, id, part);
      BesidesCards(t.sent) == BesidesCards(s.sent) && Cards(t.sent) == Cards(s.sent) + [AcpToolCallId(turn, id)]
  {
    hide BesidesCards, Cards, AcpToolCallId;
    OneMoreUpdate(s.sent, OnToolDelta(s, turn, id, part).sent[|s.sent|]);
  }

  lemma {:induction false} ShownWhileOpen(active: Option<nat>, inputs: seq<Input>)
    requires Open(active, inputs)
    ensures BesidesCards(Run(active, inputs).sent) == AllShown(inputs)
    ensures Cards(Run(active, inputs).sent) == CardEvents(inputs)
  {
    hide Open, Step, Settles;
    if inputs != [] {
      OpenPrefix(active, inputs);
      OpenRuns(active, Prefix(inputs));
      ShownWhileOpen(active, Prefix(inputs));
      ShownByStep(active, Run(active, Prefix(inputs)), Last(inputs));
    }
  }

  /**
   In every run, apart from the cards of tool calls, the client is sent exactly what the
   main agent's events up to the end of the turn say, in order: message chunks for
   assistant deltas, thought chunks for thinking deltas, usage, plans, progress and
   results. And each start and each argument fragment updates its card exactly once.
   */
  lemma SentIsWhatEventsSay(active: Option<nat>, inputs: seq<Input>)
    ensures BesidesCards(Run(active, inputs).sent) == AllShown(Live(active, inputs))
    ensures Cards(Run(active, inputs).sent) == CardEvents(Live(active, inputs))
  {
    hide Run, Live, Settles, Ends, Open;
    SentWhileLive(active, inputs);
    LiveIsOpen(active, inputs);
    ShownWhileOpen(active, Live(active, inputs));
  }

  // The texts by themselves.

  /** The texts of the message chunks, or of the thought chunks. */
  ghost function Texts(sent: seq<Update>, thoughts: bool): seq<string> {
    if sent == [] then []
    else
      var u := sent[|sent| - 1];
      Texts(sent[..|sent| - 1], thoughts) + if (if thoughts then u.ThoughtChunk? else u.MessageChunk?) then [u.text] else []
  }

  /** The texts of the main agent's assistant deltas, or of its thinking deltas. */
  ghost function Deltas(inputs: seq<Input>, thoughts: bool): seq<string> {
    if inputs == [] then []
    else
      var i := Last(inputs);
      Deltas(Prefix(inputs), thoughts) +
      if OfMain(i) && (if thoughts then i.event.body.ThinkingDelta? else i.event.body.AssistantDelta?)
      then [i.event.body.delta] else []
  }

  lemma OneMoreText(sent: seq<Update>, us: seq<Update>, thoughts: bool)
    requires |us| <= 1
    ensures Texts(sent + us, thoughts) == Texts(sent, thoughts) +
      if us != [] && (if thoughts then us[0].ThoughtChunk? else us[0].MessageChunk?) then [us[0].text] else []
  {
    if us == [] {
      assert sent + us == sent;
    } else {
      assert (sent + us)[..|sent|] == sent;
    }
  }

  lemma {:induction false} CardsHaveNoTexts(sent: seq<Update>, thoughts: bool)
    ensures Texts(BesidesCards(sent), thoughts) == Texts(sent, thoughts)
  {
    if sent != [] {
      var init, u := sent[..|sent| - 1], sent[|sent| - 1];
      CardsHaveNoTexts(init, thoughts);
      OneMoreText(BesidesCards(init), if IsCard(u) then [] else [u], thoughts);
      assert sent == init + [u];
    }
  }

  lemma ShowsItsDelta(i: Input, thoughts: bool)
    ensures |Shows(i)| <= 1
    ensures (Shows(i) != [] && if thoughts then Shows(i)[0].ThoughtChunk? else Shows(i)[0].MessageChunk?) <==>
      OfMain(i) && if thoughts then i.event.body.ThinkingDelta? else i.event.body.AssistantDelta?
    ensures Shows(i) != [] && (if thoughts then Shows(i)[0].ThoughtChunk? else Shows(i)[0].MessageChunk?) ==>
      Shows(i)[0].text == i.event.body.delta
  {
    hide AcpToolCallId, OfMain;
  }

  lemma {:induction false} ShownTexts(inputs: seq<Input>, thoughts: bool)
    ensures Texts(AllShown(inputs), thoughts) == Deltas(inputs, thoughts)
  {
    if inputs != [] {
      hide AcpToolCallId, OfMain, Texts, Shows;
      ShownTexts(Prefix(inputs), thoughts);
      ShowsItsDelta(Last(inputs), thoughts);
      OneMoreText(AllShown(Prefix(inputs)), Shows(Last(inputs)), thoughts);
    } else {
      assert AllShown(inputs) == [];
    }
  }

  /** The message texts sent are the main agent's assistant deltas, the thought texts its thinking deltas. */
  lemma TextsAreDeltas(active: Option<nat>, inputs: seq<Input>, thoughts: bool)
    ensures Texts(Run(active, inputs).sent, thoughts) == Deltas(Live(active, inputs), thoughts)
  {
    hide Run, Live, BesidesCards, Texts;
    SentIsWhatEventsSay(active, inputs);
    CardsHaveNoTexts(Run(active, inputs).sent, thoughts);
    ShownTexts(Live(active, inputs), thoughts);
  }

  // The answer.

  /** What the input that ends a turn answers the prompt with. */
  function Answer(i: Input): Outcome {
    match i
    case KickRejected(code) =>
      if code in {Some("auth.login_required"), Some("provider.auth_error")} then RejectedAuth else RejectedInternal
    case Deliver(Event(_, TurnEnded(_, Completed, _))) => Resolved(EndTurn)
    case Deliver(Event(_, TurnEnded(_, Cancelled, _))) => Resolved(StopCancelled)
    case Deliver(Event(_, TurnEnded(_, Blocked, _))) => Resolved(Refusal)
    case Deliver(Event(_, TurnEnded(_, Failed, error))) =>
      if error in {Some("auth.login_required"), Some("provider.auth_error")} then RejectedAuth
      else if error == Some("provider.filtered") then Resolved(Refusal)
      else Resolved(EndTurn)
    case _ => RejectedBusy
  }

  /** The prompt is answered by the first input that ends the turn, and by nothing else. */
  lemma AnswerIs(active: Option<nat>, inputs: seq<Input>)
    ensures var live := Live(active, inputs);
      && |live| <= |inputs|
      && Run(active, inputs).outcome == if |live| == |inputs| then None else Some(Answer(inputs[|live|]))
  {
    hide Run, Live, Open;
    LiveIsOpen(active, inputs);
    var n := |Live(active, inputs)|;
    if n < |inputs| {
      FirstSettlementIsFinal(active, inputs, n);
      assert OutcomeOf(inputs[n]) == Answer(inputs[n]);
    } else {
      assert inputs[..n] == inputs;
      OpenRuns(active, inputs);
    }
  }

  // The turn approvals refer to.

  /** The turn id the latest event of the main agent carried, the one running before if none did. */
  ghost function LatestTurn(active: Option<nat>, inputs: seq<Input>): Option<nat> {
    if inputs == [] then active
    else
      var i, before := Last(inputs), LatestTurn(active, Prefix(inputs));
      if !OfMain(i) then before
      else
        match i.event.body
        case ErrorRaised(turn, _) => if turn.Some? then turn else before
        case StatusUpdated(turn, _) => if turn.Some? then turn else before
        case Unrelated(turn) => if turn.Some? then turn else before
        case _ => Some(i.event.body.turn)
  }

  /** As long as the turn is open. */
  lemma {:induction false} CurrentTurnIsLatest(active: Option<nat>, inputs: seq<Input>)
    requires Open(active, inputs)
    ensures Run(active, inputs).currentTurn == LatestTurn(active, inputs)
  {
    hide Open, Settles, Step;
    if inputs != [] {
      OpenPrefix(active, inputs);
      OpenRuns(active, Prefix(inputs));
      OpenRuns(active, inputs);
      CurrentTurnIsLatest(active, Prefix(inputs));
      TurnByStep(active, Run(active, Prefix(inputs)), Last(inputs));
    }
  }

  lemma TurnByStep(active: Option<nat>, s: State, i: Input)
    requires s.subscribed && !s.settled && Step(active, s, i).subscribed
    ensures Step(active, s, i).currentTurn ==
      if OfMain(i) && TurnIdOf(i.event.body).Some? then TurnIdOf(i.event.body) else s.currentTurn
  {
    hide AcpToolCallId, IsAuthErrorCode, TurnEndReasonToStopReason, OrEmpty, TurnIdOf;
  }

  lemma {:induction false} SettledStays(active: Option<nat>, inputs: seq<Input>, n: nat)
    requires n <= |inputs|
    requires var s := Run(active, inputs[..n]); s.settled && !s.subscribed
    ensures Run(active, inputs) == Run(active, inputs[..n])
    decreases |inputs|
  {
    if n == |inputs| {
      assert inputs[..n] == inputs;
    } else {
      assert Prefix(inputs)[..n] == inputs[..n];
      SettledStays(active, Prefix(inputs), n);
    }
  }

  /** What is left of the turn id once the turn has ended: a rejected kick leaves it, any other end drops it. */
  lemma CurrentTurnIs(active: Option<nat>, inputs: seq<Input>)
    ensures var live := Live(active, inputs);
      && |live| <= |inputs|
      && Run(active, inputs).currentTurn ==
           if |live| == |inputs| || inputs[|live|].KickRejected? then LatestTurn(active, live) else None
  {
    hide Live, Open, LatestTurn, Settles, Ends;
    LiveIsOpen(active, inputs);
    var live := Live(active, inputs);
    CurrentTurnIsLatest(active, live);
    if |live| == |inputs| {
      assert live == inputs;
    } else {
      var n := |live| + 1;
      assert inputs[..n] == live + [inputs[|live|]];
      RunSnoc(active, live, inputs[|live|]);
      OpenRuns(active, live);
      hide Run;
      SettlingStep(active, Run(active, live), live, inputs[|live|]);
      SettledStays(active, inputs, n);
    }
  }

  lemma SettlingStep(active: Option<nat>, s: State, before: seq<Input>, i: Input)
    requires s.subscribed && !s.settled && (s.hasOwn <==> OwnTurnStarted(active, before)) && Settles(active, before, i)
    ensures var t := Step(active, s, i);
      t.settled && !t.subscribed && t.currentTurn == if i.KickRejected? then s.currentTurn else None
  {
    hide AcpToolCallId, OwnTurnStarted, IsAuthErrorCode, TurnEndReasonToStopReason;
  }
}
