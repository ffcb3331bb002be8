/** What holds of every run of a turn. The reference notions look only at the inputs. */
module AcpTurnRuns {
  import opened Wrappers
  import opened WireIds
  import opened AcpTurn

  function Prefix(inputs: seq<Input>): seq<Input>
    requires inputs != []
  {
    inputs[..|inputs| - 1]
  }

  function Last(inputs: seq<Input>): Input
    requires inputs != []
  {
    inputs[|inputs| - 1]
  }

  predicate IsMain(i: Input) {
    i.Deliver? && IsFromMainAgent(i.event)
  }

  /** A subagent's event changes nothing and emits nothing. */
  lemma SubagentsAreSilent(active: Option<nat>, inputs: seq<Input>, e: Event)
    requires !IsFromMainAgent(e)
    ensures Run(active, inputs + [Deliver(e)]) == Run(active, inputs)
  {
    assert Prefix(inputs + [Deliver(e)]) == inputs;
  }

  // One outcome.

  /** An own turn of the main agent starts among the inputs. */
  ghost predicate OwnTurnStarted(active: Option<nat>, inputs: seq<Input>) {
    exists i :: 0 <= i < |inputs| && inputs[i].Deliver? && IsOwnStart(active, inputs[i].event)
  }

  /** The input that, coming after `before`, settles a turn nothing has settled yet. */
  ghost predicate Settles(active: Option<nat>, before: seq<Input>, i: Input) {
    match i
    case KickRejected(_) => true
    case Deliver(e) =>
      IsFromMainAgent(e) &&
      match e.body
      case TurnEnded(_, _, _) => true
      case ErrorRaised(_, code) => code == TURN_AGENT_BUSY && !OwnTurnStarted(active, before)
      case _ => false
  }

  ghost function OutcomeOf(i: Input): Outcome {
    match i
    case KickRejected(code) => if IsAuthErrorCode(code) then RejectedAuth else RejectedInternal
    case Deliver(Event(_, TurnEnded(_, reason, error))) =>
      if reason == Failed && IsAuthErrorCode(error) then RejectedAuth
      else Resolved(TurnEndReasonToStopReason(reason, error))
    case _ => RejectedBusy
  }

  /** No input settles the turn. */
  ghost predicate Open(active: Option<nat>, inputs: seq<Input>) {
    forall k :: 0 <= k < |inputs| ==> !Settles(active, inputs[..k], inputs[k])
  }

  lemma OpenPrefix(active: Option<nat>, inputs: seq<Input>)
    requires inputs != []
    ensures Open(active, inputs) <==>
      Open(active, Prefix(inputs)) && !Settles(active, Prefix(inputs), Last(inputs))
  {
    assert forall k :: 0 <= k < |inputs| - 1 ==> Prefix(inputs)[..k] == inputs[..k];
  }

  lemma OwnTurnStartedPrefix(active: Option<nat>, inputs: seq<Input>)
    requires inputs != []
    ensures OwnTurnStarted(active, inputs) <==>
      OwnTurnStarted(active, Prefix(inputs)) || (Last(inputs).Deliver? && IsOwnStart(active, Last(inputs).event))
  {
    if Last(inputs).Deliver? && IsOwnStart(active, Last(inputs).event) {
      assert inputs[|inputs| - 1] == Last(inputs);
    }
    assert forall i :: 0 <= i < |inputs| - 1 ==> Prefix(inputs)[i] == inputs[i];
  }

  lemma NothingStarted(active: Option<nat>)
    ensures !OwnTurnStarted(active, [])
  {
  }

  lemma OpenStep(active: Option<nat>, s: State, before: seq<Input>, i: Input)
    requires s.subscribed && !s.settled && s.outcome == None && (s.hasOwn <==> OwnTurnStarted(active, before))
    requires !Settles(active, before, i)
    ensures var t := Step(active, s, i);
      && t.subscribed && !t.settled && t.outcome == None
      && (t.hasOwn <==> s.hasOwn || (i.Deliver? && IsOwnStart(active, i.event)))
  {
    hide AcpToolCallId, OwnTurnStarted;
  }

  lemma {:induction false} OpenRuns(active: Option<nat>, inputs: seq<Input>)
    requires Open(active, inputs)
    ensures var s := Run(active, inputs);
      s.subscribed && !s.settled && s.outcome == None && (s.hasOwn <==> OwnTurnStarted(active, inputs))
  {
    hide Open, Settles, OnMainEvent, OwnTurnStarted;
    if inputs == [] {
      NothingStarted(active);
    } else {
      OpenPrefix(active, inputs);
      OpenRuns(active, Prefix(inputs));
      OwnTurnStartedPrefix(active, inputs);
      OpenStep(active, Run(active, Prefix(inputs)), Prefix(inputs), Last(inputs));
    }
  }

  /**
   The first settling input fixes the outcome for good, and from it on nothing is
   emitted, whatever is still delivered.
   */
  lemma {:induction false} FirstSettlementIsFinal(active: Option<nat>, inputs: seq<Input>, i: nat)
    requires i < |inputs| && Open(active, inputs[..i]) && Settles(active, inputs[..i], inputs[i])
    ensures Run(active, inputs).outcome == Some(OutcomeOf(inputs[i]))
    ensures Run(active, inputs).sent == Run(active, inputs[..i]).sent
    ensures !Run(active, inputs).subscribed && Run(active, inputs).settled
    decreases |inputs|
  {
    if i == |inputs| - 1 {
      OpenRuns(active, inputs[..i]);
    } else {
      assert Prefix(inputs)[..i] == inputs[..i];
      FirstSettlementIsFinal(active, Prefix(inputs), i);
    }
  }

  lemma {:induction false} FirstSettlement(active: Option<nat>, inputs: seq<Input>) returns (i: nat)
    requires !Open(active, inputs)
    ensures i < |inputs| && Open(active, inputs[..i]) && Settles(active, inputs[..i], inputs[i])
  {
    OpenPrefix(active, inputs);
    if Open(active, Prefix(inputs)) {
      i := |inputs| - 1;
    } else {
      i := FirstSettlement(active, Prefix(inputs));
      assert Prefix(inputs)[..i] == inputs[..i];
    }
  }

  /** A prompt has an outcome exactly when some input settles it. */
  lemma OutcomeIffSettled(active: Option<nat>, inputs: seq<Input>)
    ensures Run(active, inputs).outcome == None <==> Open(active, inputs)
  {
    if Open(active, inputs) {
      OpenRuns(active, inputs);
    } else {
      var i := FirstSettlement(active, inputs);
      FirstSettlementIsFinal(active, inputs, i);
    }
  }

  // Create before update, and only once.

  ghost function Created(sent: seq<Update>): set<string> {
    if sent == [] then {}
    else Created(sent[..|sent| - 1]) + (if sent[|sent| - 1].Create? then {sent[|sent| - 1].wire} else {})
  }

  /** Every wire id is created at most once, and started and argument updates come after. */
  ghost predicate WellOrdered(sent: seq<Update>) {
    forall j :: 0 <= j < |sent| ==> InOrder(sent, j)
  }

  ghost predicate InOrder(sent: seq<Update>, j: nat)
    requires j < |sent|
  {
    InPlace(Created(sent[..j]), sent[j])
  }

  ghost predicate InPlace(created: set<string>, u: Update) {
    && (u.Create? ==> u.wire !in created)
    && (u.StartUpgrade? || u.ArgsUpdate? ==> u.wire in created)
  }

  lemma {:induction false} CreatedMeans(sent: seq<Update>, wire: string)
    ensures wire in Created(sent) <==> exists i :: 0 <= i < |sent| && sent[i].Create? && sent[i].wire == wire
  {
    if sent != [] {
      CreatedMeans(sent[..|sent| - 1], wire);
      assert forall i :: 0 <= i < |sent| - 1 ==> sent[..|sent| - 1][i] == sent[i];
      if sent[|sent| - 1].Create? && sent[|sent| - 1].wire == wire {
        assert wire in Created(sent);
      }
    }
  }

  lemma OneMoreSent(sent: seq<Update>, u: Update)
    requires WellOrdered(sent)
    ensures Created(sent + [u]) == Created(sent) + if u.Create? then {u.wire} else {}
    ensures WellOrdered(sent + [u]) <==> InPlace(Created(sent), u)
  {
    var more := sent + [u];
    assert more[..|sent|] == sent;
    forall j | 0 <= j < |sent| ensures InOrder(more, j) {
      assert more[..j] == sent[..j] && InOrder(sent, j);
    }
    if WellOrdered(more) {
      assert InOrder(more, |sent|);
    }
  }

  lemma {:induction false} SentInvariant(active: Option<nat>, inputs: seq<Input>)
    ensures SentOk(Run(active, inputs))
  {
    if inputs != [] {
      SentInvariant(active, Prefix(inputs));
      var s, i := Run(active, Prefix(inputs)), Last(inputs);
      if s.subscribed && IsMain(i) {
        SentByOneEvent(active, s, i.event);
      }
    }
  }

  ghost predicate SentOk(s: State) {
    WellOrdered(s.sent) && (s.subscribed ==> s.started == Created(s.sent)) && (s.subscribed <==> !s.settled)
  }

  lemma SentByOneEvent(active: Option<nat>, s: State, e: Event)
    requires s.subscribed && SentOk(s)
    ensures SentOk(OnMainEvent(active, s, e))
  {
    hide SentOk, OnMainEvent;
    if e.body.ToolStarted? {
      SentByStart(active, s, e);
    } else if e.body.ToolDelta? {
      SentByDelta(active, s, e);
    } else {
      SentByOthers(active, s, e);
    }
  }

  lemma SentByStart(active: Option<nat>, s: State, e: Event)
    requires s.subscribed && SentOk(s) && e.body.ToolStarted?
    ensures SentOk(OnMainEvent(active, s, e))
  {
    hide Created, WellOrdered, AcpToolCallId;
    var t := OnMainEvent(active, s, e);
    var u := t.sent[|s.sent|];
    OneMoreSent(s.sent, u);
    OneMoreSent(s.sent + [u], Plan);
  }

  lemma SentByDelta(active: Option<nat>, s: State, e: Event)
    requires s.subscribed && SentOk(s) && e.body.ToolDelta?
    ensures SentOk(OnMainEvent(active, s, e))
  {
    hide Created, WellOrdered, AcpToolCallId;
    var t := OnMainEvent(active, s, e);
    OneMoreSent(s.sent, t.sent[|s.sent|]);
  }

  lemma SentByOthers(active: Option<nat>, s: State, e: Event)
    requires s.subscribed && SentOk(s) && !e.body.ToolStarted? && !e.body.ToolDelta?
    ensures SentOk(OnMainEvent(active, s, e))
  {
    hide Created, WellOrdered, OnMainEvent;
    OtherEvents(active, s, e);
    var t := OnMainEvent(active, s, e);
    if t.sent != s.sent {
      OneMoreSent(s.sent, t.sent[|s.sent|]);
    }
  }

  /** The other events create no card, touch no started id, and send at most one update. */
  lemma OtherEvents(active: Option<nat>, s: State, e: Event)
    requires s.subscribed && !s.settled && !e.body.ToolStarted? && !e.body.ToolDelta?
    ensures var t := OnMainEvent(active, s, e);
      && (t.subscribed ==> t.started == s.started && t.args == s.args) && (t.subscribed <==> !t.settled)
      && (t.sent == s.sent || exists u :: t.sent == s.sent + [u] && InPlace({}, u) && !u.Create?)
  {
    hide AcpToolCallId;
    var t := OnMainEvent(active, s, e);
    if |t.sent| > |s.sent| {
      var u := t.sent[|s.sent|];
      assert t.sent == s.sent + [u] && InPlace({}, u) && !u.Create?;
    }
  }

  /** Over every run: at most one CREATE per wire id, and no update of a card not created before. */
  lemma CreateBeforeUpdate(active: Option<nat>, inputs: seq<Input>, j: nat)
    requires j < |Run(active, inputs).sent|
    ensures var sent := Run(active, inputs).sent;
      && (sent[j].Create? ==> !exists i :: 0 <= i < j && sent[i].Create? && sent[i].wire == sent[j].wire)
      && (sent[j].StartUpgrade? || sent[j].ArgsUpdate? ==>
            exists i :: 0 <= i < j && sent[i].Create? && sent[i].wire == sent[j].wire)
  {
    SentInvariant(active, inputs);
    var sent := Run(active, inputs).sent;
    assert InOrder(sent, j);
    if sent[j].Create? || sent[j].StartUpgrade? || sent[j].ArgsUpdate? {
      CreatedMeans(sent[..j], sent[j].wire);
      if sent[j].wire in Created(sent[..j]) {
        var i :| 0 <= i < j && sent[..j][i].Create? && sent[..j][i].wire == sent[j].wire;
        assert sent[i].Create? && sent[i].wire == sent[j].wire;
      } else {
        assert forall i :: 0 <= i < j ==> sent[..j][i] == sent[i];
      }
    }
  }

  // Cumulative arguments.

  /** The main agent has mentioned the wire id, by starting the call or streaming its arguments. */
  ghost predicate Touched(inputs: seq<Input>, wire: string) {
    exists i :: 0 <= i < |inputs| && Mentions(inputs[i], wire)
  }

  ghost predicate Mentions(i: Input, wire: string) {
    IsMain(i) && (i.event.body.ToolStarted? || i.event.body.ToolDelta?)
    && AcpToolCallId(i.event.body.turn, i.event.body.id) == wire
  }

  /** Input j opens a card for the raw id or starts its call: the text begins anew. */
  ghost predicate Seeds(inputs: seq<Input>, j: nat, id: string)
    requires j < |inputs|
  {
    && IsMain(inputs[j])
    && var b := inputs[j].event.body;
       || (b.ToolStarted? && b.id == id)
       || (b.ToolDelta? && b.id == id && !Touched(inputs[..j], AcpToolCallId(b.turn, id)))
  }

  ghost function SeedText(i: Input): string {
    match i
    case Deliver(Event(_, ToolStarted(_, _, args, _))) => args
    case Deliver(Event(_, ToolDelta(_, _, part))) => OrEmpty(part)
    case _ => ""
  }

  /** The argument fragments the main agent streams for the raw id, in order. */
  ghost function Fragments(inputs: seq<Input>, id: string): string {
    if inputs == [] then "" else Fragments(Prefix(inputs), id) + FragmentOf(Last(inputs), id)
  }

  ghost function FragmentOf(i: Input, id: string): string {
    if IsMain(i) && i.event.body.ToolDelta? && i.event.body.id == id then OrEmpty(i.event.body.part) else ""
  }

  /** j is the latest seed for the raw id. */
  ghost predicate LatestSeed(inputs: seq<Input>, j: nat, id: string) {
    j < |inputs| && Seeds(inputs, j, id) && forall k :: j < k < |inputs| ==> !Seeds(inputs, k, id)
  }

  lemma SeedsPrefix(inputs: seq<Input>, id: string)
    requires inputs != []
    ensures forall k :: 0 <= k < |inputs| - 1 ==> (Seeds(inputs, k, id) <==> Seeds(Prefix(inputs), k, id))
  {
    assert forall k :: 0 <= k < |inputs| - 1 ==> Prefix(inputs)[..k] == inputs[..k];
  }

  lemma TouchedPrefix(inputs: seq<Input>, wire: string)
    requires inputs != []
    ensures Touched(inputs, wire) <==> Touched(Prefix(inputs), wire) || Mentions(Last(inputs), wire)
  {
    if Mentions(Last(inputs), wire) {
      assert Mentions(inputs[|inputs| - 1], wire);
    }
    assert forall i :: 0 <= i < |inputs| - 1 ==> Prefix(inputs)[i] == inputs[i];
  }

  /** While the turn is open: the started set is the touched ids, and a seeded raw id has its text. */
  ghost predicate ArgsInvariant(active: Option<nat>, inputs: seq<Input>) {
    var s := Run(active, inputs);
    && (forall w :: w in s.started <==> Touched(inputs, w))
    && (forall j: nat, id :: LatestSeed(inputs, j, id) ==>
          id in s.args && s.args[id] == SeedText(inputs[j]) + Fragments(inputs[j + 1..], id))
  }

  lemma {:induction false} ArgsAreCumulative(active: Option<nat>, inputs: seq<Input>)
    requires Open(active, inputs)
    ensures ArgsInvariant(active, inputs)
  {
    hide Settles, OnMainEvent, Open;
    if inputs != [] {
      OpenPrefix(active, inputs);
      OpenRuns(active, Prefix(inputs));
      OpenRuns(active, inputs);
      ArgsAreCumulative(active, Prefix(inputs));
      var s, t := Run(active, Prefix(inputs)), Run(active, inputs);
      forall w ensures w in t.started <==> Touched(inputs, w) {
        TouchedPrefix(inputs, w);
        assert w in s.started <==> Touched(Prefix(inputs), w);
        StartedStep(active, s, Last(inputs), w);
      }
      forall j: nat, id | LatestSeed(inputs, j, id)
        ensures id in t.args && t.args[id] == SeedText(inputs[j]) + Fragments(inputs[j + 1..], id)
      {
        SeedsPrefix(inputs, id);
        if j == |inputs| - 1 {
          assert inputs[j + 1..] == [];
        } else {
          assert LatestSeed(Prefix(inputs), j, id);
          assert Prefix(inputs)[j + 1..] == Prefix(inputs[j + 1..]);
        }
        ArgsStep(active, inputs, j, id);
      }
    }
  }

  lemma StartedStep(active: Option<nat>, s: State, i: Input, w: string)
    requires s.subscribed && !s.settled && Step(active, s, i).subscribed
    ensures w in Step(active, s, i).started <==> w in s.started || Mentions(i, w)
  {
    hide AcpToolCallId;
    if i.Deliver? && !i.event.body.ToolStarted? && !i.event.body.ToolDelta? {
      OtherEvents(active, s, i.event);
      hide OnMainEvent;
    }
  }

  /** What one event does to the text held for a raw id. */
  lemma ArgsByOneEvent(active: Option<nat>, s: State, e: Event, id: string)
    requires s.subscribed && !s.settled && OnMainEvent(active, s, e).subscribed
    ensures var t := OnMainEvent(active, s, e);
      if (e.body.ToolStarted? || e.body.ToolDelta?) && e.body.id == id then
        && id in t.args
        && t.args[id] == (
             if e.body.ToolStarted? then e.body.args
             else (if AcpToolCallId(e.body.turn, id) in s.started && id in s.args then s.args[id] else "")
                  + OrEmpty(e.body.part))
      else id in s.args ==> id in t.args && t.args[id] == s.args[id]
  {
    hide AcpToolCallId;
    if !e.body.ToolStarted? && !e.body.ToolDelta? {
      OtherEvents(active, s, e);
    }
  }

  lemma ArgsStep(active: Option<nat>, inputs: seq<Input>, j: nat, id: string)
    requires inputs != [] && LatestSeed(inputs, j, id)
    requires var s := Run(active, Prefix(inputs));
      && s.subscribed && !s.settled && Run(active, inputs).subscribed
      && (forall w :: w in s.started <==> Touched(Prefix(inputs), w))
      && (j < |inputs| - 1 ==>
            id in s.args && s.args[id] == SeedText(inputs[j]) + Fragments(Prefix(inputs[j + 1..]), id))
    ensures var t := Run(active, inputs);
      id in t.args && t.args[id] == SeedText(inputs[j]) + Fragments(inputs[j + 1..], id)
  {
    hide AcpToolCallId, Touched, OnMainEvent;
    var s, i := Run(active, Prefix(inputs)), Last(inputs);
    if IsMain(i) {
      ArgsByOneEvent(active, s, i.event, id);
    }
    if j == |inputs| - 1 {
      assert Fragments(inputs[j + 1..], id) == "";
    } else {
      var since := inputs[j + 1..];
      assert Last(since) == i;
      assert Fragments(since, id) == Fragments(Prefix(since), id) + FragmentOf(i, id);
      assert !Seeds(inputs, |inputs| - 1, id);
    }
  }

  /** A raw id some wire id of which has been mentioned has a latest seed. */
  lemma {:induction false} SeedExists(inputs: seq<Input>, turn: nat, id: string) returns (j: nat)
    requires Touched(inputs, AcpToolCallId(turn, id))
    ensures LatestSeed(inputs, j, id)
  {
    TouchedPrefix(inputs, AcpToolCallId(turn, id));
    SeedsPrefix(inputs, id);
    if Seeds(inputs, |inputs| - 1, id) {
      j := |inputs| - 1;
    } else {
      var last := Last(inputs);
      if Mentions(last, AcpToolCallId(turn, id)) {
        WireIdsAreDistinct(last.event.body.turn, last.event.body.id, turn, id);
        assert Touched(Prefix(inputs), AcpToolCallId(turn, id));
      }
      j := SeedExists(Prefix(inputs), turn, id);
    }
  }

  /** The CREATE or upgrade a seed causes carries the seed's text. */
  lemma SeedIsSent(active: Option<nat>, before: seq<Input>, e: Event, id: string)
    requires Open(active, before) && Seeds(before + [Deliver(e)], |before|, id)
    ensures var sent, more := Run(active, before).sent, Run(active, before + [Deliver(e)]).sent;
      && |more| > |sent| && more[..|sent|] == sent
      && (more[|sent|].Create? || (more[|sent|].StartUpgrade? && e.body.ToolStarted?))
      && (more[|sent|].Create? ==> (more[|sent|].pending <==> e.body.ToolDelta?))
      && more[|sent|].wire == AcpToolCallId(e.body.turn, id) && more[|sent|].text == SeedText(Deliver(e))
  {
    hide AcpToolCallId, Open, Touched;
    var inputs := before + [Deliver(e)];
    assert Prefix(inputs) == before && inputs[..|before|] == before;
    OpenRuns(active, before);
    ArgsAreCumulative(active, before);
    hide ArgsInvariant, Run;
    RunSnoc(active, before, Deliver(e));
    StartedAreTouched(active, before);
  }

  lemma RunSnoc(active: Option<nat>, before: seq<Input>, i: Input)
    ensures Run(active, before + [i]) == Step(active, Run(active, before), i)
  {
    assert Prefix(before + [i]) == before;
  }

  lemma StartedAreTouched(active: Option<nat>, before: seq<Input>)
    requires ArgsInvariant(active, before)
    ensures forall w :: w in Run(active, before).started <==> Touched(before, w)
  {
  }

  /** The seed's text and every fragment after it, up to and including e. */
  ghost function TextSince(before: seq<Input>, j: nat, e: Event): string
    requires j < |before| && e.body.ToolDelta?
  {
    SeedText(before[j]) + Fragments(before[j + 1..] + [Deliver(e)], e.body.id)
  }

  /**
   Any other fragment updates the card with the whole text so far: what the latest
   CREATE or start for that raw id carried, and every fragment since, in order.
   */
  lemma DeltaTextIsCumulative(active: Option<nat>, before: seq<Input>, e: Event)
    requires Open(active, before) && IsFromMainAgent(e) && e.body.ToolDelta?
    requires !Seeds(before + [Deliver(e)], |before|, e.body.id)
    ensures exists j: nat ::
      LatestSeed(before, j, e.body.id) &&
      Run(active, before + [Deliver(e)]).sent ==
        Run(active, before).sent + [ArgsUpdate(AcpToolCallId(e.body.turn, e.body.id), TextSince(before, j, e))]
  {
    hide AcpToolCallId, Touched, Open, LatestSeed, ArgsInvariant, Run;
    var inputs := before + [Deliver(e)];
    var turn, id := e.body.turn, e.body.id;
    RunSnoc(active, before, Deliver(e));
    assert inputs[..|before|] == before;
    OpenRuns(active, before);
    ArgsAreCumulative(active, before);
    var j := SeedExists(before, turn, id);
    TextHeld(active, before, j, turn, id);
    var since := before[j + 1..];
    assert Prefix(since + [Deliver(e)]) == since;
    var s := Run(active, before);
    assert s.args[id] + OrEmpty(e.body.part) == TextSince(before, j, e);
    assert Run(active, inputs).sent == s.sent + [ArgsUpdate(AcpToolCallId(turn, id), TextSince(before, j, e))];
  }

  lemma TextHeld(active: Option<nat>, before: seq<Input>, j: nat, turn: nat, id: string)
    requires ArgsInvariant(active, before) && LatestSeed(before, j, id) && Touched(before, AcpToolCallId(turn, id))
    ensures var s := Run(active, before);
      && AcpToolCallId(turn, id) in s.started
      && id in s.args && s.args[id] == SeedText(before[j]) + Fragments(before[j + 1..], id)
  {
  }
}
