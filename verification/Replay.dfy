/**
 Replaying a stored history: one pass with a turn counter and a map from raw
 tool-call ids to turns, held against a reference that looks at the history only.
 Any push may fail; that costs the rest of its message and nothing else.
 */
module Replay {
  import opened Wrappers
  import opened WireIds

  datatype Part = Text(text: string) | Think(think: string) | Media

  datatype ToolCall = ToolCall(id: string, arguments: string)

  datatype Message =
    | User(content: seq<Part>)
    | Assistant(content: seq<Part>, toolCalls: seq<ToolCall>)
    | Tool(toolCallId: Option<string>, isError: bool, output: string)
    | Other

  datatype Update =
    | UserChunk(text: string)
    | MessageChunk(text: string)
    | ThoughtChunk(text: string)
    | Call(wire: string, arguments: string)
    | CallUpdate(wire: string, failed: bool, output: string)

  /** What a message is to send, and how many of those updates got through before the first that failed. */
  datatype Delivery = Delivery(all: seq<Update>, sent: nat)

  // The reference.

  /** How many assistant messages there are among the first n. */
  function Assistants(h: seq<Message>, n: nat): nat
    requires n <= |h|
  {
    if n == 0 then 0 else Assistants(h, n - 1) + if h[n - 1].Assistant? then 1 else 0
  }

  /** The turn of message i: its number among the assistant messages, from 1 on. */
  function TurnOf(h: seq<Message>, i: nat): nat
    requires i < |h|
  {
    Assistants(h, i + 1)
  }

  function PartUpdate(part: Part, user: bool): seq<Update> {
    match part
    case Text(t) => if t == "" then [] else if user then [UserChunk(t)] else [MessageChunk(t)]
    case Think(t) => if t == "" || user then [] else [ThoughtChunk(t)]
    case Media => []
  }

  function PartUpdates(parts: seq<Part>, user: bool): seq<Update> {
    if parts == [] then [] else PartUpdates(parts[..|parts| - 1], user) + PartUpdate(parts[|parts| - 1], user)
  }

  function CallUpdates(calls: seq<ToolCall>, turn: nat): seq<Update> {
    seq(|calls|, i requires 0 <= i < |calls| => Call(AcpToolCallId(turn, calls[i].id), calls[i].arguments))
  }

  function CallIds(calls: seq<ToolCall>): set<string> {
    set c | c in calls :: c.id
  }

  /** How many of a message's pushes were tried: up to the first failure. */
  function Tried(d: Delivery): nat {
    if d.sent < |d.all| then d.sent + 1 else |d.all|
  }

  /** The tool calls a message got as far as pushing. */
  function Reached(m: Message, d: Delivery): seq<ToolCall> {
    if !m.Assistant? || Tried(d) <= |PartUpdates(m.content, false)| then []
    else if Tried(d) - |PartUpdates(m.content, false)| >= |m.toolCalls| then m.toolCalls
    else m.toolCalls[..Tried(d) - |PartUpdates(m.content, false)|]
  }

  ghost predicate Issues(m: Message, d: Delivery, id: string) {
    id in CallIds(Reached(m, d))
  }

  /** Of the messages delivered so far, j is the latest to issue the raw id. */
  ghost predicate Owns(ds: seq<Delivery>, h: seq<Message>, j: nat, id: string)
    requires |ds| <= |h|
  {
    j < |ds| && Issues(h[j], ds[j], id) && forall k :: j < k < |ds| ==> !Issues(h[k], ds[k], id)
  }

  /** What the next message is to send. A result nobody asked for sends nothing. */
  ghost predicate Emits(ds: seq<Delivery>, h: seq<Message>, us: seq<Update>)
    requires |ds| < |h|
  {
    match h[|ds|]
    case User(content) => us == PartUpdates(content, true)
    case Assistant(content, calls) => us == PartUpdates(content, false) + CallUpdates(calls, TurnOf(h, |ds|))
    case Tool(Some(id), isError, output) =>
      if id != "" && exists j :: Owns(ds, h, j, id) then
        exists j: nat :: Owns(ds, h, j, id) && us == [CallUpdate(AcpToolCallId(TurnOf(h, j), id), isError, output)]
      else us == []
    case Tool(None, _, _) => us == []
    case Other => us == []
  }

  /** The deliveries of the first messages, each to send what those before it determine. */
  ghost predicate IsReplay(h: seq<Message>, ds: seq<Delivery>) {
    |ds| <= |h| && forall i :: 0 <= i < |ds| ==> Emits(ds[..i], h, ds[i].all) && ds[i].sent <= |ds[i].all|
  }

  function Sent(ds: seq<Delivery>): seq<Update> {
    if ds == [] then []
    else
      var d := ds[|ds| - 1];
      Sent(ds[..|ds| - 1]) + if d.sent < |d.all| then d.all[..d.sent] else d.all
  }

  // The map the pass keeps.

  /** The map of raw ids to turns is right about the messages delivered. */
  ghost predicate IsTable(ds: seq<Delivery>, h: seq<Message>, table: map<string, nat>)
    requires |ds| <= |h|
  {
    && (forall id, j: nat :: Owns(ds, h, j, id) ==> id in table && table[id] == TurnOf(h, j))
    && (forall id :: id in table ==> exists j: nat :: Owns(ds, h, j, id))
  }

  /** Setting each call's entry in turn. */
  function Record(table: map<string, nat>, calls: seq<ToolCall>, turn: nat): map<string, nat> {
    if calls == [] then table else Record(table, calls[..|calls| - 1], turn)[calls[|calls| - 1].id := turn]
  }

  lemma {:induction false} RecordMeans(table: map<string, nat>, calls: seq<ToolCall>, turn: nat)
    ensures Record(table, calls, turn).Keys == table.Keys + CallIds(calls)
    ensures forall id :: id in CallIds(calls) ==> Record(table, calls, turn)[id] == turn
    ensures forall id :: id in table && id !in CallIds(calls) ==> Record(table, calls, turn)[id] == table[id]
  {
    if calls != [] {
      var init := calls[..|calls| - 1];
      RecordMeans(table, init, turn);
      assert calls == init + [calls[|calls| - 1]];
      assert CallIds(calls) == CallIds(init) + {calls[|calls| - 1].id};
    }
  }

  /** One more delivery: it owns what it issues and leaves the rest as it was. */
  lemma OwnsNext(ds: seq<Delivery>, d: Delivery, h: seq<Message>)
    requires |ds| < |h|
    ensures forall j: nat, id {:trigger Owns(ds + [d], h, j, id)} {:trigger Owns(ds, h, j, id)} ::
      Owns(ds + [d], h, j, id) <==> if Issues(h[|ds|], d, id) then j == |ds| else Owns(ds, h, j, id)
  {
    hide Issues;
    var next := ds + [d];
    forall j: nat, id
      ensures Owns(next, h, j, id) <==> if Issues(h[|ds|], d, id) then j == |ds| else Owns(ds, h, j, id)
    {
      assert next[|ds|] == d && forall k :: 0 <= k < |ds| ==> next[k] == ds[k];
      if Owns(next, h, j, id) && j < |ds| {
        assert !Issues(h[|ds|], next[|ds|], id);
      }
    }
  }

  lemma TableNext(ds: seq<Delivery>, d: Delivery, h: seq<Message>, table: map<string, nat>)
    requires |ds| < |h| && IsTable(ds, h, table)
    ensures IsTable(ds + [d], h, Record(table, Reached(h[|ds|], d), TurnOf(h, |ds|)))
  {
    hide Assistants, Reached, Owns;
    var next, after := ds + [d], Record(table, Reached(h[|ds|], d), TurnOf(h, |ds|));
    RecordMeans(table, Reached(h[|ds|], d), TurnOf(h, |ds|));
    OwnsNext(ds, d, h);
    forall id | id in after ensures exists j: nat {:trigger Owns(next, h, j, id)} :: Owns(next, h, j, id) {
      if Issues(h[|ds|], d, id) {
        assert Owns(next, h, |ds|, id);
      } else {
        var j: nat :| Owns(ds, h, j, id);
        assert Owns(next, h, j, id);
      }
    }
  }

  lemma EmptyTable(h: seq<Message>)
    ensures IsTable([], h, map[])
  {
  }

  lemma {:induction false} PartUpdatesGrow(parts: seq<Part>, i: nat, user: bool)
    requires i <= |parts|
    ensures PartUpdates(parts[..i], user) <= PartUpdates(parts, user)
    decreases |parts|
  {
    if i == |parts| {
      assert parts[..i] == parts;
    } else {
      var init := parts[..|parts| - 1];
      PartUpdatesGrow(init, i, user);
      assert init[..i] == parts[..i];
    }
  }

  /** A part that fails to get through has cut the parts' updates short. */
  lemma PartFails(parts: seq<Part>, i: nat, user: bool)
    requires i < |parts| && PartUpdate(parts[i], user) != []
    ensures |PartUpdates(parts[..i], user)| < |PartUpdates(parts, user)|
    ensures PartUpdates(parts, user)[..|PartUpdates(parts[..i], user)|] == PartUpdates(parts[..i], user)
  {
    hide PartUpdates, PartUpdate;
    PartUpdatesGrow(parts, i + 1, user);
    OnePart(parts, i, user);
  }

  // The pass.

  class Replayer {
    var turnId: nat
    var toolCallTurnIds: map<string, nat>
    var sent: seq<Update>

    constructor ()
      ensures turnId == 0 && toolCallTurnIds == map[] && sent == []
    {
      turnId, toolCallTurnIds, sent := 0, map[], [];
    }

    /** The counter and the map after the messages delivered. */
    ghost predicate Tracks(h: seq<Message>, ds: seq<Delivery>)
      requires |ds| <= |h|
      reads this
    {
      turnId == Assistants(h, |ds|) && IsTable(ds, h, toolCallTurnIds)
    }

    /** sessionUpdate: false stands for a push that throws. */
    method Push(u: Update) returns (ok: bool)
      modifies this`sent
      ensures sent == if ok then old(sent) + [u] else old(sent)
    {
      ok := *;
      if ok {
        sent := sent + [u];
      }
    }

    method ReplayParts(parts: seq<Part>, user: bool) returns (ghost n: nat, ok: bool)
      modifies this`sent
      ensures n <= |PartUpdates(parts, user)| && sent == old(sent) + PartUpdates(parts, user)[..n]
      ensures ok <==> n == |PartUpdates(parts, user)|
    {
      hide PartUpdates;
      NoParts(parts, user);
      for i := 0 to |parts|
        invariant sent == old(sent) + PartUpdates(parts[..i], user)
      {
        OnePart(parts, i, user);
        var u := PartUpdate(parts[i], user);
        if u != [] {
          ok := Push(u[0]);
          if !ok {
            PartFails(parts, i, user);
            return |PartUpdates(parts[..i], user)|, false;
          }
        }
      }
      assert parts[..|parts|] == parts;
      return |PartUpdates(parts, user)|, true;
    }

    /** Each call is recorded before it is pushed. */
    method ReplayToolCalls(calls: seq<ToolCall>) returns (ghost n: nat, ok: bool)
      modifies this`sent, this`toolCallTurnIds
      ensures n <= |calls| && sent == old(sent) + CallUpdates(calls, turnId)[..n]
      ensures ok <==> n == |calls|
      ensures toolCallTurnIds == Record(old(toolCallTurnIds), if ok then calls else calls[..n + 1], turnId)
    {
      hide AcpToolCallId;
      for i := 0 to |calls|
        invariant sent == old(sent) + CallUpdates(calls, turnId)[..i]
        invariant toolCallTurnIds == Record(old(toolCallTurnIds), calls[..i], turnId)
      {
        assert calls[..i + 1][..i] == calls[..i];
        toolCallTurnIds := toolCallTurnIds[calls[i].id := turnId];
        ok := Push(Call(AcpToolCallId(turnId, calls[i].id), calls[i].arguments));
        if !ok {
          return i, false;
        }
      }
      assert calls[..|calls|] == calls;
      return |calls|, true;
    }

    /** A push that fails leaves the calls reached so far recorded, its own included. */
    method ReplayAssistant(content: seq<Part>, calls: seq<ToolCall>) returns (ghost d: Delivery)
      modifies this
      ensures turnId == old(turnId) + 1
      ensures d.all == PartUpdates(content, false) + CallUpdates(calls, turnId)
      ensures d.sent <= |d.all| && sent == old(sent) + d.all[..d.sent]
      ensures toolCallTurnIds == Record(old(toolCallTurnIds), Reached(Assistant(content, calls), d), turnId)
    {
      hide AcpToolCallId, PartUpdates, CallUpdates, Record, Reached;
      turnId := turnId + 1;
      ghost var n;
      var ok;
      n, ok := ReplayParts(content, false);
      ghost var parts, issued := PartUpdates(content, false), CallUpdates(calls, turnId);
      CallCount(calls, turnId);
      WhatIsReached(content, calls);
      NothingToRecord(toolCallTurnIds, turnId);
      if !ok {
        CutShort(parts, issued, n, 0);
        return Delivery(parts + issued, n);
      }
      ghost var k;
      k, ok := ReplayToolCalls(calls);
      CutShort(parts, issued, n, k);
      return Delivery(parts + issued, |parts| + k);
    }

    method ReplayMessage(ghost h: seq<Message>, ghost ds: seq<Delivery>, message: Message) returns (ghost d: Delivery)
      requires |ds| < |h| && h[|ds|] == message && Tracks(h, ds)
      modifies this
      ensures d.sent <= |d.all| && sent == old(sent) + d.all[..d.sent]
      ensures Emits(ds, h, d.all) && Tracks(h, ds + [d])
    {
      hide AcpToolCallId, PartUpdates, CallUpdates, Record, IsTable, Emits, Assistants, Reached;
      ghost var table := toolCallTurnIds;
      NextTurn(h, |ds|);
      WhatIsEmitted(ds, h);
      OnlyAssistantsCall(message);
      match message
      case User(content) =>
        ghost var n, ok := ReplayParts(content, true);
        d := Delivery(PartUpdates(content, true), n);
        NothingRecorded(ds, d, h, table);
      case Assistant(content, calls) =>
        d := ReplayAssistant(content, calls);
        TableNext(ds, d, h, table);
      case Tool(rawToolCallId, isError, output) =>
        d := Delivery([], 0);
        NothingRecorded(ds, d, h, table);
        if rawToolCallId == None || rawToolCallId.value == "" {
          return;
        }
        var id := rawToolCallId.value;
        ResultIsEmitted(ds, h, toolCallTurnIds);
        if id !in toolCallTurnIds {
          return;
        }
        var update := CallUpdate(AcpToolCallId(toolCallTurnIds[id], id), isError, output);
        var ok := Push(update);
        d := Delivery([update], if ok then 1 else 0);
        NothingRecorded(ds, d, h, table);
      case Other =>
        d := Delivery([], 0);
        NothingRecorded(ds, d, h, table);
    }

    /** A message that throws is logged and the next one taken up. */
    method ReplayHistory(history: seq<Message>) returns (ghost ds: seq<Delivery>)
      requires turnId == 0 && toolCallTurnIds == map[] && sent == []
      modifies this
      ensures IsReplay(history, ds) && |ds| == |history| && sent == Sent(ds)
    {
      hide Emits, IsTable;
      ds := [];
      EmptyTable(history);
      for i := 0 to |history|
        invariant |ds| == i && IsReplay(history, ds)
        invariant sent == Sent(ds) && Tracks(history, ds)
      {
        ghost var d := ReplayMessage(history, ds, history[i]);
        OneMoreDelivery(history, ds, d);
        ds := ds + [d];
      }
    }
  }

  lemma CutShort(parts: seq<Update>, issued: seq<Update>, n: nat, k: nat)
    requires n <= |parts| && k <= |issued|
    ensures (parts + issued)[..n] == parts[..n] && parts[..|parts|] == parts
    ensures (parts + issued)[..|parts| + k] == parts + issued[..k]
  {
  }

  lemma NextTurn(h: seq<Message>, n: nat)
    requires n < |h|
    ensures Assistants(h, n + 1) == Assistants(h, n) + if h[n].Assistant? then 1 else 0
  {
  }

  lemma WhatIsEmitted(ds: seq<Delivery>, h: seq<Message>)
    requires |ds| < |h|
    ensures var m := h[|ds|];
      && (m.User? ==> Emits(ds, h, PartUpdates(m.content, true)))
      && (m.Assistant? ==>
        Emits(ds, h, PartUpdates(m.content, false) + CallUpdates(m.toolCalls, Assistants(h, |ds| + 1))))
      && (m.Other? || (m.Tool? && m.toolCallId in {None, Some("")}) ==> Emits(ds, h, []))
  {
    hide PartUpdates, CallUpdates, Assistants;
  }

  /** The map answers as the history would. */
  lemma ResultIsEmitted(ds: seq<Delivery>, h: seq<Message>, table: map<string, nat>)
    requires |ds| < |h| && IsTable(ds, h, table)
    requires h[|ds|].Tool? && h[|ds|].toolCallId.Some? && h[|ds|].toolCallId.value != ""
    ensures var m := h[|ds|];
      var id := m.toolCallId.value;
      Emits(ds, h, if id in table then [CallUpdate(AcpToolCallId(table[id], id), m.isError, m.output)] else [])
  {
    hide AcpToolCallId, Owns, Assistants;
  }

  /** How far a message has got in its tool calls, by where its first failure was. */
  lemma WhatIsReached(content: seq<Part>, calls: seq<ToolCall>)
    ensures forall d: Delivery ::
      var parts, reached := |PartUpdates(content, false)|, Reached(Assistant(content, calls), d);
      && (d.sent < parts <= |d.all| ==> reached == [])
      && (|d.all| == parts + |calls| && parts <= d.sent <= |d.all| ==>
        reached == if d.sent < |d.all| then calls[..d.sent - parts + 1] else calls)
  {
  }

  lemma OnlyAssistantsCall(m: Message)
    ensures !m.Assistant? ==> forall d :: Reached(m, d) == []
  {
  }

  lemma NothingToRecord(table: map<string, nat>, turn: nat)
    ensures Record(table, [], turn) == table
  {
  }

  lemma NoParts(parts: seq<Part>, user: bool)
    ensures PartUpdates(parts[..0], user) == []
  {
  }

  lemma OnePart(parts: seq<Part>, i: nat, user: bool)
    requires i < |parts|
    ensures PartUpdates(parts[..i + 1], user) == PartUpdates(parts[..i], user) + PartUpdate(parts[i], user)
  {
    assert parts[..i + 1][..i] == parts[..i];
  }

  lemma CallCount(calls: seq<ToolCall>, turn: nat)
    ensures |CallUpdates(calls, turn)| == |calls|
  {
  }

  lemma NothingRecorded(ds: seq<Delivery>, d: Delivery, h: seq<Message>, table: map<string, nat>)
    requires |ds| < |h| && IsTable(ds, h, table) && Reached(h[|ds|], d) == []
    ensures IsTable(ds + [d], h, table)
  {
    TableNext(ds, d, h, table);
  }

  lemma OneMoreDelivery(h: seq<Message>, ds: seq<Delivery>, d: Delivery)
    requires IsReplay(h, ds) && |ds| < |h| && Emits(ds, h, d.all) && d.sent <= |d.all|
    ensures IsReplay(h, ds + [d]) && Sent(ds + [d]) == Sent(ds) + d.all[..d.sent]
  {
    hide Emits, Sent;
    SentNext(ds, d);
    var next := ds + [d];
    assert next[..|ds|] == ds;
    forall i | 0 <= i < |next| ensures Emits(next[..i], h, next[i].all) && next[i].sent <= |next[i].all| {
      if i < |ds| {
        assert next[..i] == ds[..i];
      }
    }
  }

  lemma SentNext(ds: seq<Delivery>, d: Delivery)
    requires d.sent <= |d.all|
    ensures Sent(ds + [d]) == Sent(ds) + d.all[..d.sent]
  {
    assert (ds + [d])[..|ds|] == ds && d.all[..|d.all|] == d.all;
  }

  // What the reference implies.

  lemma {:induction false} AssistantsGrow(h: seq<Message>, m: nat, n: nat)
    requires m <= n <= |h|
    ensures Assistants(h, m) <= Assistants(h, n)
    ensures forall i :: m <= i < n && h[i].Assistant? ==> Assistants(h, m) < Assistants(h, n)
    decreases n
  {
    if m < n {
      AssistantsGrow(h, m, n - 1);
    }
  }

  /** The i-th assistant message has turn i, whatever failed before, so a turn names one message. */
  lemma TurnsNameMessages(h: seq<Message>, i: nat, j: nat)
    requires i < j < |h| && h[j].Assistant?
    ensures TurnOf(h, i) < TurnOf(h, j)
  {
    AssistantsGrow(h, i + 1, j + 1);
  }

  lemma {:induction false} SentFrom(ds: seq<Delivery>, i: nat, k: nat)
    requires i < |ds| && k < ds[i].sent <= |ds[i].all|
    ensures |Sent(ds[..i])| + k < |Sent(ds)|
    ensures Sent(ds)[|Sent(ds[..i])| + k] == ds[i].all[k]
    decreases |ds|
  {
    if i < |ds| - 1 {
      SentFrom(ds[..|ds| - 1], i, k);
      assert ds[..|ds| - 1][..i] == ds[..i];
    }
  }

  /** A call with that wire id was sent. */
  ghost predicate WasSent(ds: seq<Delivery>, wire: string) {
    exists p :: 0 <= p < |Sent(ds)| && Sent(ds)[p].Call? && Sent(ds)[p].wire == wire
  }

  /** The push that failed in this delivery was the call with that wire id. */
  ghost predicate LostCall(d: Delivery, wire: string) {
    d.sent < |d.all| && d.all[d.sent].Call? && d.all[d.sent].wire == wire
  }

  /**
   A result names the latest preceding assistant message that got as far as issuing its
   raw id, and comes after that message's call with the same wire id, unless exactly
   the push of that call had failed.
   */
  lemma ResultFollowsCall(h: seq<Message>, ds: seq<Delivery>, i: nat)
    requires IsReplay(h, ds) && i < |ds| && h[i].Tool? && ds[i].all != []
    ensures h[i].toolCallId.Some? && |ds[i].all| == 1 && ds[i].all[0].CallUpdate?
    ensures exists j: nat ::
      && Owns(ds[..i], h, j, h[i].toolCallId.value)
      && ds[i].all == [CallUpdate(AcpToolCallId(TurnOf(h, j), h[i].toolCallId.value), h[i].isError, h[i].output)]
      && (WasSent(ds[..i], ds[i].all[0].wire) || LostCall(ds[j], ds[i].all[0].wire))
  {
    hide AcpToolCallId, Sent, PartUpdates, Issues;
    var before := ds[..i];
    assert Emits(before, h, ds[i].all);
    var id := h[i].toolCallId.value;
    var j: nat :| Owns(before, h, j, id) && ds[i].all == [CallUpdate(AcpToolCallId(TurnOf(h, j), id), h[i].isError, h[i].output)];
    assert before[j] == ds[j] && Emits(ds[..j], h, ds[j].all);
    var at := IssuedCall(ds[..j], h, ds[j], id);
    if at < ds[j].sent {
      SentFrom(before, j, at);
      assert WasSent(before, ds[i].all[0].wire);
    }
  }

  /** Among the updates tried is the call that issues the raw id. */
  lemma IssuedCall(ds: seq<Delivery>, h: seq<Message>, d: Delivery, id: string) returns (at: nat)
    requires |ds| < |h| && Emits(ds, h, d.all) && d.sent <= |d.all| && Issues(h[|ds|], d, id)
    ensures at < |d.all| && at <= d.sent
    ensures d.all[at].Call? && d.all[at].wire == AcpToolCallId(TurnOf(h, |ds|), id)
  {
    hide AcpToolCallId, PartUpdates, Assistants;
    var m := h[|ds|];
    var c :| c in Reached(m, d) && c.id == id;
    var k :| 0 <= k < |Reached(m, d)| && Reached(m, d)[k] == c;
    at := |PartUpdates(m.content, false)| + k;
    assert d.all[at] == CallUpdates(m.toolCalls, TurnOf(h, |ds|))[k];
  }

  /** History and failures leave no choice: everything sent is determined by them. */
  lemma {:induction false} ReplayIsDetermined(h: seq<Message>, ds: seq<Delivery>, es: seq<Delivery>)
    requires IsReplay(h, ds) && IsReplay(h, es) && |ds| == |es|
    requires forall i :: 0 <= i < |ds| ==> ds[i].sent == es[i].sent
    ensures ds == es
    decreases |ds|
  {
    hide Emits;
    if ds != [] {
      var last := |ds| - 1;
      forall i | 0 <= i < last ensures ds[..last][..i] == ds[..i] && es[..last][..i] == es[..i] {
      }
      ReplayIsDetermined(h, ds[..last], es[..last]);
      EmitsOnce(ds[..last], h, ds[last].all, es[last].all);
      assert ds == ds[..last] + [ds[last]] && es == es[..last] + [es[last]];
    }
  }

  lemma EmitsOnce(ds: seq<Delivery>, h: seq<Message>, us: seq<Update>, vs: seq<Update>)
    requires |ds| < |h| && Emits(ds, h, us) && Emits(ds, h, vs)
    ensures us == vs
  {
  }

  // What is sent, from the messages alone.

  datatype Voice = OfUser | OfAssistant

  /** A text, or a thought. */
  datatype Saying = Aloud(text: string) | Silently(text: string)

  /** What an update has that voice say. */
  ghost function Says(u: Update, voice: Voice): seq<Saying> {
    match (u, voice)
    case (UserChunk(t), OfUser) => [Aloud(t)]
    case (MessageChunk(t), OfAssistant) => [Aloud(t)]
    case (ThoughtChunk(t), OfAssistant) => [Silently(t)]
    case _ => []
  }

  ghost function Said(us: seq<Update>, voice: Voice): seq<Saying> {
    if us == [] then [] else Said(us[..|us| - 1], voice) + Says(us[|us| - 1], voice)
  }

  /** What a part holds that the voice can say: texts, of the assistant also thoughts, empty ones aside. */
  ghost function Holds(part: Part, voice: Voice): seq<Saying> {
    match part
    case Text(t) => if t != "" then [Aloud(t)] else []
    case Think(t) => if t != "" && voice == OfAssistant then [Silently(t)] else []
    case Media => []
  }

  ghost function Held(parts: seq<Part>, voice: Voice): seq<Saying> {
    if parts == [] then [] else Held(parts[..|parts| - 1], voice) + Holds(parts[|parts| - 1], voice)
  }

  ghost function MessageHolds(m: Message, voice: Voice): seq<Saying> {
    match m
    case User(content) => if voice == OfUser then Held(content, voice) else []
    case Assistant(content, _) => if voice == OfAssistant then Held(content, voice) else []
    case _ => []
  }

  ghost function AllHeld(h: seq<Message>, voice: Voice): seq<Saying> {
    if h == [] then [] else AllHeld(h[..|h| - 1], voice) + MessageHolds(h[|h| - 1], voice)
  }

  lemma {:induction false} SaidConcat(a: seq<Update>, b: seq<Update>, voice: Voice)
    ensures Said(a + b, voice) == Said(a, voice) + Said(b, voice)
    decreases |b|
  {
    if b == [] {
      assert a + b == a;
    } else {
      assert (a + b)[..|a + b| - 1] == a + b[..|b| - 1];
      SaidConcat(a, b[..|b| - 1], voice);
    }
  }

  lemma {:induction false} PartsSay(parts: seq<Part>, user: bool, voice: Voice)
    ensures Said(PartUpdates(parts, user), voice) ==
      if user == (voice == OfUser) then Held(parts, voice) else []
  {
    hide Said, PartUpdates, Held;
    if parts == [] {
      NoPartsSay(user, voice);
    } else {
      var n := |parts| - 1;
      PartsSay(parts[..n], user, voice);
      assert parts[..n + 1] == parts;
      OnePart(parts, n, user);
      SaidConcat(PartUpdates(parts[..n], user), PartUpdate(parts[n], user), voice);
      OneUpdateSays(PartUpdate(parts[n], user), voice);
      LastHeld(parts, voice);
    }
  }

  lemma NoPartsSay(user: bool, voice: Voice)
    ensures Said(PartUpdates([], user), voice) == [] && Held([], voice) == []
  {
  }

  lemma LastHeld(parts: seq<Part>, voice: Voice)
    requires parts != []
    ensures Held(parts, voice) == Held(parts[..|parts| - 1], voice) + Holds(parts[|parts| - 1], voice)
  {
  }

  lemma OneUpdateSays(us: seq<Update>, voice: Voice)
    requires |us| <= 1
    ensures Said(us, voice) == if us == [] then [] else Says(us[0], voice)
  {
    if us != [] {
      assert us[..0] == [];
    }
  }

  lemma {:induction false} CallsSayNothing(us: seq<Update>, voice: Voice)
    requires forall u :: u in us ==> u.Call? || u.CallUpdate?
    ensures Said(us, voice) == []
  {
    if us != [] {
      CallsSayNothing(us[..|us| - 1], voice);
      assert us[|us| - 1] in us;
    }
  }

  /** What a message is to send in each voice, whatever happens to it on the way. */
  lemma MessageSays(h: seq<Message>, ds: seq<Delivery>, i: nat, voice: Voice)
    requires IsReplay(h, ds) && i < |ds|
    ensures Said(ds[i].all, voice) == MessageHolds(h[i], voice)
  {
    hide PartUpdates, Said, Held;
    assert Emits(ds[..i], h, ds[i].all);
    match h[i]
    case User(content) => PartsSay(content, true, voice);
    case Assistant(content, calls) =>
      var calling := CallUpdates(calls, TurnOf(h, i));
      PartsSay(content, false, voice);
      CallsSayNothing(calling, voice);
      SaidConcat(PartUpdates(content, false), calling, voice);
    case _ => CallsSayNothing(ds[i].all, voice);
  }

  ghost predicate NothingFailed(ds: seq<Delivery>) {
    forall i :: 0 <= i < |ds| ==> ds[i].sent == |ds[i].all|
  }

  /**
   With no push failing, the client gets exactly what the history says, in order: the
   user's texts as user chunks, the assistant's texts as message chunks and its thoughts
   as thought chunks among them; empty ones are left out.
   */
  lemma {:induction false} TextsAreReplayed(h: seq<Message>, ds: seq<Delivery>, voice: Voice)
    requires IsReplay(h, ds) && NothingFailed(ds)
    ensures Said(Sent(ds), voice) == AllHeld(h[..|ds|], voice)
    decreases |ds|
  {
    hide AllHeld, Said, Sent, Emits, MessageHolds;
    if ds == [] {
      NothingSaid(h, voice);
    } else {
      var n := |ds| - 1;
      ShorterReplay(h, ds);
      TextsAreReplayed(h, ds[..n], voice);
      MessageSays(h, ds, n, voice);
      assert h[..|ds|][..n] == h[..n];
      LastSent(ds);
      SaidConcat(Sent(ds[..n]), ds[n].all, voice);
      OneMoreHeld(h[..|ds|], voice);
    }
  }

  lemma NothingSaid(h: seq<Message>, voice: Voice)
    ensures Said(Sent([]), voice) == [] && AllHeld(h[..0], voice) == []
  {
  }

  lemma LastSent(ds: seq<Delivery>)
    requires ds != [] && NothingFailed(ds)
    ensures Sent(ds) == Sent(ds[..|ds| - 1]) + ds[|ds| - 1].all
  {
  }

  lemma OneMoreHeld(h: seq<Message>, voice: Voice)
    requires h != []
    ensures AllHeld(h, voice) == AllHeld(h[..|h| - 1], voice) + MessageHolds(h[|h| - 1], voice)
  {
  }

  lemma ShorterReplay(h: seq<Message>, ds: seq<Delivery>)
    requires IsReplay(h, ds) && ds != []
    ensures IsReplay(h, ds[..|ds| - 1])
  {
    hide Emits;
    assert forall i :: 0 <= i < |ds| - 1 ==> ds[..|ds| - 1][..i] == ds[..i];
  }

  /** The turn of message i counts the assistant messages up to it, from 1 on. */
  lemma {:induction false} TurnsCount(h: seq<Message>, n: nat)
    requires n <= |h|
    ensures Assistants(h, n) == |set i: nat | i < n && h[i].Assistant?|
  {
    if n > 0 {
      TurnsCount(h, n - 1);
      var fewer := set i: nat | i < n - 1 && h[i].Assistant?;
      assert (set i: nat | i < n && h[i].Assistant?) == if h[n - 1].Assistant? then fewer + {n - 1} else fewer;
    }
  }

  /** The updates end with the tool calls, in order and whole, and no other is a call. */
  ghost predicate EndsInCalls(all: seq<Update>, calls: seq<ToolCall>, turn: nat) {
    && |all| >= |calls|
    && (forall u :: u in all[..|all| - |calls|] ==> !u.Call?)
    && forall k :: 0 <= k < |calls| ==>
         all[|all| - |calls| + k] == Call(AcpToolCallId(turn, calls[k].id), calls[k].arguments)
  }

  /** An assistant message ends with its tool calls, under its own turn; nothing else is a call. */
  lemma CallsAreReplayed(h: seq<Message>, ds: seq<Delivery>, i: nat)
    requires IsReplay(h, ds) && i < |ds|
    ensures EndsInCalls(ds[i].all, if h[i].Assistant? then h[i].toolCalls else [], TurnOf(h, i))
  {
    hide AcpToolCallId, PartUpdates, Assistants, CallUpdates, EndsInCalls;
    assert Emits(ds[..i], h, ds[i].all);
    match h[i]
    case User(content) =>
      PartsAreNoCalls(content, true);
      NoCallsAtEnd(ds[i].all, TurnOf(h, i));
    case Assistant(content, calls) =>
      PartsAreNoCalls(content, false);
      CallsAtEnd(PartUpdates(content, false), calls, TurnOf(h, i));
    case _ => NoCallsAtEnd(ds[i].all, TurnOf(h, i));
  }

  lemma CallsAtEnd(parts: seq<Update>, calls: seq<ToolCall>, turn: nat)
    requires forall u :: u in parts ==> !u.Call?
    ensures EndsInCalls(parts + CallUpdates(calls, turn), calls, turn)
  {
    hide AcpToolCallId;
    assert (parts + CallUpdates(calls, turn))[..|parts|] == parts;
  }

  lemma NoCallsAtEnd(all: seq<Update>, turn: nat)
    requires forall u :: u in all ==> !u.Call?
    ensures EndsInCalls(all, [], turn)
  {
    assert all[..|all|] == all;
  }

  lemma {:induction false} PartsAreNoCalls(parts: seq<Part>, user: bool)
    ensures forall u :: u in PartUpdates(parts, user) ==> !u.Call?
  {
    if parts != [] {
      PartsAreNoCalls(parts[..|parts| - 1], user);
    }
  }

  /** A call that has been sent finds its result sent later, unless the result has no id. */
  lemma ResultsAreNotDropped(h: seq<Message>, ds: seq<Delivery>, j: nat, k: nat, i: nat)
    requires IsReplay(h, ds) && j < i < |ds|
    requires h[j].Assistant? && k < |h[j].toolCalls|
    requires |ds[j].all| - |h[j].toolCalls| + k < ds[j].sent
    requires h[i].Tool? && h[i].toolCallId == Some(h[j].toolCalls[k].id) && h[j].toolCalls[k].id != ""
    ensures ds[i].all != []
  {
    hide AcpToolCallId, PartUpdates, Assistants, Issues;
    var id := h[j].toolCalls[k].id;
    assert Emits(ds[..j], h, ds[j].all) && Emits(ds[..i], h, ds[i].all);
    SentIsIssued(ds[..j], h, ds[j], k);
    var o := OwnerExists(ds[..i], h, j, id);
    assert Owns(ds[..i], h, o, id);
  }

  lemma SentIsIssued(ds: seq<Delivery>, h: seq<Message>, d: Delivery, k: nat)
    requires |ds| < |h| && Emits(ds, h, d.all) && h[|ds|].Assistant? && k < |h[|ds|].toolCalls|
    requires |d.all| - |h[|ds|].toolCalls| + k < d.sent <= |d.all|
    ensures Issues(h[|ds|], d, h[|ds|].toolCalls[k].id)
  {
    hide AcpToolCallId, PartUpdates, Assistants;
    assert h[|ds|].toolCalls[k] == Reached(h[|ds|], d)[k];
  }

  lemma {:induction false} OwnerExists(ds: seq<Delivery>, h: seq<Message>, j: nat, id: string) returns (o: nat)
    requires j < |ds| <= |h| && Issues(h[j], ds[j], id)
    ensures Owns(ds, h, o, id)
    decreases |ds| - j
  {
    hide Issues;
    if k :| j < k < |ds| && Issues(h[k], ds[k], id) {
      o := OwnerExists(ds, h, k, id);
    } else {
      o := j;
    }
  }
}
