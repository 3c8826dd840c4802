/** When an upstream stream becomes a completion, and that completion is determined by it. */
module SseCompletions {
  import opened Common
  import opened SseFraming
  import opened SseProjection
  import opened SseStates
  import opened SseTheorems

  // ----- success -----

  predicate ToolOk(tool: Option<ToolCall>) {
    tool.Some? && !tool.value.index.NoNumber? && tool.value.callee.Some?
  }

  predicate DeltaOk(d: Delta) {
    && !d.content.NotText? && !d.refusal.NotText? && !d.reasoning.NotText?
    && d.tools.Some? && forall tool | tool in d.tools.value :: ToolOk(tool)
  }

  predicate ChoiceOk(choice: Option<Choice>) {
    choice.Some? && !choice.value.index.NoNumber? && choice.value.delta.Some? && DeltaOk(choice.value.delta.value)
  }

  /** An event that reports an error, by its type or by a field. */
  predicate ReportsError(item: Item) {
    item.decoded.Object? && (item.kind == ERROR || item.decoded.event.flagged)
  }

  /** A JSON object that reports no error and whose choices are of the right types throughout. */
  predicate ItemOk(item: Item) {
    && item.decoded.Object? && !ReportsError(item)
    && item.decoded.event.choices.Some?
    && forall choice | choice in item.decoded.event.choices.value :: ChoiceOk(choice)
  }

  predicate HasChoice(item: Item) {
    item.decoded.Object? && item.decoded.event.choices.Some? && item.decoded.event.choices.value != []
  }

  lemma {:induction false} ToolsRead(tools: seq<Option<ToolCall>>)
    ensures ReadTools(tools).Ok? <==> forall tool | tool in tools :: ToolOk(tool)
  {
    if tools == [] {
    } else {
      var n := |tools| - 1;
      ToolsRead(tools[..n]);
      assert ReadTool(tools[n], n).Ok? <==> ToolOk(tools[n]);
      assert tools == tools[..n] + [tools[n]];
    }
  }

  lemma ChoiceReads(choice: Option<Choice>, position: nat)
    ensures ReadChoice(choice, position).Ok? <==> ChoiceOk(choice)
  {
    if choice.Some? && choice.value.delta.Some? && choice.value.delta.value.tools.Some? {
      ToolsRead(choice.value.delta.value.tools.value);
    }
  }

  lemma {:induction false} ChoicesRead(choices: seq<Option<Choice>>)
    ensures var r := ReadChoices(choices);
      (r.Ok? <==> forall choice | choice in choices :: ChoiceOk(choice)) && (r.Ok? ==> |r.value| == |choices|)
  {
    if choices == [] {
    } else {
      var n := |choices| - 1;
      ChoicesRead(choices[..n]);
      ChoiceReads(choices[n], n);
      assert choices == choices[..n] + [choices[n]];
    }
  }

  lemma ItemReads(item: Item)
    ensures var r := ReadEvent(item.kind, item.decoded);
      (r.Ok? <==> ItemOk(item)) && (r.Ok? ==> (r.value == [] <==> !HasChoice(item)))
  {
    if item.decoded.Object? && item.decoded.event.choices.Some? {
      ChoicesRead(item.decoded.event.choices.value);
    }
  }

  predicate AllOk(items: seq<Item>) {
    forall item | item in items :: ItemOk(item)
  }

  predicate AnyChoice(items: seq<Item>) {
    exists item | item in items :: HasChoice(item)
  }

  lemma NextItem(items: seq<Item>, item: Item)
    ensures AllOk(items + [item]) <==> AllOk(items) && ItemOk(item)
    ensures AnyChoice(items + [item]) <==> AnyChoice(items) || HasChoice(item)
  {
    forall x ensures x in items + [item] <==> x in items || x == item {
    }
    if AnyChoice(items) {
      var x :| x in items && HasChoice(x);
      assert x in items + [item];
    }
    if HasChoice(item) {
      assert item in items + [item];
    }
  }

  lemma {:induction false} ItemsRead(items: seq<Item>)
    ensures ReadItems(items).Ok? <==> AllOk(items)
    ensures ReadItems(items).Ok? ==> (ReadItems(items).value == [] <==> !AnyChoice(items))
  {
    if items == [] {
    } else {
      var n := |items| - 1;
      ItemsRead(items[..n]);
      ItemReads(items[n]);
      NextItem(items[..n], items[n]);
      assert items == items[..n] + [items[n]];
    }
  }

  /** A stream becomes a completion exactly when every event is well formed and reports no
      error, and some event holds a choice. */
  lemma CompletesIff(items: seq<Item>, r: Result<Completion, SseError>)
    requires Aggregates(items, r)
    ensures r.Ok? <==> AllOk(items) && AnyChoice(items)
  {
    ItemsRead(items);
  }

  /** What an event raises that cannot be read for another reason than one of its choices. */
  predicate Raises(item: Item, error: SseError) {
    match item.decoded
    case Malformed => error == MalformedJson
    case NotObject => error == NonObjectEvent
    case Object(event) =>
      if ReportsError(item) then error == UpstreamError(event.error)
      else event.choices.None? && error == ChoicesNotList
  }

  /** Behind readable events an event that is no object, or reports an error, is raised, with
      the message of the upstream, and whatever follows is ignored. */
  lemma FirstErrorIsRaised(before: seq<Item>, bad: Item, after: seq<Item>, error: SseError, r: Result<Completion, SseError>)
    requires AllOk(before)
    requires Raises(bad, error) && Aggregates(before + [bad] + after, r)
    ensures r == Err(error)
  {
    ItemsRead(before);
    ReadItemsAppend(before + [bad], after);
    ReadItemsAppend(before, [bad]);
    assert [bad][..0] == [] && ReadItems([]) == Ok([]);
    assert ReadItems([bad]) == Err(error);
  }

  // ----- the completion is determined -----

  lemma BelowLast(a: seq<int>, b: seq<int>, k: int)
    requires a != [] && b != [] && Ascending(a) && a[|a| - 1] == b[|b| - 1]
    requires k in a[..|a| - 1] && k in b
    ensures k in b[..|b| - 1]
  {
    assert b == b[..|b| - 1] + [b[|b| - 1]];
  }

  lemma HeadIn(xs: seq<int>)
    requires xs != []
    ensures xs[0] in xs
  {
  }

  lemma {:induction false} AscendingUnique(a: seq<int>, b: seq<int>)
    requires Ascending(a) && Ascending(b)
    requires (forall k | k in a :: k in b) && (forall k | k in b :: k in a)
    ensures a == b
  {
    if a == [] {
      if b != [] {
        HeadIn(b);
      }
    } else {
      HeadIn(a);
      var m, n := |a| - 1, |b| - 1;
      assert a[m] in a && b[n] in b;
      assert a[m] == b[n];
      forall k | k in a[..m] ensures k in b[..n] { BelowLast(a, b, k); }
      forall k | k in b[..n] ensures k in a[..m] { BelowLast(b, a, k); }
      AscendingUnique(a[..m], b[..n]);
      assert a == a[..m] + [a[m]] && b == b[..n] + [b[n]];
    }
  }

  lemma ToolsDetermined(a: seq<OutTool>, b: seq<OutTool>, choice: int, tools: map<int, ToolState>, j: seq<int>, k: seq<int>)
    requires Ascending(j) && (forall i :: i in j <==> i in tools) && IsTools(a, choice, tools, j)
    requires Ascending(k) && (forall i :: i in k <==> i in tools) && IsTools(b, choice, tools, k)
    ensures a == b
  {
    AscendingUnique(j, k);
  }

  lemma ChoiceDetermined(a: OutChoice, b: OutChoice, index: int, state: ChoiceState)
    requires IsChoice(a, index, state) && IsChoice(b, index, state)
    ensures a == b
  {
    var j :| Ascending(j) && (forall i :: i in j <==> i in state.tools) && IsTools(a.tools, index, state.tools, j);
    var k :| Ascending(k) && (forall i :: i in k <==> i in state.tools) && IsTools(b.tools, index, state.tools, k);
    ToolsDetermined(a.tools, b.tools, index, state.tools, j, k);
  }

  function IndexOf(c: OutChoice): int { c.index }

  lemma EmittedIndices(choices: seq<OutChoice>, states: map<int, ChoiceState>)
    requires Emitted(choices, states)
    ensures Ascending(Map(IndexOf, choices)) && forall k :: k in Map(IndexOf, choices) <==> k in states
  {
    var indices := Map(IndexOf, choices);
    forall k ensures k in indices <==> k in states {
      if k in indices {
        var i :| 0 <= i < |indices| && indices[i] == k;
        assert choices[i].index == k;
      }
      if k in states {
        var i :| 0 <= i < |choices| && choices[i].index == k;
        assert indices[i] == k;
      }
    }
  }

  lemma EmittedDetermined(a: seq<OutChoice>, b: seq<OutChoice>, states: map<int, ChoiceState>)
    requires Emitted(a, states) && Emitted(b, states)
    ensures a == b
  {
    EmittedIndices(a, states);
    EmittedIndices(b, states);
    AscendingUnique(Map(IndexOf, a), Map(IndexOf, b));
    forall i | 0 <= i < |a| ensures a[i] == b[i] {
      assert Map(IndexOf, a)[i] == Map(IndexOf, b)[i];
      ChoiceDetermined(a[i], b[i], a[i].index, states[a[i].index]);
    }
  }

  /** The events of a stream leave no freedom: they determine the completion or the error. */
  lemma Determined(items: seq<Item>, r: Result<Completion, SseError>, q: Result<Completion, SseError>)
    requires Aggregates(items, r) && Aggregates(items, q)
    ensures r == q
  {
    if ReadItems(items).Ok? && ReadItems(items).value != [] {
      EmittedDetermined(r.value.choices, q.value.choices, StatesOf(ReadItems(items).value));
    }
  }

  // ----- a completion sent as one event -----

  function FieldOf(text: Option<string>): TextField {
    if text.None? then Absent else Is(text.value)
  }

  function GivenId(id: ToolIdentity): string {
    if id.Given? then id.id else ""
  }

  function CallOf(tool: OutTool): Option<ToolCall> {
    Some(ToolCall(Missing, GivenId(tool.id), tool.kind, Some(Call(tool.name, tool.arguments))))
  }

  function MessageOf(c: OutChoice): Option<Choice> {
    Some(Choice(Number(c.index),
                Some(Delta(c.role, FieldOf(c.content), FieldOf(c.refusal), FieldOf(c.reasoning), Some(Map(CallOf, c.tools)))),
                Some(c.finish)))
  }

  /** The completion as the one event of a stream. */
  function EventOf(completion: Completion): Item {
    var m := completion.meta;
    Item([], Object(Event(false, "", m.id, m.model, m.created, m.usage, Some(Map(MessageOf, completion.choices)))))
  }

  predicate TextShown(text: Option<string>) {
    text.Some? ==> text.value != ""
  }

  predicate ToolShown(tool: OutTool, choice: int, rank: nat) {
    tool.kind != "" && match tool.id case Given(id) => id != "" case Generated(c, r) => c == choice && r == rank
  }

  /** No empty field is shown, and the ids made up name the choice and the place of the call. */
  predicate ChoiceShown(c: OutChoice) {
    && c.role != "" && TextShown(c.content) && TextShown(c.refusal) && TextShown(c.reasoning)
    && forall r: nat | r < |c.tools| :: ToolShown(c.tools[r], c.index, r)
  }

  ghost predicate Shown(completion: Completion) {
    && completion.meta.id != "" && completion.meta.model != ""
    && completion.choices != [] && Ascending(Map(IndexOf, completion.choices))
    && forall i | 0 <= i < |completion.choices| :: ChoiceShown(completion.choices[i])
  }

  /** What CallOf is read as, at its place in the message. */
  function PieceOfTool(tool: OutTool, rank: int): ToolPiece {
    ToolPiece(rank, GivenId(tool.id), tool.kind, tool.name, tool.arguments)
  }

  function PiecesOfTools(tools: seq<OutTool>): seq<ToolPiece> {
    if tools == [] then []
    else
      var n := |tools| - 1;
      PiecesOfTools(tools[..n]) + [PieceOfTool(tools[n], n)]
  }

  function PieceOf(c: OutChoice): Piece {
    Piece(c.index, c.role, TextOf(FieldOf(c.content)), TextOf(FieldOf(c.refusal)), TextOf(FieldOf(c.reasoning)),
          PiecesOfTools(c.tools), Some(c.finish))
  }

  lemma {:induction false} CallsRead(tools: seq<OutTool>)
    ensures ReadTools(Map(CallOf, tools)) == Ok(PiecesOfTools(tools))
  {
    if tools == [] {
    } else {
      var n := |tools| - 1;
      CallsRead(tools[..n]);
      assert Map(CallOf, tools)[..n] == Map(CallOf, tools[..n]);
    }
  }

  lemma MessageReads(c: OutChoice, position: nat)
    ensures ReadChoice(MessageOf(c), position) == Ok(PieceOf(c))
  {
    CallsRead(c.tools);
  }

  lemma NextChoiceReads(choices: seq<Option<Choice>>, pieces: seq<Piece>, choice: Option<Choice>, piece: Piece)
    requires ReadChoices(choices) == Ok(pieces) && ReadChoice(choice, |choices|) == Ok(piece)
    ensures ReadChoices(choices + [choice]) == Ok(pieces + [piece])
  {
    assert (choices + [choice])[..|choices|] == choices;
  }

  lemma {:induction false} MessagesRead(choices: seq<OutChoice>)
    ensures ReadChoices(Map(MessageOf, choices)) == Ok(Map(PieceOf, choices))
  {
    if choices == [] {
    } else {
      var n := |choices| - 1;
      var front, c := choices[..n], choices[n];
      MessagesRead(front);
      MessageReads(c, n);
      NextChoiceReads(Map(MessageOf, front), Map(PieceOf, front), MessageOf(c), PieceOf(c));
      MapAppend(MessageOf, front, c);
      MapAppend(PieceOf, front, c);
      assert front + [c] == choices;
    }
  }

  lemma EventRead(completion: Completion)
    ensures ReadItems([EventOf(completion)]) == Ok(Map(PieceOf, completion.choices))
  {
    var item := EventOf(completion);
    MessagesRead(completion.choices);
    assert [item][..0] == [] && ReadItems([]) == Ok([]);
    assert [] + Map(PieceOf, completion.choices) == Map(PieceOf, completion.choices);
  }

  function StateOfTool(tool: OutTool): ToolState {
    ToolState(GivenId(tool.id), tool.kind, tool.name, tool.arguments)
  }

  lemma NewTool(tool: OutTool, rank: int)
    requires tool.kind != ""
    ensures AddTool(NEW_TOOL, PieceOfTool(tool, rank)) == StateOfTool(tool)
  {
    assert "" + tool.arguments == tool.arguments;
  }

  /** One entry for each call, under its place. */
  ghost predicate StatesMatch(states: map<int, ToolState>, tools: seq<OutTool>) {
    && (forall k :: k in states <==> 0 <= k < |tools|)
    && (forall r | 0 <= r < |tools| :: states[r] == StateOfTool(tools[r]))
  }

  lemma MatchNext(states: map<int, ToolState>, tools: seq<OutTool>, tool: OutTool)
    requires StatesMatch(states, tools)
    ensures StatesMatch(states[|tools| := StateOfTool(tool)], tools + [tool])
  {
  }

  lemma {:induction false} ToolStates(tools: seq<OutTool>)
    requires forall tool | tool in tools :: tool.kind != ""
    ensures StatesMatch(ToolsOf(PiecesOfTools(tools)), tools)
  {
    if tools == [] {
    } else {
      var n := |tools| - 1;
      var states := ToolsOf(PiecesOfTools(tools[..n]));
      ToolStates(tools[..n]);
      NewTool(tools[n], n);
      ToolsOfAppend(PiecesOfTools(tools[..n]), PieceOfTool(tools[n], n));
      MatchNext(states, tools[..n], tools[n]);
      assert tools[..n] + [tools[n]] == tools;
    }
  }

  function Ranks(n: nat): seq<int> {
    seq(n, i => i)
  }

  lemma ToolsShown(c: OutChoice, states: map<int, ToolState>)
    requires ChoiceShown(c)
    requires StatesMatch(states, c.tools)
    ensures exists keys :: Ascending(keys) && (forall k :: k in keys <==> k in states) && IsTools(c.tools, c.index, states, keys)
  {
    var keys := Ranks(|c.tools|);
    forall k ensures k in keys <==> k in states {
      if 0 <= k < |c.tools| {
        assert keys[k] == k;
      }
    }
    forall r | 0 <= r < |keys|
      ensures keys[r] in states && c.tools[r] == OutTool(if states[keys[r]].id != "" then Given(states[keys[r]].id) else Generated(c.index, r),
        states[keys[r]].kind, states[keys[r]].name, states[keys[r]].arguments)
    {
      assert ToolShown(c.tools[r], c.index, r);
    }
    assert IsTools(c.tools, c.index, states, keys);
  }

  lemma NoPieces()
    ensures StateOf([]) == NEW_CHOICE
  {
    assert ToolIndices([]) == {};
    assert Map(Role, []) == [] && Map(Content, []) == [] && Map(Refusal, []) == [] && Map(Reasoning, []) == [];
    assert Map(Finish, []) == [];
  }

  lemma OnePiece(p: Piece)
    ensures var state := StateOf([p]);
      && state.role == (if p.role != "" then p.role else "assistant") && state.finish == p.finish
      && state.content == p.content && state.refusal == p.refusal && state.reasoning == p.reasoning
      && state.tools == ToolsOf(p.tools)
  {
    assert "" + p.content == p.content && "" + p.refusal == p.refusal && "" + p.reasoning == p.reasoning;
    NoPieces();
    StateOfAppend([], p);
    assert [] + [p] == [p];
    assert AllTools([]) + p.tools == p.tools;
  }

  lemma ChoiceRoundTrip(c: OutChoice)
    requires ChoiceShown(c)
    ensures IsChoice(c, c.index, StateOf([PieceOf(c)]))
  {
    OnePiece(PieceOf(c));
    forall tool | tool in c.tools ensures tool.kind != "" {
      var r: nat :| r < |c.tools| && c.tools[r] == tool;
      assert ToolShown(c.tools[r], c.index, r);
    }
    ToolStates(c.tools);
    ToolsShown(c, ToolsOf(PiecesOfTools(c.tools)));
  }

  lemma {:induction false} OnlyOne(choices: seq<OutChoice>, i: nat)
    requires i < |choices| && forall j, k | 0 <= j < k < |choices| :: choices[j].index != choices[k].index
    ensures Only(Map(PieceOf, choices), choices[i].index) == [PieceOf(choices[i])]
  {
    var n := |choices| - 1;
    var front := Map(PieceOf, choices[..n]);
    assert Map(PieceOf, choices) == front + [PieceOf(choices[n])];
    OnlySnoc(front, PieceOf(choices[n]), choices[i].index);
    if i < n {
      OnlyOne(choices[..n], i);
    } else {
      OnlyEmpty(front, choices[n].index);
    }
  }

  lemma ChoicesRoundTrip(choices: seq<OutChoice>)
    requires Ascending(Map(IndexOf, choices)) && forall i | 0 <= i < |choices| :: ChoiceShown(choices[i])
    ensures Emitted(choices, StatesOf(Map(PieceOf, choices)))
  {
    var pieces, indices := Map(PieceOf, choices), Map(IndexOf, choices);
    forall i, j | 0 <= i < j < |choices| ensures choices[i].index < choices[j].index {
      assert indices[i] < indices[j];
    }
    forall k ensures k in StatesOf(pieces) <==> exists i :: 0 <= i < |choices| && choices[i].index == k {
      if k in StatesOf(pieces) {
        var i :| 0 <= i < |pieces| && pieces[i].index == k;
        assert choices[i].index == k;
      }
      if i :| 0 <= i < |choices| && choices[i].index == k {
        assert pieces[i] in pieces;
      }
    }
    forall i | 0 <= i < |choices|
      ensures choices[i].index in StatesOf(pieces) && IsChoice(choices[i], choices[i].index, StatesOf(pieces)[choices[i].index])
    {
      assert pieces[i] in pieces;
      OnlyOne(choices, i);
      ChoiceRoundTrip(choices[i]);
    }
  }

  /** A completion sent as a single event is aggregated to itself, in every field. */
  lemma CompletionRoundTrip(completion: Completion, r: Result<Completion, SseError>)
    requires Shown(completion) && Aggregates([EventOf(completion)], r)
    ensures r == Ok(completion)
  {
    var item := EventOf(completion);
    EventRead(completion);
    ChoicesRoundTrip(completion.choices);
    assert [item][..0] == [] && MetaOf([]) == NEW_META;
    assert MetaOf([item]) == completion.meta;
    Determined([item], r, Ok(completion));
  }

  // ----- where a message is cut does not matter -----

  /** Two deltas of one choice in one. */
  function Joined(p: Piece, q: Piece): Piece {
    Piece(p.index, if q.role != "" then q.role else p.role, p.content + q.content, p.refusal + q.refusal,
          p.reasoning + q.reasoning, p.tools + q.tools, if q.finish.Some? then q.finish else p.finish)
  }

  lemma FieldsJoined(state: ChoiceState, p: Piece, q: Piece, before: map<int, ToolState>, after: map<int, ToolState>)
    ensures AddFields(AddFields(state, p).(tools := before), q).(tools := after) == AddFields(state, Joined(p, q)).(tools := after)
  {
    assert (state.content + p.content) + q.content == state.content + (p.content + q.content);
    assert (state.refusal + p.refusal) + q.refusal == state.refusal + (p.refusal + q.refusal);
    assert (state.reasoning + p.reasoning) + q.reasoning == state.reasoning + (p.reasoning + q.reasoning);
  }

  ghost predicate Alike(a: seq<Piece>, b: seq<Piece>) {
    StateOf(a) == StateOf(b) && AllTools(a) == AllTools(b)
  }

  lemma AllToolsJoined(before: seq<Piece>, p: Piece, q: Piece)
    ensures AllTools(before + [p]) + q.tools == AllTools(before) + Joined(p, q).tools
    ensures AllTools(before + [p] + [q]) == AllTools(before + [Joined(p, q)])
  {
    AllToolsAppend(before, p);
    AllToolsAppend(before + [p], q);
    AllToolsAppend(before, Joined(p, q));
    assert AllTools(before) + p.tools + q.tools == AllTools(before) + (p.tools + q.tools);
  }

  lemma DeltasJoined(before: seq<Piece>, p: Piece, q: Piece)
    ensures Alike(before + [p] + [q], before + [Joined(p, q)])
  {
    StateOfAppend(before, p);
    StateOfAppend(before + [p], q);
    StateOfAppend(before, Joined(p, q));
    AllToolsJoined(before, p, q);
    FieldsJoined(StateOf(before), p, q, ToolsOf(AllTools(before) + p.tools), ToolsOf(AllTools(before + [p]) + q.tools));
  }

  lemma AlikeNext(a: seq<Piece>, b: seq<Piece>, p: Piece)
    requires Alike(a, b)
    ensures Alike(a + [p], b + [p])
  {
    StateOfAppend(a, p);
    StateOfAppend(b, p);
    AllToolsAppend(a, p);
    AllToolsAppend(b, p);
  }

  lemma SplitLast<T>(a: seq<T>, b: seq<T>)
    requires b != []
    ensures a + b == (a + b[..|b| - 1]) + [b[|b| - 1]]
  {
  }

  lemma {:induction false} AlikeBefore(a: seq<Piece>, b: seq<Piece>, after: seq<Piece>)
    requires Alike(a, b)
    ensures Alike(a + after, b + after)
  {
    if after == [] {
      assert a + [] == a && b + [] == b;
    } else {
      var n := |after| - 1;
      SplitLast(a, after);
      SplitLast(b, after);
      AlikeBefore(a, b, after[..n]);
      AlikeNext(a + after[..n], b + after[..n], after[n]);
    }
  }

  lemma OnlyAround(before: seq<Piece>, middle: seq<Piece>, after: seq<Piece>, i: int)
    ensures Only(before + middle + after, i) == Only(before, i) + Only(middle, i) + Only(after, i)
  {
    OnlyAppend(before + middle, after, i);
    OnlyAppend(before, middle, i);
  }

  lemma OnlyPair(p: Piece, q: Piece, i: int)
    requires p.index == q.index
    ensures Only([p, q], i) == if i == p.index then [p, q] else []
    ensures Only([Joined(p, q)], i) == if i == p.index then [Joined(p, q)] else []
  {
    OnlySnoc([], p, i);
    OnlySnoc([p], q, i);
    OnlySnoc([], Joined(p, q), i);
    assert [p, q] == [p] + [q] && [] + [p] == [p] && [] + [Joined(p, q)] == [Joined(p, q)];
  }

  lemma StateJoined(before: seq<Piece>, p: Piece, q: Piece, after: seq<Piece>, i: int)
    requires p.index == q.index
    ensures StateOf(Only(before + [p, q] + after, i)) == StateOf(Only(before + [Joined(p, q)] + after, i))
  {
    OnlyAround(before, [p, q], after, i);
    OnlyAround(before, [Joined(p, q)], after, i);
    OnlyPair(p, q, i);
    if i == p.index {
      var own := Only(before, i);
      DeltasJoined(own, p, q);
      assert own + [p] + [q] == own + [p, q];
      AlikeBefore(own + [p] + [q], own + [Joined(p, q)], Only(after, i));
    }
  }

  /** A delta of a choice may be cut in two anywhere: what a choice becomes depends on its
      text alone, not on how the upstream cuts it up. */
  lemma CutsDoNotMatter(before: seq<Piece>, p: Piece, q: Piece, after: seq<Piece>)
    requires p.index == q.index
    ensures StatesOf(before + [p, q] + after) == StatesOf(before + [Joined(p, q)] + after)
  {
    var x, y := before + [p, q] + after, before + [Joined(p, q)] + after;
    assert Indices(x) == Indices(y) by {
      IndicesAppend(before + [p, q], after);
      IndicesAppend(before, [p, q]);
      IndicesAppend(before + [Joined(p, q)], after);
      IndicesAppend(before, [Joined(p, q)]);
      IndicesAppend([p], [q]);
      assert [p, q] == [p] + [q];
    }
    forall i | i in Indices(x) ensures StateOf(Only(x, i)) == StateOf(Only(y, i)) {
      StateJoined(before, p, q, after, i);
    }
  }

  /** Two pieces of one tool call in one. */
  function JoinedTool(t: ToolPiece, u: ToolPiece): ToolPiece {
    ToolPiece(t.index, if u.id != "" then u.id else t.id, if u.kind != "" then u.kind else t.kind,
              if u.name != "" then u.name else t.name, t.arguments + u.arguments)
  }

  lemma EntryJoined(entry: ToolState, t: ToolPiece, u: ToolPiece)
    ensures AddTool(AddTool(entry, t), u) == AddTool(entry, JoinedTool(t, u))
  {
    assert (entry.arguments + t.arguments) + u.arguments == entry.arguments + (t.arguments + u.arguments);
  }

  lemma SecondUpdateWins<V>(states: map<int, V>, key: int, first: V, second: V)
    ensures states[key := first][key := second] == states[key := second] && states[key := first][key] == first
  {
  }

  lemma ToolJoined(tools: seq<ToolPiece>, t: ToolPiece, u: ToolPiece)
    requires t.index == u.index
    ensures ToolsOf(tools + [t] + [u]) == ToolsOf(tools + [JoinedTool(t, u)])
  {
    ToolsOfAppend(tools, t);
    ToolsOfAppend(tools + [t], u);
    ToolsOfAppend(tools, JoinedTool(t, u));
    var entry := if t.index in ToolsOf(tools) then ToolsOf(tools)[t.index] else NEW_TOOL;
    EntryJoined(entry, t, u);
    SecondUpdateWins(ToolsOf(tools), t.index, AddTool(entry, t), AddTool(entry, JoinedTool(t, u)));
  }

  lemma ToolsAlikeNext(a: seq<ToolPiece>, b: seq<ToolPiece>, t: ToolPiece)
    requires ToolsOf(a) == ToolsOf(b)
    ensures ToolsOf(a + [t]) == ToolsOf(b + [t])
  {
    ToolsOfAppend(a, t);
    ToolsOfAppend(b, t);
  }

  /** The same of one tool call: its arguments may be cut anywhere. */
  lemma {:induction false} ToolCutsDoNotMatter(before: seq<ToolPiece>, t: ToolPiece, u: ToolPiece, after: seq<ToolPiece>)
    requires t.index == u.index
    ensures ToolsOf(before + [t] + [u] + after) == ToolsOf(before + [JoinedTool(t, u)] + after)
  {
    if after == [] {
      ToolJoined(before, t, u);
      assert before + [t] + [u] + [] == before + [t] + [u];
      assert before + [JoinedTool(t, u)] + [] == before + [JoinedTool(t, u)];
    } else {
      var n := |after| - 1;
      var x, y := before + [t] + [u] + after[..n], before + [JoinedTool(t, u)] + after[..n];
      ToolCutsDoNotMatter(before, t, u, after[..n]);
      ToolsAlikeNext(x, y, after[n]);
      assert before + [t] + [u] + after == x + [after[n]] && before + [JoinedTool(t, u)] + after == y + [after[n]];
    }
  }

  // ----- every completion can be sent again -----

  predicate KindGiven(state: ToolState) {
    state.kind != ""
  }

  lemma ToolIsShown(tool: OutTool, choice: int, rank: nat, state: ToolState)
    requires KindGiven(state)
    requires tool == OutTool(if state.id != "" then Given(state.id) else Generated(choice, rank), state.kind, state.name, state.arguments)
    ensures ToolShown(tool, choice, rank)
  {
  }

  lemma ToolsAreShown(tools: seq<OutTool>, choice: int, states: map<int, ToolState>, keys: seq<int>)
    requires IsTools(tools, choice, states, keys) && forall k | k in states :: KindGiven(states[k])
    ensures forall r: nat | r < |tools| :: ToolShown(tools[r], choice, r)
  {
    forall r: nat | r < |tools| ensures ToolShown(tools[r], choice, r) {
      var k := keys[r];
      assert k in states;
      ToolIsShown(tools[r], choice, r, states[k]);
    }
  }

  lemma {:induction false} LastTextNotEmpty(texts: seq<string>, default: string)
    requires default != ""
    ensures LastText(texts, default) != ""
  {
    if texts == [] {
    } else if texts[|texts| - 1] == "" {
      LastTextNotEmpty(texts[..|texts| - 1], default);
    }
  }

  lemma StateGiven(deltas: seq<Piece>)
    ensures var state := StateOf(deltas);
      state.role != "" && forall k | k in state.tools :: KindGiven(state.tools[k])
  {
    LastTextNotEmpty(Map(Role, deltas), "assistant");
    var tools := AllTools(deltas);
    forall k | k in ToolsOf(tools) ensures KindGiven(ToolsOf(tools)[k]) {
      LastTextNotEmpty(Map(ToolKind, OnlyTool(tools, k)), "function");
    }
  }

  lemma StateShown(out: OutChoice, index: int, state: ChoiceState)
    requires IsChoice(out, index, state) && state.role != "" && forall k | k in state.tools :: KindGiven(state.tools[k])
    ensures ChoiceShown(out)
  {
    var keys :| Ascending(keys) && (forall i :: i in keys <==> i in state.tools) && IsTools(out.tools, index, state.tools, keys);
    ToolsAreShown(out.tools, index, state.tools, keys);
  }

  lemma {:induction false} MetaShown(items: seq<Item>)
    ensures MetaOf(items).id != "" && MetaOf(items).model != ""
  {
    if items == [] {
    } else {
      MetaShown(items[..|items| - 1]);
    }
  }

  /** Aggregating an aggregated completion again changes nothing, whatever the stream was. */
  lemma AggregationSettles(items: seq<Item>, r: Result<Completion, SseError>, again: Result<Completion, SseError>)
    requires Aggregates(items, r) && r.Ok? && Aggregates([EventOf(r.value)], again)
    ensures again == r
  {
    var choices, pieces := r.value.choices, ReadItems(items).value;
    MetaShown(items);
    EmittedIndices(choices, StatesOf(pieces));
    assert choices != [] by {
      assert pieces[0].index in StatesOf(pieces);
    }
    forall i | 0 <= i < |choices| ensures ChoiceShown(choices[i]) {
      var index := choices[i].index;
      StateGiven(Only(pieces, index));
      StateShown(choices[i], index, StatesOf(pieces)[index]);
    }
    CompletionRoundTrip(r.value, again);
  }

  // ----- the fields of the whole completion -----

  predicate NoId(items: seq<Item>) {
    forall i | i in items && i.decoded.Object? :: i.decoded.event.id == ""
  }

  predicate NoModel(items: seq<Item>) {
    forall i | i in items && i.decoded.Object? :: i.decoded.event.model == ""
  }

  predicate NoCreated(items: seq<Item>) {
    forall i | i in items && i.decoded.Object? :: i.decoded.event.created.None?
  }

  predicate NoUsage(items: seq<Item>) {
    forall i | i in items && i.decoded.Object? :: i.decoded.event.usage.None?
  }

  /** Each of them is the one of the last event that has it. */
  lemma {:induction false} MetaIsLast(before: seq<Item>, x: Item, after: seq<Item>)
    requires x.decoded.Object?
    ensures var m, e := MetaOf(before + [x] + after), x.decoded.event;
      && (e.id != "" && NoId(after) ==> m.id == e.id)
      && (e.model != "" && NoModel(after) ==> m.model == e.model)
      && (e.created.Some? && NoCreated(after) ==> m.created == e.created)
      && (e.usage.Some? && NoUsage(after) ==> m.usage == e.usage)
  {
    var items := before + [x] + after;
    if after == [] {
      assert items[..|items| - 1] == before;
    } else {
      var n := |after| - 1;
      assert after == after[..n] + [after[n]];
      assert items[..|items| - 1] == before + [x] + after[..n];
      MetaIsLast(before, x, after[..n]);
    }
  }

  // ----- the end marker -----

  predicate AllSpace(s: Bytes) {
    forall i | 0 <= i < |s| :: IsSpace(s[i])
  }

  lemma {:induction false} LeftSpaces(a: Bytes, s: Bytes)
    requires AllSpace(a) && s != [] && !IsSpace(s[0])
    ensures StripLeft(a + s) == s
  {
    if a == [] {
      assert a + s == s;
    } else {
      assert (a + s)[1..] == a[1..] + s;
      LeftSpaces(a[1..], s);
    }
  }

  lemma {:induction false} RightSpaces(s: Bytes, b: Bytes)
    requires AllSpace(b) && s != [] && !IsSpace(s[|s| - 1])
    ensures StripRight(s + b) == s
  {
    if b == [] {
      assert s + b == s;
    } else {
      assert (s + b)[..|s + b| - 1] == s + b[..|b| - 1];
      RightSpaces(s, b[..|b| - 1]);
    }
  }

  /** The end marker may stand between spaces; it ends nothing and is not decoded. */
  lemma MarkerSkipped(frames: seq<Frame>, a: Bytes, b: Bytes, event: Bytes, decode: Bytes -> Decoded)
    requires AllSpace(a) && AllSpace(b)
    ensures ItemsOf(frames + [Frame(event, [a + DONE + b])], decode) == ItemsOf(frames, decode)
  {
    var data := a + DONE + b;
    var all := frames + [Frame(event, [data])];
    assert data == a + (DONE + b);
    LeftSpaces(a, DONE + b);
    RightSpaces(DONE, b);
    assert all[..|all| - 1] == frames && JoinLines([data]) == data;
    assert ItemsOf(frames, decode) + [] == ItemsOf(frames, decode);
  }
}
