/**
 The aggregation half of `_aggregate_openai_sse` (norax/gateway_proxy.py): many deltas,
 interleaved over choice indices and tool indices, become one completion. The methods keep
 one mutable state per choice index, as the source does, and are proved to give the projection.
 */
module SseAggregate {
  import opened Common
  import opened SseFraming
  import opened SseProjection
  import opened SseStates

  // ----- tool calls -----

  /** The tool-call loop of one delta. */
  method AddTools(entries: map<int, ToolState>, ghost earlier: seq<ToolPiece>, tools: seq<Option<ToolCall>>)
    returns (r: Result<map<int, ToolState>, SseError>)
    requires entries == ToolsOf(earlier)
    ensures ReadTools(tools).Ok? ==> r == Ok(ToolsOf(earlier + ReadTools(tools).value))
    ensures ReadTools(tools).Err? ==> r == Err(ReadTools(tools).error)
  {
    var states := entries;
    ghost var pieces := [];
    assert earlier + [] == earlier;
    for position := 0 to |tools|
      invariant ReadTools(tools[..position]) == Ok(pieces)
      invariant states == ToolsOf(earlier + pieces)
    {
      assert tools[..position + 1][..position] == tools[..position];
      var tool := tools[position];
      if tool.None? {
        ToolsStop(tools, position);
        return Err(InvalidToolCall);
      }
      var call := tool.value;
      if call.index.NoNumber? {
        ToolsStop(tools, position);
        return Err(InvalidToolIndex);
      }
      var index := if call.index.Missing? then position else call.index.value;
      var entry := if index in states then states[index] else NEW_TOOL;
      if call.id != "" {
        entry := entry.(id := call.id);
      }
      if call.kind != "" {
        entry := entry.(kind := call.kind);
      }
      if call.callee.None? {
        ToolsStop(tools, position);
        return Err(FunctionNotObject);
      }
      if call.callee.value.name != "" {
        entry := entry.(name := call.callee.value.name);
      }
      entry := entry.(arguments := entry.arguments + call.callee.value.arguments);
      states := states[index := entry];
      ghost var piece := ReadTool(tool, position).value;
      ToolsOfAppend(earlier + pieces, piece);
      assert earlier + pieces + [piece] == earlier + (pieces + [piece]);
      pieces := pieces + [piece];
    }
    assert tools[..|tools|] == tools;
    r := Ok(states);
  }

  // ----- choices -----

  /** The delta of one choice on the state of its index. */
  method AddDelta(before: ChoiceState, ghost deltas: seq<Piece>, delta: Delta, finish: Option<string>, index: int)
    returns (r: Result<ChoiceState, SseError>)
    requires before == StateOf(deltas)
    ensures ReadDelta(delta, finish, index).Ok? ==> r == Ok(StateOf(deltas + [ReadDelta(delta, finish, index).value]))
    ensures ReadDelta(delta, finish, index).Err? ==> r == Err(ReadDelta(delta, finish, index).error)
  {
    if delta.content.NotText? || delta.refusal.NotText? || delta.reasoning.NotText? {
      return Err(NotTextDelta);
    }
    if delta.tools.None? {
      return Err(ToolCallsNotList);
    }
    var tools := AddTools(before.tools, AllTools(deltas), delta.tools.value);
    if tools.Err? {
      return Err(tools.error);
    }
    var state := AddTexts(before, delta, finish);
    StateOfAppend(deltas, ReadDelta(delta, finish, index).value);
    return Ok(state.(tools := tools.value));
  }

  /** The body of the loop over choices. */
  method AddChoice(states: map<int, ChoiceState>, ghost earlier: seq<Piece>, choice: Option<Choice>, position: nat)
    returns (r: Result<map<int, ChoiceState>, SseError>)
    requires states == StatesOf(earlier)
    ensures ReadChoice(choice, position).Ok? ==> r == Ok(StatesOf(earlier + [ReadChoice(choice, position).value]))
    ensures ReadChoice(choice, position).Err? ==> r == Err(ReadChoice(choice, position).error)
  {
    if choice.None? {
      return Err(InvalidChoice);
    }
    var c := choice.value;
    if c.index.NoNumber? {
      return Err(InvalidChoiceIndex);
    }
    var index := if c.index.Missing? then position else c.index.value;
    var state := if index in states then states[index] else NEW_CHOICE;
    if c.delta.None? {
      return Err(DeltaNotObject);
    }
    StateAt(earlier, index);
    var next := AddDelta(state, Only(earlier, index), c.delta.value, c.finish, index);
    if next.Err? {
      return Err(next.error);
    }
    StatesOfAppend(earlier, ReadDelta(c.delta.value, c.finish, index).value);
    return Ok(states[index := next.value]);
  }

  /** The text fields, the role and the finish reason of one delta. */
  method AddTexts(before: ChoiceState, delta: Delta, finish: Option<string>) returns (state: ChoiceState)
    ensures state == AddFields(before, Piece(0, delta.role, TextOf(delta.content), TextOf(delta.refusal), TextOf(delta.reasoning), [], finish))
  {
    state := before;
    if delta.role != "" {
      state := state.(role := delta.role);
    }
    if delta.content.Is? {
      state := state.(content := state.content + delta.content.text);
    }
    if delta.refusal.Is? {
      state := state.(refusal := state.refusal + delta.refusal.text);
    }
    if delta.reasoning.Is? {
      state := state.(reasoning := state.reasoning + delta.reasoning.text);
    }
    if finish.Some? {
      state := state.(finish := finish);
    }
  }

  method AddChoices(states: map<int, ChoiceState>, ghost earlier: seq<Piece>, choices: seq<Option<Choice>>)
    returns (r: Result<map<int, ChoiceState>, SseError>)
    requires states == StatesOf(earlier)
    ensures ReadChoices(choices).Ok? ==> r == Ok(StatesOf(earlier + ReadChoices(choices).value))
    ensures ReadChoices(choices).Err? ==> r == Err(ReadChoices(choices).error)
  {
    var current := states;
    ghost var pieces := [];
    assert earlier + [] == earlier;
    for position := 0 to |choices|
      invariant ReadChoices(choices[..position]) == Ok(pieces)
      invariant current == StatesOf(earlier + pieces)
    {
      assert choices[..position + 1][..position] == choices[..position];
      var next := AddChoice(current, earlier + pieces, choices[position], position);
      if next.Err? {
        ChoicesStop(choices, position);
        return Err(next.error);
      }
      current := next.value;
      ghost var piece := ReadChoice(choices[position], position).value;
      assert earlier + pieces + [piece] == earlier + (pieces + [piece]);
      pieces := pieces + [piece];
    }
    assert choices[..|choices|] == choices;
    return Ok(current);
  }


  // ----- the whole stream -----

  method UpdateMeta(m: Meta, e: Event) returns (meta: Meta)
    ensures meta == AddMeta(m, e)
  {
    meta := m;
    if e.id != "" {
      meta := meta.(id := e.id);
    }
    if e.model != "" {
      meta := meta.(model := e.model);
    }
    if e.created.Some? {
      meta := meta.(created := e.created);
    }
    if e.usage.Some? {
      meta := meta.(usage := e.usage);
    }
  }

  lemma {:induction false} ItemsStop(items: seq<Item>, n: nat)
    requires n < |items| && ReadItems(items[..n]).Ok? && ReadEvent(items[n].kind, items[n].decoded).Err?
    ensures ReadItems(items) == Err(ReadEvent(items[n].kind, items[n].decoded).error)
  {
    if n + 1 < |items| {
      var m := |items| - 1;
      assert items[..m][..n] == items[..n];
      ItemsStop(items[..m], n);
    }
  }

  method Least(keys: set<int>) returns (least: int)
    requires keys != {}
    ensures least in keys && forall k | k in keys :: least <= k
  {
    least := Pick(keys);
    var seen, rest := {least}, keys - {least};
    while rest != {}
      invariant keys == seen + rest && least in keys
      invariant forall j | j in seen :: least <= j
      decreases rest
    {
      var k := Pick(rest);
      seen, rest := seen + {k}, rest - {k};
      if k < least {
        least := k;
      }
    }
  }

  /** `sorted` on the keys of a dictionary. */
  method SortKeys(keys: set<int>) returns (sorted: seq<int>)
    ensures Ascending(sorted) && (forall k :: k in sorted <==> k in keys)
  {
    sorted := [];
    var rest := keys;
    while rest != {}
      invariant rest <= keys && Ascending(sorted)
      invariant forall k :: k in sorted <==> k in keys - rest
      invariant forall i, l | 0 <= i < |sorted| && l in rest :: sorted[i] < l
      decreases rest
    {
      var least := Least(rest);
      rest := rest - {least};
      sorted := sorted + [least];
    }
  }

  method EmitTools(choice: int, tools: map<int, ToolState>) returns (out: seq<OutTool>, ghost keys: seq<int>)
    ensures Ascending(keys) && (forall k :: k in keys <==> k in tools) && IsTools(out, choice, tools, keys)
  {
    var sorted := SortKeys(tools.Keys);
    keys := sorted;
    out := [];
    for r := 0 to |sorted|
      invariant IsTools(out, choice, tools, sorted[..r])
    {
      assert sorted[r] in sorted;
      var state := tools[sorted[r]];
      out := out + [OutTool(if state.id != "" then Given(state.id) else Generated(choice, r), state.kind, state.name, state.arguments)];
    }
    assert sorted[..|sorted|] == sorted;
  }

  method EmitChoice(index: int, state: ChoiceState) returns (out: OutChoice)
    ensures IsChoice(out, index, state)
  {
    var tools;
    ghost var keys;
    tools, keys := EmitTools(index, state.tools);
    out := OutChoice(index, state.role, OrNone(state.content), OrNone(state.refusal), OrNone(state.reasoning), tools,
      if state.finish.Some? then state.finish.value else if tools != [] then "tool_calls" else "stop");
  }

  predicate EmitsEach(out: seq<OutChoice>, sorted: seq<int>) {
    |out| == |sorted| && forall i | 0 <= i < |out| :: out[i].index == sorted[i]
  }

  method EmitChoices(states: map<int, ChoiceState>) returns (out: seq<OutChoice>)
    ensures Emitted(out, states)
  {
    var sorted := SortKeys(states.Keys);
    out := [];
    for r := 0 to |sorted|
      invariant EmitsEach(out, sorted[..r])
      invariant forall i | 0 <= i < r :: out[i].index in states && IsChoice(out[i], out[i].index, states[out[i].index])
    {
      assert sorted[r] in sorted;
      var choice := EmitChoice(sorted[r], states[sorted[r]]);
      out := out + [choice];
    }
    assert sorted[..|sorted|] == sorted;
  }

  /** `_aggregate_openai_sse` behind framing and decoding. The incremental states give the
      projection. */
  method AggregateItems(items: seq<Item>) returns (r: Result<Completion, SseError>)
    ensures Aggregates(items, r)
  {
    var meta, states := NEW_META, map[];
    ghost var pieces := [];
    assert StatesOf([]) == map[];
    for n := 0 to |items|
      invariant ReadItems(items[..n]) == Ok(pieces)
      invariant states == StatesOf(pieces) && meta == MetaOf(items[..n])
    {
      assert items[..n + 1][..n] == items[..n];
      var item := items[n];
      if item.decoded.Malformed? {
        ItemsStop(items, n);
        return Err(MalformedJson);
      }
      if item.decoded.NotObject? {
        ItemsStop(items, n);
        return Err(NonObjectEvent);
      }
      var event := item.decoded.event;
      if item.kind == ERROR || event.flagged {
        ItemsStop(items, n);
        return Err(UpstreamError(event.error));
      }
      meta := UpdateMeta(meta, event);
      if event.choices.None? {
        ItemsStop(items, n);
        return Err(ChoicesNotList);
      }
      var next := AddChoices(states, pieces, event.choices.value);
      if next.Err? {
        ItemsStop(items, n);
        return Err(next.error);
      }
      states := next.value;
      pieces := pieces + ReadChoices(event.choices.value).value;
    }
    assert items[..|items|] == items;
    r := Complete(meta, states, items, pieces);
  }

  method Complete(meta: Meta, states: map<int, ChoiceState>, ghost items: seq<Item>, ghost pieces: seq<Piece>)
      returns (r: Result<Completion, SseError>)
    requires ReadItems(items) == Ok(pieces) && states == StatesOf(pieces) && meta == MetaOf(items)
    ensures Aggregates(items, r)
  {
    if pieces != [] {
      assert pieces[0].index in states;
    }
    if states == map[] {
      return Err(NoCompletion);
    }
    var choices := EmitChoices(states);
    return Ok(Completion(meta, choices));
  }

  // ----- from bytes -----

  method AggregateStream(raw: Bytes, decode: Bytes -> Decoded) returns (r: Result<Completion, SseError>)
    ensures Aggregates(ItemsOf(Parse(raw), decode), r)
  {
    var frames := ParseStream(raw);
    var items := [];
    for n := 0 to |frames|
      invariant items == ItemsOf(frames[..n], decode)
    {
      assert frames[..n + 1][..n] == frames[..n];
      var data := JoinLines(frames[n].data);
      if StripRight(StripLeft(data)) != DONE {
        items := items + [Item(frames[n].event, decode(data))];
      }
    }
    assert frames[..|frames|] == frames;
    assert items == ItemsOf(Parse(raw), decode);
    r := AggregateItems(items);
  }
}
