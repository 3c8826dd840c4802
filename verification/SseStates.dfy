/** How one more delta changes the projection, which is what the mutable states do. */
module SseStates {
  import opened Common
  import opened SseFraming
  import opened SseProjection

  lemma {:induction false} ConcatAppend(texts: seq<string>, text: string)
    ensures Concat(texts + [text]) == Concat(texts) + text
  {
    if texts == [] {
      assert Concat([text]) == text + Concat([]);
    } else {
      assert (texts + [text])[1..] == texts[1..] + [text];
      ConcatAppend(texts[1..], text);
    }
  }

  lemma {:induction false} OnlyAppend(a: seq<Piece>, b: seq<Piece>, index: int)
    ensures Only(a + b, index) == Only(a, index) + Only(b, index)
  {
    if a == [] {
      assert a + b == b;
    } else {
      assert (a + b)[1..] == a[1..] + b;
      OnlyAppend(a[1..], b, index);
    }
  }

  lemma {:induction false} OnlyToolAppend(a: seq<ToolPiece>, b: seq<ToolPiece>, index: int)
    ensures OnlyTool(a + b, index) == OnlyTool(a, index) + OnlyTool(b, index)
  {
    if a == [] {
      assert a + b == b;
    } else {
      assert (a + b)[1..] == a[1..] + b;
      OnlyToolAppend(a[1..], b, index);
    }
  }

  lemma {:induction false} AllToolsAppend(pieces: seq<Piece>, piece: Piece)
    ensures AllTools(pieces + [piece]) == AllTools(pieces) + piece.tools
  {
    if pieces == [] {
      assert AllTools([piece]) == piece.tools + AllTools([]);
    } else {
      assert (pieces + [piece])[1..] == pieces[1..] + [piece];
      AllToolsAppend(pieces[1..], piece);
    }
  }

  lemma MapAppend<A, B>(f: A -> B, xs: seq<A>, x: A)
    ensures Map(f, xs + [x]) == Map(f, xs) + [f(x)]
  {
  }

  lemma {:induction false} OnlyToolEmpty(tools: seq<ToolPiece>, index: int)
    ensures OnlyTool(tools, index) == [] <==> index !in ToolIndices(tools)
  {
    if tools == [] {
    } else {
      OnlyToolEmpty(tools[1..], index);
      assert tools == [tools[0]] + tools[1..];
      assert ToolIndices(tools) == {tools[0].index} + ToolIndices(tools[1..]);
    }
  }

  lemma {:induction false} OnlyEmpty(pieces: seq<Piece>, index: int)
    ensures Only(pieces, index) == [] <==> index !in Indices(pieces)
  {
    if pieces == [] {
    } else {
      OnlyEmpty(pieces[1..], index);
      assert pieces == [pieces[0]] + pieces[1..];
      assert Indices(pieces) == {pieces[0].index} + Indices(pieces[1..]);
    }
  }

  /** One tool-call delta on the entry of its index. */
  function AddTool(entry: ToolState, t: ToolPiece): ToolState {
    ToolState(if t.id != "" then t.id else entry.id,
              if t.kind != "" then t.kind else entry.kind,
              if t.name != "" then t.name else entry.name,
              entry.arguments + t.arguments)
  }

  const NEW_TOOL := ToolState("", "function", "", "")

  const NEW_CHOICE := ChoiceState("assistant", "", "", "", map[], None)

  lemma ToolOfAppend(calls: seq<ToolPiece>, t: ToolPiece)
    ensures ToolOf(calls + [t]) == AddTool(ToolOf(calls), t)
    ensures ToolOf([]) == NEW_TOOL
  {
    MapAppend(ToolId, calls, t);
    MapAppend(ToolKind, calls, t);
    MapAppend(ToolName, calls, t);
    MapAppend(ToolArguments, calls, t);
    ConcatAppend(Map(ToolArguments, calls), t.arguments);
    LastTextAppend(Map(ToolId, calls), t.id, "");
    LastTextAppend(Map(ToolKind, calls), t.kind, "function");
    LastTextAppend(Map(ToolName, calls), t.name, "");
  }

  lemma LastTextAppend(texts: seq<string>, text: string, default: string)
    ensures LastText(texts + [text], default) == if text != "" then text else LastText(texts, default)
  {
    assert (texts + [text])[..|texts|] == texts;
  }

  lemma OnlyToolSnoc(tools: seq<ToolPiece>, t: ToolPiece, i: int)
    ensures OnlyTool(tools + [t], i) == if i == t.index then OnlyTool(tools, i) + [t] else OnlyTool(tools, i)
  {
    OnlyToolAppend(tools, [t], i);
    assert OnlyTool([t], i) == if i == t.index then [t] + OnlyTool([], i) else OnlyTool([], i);
  }

  lemma ToolEntryAppend(tools: seq<ToolPiece>, t: ToolPiece)
    ensures ToolOf(OnlyTool(tools + [t], t.index)) ==
      AddTool(if t.index in ToolsOf(tools) then ToolsOf(tools)[t.index] else NEW_TOOL, t)
  {
    OnlyToolEmpty(tools, t.index);
    OnlyToolSnoc(tools, t, t.index);
    ToolOfAppend(OnlyTool(tools, t.index), t);
  }

  lemma IsUpdate<V>(before: map<int, V>, after: map<int, V>, key: int, value: V)
    requires after.Keys == before.Keys + {key} && after[key] == value
    requires forall i | i in before.Keys && i != key :: after[i] == before[i]
    ensures after == before[key := value]
  {
    assert after.Keys == before[key := value].Keys;
    forall i | i in after.Keys ensures after[i] == before[key := value][i] {
      assert i != key ==> i in before.Keys;
    }
  }

  lemma ToolIndicesSnoc(tools: seq<ToolPiece>, t: ToolPiece)
    ensures ToolIndices(tools + [t]) == ToolIndices(tools) + {t.index}
  {
  }

  lemma ToolsOfAppend(tools: seq<ToolPiece>, t: ToolPiece)
    ensures ToolsOf(tools + [t]) ==
      ToolsOf(tools)[t.index := AddTool(if t.index in ToolsOf(tools) then ToolsOf(tools)[t.index] else NEW_TOOL, t)]
  {
    ToolEntryAppend(tools, t);
    var before, after := ToolsOf(tools), ToolsOf(tools + [t]);
    var entry := AddTool(if t.index in before then before[t.index] else NEW_TOOL, t);
    assert after.Keys == before.Keys + {t.index} by { ToolIndicesSnoc(tools, t); }
    assert after[t.index] == entry;
    forall i | i in before.Keys && i != t.index ensures after[i] == before[i] {
      OnlyToolSnoc(tools, t, i);
    }
    IsUpdate(before, after, t.index, entry);
  }

  /** The first error ends the reading: what follows cannot change it. */
  lemma {:induction false} ToolsStop(tools: seq<Option<ToolCall>>, n: nat)
    requires n < |tools| && ReadTools(tools[..n]).Ok? && ReadTool(tools[n], n).Err?
    ensures ReadTools(tools) == Err(ReadTool(tools[n], n).error)
  {
    if n + 1 == |tools| {
    } else {
      var m := |tools| - 1;
      assert tools[..m][..n] == tools[..n];
      ToolsStop(tools[..m], n);
    }
  }

  /** One delta on the state of its choice; the tool calls are added separately. */
  function AddFields(state: ChoiceState, p: Piece): ChoiceState {
    ChoiceState(if p.role != "" then p.role else state.role,
                state.content + p.content, state.refusal + p.refusal, state.reasoning + p.reasoning,
                state.tools, if p.finish.Some? then p.finish else state.finish)
  }

  lemma StateOfAppend(deltas: seq<Piece>, p: Piece)
    ensures StateOf(deltas + [p]) ==
      AddFields(StateOf(deltas), p).(tools := ToolsOf(AllTools(deltas) + p.tools))
  {
    MapAppend(Role, deltas, p);
    MapAppend(Content, deltas, p);
    MapAppend(Refusal, deltas, p);
    MapAppend(Reasoning, deltas, p);
    MapAppend(Finish, deltas, p);
    LastTextAppend(Map(Role, deltas), p.role, "assistant");
    ConcatAppend(Map(Content, deltas), p.content);
    ConcatAppend(Map(Refusal, deltas), p.refusal);
    ConcatAppend(Map(Reasoning, deltas), p.reasoning);
    assert (Map(Finish, deltas) + [p.finish])[..|deltas|] == Map(Finish, deltas);
    AllToolsAppend(deltas, p);
  }

  lemma OnlySnoc(pieces: seq<Piece>, p: Piece, i: int)
    ensures Only(pieces + [p], i) == if i == p.index then Only(pieces, i) + [p] else Only(pieces, i)
  {
    OnlyAppend(pieces, [p], i);
    assert Only([p], i) == if i == p.index then [p] + Only([], i) else Only([], i);
  }

  lemma IndicesSnoc(pieces: seq<Piece>, p: Piece)
    ensures Indices(pieces + [p]) == Indices(pieces) + {p.index}
  {
  }

  /** A delta changes the state of its own index only. */
  lemma StatesOfAppend(pieces: seq<Piece>, p: Piece)
    ensures StatesOf(pieces + [p]) == StatesOf(pieces)[p.index := StateOf(Only(pieces, p.index) + [p])]
  {
    var before, after := StatesOf(pieces), StatesOf(pieces + [p]);
    assert after.Keys == before.Keys + {p.index} by { IndicesSnoc(pieces, p); }
    OnlySnoc(pieces, p, p.index);
    forall i | i in before.Keys && i != p.index ensures after[i] == before[i] {
      OnlySnoc(pieces, p, i);
    }
    IsUpdate(before, after, p.index, StateOf(Only(pieces, p.index) + [p]));
  }

  lemma StateAt(pieces: seq<Piece>, i: int)
    ensures StateOf(Only(pieces, i)) == if i in StatesOf(pieces) then StatesOf(pieces)[i] else NEW_CHOICE
  {
    OnlyEmpty(pieces, i);
  }

  lemma {:induction false} ChoicesStop(choices: seq<Option<Choice>>, n: nat)
    requires n < |choices| && ReadChoices(choices[..n]).Ok? && ReadChoice(choices[n], n).Err?
    ensures ReadChoices(choices) == Err(ReadChoice(choices[n], n).error)
  {
    if n + 1 < |choices| {
      var m := |choices| - 1;
      assert choices[..m][..n] == choices[..n];
      ChoicesStop(choices[..m], n);
    }
  }
}
