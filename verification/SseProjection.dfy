/**
 What `_aggregate_openai_sse` (norax/gateway_proxy.py) should make of a stream: events are read
 into deltas, and each choice of the completion is read off the deltas of its own index.
 */
module SseProjection {
  import opened Common
  import opened SseFraming

  /** An `index` field, after `int(...)`. */
  datatype Index = Missing | Number(value: int) | NoNumber

  /** A field that must be text when it is present. */
  datatype TextField = Absent | Is(text: string) | NotText

  /** None where the JSON value is no object; "" where a string field is missing or falsy. */
  datatype ToolCall = ToolCall(index: Index, id: string, kind: string, callee: Option<Call>)

  datatype Call = Call(name: string, arguments: string)

  datatype Delta = Delta(role: string, content: TextField, refusal: TextField, reasoning: TextField,
                         tools: Option<seq<Option<ToolCall>>>)

  datatype Choice = Choice(index: Index, delta: Option<Delta>, finish: Option<string>)

  /** `error` is the message to raise if the event is an error; `flagged` says it has an
      `error` field. `choices` is None if the field is not a list. */
  datatype Event = Event(flagged: bool, error: string, id: string, model: string, created: Option<int>,
                         usage: Option<string>, choices: Option<seq<Option<Choice>>>)

  datatype Decoded = Malformed | NotObject | Object(event: Event)

  datatype SseError =
    | MalformedJson | NonObjectEvent | UpstreamError(message: string) | ChoicesNotList
    | InvalidChoice | InvalidChoiceIndex | DeltaNotObject | NotTextDelta
    | ToolCallsNotList | InvalidToolCall | InvalidToolIndex | FunctionNotObject
    | NoCompletion

  // ----- what the events say -----

  datatype ToolPiece = ToolPiece(index: int, id: string, kind: string, name: string, arguments: string)

  datatype Piece = Piece(index: int, role: string, content: string, refusal: string, reasoning: string,
                         tools: seq<ToolPiece>, finish: Option<string>)

  function TextOf(field: TextField): string {
    if field.Is? then field.text else ""
  }

  function ReadTool(tool: Option<ToolCall>, position: nat): Result<ToolPiece, SseError> {
    match tool
    case None => Err(InvalidToolCall)
    case Some(t) =>
      if t.index.NoNumber? then Err(InvalidToolIndex)
      else if t.callee.None? then Err(FunctionNotObject)
      else Ok(ToolPiece(if t.index.Missing? then position else t.index.value,
                        t.id, t.kind, t.callee.value.name, t.callee.value.arguments))
  }

  function ReadTools(tools: seq<Option<ToolCall>>): (r: Result<seq<ToolPiece>, SseError>)
    ensures r.Ok? ==> |r.value| == |tools|
  {
    if tools == [] then Ok([])
    else
      var n := |tools| - 1;
      match ReadTools(tools[..n])
      case Err(e) => Err(e)
      case Ok(pieces) =>
        match ReadTool(tools[n], n)
        case Err(e) => Err(e)
        case Ok(piece) => Ok(pieces + [piece])
  }

  function ReadDelta(d: Delta, finish: Option<string>, index: int): (r: Result<Piece, SseError>)
    ensures r.Ok? ==> r.value.index == index
  {
    if d.content.NotText? || d.refusal.NotText? || d.reasoning.NotText? then Err(NotTextDelta)
    else match d.tools
      case None => Err(ToolCallsNotList)
      case Some(tools) =>
        match ReadTools(tools)
        case Err(e) => Err(e)
        case Ok(pieces) =>
          Ok(Piece(index, d.role, TextOf(d.content), TextOf(d.refusal), TextOf(d.reasoning), pieces, finish))
  }

  function ReadChoice(choice: Option<Choice>, position: nat): Result<Piece, SseError> {
    match choice
    case None => Err(InvalidChoice)
    case Some(c) =>
      if c.index.NoNumber? then Err(InvalidChoiceIndex)
      else match c.delta
        case None => Err(DeltaNotObject)
        case Some(d) => ReadDelta(d, c.finish, if c.index.Missing? then position else c.index.value)
  }

  function ReadChoices(choices: seq<Option<Choice>>): Result<seq<Piece>, SseError> {
    if choices == [] then Ok([])
    else
      var n := |choices| - 1;
      match ReadChoices(choices[..n])
      case Err(e) => Err(e)
      case Ok(pieces) =>
        match ReadChoice(choices[n], n)
        case Err(e) => Err(e)
        case Ok(piece) => Ok(pieces + [piece])
  }

  const ERROR: Bytes := [101, 114, 114, 111, 114]

  function ReadEvent(kind: Bytes, decoded: Decoded): Result<seq<Piece>, SseError> {
    match decoded
    case Malformed => Err(MalformedJson)
    case NotObject => Err(NonObjectEvent)
    case Object(e) =>
      if kind == ERROR || e.flagged then Err(UpstreamError(e.error))
      else if e.choices.None? then Err(ChoicesNotList)
      else ReadChoices(e.choices.value)
  }

  /** A data block that is not the end marker, decoded. */
  datatype Item = Item(kind: Bytes, decoded: Decoded)

  function ReadItems(items: seq<Item>): Result<seq<Piece>, SseError> {
    if items == [] then Ok([])
    else
      var n := |items| - 1;
      match ReadItems(items[..n])
      case Err(e) => Err(e)
      case Ok(pieces) =>
        match ReadEvent(items[n].kind, items[n].decoded)
        case Err(e) => Err(e)
        case Ok(more) => Ok(pieces + more)
  }

  // ----- the projection -----

  /** The deltas of one choice index, in order. */
  function Only(pieces: seq<Piece>, index: int): seq<Piece> {
    if pieces == [] then []
    else if pieces[0].index == index then [pieces[0]] + Only(pieces[1..], index)
    else Only(pieces[1..], index)
  }

  function OnlyTool(tools: seq<ToolPiece>, index: int): seq<ToolPiece> {
    if tools == [] then []
    else if tools[0].index == index then [tools[0]] + OnlyTool(tools[1..], index)
    else OnlyTool(tools[1..], index)
  }

  function Concat(texts: seq<string>): string {
    if texts == [] then "" else texts[0] + Concat(texts[1..])
  }

  /** The last non-empty text, or the default: what a field written only when truthy holds. */
  function LastText(texts: seq<string>, default: string): string {
    if texts == [] then default
    else if texts[|texts| - 1] != "" then texts[|texts| - 1]
    else LastText(texts[..|texts| - 1], default)
  }

  function LastSome(values: seq<Option<string>>): Option<string> {
    if values == [] then None
    else if values[|values| - 1].Some? then values[|values| - 1]
    else LastSome(values[..|values| - 1])
  }

  function Map<A, B>(f: A -> B, xs: seq<A>): (ys: seq<B>)
    ensures |ys| == |xs| && forall i | 0 <= i < |xs| :: ys[i] == f(xs[i])
  {
    seq(|xs|, i requires 0 <= i < |xs| => f(xs[i]))
  }

  function AllTools(pieces: seq<Piece>): seq<ToolPiece> {
    if pieces == [] then [] else pieces[0].tools + AllTools(pieces[1..])
  }

  function ToolId(t: ToolPiece): string { t.id }
  function ToolKind(t: ToolPiece): string { t.kind }
  function ToolName(t: ToolPiece): string { t.name }
  function ToolArguments(t: ToolPiece): string { t.arguments }
  function Role(p: Piece): string { p.role }
  function Content(p: Piece): string { p.content }
  function Refusal(p: Piece): string { p.refusal }
  function Reasoning(p: Piece): string { p.reasoning }
  function Finish(p: Piece): Option<string> { p.finish }

  datatype ToolState = ToolState(id: string, kind: string, name: string, arguments: string)

  datatype ChoiceState = ChoiceState(role: string, content: string, refusal: string, reasoning: string,
                                     tools: map<int, ToolState>, finish: Option<string>)

  function ToolOf(calls: seq<ToolPiece>): ToolState {
    ToolState(LastText(Map(ToolId, calls), ""),
              LastText(Map(ToolKind, calls), "function"),
              LastText(Map(ToolName, calls), ""),
              Concat(Map(ToolArguments, calls)))
  }

  function ToolIndices(tools: seq<ToolPiece>): set<int> {
    set t | t in tools :: t.index
  }

  function ToolsOf(tools: seq<ToolPiece>): map<int, ToolState> {
    map i | i in ToolIndices(tools) :: ToolOf(OnlyTool(tools, i))
  }

  /** Each field of a choice, from its own deltas alone. */
  function StateOf(deltas: seq<Piece>): ChoiceState {
    ChoiceState(LastText(Map(Role, deltas), "assistant"),
                Concat(Map(Content, deltas)),
                Concat(Map(Refusal, deltas)),
                Concat(Map(Reasoning, deltas)),
                ToolsOf(AllTools(deltas)),
                LastSome(Map(Finish, deltas)))
  }

  function Indices(pieces: seq<Piece>): set<int> {
    set p | p in pieces :: p.index
  }

  function StatesOf(pieces: seq<Piece>): map<int, ChoiceState> {
    map i | i in Indices(pieces) :: StateOf(Only(pieces, i))
  }

  // ----- the completion -----

  /** The fields of the completion that are not per choice: each is the last one set. */
  datatype Meta = Meta(id: string, model: string, created: Option<int>, usage: Option<string>)

  const NEW_META := Meta("chatcmpl-proxy-agg", "unknown", None, None)

  function AddMeta(m: Meta, e: Event): Meta {
    Meta(if e.id != "" then e.id else m.id, if e.model != "" then e.model else m.model,
         if e.created.Some? then e.created else m.created, if e.usage.Some? then e.usage else m.usage)
  }

  function MetaOf(items: seq<Item>): Meta {
    if items == [] then NEW_META
    else
      var m := MetaOf(items[..|items| - 1]);
      match items[|items| - 1].decoded
      case Object(e) => AddMeta(m, e)
      case _ => m
  }

  datatype ToolIdentity = Given(id: string) | Generated(choice: int, rank: nat)

  datatype OutTool = OutTool(id: ToolIdentity, kind: string, name: string, arguments: string)

  datatype OutChoice = OutChoice(index: int, role: string, content: Option<string>, refusal: Option<string>,
                                 reasoning: Option<string>, tools: seq<OutTool>, finish: string)

  datatype Completion = Completion(meta: Meta, choices: seq<OutChoice>)

  ghost predicate Ascending(xs: seq<int>) {
    forall i, j | 0 <= i < j < |xs| :: xs[i] < xs[j]
  }

  function OrNone(text: string): Option<string> {
    if text == "" then None else Some(text)
  }

  predicate IsTools(out: seq<OutTool>, choice: int, tools: map<int, ToolState>, keys: seq<int>) {
    && |out| == |keys|
    && forall r | 0 <= r < |keys| :: keys[r] in tools &&
         out[r] == OutTool(if tools[keys[r]].id != "" then Given(tools[keys[r]].id) else Generated(choice, r),
                           tools[keys[r]].kind, tools[keys[r]].name, tools[keys[r]].arguments)
  }

  /** The output choice for a state: tool calls in the order of their indices. */
  ghost predicate IsChoice(out: OutChoice, index: int, state: ChoiceState) {
    && out.index == index && out.role == state.role
    && out.content == OrNone(state.content) && out.refusal == OrNone(state.refusal)
    && out.reasoning == OrNone(state.reasoning)
    && (exists keys :: Ascending(keys) && (forall k :: k in keys <==> k in state.tools) && IsTools(out.tools, index, state.tools, keys))
    && out.finish == if state.finish.Some? then state.finish.value else if out.tools != [] then "tool_calls" else "stop"
  }

  /** Choices in increasing order of their indices, one for each state. */
  ghost predicate Emitted(choices: seq<OutChoice>, states: map<int, ChoiceState>) {
    && (forall i, j | 0 <= i < j < |choices| :: choices[i].index < choices[j].index)
    && (forall k :: k in states <==> exists i :: 0 <= i < |choices| && choices[i].index == k)
    && (forall i | 0 <= i < |choices| ::
          choices[i].index in states && IsChoice(choices[i], choices[i].index, states[choices[i].index]))
  }

  /** Output indices are strictly increasing and exactly the ones seen; every choice comes
      from the deltas of its own index. */
  ghost predicate IsCompletion(completion: Completion, items: seq<Item>, pieces: seq<Piece>) {
    completion.meta == MetaOf(items) && Emitted(completion.choices, StatesOf(pieces))
  }

  const DONE: Bytes := [91, 68, 79, 78, 69, 93]

  function StripLeft(s: Bytes): Bytes {
    if s != [] && IsSpace(s[0]) then StripLeft(s[1..]) else s
  }

  function StripRight(s: Bytes): Bytes {
    if s != [] && IsSpace(s[|s| - 1]) then StripRight(s[..|s| - 1]) else s
  }

  /** The frames that reach the decoder: all but the end marker. */
  function ItemsOf(frames: seq<Frame>, decode: Bytes -> Decoded): seq<Item> {
    if frames == [] then []
    else
      var n := |frames| - 1;
      var data := JoinLines(frames[n].data);
      ItemsOf(frames[..n], decode) +
      if StripRight(StripLeft(data)) == DONE then [] else [Item(frames[n].event, decode(data))]
  }

  /** The first bad event gives the error, no choice at all is one too, and otherwise the
      completion is the projection of the deltas. */
  ghost predicate Aggregates(items: seq<Item>, r: Result<Completion, SseError>) {
    match ReadItems(items)
    case Err(e) => r == Err(e)
    case Ok(pieces) =>
      if pieces == [] then r == Err(NoCompletion) else r.Ok? && IsCompletion(r.value, items, pieces)
  }
}
