/**
 Context trimming of norax/gateway_proxy.py (`_estimate_chars`, `_trim_payload_messages`):
 drop the oldest conversation units until the request fits, never splitting an assistant
 tool request from the results that follow it.
 */
module ContextTrim {

  /** `text or content` of a structured part, as a string; anything that is no object counts nothing. */
  datatype Part = Fields(text: string, content: string) | NoObject

  datatype Content = Text(text: string) | Parts(parts: seq<Part>) | NoContent

  /** `toolCalls` is the printed value of a truthy `tool_calls` field, or "". */
  datatype Message = Message(role: string, content: Content, toolCalls: string)

  datatype Family = Gpt | Claude | Default

  function ContextLimit(family: Family): nat {
    match family
    case Gpt => 1_600_000
    case Claude => 4_000_000
    case Default => 1_600_000
  }

  const OVERHEAD: nat := 32

  const NOTICE := Message("system",
    Text("Norax gateway notice: older context was trimmed to fit the model window."), "")

  // ----- cost -----

  function PartCost(part: Part): nat {
    if part.NoObject? then 0 else if part.text != "" then |part.text| else |part.content|
  }

  function PartsCost(parts: seq<Part>): nat {
    if parts == [] then 0 else PartsCost(parts[..|parts| - 1]) + PartCost(parts[|parts| - 1])
  }

  function ContentCost(content: Content): nat {
    match content
    case Text(text) => |text|
    case Parts(parts) => PartsCost(parts)
    case NoContent => 0
  }

  function Cost(m: Message): nat {
    OVERHEAD + ContentCost(m.content) + |m.toolCalls|
  }

  function Estimate(messages: seq<Message>): nat {
    if messages == [] then 0 else Cost(messages[0]) + Estimate(messages[1..])
  }

  lemma {:induction false} EstimateAppend(a: seq<Message>, b: seq<Message>)
    ensures Estimate(a + b) == Estimate(a) + Estimate(b)
  {
    if a == [] {
      assert a + b == b;
    } else {
      assert (a + b)[1..] == a[1..] + b;
      EstimateAppend(a[1..], b);
    }
  }

  lemma {:induction false} PartsAppend(a: seq<Part>, b: seq<Part>)
    ensures PartsCost(a + b) == PartsCost(a) + PartsCost(b)
  {
    if b == [] {
      assert a + b == a;
    } else {
      var n := |b| - 1;
      assert (a + b)[..|a + b| - 1] == a + b[..n];
      PartsAppend(a, b[..n]);
    }
  }

  predicate EmptyPart(p: Part) {
    p.Fields? ==> p.text == "" && p.content == ""
  }

  predicate NoText(content: Content) {
    match content
    case Text(text) => text == ""
    case Parts(parts) => forall p | p in parts :: EmptyPart(p)
    case NoContent => true
  }

  lemma {:induction false} EmptyParts(parts: seq<Part>)
    requires forall p | p in parts :: EmptyPart(p)
    ensures PartsCost(parts) == 0
  {
    if parts == [] {
    } else {
      var n := |parts| - 1;
      assert parts == parts[..n] + [parts[n]];
      assert EmptyPart(parts[n]);
      EmptyParts(parts[..n]);
    }
  }

  /** A message that carries nothing costs its overhead. */
  lemma EmptyCosts(m: Message)
    requires NoText(m.content) && m.toolCalls == ""
    ensures Cost(m) == 32
  {
    if m.content.Parts? {
      EmptyParts(m.content.parts);
    }
  }

  /** The part with t at the end of the field that is read. */
  predicate PartGrows(p: Part, q: Part, t: string) {
    p.Fields? && q == if p.text != "" then p.(text := p.text + t) else p.(content := p.content + t)
  }

  /** The message with t at the end of its text, of the text of one part, or of its printed tool calls. */
  ghost predicate Grows(m: Message, n: Message, t: string) {
    || n == m.(toolCalls := m.toolCalls + t)
    || (m.content.Text? && n == m.(content := Text(m.content.text + t)))
    || exists a, p, q, b ::
         m.content == Parts(a + [p] + b) && n == m.(content := Parts(a + [q] + b)) && PartGrows(p, q, t)
  }

  lemma PartsGrow(a: seq<Part>, p: Part, q: Part, b: seq<Part>, t: string)
    requires PartGrows(p, q, t)
    ensures PartsCost(a + [q] + b) == PartsCost(a + [p] + b) + |t|
  {
    PartsAppend(a + [p], b);
    PartsAppend(a, [p]);
    PartsAppend(a + [q], b);
    PartsAppend(a, [q]);
    assert [p][..0] == [] && [q][..0] == [];
    assert PartsCost([p]) == PartCost(p) && PartsCost([q]) == PartCost(q);
  }

  lemma CostGrows(m: Message, n: Message, t: string)
    requires Grows(m, n, t)
    ensures Cost(n) == Cost(m) + |t|
  {
    if n == m.(toolCalls := m.toolCalls + t) {
    } else if m.content.Text? {
    } else {
      var a, p, q, b :| m.content == Parts(a + [p] + b) && n == m.(content := Parts(a + [q] + b)) && PartGrows(p, q, t);
      PartsGrow(a, p, q, b, t);
    }
  }

  /** Every character of a message counts once, wherever it stands. */
  lemma EstimateGrows(before: seq<Message>, m: Message, n: Message, after: seq<Message>, t: string)
    requires Grows(m, n, t)
    ensures Estimate(before + [n] + after) == Estimate(before + [m] + after) + |t|
  {
    CostGrows(m, n, t);
    EstimateAppend(before + [m], after);
    EstimateAppend(before, [m]);
    EstimateAppend(before + [n], after);
    EstimateAppend(before, [n]);
  }

  method EstimateChars(messages: seq<Message>) returns (total: nat)
    ensures total == Estimate(messages)
  {
    total := 0;
    for i := 0 to |messages|
      invariant total == Estimate(messages[..i])
    {
      var m := messages[i];
      total := total + OVERHEAD;
      match m.content {
        case Text(text) => total := total + |text|;
        case Parts(parts) =>
          ghost var before := total;
          for j := 0 to |parts|
            invariant total == before + PartsCost(parts[..j])
          {
            assert parts[..j + 1][..j] == parts[..j];
            if parts[j].Fields? {
              total := total + if parts[j].text != "" then |parts[j].text| else |parts[j].content|;
            }
          }
          assert parts[..|parts|] == parts;
        case NoContent =>
      }
      total := total + |m.toolCalls|;
      EstimateAppend(messages[..i], [m]);
      assert messages[..i + 1] == messages[..i] + [m];
    }
    assert messages[..|messages|] == messages;
  }

  // ----- systems and units -----

  function Systems(messages: seq<Message>): seq<Message> {
    if messages == [] then []
    else if messages[0].role == "system" then [messages[0]] + Systems(messages[1..])
    else Systems(messages[1..])
  }

  function Rest(messages: seq<Message>): seq<Message> {
    if messages == [] then []
    else if messages[0].role != "system" then [messages[0]] + Rest(messages[1..])
    else Rest(messages[1..])
  }

  /** Taking the system messages out loses none and adds none. */
  lemma {:induction false} SystemsAndRest(messages: seq<Message>)
    ensures multiset(Systems(messages)) + multiset(Rest(messages)) == multiset(messages)
    ensures forall m | m in Rest(messages) :: m.role != "system"
  {
    if messages == [] {
    } else {
      assert messages == [messages[0]] + messages[1..];
      SystemsAndRest(messages[1..]);
    }
  }

  lemma {:induction false} EstimateSplits(messages: seq<Message>)
    ensures Estimate(messages) == Estimate(Systems(messages)) + Estimate(Rest(messages))
  {
    if messages == [] {
    } else {
      EstimateSplits(messages[1..]);
      var m := messages[0];
      if m.role == "system" {
        assert ([m] + Systems(messages[1..]))[1..] == Systems(messages[1..]);
      } else {
        assert ([m] + Rest(messages[1..]))[1..] == Rest(messages[1..]);
      }
    }
  }

  predicate IsTool(m: Message) {
    m.role == "tool"
  }

  predicate IsCall(m: Message) {
    m.role == "assistant" && m.toolCalls != ""
  }

  /** How many tool messages the list starts with. */
  function ToolRun(messages: seq<Message>): (n: nat)
    ensures n <= |messages|
    ensures forall i | 0 <= i < n :: IsTool(messages[i])
    ensures n < |messages| ==> !IsTool(messages[n])
  {
    if messages != [] && IsTool(messages[0]) then 1 + ToolRun(messages[1..]) else 0
  }

  /** One atomic unit: a tool request with the results right behind it, or one message. */
  function UnitLength(rest: seq<Message>): (n: nat)
    requires rest != []
    ensures 1 <= n <= |rest|
  {
    if IsCall(rest[0]) then 1 + ToolRun(rest[1..]) else 1
  }

  function Units(rest: seq<Message>): (units: seq<seq<Message>>)
    ensures rest == [] <==> units == []
  {
    if rest == [] then [] else [rest[..UnitLength(rest)]] + Units(rest[UnitLength(rest)..])
  }

  function Flatten(units: seq<seq<Message>>): seq<Message> {
    if units == [] then [] else units[0] + Flatten(units[1..])
  }

  lemma {:induction false} FlattenAppend(a: seq<seq<Message>>, b: seq<seq<Message>>)
    ensures Flatten(a + b) == Flatten(a) + Flatten(b)
  {
    if a == [] {
      assert a + b == b;
    } else {
      assert (a + b)[1..] == a[1..] + b;
      FlattenAppend(a[1..], b);
    }
  }

  lemma {:induction false} UnitsFlatten(rest: seq<Message>)
    ensures Flatten(Units(rest)) == rest
  {
    if rest == [] {
    } else {
      var n := UnitLength(rest);
      UnitsFlatten(rest[n..]);
    }
  }

  // ----- the suffix that fits -----

  function SuffixCost(units: seq<seq<Message>>, k: nat): nat
    requires k <= |units|
    decreases |units| - k
  {
    if k == |units| then 0 else Estimate(units[k]) + SuffixCost(units, k + 1)
  }

  /** Scanning back from k, the first unit of the longest suffix within the budget. */
  function FirstKept(units: seq<seq<Message>>, k: nat, budget: int): (first: nat)
    requires k <= |units|
    ensures first <= k
  {
    if k == 0 || SuffixCost(units, k - 1) > budget then k else FirstKept(units, k - 1, budget)
  }

  lemma {:induction false} SuffixCostMonotone(units: seq<seq<Message>>, i: nat, j: nat)
    requires i <= j <= |units|
    ensures SuffixCost(units, j) <= SuffixCost(units, i)
    decreases j - i
  {
    if i < j {
      SuffixCostMonotone(units, i + 1, j);
    }
  }

  /** The suffixes that fit are exactly those from the first kept unit on. */
  lemma {:induction false} FirstKeptIsLongest(units: seq<seq<Message>>, k: nat, budget: int, j: nat)
    requires k <= |units| && SuffixCost(units, k) <= budget && j <= |units|
    ensures SuffixCost(units, j) <= budget <==> j >= FirstKept(units, k, budget)
    decreases k
  {
    if j >= k {
      SuffixCostMonotone(units, k, j);
    } else if SuffixCost(units, k - 1) > budget {
      SuffixCostMonotone(units, j, k - 1);
    } else {
      FirstKeptIsLongest(units, k - 1, budget, j);
    }
  }

  lemma {:induction false} SuffixCostIsEstimate(units: seq<seq<Message>>, k: nat)
    requires k <= |units|
    ensures SuffixCost(units, k) == Estimate(Flatten(units[k..]))
    decreases |units| - k
  {
    if k < |units| {
      SuffixCostIsEstimate(units, k + 1);
      assert units[k..][1..] == units[k + 1..];
      EstimateAppend(units[k], Flatten(units[k + 1..]));
    }
  }

  // ----- the whole operation -----

  datatype Outcome = NotNeeded | Trimmed | RequiredTooLarge | NewestTooLarge

  /** What the payload needs before any conversation unit. */
  function Required(messages: seq<Message>, fixedChars: nat): nat {
    fixedChars + Estimate(Systems(messages) + [NOTICE])
  }

  /** The first unit that trimming keeps. */
  function First(messages: seq<Message>, fixedChars: nat, limit: nat): (first: nat)
    ensures first <= |Units(Rest(messages))|
  {
    var units := Units(Rest(messages));
    FirstKept(units, |units|, limit - Required(messages, fixedChars))
  }

  /** `fixedChars` is the serialized length of the payload without its messages. */
  function Trim(messages: seq<Message>, fixedChars: nat, limit: nat): (Outcome, seq<Message>) {
    var units := Units(Rest(messages));
    var first := First(messages, fixedChars, limit);
    if fixedChars + Estimate(messages) <= limit then (NotNeeded, messages)
    else if Required(messages, fixedChars) >= limit then (RequiredTooLarge, messages)
    else if units != [] && first == |units| then (NewestTooLarge, messages)
    else (Trimmed, Systems(messages) + [NOTICE] + Flatten(units[first..]))
  }

  class Payload {
    const family: Family
    const fixedChars: nat
    var messages: seq<Message>

    constructor (family: Family, fixedChars: nat, messages: seq<Message>)
      ensures this.family == family && this.fixedChars == fixedChars && this.messages == messages
    {
      this.family, this.fixedChars, this.messages := family, fixedChars, messages;
    }

    /** `_trim_payload_messages`; the last two outcomes are its exceptions. */
    method TrimMessages() returns (outcome: Outcome)
      modifies this`messages
      ensures (outcome, messages) == Trim(old(messages), fixedChars, ContextLimit(family))
    {
      var limit := ContextLimit(family);
      var total := EstimateChars(messages);
      if fixedChars + total <= limit {
        return NotNeeded;
      }
      var systems, rest := Systems(messages), Rest(messages);
      var requiredChars := EstimateChars(systems + [NOTICE]);
      requiredChars := fixedChars + requiredChars;
      if requiredChars >= limit {
        return RequiredTooLarge;
      }
      var units := SplitUnits(rest);
      var selected := SelectNewest(units, requiredChars, limit);
      if rest != [] && selected == [] {
        return NewestTooLarge;
      }
      var tail := FlattenUnits(selected);
      messages := systems + [NOTICE] + tail;
      return Trimmed;
    }
  }

  method SelectNewest(units: seq<seq<Message>>, requiredChars: nat, limit: nat) returns (selected: seq<seq<Message>>)
    requires requiredChars < limit
    ensures var first := FirstKept(units, |units|, limit - requiredChars);
      selected == units[first..] && |selected| == |units| - first
  {
    var usedChars, k := requiredChars, |units|;
    selected := [];
    while k > 0
      invariant 0 <= k <= |units| && selected == units[k..]
      invariant usedChars == requiredChars + SuffixCost(units, k) <= limit
      invariant FirstKept(units, |units|, limit - requiredChars) == FirstKept(units, k, limit - requiredChars)
    {
      var unitChars := EstimateChars(units[k - 1]);
      if usedChars + unitChars > limit {
        break;
      }
      selected, usedChars, k := [units[k - 1]] + selected, usedChars + unitChars, k - 1;
    }
  }

  method SplitUnits(rest: seq<Message>) returns (units: seq<seq<Message>>)
    ensures units == Units(rest)
  {
    units := [];
    var index := 0;
    while index < |rest|
      invariant 0 <= index <= |rest|
      invariant units + Units(rest[index..]) == Units(rest)
    {
      ghost var start, before := index, units;
      var unit;
      unit, index := TakeUnit(rest, index);
      UnitsFirst(rest, start, index);
      units := units + [unit];
    }
  }

  lemma UnitsFirst(rest: seq<Message>, start: nat, index: nat)
    requires start < |rest| && index == start + UnitLength(rest[start..])
    ensures Units(rest[start..]) == [rest[start..index]] + Units(rest[index..])
  {
    assert rest[start..][..index - start] == rest[start..index];
    assert rest[start..][index - start..] == rest[index..];
  }

  /** The body of the loop over units: one message, and its results if it is a tool request. */
  method TakeUnit(rest: seq<Message>, start: nat) returns (unit: seq<Message>, index: nat)
    requires start < |rest|
    ensures index == start + UnitLength(rest[start..]) && unit == rest[start..index]
  {
    index := start;
    var message := rest[index];
    unit := [message];
    index := index + 1;
    if IsCall(message) {
      ghost var behind := rest[start + 1..];
      assert rest[start..][1..] == behind;
      while index < |rest| && IsTool(rest[index])
        invariant start + 1 <= index <= start + 1 + ToolRun(behind)
        invariant unit == rest[start..index]
      {
        assert behind[index - start - 1] == rest[index];
        unit := unit + [rest[index]];
        index := index + 1;
      }
      assert index < |rest| ==> behind[index - start - 1] == rest[index];
    }
  }

  method FlattenUnits(units: seq<seq<Message>>) returns (messages: seq<Message>)
    ensures messages == Flatten(units)
  {
    messages := [];
    for i := 0 to |units|
      invariant messages == Flatten(units[..i])
    {
      messages := messages + units[i];
      FlattenAppend(units[..i], [units[i]]);
      assert units[..i + 1] == units[..i] + [units[i]];
      assert Flatten([units[i]]) == units[i] + Flatten([]);
    }
    assert units[..|units|] == units;
  }

  // ----- what trimming guarantees -----

  predicate Fits(units: seq<seq<Message>>, required: nat, limit: nat, j: nat)
    requires j <= |units|
  {
    required + Estimate(Flatten(units[j..])) <= limit
  }

  lemma RequiredIs(messages: seq<Message>, fixedChars: nat)
    ensures Required(messages, fixedChars) == fixedChars + Estimate(Systems(messages)) + Cost(NOTICE)
  {
    EstimateAppend(Systems(messages), [NOTICE]);
    assert Estimate([NOTICE]) == Cost(NOTICE) + Estimate([]);
  }

  lemma FirstIsLongest(messages: seq<Message>, fixedChars: nat, limit: nat, j: nat)
    requires Required(messages, fixedChars) <= limit && j <= |Units(Rest(messages))|
    ensures Fits(Units(Rest(messages)), Required(messages, fixedChars), limit, j) <==> j >= First(messages, fixedChars, limit)
  {
    var units := Units(Rest(messages));
    FirstKeptIsLongest(units, |units|, limit - Required(messages, fixedChars), j);
    SuffixCostIsEstimate(units, j);
  }

  lemma NotEverythingFits(messages: seq<Message>, fixedChars: nat, limit: nat)
    requires fixedChars + Estimate(messages) > limit
    ensures !Fits(Units(Rest(messages)), Required(messages, fixedChars), limit, 0)
  {
    var units := Units(Rest(messages));
    RequiredIs(messages, fixedChars);
    EstimateSplits(messages);
    UnitsFlatten(Rest(messages));
    assert units[0..] == units;
  }

  /** After trimming: every system message, the notice, and the longest suffix of whole units
      that fits. At least one unit is gone and the newest one is kept. */
  lemma TrimmedKeepsLongestSuffix(messages: seq<Message>, fixedChars: nat, limit: nat)
    requires Trim(messages, fixedChars, limit).0 == Trimmed
    ensures var units := Units(Rest(messages));
      var first := First(messages, fixedChars, limit);
      && Trim(messages, fixedChars, limit).1 == Systems(messages) + [NOTICE] + Flatten(units[first..])
      && Flatten(units[..first]) + Flatten(units[first..]) == Rest(messages)
      && 0 < first < |units|
      && forall j: nat | j <= |units| :: Fits(units, Required(messages, fixedChars), limit, j) <==> j >= first
  {
    var units := Units(Rest(messages));
    var first := First(messages, fixedChars, limit);
    forall j: nat | j <= |units|
      ensures Fits(units, Required(messages, fixedChars), limit, j) <==> j >= first
    {
      FirstIsLongest(messages, fixedChars, limit, j);
    }
    NotEverythingFits(messages, fixedChars, limit);
    FlattenAppend(units[..first], units[first..]);
    assert units[..first] + units[first..] == units;
    UnitsFlatten(Rest(messages));
  }

  /** The trimmed payload fits, and trimming it again changes nothing. */
  lemma TrimmedFits(messages: seq<Message>, fixedChars: nat, limit: nat)
    requires Trim(messages, fixedChars, limit).0 == Trimmed
    ensures var trimmed := Trim(messages, fixedChars, limit).1;
      && fixedChars + Estimate(trimmed) <= limit
      && Trim(trimmed, fixedChars, limit) == (NotNeeded, trimmed)
  {
    var first := First(messages, fixedChars, limit);
    var kept := Flatten(Units(Rest(messages))[first..]);
    FirstIsLongest(messages, fixedChars, limit, first);
    EstimateAppend(Systems(messages) + [NOTICE], kept);
  }

  /** What must be sent whatever is trimmed: metadata, system messages and the notice. */
  function Overhead(messages: seq<Message>, fixedChars: nat): nat {
    fixedChars + Estimate(Systems(messages)) + Cost(NOTICE)
  }

  /** The newest unit does not fit behind the overhead. */
  predicate NewestExceeds(messages: seq<Message>, fixedChars: nat, limit: nat) {
    var units := Units(Rest(messages));
    units != [] && Overhead(messages, fixedChars) + Estimate(units[|units| - 1]) > limit
  }

  lemma FlattenOne(unit: seq<Message>)
    ensures Flatten([unit]) == unit
  {
    assert [unit][1..] == [] && unit + [] == unit;
  }

  lemma NewestDecides(messages: seq<Message>, fixedChars: nat, limit: nat)
    requires Required(messages, fixedChars) < limit
    ensures var units := Units(Rest(messages));
      units != [] && First(messages, fixedChars, limit) == |units| <==> NewestExceeds(messages, fixedChars, limit)
  {
    var units := Units(Rest(messages));
    RequiredIs(messages, fixedChars);
    if units != [] {
      FirstIsLongest(messages, fixedChars, limit, |units| - 1);
      assert units[|units| - 1..] == [units[|units| - 1]];
      FlattenOne(units[|units| - 1]);
    }
  }

  /** Each outcome has its exact reason, and only a trim changes the messages. */
  lemma OutcomesExactly(messages: seq<Message>, fixedChars: nat, limit: nat)
    ensures var (outcome, after) := Trim(messages, fixedChars, limit);
      var fits, overhead := fixedChars + Estimate(messages) <= limit, Overhead(messages, fixedChars);
      && (outcome == NotNeeded <==> fits)
      && (outcome == RequiredTooLarge <==> !fits && overhead >= limit)
      && (outcome == NewestTooLarge <==> !fits && overhead < limit && NewestExceeds(messages, fixedChars, limit))
      && (outcome == Trimmed <==> !fits && overhead < limit && !NewestExceeds(messages, fixedChars, limit))
      && (outcome != Trimmed ==> after == messages)
  {
    RequiredIs(messages, fixedChars);
    if Required(messages, fixedChars) < limit {
      NewestDecides(messages, fixedChars, limit);
    }
  }

  // ----- tool results stay behind their call -----

  /** Message c is the call that the tool result i answers: only results lie between them. */
  predicate Answers(messages: seq<Message>, c: nat, i: nat)
    requires i < |messages|
  {
    c < i && IsCall(messages[c]) && forall j | c < j <= i :: IsTool(messages[j])
  }

  ghost predicate WellPaired(messages: seq<Message>) {
    forall i: nat | i < |messages| && IsTool(messages[i]) :: exists c: nat :: Answers(messages, c, i)
  }

  lemma PairedSuffix(messages: seq<Message>, p: nat)
    requires WellPaired(messages) && p <= |messages| && (p < |messages| ==> !IsTool(messages[p]))
    ensures WellPaired(messages[p..])
  {
    forall i: nat | i < |messages[p..]| && IsTool(messages[p..][i])
      ensures exists c: nat :: Answers(messages[p..], c, i)
    {
      var c: nat :| Answers(messages, c, p + i);
      assert c >= p;
      forall j | c - p < j <= i ensures IsTool(messages[p..][j]) {
        assert messages[p..][j] == messages[p + j];
      }
      assert Answers(messages[p..], c - p, i);
    }
  }

  /** Cutting a well-paired conversation at a unit boundary never orphans a result. */
  lemma {:induction false} UnitSuffixPaired(rest: seq<Message>, k: nat)
    requires WellPaired(rest) && k <= |Units(rest)|
    ensures WellPaired(Flatten(Units(rest)[k..]))
    ensures k < |Units(rest)| ==> Flatten(Units(rest)[k..]) != [] && !IsTool(Flatten(Units(rest)[k..])[0])
  {
    if rest == [] {
      return;
    }
    if k == 0 {
      UnitsFlatten(rest);
      assert Units(rest)[0..] == Units(rest);
    } else {
      var n := UnitLength(rest);
      PairedSuffix(rest, n);
      UnitSuffixPaired(rest[n..], k - 1);
      assert Units(rest)[k..] == Units(rest[n..])[k - 1..];
    }
  }

  lemma {:induction false} SystemsAreSystem(messages: seq<Message>)
    ensures forall i | 0 <= i < |Systems(messages)| :: Systems(messages)[i].role == "system"
  {
    if messages == [] {
    } else {
      SystemsAreSystem(messages[1..]);
    }
  }

  lemma {:induction false} RestAppend(a: seq<Message>, b: seq<Message>)
    ensures Rest(a + b) == Rest(a) + Rest(b)
  {
    if a == [] {
      assert a + b == b;
    } else {
      assert (a + b)[1..] == a[1..] + b;
      RestAppend(a[1..], b);
    }
  }

  lemma {:induction false} RestOfConversation(messages: seq<Message>)
    requires forall i | 0 <= i < |messages| :: messages[i].role != "system"
    ensures Rest(messages) == messages
  {
    if messages == [] {
    } else {
      RestOfConversation(messages[1..]);
    }
  }

  lemma LastAnswered(init: seq<Message>, last: Message, c: nat)
    requires Answers(init + [last], c, |init|)
    ensures Answers(Rest(init) + [last], |Rest(init[..c])|, |Rest(init)|)
  {
    var run := init[c..];
    forall i | 0 <= i < |run| ensures run[i].role != "system" {
      assert run[i] == (init + [last])[c + i];
    }
    assert init == init[..c] + run;
    RestAppend(init[..c], run);
    RestOfConversation(run);
    var rest, d := Rest(init) + [last], |Rest(init[..c])|;
    assert rest[d] == run[0] == (init + [last])[c];
    forall j | d < j <= |Rest(init)| ensures IsTool(rest[j]) {
      assert j < |Rest(init)| ==> rest[j] == run[j - d];
      assert rest[j] == (init + [last])[c + j - d];
    }
  }

  lemma PairedExtend(messages: seq<Message>, last: Message)
    requires WellPaired(messages) && (IsTool(last) ==> exists c: nat :: Answers(messages + [last], c, |messages|))
    ensures WellPaired(messages + [last])
  {
    var all := messages + [last];
    forall i: nat | i < |all| && IsTool(all[i]) ensures exists c: nat :: Answers(all, c, i) {
      if i < |messages| {
        var c: nat :| Answers(messages, c, i);
        assert Answers(all, c, i);
      }
    }
  }

  lemma PairedInit(init: seq<Message>, last: Message)
    requires WellPaired(init + [last])
    ensures WellPaired(init)
  {
    forall i: nat | i < |init| && IsTool(init[i]) ensures exists c: nat :: Answers(init, c, i) {
      assert IsTool((init + [last])[i]);
      var c: nat :| Answers(init + [last], c, i);
      forall j | c < j <= i ensures IsTool(init[j]) {
        assert init[j] == (init + [last])[j];
      }
      assert Answers(init, c, i);
    }
  }

  /** Taking the system messages out does not separate a result from its call. */
  lemma {:induction false} PairedRest(messages: seq<Message>)
    requires WellPaired(messages)
    ensures WellPaired(Rest(messages))
  {
    if messages == [] {
    } else {
      var n := |messages| - 1;
      var init, last := messages[..n], messages[n];
      assert messages == init + [last];
      RestAppend(init, [last]);
      PairedInit(init, last);
      PairedRest(init);
      if IsTool(last) {
        assert IsTool(messages[n]);
        var c: nat :| Answers(messages, c, n);
        LastAnswered(init, last, c);
      }
      PairedExtend(Rest(init), last);
      assert Rest(messages) == if last.role == "system" then Rest(init) else Rest(init) + [last];
    }
  }

  /** If every tool result of the conversation stood behind its call, it still does. */
  lemma TrimKeepsPairing(messages: seq<Message>, fixedChars: nat, limit: nat)
    requires WellPaired(messages) && Trim(messages, fixedChars, limit).0 == Trimmed
    ensures WellPaired(Trim(messages, fixedChars, limit).1)
  {
    PairedRest(messages);
    var units := Units(Rest(messages));
    var first := First(messages, fixedChars, limit);
    UnitSuffixPaired(Rest(messages), first);
    SystemsAreSystem(messages);
    var head, tail := Systems(messages) + [NOTICE], Flatten(units[first..]);
    forall i: nat | i < |head + tail| && IsTool((head + tail)[i])
      ensures exists c: nat :: Answers(head + tail, c, i)
    {
      assert i >= |head|;
      var c: nat :| Answers(tail, c, i - |head|);
      assert Answers(head + tail, |head| + c, i);
    }
  }
}
