/** What order and line endings mean for an aggregated stream. */
module SseTheorems {
  import opened Common
  import opened SseFraming
  import opened SseProjection
  import opened SseStates
  import opened SseRoundTrip

  lemma SwapOnly(before: seq<Piece>, a: seq<Piece>, b: seq<Piece>, after: seq<Piece>, i: int)
    requires Indices(a) !! Indices(b)
    ensures Only(before + a + b + after, i) == Only(before + b + a + after, i)
  {
    OnlyAppend(before + a + b, after, i);
    OnlyAppend(before + a, b, i);
    OnlyAppend(before, a, i);
    OnlyAppend(before + b + a, after, i);
    OnlyAppend(before + b, a, i);
    OnlyAppend(before, b, i);
    OnlyEmpty(a, i);
    OnlyEmpty(b, i);
    if Only(a, i) == [] {
      assert Only(before, i) + [] + Only(b, i) == Only(before, i) + Only(b, i) + [];
    } else {
      assert Only(b, i) == [];
      assert Only(before, i) + Only(a, i) + [] == Only(before, i) + [] + Only(a, i);
    }
  }

  lemma IndicesAppend(a: seq<Piece>, b: seq<Piece>)
    ensures Indices(a + b) == Indices(a) + Indices(b)
  {
    assert forall p | p in a :: p in a + b;
  }

  /** Swapping neighbouring runs of deltas that touch disjoint indices changes no choice. */
  lemma SwapDisjoint(before: seq<Piece>, a: seq<Piece>, b: seq<Piece>, after: seq<Piece>)
    requires Indices(a) !! Indices(b)
    ensures StatesOf(before + a + b + after) == StatesOf(before + b + a + after)
  {
    var x, y := before + a + b + after, before + b + a + after;
    assert Indices(x) == Indices(y) by {
      IndicesAppend(before + a + b, after);
      IndicesAppend(before + a, b);
      IndicesAppend(before, a);
      IndicesAppend(before + b + a, after);
      IndicesAppend(before + b, a);
      IndicesAppend(before, b);
    }
    forall i | i in Indices(x) ensures StateOf(Only(x, i)) == StateOf(Only(y, i)) {
      SwapOnly(before, a, b, after, i);
    }
  }

  lemma {:induction false} ReadItemsAppend(a: seq<Item>, b: seq<Item>)
    ensures ReadItems(a + b) ==
      match ReadItems(a)
      case Err(e) => Err(e)
      case Ok(first) =>
        match ReadItems(b)
        case Err(e) => Err(e)
        case Ok(second) => Ok(first + second)
  {
    if b == [] {
      assert a + b == a;
      if ReadItems(a).Ok? {
        assert ReadItems(a).value + [] == ReadItems(a).value;
      }
    } else {
      var n := |b| - 1;
      assert (a + b)[..|a + b| - 1] == a + b[..n];
      ReadItemsAppend(a, b[..n]);
      if ReadItems(a).Ok? && ReadItems(b).Ok? {
        assert forall x: seq<Piece>, y, z :: x + (y + z) == (x + y) + z;
      }
    }
  }

  lemma ReadPair(x: Item, y: Item)
    requires ReadEvent(x.kind, x.decoded).Ok? && ReadEvent(y.kind, y.decoded).Ok?
    ensures ReadItems([x, y]) == Ok(ReadEvent(x.kind, x.decoded).value + ReadEvent(y.kind, y.decoded).value)
  {
    assert [x, y][..1] == [x] && [x][..0] == [];
    assert ReadItems([]) == Ok([]);
    var a, b := ReadEvent(x.kind, x.decoded).value, ReadEvent(y.kind, y.decoded).value;
    assert [] + a == a;
    assert ReadItems([x]) == Ok(a);
    assert [x, y][1] == y;
    assert ReadItems([x, y]) == Ok(a + b);
  }

  lemma ReadAround(before: seq<Item>, middle: seq<Item>, after: seq<Item>)
    requires ReadItems(middle).Ok?
    ensures ReadItems(before + middle + after) ==
      match ReadItems(before)
      case Err(e) => Err(e)
      case Ok(p) =>
        match ReadItems(after)
        case Err(e) => Err(e)
        case Ok(q) => Ok(p + ReadItems(middle).value + q)
  {
    ReadItemsAppend(before + middle, after);
    ReadItemsAppend(before, middle);
  }

  predicate SameStates(a: Result<seq<Piece>, SseError>, b: Result<seq<Piece>, SseError>) {
    match (a, b)
    case (Ok(p), Ok(q)) => StatesOf(p) == StatesOf(q)
    case (Err(d), Err(e)) => d == e
    case _ => false
  }

  /** Swapping neighbouring events that touch disjoint choice indices leaves every choice,
      and any later error, unchanged. */
  lemma SwapEvents(before: seq<Item>, x: Item, y: Item, after: seq<Item>)
    requires ReadEvent(x.kind, x.decoded).Ok? && ReadEvent(y.kind, y.decoded).Ok?
    requires Indices(ReadEvent(x.kind, x.decoded).value) !! Indices(ReadEvent(y.kind, y.decoded).value)
    ensures SameStates(ReadItems(before + [x, y] + after), ReadItems(before + [y, x] + after))
  {
    ReadPair(x, y);
    ReadPair(y, x);
    ReadAround(before, [x, y], after);
    ReadAround(before, [y, x], after);
    if ReadItems(before).Ok? && ReadItems(after).Ok? {
      var a, b := ReadEvent(x.kind, x.decoded).value, ReadEvent(y.kind, y.decoded).value;
      var p, q := ReadItems(before).value, ReadItems(after).value;
      SwapDisjoint(p, a, b, q);
      assert p + (a + b) == p + a + b && p + (b + a) == p + b + a;
    }
  }

  /** The same text under other line endings aggregates to a completion of the same deltas. */
  lemma EndingsKeepItems(s: Bytes, ending: Ending, decode: Bytes -> Decoded)
    requires CR !in s
    ensures ItemsOf(Parse(Reline(s, ending)), decode) == ItemsOf(Parse(s), decode)
  {
    EndingsIrrelevant(s, ending);
  }
}
