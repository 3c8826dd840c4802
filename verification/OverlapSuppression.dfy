/**
 The suppression passes of tools/dmap.py (`pass2_buttons`, `pass3_structure`): largest box first,
 keep a box unless it overlaps a kept one too much. The limits 0.35 and 0.5 are exact ratios.
 */
module OverlapSuppression {
  import opened OverlapCells

  /** An overlap limit num / den. */
  datatype Limit = Limit(num: nat, den: nat)

  const BUTTON_LIMIT: Limit := Limit(35, 100)
  const STRUCTURE_LIMIT: Limit := Limit(1, 2)

  /** The intersection exceeds the limit times the smaller area. */
  predicate Over(limit: Limit, a: Element, b: Element) {
    limit.den * Intersection(a, b) > limit.num * Min(Area(a), Area(b))
  }

  // ----- the order -----

  function Insert(e: Element, sorted: seq<Element>): seq<Element> {
    if sorted == [] || Area(e) >= Area(sorted[0]) then [e] + sorted else [sorted[0]] + Insert(e, sorted[1..])
  }

  /** The stable sort, largest area first. */
  function LargestFirst(es: seq<Element>): seq<Element> {
    if es == [] then [] else Insert(es[0], LargestFirst(es[1..]))
  }

  predicate Descending(es: seq<Element>) {
    forall i, j | 0 <= i < j < |es| :: Area(es[i]) >= Area(es[j])
  }

  lemma {:induction false} InsertDescends(e: Element, sorted: seq<Element>)
    requires Descending(sorted)
    ensures Descending(Insert(e, sorted))
    ensures Insert(e, sorted) != [] && (Insert(e, sorted)[0] == e || (sorted != [] && Insert(e, sorted)[0] == sorted[0]))
  {
    if sorted == [] || Area(e) >= Area(sorted[0]) {
    } else {
      InsertDescends(e, sorted[1..]);
    }
  }

  lemma {:induction false} InsertKeepsAll(e: Element, sorted: seq<Element>)
    ensures multiset(Insert(e, sorted)) == multiset(sorted) + multiset{e}
  {
    if sorted == [] {
    } else {
      assert sorted == [sorted[0]] + sorted[1..];
      InsertKeepsAll(e, sorted[1..]);
    }
  }

  lemma {:induction false} SortDescends(es: seq<Element>)
    ensures multiset(LargestFirst(es)) == multiset(es)
    ensures Descending(LargestFirst(es))
  {
    if es == [] {
    } else {
      assert es == [es[0]] + es[1..];
      SortDescends(es[1..]);
      InsertDescends(es[0], LargestFirst(es[1..]));
      InsertKeepsAll(es[0], LargestFirst(es[1..]));
    }
  }

  function OfArea(es: seq<Element>, area: nat): seq<Element> {
    if es == [] then [] else (if Area(es[0]) == area then [es[0]] else []) + OfArea(es[1..], area)
  }

  lemma {:induction false} InsertStable(e: Element, sorted: seq<Element>, area: nat)
    ensures OfArea(Insert(e, sorted), area) == OfArea([e] + sorted, area)
  {
    assert ([e] + sorted)[1..] == sorted;
    if sorted != [] && Area(e) < Area(sorted[0]) {
      InsertStable(e, sorted[1..], area);
      assert ([e] + sorted[1..])[1..] == sorted[1..];
    }
  }

  /** Elements of one area keep their order. */
  lemma {:induction false} SortStable(es: seq<Element>, area: nat)
    ensures OfArea(LargestFirst(es), area) == OfArea(es, area)
  {
    if es == [] {
    } else {
      var sorted := LargestFirst(es[1..]);
      SortStable(es[1..], area);
      InsertStable(es[0], sorted, area);
      assert ([es[0]] + sorted)[1..] == sorted;
    }
  }

  /** Sorting a sorted list changes nothing. */
  lemma {:induction false} SortedStays(es: seq<Element>)
    requires Descending(es)
    ensures LargestFirst(es) == es
  {
    if es == [] {
    } else {
      SortedStays(es[1..]);
    }
  }

  // ----- the passes -----

  predicate Clashes(limit: Limit, e: Element, kept: seq<Element>) {
    exists i | 0 <= i < |kept| :: Over(limit, e, kept[i])
  }

  /** Each element in turn, kept unless it clashes with one kept before. */
  function Greedy(limit: Limit, es: seq<Element>): seq<Element> {
    if es == [] then []
    else
      var n := |es| - 1;
      var kept := Greedy(limit, es[..n]);
      if Clashes(limit, es[n], kept) then kept else kept + [es[n]]
  }

  function Suppressed(limit: Limit, es: seq<Element>): seq<Element> {
    Greedy(limit, LargestFirst(es))
  }

  lemma OverNeedsCommon(limit: Limit, a: Element, b: Element)
    ensures Over(limit, a, b) ==> Intersection(a, b) > 0
  {
    assert limit.num * Min(Area(a), Area(b)) >= 0;
  }

  /** One round of the loop: the common rectangle, and whether it is too large. */
  method OverlapsOne(limit: Limit, e: Element, other: Element) returns (over: bool)
    ensures over == Over(limit, e, other)
  {
    var x1, y1 := Max(e.box.x, other.box.x), Max(e.box.y, other.box.y);
    var x2, y2 := Min(e.box.x + e.box.w, other.box.x + other.box.w), Min(e.box.y + e.box.h, other.box.y + other.box.h);
    var inter := if x1 < x2 && y1 < y2 then Rectangle(x2 - x1, y2 - y1) else 0;
    assert inter == Intersection(e, other);
    OverNeedsCommon(limit, e, other);
    over := inter > 0 && limit.den * inter > limit.num * Min(Area(e), Area(other));
  }

  /** The inner loop, which stops at the first clash. */
  method Overlaps(limit: Limit, e: Element, kept: seq<Element>) returns (overlap: bool)
    ensures overlap == Clashes(limit, e, kept)
  {
    overlap := false;
    for i := 0 to |kept|
      invariant !overlap && forall k | 0 <= k < i :: !Over(limit, e, kept[k])
    {
      var over := OverlapsOne(limit, e, kept[i]);
      if over {
        overlap := true;
        break;
      }
    }
  }

  /** Both passes: sort, then keep what does not clash with what is kept. */
  method Suppress(limit: Limit, elements: seq<Element>) returns (filtered: seq<Element>)
    ensures filtered == Suppressed(limit, elements)
  {
    var sorted := LargestFirst(elements);
    filtered := [];
    for n := 0 to |sorted|
      invariant filtered == Greedy(limit, sorted[..n])
    {
      assert sorted[..n + 1][..n] == sorted[..n];
      var overlap := Overlaps(limit, sorted[n], filtered);
      if !overlap {
        filtered := filtered + [sorted[n]];
      }
    }
    assert sorted[..|sorted|] == sorted;
  }

  // ----- what is kept and what is dropped -----

  predicate PairApart(limit: Limit, es: seq<Element>, i: nat, j: nat)
    requires i < j < |es|
  {
    !Over(limit, es[i], es[j])
  }

  predicate Apart(limit: Limit, es: seq<Element>) {
    forall i: nat, j: nat | i < j < |es| :: PairApart(limit, es, i, j)
  }

  lemma ApartGrows(limit: Limit, kept: seq<Element>, e: Element)
    requires Apart(limit, kept)
    ensures Apart(limit, kept + [e]) <==> !Clashes(limit, e, kept)
  {
    var all, n := kept + [e], |kept|;
    if Apart(limit, all) {
      forall i: nat | i < n ensures !Over(limit, e, kept[i]) {
        assert PairApart(limit, all, i, n);
      }
    }
    if !Clashes(limit, e, kept) {
      forall i: nat, j: nat | i < j < n + 1 ensures PairApart(limit, all, i, j) {
        assert j < n ==> PairApart(limit, kept, i, j);
      }
    }
  }

  lemma {:induction false} GreedyApart(limit: Limit, es: seq<Element>)
    ensures Apart(limit, Greedy(limit, es))
  {
    if es == [] {
    } else {
      var n := |es| - 1;
      GreedyApart(limit, es[..n]);
      ApartGrows(limit, Greedy(limit, es[..n]), es[n]);
    }
  }

  /** The kept elements are in input order. */
  lemma {:induction false} KeptFrom(limit: Limit, es: seq<Element>, i: nat) returns (k: nat)
    requires i < |Greedy(limit, es)|
    ensures k < |es| && Greedy(limit, es)[i] == es[k]
  {
    var n := |es| - 1;
    if i < |Greedy(limit, es[..n])| {
      k := KeptFrom(limit, es[..n], i);
    } else {
      k := n;
    }
  }

  lemma {:induction false} KeptDescends(limit: Limit, es: seq<Element>)
    requires Descending(es)
    ensures Descending(Greedy(limit, es))
  {
    if es == [] {
    } else {
      var n := |es| - 1;
      var kept := Greedy(limit, es[..n]);
      KeptDescends(limit, es[..n]);
      forall i | 0 <= i < |kept| ensures Area(kept[i]) >= Area(es[n]) {
        var k := KeptFrom(limit, es[..n], i);
      }
    }
  }

  /** An element of a sorted list is kept, or a kept element of at least its area covers more
      than the limit of it. */
  predicate Accounted(limit: Limit, e: Element, kept: seq<Element>) {
    exists i | 0 <= i < |kept| ::
      kept[i] == e || (Area(kept[i]) >= Area(e) && limit.den * Intersection(e, kept[i]) > limit.num * Area(e))
  }

  lemma {:induction false} AllAccounted(limit: Limit, es: seq<Element>, k: nat)
    requires Descending(es) && k < |es|
    ensures Accounted(limit, es[k], Greedy(limit, es))
  {
    var n := |es| - 1;
    var kept, all := Greedy(limit, es[..n]), Greedy(limit, es);
    if k < n {
      AllAccounted(limit, es[..n], k);
      assert es[..n][k] == es[k];
      var i :| 0 <= i < |kept| && (kept[i] == es[k] ||
        (Area(kept[i]) >= Area(es[k]) && limit.den * Intersection(es[k], kept[i]) > limit.num * Area(es[k])));
      assert all[i] == kept[i];
    } else if Clashes(limit, es[n], kept) {
      var i :| 0 <= i < |kept| && Over(limit, es[n], kept[i]);
      var j := KeptFrom(limit, es[..n], i);
      assert Area(kept[i]) >= Area(es[n]);
      assert all[i] == kept[i];
    } else {
      assert all[|kept|] == es[n];
    }
  }

  lemma {:induction false} ApartIsKept(limit: Limit, es: seq<Element>)
    requires Apart(limit, es)
    ensures Greedy(limit, es) == es
  {
    if es == [] {
    } else {
      var n := |es| - 1;
      var front := es[..n];
      assert es == front + [es[n]];
      forall i: nat, j: nat | i < j < n ensures PairApart(limit, front, i, j) {
        assert PairApart(limit, es, i, j);
      }
      ApartIsKept(limit, front);
      ApartGrows(limit, front, es[n]);
    }
  }

  lemma {:induction false} GreedySelects(limit: Limit, es: seq<Element>)
    ensures multiset(Greedy(limit, es)) <= multiset(es)
  {
    if es == [] {
    } else {
      var n := |es| - 1;
      GreedySelects(limit, es[..n]);
      assert es == es[..n] + [es[n]];
    }
  }

  // ----- the same in cells -----

  /** The two elements share more cells than the limit allows for the smaller of them. */
  ghost predicate ShareTooMany(limit: Limit, a: Element, b: Element) {
    limit.den * SharedCount(a, b) > limit.num * Min(CellCount(a), CellCount(b))
  }

  ghost predicate NoneShareTooMany(limit: Limit, es: seq<Element>) {
    forall i, j | 0 <= i < j < |es| :: !ShareTooMany(limit, es[i], es[j])
  }

  /** `other` is at least as large and shares more cells of e than the limit allows. */
  ghost predicate Hides(limit: Limit, other: Element, e: Element) {
    CellCount(other) >= CellCount(e) && limit.den * SharedCount(e, other) > limit.num * CellCount(e)
  }

  ghost predicate KeptOrHidden(limit: Limit, e: Element, kept: seq<Element>) {
    e in kept || exists other | other in kept :: Hides(limit, other, e)
  }

  /** No two kept elements share too many cells. */
  lemma KeptApart(limit: Limit, es: seq<Element>)
    ensures NoneShareTooMany(limit, Suppressed(limit, es))
  {
    var kept := Suppressed(limit, es);
    GreedyApart(limit, LargestFirst(es));
    forall i, j | 0 <= i < j < |kept| ensures !ShareTooMany(limit, kept[i], kept[j]) {
      assert PairApart(limit, kept, i, j);
      CountsAreAreas(kept[i], kept[j]);
    }
  }

  /** Every input element is kept or hidden by a kept one. */
  lemma NothingLost(limit: Limit, es: seq<Element>, e: Element)
    requires e in es
    ensures KeptOrHidden(limit, e, Suppressed(limit, es))
  {
    var sorted, kept := LargestFirst(es), Suppressed(limit, es);
    SortDescends(es);
    assert e in multiset(sorted);
    var k :| 0 <= k < |sorted| && sorted[k] == e;
    AllAccounted(limit, sorted, k);
    var i :| 0 <= i < |kept| && (kept[i] == e ||
      (Area(kept[i]) >= Area(e) && limit.den * Intersection(e, kept[i]) > limit.num * Area(e)));
    assert kept[i] in kept;
    CountsAreAreas(e, kept[i]);
  }

  /** Nothing is added: the kept elements are inputs, each no more often than in the input. */
  lemma OnlyInputs(limit: Limit, es: seq<Element>)
    ensures multiset(Suppressed(limit, es)) <= multiset(es)
  {
    SortDescends(es);
    GreedySelects(limit, LargestFirst(es));
  }

  /** Suppressing again changes nothing. */
  lemma Idempotent(limit: Limit, es: seq<Element>)
    ensures Suppressed(limit, Suppressed(limit, es)) == Suppressed(limit, es)
  {
    SortDescends(es);
    KeptDescends(limit, LargestFirst(es));
    SortedStays(Suppressed(limit, es));
    GreedyApart(limit, LargestFirst(es));
    ApartIsKept(limit, Suppressed(limit, es));
  }

  /** What a pass promises: what is kept are inputs, no two of which share too many cells; every
      other input is hidden by a kept one; and a second pass changes nothing. */
  ghost predicate WellSuppressed(limit: Limit, elements: seq<Element>, kept: seq<Element>) {
    && multiset(kept) <= multiset(elements)
    && NoneShareTooMany(limit, kept)
    && (forall e | e in elements :: KeptOrHidden(limit, e, kept))
    && Suppressed(limit, kept) == kept
  }

  lemma SuppressedWell(limit: Limit, elements: seq<Element>)
    ensures WellSuppressed(limit, elements, Suppressed(limit, elements))
  {
    OnlyInputs(limit, elements);
    KeptApart(limit, elements);
    forall e | e in elements ensures KeptOrHidden(limit, e, Suppressed(limit, elements)) {
      NothingLost(limit, elements, e);
    }
    Idempotent(limit, elements);
  }

  /** The end of `pass2_buttons`. */
  method SuppressButtons(elements: seq<Element>) returns (filtered: seq<Element>)
    ensures WellSuppressed(BUTTON_LIMIT, elements, filtered)
  {
    filtered := Suppress(BUTTON_LIMIT, elements);
    SuppressedWell(BUTTON_LIMIT, elements);
  }

  /** The end of `pass3_structure`. */
  method SuppressStructure(elements: seq<Element>) returns (filtered: seq<Element>)
    ensures WellSuppressed(STRUCTURE_LIMIT, elements, filtered)
  {
    filtered := Suppress(STRUCTURE_LIMIT, elements);
    SuppressedWell(STRUCTURE_LIMIT, elements);
  }
}
