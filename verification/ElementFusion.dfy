/**
 Cross-source merging of UI elements (tools/cv_fusion.py, `CVFusion._merge_elements`). Candidates
 come from a set without a fixed order, so ties between equal evidence are left open: a run is
 described by its decisions. Confidence is exact arithmetic.
 */
module ElementFusion {
  import opened Common
  import opened ElementMatching

  const MAX_RAW_ELEMENTS: nat := 5000
  const MAX_UNIFIED_ELEMENTS: nat := 2000

  datatype RawElement = RawElement(
    source: string, role: string, name: string, value: string, state: string, bounds: Bounds, actionable: bool, app: string)

  /** A merged element; `ref` n is written pn. */
  datatype Unified = Unified(
    ref: nat, role: string, name: string, value: string, state: string, bounds: Bounds, sources: seq<string>,
    confidence: real, actionable: bool, app: string)

  // ----- order of the inputs -----

  function Priority(e: RawElement): (p: nat)
    ensures p <= 3
  {
    if e.source == "atspi" then 3 else if e.source == "cdp" then 2 else if e.source == "ocr" then 1 else 0
  }

  function OfPriority(raw: seq<RawElement>, p: nat): (es: seq<RawElement>)
    ensures forall e | e in es :: Priority(e) == p
  {
    if raw == [] then []
    else (if Priority(raw[0]) == p then [raw[0]] else []) + OfPriority(raw[1..], p)
  }

  /** The stable sort, most trusted source first. */
  function ByPriority(raw: seq<RawElement>): seq<RawElement> {
    OfPriority(raw, 3) + OfPriority(raw, 2) + OfPriority(raw, 1) + OfPriority(raw, 0)
  }

  function Taken(raw: seq<RawElement>): seq<RawElement> {
    var sorted := ByPriority(raw);
    if |sorted| <= MAX_RAW_ELEMENTS then sorted else sorted[..MAX_RAW_ELEMENTS]
  }

  // ----- one step -----

  function BaseConfidence(source: string): real {
    if source == "atspi" then 0.9 else if source == "cdp" then 0.8 else if source == "ocr" then 0.6
    else if source == "cv" then 0.3 else 0.5
  }

  function Create(e: RawElement, ref: nat): Unified {
    Unified(ref, e.role, e.name, e.value, e.state, Coerce(e.bounds), [e.source], BaseConfidence(e.source), e.actionable, e.app)
  }

  function BetterName(name: string, e: RawElement): string {
    if name == "" && e.name != "" then e.name
    else if e.source == "ocr" && |name| < 5 && 5 < |e.name| then e.name
    else name
  }

  function Raise(confidence: real): real {
    if confidence + 0.15 < 1.0 then confidence + 0.15 else 1.0
  }

  /** The first text that is not empty. */
  function Prefer(kept: string, offered: string): string {
    if kept == "" then offered else kept
  }

  function Absorb(u: Unified, e: RawElement): Unified {
    u.(name := BetterName(u.name, e),
       value := Prefer(u.value, e.value),
       state := Prefer(u.state, e.state),
       sources := u.sources + [e.source],
       confidence := Raise(u.confidence),
       actionable := u.actionable || e.actionable,
       app := Prefer(u.app, e.app))
  }

  function RawSight(e: RawElement): Sight {
    Sight(e.role, e.name, Coerce(e.bounds))
  }

  function UnifiedSight(u: Unified): Sight {
    Sight(u.role, u.name, u.bounds)
  }

  /** A new, compatible and corroborated source for the element. */
  predicate Matches(m: Matcher, e: RawElement, u: Unified) {
    e.source !in u.sources && RolesCompatible(m, e.role, u.role) && Corroborated(m, RawSight(e), UnifiedSight(u))
  }

  predicate Seen(e: RawElement, u: Unified) {
    Bounded(e.bounds) && Bounded(u.bounds) && Adjacent(Cell(u.bounds), Cell(e.bounds))
  }

  predicate Eligible(m: Matcher, e: RawElement, us: seq<Unified>, i: int) {
    0 <= i < |us| && Seen(e, us[i]) && Matches(m, e, us[i])
  }

  function Strength(m: Matcher, e: RawElement, u: Unified): real {
    Evidence(m, RawSight(e), UnifiedSight(u))
  }

  datatype Decision = Created | Merged(index: nat) | Dropped

  /** The decision the algorithm may take: merge into an element of maximal evidence, or create
      one, or drop the input because the result is full. */
  predicate Fits(m: Matcher, e: RawElement, us: seq<Unified>, d: Decision) {
    match d
    case Merged(i) =>
      Eligible(m, e, us, i) &&
      forall j | 0 <= j < |us| && Eligible(m, e, us, j) :: Strength(m, e, us[j]) <= Strength(m, e, us[i])
    case Created => |us| < MAX_UNIFIED_ELEMENTS && forall j | 0 <= j < |us| :: !Eligible(m, e, us, j)
    case Dropped => |us| >= MAX_UNIFIED_ELEMENTS && forall j | 0 <= j < |us| :: !Eligible(m, e, us, j)
  }

  function Step(us: seq<Unified>, e: RawElement, d: Decision, base: nat): seq<Unified> {
    match d
    case Created => us + [Create(e, base + |us| + 1)]
    case Merged(i) => if i < |us| then us[i := Absorb(us[i], e)] else us
    case Dropped => us
  }

  /** The elements after the inputs `es` with decisions `ds`, references counting on from base. */
  function Fuse(es: seq<RawElement>, ds: seq<Decision>, base: nat): seq<Unified>
    requires |es| == |ds|
  {
    if es == [] then []
    else
      var n := |es| - 1;
      Step(Fuse(es[..n], ds[..n], base), es[n], ds[n], base)
  }

  predicate FitsAt(m: Matcher, es: seq<RawElement>, ds: seq<Decision>, base: nat, i: nat)
    requires |es| == |ds| && i < |es|
  {
    Fits(m, es[i], Fuse(es[..i], ds[..i], base), ds[i])
  }

  /** Every decision is one the algorithm may take. */
  predicate Run(m: Matcher, es: seq<RawElement>, ds: seq<Decision>, base: nat) {
    |es| == |ds| && forall i | 0 <= i < |es| :: FitsAt(m, es, ds, base, i)
  }

  // ----- the objects -----

  class UnifiedElement {
    const ref: nat
    const role: string
    const bounds: Bounds
    var name: string
    var value: string
    var state: string
    var sources: seq<string>
    var confidence: real
    var actionable: bool
    var app: string

    ghost function View(): Unified
      reads this
    {
      Unified(ref, role, name, value, state, bounds, sources, confidence, actionable, app)
    }

    constructor (ref: nat, e: RawElement, bounds: Bounds)
      requires bounds == Coerce(e.bounds)
      ensures View() == Create(e, ref)
    {
      this.ref, role, this.bounds := ref, e.role, bounds;
      name, value, state, app := e.name, e.value, e.state, e.app;
      sources, confidence, actionable := [e.source], BaseConfidence(e.source), e.actionable;
    }

    method MergeTexts(e: RawElement)
      modifies this
      ensures View() == old(View()).(name := BetterName(old(name), e), value := Prefer(old(value), e.value),
        state := Prefer(old(state), e.state))
    {
      if name == "" && e.name != "" {
        name := e.name;
      } else if e.source == "ocr" && e.name != "" && |name| < 5 < |e.name| {
        name := e.name;
      }
      if value == "" && e.value != "" {
        value := e.value;
      }
      if state == "" && e.state != "" {
        state := e.state;
      }
    }

    method Merge(e: RawElement)
      modifies this
      ensures View() == Absorb(old(View()), e)
    {
      MergeTexts(e);
      sources := sources + [e.source];
      confidence := Raise(confidence);
      actionable := actionable || e.actionable;
      if app == "" && e.app != "" {
        app := e.app;
      }
    }
  }

  ghost function Views(us: seq<UnifiedElement>): (vs: seq<Unified>)
    reads us
    ensures |vs| == |us| && forall i | 0 <= i < |us| :: vs[i] == us[i].View()
  {
    if us == [] then [] else Views(us[..|us| - 1]) + [us[|us| - 1].View()]
  }

  predicate Separate(us: seq<UnifiedElement>) {
    forall i, j | 0 <= i < j < |us| :: us[i] != us[j]
  }

  type SpatialGrid = map<Point, seq<nat>>

  function InGrid(grid: SpatialGrid, key: Point): seq<nat> {
    if key in grid then grid[key] else []
  }

  predicate Belongs(us: seq<Unified>, i: nat, key: Point) {
    i < |us| && Bounded(us[i].bounds) && Cell(us[i].bounds) == key
  }

  /** The grid holds exactly the bounded elements, each in the cell of its centre. */
  ghost predicate GridExact(us: seq<Unified>, grid: SpatialGrid) {
    forall i, key :: i in InGrid(grid, key) <==> Belongs(us, i, key)
  }

  /** Offsets already looked up when the loops are at (dx, dy). */
  predicate Visited(key: Point, cell: Point, dx: int, dy: int) {
    var x, y := cell.x - key.x, cell.y - key.y;
    -1 <= x <= 1 && -1 <= y <= 1 && (x < dx || (x == dx && y < dy))
  }

  predicate Found(us: seq<Unified>, i: nat, key: Point, dx: int, dy: int) {
    i < |us| && Bounded(us[i].bounds) && Visited(key, Cell(us[i].bounds), dx, dy)
  }

  method Neighbours(ghost us: seq<Unified>, grid: SpatialGrid, key: Point) returns (found: set<nat>)
    requires GridExact(us, grid)
    ensures forall i: nat :: i in found <==> i < |us| && Bounded(us[i].bounds) && Adjacent(Cell(us[i].bounds), key)
  {
    found := {};
    for dx := -1 to 2
      invariant forall i: nat :: i in found <==> Found(us, i, key, dx, -1)
    {
      for dy := -1 to 2
        invariant forall i: nat :: i in found <==> Found(us, i, key, dx, dy)
      {
        var cell := InGrid(grid, Point(key.x + dx, key.y + dy));
        assert forall i: nat :: i in cell <==> Belongs(us, i, Point(key.x + dx, key.y + dy));
        found := found + (set i | i in cell);
      }
    }
  }

  /** The scan over the candidates, in any order. */
  method BestMatch(m: Matcher, e: RawElement, unified: seq<UnifiedElement>, found: set<nat>) returns (best: Option<nat>)
    requires forall i | i in found :: i < |unified|
    ensures best.Some? ==> best.value in found && Matches(m, e, Views(unified)[best.value])
    ensures best.Some? ==> forall j | j in found && Matches(m, e, Views(unified)[j]) ::
      Strength(m, e, Views(unified)[j]) <= Strength(m, e, Views(unified)[best.value])
    ensures best.None? ==> forall j | j in found :: !Matches(m, e, Views(unified)[j])
  {
    ghost var us := Views(unified);
    var remaining, bestEvidence := found, 0.0;
    best := None;
    while remaining != {}
      invariant remaining <= found
      invariant best.None? ==> bestEvidence == 0.0 && forall j | j in found - remaining :: !Matches(m, e, us[j])
      invariant best.Some? ==> best.value in found && Matches(m, e, us[best.value])
      invariant best.Some? ==> bestEvidence == Strength(m, e, us[best.value]) > 0.0
      invariant best.Some? ==> forall j | j in found - remaining && Matches(m, e, us[j]) ::
        Strength(m, e, us[j]) <= bestEvidence
      decreases |remaining|
    {
      var i := Pick(remaining);
      remaining := remaining - {i};
      var candidate := unified[i];
      assert us[i] == candidate.View();
      if e.source in candidate.sources || !RolesCompatible(m, e.role, candidate.role) {
        continue;
      }
      var mine, theirs := RawSight(e), Sight(candidate.role, candidate.name, candidate.bounds);
      if !Corroborated(m, mine, theirs) {
        continue;
      }
      MatchHasEvidence(m, mine, theirs);
      var evidence := Evidence(m, mine, theirs);
      if evidence > bestEvidence {
        best, bestEvidence := Some(i), evidence;
      }
    }
  }

  lemma ViewsAppend(us: seq<UnifiedElement>, u: UnifiedElement)
    ensures Views(us + [u]) == Views(us) + [u.View()]
  {
    assert (us + [u])[..|us|] == us;
  }

  function AddToGrid(grid: SpatialGrid, bounds: Bounds, index: nat): SpatialGrid {
    if Bounded(bounds) then grid[Cell(bounds) := InGrid(grid, Cell(bounds)) + [index]] else grid
  }

  lemma GridKeeps(us: seq<Unified>, grid: SpatialGrid, us': seq<Unified>)
    requires GridExact(us, grid) && |us| == |us'|
    requires forall i | 0 <= i < |us| :: us'[i].bounds == us[i].bounds
    ensures GridExact(us', grid)
  {
    forall i: nat, k ensures i in InGrid(grid, k) <==> Belongs(us', i, k) {
      assert i in InGrid(grid, k) <==> Belongs(us, i, k);
    }
  }

  lemma GridAppend(us: seq<Unified>, grid: SpatialGrid, u: Unified)
    requires GridExact(us, grid)
    ensures GridExact(us + [u], AddToGrid(grid, u.bounds, |us|))
  {
    var us', grid' := us + [u], AddToGrid(grid, u.bounds, |us|);
    forall i: nat, k ensures i in InGrid(grid', k) <==> Belongs(us', i, k) {
      assert i in InGrid(grid, k) <==> Belongs(us, i, k);
    }
  }

  /** `_merge_elements`. The decisions it takes are reported as a ghost. */
  class CVFusion {
    var refCounter: nat

    constructor ()
      ensures refCounter == 0
    {
      refCounter := 0;
    }

    method NextRef() returns (ref: nat)
      modifies this
      ensures ref == refCounter == old(refCounter) + 1
    {
      refCounter := refCounter + 1;
      ref := refCounter;
    }

    /** The candidates and the choice among them for one input. */
    method Choose(m: Matcher, e: RawElement, unified: seq<UnifiedElement>, grid: SpatialGrid, ghost us: seq<Unified>)
        returns (best: Option<nat>)
      requires us == Views(unified) && GridExact(us, grid)
      ensures best.Some? ==> Fits(m, e, us, Merged(best.value))
      ensures best.None? ==> forall j | 0 <= j < |us| :: !Eligible(m, e, us, j)
    {
      if !Bounded(e.bounds) {
        return None;
      }
      var found := Neighbours(us, grid, Cell(e.bounds));
      best := BestMatch(m, e, unified, found);
      assert forall j :: 0 <= j < |us| && Eligible(m, e, us, j) ==> j in found;
    }

    method MergeElements(m: Matcher, raw: seq<RawElement>) returns (unified: seq<UnifiedElement>, ghost ds: seq<Decision>)
      modifies this
      ensures Run(m, Taken(raw), ds, old(refCounter))
      ensures Views(unified) == Fuse(Taken(raw), ds, old(refCounter)) && refCounter == old(refCounter) + |unified|
      ensures Separate(unified) && forall i | 0 <= i < |unified| :: fresh(unified[i])
    {
      var es := Taken(raw);
      var grid: SpatialGrid := map[];
      unified, ds := [], [];
      ghost var base := refCounter;
      for n := 0 to |es|
        invariant |ds| == n && Run(m, es[..n], ds, base)
        invariant Views(unified) == Fuse(es[..n], ds, base) && refCounter == base + |unified|
        invariant Separate(unified) && forall i | 0 <= i < |unified| :: fresh(unified[i])
        invariant GridExact(Views(unified), grid)
      {
        ghost var d;
        ghost var us := Views(unified);
        unified, grid, d := Place(m, es[n], unified, grid, us, base);
        RunGrows(m, es, ds, d, base);
        ds := ds + [d];
      }
      assert es[..|es|] == es;
    }

    /** What one input does: the choice, then a merge or a new element. */
    method Place(m: Matcher, e: RawElement, unified: seq<UnifiedElement>, grid: SpatialGrid, ghost us: seq<Unified>, ghost base: nat)
        returns (unified': seq<UnifiedElement>, grid': SpatialGrid, ghost d: Decision)
      requires Separate(unified) && us == Views(unified) && GridExact(us, grid) && refCounter == base + |unified|
      modifies this, unified
      ensures Fits(m, e, us, d)
      ensures Views(unified') == Step(us, e, d, base) && refCounter == base + |unified'|
      ensures Separate(unified') && unified <= unified' && forall i | |unified| <= i < |unified'| :: fresh(unified'[i])
      ensures GridExact(Views(unified'), grid')
    {
      var best := Choose(m, e, unified, grid, us);
      if best.None? {
        unified', grid' := Append(e, unified, grid, us, base);
        d := if |us| < MAX_UNIFIED_ELEMENTS then Created else Dropped;
      } else {
        unified', grid', d := unified, grid, Merged(best.value);
        MergeAt(e, unified, best.value, us);
        GridKeeps(us, grid, Views(unified));
      }
    }

    method Append(e: RawElement, unified: seq<UnifiedElement>, grid: SpatialGrid, ghost us: seq<Unified>, ghost base: nat)
        returns (unified': seq<UnifiedElement>, grid': SpatialGrid)
      requires Separate(unified) && us == Views(unified) && GridExact(us, grid) && refCounter == base + |unified|
      modifies this
      ensures Views(unified') == Step(us, e, if |us| < MAX_UNIFIED_ELEMENTS then Created else Dropped, base)
      ensures refCounter == base + |unified'|
      ensures Separate(unified') && unified <= unified' && forall i | |unified| <= i < |unified'| :: fresh(unified'[i])
      ensures GridExact(Views(unified'), grid')
    {
      if |unified| >= MAX_UNIFIED_ELEMENTS {
        return unified, grid;
      }
      var created := NewElement(e);
      assert Views(unified) == us && created.View() == Create(e, base + |us| + 1);
      unified' := unified + [created];
      grid' := AddToGrid(grid, created.bounds, |unified|);
      ViewsAppend(unified, created);
      GridAppend(us, grid, created.View());
    }

    method NewElement(e: RawElement) returns (created: UnifiedElement)
      modifies this
      ensures refCounter == old(refCounter) + 1
      ensures fresh(created) && created.View() == Create(e, refCounter)
    {
      var ref := NextRef();
      created := new UnifiedElement(ref, e, Coerce(e.bounds));
    }

    method MergeAt(e: RawElement, unified: seq<UnifiedElement>, i: nat, ghost us: seq<Unified>)
      requires i < |unified| && Separate(unified) && us == Views(unified)
      modifies unified[i]
      ensures Views(unified) == us[i := Absorb(us[i], e)]
    {
      unified[i].Merge(e);
      assert forall j :: 0 <= j < |unified| && j != i ==> unified[j] != unified[i];
    }
  }

  lemma RunGrows(m: Matcher, es: seq<RawElement>, ds: seq<Decision>, d: Decision, base: nat)
    requires |ds| < |es| && Run(m, es[..|ds|], ds, base)
    requires Fits(m, es[|ds|], Fuse(es[..|ds|], ds, base), d)
    ensures Run(m, es[..|ds| + 1], ds + [d], base)
    ensures Fuse(es[..|ds| + 1], ds + [d], base) == Step(Fuse(es[..|ds|], ds, base), es[|ds|], d, base)
  {
    var n := |ds|;
    var es', ds' := es[..n + 1], ds + [d];
    assert es'[..n] == es[..n] && ds'[..n] == ds;
    forall i: nat | i < n + 1 ensures FitsAt(m, es', ds', base, i) {
      if i < n {
        assert FitsAt(m, es[..n], ds, base, i);
        assert es'[..i] == es[..n][..i] && ds'[..i] == ds[..i];
      }
    }
  }
}
