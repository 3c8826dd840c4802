/**
 When two observations of tools/cv_fusion.py are taken for one element, and what the spatial
 grid can see. Text similarity and role normalization are abstract; areas and ratios are exact.
 */
module ElementMatching {

  /** x, y, width, height. */
  datatype Bounds = Bounds(x: int, y: int, w: int, h: int)

  datatype Point = Point(x: int, y: int)

  datatype Matcher = Matcher(normalize: string -> string, similarity: (string, string) -> real)

  const GRID_SIZE: int := 96

  function Max(a: int, b: int): int { if a < b then b else a }

  function Min(a: int, b: int): int { if a < b then a else b }

  predicate Bounded(b: Bounds) {
    b.w > 0 && b.h > 0
  }

  function Coerce(b: Bounds): (r: Bounds)
    ensures Bounded(r) || r == Bounds(0, 0, 0, 0)
  {
    if Bounded(b) then b else Bounds(0, 0, 0, 0)
  }

  function Center(b: Bounds): Point {
    Point(b.x + b.w / 2, b.y + b.h / 2)
  }

  function Cell(b: Bounds): Point {
    Point(Center(b).x / GRID_SIZE, Center(b).y / GRID_SIZE)
  }

  /** The cells of the 3x3 lookup. */
  predicate Adjacent(a: Point, b: Point) {
    -1 <= a.x - b.x <= 1 && -1 <= a.y - b.y <= 1
  }

  /** The signed extents of the intersection. */
  function OverlapX(a: Bounds, b: Bounds): int {
    Min(a.x + a.w, b.x + b.w) - Max(a.x, b.x)
  }

  function OverlapY(a: Bounds, b: Bounds): int {
    Min(a.y + a.h, b.y + b.h) - Max(a.y, b.y)
  }

  /** Intersection over union. */
  function Iou(a: Bounds, b: Bounds): real {
    var ix, iy := OverlapX(a, b), OverlapY(a, b);
    if ix <= 0 || iy <= 0 then 0.0
    else
      var inter := ix * iy;
      var union_ := a.w * a.h + b.w * b.h - inter;
      if union_ > 0 then inter as real / union_ as real else 0.0
  }

  /** The centre distance, squared. */
  function Distance2(a: Bounds, b: Bounds): int {
    var dx, dy := Center(a).x - Center(b).x, Center(a).y - Center(b).y;
    dx * dx + dy * dy
  }

  function RoleFamily(m: Matcher, role: string): string {
    var n := m.normalize(role);
    if n in {"button", "push_button", "toggle_button", "key", "control"} then "button"
    else if n in {"text", "label", "paragraph", "heading", "static", "static_text"} then "text"
    else if n in {"entry", "input", "text_field", "textbox", "searchbox", "combobox"} then "input"
    else if n in {"link"} then "link"
    else if n in {"checkbox", "check_box", "radio", "radio_button", "switch"} then "choice"
    else if n in {"menu", "menuitem", "menu_item", "tab", "page_tab"} then "menu"
    else if n == "" then "unknown"
    else n
  }

  predicate RolesCompatible(m: Matcher, left: string, right: string) {
    var l, r := RoleFamily(m, left), RoleFamily(m, right);
    l == r || ("text" in {l, r} && {l, r} * {"button", "input", "link", "choice", "menu"} != {})
  }

  /** What matching looks at. */
  datatype Sight = Sight(role: string, name: string, bounds: Bounds)

  predicate NearExact(m: Matcher, a: Sight, b: Sight) {
    Distance2(a.bounds, b.bounds) <= 100 && m.similarity(a.name, b.name) >= 0.85
  }

  predicate Corroborated(m: Matcher, a: Sight, b: Sight) {
    Iou(a.bounds, b.bounds) >= 0.5 ||
    (Iou(a.bounds, b.bounds) >= 0.15 && m.similarity(a.name, b.name) >= 0.65) ||
    NearExact(m, a, b)
  }

  function Evidence(m: Matcher, a: Sight, b: Sight): real {
    var overlap := Iou(a.bounds, b.bounds);
    var similarity := if Distance2(a.bounds, b.bounds) <= 2500 then m.similarity(a.name, b.name) else 0.0;
    if similarity > overlap then similarity else overlap
  }

  lemma CompatibleSymmetric(m: Matcher, left: string, right: string)
    ensures RolesCompatible(m, left, right) == RolesCompatible(m, right, left)
  {
    var l, r := RoleFamily(m, left), RoleFamily(m, right);
    assert {l, r} == {r, l};
  }

  /** A match always has evidence, so the best of several is always found. */
  lemma MatchHasEvidence(m: Matcher, a: Sight, b: Sight)
    requires Corroborated(m, a, b)
    ensures Evidence(m, a, b) > 0.0
  {
  }

  /** The evidence is the better of the overlap and, for centres at most 50 px apart, the text
      similarity. */
  lemma EvidenceIsBest(m: Matcher, a: Sight, b: Sight)
    ensures var e, overlap, similarity := Evidence(m, a, b), Iou(a.bounds, b.bounds), m.similarity(a.name, b.name);
      && e >= overlap && (Distance2(a.bounds, b.bounds) <= 50 * 50 ==> e >= similarity)
      && (e == overlap || e == 0.0 || (Distance2(a.bounds, b.bounds) <= 50 * 50 && e == similarity))
  {
  }

  // ----- what the grid sees -----

  lemma CloseCells(p: int, q: int)
    requires -GRID_SIZE <= p - q <= GRID_SIZE
    ensures -1 <= p / GRID_SIZE - q / GRID_SIZE <= 1
  {
  }

  /** Centres at most one cell width apart on both axes are in adjacent cells. */
  lemma CloseIsSeen(a: Bounds, b: Bounds)
    requires -GRID_SIZE <= Center(a).x - Center(b).x <= GRID_SIZE && -GRID_SIZE <= Center(a).y - Center(b).y <= GRID_SIZE
    ensures Adjacent(Cell(a), Cell(b))
  {
    CloseCells(Center(a).x, Center(b).x);
    CloseCells(Center(a).y, Center(b).y);
  }

  lemma SquareGrows(d: int, limit: int)
    requires limit >= 0 && (d > limit || -d > limit)
    ensures d * d > limit * limit
  {
  }

  lemma SquareBound(d: int, e: int, limit: int)
    requires limit >= 0 && d * d + e * e <= limit * limit
    ensures -limit <= d <= limit
  {
    assert e * e >= 0;
    if d > limit || -d > limit {
      SquareGrows(d, limit);
    }
  }

  /** The lookup never misses a near-exact text match. */
  lemma NearExactIsSeen(m: Matcher, a: Sight, b: Sight)
    requires NearExact(m, a, b)
    ensures Adjacent(Cell(a.bounds), Cell(b.bounds))
  {
    var dx, dy := Center(a.bounds).x - Center(b.bounds).x, Center(a.bounds).y - Center(b.bounds).y;
    SquareBound(dx, dy, 10);
    SquareBound(dy, dx, 10);
    CloseIsSeen(a.bounds, b.bounds);
  }

  /** c * intersection >= d * (sum of areas) carries over to the extents on one axis. */
  lemma Wide(c: nat, d: nat, ix: int, iy: int, wa: nat, ha: int, wb: nat, hb: int)
    requires 0 < iy <= ha && iy <= hb
    requires c * (ix * iy) >= d * (wa * ha + wb * hb)
    ensures c * ix >= d * (wa + wb)
  {
    var sum := wa + wb;
    Monotone(wa, ha, iy);
    Monotone(wb, hb, iy);
    assert wa * iy + wb * iy == sum * iy;
    Monotone(d, wa * ha + wb * hb, sum * iy);
    assert (c * ix) * iy == c * (ix * iy);
    assert (d * sum) * iy == d * (sum * iy);
    Cancel(c * ix, d * sum, iy);
  }

  lemma Monotone(d: nat, x: int, y: int)
    requires x >= y
    ensures d * x >= d * y
  {
  }

  lemma Cancel(x: int, y: int, k: int)
    requires k > 0 && x * k >= y * k
    ensures x >= y
  {
  }

  /** An overlap of at least p/q, as integers. */
  lemma IouAsAreas(a: Bounds, b: Bounds, p: nat, q: nat)
    requires Bounded(a) && Bounded(b) && 0 < p <= q && Iou(a, b) >= p as real / q as real
    ensures OverlapX(a, b) > 0 && OverlapY(a, b) > 0
    ensures (p + q) * (OverlapX(a, b) * OverlapY(a, b)) >= p * (a.w * a.h + b.w * b.h)
  {
    var inter := OverlapX(a, b) * OverlapY(a, b);
    var union_ := a.w * a.h + b.w * b.h - inter;
    CrossMultiply(inter, union_, p, q);
    Rearrange(p, q, inter, a.w * a.h + b.w * b.h);
  }

  lemma Rearrange(p: nat, q: nat, part: int, total: int)
    requires q * part >= p * (total - part)
    ensures (p + q) * part >= p * total
  {
  }

  lemma CrossMultiply(n: int, d: int, p: nat, q: nat)
    requires d > 0 && q > 0 && n as real / d as real >= p as real / q as real
    ensures q * n >= p * d
  {
    var x, y := n as real / d as real, p as real / q as real;
    assert x * d as real == n as real && y * q as real == p as real;
    assert (x * d as real) * q as real >= (y * d as real) * q as real;
    assert (n * q) as real >= (p * d) as real;
  }

  /** The centres of two intervals that overlap by i. */
  lemma CentersApart(a: int, wa: nat, b: int, wb: nat, i: int)
    requires i == Min(a + wa, b + wb) - Max(a, b)
    ensures 2 * ((a + wa / 2) - (b + wb / 2)) <= wa + wb + 1 - 2 * i
    ensures 2 * ((b + wb / 2) - (a + wa / 2)) <= wa + wb + 1 - 2 * i
  {
  }

  predicate SidesWithin(b: Bounds, m: int) {
    Bounded(b) && b.w <= m && b.h <= m
  }

  /** An overlap of at least p/q bounds the extents on each axis. */
  lemma OverlapExtents(a: Bounds, b: Bounds, p: nat, q: nat)
    requires Bounded(a) && Bounded(b) && 0 < p <= q && Iou(a, b) >= p as real / q as real
    ensures (p + q) * OverlapX(a, b) >= p * (a.w + b.w)
    ensures (p + q) * OverlapY(a, b) >= p * (a.h + b.h)
  {
    var ix, iy := OverlapX(a, b), OverlapY(a, b);
    IouAsAreas(a, b, p, q);
    Wide(p + q, p, ix, iy, a.w, a.h, b.w, b.h);
    Commute(ix, iy);
    Commute(a.w, a.h);
    Commute(b.w, b.h);
    Wide(p + q, p, iy, ix, a.h, a.w, b.h, b.w);
  }

  lemma Commute(x: int, y: int)
    ensures x * y == y * x
  {
  }

  lemma CentersAreSeen(a: Bounds, b: Bounds)
    requires Bounded(a) && Bounded(b)
    requires a.w + b.w + 1 - 2 * OverlapX(a, b) < 2 * GRID_SIZE + 2
    requires a.h + b.h + 1 - 2 * OverlapY(a, b) < 2 * GRID_SIZE + 2
    ensures Adjacent(Cell(a), Cell(b))
  {
    CentersApart(a.x, a.w, b.x, b.w, OverlapX(a, b));
    CentersApart(a.y, a.h, b.y, b.h, OverlapY(a, b));
    CloseIsSeen(a, b);
  }

  predicate SeesPair(threshold: real, m: int, a: Bounds, b: Bounds) {
    SidesWithin(a, m) && SidesWithin(b, m) && Iou(a, b) >= threshold ==> Adjacent(Cell(a), Cell(b))
  }

  /** The grid sees every pair that overlaps by `threshold` with sides up to m. */
  ghost predicate GridSees(threshold: real, m: int) {
    forall a, b :: SeesPair(threshold, m, a, b)
  }

  lemma TextPair(m: int, a: Bounds, b: Bounds)
    requires m <= 131
    ensures SeesPair(0.15, m, a, b)
  {
    if SidesWithin(a, m) && SidesWithin(b, m) && Iou(a, b) >= 0.15 {
      OverlapExtents(a, b, 3, 20);
      CentersAreSeen(a, b);
    }
  }

  /** Boxes of height 10 whose x ranges overlap by i, with centres two cells apart. */
  lemma Unseen(a: Bounds, b: Bounds, i: int, m: int, threshold: real)
    requires SidesWithin(a, m) && SidesWithin(b, m) && a.h == b.h == 10 && a.y == b.y
    requires a.x <= b.x && a.x + a.w <= b.x + b.w && a.x + a.w - b.x == i > 0
    requires (i * 10) as real / (a.w * 10 + b.w * 10 - i * 10) as real >= threshold
    requires Cell(b).x - Cell(a).x > 1
    ensures !SeesPair(threshold, m, a, b)
  {
    assert OverlapX(a, b) == i && OverlapY(a, b) == 10;
    assert a.w * a.h + b.w * b.h - i * 10 > 0;
  }

  lemma IouSymmetric(a: Bounds, b: Bounds)
    ensures Iou(a, b) == Iou(b, a)
  {
    assert OverlapX(a, b) == OverlapX(b, a) && OverlapY(a, b) == OverlapY(b, a);
  }

  /** Boxes of 131 and 132 pixels that overlap by 0.15, with centres two cells apart. */
  lemma WideBoxes() returns (a: Bounds, b: Bounds)
    ensures SidesWithin(a, 132) && SidesWithin(b, 132)
    ensures Iou(b, a) >= 0.15 && !Adjacent(Cell(a), Cell(b))
  {
    a, b := Bounds(30, 0, 131, 10), Bounds(126, 0, 132, 10);
    Unseen(a, b, 35, 132, 0.15);
    IouSymmetric(a, b);
  }

  lemma TextPairUnseen(m: int)
    requires m > 131
    ensures exists a, b :: !SeesPair(0.15, m, a, b)
  {
    var a, b := Bounds(30, 0, 131, 10), Bounds(126, 0, 132, 10);
    Unseen(a, b, 35, m, 0.15);
  }

  /** Overlap backed by text is always found for sides up to 131 pixels, and no further: at 132
      a matching pair can be two cells apart. */
  lemma TextOverlapSeenIff(m: int)
    ensures GridSees(0.15, m) <==> m <= 131
  {
    if m <= 131 {
      forall a, b ensures SeesPair(0.15, m, a, b) {
        TextPair(m, a, b);
      }
    } else {
      TextPairUnseen(m);
    }
  }

  lemma StrongPair(m: int, a: Bounds, b: Bounds)
    requires m <= 289
    ensures SeesPair(0.5, m, a, b)
  {
    if SidesWithin(a, m) && SidesWithin(b, m) && Iou(a, b) >= 0.5 {
      OverlapExtents(a, b, 1, 2);
      CentersAreSeen(a, b);
    }
  }

  lemma StrongPairUnseen(m: int)
    requires m > 289
    ensures exists a, b :: !SeesPair(0.5, m, a, b)
  {
    var a, b := Bounds(-49, 0, 289, 10), Bounds(47, 0, 290, 10);
    Unseen(a, b, 193, m, 0.5);
  }

  /** Strong overlap is always found for sides up to 289 pixels, and no further. */
  lemma StrongOverlapSeenIff(m: int)
    ensures GridSees(0.5, m) <==> m <= 289
  {
    if m <= 289 {
      forall a, b ensures SeesPair(0.5, m, a, b) {
        StrongPair(m, a, b);
      }
    } else {
      StrongPairUnseen(m);
    }
  }

  /** With no side over 131 pixels the lookup misses no match at all. */
  lemma SmallMatchIsSeen(m: Matcher, a: Sight, b: Sight)
    requires SidesWithin(a.bounds, 131) && SidesWithin(b.bounds, 131) && Corroborated(m, a, b)
    ensures Adjacent(Cell(a.bounds), Cell(b.bounds))
  {
    if NearExact(m, a, b) {
      NearExactIsSeen(m, a, b);
    } else {
      TextPair(131, a.bounds, b.bounds);
    }
  }
}
