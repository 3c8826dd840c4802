/** The boxes of tools/dmap.py and their areas, which are numbers of unit cells. */
module OverlapCells {

  datatype Box = Box(x: int, y: int, w: nat, h: nat)

  datatype Element = Element(kind: string, box: Box)

  function Area(e: Element): nat {
    Rectangle(e.box.w, e.box.h)
  }

  function Max(a: int, b: int): int { if a < b then b else a }

  function Min(a: int, b: int): int { if a < b then a else b }

  function Rectangle(w: nat, h: nat): nat {
    w * h
  }

  /** The area of the intersection, 0 when there is none. */
  function Intersection(a: Element, b: Element): nat {
    var x1, y1 := Max(a.box.x, b.box.x), Max(a.box.y, b.box.y);
    var x2, y2 := Min(a.box.x + a.box.w, b.box.x + b.box.w), Min(a.box.y + a.box.h, b.box.y + b.box.h);
    if x1 < x2 && y1 < y2 then Rectangle(x2 - x1, y2 - y1) else 0
  }

  // ----- unit cells -----

  type Cell = (int, int)

  predicate Covers(b: Box, c: Cell) {
    b.x <= c.0 < b.x + b.w && b.y <= c.1 < b.y + b.h
  }

  /** The unit cells of a box. */
  ghost function Cells(b: Box): set<Cell> {
    set x, y | b.x <= x < b.x + b.w && b.y <= y < b.y + b.h :: (x, y)
  }

  lemma {:induction false} ColumnCount(x: int, y: int, h: nat)
    ensures |Cells(Box(x, y, 1, h))| == h
  {
    if h == 0 {
      assert Cells(Box(x, y, 1, 0)) == {};
    } else {
      ColumnCount(x, y, h - 1);
      assert Cells(Box(x, y, 1, h)) == Cells(Box(x, y, 1, h - 1)) + {(x, y + h - 1)};
    }
  }

  /** The area is the number of cells. */
  lemma {:induction false} AreaIsCells(x: int, y: int, w: nat, h: nat)
    ensures |Cells(Box(x, y, w, h))| == Rectangle(w, h)
  {
    if w == 0 {
      assert Cells(Box(x, y, 0, h)) == {};
    } else {
      AreaIsCells(x, y, w - 1, h);
      ColumnCount(x + w - 1, y, h);
      var front, column := Cells(Box(x, y, w - 1, h)), Cells(Box(x + w - 1, y, 1, h));
      assert Cells(Box(x, y, w, h)) == front + column && front !! column;
      assert Rectangle(w, h) == Rectangle(w - 1, h) + h;
    }
  }

  ghost function Shared(a: Box, b: Box): set<Cell> {
    Cells(a) * Cells(b)
  }

  lemma InCells(b: Box, c: Cell)
    ensures c in Cells(b) <==> Covers(b, c)
  {
    assert c == (c.0, c.1);
  }

  /** `common` spans what both boxes span. */
  predicate Common(a: Box, b: Box, common: Box) {
    && common.x == Max(a.x, b.x) && common.x + common.w == Min(a.x + a.w, b.x + b.w)
    && common.y == Max(a.y, b.y) && common.y + common.h == Min(a.y + a.h, b.y + b.h)
  }

  predicate Disjoint(a: Box, b: Box) {
    Max(a.x, b.x) >= Min(a.x + a.w, b.x + b.w) || Max(a.y, b.y) >= Min(a.y + a.h, b.y + b.h)
  }

  lemma SharedIsCommon(a: Box, b: Box, common: Box)
    requires Common(a, b, common)
    ensures Shared(a, b) == Cells(common)
  {
    forall c: Cell ensures c in Shared(a, b) <==> c in Cells(common) {
      InCells(a, c);
      InCells(b, c);
      InCells(common, c);
    }
  }

  lemma SharedIsNone(a: Box, b: Box)
    requires Disjoint(a, b)
    ensures Shared(a, b) == {}
  {
    forall c: Cell ensures c !in Shared(a, b) {
      InCells(a, c);
      InCells(b, c);
    }
  }

  lemma IntersectionIsCommon(a: Element, b: Element)
    ensures if Disjoint(a.box, b.box) then Intersection(a, b) == 0
      else exists common :: Common(a.box, b.box, common) && Intersection(a, b) == Rectangle(common.w, common.h)
  {
    if !Disjoint(a.box, b.box) {
      var x1, y1 := Max(a.box.x, b.box.x), Max(a.box.y, b.box.y);
      var x2, y2 := Min(a.box.x + a.box.w, b.box.x + b.box.w), Min(a.box.y + a.box.h, b.box.y + b.box.h);
      assert Common(a.box, b.box, Box(x1, y1, x2 - x1, y2 - y1));
    }
  }

  /** The intersection is the number of cells in both boxes. */
  lemma IntersectionIsShared(a: Element, b: Element)
    ensures Intersection(a, b) == |Shared(a.box, b.box)|
  {
    IntersectionIsCommon(a, b);
    if Disjoint(a.box, b.box) {
      SharedIsNone(a.box, b.box);
    } else {
      var common :| Common(a.box, b.box, common) && Intersection(a, b) == Rectangle(common.w, common.h);
      SharedIsCommon(a.box, b.box, common);
      AreaIsCells(common.x, common.y, common.w, common.h);
    }
  }

  /** How many cells an element has, and how many two elements share. */
  ghost function CellCount(e: Element): nat {
    |Cells(e.box)|
  }

  ghost function SharedCount(a: Element, b: Element): nat {
    |Shared(a.box, b.box)|
  }

  lemma CountsAreAreas(a: Element, b: Element)
    ensures Area(a) == CellCount(a) && Area(b) == CellCount(b) && Intersection(a, b) == SharedCount(a, b)
  {
    AreaIsCells(a.box.x, a.box.y, a.box.w, a.box.h);
    AreaIsCells(b.box.x, b.box.y, b.box.w, b.box.h);
    IntersectionIsShared(a, b);
  }
}
