/** The overlap by which elements are matched (tools/cv_fusion.py, `_iou`), as shared pixels. */
module ElementAreas {
  import opened ElementMatching
  import Cells = OverlapCells

  function BoxOf(b: Bounds): Cells.Box
    requires Bounded(b)
  {
    Cells.Box(b.x, b.y, b.w, b.h)
  }

  ghost function Both(a: Bounds, b: Bounds): set<Cells.Cell>
    requires Bounded(a) && Bounded(b)
  {
    Cells.Shared(BoxOf(a), BoxOf(b))
  }

  ghost function Either(a: Bounds, b: Bounds): set<Cells.Cell>
    requires Bounded(a) && Bounded(b)
  {
    Cells.Cells(BoxOf(a)) + Cells.Cells(BoxOf(b))
  }

  lemma Counts(a: Bounds, b: Bounds)
    requires Bounded(a) && Bounded(b)
    ensures |Both(a, b)| == if OverlapX(a, b) > 0 && OverlapY(a, b) > 0 then OverlapX(a, b) * OverlapY(a, b) else 0
    ensures |Either(a, b)| == a.w * a.h + b.w * b.h - |Both(a, b)|
  {
    var e, f := Cells.Element("", BoxOf(a)), Cells.Element("", BoxOf(b));
    Cells.CountsAreAreas(e, f);
    assert Cells.Area(e) == a.w * a.h && Cells.Area(f) == b.w * b.h;
  }

  /** The overlap of two elements is the share of the pixels of either that are in both. */
  lemma IouIsShare(a: Bounds, b: Bounds)
    requires Bounded(a) && Bounded(b)
    ensures |Either(a, b)| > 0 && Iou(a, b) == |Both(a, b)| as real / |Either(a, b)| as real
  {
    Counts(a, b);
    assert Cells.Covers(BoxOf(a), (a.x, a.y));
    Cells.InCells(BoxOf(a), (a.x, a.y));
    assert (a.x, a.y) in Either(a, b);
  }
}
