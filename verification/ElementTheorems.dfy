/** What merging guarantees over any run, whatever order candidates are scanned in. */
module ElementTheorems {
  import opened ElementMatching
  import opened ElementFusion

  // ----- the order of the inputs -----

  lemma {:induction false} SplitByPriority(raw: seq<RawElement>)
    ensures multiset(raw) ==
      multiset(OfPriority(raw, 3)) + multiset(OfPriority(raw, 2)) + multiset(OfPriority(raw, 1)) + multiset(OfPriority(raw, 0))
  {
    if raw == [] {
    } else {
      assert raw == [raw[0]] + raw[1..];
      SplitByPriority(raw[1..]);
    }
  }

  /** Sources in falling trust are "atspi", "cdp", "ocr" and all others. */
  predicate NoLessTrusted(s: string, t: string) {
    && (t == "atspi" ==> s == "atspi")
    && (t == "cdp" ==> s == "atspi" || s == "cdp")
    && (t == "ocr" ==> s == "atspi" || s == "cdp" || s == "ocr")
  }

  predicate MostTrustedFirst(es: seq<RawElement>) {
    forall i, j | 0 <= i < j < |es| :: NoLessTrusted(es[i].source, es[j].source)
  }

  lemma TrustIsPriority(a: RawElement, b: RawElement)
    ensures NoLessTrusted(a.source, b.source) <==> Priority(a) >= Priority(b)
  {
  }

  /** Sorting loses no input. */
  lemma SortedInputs(raw: seq<RawElement>)
    ensures multiset(ByPriority(raw)) == multiset(raw)
  {
    SplitByPriority(raw);
  }

  /** The most trusted sources come first, also behind the cap. */
  lemma TrustedFirst(raw: seq<RawElement>)
    ensures MostTrustedFirst(ByPriority(raw)) && MostTrustedFirst(Taken(raw))
  {
    var a, b, c, d := OfPriority(raw, 3), OfPriority(raw, 2), OfPriority(raw, 1), OfPriority(raw, 0);
    var sorted := ByPriority(raw);
    forall i, j | 0 <= i < j < |sorted| ensures NoLessTrusted(sorted[i].source, sorted[j].source) {
      assert Priority(sorted[i]) >= Priority(sorted[j]);
      TrustIsPriority(sorted[i], sorted[j]);
    }
  }

  function OfSource(es: seq<RawElement>, source: string): seq<RawElement> {
    if es == [] then []
    else if es[0].source == source then [es[0]] + OfSource(es[1..], source)
    else OfSource(es[1..], source)
  }

  lemma {:induction false} OfSourceAppend(a: seq<RawElement>, b: seq<RawElement>, source: string)
    ensures OfSource(a + b, source) == OfSource(a, source) + OfSource(b, source)
  {
    if a == [] {
      assert a + b == b;
    } else {
      assert (a + b)[1..] == a[1..] + b;
      OfSourceAppend(a[1..], b, source);
    }
  }

  function Trust(source: string): nat {
    if source == "atspi" then 3 else if source == "cdp" then 2 else if source == "ocr" then 1 else 0
  }

  lemma {:induction false} OnePriority(raw: seq<RawElement>, p: nat, source: string)
    ensures OfSource(OfPriority(raw, p), source) == if Trust(source) == p then OfSource(raw, source) else []
  {
    if raw == [] {
    } else {
      var rest := OfPriority(raw[1..], p);
      OnePriority(raw[1..], p, source);
      if Priority(raw[0]) == p {
        assert ([raw[0]] + rest)[1..] == rest;
      } else {
        assert [] + rest == rest;
      }
    }
  }

  /** The inputs of one source stay in their order. */
  lemma SourceOrderKept(raw: seq<RawElement>, source: string)
    ensures OfSource(ByPriority(raw), source) == OfSource(raw, source)
  {
    var a, b, c, d := OfPriority(raw, 3), OfPriority(raw, 2), OfPriority(raw, 1), OfPriority(raw, 0);
    OfSourceAppend(a + b + c, d, source);
    OfSourceAppend(a + b, c, source);
    OfSourceAppend(a, b, source);
    OnePriority(raw, 3, source);
    OnePriority(raw, 2, source);
    OnePriority(raw, 1, source);
    OnePriority(raw, 0, source);
  }

  // ----- where each element comes from -----

  function CreatedCount(ds: seq<Decision>): nat {
    if ds == [] then 0
    else CreatedCount(ds[..|ds| - 1]) + if ds[|ds| - 1].Created? then 1 else 0
  }

  function DroppedCount(ds: seq<Decision>): nat {
    if ds == [] then 0
    else DroppedCount(ds[..|ds| - 1]) + if ds[|ds| - 1].Dropped? then 1 else 0
  }

  /** Whether the decision behind `before` puts its input into element k. */
  predicate PutsInto(before: seq<Decision>, d: Decision, k: nat) {
    d == Merged(k) || (d.Created? && CreatedCount(before) == k)
  }

  /** The inputs that went into element k, in order. */
  function Group(es: seq<RawElement>, ds: seq<Decision>, k: nat): seq<RawElement>
    requires |es| == |ds|
  {
    if es == [] then []
    else
      var n := |es| - 1;
      Group(es[..n], ds[..n], k) + if PutsInto(ds[..n], ds[n], k) then [es[n]] else []
  }

  /** The first input creates the element, the others merge into it. */
  function Blend(group: seq<RawElement>, ref: nat): Unified
    requires group != []
  {
    if |group| == 1 then Create(group[0], ref)
    else Absorb(Blend(group[..|group| - 1], ref), group[|group| - 1])
  }

  lemma RunFront(m: Matcher, es: seq<RawElement>, ds: seq<Decision>, base: nat)
    requires Run(m, es, ds, base) && es != []
    ensures var n := |es| - 1;
      Run(m, es[..n], ds[..n], base) && Fits(m, es[n], Fuse(es[..n], ds[..n], base), ds[n])
  {
    var n := |es| - 1;
    forall i: nat | i < n ensures FitsAt(m, es[..n], ds[..n], base, i) {
      assert FitsAt(m, es, ds, base, i);
      assert es[..n][..i] == es[..i] && ds[..n][..i] == ds[..i];
    }
    assert FitsAt(m, es, ds, base, n);
  }

  /** One element per creation, and never more than the cap. */
  lemma {:induction false} CreationsCounted(m: Matcher, es: seq<RawElement>, ds: seq<Decision>, base: nat)
    requires Run(m, es, ds, base)
    ensures |Fuse(es, ds, base)| == CreatedCount(ds) <= MAX_UNIFIED_ELEMENTS
  {
    if es == [] {
    } else {
      RunFront(m, es, ds, base);
      CreationsCounted(m, es[..|es| - 1], ds[..|es| - 1], base);
    }
  }

  /** Every element is the blend of the inputs that were put into it, numbered in order. */
  lemma {:induction false} Provenance(m: Matcher, es: seq<RawElement>, ds: seq<Decision>, base: nat, k: nat)
    requires Run(m, es, ds, base)
    ensures Group(es, ds, k) != [] <==> k < |Fuse(es, ds, base)|
    ensures k < |Fuse(es, ds, base)| ==> Fuse(es, ds, base)[k] == Blend(Group(es, ds, k), base + k + 1)
  {
    if es == [] {
    } else {
      var n := |es| - 1;
      RunFront(m, es, ds, base);
      CreationsCounted(m, es[..n], ds[..n], base);
      Provenance(m, es[..n], ds[..n], base, k);
      var before := Group(es[..n], ds[..n], k);
      if PutsInto(ds[..n], ds[n], k) {
        assert (before + [es[n]])[..|before|] == before;
      } else {
        assert before + [] == before;
      }
    }
  }

  function Sources(group: seq<RawElement>): (s: seq<string>)
    ensures |s| == |group| && forall i | 0 <= i < |s| :: s[i] == group[i].source
  {
    seq(|group|, i requires 0 <= i < |group| => group[i].source)
  }

  /** The text of the first, so the most trusted, input that has one. */
  predicate FirstText(texts: seq<string>, text: string) {
    if text == "" then forall i | 0 <= i < |texts| :: texts[i] == ""
    else exists i | 0 <= i < |texts| :: texts[i] == text && forall j | 0 <= j < i :: texts[j] == ""
  }

  lemma FirstTextGrows(texts: seq<string>, text: string, next: string)
    requires FirstText(texts, text)
    ensures FirstText(texts + [next], Prefer(text, next))
  {
    var all := texts + [next];
    if text == "" {
      assert all[|texts|] == next && forall j :: 0 <= j < |texts| ==> all[j] == "";
    } else {
      var i :| 0 <= i < |texts| && texts[i] == text && forall j | 0 <= j < i :: texts[j] == "";
      assert all[i] == text && forall j :: 0 <= j < i ==> all[j] == texts[j];
    }
  }

  function Values(group: seq<RawElement>): (s: seq<string>)
    ensures |s| == |group|
  {
    if group == [] then [] else Values(group[..|group| - 1]) + [group[|group| - 1].value]
  }

  function States(group: seq<RawElement>): (s: seq<string>)
    ensures |s| == |group|
  {
    if group == [] then [] else States(group[..|group| - 1]) + [group[|group| - 1].state]
  }

  function Apps(group: seq<RawElement>): (s: seq<string>)
    ensures |s| == |group|
  {
    if group == [] then [] else Apps(group[..|group| - 1]) + [group[|group| - 1].app]
  }

  /** Role, box and reference come from the first input; value, state and app from the first
      that has one; every source is kept. */
  lemma {:induction false} BlendKeepsFirst(group: seq<RawElement>, ref: nat)
    requires group != []
    ensures var u := Blend(group, ref);
      && u.ref == ref && u.role == group[0].role && u.bounds == Coerce(group[0].bounds)
      && u.sources == Sources(group)
      && FirstText(Values(group), u.value) && FirstText(States(group), u.state) && FirstText(Apps(group), u.app)
  {
    var n := |group| - 1;
    if n > 0 {
      var front, last := group[..n], group[n];
      BlendKeepsFirst(front, ref);
      var u := Blend(front, ref);
      FirstTextGrows(Values(front), u.value, last.value);
      FirstTextGrows(States(front), u.state, last.state);
      FirstTextGrows(Apps(front), u.app, last.app);
    } else {
      assert Values(group) == [group[0].value] && States(group) == [group[0].state] && Apps(group) == [group[0].app];
      FirstOfOne(group[0].value);
      FirstOfOne(group[0].state);
      FirstOfOne(group[0].app);
    }
  }

  lemma FirstOfOne(text: string)
    ensures FirstText([text], text)
  {
    assert [text][0] == text;
  }

  /** Input i is the first that has a name. */
  predicate FirstNamed(group: seq<RawElement>, i: int) {
    0 <= i < |group| && group[i].name != "" && forall j | 0 <= j < i :: group[j].name == ""
  }

  /** Text recognition at j offers a name of more than 5 characters for the name of input i,
      which has fewer than 5. */
  predicate Improves(group: seq<RawElement>, i: int, j: int) {
    && 0 <= i < j < |group| && |group[i].name| < 5
    && group[j].source == "ocr" && 5 < |group[j].name|
  }

  predicate FirstImproves(group: seq<RawElement>, i: int, j: int) {
    Improves(group, i, j) && forall k | i < k < j :: !Improves(group, i, k)
  }

  predicate Unnamed(group: seq<RawElement>) {
    forall i | 0 <= i < |group| :: group[i].name == ""
  }

  predicate NeverImproved(group: seq<RawElement>, i: int) {
    forall j | i < j < |group| :: !Improves(group, i, j)
  }

  /** The name is that of the first input that has one, or of the first text recognition behind
      it that improves on it. */
  ghost predicate NamedBy(group: seq<RawElement>, name: string) {
    || (Unnamed(group) && name == "")
    || (exists i :: FirstNamed(group, i) && NeverImproved(group, i) && name == group[i].name)
    || (exists i, j :: FirstNamed(group, i) && FirstImproves(group, i, j) && name == group[j].name)
  }

  lemma FirstNamedGrows(group: seq<RawElement>, e: RawElement, i: int)
    requires FirstNamed(group, i)
    ensures FirstNamed(group + [e], i)
  {
  }

  lemma ImprovesGrows(group: seq<RawElement>, e: RawElement, i: int, j: int)
    requires j < |group|
    ensures Improves(group + [e], i, j) <==> Improves(group, i, j)
  {
  }

  lemma NamedByGrows(group: seq<RawElement>, name: string, e: RawElement)
    requires NamedBy(group, name)
    ensures NamedBy(group + [e], BetterName(name, e))
  {
    var all, n := group + [e], |group|;
    if Unnamed(group) && name == "" {
      if e.name != "" {
        assert FirstNamed(all, n);
      }
    } else if i :| FirstNamed(group, i) && NeverImproved(group, i) && name == group[i].name {
      FirstNamedGrows(group, e, i);
      forall j | i < j < n ensures !Improves(all, i, j) { ImprovesGrows(group, e, i, j); }
      if Improves(all, i, n) {
        assert FirstImproves(all, i, n);
      } else {
        assert NeverImproved(all, i);
      }
    } else {
      var i, j :| FirstNamed(group, i) && FirstImproves(group, i, j) && name == group[j].name;
      FirstNamedGrows(group, e, i);
      ImprovesGrows(group, e, i, j);
      forall k | i < k < j ensures !Improves(all, i, k) { ImprovesGrows(group, e, i, k); }
      assert FirstImproves(all, i, j);
    }
  }

  lemma {:induction false} BlendName(group: seq<RawElement>, ref: nat)
    requires group != []
    ensures NamedBy(group, Blend(group, ref).name)
  {
    var n := |group| - 1;
    if n > 0 {
      BlendName(group[..n], ref);
      NamedByGrows(group[..n], Blend(group[..n], ref).name, group[n]);
      assert group[..n] + [group[n]] == group;
    } else if group[0].name != "" {
      assert FirstNamed(group, 0);
    }
  }

  /** Confidence grows by 0.15 for each further source, up to one; any actionable input makes
      the element actionable. */
  lemma {:induction false} BlendConfidence(group: seq<RawElement>, ref: nat)
    requires group != []
    ensures var c := BaseConfidence(group[0].source) + 0.15 * (|group| - 1) as real;
      Blend(group, ref).confidence == if c < 1.0 then c else 1.0
    ensures Blend(group, ref).actionable <==> exists i | 0 <= i < |group| :: group[i].actionable
  {
    var n := |group| - 1;
    if n > 0 {
      BlendConfidence(group[..n], ref);
      assert 0.15 * n as real == 0.15 * (n - 1) as real + 0.15;
      if group[n].actionable || exists i | 0 <= i < n :: group[..n][i].actionable {
        var i :| 0 <= i <= n && group[i].actionable;
      }
    }
  }

  predicate Distinct(s: seq<string>) {
    forall i, j | 0 <= i < j < |s| :: s[i] != s[j]
  }

  /** No element merges two inputs of one source. */
  lemma {:induction false} SourcesDistinct(m: Matcher, es: seq<RawElement>, ds: seq<Decision>, base: nat, k: nat)
    requires Run(m, es, ds, base) && k < |Fuse(es, ds, base)|
    ensures Distinct(Fuse(es, ds, base)[k].sources)
  {
    var n := |es| - 1;
    RunFront(m, es, ds, base);
    if k < |Fuse(es[..n], ds[..n], base)| {
      SourcesDistinct(m, es[..n], ds[..n], base, k);
    }
  }

  function SourceCount(us: seq<Unified>): nat {
    if us == [] then 0 else SourceCount(us[..|us| - 1]) + |us[|us| - 1].sources|
  }

  lemma {:induction false} SourceCountUpdate(us: seq<Unified>, i: nat, u: Unified)
    requires i < |us| && |u.sources| == |us[i].sources| + 1
    ensures SourceCount(us[i := u]) == SourceCount(us) + 1
  {
    var n := |us| - 1;
    if i < n {
      SourceCountUpdate(us[..n], i, u);
      assert us[i := u][..n] == us[..n][i := u];
    } else {
      assert us[i := u][..n] == us[..n];
    }
  }

  /** Conservation: every input is one source of one element, or was dropped. */
  lemma {:induction false} InputsConserved(m: Matcher, es: seq<RawElement>, ds: seq<Decision>, base: nat)
    requires Run(m, es, ds, base)
    ensures SourceCount(Fuse(es, ds, base)) + DroppedCount(ds) == |es|
  {
    if es == [] {
    } else {
      var n := |es| - 1;
      RunFront(m, es, ds, base);
      InputsConserved(m, es[..n], ds[..n], base);
      var us := Fuse(es[..n], ds[..n], base);
      match ds[n] {
        case Created =>
          var u := Create(es[n], base + |us| + 1);
          assert (us + [u])[..|us|] == us;
        case Merged(i) => SourceCountUpdate(us, i, Absorb(us[i], es[n]));
        case Dropped =>
      }
    }
  }

  function BeyondCap(raw: seq<RawElement>): nat {
    if |raw| <= MAX_RAW_ELEMENTS then 0 else |raw| - MAX_RAW_ELEMENTS
  }

  /** Of the whole list: every input is one source of one element, was dropped, or lay beyond
      the cap on inputs. */
  lemma AllInputsAccounted(m: Matcher, raw: seq<RawElement>, ds: seq<Decision>, base: nat)
    requires Run(m, Taken(raw), ds, base)
    ensures SourceCount(Fuse(Taken(raw), ds, base)) + DroppedCount(ds) + BeyondCap(raw) == |raw|
  {
    InputsConserved(m, Taken(raw), ds, base);
    SortedInputs(raw);
    assert |multiset(ByPriority(raw))| == |multiset(raw)|;
  }

  /** Inputs are dropped only when the result is full. */
  lemma {:induction false} DroppedOnlyWhenFull(m: Matcher, es: seq<RawElement>, ds: seq<Decision>, base: nat)
    requires Run(m, es, ds, base)
    ensures DroppedCount(ds) > 0 ==> |Fuse(es, ds, base)| == MAX_UNIFIED_ELEMENTS
  {
    if es == [] {
    } else {
      RunFront(m, es, ds, base);
      CreationsCounted(m, es, ds, base);
      DroppedOnlyWhenFull(m, es[..|es| - 1], ds[..|es| - 1], base);
    }
  }

  lemma {:induction false} GroupInOrder(es: seq<RawElement>, ds: seq<Decision>, k: nat)
    requires |es| == |ds| && MostTrustedFirst(es)
    ensures MostTrustedFirst(Group(es, ds, k))
    ensures es != [] ==> forall e | e in Group(es, ds, k) :: NoLessTrusted(e.source, es[|es| - 1].source)
  {
    if es == [] {
    } else {
      var n := |es| - 1;
      GroupInOrder(es[..n], ds[..n], k);
      assert n > 0 ==> NoLessTrusted(es[n - 1].source, es[n].source);
    }
  }

  /** What every further input of an element has in common with the first: a compatible role,
      and an overlap of at least 0.15 or a centre at most 10 px away. */
  predicate Agrees(m: Matcher, first: RawElement, e: RawElement) {
    && RolesCompatible(m, e.role, first.role)
    && (Iou(Coerce(e.bounds), Coerce(first.bounds)) >= 0.15 || Distance2(Coerce(e.bounds), Coerce(first.bounds)) <= 100)
  }

  lemma MatchAgrees(m: Matcher, first: RawElement, e: RawElement, u: Unified)
    requires Matches(m, e, u) && u.role == first.role && u.bounds == Coerce(first.bounds)
    ensures Agrees(m, first, e)
  {
  }

  lemma MergedMatches(m: Matcher, e: RawElement, us: seq<Unified>, k: nat)
    requires Fits(m, e, us, Merged(k))
    ensures k < |us| && Matches(m, e, us[k])
  {
  }

  lemma MergedAgrees(m: Matcher, es: seq<RawElement>, ds: seq<Decision>, base: nat, k: nat, e: RawElement, d: Decision)
    requires Run(m, es, ds, base) && Fits(m, e, Fuse(es, ds, base), d) && PutsInto(ds, d, k) && Group(es, ds, k) != []
    ensures Agrees(m, Group(es, ds, k)[0], e)
  {
    var us, group := Fuse(es, ds, base), Group(es, ds, k);
    CreationsCounted(m, es, ds, base);
    Provenance(m, es, ds, base, k);
    BlendKeepsFirst(group, base + k + 1);
    MergedMatches(m, e, us, k);
    MatchAgrees(m, group[0], e, us[k]);
  }

  /** Every input of an element agrees with the first one. */
  lemma {:induction false} GroupAgrees(m: Matcher, es: seq<RawElement>, ds: seq<Decision>, base: nat, k: nat, i: nat)
    requires Run(m, es, ds, base) && 0 < i < |Group(es, ds, k)|
    ensures Agrees(m, Group(es, ds, k)[0], Group(es, ds, k)[i])
  {
    var n := |es| - 1;
    var before := Group(es[..n], ds[..n], k);
    RunFront(m, es, ds, base);
    assert Group(es, ds, k) == before + if PutsInto(ds[..n], ds[n], k) then [es[n]] else [];
    if i < |before| {
      GroupAgrees(m, es[..n], ds[..n], base, k, i);
    } else {
      MergedAgrees(m, es[..n], ds[..n], base, k, es[n], ds[n]);
    }
  }

  // ----- nothing near is missed -----

  predicate Comparable(m: Matcher, e: RawElement, us: seq<Unified>, i: int) {
    0 <= i < |us| && Bounded(e.bounds) && Bounded(us[i].bounds) && Matches(m, e, us[i])
  }

  /** The decision a full scan over all elements may take. */
  predicate FullScanFits(m: Matcher, e: RawElement, us: seq<Unified>, d: Decision) {
    match d
    case Merged(i) =>
      Comparable(m, e, us, i) &&
      forall j | 0 <= j < |us| && Comparable(m, e, us, j) :: Strength(m, e, us[j]) <= Strength(m, e, us[i])
    case Created => |us| < MAX_UNIFIED_ELEMENTS && forall j | 0 <= j < |us| :: !Comparable(m, e, us, j)
    case Dropped => |us| >= MAX_UNIFIED_ELEMENTS && forall j | 0 <= j < |us| :: !Comparable(m, e, us, j)
  }

  predicate Small(e: RawElement) {
    Bounded(e.bounds) ==> SidesWithin(e.bounds, 131)
  }

  predicate SmallUnified(u: Unified) {
    Bounded(u.bounds) ==> SidesWithin(u.bounds, 131)
  }

  predicate AllSmall(es: seq<RawElement>) {
    forall i | 0 <= i < |es| :: Small(es[i])
  }

  lemma {:induction false} BoundsFromInputs(es: seq<RawElement>, ds: seq<Decision>, base: nat, k: nat)
    requires |es| == |ds| && AllSmall(es) && k < |Fuse(es, ds, base)|
    ensures SmallUnified(Fuse(es, ds, base)[k])
  {
    var n := |es| - 1;
    assert Small(es[n]);
    if k < |Fuse(es[..n], ds[..n], base)| {
      BoundsFromInputs(es[..n], ds[..n], base, k);
    }
  }

  lemma SmallEligible(m: Matcher, e: RawElement, us: seq<Unified>, j: nat)
    requires Comparable(m, e, us, j) && Small(e) && SmallUnified(us[j])
    ensures Eligible(m, e, us, j)
  {
    SmallMatchIsSeen(m, RawSight(e), UnifiedSight(us[j]));
    assert Adjacent(Cell(us[j].bounds), Cell(e.bounds));
  }

  /** With no side over 131 pixels the grid lookup decides exactly as a full scan would. */
  lemma GridIsFullScan(m: Matcher, es: seq<RawElement>, ds: seq<Decision>, base: nat, i: nat)
    requires Run(m, es, ds, base) && i < |es| && AllSmall(es)
    ensures FullScanFits(m, es[i], Fuse(es[..i], ds[..i], base), ds[i])
  {
    var e, us := es[i], Fuse(es[..i], ds[..i], base);
    assert FitsAt(m, es, ds, base, i) && Small(e);
    forall j | 0 <= j < |us| && Comparable(m, e, us, j) ensures Eligible(m, e, us, j) {
      BoundsFromInputs(es[..i], ds[..i], base, j);
      SmallEligible(m, e, us, j);
    }
    FitsWhenEligible(m, e, us, ds[i]);
  }

  lemma FitsWhenEligible(m: Matcher, e: RawElement, us: seq<Unified>, d: Decision)
    requires Fits(m, e, us, d) && forall j | 0 <= j < |us| && Comparable(m, e, us, j) :: Eligible(m, e, us, j)
    ensures FullScanFits(m, e, us, d)
  {
  }

  lemma TwoCreated(m: Matcher, a: RawElement, b: RawElement)
    requires Matches(m, b, Create(a, 1)) && !Seen(b, Create(a, 1)) && Bounded(a.bounds) && Bounded(b.bounds)
    ensures Run(m, [a, b], [Created, Created], 0)
    ensures !FullScanFits(m, b, [Create(a, 1)], Created)
  {
    var es, ds, us := [a, b], [Created, Created], [Create(a, 1)];
    OneInput(a, 0);
    assert es[..1] == [a] && ds[..1] == [Created] && es[..0] == [] && ds[..0] == [];
    assert Comparable(m, b, us, 0) && !Eligible(m, b, us, 0);
    assert FitsAt(m, es, ds, 0, 0) && FitsAt(m, es, ds, 0, 1);
  }

  /** The bound on the sides is exact: two inputs of one text, one of them 132 pixels wide,
      stay apart although a full scan would merge them. */
  lemma WideInputsStayApart(m: Matcher) returns (a: RawElement, b: RawElement)
    requires m.similarity("Save", "Save") == 1.0
    ensures Taken([a, b]) == [a, b] && SidesWithin(a.bounds, 132) && SidesWithin(b.bounds, 132)
    ensures Run(m, [a, b], [Created, Created], 0) && Fuse([a], [Created], 0) == [Create(a, 1)]
    ensures !FullScanFits(m, b, [Create(a, 1)], Created)
  {
    var left, right := WideBoxes();
    a := RawElement("atspi", "button", "Save", "", "", left, true, "");
    b := RawElement("cdp", "button", "Save", "", "", right, true, "");
    InTrustedOrder(a, b);
    WidePair(m, a, b);
    TwoCreated(m, a, b);
    OneInput(a, 0);
  }

  lemma InTrustedOrder(a: RawElement, b: RawElement)
    requires a.source == "atspi" && b.source == "cdp"
    ensures Taken([a, b]) == [a, b]
  {
    TwoOfPriority(a, b, 3);
    TwoOfPriority(a, b, 2);
    TwoOfPriority(a, b, 1);
    TwoOfPriority(a, b, 0);
  }

  lemma TwoOfPriority(a: RawElement, b: RawElement, p: nat)
    ensures OfPriority([a, b], p) ==
      (if Priority(a) == p then [a] else []) + (if Priority(b) == p then [b] else [])
  {
    assert [a, b][1..] == [b] && [b][1..] == [];
    assert OfPriority([], p) == [];
    assert OfPriority([b], p) == if Priority(b) == p then [b] else [];
  }

  lemma OneInput(a: RawElement, base: nat)
    ensures Fuse([a], [Created], base) == [Create(a, base + 1)]
  {
    assert [a][..0] == [] && [Created][..0] == [];
  }

  lemma WidePair(m: Matcher, a: RawElement, b: RawElement)
    requires Bounded(a.bounds) && Iou(b.bounds, a.bounds) >= 0.15 && !Adjacent(Cell(a.bounds), Cell(b.bounds))
    requires Bounded(b.bounds) && a.source != b.source && a.role == b.role && m.similarity(b.name, a.name) >= 0.65
    ensures Matches(m, b, Create(a, 1)) && !Seen(b, Create(a, 1))
  {
  }

  /** Whatever the sizes, an input is never left out of, or merged more weakly than, a
      near-exact text match of a new compatible source. */
  lemma NearExactNeverMissed(m: Matcher, es: seq<RawElement>, ds: seq<Decision>, base: nat, i: nat, j: nat)
    requires Run(m, es, ds, base) && i < |es|
    requires var us := Fuse(es[..i], ds[..i], base);
      j < |us| && Comparable(m, es[i], us, j) && NearExact(m, RawSight(es[i]), UnifiedSight(us[j]))
    ensures ds[i].Merged? && var us := Fuse(es[..i], ds[..i], base);
      ds[i].index < |us| && Strength(m, es[i], us[j]) <= Strength(m, es[i], us[ds[i].index])
  {
    var e, us := es[i], Fuse(es[..i], ds[..i], base);
    assert FitsAt(m, es, ds, base, i);
    NearExactIsSeen(m, RawSight(e), UnifiedSight(us[j]));
    assert Adjacent(Cell(us[j].bounds), Cell(e.bounds));
    assert Eligible(m, e, us, j);
  }
}
