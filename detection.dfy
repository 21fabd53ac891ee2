/** Right-side text detection: the text runs of the right half of each page are merged into
    one padded block, which becomes one rectangle in frontend space. */
module Detection {
  import opened Wrappers
  import opened Numeric
  import opened Strings
  import opened Model
  import opened CoordinateMapper

  /** The translation part of a text run's transform (`transform[4]`, `transform[5]`). */
  datatype Point = Point(x: real, y: real)

  /** A pdf.js text run. A missing string is the empty string; a missing or zero width or
      height is 0 (all of them are falsy in JavaScript). */
  datatype TextRun = TextRun(str: string, transform: Option<Point>, width: real, height: real)

  /** A page's viewport size at scale 1 and its text content. */
  datatype PageText = PageText(width: real, height: real, items: seq<TextRun>)

  /** The box a run occupies, in PDF space (bottom-left origin). */
  datatype Bounds = Bounds(minX: real, minY: real, maxX: real, maxY: real)

  /** A block of text: its padded bounds and its normalised text. */
  datatype Group = Group(minX: real, minY: real, maxX: real, maxY: real, text: string)

  const Padding: real := 15.0
  const DefaultRunHeight: real := 12.0

  /** `item.height || 12`. */
  function RunHeight(t: TextRun): real {
    if t.height != 0.0 then t.height else DefaultRunHeight
  }

  /** `n * (height / 1.8)`, the width estimate for `n` characters, as a sum of `n` equal
      advances. */
  function EstimatedWidth(n: nat, height: real): (w: real)
    ensures height >= 0.0 ==> w >= 0.0
  {
    if n == 0 then 0.0 else EstimatedWidth(n - 1, height) + height / 1.8
  }

  lemma {:induction false} EstimatedWidthIs(n: nat, height: real)
    ensures EstimatedWidth(n, height) == n as real * (height / 1.8)
  {
    if n > 0 {
      EstimatedWidthIs(n - 1, height);
    }
  }

  /** `item.width || item.str.length * (height / 1.8)`. */
  function RunWidth(t: TextRun): real {
    if t.width != 0.0 then t.width else EstimatedWidth(|t.str|, RunHeight(t))
  }

  /** A run that has a position and some visible text: `item.transform` is set and
      `item.str.trim()` is non-empty, which by `Strings.TrimEmpty` is the same as `item.str`
      not being all whitespace. */
  predicate HasText(t: TextRun) {
    t.transform.Some? && !AllSpace(t.str)
  }

  /** The run's box: it starts at its origin, extends rightwards by its width and downwards
      from its baseline by its height. */
  function RunBox(t: TextRun): (b: Bounds)
    requires t.transform.Some?
    ensures b.minX == t.transform.value.x && b.maxY == t.transform.value.y
    ensures b.maxX - b.minX == RunWidth(t) && b.maxY - b.minY == RunHeight(t)
  {
    var p := t.transform.value;
    Bounds(p.x, p.y - RunHeight(t), p.x + RunWidth(t), p.y)
  }

  /** `items.filter(item => item && item.str && item.str.trim().length > 0 && item.transform)`. */
  function ValidItems(items: seq<TextRun>): (r: seq<TextRun>)
    ensures |r| <= |items|
    ensures forall i :: 0 <= i < |r| ==> HasText(r[i])
  {
    if items == [] then []
    else if HasText(items[0]) then [items[0]] + ValidItems(items[1..])
    else ValidItems(items[1..])
  }

  /** The filter keeps exactly the runs with visible text. */
  lemma {:induction false} ValidItemsMembers(items: seq<TextRun>)
    ensures forall t :: t in ValidItems(items) <==> t in items && HasText(t)
  {
    if items != [] {
      ValidItemsMembers(items[1..]);
      assert items == [items[0]] + items[1..];
    }
  }

  /** The runs whose origin lies strictly right of the middle of the page. */
  function RightSideItems(items: seq<TextRun>, pageWidth: real): (r: seq<TextRun>)
    ensures |r| <= |items|
    ensures forall i :: 0 <= i < |r| ==> HasText(r[i]) && r[i].transform.value.x > pageWidth / 2.0
  {
    if items == [] then []
    else if HasText(items[0]) && items[0].transform.value.x > pageWidth / 2.0 then
      [items[0]] + RightSideItems(items[1..], pageWidth)
    else RightSideItems(items[1..], pageWidth)
  }

  /** The right-side filter keeps exactly the runs with visible text right of the middle. */
  lemma {:induction false} RightSideMembers(items: seq<TextRun>, pageWidth: real)
    ensures forall t :: t in RightSideItems(items, pageWidth) <==>
      t in items && HasText(t) && t.transform.value.x > pageWidth / 2.0
  {
    if items != [] {
      RightSideMembers(items[1..], pageWidth);
      assert items == [items[0]] + items[1..];
    }
  }

  /** The right-side runs are already valid, so grouping filters none of them out. */
  lemma {:induction false} ValidOfRightSide(items: seq<TextRun>, pageWidth: real)
    ensures ValidItems(RightSideItems(items, pageWidth)) == RightSideItems(items, pageWidth)
  {
    if items != [] {
      ValidOfRightSide(items[1..], pageWidth);
    }
  }

  function Strs(items: seq<TextRun>): (r: seq<string>)
    ensures |r| == |items| && forall i :: 0 <= i < |items| ==> r[i] == items[i].str
  {
    if items == [] then [] else [items[0].str] + Strs(items[1..])
  }

  lemma StrsPrefix(items: seq<TextRun>, i: nat)
    requires i < |items|
    ensures Strs(items[..i + 1]) == Strs(items[..i]) + [items[i].str]
  {
    assert items[..i + 1] == items[..i] + [items[i]];
  }

  predicate AllPositioned(items: seq<TextRun>) {
    forall i :: 0 <= i < |items| ==> items[i].transform.Some?
  }

  function Merge(a: Bounds, b: Bounds): Bounds {
    Bounds(Min(a.minX, b.minX), Min(a.minY, b.minY), Max(a.maxX, b.maxX), Max(a.maxY, b.maxY))
  }

  /** The smallest box holding every run's box, folded from the left as `forEach` does. */
  function Hull(items: seq<TextRun>): Bounds
    requires |items| > 0 && AllPositioned(items)
  {
    if |items| == 1 then RunBox(items[0])
    else Merge(Hull(items[..|items| - 1]), RunBox(items[|items| - 1]))
  }

  predicate Encloses(outer: Bounds, inner: Bounds) {
    outer.minX <= inner.minX && outer.minY <= inner.minY
    && inner.maxX <= outer.maxX && inner.maxY <= outer.maxY
  }

  /** The hull holds every run. */
  lemma {:induction false} HullEncloses(items: seq<TextRun>)
    requires |items| > 0 && AllPositioned(items)
    ensures forall i :: 0 <= i < |items| ==> Encloses(Hull(items), RunBox(items[i]))
  {
    if |items| > 1 {
      var front := items[..|items| - 1];
      HullEncloses(front);
      forall i | 0 <= i < |items|
        ensures Encloses(Hull(items), RunBox(items[i]))
      {
        if i < |items| - 1 {
          assert items[i] == front[i];
        }
      }
    }
  }

  predicate Touches(h: Bounds, items: seq<TextRun>)
    requires AllPositioned(items)
  {
    (exists i :: 0 <= i < |items| && RunBox(items[i]).minX == h.minX)
    && (exists i :: 0 <= i < |items| && RunBox(items[i]).minY == h.minY)
    && (exists i :: 0 <= i < |items| && RunBox(items[i]).maxX == h.maxX)
    && (exists i :: 0 <= i < |items| && RunBox(items[i]).maxY == h.maxY)
  }

  /** Each side of the hull is a side of some run, so no smaller box holds them all. */
  lemma {:induction false} HullTight(items: seq<TextRun>)
    requires |items| > 0 && AllPositioned(items)
    ensures Touches(Hull(items), items)
  {
    var n := |items|;
    if n == 1 {
      assert RunBox(items[0]) == Hull(items);
    } else {
      var front := items[..n - 1];
      HullTight(front);
      var h := Hull(items);
      var hf := Hull(front);
      var last := RunBox(items[n - 1]);
      forall i | 0 <= i < |front| ensures RunBox(front[i]) == RunBox(items[i]) {
        assert front[i] == items[i];
      }
      if h.minX == last.minX { assert RunBox(items[n - 1]).minX == h.minX; }
      else { var i :| 0 <= i < |front| && RunBox(front[i]).minX == hf.minX; assert RunBox(items[i]).minX == h.minX; }
      if h.minY == last.minY { assert RunBox(items[n - 1]).minY == h.minY; }
      else { var i :| 0 <= i < |front| && RunBox(front[i]).minY == hf.minY; assert RunBox(items[i]).minY == h.minY; }
      if h.maxX == last.maxX { assert RunBox(items[n - 1]).maxX == h.maxX; }
      else { var i :| 0 <= i < |front| && RunBox(front[i]).maxX == hf.maxX; assert RunBox(items[i]).maxX == h.maxX; }
      if h.maxY == last.maxY { assert RunBox(items[n - 1]).maxY == h.maxY; }
      else { var i :| 0 <= i < |front| && RunBox(front[i]).maxY == hf.maxY; assert RunBox(items[i]).maxY == h.maxY; }
    }
  }

  lemma ValidArePositioned(items: seq<TextRun>)
    ensures AllPositioned(ValidItems(items))
  {
  }

  /** The block built from the extremes and the strings once the pass is over. */
  function MakeGroup(h: Bounds, strs: seq<string>): Group {
    Group(h.minX - Padding, h.minY - Padding, h.maxX + Padding, h.maxY + Padding,
      Normalize(Join(strs, " ")))
  }

  /** The single padded block of a non-empty list of valid runs. */
  function GroupOf(valid: seq<TextRun>): Group
    requires |valid| > 0 && AllPositioned(valid)
  {
    MakeGroup(Hull(valid), Strs(valid))
  }

  /** What `groupTextItems` returns: nothing when no run is valid, otherwise one block. */
  function GroupSpec(items: seq<TextRun>): (gs: seq<Group>)
    ensures |gs| <= 1
    ensures gs == [] <==> ValidItems(items) == []
  {
    ValidArePositioned(items);
    var v := ValidItems(items);
    if v == [] then [] else [GroupOf(v)]
  }

  /** Grouping yields nothing exactly when no run has visible text. */
  lemma GroupSpecEmpty(items: seq<TextRun>)
    ensures GroupSpec(items) == [] <==> forall t :: t in items ==> !HasText(t)
  {
    ValidItemsMembers(items);
    if ValidItems(items) != [] {
      assert ValidItems(items)[0] in ValidItems(items);
    }
  }

  function Unpadded(g: Group): Bounds {
    Bounds(g.minX + Padding, g.minY + Padding, g.maxX - Padding, g.maxY - Padding)
  }

  /** The block is the hull of the valid runs grown by 15 on every side, and its text is
      every run's string in order, joined and normalised: every visible character of every
      valid run, with single spaces between words. */
  lemma GroupProperties(items: seq<TextRun>)
    requires GroupSpec(items) != []
    ensures AllPositioned(ValidItems(items))
    ensures var g := GroupSpec(items)[0]; var v := ValidItems(items);
      (forall i :: 0 <= i < |v| ==> Encloses(Unpadded(g), RunBox(v[i])))
      && Touches(Unpadded(g), v)
      && Collapsed(g.text)
      && NonWhite(g.text) == NonWhiteAll(Strs(v))
  {
    var v := ValidItems(items);
    ValidArePositioned(items);
    HullEncloses(v);
    HullTight(v);
    var g := GroupSpec(items)[0];
    assert Unpadded(g) == Hull(v);
    NormalizeSpec(Join(Strs(v), " "));
    NonWhiteJoin(Strs(v));
  }

  lemma HullStep(valid: seq<TextRun>, i: int)
    requires 0 <= i < |valid| && AllPositioned(valid)
    ensures AllPositioned(valid[..i + 1])
    ensures i == 0 ==> Hull(valid[..i + 1]) == RunBox(valid[i])
    ensures i > 0 ==> (AllPositioned(valid[..i]) &&
      Hull(valid[..i + 1]) == Merge(Hull(valid[..i]), RunBox(valid[i])))
  {
    var p := valid[..i + 1];
    assert p[..i] == valid[..i];
    assert p[i] == valid[i];
  }

  /** `groupTextItems`: one pass over the valid runs keeping running extremes, starting from
      the infinities (here `None`), then padding. */
  method GroupTextItems(items: seq<TextRun>) returns (groups: seq<Group>)
    ensures groups == GroupSpec(items)
  {
    if |items| == 0 {
      return [];
    }
    var valid := ValidItems(items);
    ValidArePositioned(items);
    if |valid| == 0 {
      return [];
    }
    var acc: Option<Bounds> := None;
    var combined: seq<string> := [];
    var i := 0;
    while i < |valid|
      invariant 0 <= i <= |valid| && AllPositioned(valid)
      invariant i == 0 <==> acc.None?
      invariant i > 0 ==> acc == Some(Hull(valid[..i]))
      invariant combined == Strs(valid[..i])
    {
      HullStep(valid, i);
      var b := RunBox(valid[i]);
      if acc.None? {
        acc := Some(b);
      } else {
        acc := Some(Merge(acc.value, b));
      }
      StrsPrefix(valid, i);
      combined := combined + [valid[i].str];
      i := i + 1;
    }
    assert valid[..i] == valid;
    groups := [MakeGroup(acc.value, combined)];
  }

  /** `rect_<pageNum>_<index>`. */
  function RectId(pageNum: nat, index: nat): string {
    "rect_" + NatToString(pageNum) + "_" + NatToString(index)
  }

  /** The PDF box a group spans. */
  function GroupBox(g: Group): PdfBox {
    PdfBox(g.minX, g.minY, g.maxX - g.minX, g.maxY - g.minY)
  }

  /** `800 / viewport.width`: frontend units per PDF unit. */
  function FrontendScale(pageWidth: real): real
    requires pageWidth > 0.0
  {
    800.0 / pageWidth
  }

  /** The rectangle emitted for a group: its frontend box is the group's PDF box under the
      coordinate mapper, each coordinate rounded to the nearest unit, and the unrounded PDF box
      and page size are kept. */
  function EmitRect(g: Group, index: nat, pageNum: nat, pageWidth: real, pageHeight: real): (r: Rect)
    requires pageWidth > 0.0
    ensures r.id == RectId(pageNum, index) && r.page == pageNum - 1
    ensures r.text == Trim(g.text)
    ensures r.geometry == Some(PdfGeometry(g.minX, g.minY, g.maxX - g.minX, g.maxY - g.minY,
      pageWidth, pageHeight))
    ensures r.isManual.None? && r.mode.None? && r.translation.None?
    ensures r.x == Round(g.minX * FrontendScale(pageWidth)) as real
    ensures r.y == Round((pageHeight - g.maxY) * FrontendScale(pageWidth)) as real
    ensures r.width == Round((g.maxX - g.minX) * FrontendScale(pageWidth)) as real
    ensures r.height == Round((g.maxY - g.minY) * FrontendScale(pageWidth)) as real
  {
    EmitRectFormula(g, pageWidth, pageHeight);
    var f := ToFrontend(GroupBox(g), pageWidth, pageHeight);
    Rect(RectId(pageNum, index), pageNum - 1,
      Round(f.x) as real, Round(f.y) as real, Round(f.width) as real, Round(f.height) as real,
      Trim(g.text), None, None, None, None,
      Some(PdfGeometry(g.minX, g.minY, g.maxX - g.minX, g.maxY - g.minY, pageWidth, pageHeight)),
      None, None, None, None)
  }

  /** The mapper's frontend box is what the detector computes with `800 / viewport.width`:
      `minX * scale`, `(height - maxY) * scale`, and the two extents times the scale. */
  lemma EmitRectFormula(g: Group, pageWidth: real, pageHeight: real)
    requires pageWidth > 0.0
    ensures var f := ToFrontend(GroupBox(g), pageWidth, pageHeight);
      var k := FrontendScale(pageWidth);
      f.x == g.minX * k && f.y == (pageHeight - g.maxY) * k
      && f.width == (g.maxX - g.minX) * k && f.height == (g.maxY - g.minY) * k
  {
    var k := FrontendScale(pageWidth);
    var s := Scale(pageWidth);
    assert k * s == 1.0 by {
      assert k == 800.0 / pageWidth && s == pageWidth / 800.0;
    }
    var f := ToFrontend(GroupBox(g), pageWidth, pageHeight);
    Unscale(f.x, g.minX, s, k);
    Unscale(f.y, pageHeight - g.maxY, s, k);
    Unscale(f.width, g.maxX - g.minX, s, k);
    Unscale(f.height, g.maxY - g.minY, s, k);
  }

  lemma Unscale(a: real, b: real, s: real, k: real)
    requires k * s == 1.0 && a * s == b
    ensures a == b * k
  {
    calc {
      b * k;
      (a * s) * k;
      a * (k * s);
      a;
    }
  }

  function GroupRects(gs: seq<Group>, pageNum: nat, pageWidth: real, pageHeight: real): (r: seq<Rect>)
    requires pageWidth > 0.0
    ensures |r| == |gs|
    ensures forall i :: 0 <= i < |gs| ==> r[i] == EmitRect(gs[i], i, pageNum, pageWidth, pageHeight)
  {
    seq(|gs|, i requires 0 <= i < |gs| => EmitRect(gs[i], i, pageNum, pageWidth, pageHeight))
  }

  /** The rectangles of one page (numbered from 1). */
  function PageRects(p: PageText, pageNum: nat): seq<Rect>
    requires p.width > 0.0
  {
    var right := RightSideItems(p.items, p.width);
    if right == [] then [] else GroupRects(GroupSpec(right), pageNum, p.width, p.height)
  }

  /** A page pdf.js could read, or `None` for one whose processing threw. */
  predicate PagesReadable(pages: seq<Option<PageText>>) {
    forall i :: 0 <= i < |pages| ==> pages[i].Some? ==> pages[i].value.width > 0.0
  }

  /** The rectangles of page `pageNum`; a page whose processing threw contributes none. */
  function PageResult(page: Option<PageText>, pageNum: nat): seq<Rect>
    requires page.Some? ==> page.value.width > 0.0
  {
    if page.Some? then PageRects(page.value, pageNum) else []
  }

  /** Each page's rectangles, pages numbered from 1. */
  function PerPage(pages: seq<Option<PageText>>): (xs: seq<seq<Rect>>)
    requires PagesReadable(pages)
    ensures |xs| == |pages|
    ensures forall i :: 0 <= i < |pages| ==> xs[i] == PageResult(pages[i], i + 1)
  {
    seq(|pages|, i requires 0 <= i < |pages| => PageResult(pages[i], i + 1))
  }

  function Concat(xs: seq<seq<Rect>>): seq<Rect> {
    if xs == [] then [] else Concat(xs[..|xs| - 1]) + xs[|xs| - 1]
  }

  /** The rectangles of pages 1..|pages|, in page order. */
  function DocumentRects(pages: seq<Option<PageText>>): seq<Rect>
    requires PagesReadable(pages)
  {
    Concat(PerPage(pages))
  }

  /** `groups.forEach((group, index) => rectangles.push(...))`. */
  method EmitGroups(groups: seq<Group>, pageNum: nat, pageWidth: real, pageHeight: real)
    returns (rects: seq<Rect>)
    requires pageWidth > 0.0
    ensures rects == GroupRects(groups, pageNum, pageWidth, pageHeight)
  {
    rects := [];
    var index := 0;
    while index < |groups|
      invariant 0 <= index <= |groups|
      invariant rects == GroupRects(groups, pageNum, pageWidth, pageHeight)[..index]
    {
      rects := rects + [EmitRect(groups[index], index, pageNum, pageWidth, pageHeight)];
      index := index + 1;
    }
  }

  /** The body of the page loop: the right-side runs of a page that was read, grouped and
      emitted; a page whose processing threw gives nothing. */
  method ProcessPage(page: Option<PageText>, pageNum: nat) returns (pageRects: seq<Rect>)
    requires page.Some? ==> page.value.width > 0.0
    ensures pageRects == PageResult(page, pageNum)
  {
    pageRects := [];
    if page.Some? {
      var p := page.value;
      var right := RightSideItems(p.items, p.width);
      if |right| > 0 {
        var groups := GroupTextItems(right);
        pageRects := EmitGroups(groups, pageNum, p.width, p.height);
      }
    }
  }

  /** `detectRightSideRectangles` over an opened document: each page is processed on its own
      and a failing page is skipped. */
  method DetectRightSideRectangles(pages: seq<Option<PageText>>) returns (rects: seq<Rect>)
    requires PagesReadable(pages)
    ensures rects == DocumentRects(pages)
  {
    rects := [];
    ghost var xs := PerPage(pages);
    var pageNum := 1;
    while pageNum <= |pages|
      invariant 1 <= pageNum <= |pages| + 1
      invariant rects == Concat(xs[..pageNum - 1])
    {
      var pageRects := ProcessPage(pages[pageNum - 1], pageNum);
      ConcatSnoc(xs, pageNum - 1);
      rects := rects + pageRects;
      pageNum := pageNum + 1;
    }
    assert xs[..|pages|] == xs;
  }

  lemma ConcatSnoc(xs: seq<seq<Rect>>, k: nat)
    requires k < |xs|
    ensures Concat(xs[..k + 1]) == Concat(xs[..k]) + xs[k]
  {
    assert xs[..k + 1][..k] == xs[..k];
  }

  /** A page gives at most one rectangle, `rect_<pageNum>_0` on page `pageNum - 1`, and gives
      one exactly when it has right-side text. */
  lemma PageRectsShape(p: PageText, pageNum: nat)
    requires p.width > 0.0
    ensures |PageRects(p, pageNum)| <= 1
    ensures PageRects(p, pageNum) == [] <==> RightSideItems(p.items, p.width) == []
    ensures forall i :: 0 <= i < |PageRects(p, pageNum)| ==>
      PageRects(p, pageNum)[i].page == pageNum - 1 && PageRects(p, pageNum)[i].id == RectId(pageNum, 0)
  {
    var right := RightSideItems(p.items, p.width);
    if right != [] {
      ValidOfRightSide(p.items, p.width);
    }
  }

  predicate ShapedLike(pages: seq<Option<PageText>>, r: Rect) {
    0 <= r.page < |pages| && pages[r.page].Some?
    && RightSideItems(pages[r.page].value.items, pages[r.page].value.width) != []
    && r.id == RectId(r.page + 1, 0)
  }

  /** Every rectangle of `rs` belongs to a page that was read and holds right-side text, and
      pages strictly increase along `rs`. */
  predicate WellShaped(pages: seq<Option<PageText>>, rs: seq<Rect>) {
    (forall i :: 0 <= i < |rs| ==> ShapedLike(pages, rs[i]))
    && (forall i, j :: 0 <= i < j < |rs| ==> rs[i].page < rs[j].page)
  }

  /** Per-page lists of at most one rectangle, each on its own page, concatenate to a well
      shaped list no longer than the number of pages. */
  lemma {:induction false} ConcatWellShaped(pages: seq<Option<PageText>>, xs: seq<seq<Rect>>)
    requires |xs| <= |pages|
    requires forall k :: 0 <= k < |xs| ==> |xs[k]| <= 1
    requires forall k, i :: 0 <= k < |xs| && 0 <= i < |xs[k]| ==>
      ShapedLike(pages, xs[k][i]) && xs[k][i].page == k
    ensures |Concat(xs)| <= |xs|
    ensures WellShaped(pages, Concat(xs))
    ensures forall i :: 0 <= i < |Concat(xs)| ==> Concat(xs)[i].page < |xs|
  {
    if xs != [] {
      var n := |xs|;
      var front := xs[..n - 1];
      ConcatWellShaped(pages, front);
      var a := Concat(front);
      var b := xs[n - 1];
      var all := a + b;
      assert Concat(xs) == all;
      assert forall i :: 0 <= i < |all| ==> all[i] == if i < |a| then a[i] else b[i - |a|];
    }
  }

  /** Every detected rectangle belongs to a page that was read and holds right-side text and
      carries the id `rect_<page>_0`, and pages appear in increasing order, one rectangle each. */
  lemma DocumentRectsShape(pages: seq<Option<PageText>>)
    requires PagesReadable(pages)
    ensures |DocumentRects(pages)| <= |pages|
    ensures WellShaped(pages, DocumentRects(pages))
  {
    var xs := PerPage(pages);
    forall k | 0 <= k < |xs|
      ensures |xs[k]| <= 1
      ensures forall i :: 0 <= i < |xs[k]| ==> ShapedLike(pages, xs[k][i]) && xs[k][i].page == k
    {
      PageResultShape(pages, k, xs[k]);
    }
    ConcatWellShaped(pages, xs);
  }

  /** What page `k + 1` contributes is at most one rectangle, shaped like a rectangle of `pages`. */
  lemma PageResultShape(pages: seq<Option<PageText>>, k: nat, rs: seq<Rect>)
    requires PagesReadable(pages) && k < |pages|
    requires rs == PageResult(pages[k], k + 1)
    ensures |rs| <= 1
    ensures forall i :: 0 <= i < |rs| ==> ShapedLike(pages, rs[i]) && rs[i].page == k
  {
    if pages[k].Some? {
      PageRectsShape(pages[k].value, k + 1);
    }
  }


  /** Distinct pages give distinct ids, so detected rectangles never share an id. */
  lemma RectIdInjective(a: nat, b: nat)
    requires RectId(a, 0) == RectId(b, 0)
    ensures a == b
  {
    var na := NatToString(a);
    var nb := NatToString(b);
    var tail := "_" + NatToString(0);
    assert RectId(a, 0) == "rect_" + na + tail && RectId(b, 0) == "rect_" + nb + tail;
    assert |na| == |nb|;
    MiddleSlice("rect_", na, tail);
    MiddleSlice("rect_", nb, tail);
    NatToStringInjective(a, b);
  }

  lemma MiddleSlice(p: string, x: string, q: string)
    ensures (p + x + q)[|p|..|p| + |x|] == x
  {
    var s := p + x + q;
    assert forall i :: 0 <= i < |x| ==> s[|p| + i] == x[i];
  }


  lemma WellShapedIdsDistinct(pages: seq<Option<PageText>>, rs: seq<Rect>)
    requires WellShaped(pages, rs)
    ensures forall i, j :: 0 <= i < j < |rs| ==> rs[i].id != rs[j].id
  {
    forall i, j | 0 <= i < j < |rs| ensures rs[i].id != rs[j].id {
      assert ShapedLike(pages, rs[i]) && ShapedLike(pages, rs[j]);
      if rs[i].id == rs[j].id {
        RectIdInjective(rs[i].page + 1, rs[j].page + 1);
      }
    }
  }

  lemma DetectedIdsDistinct(pages: seq<Option<PageText>>)
    requires PagesReadable(pages)
    ensures forall i, j :: 0 <= i < j < |DocumentRects(pages)| ==>
      DocumentRects(pages)[i].id != DocumentRects(pages)[j].id
  {
    DocumentRectsShape(pages);
    WellShapedIdsDistinct(pages, DocumentRects(pages));
  }
}
