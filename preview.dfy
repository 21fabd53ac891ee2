/** The preview screen: translated rectangles drawn over the current page, page navigation,
    zoom about the view centre or the pointer, and the request sent to generate the PDF. */
module Preview {
  import opened Wrappers
  import opened Numeric
  import opened Model
  import opened CoordinateMapper

  /** The stage's zoom and offset: a point `p` of the page is shown at `p * scale + offset`. */
  datatype Stage = Stage(scale: real, x: real, y: real)

  datatype ZoomDirection = ZoomIn | ZoomOut

  /** The page point shown at screen position `(sx, sy)`. */
  function PagePoint(st: Stage, sx: real, sy: real): (real, real)
    requires st.scale != 0.0
  {
    ((sx - st.x) / st.scale, (sy - st.y) / st.scale)
  }

  /** The stage scaled to `newScale` so that the page point under `(cx, cy)` stays there. */
  function ZoomAbout(st: Stage, cx: real, cy: real, newScale: real): (r: Stage)
    requires st.scale > 0.0 && newScale > 0.0
    ensures r.scale == newScale
    ensures PagePoint(r, cx, cy) == PagePoint(st, cx, cy)
  {
    var related := PagePoint(st, cx, cy);
    var r := Stage(newScale, cx - related.0 * newScale, cy - related.1 * newScale);
    assert cx - r.x == related.0 * newScale && cy - r.y == related.1 * newScale;
    DivMul(related.0, newScale);
    DivMul(related.1, newScale);
    assert (cx - r.x) / newScale == related.0;
    assert (cy - r.y) / newScale == related.1;
    r
  }

  /** Dividing by a non-zero scale undoes multiplying by it; `ZoomAbout`, `ZoomInOut` and
      `PagePointDetermines` use it to cancel the stage's scale. */
  lemma DivMul(a: real, s: real)
    requires s != 0.0
    ensures (a * s) / s == a
  {
  }

  /** `(translations || []).length === 0` stops generation; otherwise every translation is
      overlaid by the original rectangle of the same id. */
  function GenerateRequest(translations: Option<seq<Rect>>, originals: Option<seq<Rect>>): (r: Option<seq<Rect>>)
    ensures r.None? <==> translations.None? || translations.value == []
    ensures r.Some? ==> r.value == MergeById(translations.value, originals.GetOr([]))
  {
    var ts := translations.GetOr([]);
    if |ts| == 0 then None else Some(MergeById(ts, originals.GetOr([])))
  }

  /** `Math.max(8, Math.min(16, height / 3))`. */
  function PreviewFontSize(height: real): (size: real)
    ensures 8.0 <= size <= 16.0
    ensures 24.0 <= height <= 48.0 ==> size == height / 3.0
  {
    Clamp(8.0, 16.0, height / 3.0)
  }

  /** One translated rectangle in the preview: the white frame and the text box inside it. */
  datatype PreviewOverlay = PreviewOverlay(frame: FrontBox, textBox: FrontBox, text: string, fontSize: real)

  function OverlayOf(t: Rect): (o: PreviewOverlay)
    ensures o.frame == FrontBox(t.x, t.y, t.width, t.height)
    ensures o.text == t.translation.GetOr("")
    ensures 8.0 <= o.fontSize <= 16.0
  {
    PreviewOverlay(FrontBox(t.x, t.y, t.width, t.height),
      FrontBox(t.x + 2.0, t.y + 2.0, t.width - 4.0, t.height - 4.0),
      t.translation.GetOr(""), PreviewFontSize(t.height))
  }

  /** The text box is the frame inset by 2 on every side: it shares the frame's centre and,
      for a frame at least 4 wide and high, lies inside it. */
  lemma TextBoxInset(t: Rect)
    ensures var o := OverlayOf(t);
      o.textBox.x + o.textBox.width / 2.0 == o.frame.x + o.frame.width / 2.0
      && o.textBox.y + o.textBox.height / 2.0 == o.frame.y + o.frame.height / 2.0
      && o.textBox.x - o.frame.x == 2.0 && o.textBox.y - o.frame.y == 2.0
      && (o.frame.x + o.frame.width) - (o.textBox.x + o.textBox.width) == 2.0
      && (o.frame.y + o.frame.height) - (o.textBox.y + o.textBox.height) == 2.0
      && (t.width >= 4.0 && t.height >= 4.0 ==>
            (InFront(o.frame, o.textBox.x, o.textBox.y)
             && InFront(o.frame, o.textBox.x + o.textBox.width, o.textBox.y + o.textBox.height)))
  {
  }

  /** The overlays of the translations on page `pageNumber` (numbered from 1), in order. */
  function Overlays(translations: seq<Rect>, pageNumber: int): (r: seq<PreviewOverlay>)
    ensures |r| == |FilterPage(translations, pageNumber - 1)|
    ensures forall i :: 0 <= i < |r| ==> r[i] == OverlayOf(FilterPage(translations, pageNumber - 1)[i])
  {
    var onPage := FilterPage(translations, pageNumber - 1);
    seq(|onPage|, i requires 0 <= i < |onPage| => OverlayOf(onPage[i]))
  }

  /** Every overlay shown comes from a translation pinned to the current page. */
  lemma OverlaysFromPage(translations: seq<Rect>, pageNumber: int)
    ensures forall o :: o in Overlays(translations, pageNumber) ==>
      exists t :: t in translations && t.page == pageNumber - 1 && o == OverlayOf(t)
  {
    var onPage := FilterPage(translations, pageNumber - 1);
    forall o | o in Overlays(translations, pageNumber)
      ensures exists t :: t in translations && t.page == pageNumber - 1 && o == OverlayOf(t)
    {
      var i :| 0 <= i < |Overlays(translations, pageNumber)| && Overlays(translations, pageNumber)[i] == o;
      assert onPage[i] in onPage;
    }
  }

  class PdfPreview {
    const numPages: nat
    var pageNumber: int
    var stage: Stage

    /** The page is a page of the document and the zoom is positive. */
    predicate Valid()
      reads this
    {
      1 <= pageNumber <= numPages && stage.scale > 0.0
    }

    /** A preview of a document of `numPages` pages, on its first page at zoom 1. */
    constructor(numPages: nat)
      requires numPages >= 1
      ensures this.numPages == numPages && pageNumber == 1 && stage == Stage(1.0, 0.0, 0.0)
      ensures Valid()
    {
      this.numPages := numPages;
      pageNumber := 1;
      stage := Stage(1.0, 0.0, 0.0);
    }

    /** The previous-page button: `Math.max(1, pageNumber - 1)`. */
    method PreviousPage()
      requires Valid()
      modifies this
      ensures Valid() && stage == old(stage)
      ensures pageNumber == if old(pageNumber) > 1 then old(pageNumber) - 1 else 1
    {
      pageNumber := if pageNumber - 1 >= 1 then pageNumber - 1 else 1;
    }

    /** The next-page button: `Math.min(numPages, pageNumber + 1)`. */
    method NextPage()
      requires Valid()
      modifies this
      ensures Valid() && stage == old(stage)
      ensures pageNumber == if old(pageNumber) < numPages then old(pageNumber) + 1 else numPages
    {
      pageNumber := if pageNumber + 1 <= numPages then pageNumber + 1 else numPages;
    }

    /** `handleZoom`: scale by 1.4 about the centre of the stage, whose size is given; nothing
        while there is no stage. */
    method Zoom(direction: ZoomDirection, stageSize: Option<(real, real)>)
      requires Valid()
      modifies this
      ensures Valid() && pageNumber == old(pageNumber)
      ensures stageSize.None? ==> stage == old(stage)
      ensures stageSize.Some? ==> var (width, height) := stageSize.value;
        stage.scale == (if direction == ZoomIn then old(stage).scale * 1.4 else old(stage).scale / 1.4)
        && PagePoint(stage, width / 2.0, height / 2.0) == PagePoint(old(stage), width / 2.0, height / 2.0)
    {
      if stageSize.None? {
        return;
      }
      var (width, height) := stageSize.value;
      var oldScale := stage.scale;
      var newScale := if direction == ZoomIn then oldScale * 1.4 else oldScale / 1.4;
      stage := ZoomAbout(stage, width / 2.0, height / 2.0, newScale);
    }

    /** `handleWheel`: scale by 1.05 about the pointer; nothing without a pointer. */
    method Wheel(pointer: Option<(real, real)>, deltaY: real)
      requires Valid()
      modifies this
      ensures Valid() && pageNumber == old(pageNumber)
      ensures pointer.None? ==> stage == old(stage)
      ensures pointer.Some? ==>
        stage.scale == (if deltaY > 0.0 then old(stage).scale / 1.05 else old(stage).scale * 1.05)
        && PagePoint(stage, pointer.value.0, pointer.value.1)
           == PagePoint(old(stage), pointer.value.0, pointer.value.1)
    {
      if pointer.None? {
        return;
      }
      var oldScale := stage.scale;
      var newScale := if deltaY > 0.0 then oldScale / 1.05 else oldScale * 1.05;
      stage := ZoomAbout(stage, pointer.value.0, pointer.value.1, newScale);
    }

    /** Dragging the stage moves it and keeps the zoom. */
    method StageDragEnd(x: real, y: real)
      requires Valid()
      modifies this
      ensures Valid() && stage == old(stage).(x := x, y := y) && pageNumber == old(pageNumber)
    {
      stage := stage.(x := x, y := y);
    }

    /** The rectangles and translations pinned to the current page. */
    function CurrentPage(originals: Option<seq<Rect>>, translations: Option<seq<Rect>>): (r: (seq<Rect>, seq<Rect>))
      reads this
      ensures forall x :: x in r.0 <==> x in originals.GetOr([]) && x.page == pageNumber - 1
      ensures forall x :: x in r.1 <==> x in translations.GetOr([]) && x.page == pageNumber - 1
    {
      (FilterPage(originals.GetOr([]), pageNumber - 1), FilterPage(translations.GetOr([]), pageNumber - 1))
    }
  }

  /** Zooming in and then out by the same factor about the same point restores the stage. */
  lemma ZoomInOut(st: Stage, cx: real, cy: real)
    requires st.scale > 0.0
    ensures ZoomAbout(ZoomAbout(st, cx, cy, st.scale * 1.4), cx, cy, st.scale * 1.4 / 1.4) == st
  {
    var a := ZoomAbout(st, cx, cy, st.scale * 1.4);
    var b := ZoomAbout(a, cx, cy, st.scale * 1.4 / 1.4);
    assert b.scale == st.scale;
    assert PagePoint(b, cx, cy) == PagePoint(st, cx, cy);
    DivMul(cx - st.x, st.scale);
    DivMul(cx - b.x, st.scale);
    DivMul(cy - st.y, st.scale);
    DivMul(cy - b.y, st.scale);
    PagePointDetermines(b, st, cx, cy);
  }

  /** Two stages with the same scale showing the same page point at the same screen point are
      the same stage. */
  lemma PagePointDetermines(a: Stage, b: Stage, cx: real, cy: real)
    requires a.scale > 0.0 && a.scale == b.scale
    requires PagePoint(a, cx, cy) == PagePoint(b, cx, cy)
    ensures a == b
  {
    var s := a.scale;
    assert (cx - a.x) / s == (cx - b.x) / s;
    assert cx - a.x == ((cx - a.x) / s) * s;
    assert cx - b.x == ((cx - b.x) / s) * s;
    assert (cy - a.y) == ((cy - a.y) / s) * s;
    assert (cy - b.y) == ((cy - b.y) / s) * s;
  }
}
