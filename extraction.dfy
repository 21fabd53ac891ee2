/** Text extraction from one user-drawn or detected rectangle: the runs of the rectangle's
    page that overlap it horizontally and whose baseline lies strictly inside it vertically. */
module Extraction {
  import opened Wrappers
  import opened Numeric
  import opened Strings
  import opened Model
  import opened CoordinateMapper
  import opened Detection

  const NoTextFound: string := "No text found in this area"
  const ExtractionFailed: string := "Text extraction failed"

  /** The rectangle's box in PDF space. */
  function RectPdfBox(r: Rect, pageWidth: real, pageHeight: real): PdfBox
    requires pageWidth > 0.0
  {
    ToPdf(FrontBox(r.x, r.y, r.width, r.height), pageWidth, pageHeight)
  }

  /** `itemX < pdfX + pdfWidth && itemRight > pdfX`. */
  predicate XOverlaps(t: TextRun, box: PdfBox)
    requires t.transform.Some?
  {
    t.transform.value.x < box.x + box.width && t.transform.value.x + RunWidth(t) > box.x
  }

  /** The corrected vertical test: the baseline lies strictly between the box's bottom and top. */
  predicate BaselineInside(t: TextRun, box: PdfBox)
    requires t.transform.Some?
  {
    box.bottom < t.transform.value.y < box.bottom + box.height
  }

  predicate Hit(t: TextRun, box: PdfBox) {
    HasText(t) && XOverlaps(t, box) && BaselineInside(t, box)
  }

  /** The earlier vertical test, which compares a bottom-origin baseline with top-origin
      rectangle coordinates; it is only logged. */
  predicate FlawedYCheck(t: TextRun, r: Rect, pageWidth: real)
    requires pageWidth > 0.0 && t.transform.Some?
  {
    var s := Scale(pageWidth);
    var y := t.transform.value.y;
    y > r.y * s - r.height * s && y - RunHeight(t) < r.y * s
  }

  /** The runs kept by the loop, in page order. */
  function Selected(items: seq<TextRun>, box: PdfBox): (r: seq<TextRun>)
    ensures |r| <= |items|
    ensures forall i :: 0 <= i < |r| ==> Hit(r[i], box)
  {
    if items == [] then []
    else
      var n := |items|;
      Selected(items[..n - 1], box) + (if Hit(items[n - 1], box) then [items[n - 1]] else [])
  }

  /** The loop keeps exactly the runs that hit the box. */
  lemma {:induction false} SelectedMembers(items: seq<TextRun>, box: PdfBox)
    ensures forall t :: t in Selected(items, box) <==> t in items && Hit(t, box)
  {
    if items != [] {
      var n := |items|;
      SelectedMembers(items[..n - 1], box);
      assert items == items[..n - 1] + [items[n - 1]];
    }
  }

  predicate PagesSized(pages: seq<PageText>) {
    forall i :: 0 <= i < |pages| ==> pages[i].width > 0.0
  }

  /** What `extractTextFromRectangle` returns for a document that may not open (`None`). */
  function ExtractionResult(doc: Option<seq<PageText>>, r: Rect): string
    requires doc.Some? ==> PagesSized(doc.value)
  {
    if doc.None? || !(0 <= r.page < |doc.value|) then ExtractionFailed
    else
      var p := doc.value[r.page];
      var sel := Selected(p.items, RectPdfBox(r, p.width, p.height));
      if sel == [] then NoTextFound else Normalize(Join(Strs(sel), " "))
  }

  /** `extractTextFromRectangle`: opens page `page + 1` (a missing document or page throws and
      the error text is returned) and scans every run once. */
  method ExtractTextFromRectangle(doc: Option<seq<PageText>>, r: Rect) returns (text: string)
    requires doc.Some? ==> PagesSized(doc.value)
    ensures text == ExtractionResult(doc, r)
  {
    if doc.None? || r.page + 1 < 1 || r.page + 1 > |doc.value| {
      return ExtractionFailed;
    }
    var page := doc.value[r.page];
    var scale := page.width / 800.0;
    var pdfX := r.x * scale;
    var pdfY := r.y * scale;
    var pdfWidth := r.width * scale;
    var pdfHeight := r.height * scale;
    var rectTopFromBottom := page.height - pdfY;
    var rectBottomFromBottom := rectTopFromBottom - pdfHeight;
    ghost var box := RectPdfBox(r, page.width, page.height);
    assert box == PdfBox(pdfX, rectBottomFromBottom, pdfWidth, pdfHeight);
    var textItems: seq<TextRun> := [];
    var i := 0;
    while i < |page.items|
      invariant 0 <= i <= |page.items|
      invariant textItems == Selected(page.items[..i], box)
    {
      var item := page.items[i];
      assert page.items[..i + 1][..i] == page.items[..i];
      assert page.items[..i + 1][i] == item;
      if !HasText(item) {
        i := i + 1;
        continue;
      }
      var itemX := item.transform.value.x;
      var itemY := item.transform.value.y;
      var itemHeight := RunHeight(item);
      var itemRight := itemX + RunWidth(item);
      var xCheck := itemX < pdfX + pdfWidth && itemRight > pdfX;
      var correctedYCheck := itemY > rectBottomFromBottom && itemY < rectTopFromBottom;
      if xCheck && correctedYCheck {
        textItems := textItems + [item];
      }
      i := i + 1;
    }
    assert page.items[..i] == page.items;
    if |textItems| > 0 {
      text := Normalize(Join(Strs(textItems), " "));
    } else {
      text := NoTextFound;
    }
  }

  /** Text extracted from a hit is never empty: it is the selected runs' visible characters
      in page order, words separated by single spaces, with nothing at either end. */
  lemma ExtractedText(items: seq<TextRun>, box: PdfBox)
    requires Selected(items, box) != []
    ensures var sel := Selected(items, box); var text := Normalize(Join(Strs(sel), " "));
      text != [] && Collapsed(text) && NonWhite(text) == NonWhiteAll(Strs(sel))
  {
    var sel := Selected(items, box);
    var strs := Strs(sel);
    NormalizeSpec(Join(strs, " "));
    NonWhiteJoin(strs);
    NonVisibleFirst(sel[0].str, strs[1..]);
    assert strs == [strs[0]] + strs[1..];
  }

  lemma NonVisibleFirst(w: string, rest: seq<string>)
    requires !AllSpace(w)
    ensures NonWhiteAll([w] + rest) != []
  {
    NonWhiteAllSpace(w);
    assert ([w] + rest)[1..] == rest;
  }

  /** Which result comes back: the failure text for a missing document or page, the "no text"
      text for an empty selection, and otherwise the selected runs' normalised text, which is
      never empty and can itself read like either sentinel. */
  lemma ExtractionResultCases(doc: Option<seq<PageText>>, r: Rect)
    requires doc.Some? ==> PagesSized(doc.value)
    ensures ExtractionResult(doc, r) == ExtractionFailed <==>
      (doc.None? || !(0 <= r.page < |doc.value|))
      || (var p := doc.value[r.page];
          var sel := Selected(p.items, RectPdfBox(r, p.width, p.height));
          sel != [] && Normalize(Join(Strs(sel), " ")) == ExtractionFailed)
    ensures ExtractionResult(doc, r) == NoTextFound <==>
      doc.Some? && 0 <= r.page < |doc.value|
      && (var p := doc.value[r.page];
          var sel := Selected(p.items, RectPdfBox(r, p.width, p.height));
          sel == [] || Normalize(Join(Strs(sel), " ")) == NoTextFound)
    ensures doc.Some? && 0 <= r.page < |doc.value| ==>
      var p := doc.value[r.page];
      var sel := Selected(p.items, RectPdfBox(r, p.width, p.height));
      (sel == [] ==> ExtractionResult(doc, r) == NoTextFound)
      && (sel != [] ==> ExtractionResult(doc, r) != [])
  {
    if doc.Some? && 0 <= r.page < |doc.value| {
      var p := doc.value[r.page];
      var sel := Selected(p.items, RectPdfBox(r, p.width, p.height));
      if sel != [] {
        ExtractedText(p.items, RectPdfBox(r, p.width, p.height));
      }
    }
  }

  /** The corrected test agrees with the coordinate mapper: a run is selected vertically
      exactly when its baseline point, mapped to frontend space, lies strictly between the
      rectangle's top and bottom edges. */
  lemma BaselineInsideIsFrontendInside(t: TextRun, r: Rect, pageWidth: real, pageHeight: real)
    requires pageWidth > 0.0 && t.transform.Some?
    ensures var s := Scale(pageWidth);
      var fy := (pageHeight - t.transform.value.y) / s;
      BaselineInside(t, RectPdfBox(r, pageWidth, pageHeight)) <==> r.y < fy < r.y + r.height
  {
    var s := Scale(pageWidth);
    var y := t.transform.value.y;
    var fy := (pageHeight - y) / s;
    assert fy * s == pageHeight - y;
    var box := RectPdfBox(r, pageWidth, pageHeight);
    assert box.bottom + box.height == pageHeight - r.y * s;
    assert box.bottom == pageHeight - (r.y + r.height) * s;
    MulLess(r.y, fy, s);
    MulLess(fy, r.y + r.height, s);
  }

  /** The logged check would reject a run whose baseline is inside the rectangle: on an
      800 × 792 page a box from the top edge 100 units down holds a run at height 750, which
      the corrected test keeps and the flawed one drops. */
  lemma FlawedCheckMissesRun()
    ensures var r := Rect("r", 0, 0.0, 0.0, 100.0, 100.0, "", None, None, None, None, None,
                          None, None, None, None);
      var t := TextRun("Total", Some(Point(10.0, 750.0)), 30.0, 12.0);
      Hit(t, RectPdfBox(r, 800.0, 792.0)) && !FlawedYCheck(t, r, 800.0)
  {
    var r := Rect("r", 0, 0.0, 0.0, 100.0, 100.0, "", None, None, None, None, None,
      None, None, None, None);
    var t := TextRun("Total", Some(Point(10.0, 750.0)), 30.0, 12.0);
    assert Scale(800.0) == 1.0;
    assert !AllSpace(t.str) by { assert !IsSpace(t.str[0]); }
  }
}
