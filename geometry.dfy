/** The one mapping between the editor's coordinate system and PDF user space.
    The editor draws every page 800 units wide with the origin at the top-left corner and y
    growing downwards; PDF user space has its origin at the bottom-left corner and y growing
    upwards. One frontend unit is `pageWidth / 800` PDF units on both axes. */
module CoordinateMapper {
  const FrontendWidth: real := 800.0

  /** A box in frontend space: `y` is the top edge. */
  datatype FrontBox = FrontBox(x: real, y: real, width: real, height: real)

  /** A box in PDF space: `bottom` is the lower edge. */
  datatype PdfBox = PdfBox(x: real, bottom: real, width: real, height: real)

  /** PDF units per frontend unit. */
  function Scale(pageWidth: real): (s: real)
    requires pageWidth > 0.0
    ensures s > 0.0
    ensures s * 800.0 == pageWidth
  {
    pageWidth / 800.0
  }

  /** Frontend box to PDF box: lengths are scaled, and the top edge measured from the top of
      the page becomes the bottom edge measured from the bottom of the page. */
  function ToPdf(b: FrontBox, pageWidth: real, pageHeight: real): (p: PdfBox)
    requires pageWidth > 0.0
    ensures p.width == b.width * Scale(pageWidth) && p.height == b.height * Scale(pageWidth)
    ensures p.bottom + p.height == pageHeight - b.y * Scale(pageWidth)
  {
    var s := Scale(pageWidth);
    PdfBox(b.x * s, pageHeight - b.y * s - b.height * s, b.width * s, b.height * s)
  }

  /** PDF box to frontend box. */
  function ToFrontend(p: PdfBox, pageWidth: real, pageHeight: real): (b: FrontBox)
    requires pageWidth > 0.0
    ensures b.x * Scale(pageWidth) == p.x && b.width * Scale(pageWidth) == p.width
    ensures b.y * Scale(pageWidth) == pageHeight - p.bottom - p.height
  {
    var s := Scale(pageWidth);
    FrontBox(p.x / s, (pageHeight - p.bottom - p.height) / s, p.width / s, p.height / s)
  }

  /** The two mappings are inverse to each other. */
  lemma RoundTrip(b: FrontBox, p: PdfBox, pageWidth: real, pageHeight: real)
    requires pageWidth > 0.0
    ensures ToFrontend(ToPdf(b, pageWidth, pageHeight), pageWidth, pageHeight) == b
    ensures ToPdf(ToFrontend(p, pageWidth, pageHeight), pageWidth, pageHeight) == p
  {
    var s := Scale(pageWidth);
    var q := ToPdf(b, pageWidth, pageHeight);
    var f := ToFrontend(q, pageWidth, pageHeight);
    assert f.x == b.x && f.width == b.width && f.height == b.height;
    assert q.bottom + q.height == pageHeight - b.y * s;
    assert f.y * s == b.y * s;
    var g := ToFrontend(p, pageWidth, pageHeight);
    var r := ToPdf(g, pageWidth, pageHeight);
    assert r.x == p.x && r.width == p.width && r.height == p.height;
  }

  /** A frontend point (top-left origin) in PDF space. */
  function PointToPdf(x: real, y: real, pageWidth: real, pageHeight: real): (pt: (real, real))
    requires pageWidth > 0.0
  {
    (x * Scale(pageWidth), pageHeight - y * Scale(pageWidth))
  }

  predicate InFront(b: FrontBox, x: real, y: real) {
    b.x < x < b.x + b.width && b.y < y < b.y + b.height
  }

  predicate InPdf(p: PdfBox, x: real, y: real) {
    p.x < x < p.x + p.width && p.bottom < y < p.bottom + p.height
  }

  /** The mapping moves points and boxes together: a point lies inside a frontend box exactly
      when its image lies inside the image of the box. */
  lemma ContainmentPreserved(b: FrontBox, x: real, y: real, pageWidth: real, pageHeight: real)
    requires pageWidth > 0.0
    ensures InFront(b, x, y) <==>
      InPdf(ToPdf(b, pageWidth, pageHeight), PointToPdf(x, y, pageWidth, pageHeight).0,
        PointToPdf(x, y, pageWidth, pageHeight).1)
  {
    var s := Scale(pageWidth);
    var p := ToPdf(b, pageWidth, pageHeight);
    var q := PointToPdf(x, y, pageWidth, pageHeight);
    assert q.0 == x * s && q.1 == pageHeight - y * s;
    assert p.x == b.x * s && p.x + p.width == (b.x + b.width) * s;
    assert p.bottom == pageHeight - (b.y + b.height) * s;
    assert p.bottom + p.height == pageHeight - b.y * s;
    MulLess(b.x, x, s);
    MulLess(x, b.x + b.width, s);
    MulLess(b.y, y, s);
    MulLess(y, b.y + b.height, s);
    assert (p.x < q.0) == (b.x < x);
    assert (q.0 < p.x + p.width) == (x < b.x + b.width);
    assert (p.bottom < q.1) == (y < b.y + b.height);
    assert (q.1 < p.bottom + p.height) == (b.y < y);
  }

  /** Scaling by a positive factor keeps strict order. */
  lemma MulLess(a: real, b: real, s: real)
    requires s > 0.0
    ensures a < b <==> a * s < b * s
  {
    if a < b {
      assert (b - a) * s > 0.0;
    } else {
      assert (a - b) * s >= 0.0;
    }
  }
}
