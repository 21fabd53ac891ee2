/** The overlay renderer: for every page it draws the logo, then for every usable translation
    on that page a white box over the original text and the translated text wrapped into the
    box, right-aligned, line by line from the top. Drawing is returned as a list of
    operations; font metrics are an abstract width function. */
module Overlay {
  import opened Wrappers
  import opened Numeric
  import opened Strings
  import opened Model
  import opened CoordinateMapper

  const TranslationFailed: string := "Translation failed"
  const Padding: real := 4.0

  /** `font.widthOfTextAtSize(text, size)`. */
  type Measure = (string, real) -> real

  datatype DrawOp =
    | DrawImage(x: real, y: real, width: real, height: real)
    | FillWhite(x: real, y: real, width: real, height: real)
    | DrawText(line: string, x: real, y: real, size: real)

  // ---------------------------------------------------------------- wrapping by length

  /** The state of a greedy wrap: finished lines and the line being filled. */
  datatype WrapState = WrapState(lines: seq<string>, current: string)

  function WrapFinish(st: WrapState): seq<string> {
    if st.current != [] then st.lines + [st.current] else st.lines
  }

  /** One piece of `wrapText`: it joins the current line when the line, a space and the piece
      fit in `maxLength` characters (no space is added to an empty line); otherwise the current
      line, if non-empty, is finished and the piece starts the next one. */
  function LengthStep(st: WrapState, word: string, maxLength: int): WrapState {
    if |st.current| + |word| + 1 <= maxLength then
      WrapState(st.lines, st.current + (if st.current != [] then " " else []) + word)
    else if st.current != [] then WrapState(st.lines + [st.current], word)
    else WrapState(st.lines, word)
  }

  function LengthFold(words: seq<string>, maxLength: int): WrapState {
    if words == [] then WrapState([], [])
    else
      var n := |words|;
      LengthStep(LengthFold(words[..n - 1], maxLength), words[n - 1], maxLength)
  }

  /** What `wrapText(text, maxLength)` returns. */
  function WrapByLength(text: string, maxLength: int): seq<string> {
    WrapFinish(LengthFold(Split(text, ' '), maxLength))
  }

  /** A line within the limit, or a single piece of the input that is longer on its own. */
  predicate ShortOrPiece(line: string, words: seq<string>, maxLength: int) {
    |line| <= maxLength || line in words
  }

  predicate LengthStateOk(st: WrapState, words: seq<string>, maxLength: int) {
    (forall i :: 0 <= i < |st.lines| ==> st.lines[i] != [] && ShortOrPiece(st.lines[i], words, maxLength))
    && (st.current == [] || ShortOrPiece(st.current, words, maxLength))
  }

  lemma LengthStepOk(st: WrapState, word: string, words: seq<string>, maxLength: int)
    requires LengthStateOk(st, words, maxLength) && word in words
    ensures LengthStateOk(LengthStep(st, word, maxLength), words, maxLength)
  {
    var r := LengthStep(st, word, maxLength);
    forall i | 0 <= i < |r.lines| ensures r.lines[i] != [] && ShortOrPiece(r.lines[i], words, maxLength) {
      if i < |st.lines| {
        assert r.lines[i] == st.lines[i];
      }
    }
  }

  lemma LengthStepContent(st: WrapState, word: string, maxLength: int)
    ensures var r := LengthStep(st, word, maxLength);
      NonWhiteAll(r.lines) + NonWhite(r.current) == NonWhiteAll(st.lines) + NonWhite(st.current) + NonWhite(word)
  {
    if |st.current| + |word| + 1 <= maxLength {
      if st.current != [] {
        NonWhiteSpaced(st.current, word);
      } else {
        assert st.current + [] + word == word;
      }
    } else if st.current != [] {
      NonWhiteAllSnoc(st.lines, st.current);
    } else {
      assert NonWhite(st.current) == [];
    }
  }

  lemma {:induction false} LengthFoldProperties(words: seq<string>, all: seq<string>, maxLength: int)
    requires forall w :: w in words ==> w in all
    ensures LengthStateOk(LengthFold(words, maxLength), all, maxLength)
    ensures var st := LengthFold(words, maxLength);
      NonWhiteAll(st.lines) + NonWhite(st.current) == NonWhiteAll(words)
  {
    if words != [] {
      var n := |words|;
      var front := words[..n - 1];
      assert forall w :: w in front ==> w in words;
      LengthFoldProperties(front, all, maxLength);
      var st := LengthFold(front, maxLength);
      assert words[n - 1] in words;
      LengthStepOk(st, words[n - 1], all, maxLength);
      LengthStepContent(st, words[n - 1], maxLength);
      assert words == front + [words[n - 1]];
      NonWhiteAllSnoc(front, words[n - 1]);
    }
  }

  /** No line is empty; every line is at most `maxLength` characters long unless it is one
      piece of the input on its own; and the lines hold exactly the input's visible
      characters, in order. */
  lemma WrapByLengthSpec(text: string, maxLength: int)
    ensures var lines := WrapByLength(text, maxLength);
      (forall i :: 0 <= i < |lines| ==> lines[i] != [] && ShortOrPiece(lines[i], Split(text, ' '), maxLength))
      && NonWhiteAll(lines) == NonWhite(text)
  {
    var words := Split(text, ' ');
    LengthFoldProperties(words, words, maxLength);
    var st := LengthFold(words, maxLength);
    SplitNonWhite(text);
    NonWhiteAllSnoc(st.lines, st.current);
    var lines := WrapFinish(st);
    forall i | 0 <= i < |lines| ensures lines[i] != [] && ShortOrPiece(lines[i], words, maxLength) {
      if i < |st.lines| {
        assert lines[i] == st.lines[i];
      }
    }
  }

  /** `wrapText(text, maxLength)`. */
  method WrapText(text: string, maxLength: int) returns (lines: seq<string>)
    ensures lines == WrapByLength(text, maxLength)
  {
    var words := Split(text, ' ');
    lines := [];
    var currentLine: string := [];
    var k := 0;
    while k < |words|
      invariant 0 <= k <= |words|
      invariant WrapState(lines, currentLine) == LengthFold(words[..k], maxLength)
    {
      var word := words[k];
      assert words[..k + 1][..k] == words[..k];
      if |currentLine| + |word| + 1 <= maxLength {
        currentLine := currentLine + (if currentLine != [] then " " else []) + word;
      } else {
        if currentLine != [] {
          lines := lines + [currentLine];
        }
        currentLine := word;
      }
      k := k + 1;
    }
    assert words[..k] == words;
    if currentLine != [] {
      lines := lines + [currentLine];
    }
  }

  // ---------------------------------------------------------------- wrapping by width

  /** One word of `wrapTextForPdf`. */
  function WrapStep(st: WrapState, word: string, maxWidth: real, measure: Measure, size: real): WrapState {
    var testLine := if st.current == [] then word else st.current + " " + word;
    if measure(testLine, size) <= maxWidth then WrapState(st.lines, testLine)
    else if st.current != [] then WrapState(st.lines + [st.current], word)
    else WrapState(st.lines + [word], [])
  }

  /** The state after the first `|words|` words. */
  function WrapFold(words: seq<string>, maxWidth: real, measure: Measure, size: real): WrapState {
    if words == [] then WrapState([], [])
    else
      var n := |words|;
      WrapStep(WrapFold(words[..n - 1], maxWidth, measure, size), words[n - 1], maxWidth, measure, size)
  }

  /** What `wrapTextForPdf` returns. */
  function WrapForPdf(text: string, maxWidth: real, measure: Measure, size: real): seq<string> {
    WrapFinish(WrapFold(Split(text, ' '), maxWidth, measure, size))
  }

  /** A line that measures within the width, or a single piece of the input. */
  predicate LineOk(line: string, words: seq<string>, maxWidth: real, measure: Measure, size: real) {
    measure(line, size) <= maxWidth || line in words
  }

  predicate StateOk(st: WrapState, words: seq<string>, maxWidth: real, measure: Measure, size: real) {
    (forall i :: 0 <= i < |st.lines| ==> LineOk(st.lines[i], words, maxWidth, measure, size))
    && (st.current == [] || LineOk(st.current, words, maxWidth, measure, size))
  }

  lemma StepOk(st: WrapState, word: string, words: seq<string>, maxWidth: real, measure: Measure, size: real)
    requires StateOk(st, words, maxWidth, measure, size) && word in words
    ensures StateOk(WrapStep(st, word, maxWidth, measure, size), words, maxWidth, measure, size)
  {
    var r := WrapStep(st, word, maxWidth, measure, size);
    forall i | 0 <= i < |r.lines| ensures LineOk(r.lines[i], words, maxWidth, measure, size) {
      if i < |st.lines| {
        assert r.lines[i] == st.lines[i];
      }
    }
  }

  lemma StepContent(st: WrapState, word: string, maxWidth: real, measure: Measure, size: real)
    ensures var r := WrapStep(st, word, maxWidth, measure, size);
      NonWhiteAll(r.lines) + NonWhite(r.current) == NonWhiteAll(st.lines) + NonWhite(st.current) + NonWhite(word)
  {
    var testLine := if st.current == [] then word else st.current + " " + word;
    if measure(testLine, size) <= maxWidth {
      if st.current != [] {
        NonWhiteSpaced(st.current, word);
      }
    } else if st.current != [] {
      NonWhiteAllSnoc(st.lines, st.current);
    } else {
      NonWhiteAllSnoc(st.lines, word);
    }
  }

  lemma {:induction false} FoldProperties(words: seq<string>, all: seq<string>, maxWidth: real, measure: Measure, size: real)
    requires forall w :: w in words ==> w in all
    ensures StateOk(WrapFold(words, maxWidth, measure, size), all, maxWidth, measure, size)
    ensures var st := WrapFold(words, maxWidth, measure, size);
      NonWhiteAll(st.lines) + NonWhite(st.current) == NonWhiteAll(words)
  {
    if words != [] {
      var n := |words|;
      var front := words[..n - 1];
      assert forall w :: w in front ==> w in words;
      FoldProperties(front, all, maxWidth, measure, size);
      var st := WrapFold(front, maxWidth, measure, size);
      assert words[n - 1] in words;
      StepOk(st, words[n - 1], all, maxWidth, measure, size);
      StepContent(st, words[n - 1], maxWidth, measure, size);
      assert words == front + [words[n - 1]];
      NonWhiteAllSnoc(front, words[n - 1]);
    }
  }

  /** Every line either measures within `maxWidth` or is one piece of the input on its own,
      and the lines hold exactly the input's visible characters, in order. */
  lemma WrapForPdfSpec(text: string, maxWidth: real, measure: Measure, size: real)
    ensures var lines := WrapForPdf(text, maxWidth, measure, size);
      (forall i :: 0 <= i < |lines| ==> LineOk(lines[i], Split(text, ' '), maxWidth, measure, size))
      && NonWhiteAll(lines) == NonWhite(text)
  {
    var words := Split(text, ' ');
    FoldProperties(words, words, maxWidth, measure, size);
    var st := WrapFold(words, maxWidth, measure, size);
    SplitNonWhite(text);
    NonWhiteAllSnoc(st.lines, st.current);
    var lines := WrapFinish(st);
    forall i | 0 <= i < |lines| ensures LineOk(lines[i], words, maxWidth, measure, size) {
      if i < |st.lines| {
        assert lines[i] == st.lines[i];
      }
    }
  }

  /** `wrapTextForPdf(text, maxWidth, font, fontSize)`. */
  method WrapTextForPdf(text: string, maxWidth: real, measure: Measure, fontSize: real)
    returns (lines: seq<string>)
    ensures lines == WrapForPdf(text, maxWidth, measure, fontSize)
  {
    var words := Split(text, ' ');
    lines := [];
    var currentLine: string := [];
    var k := 0;
    while k < |words|
      invariant 0 <= k <= |words|
      invariant WrapState(lines, currentLine) == WrapFold(words[..k], maxWidth, measure, fontSize)
    {
      var word := words[k];
      assert words[..k + 1][..k] == words[..k];
      var testLine := if currentLine == [] then word else currentLine + " " + word;
      var testWidth := measure(testLine, fontSize);
      if testWidth <= maxWidth {
        currentLine := testLine;
      } else if currentLine != [] {
        lines := lines + [currentLine];
        currentLine := word;
      } else {
        lines := lines + [word];
        currentLine := [];
      }
      k := k + 1;
    }
    assert words[..k] == words;
    if currentLine != [] {
      lines := lines + [currentLine];
    }
  }

  // ---------------------------------------------------------------- sanitising

  /** The characters the overlay font is trusted with: the Hebrew block, ASCII letters and
      digits, whitespace and `. , ! ? " ' : -`. */
  predicate Allowed(c: char) {
    (0x0590 <= c as int <= 0x05FF) || ('A' <= c <= 'Z') || ('a' <= c <= 'z') || IsSpace(c)
    || ('0' <= c <= '9') || c in ".,!?\"':-"
  }

  /** `text.replace(/[^֐-׿A-Za-z\s\d.,!?"':-]/g, '')`. */
  function Sanitize(s: string): (r: string)
    ensures |r| <= |s|
    ensures forall i :: 0 <= i < |r| ==> Allowed(r[i])
  {
    if s == [] then []
    else if Allowed(s[0]) then [s[0]] + Sanitize(s[1..])
    else Sanitize(s[1..])
  }

  /** Sanitising keeps every allowed character, so it is the identity on allowed text and
      sanitising twice is sanitising once. */
  lemma {:induction false} SanitizeKeepsAllowed(s: string)
    ensures (forall i :: 0 <= i < |s| ==> Allowed(s[i])) ==> Sanitize(s) == s
    ensures forall c :: c in s && Allowed(c) ==> c in Sanitize(s)
  {
    if s != [] {
      SanitizeKeepsAllowed(s[1..]);
      assert s == [s[0]] + s[1..];
    }
  }

  lemma SanitizeIdempotent(s: string)
    ensures Sanitize(Sanitize(s)) == Sanitize(s)
  {
    SanitizeKeepsAllowed(Sanitize(s));
  }

  // ---------------------------------------------------------------- one translation

  /** A translation that is drawn: its text is present, non-empty and not the failure marker. */
  predicate Drawable(t: Rect) {
    Truthy(t.translation) && t.translation.value != TranslationFailed
  }

  /** `translation.pageWidth || width`. */
  function SourcePageWidth(t: Rect, pageWidth: real): real {
    if t.geometry.Some? && t.geometry.value.pageWidth != 0.0 then t.geometry.value.pageWidth
    else pageWidth
  }

  /** `Math.max(10, Math.min(16, pdfHeight / 2.5))`. */
  function OverlayFontSize(pdfHeight: real): (size: real)
    ensures 10.0 <= size <= 16.0
    ensures 25.0 <= pdfHeight <= 40.0 ==> size == pdfHeight / 2.5
  {
    Clamp(10.0, 16.0, pdfHeight / 2.5)
  }

  /** The text line layout: right edge `right`, first baseline `y`, step `step`; a line is
      drawn only while its baseline lies above `limit`. */
  datatype Layout = Layout(right: real, step: real, limit: real, size: real)

  function LineOp(line: string, lay: Layout, y: real, measure: Measure): DrawOp {
    DrawText(line, lay.right - measure(line, lay.size) - Padding, y, lay.size)
  }

  function LineOps(lines: seq<string>, lay: Layout, y: real, measure: Measure): seq<DrawOp> {
    if lines == [] then []
    else
      var rest := LineOps(lines[1..], lay, y - lay.step, measure);
      if y > lay.limit then [LineOp(lines[0], lay, y, measure)] + rest else rest
  }

  /** The `j`-th drawn line is the `j`-th wrapped line, at baseline `y - j * step`, which lies
      above the limit. */
  lemma {:induction false} LineOpsAt(lines: seq<string>, lay: Layout, y: real, measure: Measure, j: nat)
    requires lay.step > 0.0 && j < |LineOps(lines, lay, y, measure)|
    ensures j < |lines|
    ensures LineOps(lines, lay, y, measure)[j] == LineOp(lines[j], lay, y - Offset(lay.step, j), measure)
    ensures y - Offset(lay.step, j) > lay.limit
    decreases |lines|
  {
    var rest := LineOps(lines[1..], lay, y - lay.step, measure);
    if y > lay.limit {
      if j > 0 {
        LineOpsAt(lines[1..], lay, y - lay.step, measure, j - 1);
        OffsetStep(lay.step, j);
      }
    } else {
      NothingBelow(lines[1..], lay, y - lay.step, measure);
    }
  }

  /** At most one operation per line, and the first line left out has its baseline at or
      below the limit. */
  lemma {:induction false} LineOpsStop(lines: seq<string>, lay: Layout, y: real, measure: Measure)
    requires lay.step > 0.0
    ensures |LineOps(lines, lay, y, measure)| <= |lines|
    ensures |LineOps(lines, lay, y, measure)| < |lines| ==>
      y - Offset(lay.step, |LineOps(lines, lay, y, measure)|) <= lay.limit
    decreases |lines|
  {
    if lines != [] {
      LineOpsStop(lines[1..], lay, y - lay.step, measure);
      var rest := LineOps(lines[1..], lay, y - lay.step, measure);
      if y > lay.limit {
        OffsetStep(lay.step, |rest| + 1);
      } else {
        NothingBelow(lines[1..], lay, y - lay.step, measure);
      }
    }
  }

  /** With a positive step the baselines fall, so the drawn lines are a prefix of the wrapped
      lines: line `j` is drawn right-aligned at baseline `y - j * step` for every `j` below
      the count, and the first line left out has its baseline at or below the limit. */
  lemma LineOpsPrefix(lines: seq<string>, lay: Layout, y: real, measure: Measure)
    requires lay.step > 0.0
    ensures var ops := LineOps(lines, lay, y, measure);
      |ops| <= |lines|
      && (forall j :: 0 <= j < |ops| ==>
            (ops[j] == LineOp(lines[j], lay, y - Offset(lay.step, j), measure)
             && y - Offset(lay.step, j) > lay.limit))
      && (|ops| < |lines| ==> y - Offset(lay.step, |ops|) <= lay.limit)
  {
    var ops := LineOps(lines, lay, y, measure);
    LineOpsStop(lines, lay, y, measure);
    forall j | 0 <= j < |ops|
      ensures ops[j] == LineOp(lines[j], lay, y - Offset(lay.step, j), measure)
      ensures y - Offset(lay.step, j) > lay.limit
    {
      LineOpsAt(lines, lay, y, measure, j);
    }
  }

  /** `j * step`, as a sum. */
  function Offset(step: real, j: nat): real {
    if j == 0 then 0.0 else Offset(step, j - 1) + step
  }

  lemma OffsetStep(step: real, j: nat)
    requires j > 0
    ensures Offset(step, j) == Offset(step, j - 1) + step
  {
  }

  lemma {:induction false} OffsetIs(step: real, j: nat)
    ensures Offset(step, j) == j as real * step
  {
    if j > 0 {
      OffsetIs(step, j - 1);
    }
  }

  /** Once a baseline is at or below the limit, no later line is drawn. */
  lemma {:induction false} NothingBelow(lines: seq<string>, lay: Layout, y: real, measure: Measure)
    requires lay.step > 0.0 && y <= lay.limit
    ensures LineOps(lines, lay, y, measure) == []
    decreases |lines|
  {
    if lines != [] {
      NothingBelow(lines[1..], lay, y - lay.step, measure);
    }
  }

  /** The rectangle in PDF space, scaled by `pageWidth / 800` of the width it was detected on. */
  function Frame(t: Rect, pageWidth: real, pageHeight: real): PdfBox {
    var scale := SourcePageWidth(t, pageWidth) / 800.0;
    PdfBox(t.x * scale, pageHeight - t.y * scale - t.height * scale, t.width * scale, t.height * scale)
  }

  /** Lines are right-aligned 4 units inside the frame's right edge, step down by
      `1.2 * size` and stop once the baseline is no more than `size` above the frame's bottom. */
  function FrameLayout(box: PdfBox, size: real): Layout {
    Layout(box.x + box.width, size * 1.2, box.bottom + size, size)
  }

  /** The white box and text operations for one translation on a page of the given size; the
      first line's baseline is `4 + size` below the frame's top. */
  function TranslationOps(t: Rect, pageWidth: real, pageHeight: real, measure: Measure): seq<DrawOp> {
    if !Drawable(t) then []
    else
      var box := Frame(t, pageWidth, pageHeight);
      var fontSize := OverlayFontSize(box.height);
      var lines := WrapForPdf(Sanitize(t.translation.value), box.width - 2.0 * Padding, measure, fontSize);
      [FillWhite(box.x, box.bottom, box.width, box.height)]
      + LineOps(lines, FrameLayout(box, fontSize), box.bottom + box.height - Padding - fontSize, measure)
  }

  /** The frame is the coordinate mapper's image of the rectangle. */
  lemma FrameIsMapped(t: Rect, pageWidth: real, pageHeight: real)
    requires SourcePageWidth(t, pageWidth) > 0.0
    ensures Frame(t, pageWidth, pageHeight)
      == ToPdf(FrontBox(t.x, t.y, t.width, t.height), SourcePageWidth(t, pageWidth), pageHeight)
  {
    var f := Frame(t, pageWidth, pageHeight);
    var p := ToPdf(FrontBox(t.x, t.y, t.width, t.height), SourcePageWidth(t, pageWidth), pageHeight);
    assert Scale(SourcePageWidth(t, pageWidth)) == SourcePageWidth(t, pageWidth) / 800.0;
    assert f.x == p.x && f.bottom == p.bottom && f.width == p.width && f.height == p.height;
  }

  predicate AllAllowed(s: string) {
    forall i :: 0 <= i < |s| ==> Allowed(s[i])
  }

  lemma AllowedConcat(a: string, b: string)
    requires AllAllowed(a) && AllAllowed(b)
    ensures AllAllowed(a + b)
  {
    forall i | 0 <= i < |a + b| ensures Allowed((a + b)[i]) {
      if i < |a| {
        assert (a + b)[i] == a[i];
      } else {
        assert (a + b)[i] == b[i - |a|];
      }
    }
  }

  predicate LinesAllowed(xs: seq<string>) {
    forall i :: 0 <= i < |xs| ==> AllAllowed(xs[i])
  }

  lemma {:induction false} FoldAllowed(words: seq<string>, maxWidth: real, measure: Measure, size: real)
    requires LinesAllowed(words)
    ensures LinesAllowed(WrapFold(words, maxWidth, measure, size).lines)
    ensures AllAllowed(WrapFold(words, maxWidth, measure, size).current)
  {
    if words != [] {
      var n := |words|;
      var front := words[..n - 1];
      assert LinesAllowed(front) by {
        forall i | 0 <= i < |front| ensures AllAllowed(front[i]) {
          assert front[i] == words[i];
        }
      }
      FoldAllowed(front, maxWidth, measure, size);
      var st := WrapFold(front, maxWidth, measure, size);
      var word := words[n - 1];
      assert AllAllowed(word);
      if st.current != [] {
        assert AllAllowed(" ") by { assert IsSpace(" "[0]); }
        AllowedConcat(st.current, " ");
        AllowedConcat(st.current + " ", word);
      }
      var r := WrapStep(st, word, maxWidth, measure, size);
      forall i | 0 <= i < |r.lines| ensures AllAllowed(r.lines[i]) {
        if i < |st.lines| {
          assert r.lines[i] == st.lines[i];
        }
      }
    }
  }

  /** Whatever reaches the font has passed the sanitiser: every wrapped line of sanitised
      text consists of allowed characters only. */
  lemma WrappedSanitizedAllowed(text: string, maxWidth: real, measure: Measure, size: real)
    ensures LinesAllowed(WrapForPdf(Sanitize(text), maxWidth, measure, size))
  {
    var clean := Sanitize(text);
    var words := Split(clean, ' ');
    SplitPieces(clean, ' ');
    forall i | 0 <= i < |words| ensures AllAllowed(words[i]) {
      forall k | 0 <= k < |words[i]| ensures Allowed(words[i][k]) {
        assert words[i][k] in clean;
      }
    }
    FoldAllowed(words, maxWidth, measure, size);
    var st := WrapFold(words, maxWidth, measure, size);
    var lines := WrapFinish(st);
    forall i | 0 <= i < |lines| ensures AllAllowed(lines[i]) {
      if i < |st.lines| {
        assert lines[i] == st.lines[i];
      }
    }
  }

  /** A drawable translation first paints a white box exactly over its frame; every further
      operation is one text line of sanitised text at a font size between 10 and 16,
      right-aligned 4 units inside the frame's right edge, with its baseline at least
      `4 + size` below the frame's top and more than `size` above its bottom. */
  lemma TranslationOpsShape(t: Rect, pageWidth: real, pageHeight: real, measure: Measure)
    requires Drawable(t)
    ensures var ops := TranslationOps(t, pageWidth, pageHeight, measure);
      var box := Frame(t, pageWidth, pageHeight);
      |ops| >= 1
      && ops[0] == FillWhite(box.x, box.bottom, box.width, box.height)
      && (forall j :: 1 <= j < |ops| ==>
            (ops[j].DrawText?
             && 10.0 <= ops[j].size <= 16.0
             && ops[j].x + measure(ops[j].line, ops[j].size) == box.x + box.width - Padding
             && box.bottom + ops[j].size < ops[j].y <= box.bottom + box.height - Padding - ops[j].size
             && AllAllowed(ops[j].line)))
  {
    var box := Frame(t, pageWidth, pageHeight);
    var fontSize := OverlayFontSize(box.height);
    var lines := WrapForPdf(Sanitize(t.translation.value), box.width - 2.0 * Padding, measure, fontSize);
    var lay := FrameLayout(box, fontSize);
    var y0 := box.bottom + box.height - Padding - fontSize;
    var rest := LineOps(lines, lay, y0, measure);
    var ops := TranslationOps(t, pageWidth, pageHeight, measure);
    assert ops == [FillWhite(box.x, box.bottom, box.width, box.height)] + rest;
    WrappedSanitizedAllowed(t.translation.value, box.width - 2.0 * Padding, measure, fontSize);
    LineOpsShape(lines, lay, y0, measure);
    assert lay.size == fontSize && lay.limit == box.bottom + fontSize && lay.right == box.x + box.width;
    forall j | 1 <= j < |ops|
      ensures ops[j].DrawText? && 10.0 <= ops[j].size <= 16.0
      ensures ops[j].x + measure(ops[j].line, ops[j].size) == box.x + box.width - Padding
      ensures box.bottom + ops[j].size < ops[j].y <= box.bottom + box.height - Padding - ops[j].size
      ensures AllAllowed(ops[j].line)
    {
      var k := j - 1;
      assert 0 <= k < |rest| && ops[j] == rest[k];
      assert LineOpShaped(rest[k], lay, y0, measure);
    }
  }

  /** An allowed line drawn at the layout's size, right-aligned, with its baseline above the
      limit and at most at `y`. */
  predicate LineOpShaped(op: DrawOp, lay: Layout, y: real, measure: Measure) {
    op.DrawText? && op.size == lay.size
    && op.x + measure(op.line, op.size) == lay.right - Padding
    && lay.limit < op.y <= y
    && AllAllowed(op.line)
  }

  /** Every line operation is shaped so when the first baseline is `y`. */
  lemma LineOpsShape(lines: seq<string>, lay: Layout, y: real, measure: Measure)
    requires lay.step > 0.0 && LinesAllowed(lines)
    ensures forall j :: 0 <= j < |LineOps(lines, lay, y, measure)| ==>
      LineOpShaped(LineOps(lines, lay, y, measure)[j], lay, y, measure)
  {
    var ops := LineOps(lines, lay, y, measure);
    LineOpsPrefix(lines, lay, y, measure);
    forall j | 0 <= j < |ops| ensures LineOpShaped(ops[j], lay, y, measure) {
      assert ops[j] == LineOp(lines[j], lay, y - Offset(lay.step, j), measure);
      OffsetNonNegative(lay.step, j);
    }
  }

  lemma {:induction false} OffsetNonNegative(step: real, j: nat)
    requires step >= 0.0
    ensures Offset(step, j) >= 0.0
  {
    if j > 0 {
      OffsetNonNegative(step, j - 1);
    }
  }

  /** A translation that is missing, empty or the failure marker draws nothing. */
  lemma SkippedDrawsNothing(t: Rect, pageWidth: real, pageHeight: real, measure: Measure)
    requires !Drawable(t)
    ensures TranslationOps(t, pageWidth, pageHeight, measure) == []
  {
  }

  // ---------------------------------------------------------------- logo

  type Dim = r: real | r > 0.0 witness 1.0

  /** An embedded PNG's intrinsic size. */
  datatype Image = Image(width: Dim, height: Dim)

  datatype Size = Size(width: real, height: real)

  /** The default logo size: at most 60 wide and 30 high, with the image's aspect ratio. */
  function DefaultLogoSize(img: Image): (sz: Size)
    ensures 0.0 < sz.width <= 60.0 && 0.0 < sz.height <= 30.0
    ensures sz.width * img.height == img.width * sz.height
  {
    var logoWidth := Min(60.0, img.width);
    var logoHeight := img.height * logoWidth / img.width;
    var finalHeight := Min(logoHeight, 30.0);
    var finalWidth := img.width * finalHeight / img.height;
    ShrinkFacts(img.width, img.height, logoWidth, logoHeight, finalWidth, finalHeight);
    Size(finalWidth, finalHeight)
  }

  /** The default placement: 10 units in from the top and right edges of the page. */
  function DefaultLogo(img: Image, pageWidth: real, pageHeight: real): (op: DrawOp)
    ensures op.DrawImage? && op.width == DefaultLogoSize(img).width && op.height == DefaultLogoSize(img).height
    ensures op.x + op.width + 10.0 == pageWidth && op.y + op.height + 10.0 == pageHeight
  {
    var sz := DefaultLogoSize(img);
    DrawImage(pageWidth - sz.width - 10.0, pageHeight - sz.height - 10.0, sz.width, sz.height)
  }

  /** A position chosen in the editor, converted with the page's own width. */
  function PlacedLogo(pos: FrontBox, pageWidth: real, pageHeight: real): DrawOp {
    var scale := pageWidth / 800.0;
    DrawImage(pos.x * scale, pageHeight - (pos.y + pos.height) * scale, pos.width * scale, pos.height * scale)
  }

  /** The logo operations of one page: none without an embedded logo. */
  function LogoOps(logo: Option<Image>, pos: Option<FrontBox>, pageWidth: real, pageHeight: real): seq<DrawOp> {
    if logo.None? then []
    else if pos.Some? then [PlacedLogo(pos.value, pageWidth, pageHeight)]
    else [DefaultLogo(logo.value, pageWidth, pageHeight)]
  }

  lemma DivIsInverse(a: real, d: real)
    requires d > 0.0
    ensures (a / d) * d == a
  {
  }

  lemma PositiveProduct(a: real, b: real)
    requires a > 0.0 && b > 0.0
    ensures a * b > 0.0
  {
  }

  lemma ScaleMonotone(a: real, b: real, c: real)
    requires c > 0.0 && a <= b
    ensures c * a <= c * b
  {
    assert c * b - c * a == c * (b - a);
  }

  lemma DivLessEq(a: real, b: real, d: real)
    requires d > 0.0 && a <= b
    ensures a / d <= b / d
  {
  }

  lemma CancelLe(a: real, b: real, c: real)
    requires c > 0.0 && a * c <= b * c
    ensures a <= b
  {
    DivLessEq(a * c, b * c, c);
    assert a * c / c == a && b * c / c == b;
  }

  /** The shrunk width stays within the capped width when the height is shrunk at least as
      much, the aspect ratio being the same. */
  lemma AspectBound(iw: real, ih: real, lw: real, lh: real, fw: real, fh: real)
    requires iw > 0.0 && ih > 0.0
    requires lh * iw == ih * lw && fw * ih == iw * fh && fh <= lh
    ensures fw <= lw
  {
    ScaleMonotone(fh, lh, iw);
    assert fw * ih <= lw * ih;
    CancelLe(fw, lw, ih);
  }

  lemma ShrinkFacts(iw: real, ih: real, lw: real, lh: real, fw: real, fh: real)
    requires iw > 0.0 && ih > 0.0
    requires lw == Min(60.0, iw) && lh == ih * lw / iw && fh == Min(lh, 30.0) && fw == iw * fh / ih
    ensures 0.0 < fw <= 60.0 && 0.0 < fh <= 30.0 && fw * ih == iw * fh
  {
    DivIsInverse(ih * lw, iw);
    assert lh * iw == ih * lw;
    DivIsInverse(iw * fh, ih);
    assert fw * ih == iw * fh;
    PositiveProduct(ih, lw);
    assert lh > 0.0;
    PositiveProduct(iw, fh);
    assert fw > 0.0;
    AspectBound(iw, ih, lw, lh, fw, fh);
  }

  /** A chosen logo position is converted by the coordinate mapper. */
  lemma PlacedLogoIsMapped(pos: FrontBox, pageWidth: real, pageHeight: real)
    requires pageWidth > 0.0
    ensures var op := PlacedLogo(pos, pageWidth, pageHeight); var p := ToPdf(pos, pageWidth, pageHeight);
      op == DrawImage(p.x, p.bottom, p.width, p.height)
  {
    var s := Scale(pageWidth);
    var op := PlacedLogo(pos, pageWidth, pageHeight);
    var p := ToPdf(pos, pageWidth, pageHeight);
    assert (pos.y + pos.height) * s == pos.y * s + pos.height * s;
    assert op.x == p.x && op.y == p.bottom && op.width == p.width && op.height == p.height;
  }

  // ---------------------------------------------------------------- pages

  datatype PageSize = PageSize(width: real, height: real)

  /** The blocks of operations of the given translations, one per translation. */
  function Blocks(ts: seq<Rect>, pageWidth: real, pageHeight: real, measure: Measure): (xs: seq<seq<DrawOp>>)
    ensures |xs| == |ts|
    ensures forall i :: 0 <= i < |ts| ==> xs[i] == TranslationOps(ts[i], pageWidth, pageHeight, measure)
  {
    seq(|ts|, i requires 0 <= i < |ts| => TranslationOps(ts[i], pageWidth, pageHeight, measure))
  }

  /** The blocks one after another. */
  function Joined(xs: seq<seq<DrawOp>>): seq<DrawOp> {
    if xs == [] then [] else Joined(xs[..|xs| - 1]) + xs[|xs| - 1]
  }

  /** Everything drawn on page `pageIndex` (zero-based). */
  function PageOps(pageIndex: int, size: PageSize, translations: seq<Rect>, logo: Option<Image>,
                   pos: Option<FrontBox>, measure: Measure): seq<DrawOp> {
    LogoOps(logo, pos, size.width, size.height)
    + Joined(Blocks(FilterPage(translations, pageIndex), size.width, size.height, measure))
  }

  /** Each element of the joined blocks comes from one block, and each block's elements all
      appear in the join. */
  lemma {:induction false} JoinedMembers(xs: seq<seq<DrawOp>>)
    ensures forall op :: op in Joined(xs) ==> exists k :: 0 <= k < |xs| && op in xs[k]
    ensures forall k, op :: 0 <= k < |xs| && op in xs[k] ==> op in Joined(xs)
  {
    if xs != [] {
      var n := |xs|;
      var front := xs[..n - 1];
      JoinedMembers(front);
      forall op | op in Joined(xs) ensures exists k :: 0 <= k < |xs| && op in xs[k] {
        if op in Joined(front) {
          var k :| 0 <= k < |front| && op in front[k];
          assert xs[k] == front[k];
        } else {
          assert op in xs[n - 1];
        }
      }
      forall k, op | 0 <= k < |xs| && op in xs[k] ensures op in Joined(xs) {
        if k < n - 1 {
          assert front[k] == xs[k];
        }
      }
    }
  }

  /** A page shows its logo first and then only translations of that page that are drawable,
      and every drawable translation of the page paints its white box there. */
  lemma PageOpsSources(pageIndex: int, size: PageSize, translations: seq<Rect>, logo: Option<Image>,
                       pos: Option<FrontBox>, measure: Measure)
    ensures LogoOps(logo, pos, size.width, size.height)
      <= PageOps(pageIndex, size, translations, logo, pos, measure)
    ensures forall op :: op in PageOps(pageIndex, size, translations, logo, pos, measure)[|LogoOps(logo, pos, size.width, size.height)|..] ==>
      exists t :: t in translations && t.page == pageIndex && Drawable(t)
                  && op in TranslationOps(t, size.width, size.height, measure)
    ensures forall t :: t in translations && t.page == pageIndex && Drawable(t) ==>
      TranslationOps(t, size.width, size.height, measure) != []
      && TranslationOps(t, size.width, size.height, measure)[0] in PageOps(pageIndex, size, translations, logo, pos, measure)
  {
    var ops := PageOps(pageIndex, size, translations, logo, pos, measure);
    var logoOps := LogoOps(logo, pos, size.width, size.height);
    var mine := FilterPage(translations, pageIndex);
    var body := Joined(Blocks(mine, size.width, size.height, measure));
    assert ops == logoOps + body;
    assert ops[|logoOps|..] == body;
    forall op | op in body
      ensures exists t :: t in translations && t.page == pageIndex && Drawable(t)
                          && op in TranslationOps(t, size.width, size.height, measure)
    {
      BlockOpSource(mine, size.width, size.height, measure, op);
      var t :| t in mine && Drawable(t) && op in TranslationOps(t, size.width, size.height, measure);
      assert t in translations && t.page == pageIndex;
    }
    forall t | t in translations && t.page == pageIndex && Drawable(t)
      ensures TranslationOps(t, size.width, size.height, measure) != []
      ensures TranslationOps(t, size.width, size.height, measure)[0] in ops
    {
      BlockOpsCover(mine, size.width, size.height, measure, t);
    }
  }

  /** Every operation of the joined blocks comes from a drawable translation. */
  lemma BlockOpSource(ts: seq<Rect>, width: real, height: real, measure: Measure, op: DrawOp)
    requires op in Joined(Blocks(ts, width, height, measure))
    ensures exists t :: t in ts && Drawable(t) && op in TranslationOps(t, width, height, measure)
  {
    var xs := Blocks(ts, width, height, measure);
    JoinedMembers(xs);
    var k :| 0 <= k < |xs| && op in xs[k];
    var t := ts[k];
    assert xs[k] == TranslationOps(t, width, height, measure);
    assert t in ts && Drawable(t);
  }

  /** Every drawable translation's white box is among the joined blocks. */
  lemma BlockOpsCover(ts: seq<Rect>, width: real, height: real, measure: Measure, t: Rect)
    requires t in ts && Drawable(t)
    ensures TranslationOps(t, width, height, measure) != []
    ensures TranslationOps(t, width, height, measure)[0] in Joined(Blocks(ts, width, height, measure))
  {
    var xs := Blocks(ts, width, height, measure);
    var k :| 0 <= k < |ts| && ts[k] == t;
    TranslationOpsShape(t, width, height, measure);
    assert xs[k] == TranslationOps(t, width, height, measure);
    JoinedMembers(xs);
    assert xs[k][0] in xs[k];
  }


  // ---------------------------------------------------------------- the renderer

  /** The line loop of one translation. */
  method DrawLines(lines: seq<string>, lay: Layout, y0: real, measure: Measure) returns (ops: seq<DrawOp>)
    ensures ops == LineOps(lines, lay, y0, measure)
  {
    ops := [];
    var yPos := y0;
    var i := 0;
    while i < |lines|
      invariant 0 <= i <= |lines|
      invariant ops + LineOps(lines[i..], lay, yPos, measure) == LineOps(lines, lay, y0, measure)
    {
      var line := lines[i];
      assert lines[i..][1..] == lines[i + 1..];
      var textWidth := measure(line, lay.size);
      var textX := lay.right - textWidth - Padding;
      if yPos > lay.limit {
        ops := ops + [DrawText(line, textX, yPos, lay.size)];
      }
      yPos := yPos - lay.step;
      i := i + 1;
    }
  }

  /** The body of the translation loop for one translation. */
  method DrawTranslation(t: Rect, width: real, height: real, measure: Measure) returns (ops: seq<DrawOp>)
    ensures ops == TranslationOps(t, width, height, measure)
  {
    if !(t.translation.Some? && t.translation.value != [] && t.translation.value != TranslationFailed) {
      return [];
    }
    var pageWidth := if t.geometry.Some? then t.geometry.value.pageWidth else 0.0;
    if pageWidth == 0.0 {
      pageWidth := width;
    }
    var scale := pageWidth / 800.0;
    var pdfX := t.x * scale;
    var pdfY := t.y * scale;
    var pdfWidth := t.width * scale;
    var pdfHeight := t.height * scale;
    ghost var box := Frame(t, width, height);
    assert box.x == pdfX && box.bottom == height - pdfY - pdfHeight;
    assert box.width == pdfWidth && box.height == pdfHeight;
    var sanitizedText := Sanitize(t.translation.value);
    ops := [FillWhite(pdfX, height - pdfY - pdfHeight, pdfWidth, pdfHeight)];
    var fontSize := OverlayFontSize(pdfHeight);
    var wrappedText := WrapTextForPdf(sanitizedText, pdfWidth - Padding * 2.0, measure, fontSize);
    var lineSpacing := fontSize * 1.2;
    var yPos := height - pdfY - Padding - fontSize;
    assert yPos == box.bottom + box.height - Padding - fontSize;
    var lay := Layout(pdfX + pdfWidth, lineSpacing, height - pdfY - pdfHeight + fontSize, fontSize);
    assert lay == FrameLayout(box, fontSize);
    var textOps := DrawLines(wrappedText, lay, yPos, measure);
    ops := ops + textOps;
  }

  /** The logo block of one page. */
  method DrawLogo(logo: Option<Image>, logoPosition: Option<FrontBox>, width: real, height: real)
    returns (ops: seq<DrawOp>)
    ensures ops == LogoOps(logo, logoPosition, width, height)
  {
    ops := [];
    if logo.Some? {
      if logoPosition.Some? {
        ops := [PlacedLogo(logoPosition.value, width, height)];
      } else {
        ops := [DefaultLogo(logo.value, width, height)];
      }
    }
  }

  /** The translation loop of one page. */
  method DrawTranslations(pageTranslations: seq<Rect>, width: real, height: real, measure: Measure)
    returns (ops: seq<DrawOp>)
    ensures ops == Joined(Blocks(pageTranslations, width, height, measure))
  {
    ghost var xs := Blocks(pageTranslations, width, height, measure);
    ops := [];
    var k := 0;
    while k < |pageTranslations|
      invariant 0 <= k <= |pageTranslations|
      invariant ops == Joined(xs[..k])
    {
      var tOps := DrawTranslation(pageTranslations[k], width, height, measure);
      JoinedSnoc(xs, k);
      ops := ops + tOps;
      k := k + 1;
    }
    assert xs[..k] == xs;
  }

  lemma JoinedSnoc(xs: seq<seq<DrawOp>>, k: nat)
    requires k < |xs|
    ensures Joined(xs[..k + 1]) == Joined(xs[..k]) + xs[k]
  {
    assert xs[..k + 1][..k] == xs[..k];
  }

  /** One iteration of the page loop: the logo, then the page's translations in list order. */
  method DrawPage(pageIndex: int, size: PageSize, translations: seq<Rect>, logo: Option<Image>,
                  logoPosition: Option<FrontBox>, measure: Measure)
    returns (ops: seq<DrawOp>)
    ensures ops == PageOps(pageIndex, size, translations, logo, logoPosition, measure)
  {
    var width := size.width;
    var height := size.height;
    var logoOps := DrawLogo(logo, logoPosition, width, height);
    var pageTranslations := FilterPage(translations, pageIndex);
    var textOps := DrawTranslations(pageTranslations, width, height, measure);
    ops := logoOps + textOps;
  }

  /** `processFullPdf`: the drawing operations of every page. */
  method ProcessFullPdf(pages: seq<PageSize>, translations: seq<Rect>, logo: Option<Image>,
                        logoPosition: Option<FrontBox>, measure: Measure)
    returns (drawn: seq<seq<DrawOp>>)
    ensures |drawn| == |pages|
    ensures forall i :: 0 <= i < |pages| ==>
      drawn[i] == PageOps(i, pages[i], translations, logo, logoPosition, measure)
  {
    drawn := [];
    var pageIndex := 0;
    while pageIndex < |pages|
      invariant 0 <= pageIndex <= |pages|
      invariant |drawn| == pageIndex
      invariant forall i :: 0 <= i < pageIndex ==>
        drawn[i] == PageOps(i, pages[i], translations, logo, logoPosition, measure)
    {
      var ops := DrawPage(pageIndex, pages[pageIndex], translations, logo, logoPosition, measure);
      drawn := drawn + [ops];
      pageIndex := pageIndex + 1;
    }
  }

  // ---------------------------------------------------------------- removeChinese

  /** The CJK Unified Ideographs block and extensions A to E. */
  predicate CjkIdeograph(c: char) {
    var n := c as int;
    (0x4E00 <= n <= 0x9FFF) || (0x3400 <= n <= 0x4DBF) || (0x20000 <= n <= 0x2A6DF)
    || (0x2A700 <= n <= 0x2B73F) || (0x2B740 <= n <= 0x2B81F) || (0x2B820 <= n <= 0x2CEAF)
  }

  /** The class the helper's regular expression denotes: without the `u` flag each
      five-digit escape reads as a four-digit escape and a digit, so the class holds the
      ranges from `0` up to U+2A6D, U+2B73, U+2B81 and U+2CEA besides the two BMP blocks;
      characters outside the BMP are surrogate pairs, which the class never matches. */
  predicate RemovedAsWritten(c: char) {
    var n := c as int;
    (0x4E00 <= n <= 0x9FFF) || (0x3400 <= n <= 0x4DBF) || (0x0030 <= n <= 0x2CEA)
  }

  /** `removeChinese(text)` as written. */
  function RemoveChineseAsWritten(s: string): (r: string)
    ensures |r| <= |s|
    ensures forall i :: 0 <= i < |r| ==> !RemovedAsWritten(r[i])
  {
    if s == [] then []
    else if RemovedAsWritten(s[0]) then RemoveChineseAsWritten(s[1..])
    else [s[0]] + RemoveChineseAsWritten(s[1..])
  }

  /** `removeChinese(text)` as intended: only CJK ideographs are removed. */
  function RemoveChinese(s: string): (r: string)
    ensures |r| <= |s|
    ensures forall i :: 0 <= i < |r| ==> !CjkIdeograph(r[i])
  {
    if s == [] then []
    else if CjkIdeograph(s[0]) then RemoveChinese(s[1..])
    else [s[0]] + RemoveChinese(s[1..])
  }

  /** As written the helper also deletes Latin letters and digits, which the intended filter
      keeps. */
  lemma RemoveChineseDropsLatin()
    ensures RemoveChineseAsWritten("A1") == []
    ensures RemoveChinese("A1") == "A1"
  {
    assert RemoveChineseAsWritten("A1") == RemoveChineseAsWritten("A1"[1..]);
    assert RemoveChinese("A1") == ['A'] + RemoveChinese("A1"[1..]);
  }

  /** The intended filter keeps every character that is not an ideograph, in order: it is
      the identity on text without ideographs, and applying it twice is applying it once. */
  lemma {:induction false} RemoveChineseKeeps(s: string)
    ensures (forall i :: 0 <= i < |s| ==> !CjkIdeograph(s[i])) ==> RemoveChinese(s) == s
    ensures forall c :: c in s && !CjkIdeograph(c) ==> c in RemoveChinese(s)
  {
    if s != [] {
      RemoveChineseKeeps(s[1..]);
      assert s == [s[0]] + s[1..];
    }
  }

  lemma RemoveChineseIdempotent(s: string)
    ensures RemoveChinese(RemoveChinese(s)) == RemoveChinese(s)
  {
    RemoveChineseKeeps(RemoveChinese(s));
  }
}
