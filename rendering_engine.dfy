/** The second layout engine: it sizes a font from the text and its container, wraps words
    by measured width (cutting over-long words into characters), caps the number of lines
    and centres them. Measurement uses a canvas when one could be created and a
    character-count estimate otherwise. */
module RenderingEngine {
  import opened Wrappers
  import opened Numeric
  import opened Strings
  import Overlay

  type Measure = Overlay.Measure
  type WrapState = Overlay.WrapState

  // ---------------------------------------------------------------- measurement

  /** The estimate used without a canvas: 0.6 of the font size per character. */
  function FallbackWidth(text: string, fontSize: real): real {
    |text| as real * fontSize * 0.6
  }

  /** The estimate adds up over concatenation, so it grows with the text. */
  lemma FallbackAdditive(a: string, b: string, fontSize: real)
    ensures FallbackWidth(a + b, fontSize) == FallbackWidth(a, fontSize) + FallbackWidth(b, fontSize)
  {
    var n := |a| as real;
    var k := |b| as real;
    assert |a + b| as real == n + k;
    assert (n + k) * fontSize == n * fontSize + k * fontSize;
  }

  datatype Metrics = Metrics(width: real, height: real)

  // ---------------------------------------------------------------- text analysis

  datatype Complexity = SimpleText | MediumText | ComplexText
  datatype Density = LowDensity | MediumDensity | HighDensity

  datatype Analysis = Analysis(textLength: nat, wordCount: nat, avgWordLength: real,
                               complexity: Complexity, density: Density)

  function ComplexityOf(textLength: nat): Complexity {
    if textLength > 300 then ComplexText else if textLength > 150 then MediumText else SimpleText
  }

  function DensityOf(wordCount: nat): Density {
    if wordCount > 50 then HighDensity else if wordCount > 20 then MediumDensity else LowDensity
  }

  function ComplexityRank(c: Complexity): int {
    match c
    case SimpleText => 0
    case MediumText => 1
    case ComplexText => 2
  }

  function DensityRank(d: Density): int {
    match d
    case LowDensity => 0
    case MediumDensity => 1
    case HighDensity => 2
  }

  /** `analyzeTextLayout`: the length, the number of whitespace-separated words and the
      classifications derived from them. */
  function AnalyzeTextLayout(text: string): (a: Analysis)
    ensures a.textLength == |text| && a.wordCount == |Words(text)|
    ensures a.wordCount <= a.textLength
    ensures a.wordCount == 0 <==> AllSpace(text)
    ensures a.wordCount > 0 ==> a.avgWordLength >= 1.0
  {
    var words := Words(text);
    WordsCount(text);
    var len := |text|;
    var count := |words|;
    var avg := len as real / (if count > 1 then count else 1) as real;
    AtLeastOne(len, count);
    Analysis(len, count, avg, ComplexityOf(len), DensityOf(count))
  }

  lemma AtLeastOne(len: nat, count: nat)
    requires count <= len
    ensures count > 0 ==> len as real / (if count > 1 then count else 1) as real >= 1.0
  {
    if count > 0 {
      var d := (if count > 1 then count else 1) as real;
      assert d == count as real;
      assert len as real >= d;
    }
  }

  /** Longer text is never classed as simpler, and more words are never classed as sparser. */
  lemma ClassesMonotone(a: string, b: string)
    requires |a| <= |b| && |Words(a)| <= |Words(b)|
    ensures ComplexityRank(AnalyzeTextLayout(a).complexity) <= ComplexityRank(AnalyzeTextLayout(b).complexity)
    ensures DensityRank(AnalyzeTextLayout(a).density) <= DensityRank(AnalyzeTextLayout(b).density)
  {
  }

  // ---------------------------------------------------------------- font size

  /** The size before the multipliers: the smaller of width/25 and height/6, within [10, 20]. */
  function BaseSize(containerWidth: real, containerHeight: real): (r: real)
    ensures 10.0 <= r <= 20.0
  {
    Clamp(10.0, 20.0, Min(containerWidth / 25.0, containerHeight / 6.0))
  }

  /** The complexity and density multipliers. */
  function Rescaled(size: real, a: Analysis): real {
    var bySize := match a.complexity
      case ComplexText => size * 0.75
      case MediumText => size * 0.85
      case SimpleText => size * 1.1;
    match a.density
    case HighDensity => bySize * 0.8
    case MediumDensity => bySize * 0.9
    case LowDensity => bySize * 1.2
  }

  /** The rounded size, always an integer between 8 and 24. */
  function OptimalFontSize(a: Analysis, containerWidth: real, containerHeight: real): (r: int)
    ensures 8 <= r <= 24
  {
    Round(Clamp(8.0, 24.0, Rescaled(BaseSize(containerWidth, containerHeight), a)))
  }

  /** A larger container never gets a smaller font. */
  lemma FontSizeMonotone(a: Analysis, w1: real, h1: real, w2: real, h2: real)
    requires w1 <= w2 && h1 <= h2
    ensures OptimalFontSize(a, w1, h1) <= OptimalFontSize(a, w2, h2)
  {
    var m1 := Min(w1 / 25.0, h1 / 6.0);
    var m2 := Min(w2 / 25.0, h2 / 6.0);
    assert m1 <= m2;
    ClampMonotone(10.0, 20.0, m1, m2);
    var r1 := Rescaled(BaseSize(w1, h1), a);
    var r2 := Rescaled(BaseSize(w2, h2), a);
    assert r1 <= r2;
    ClampMonotone(8.0, 24.0, r1, r2);
    RoundMonotone(Clamp(8.0, 24.0, r1), Clamp(8.0, 24.0, r2));
  }

  /** The multipliers range from 0.6 (long, dense text) to 1.32 (short, sparse text), so with
      the base in [10, 20] the size before rounding lies in [6, 26.4]. */
  lemma RescaledRange(size: real, a: Analysis)
    requires 10.0 <= size <= 20.0
    ensures 6.0 <= Rescaled(size, a) <= 26.4
  {
  }

  /** `calculateOptimalFontSize`: the local size is rescaled through the two switches. */
  method CalculateOptimalFontSize(a: Analysis, containerWidth: real, containerHeight: real)
    returns (finalSize: int)
    ensures finalSize == OptimalFontSize(a, containerWidth, containerHeight)
  {
    var baseSize := Min(containerWidth / 25.0, containerHeight / 6.0);
    var fontSize := Max(10.0, Min(20.0, baseSize));
    match a.complexity {
      case ComplexText => fontSize := fontSize * 0.75;
      case MediumText => fontSize := fontSize * 0.85;
      case SimpleText => fontSize := fontSize * 1.1;
    }
    match a.density {
      case HighDensity => fontSize := fontSize * 0.8;
      case MediumDensity => fontSize := fontSize * 0.9;
      case LowDensity => fontSize := fontSize * 1.2;
    }
    finalSize := Round(Max(8.0, Min(24.0, fontSize)));
  }

  // ---------------------------------------------------------------- wrapping

  /** One character of the long-word loop: it joins the partial piece when the piece still
      fits, otherwise the piece (if any) becomes a line and the character starts a new one. */
  function CharStep(st: WrapState, c: char, maxWidth: real, measure: Measure, size: real): WrapState {
    var testChar := st.current + [c];
    if measure(testChar, size) <= maxWidth then Overlay.WrapState(st.lines, testChar)
    else Overlay.WrapState(st.lines + (if st.current != [] then [st.current] else []), [c])
  }

  /** The long-word loop over the characters of `chars`, starting from `start`. */
  function CharFold(chars: string, start: WrapState, maxWidth: real, measure: Measure, size: real): WrapState {
    if chars == [] then start
    else
      var n := |chars|;
      CharStep(CharFold(chars[..n - 1], start, maxWidth, measure, size), chars[n - 1], maxWidth, measure, size)
  }

  /** One word of `wrapTextIntelligently` as written: after a line is finished the word
      starts the next line without being measured. */
  function StepAsWritten(st: WrapState, word: string, maxWidth: real, measure: Measure, size: real): WrapState {
    var testLine := if st.current == [] then word else st.current + " " + word;
    if measure(testLine, size) <= maxWidth then Overlay.WrapState(st.lines, testLine)
    else if st.current != [] then Overlay.WrapState(st.lines + [st.current], word)
    else CharFold(word, Overlay.WrapState(st.lines, []), maxWidth, measure, size)
  }

  /** One word as intended: after a line is finished the word is measured on its own and cut
      into characters when it does not fit either. */
  function StepCorrected(st: WrapState, word: string, maxWidth: real, measure: Measure, size: real): WrapState {
    var testLine := if st.current == [] then word else st.current + " " + word;
    if measure(testLine, size) <= maxWidth then Overlay.WrapState(st.lines, testLine)
    else
      var flushed := st.lines + (if st.current != [] then [st.current] else []);
      if measure(word, size) <= maxWidth then Overlay.WrapState(flushed, word)
      else CharFold(word, Overlay.WrapState(flushed, []), maxWidth, measure, size)
  }

  function FoldAsWritten(words: seq<string>, maxWidth: real, measure: Measure, size: real): WrapState {
    if words == [] then Overlay.WrapState([], [])
    else
      var n := |words|;
      StepAsWritten(FoldAsWritten(words[..n - 1], maxWidth, measure, size), words[n - 1], maxWidth, measure, size)
  }

  function FoldCorrected(words: seq<string>, maxWidth: real, measure: Measure, size: real): WrapState {
    if words == [] then Overlay.WrapState([], [])
    else
      var n := |words|;
      StepCorrected(FoldCorrected(words[..n - 1], maxWidth, measure, size), words[n - 1], maxWidth, measure, size)
  }

  /** `wrapTextIntelligently` as written. */
  function WrapAsWritten(text: string, maxWidth: real, measure: Measure, size: real): seq<string> {
    Overlay.WrapFinish(FoldAsWritten(Words(text), maxWidth, measure, size))
  }

  /** `wrapTextIntelligently` as intended. */
  function WrapCorrected(text: string, maxWidth: real, measure: Measure, size: real): seq<string> {
    Overlay.WrapFinish(FoldCorrected(Words(text), maxWidth, measure, size))
  }

  /** A line that fits, or a single character too wide on its own. */
  predicate LineFits(line: string, maxWidth: real, measure: Measure, size: real) {
    measure(line, size) <= maxWidth || |line| == 1
  }

  predicate StateFits(st: WrapState, maxWidth: real, measure: Measure, size: real) {
    (forall i :: 0 <= i < |st.lines| ==> LineFits(st.lines[i], maxWidth, measure, size))
    && (st.current == [] || LineFits(st.current, maxWidth, measure, size))
  }

  /** The total visible content of a state. */
  function Content(st: WrapState): string {
    NonWhiteAll(st.lines) + NonWhite(st.current)
  }

  lemma PushFits(st: WrapState, line: string, next: string, maxWidth: real, measure: Measure, size: real)
    requires StateFits(st, maxWidth, measure, size)
    requires line == st.current && line != []
    requires next == [] || LineFits(next, maxWidth, measure, size)
    ensures StateFits(Overlay.WrapState(st.lines + [line], next), maxWidth, measure, size)
  {
    var r := Overlay.WrapState(st.lines + [line], next);
    forall i | 0 <= i < |r.lines| ensures LineFits(r.lines[i], maxWidth, measure, size) {
      if i < |st.lines| {
        assert r.lines[i] == st.lines[i];
      }
    }
  }

  lemma CharStepFits(st: WrapState, c: char, maxWidth: real, measure: Measure, size: real)
    requires StateFits(st, maxWidth, measure, size)
    ensures StateFits(CharStep(st, c, maxWidth, measure, size), maxWidth, measure, size)
  {
    var testChar := st.current + [c];
    if measure(testChar, size) > maxWidth {
      if st.current != [] {
        PushFits(st, st.current, [c], maxWidth, measure, size);
      } else {
        assert st.lines + [] == st.lines;
      }
    }
  }

  lemma CharStepContent(st: WrapState, c: char, maxWidth: real, measure: Measure, size: real)
    ensures Content(CharStep(st, c, maxWidth, measure, size)) == Content(st) + NonWhite([c])
  {
    var testChar := st.current + [c];
    NonWhiteAppend(st.current, [c]);
    if measure(testChar, size) > maxWidth {
      if st.current != [] {
        NonWhiteAllSnoc(st.lines, st.current);
      } else {
        assert st.lines + [] == st.lines;
      }
    }
  }

  lemma {:induction false} CharFoldFits(chars: string, start: WrapState, maxWidth: real, measure: Measure, size: real)
    requires StateFits(start, maxWidth, measure, size)
    ensures StateFits(CharFold(chars, start, maxWidth, measure, size), maxWidth, measure, size)
  {
    if chars != [] {
      var n := |chars|;
      CharFoldFits(chars[..n - 1], start, maxWidth, measure, size);
      CharStepFits(CharFold(chars[..n - 1], start, maxWidth, measure, size), chars[n - 1], maxWidth, measure, size);
    }
  }

  /** Starting a fresh line after finishing the current one keeps the state's content. */
  lemma FlushContent(st: WrapState)
    ensures Content(Overlay.WrapState(st.lines + (if st.current != [] then [st.current] else []), []))
      == Content(st)
  {
    if st.current != [] {
      NonWhiteAllSnoc(st.lines, st.current);
    } else {
      assert st.lines + [] == st.lines;
    }
  }

  lemma FlushFits(st: WrapState, maxWidth: real, measure: Measure, size: real)
    requires StateFits(st, maxWidth, measure, size)
    ensures StateFits(Overlay.WrapState(st.lines + (if st.current != [] then [st.current] else []), []),
                      maxWidth, measure, size)
  {
    if st.current != [] {
      PushFits(st, st.current, [], maxWidth, measure, size);
    } else {
      assert st.lines + [] == st.lines;
    }
  }

  /** Joining a word to a line adds exactly the word's visible characters. */
  lemma TestLineContent(st: WrapState, word: string)
    ensures var testLine := if st.current == [] then word else st.current + " " + word;
      Content(Overlay.WrapState(st.lines, testLine)) == Content(st) + NonWhite(word)
  {
    if st.current != [] {
      NonWhiteSpaced(st.current, word);
    }
  }

  lemma StepCorrectedFits(st: WrapState, word: string, maxWidth: real, measure: Measure, size: real)
    requires StateFits(st, maxWidth, measure, size)
    ensures StateFits(StepCorrected(st, word, maxWidth, measure, size), maxWidth, measure, size)
  {
    var testLine := if st.current == [] then word else st.current + " " + word;
    var r := StepCorrected(st, word, maxWidth, measure, size);
    if measure(testLine, size) > maxWidth {
      var restart := Overlay.WrapState(st.lines + (if st.current != [] then [st.current] else []), []);
      FlushFits(st, maxWidth, measure, size);
      if measure(word, size) > maxWidth {
        assert r == CharFold(word, restart, maxWidth, measure, size);
        CharFoldFits(word, restart, maxWidth, measure, size);
      } else {
        assert r == Overlay.WrapState(restart.lines, word);
      }
    } else {
      assert r == Overlay.WrapState(st.lines, testLine);
    }
  }

  lemma StepCorrectedContent(st: WrapState, word: string, maxWidth: real, measure: Measure, size: real)
    ensures Content(StepCorrected(st, word, maxWidth, measure, size)) == Content(st) + NonWhite(word)
  {
    var testLine := if st.current == [] then word else st.current + " " + word;
    var r := StepCorrected(st, word, maxWidth, measure, size);
    if measure(testLine, size) > maxWidth {
      var restart := Overlay.WrapState(st.lines + (if st.current != [] then [st.current] else []), []);
      FlushContent(st);
      assert NonWhite([]) == [];
      assert NonWhiteAll(restart.lines) == Content(st);
      if measure(word, size) > maxWidth {
        assert r == CharFold(word, restart, maxWidth, measure, size);
        CharFoldContent(word, restart, maxWidth, measure, size);
      } else {
        assert r == Overlay.WrapState(restart.lines, word);
      }
    } else {
      assert r == Overlay.WrapState(st.lines, testLine);
      TestLineContent(st, word);
    }
  }

  lemma StepAsWrittenContent(st: WrapState, word: string, maxWidth: real, measure: Measure, size: real)
    ensures Content(StepAsWritten(st, word, maxWidth, measure, size)) == Content(st) + NonWhite(word)
  {
    var testLine := if st.current == [] then word else st.current + " " + word;
    TestLineContent(st, word);
    if measure(testLine, size) > maxWidth {
      if st.current != [] {
        NonWhiteAllSnoc(st.lines, st.current);
      } else {
        FlushContent(st);
        CharFoldContent(word, Overlay.WrapState(st.lines, []), maxWidth, measure, size);
      }
    }
  }

  /** The long-word loop keeps content whatever the widths. */
  lemma {:induction false} CharFoldContent(chars: string, start: WrapState, maxWidth: real, measure: Measure, size: real)
    ensures Content(CharFold(chars, start, maxWidth, measure, size)) == Content(start) + NonWhite(chars)
  {
    if chars != [] {
      var n := |chars|;
      var front := chars[..n - 1];
      CharFoldContent(front, start, maxWidth, measure, size);
      CharStepContent(CharFold(front, start, maxWidth, measure, size), chars[n - 1], maxWidth, measure, size);
      assert chars == front + [chars[n - 1]];
      NonWhiteAppend(front, [chars[n - 1]]);
    }
  }

  lemma {:induction false} FoldCorrectedProperties(words: seq<string>, maxWidth: real, measure: Measure, size: real)
    ensures StateFits(FoldCorrected(words, maxWidth, measure, size), maxWidth, measure, size)
    ensures Content(FoldCorrected(words, maxWidth, measure, size)) == NonWhiteAll(words)
  {
    if words != [] {
      var n := |words|;
      var prev := FoldCorrected(words[..n - 1], maxWidth, measure, size);
      assert FoldCorrected(words, maxWidth, measure, size) == StepCorrected(prev, words[n - 1], maxWidth, measure, size);
      FoldCorrectedProperties(words[..n - 1], maxWidth, measure, size);
      StepCorrectedFits(prev, words[n - 1], maxWidth, measure, size);
      StepCorrectedContent(prev, words[n - 1], maxWidth, measure, size);
      assert words == words[..n - 1] + [words[n - 1]];
      NonWhiteAllSnoc(words[..n - 1], words[n - 1]);
    }
  }

  lemma {:induction false} FoldAsWrittenContent(words: seq<string>, maxWidth: real, measure: Measure, size: real)
    ensures Content(FoldAsWritten(words, maxWidth, measure, size)) == NonWhiteAll(words)
  {
    if words != [] {
      var n := |words|;
      FoldAsWrittenContent(words[..n - 1], maxWidth, measure, size);
      StepAsWrittenContent(FoldAsWritten(words[..n - 1], maxWidth, measure, size), words[n - 1], maxWidth, measure, size);
      assert words == words[..n - 1] + [words[n - 1]];
      NonWhiteAllSnoc(words[..n - 1], words[n - 1]);
    }
  }

  lemma FinishContent(st: WrapState)
    ensures NonWhiteAll(Overlay.WrapFinish(st)) == Content(st)
  {
    NonWhiteAllSnoc(st.lines, st.current);
  }

  /** As intended, every line fits the width or is one character wider than it on its own,
      and the lines hold the text's visible characters in order. */
  lemma WrapCorrectedSpec(text: string, maxWidth: real, measure: Measure, size: real)
    ensures var lines := WrapCorrected(text, maxWidth, measure, size);
      (forall i :: 0 <= i < |lines| ==> LineFits(lines[i], maxWidth, measure, size))
      && NonWhiteAll(lines) == NonWhite(text)
  {
    var st := FoldCorrected(Words(text), maxWidth, measure, size);
    FoldCorrectedProperties(Words(text), maxWidth, measure, size);
    FinishContent(st);
    WordsCount(text);
    var lines := Overlay.WrapFinish(st);
    forall i | 0 <= i < |lines| ensures LineFits(lines[i], maxWidth, measure, size) {
      if i < |st.lines| {
        assert lines[i] == st.lines[i];
      }
    }
  }

  /** As written the lines still hold the text's visible characters in order. */
  lemma WrapAsWrittenContent(text: string, maxWidth: real, measure: Measure, size: real)
    ensures NonWhiteAll(WrapAsWritten(text, maxWidth, measure, size)) == NonWhite(text)
  {
    FoldAsWrittenContent(Words(text), maxWidth, measure, size);
    FinishContent(FoldAsWritten(Words(text), maxWidth, measure, size));
    WordsCount(text);
  }

  /** As written a word that follows a finished line is never measured: with the estimate
      at size 10 and width 10, "a" fits (6) but "a bbbbb" does not (42), so "bbbbb" becomes a
      line of width 30 that is neither within the width nor one character. */
  lemma WrapAsWrittenOverflows()
    ensures WrapAsWritten("a bbbbb", 10.0, FallbackWidth, 10.0) == ["a", "bbbbb"]
    ensures !LineFits("bbbbb", 10.0, FallbackWidth, 10.0)
    ensures var lines := WrapCorrected("a bbbbb", 10.0, FallbackWidth, 10.0);
      forall i :: 0 <= i < |lines| ==> LineFits(lines[i], 10.0, FallbackWidth, 10.0)
  {
    var words := ["a", "bbbbb"];
    ExampleWords();
    assert words[..1] == ["a"];
    assert ["a"][..0] == [];
    assert FallbackWidth("a", 10.0) == 6.0;
    assert "a" + " " + "bbbbb" == "a bbbbb";
    assert FallbackWidth("a bbbbb", 10.0) == 42.0;
    assert FallbackWidth("bbbbb", 10.0) == 30.0;
    var st1 := FoldAsWritten(["a"], 10.0, FallbackWidth, 10.0);
    assert st1 == Overlay.WrapState([], "a");
    var st2 := FoldAsWritten(words, 10.0, FallbackWidth, 10.0);
    assert st2 == StepAsWritten(st1, "bbbbb", 10.0, FallbackWidth, 10.0);
    assert st2 == Overlay.WrapState(["a"], "bbbbb");
    WrapCorrectedSpec("a bbbbb", 10.0, FallbackWidth, 10.0);
  }

  /** The words of the example above. */
  lemma ExampleWords()
    ensures Words("a bbbbb") == ["a", "bbbbb"]
  {
    var text := "a bbbbb";
    assert TrimStart(text) == text;
    assert TakeWord(text) == "a";
    var rest := text[1..];
    assert rest == " bbbbb";
    assert TrimStart(rest) == rest[1..];
    assert TrimStart(rest[1..]) == rest[1..];
    assert TakeWord("bbbbb") == "bbbbb";
    assert TrimStart("") == "";
    assert Words("bbbbb"[5..]) == [];
    assert Words(rest) == ["bbbbb"];
  }

  // ---------------------------------------------------------------- layout

  /** JavaScript's `lines.slice(0, end)`: a negative end counts from the back. */
  function SliceTo<T>(xs: seq<T>, end: int): (r: seq<T>)
    ensures r <= xs
    ensures end >= 0 ==> |r| == (if end < |xs| then end else |xs|)
    ensures end < 0 ==> |r| == (if |xs| + end > 0 then |xs| + end else 0)
  {
    if end >= 0 then (if end < |xs| then xs[..end] else xs)
    else if |xs| + end > 0 then xs[..|xs| + end]
    else []
  }

  datatype TextLayout = TextLayout(fontSize: int, lineHeight: real, padding: real, lines: seq<string>,
                                   totalTextHeight: real, verticalOffset: real)

  /** `max(12, 0.8 * size)`. */
  function LayoutPadding(size: real): real {
    Max(12.0, size * 0.8)
  }

  /** The layout record for wrapped `lines`: line height 1.4 times the size, at most as many
      lines as fit the padded height, and the text block centred vertically. */
  function Assemble(fontSize: int, padding: real, containerHeight: real, lines: seq<string>): TextLayout
    requires fontSize > 0
  {
    var lineHeight := fontSize as real * 1.4;
    var availableHeight := containerHeight - padding * 2.0;
    var maxLines := Floor(availableHeight / lineHeight);
    var totalTextHeight := |lines| as real * lineHeight;
    var verticalOffset := Max(0.0, (availableHeight - totalTextHeight) / 2.0);
    TextLayout(fontSize, lineHeight, padding, SliceTo(lines, maxLines), totalTextHeight, verticalOffset)
  }

  /** What the layout record says whatever the wrapped lines are: the size and padding it was
      given, a line height of 1.4 times the size, a first run of the lines that is as long as
      fits when that count is not negative, and an offset that is never negative. */
  lemma AssembleShape(fontSize: int, padding: real, containerHeight: real, lines: seq<string>)
    requires fontSize > 0
    ensures var l := Assemble(fontSize, padding, containerHeight, lines);
      var maxLines := Floor((containerHeight - padding * 2.0) / l.lineHeight);
      l.fontSize == fontSize && l.padding == padding
      && l.lineHeight == fontSize as real * 1.4 && l.verticalOffset >= 0.0
      && l.lines <= lines
      && (maxLines >= 0 ==> |l.lines| == (if maxLines < |lines| then maxLines else |lines|))
  {
  }

  /** The optimal size and its padding: a size in [8, 24], a padding at least 12 and at least
      0.8 of the size. */
  lemma SizeAndPadding(text: string, containerWidth: real, containerHeight: real)
    ensures var fontSize := OptimalFontSize(AnalyzeTextLayout(text), containerWidth, containerHeight);
      var padding := LayoutPadding(fontSize as real);
      8 <= fontSize <= 24 && padding >= 12.0 && padding >= fontSize as real * 0.8
  {
  }

  /** `calculatePerfectLayout` as written, over the wrap that leaves an unmeasured word after a
      finished line. */
  function PerfectLayoutAsWritten(text: string, containerWidth: real, containerHeight: real,
                                  measure: Measure): TextLayout {
    var fontSize := OptimalFontSize(AnalyzeTextLayout(text), containerWidth, containerHeight);
    var padding := LayoutPadding(fontSize as real);
    Assemble(fontSize, padding, containerHeight,
      WrapAsWritten(text, containerWidth - padding * 2.0, measure, fontSize as real))
  }

  /** The as-written layout has the same size, padding, line height and offset facts, and its
      lines are the first lines of the as-written wrap, which need not fit the width. */
  lemma PerfectLayoutAsWrittenSpec(text: string, containerWidth: real, containerHeight: real, measure: Measure)
    ensures var l := PerfectLayoutAsWritten(text, containerWidth, containerHeight, measure);
      var size := l.fontSize as real;
      var wrapped := WrapAsWritten(text, containerWidth - l.padding * 2.0, measure, size);
      var maxLines := Floor((containerHeight - l.padding * 2.0) / l.lineHeight);
      8 <= l.fontSize <= 24
      && l.padding >= 12.0 && l.padding >= size * 0.8
      && l.lineHeight == size * 1.4 && l.verticalOffset >= 0.0
      && l.lines <= wrapped
      && (maxLines >= 0 ==> |l.lines| == (if maxLines < |wrapped| then maxLines else |wrapped|))
  {
    var fontSize := OptimalFontSize(AnalyzeTextLayout(text), containerWidth, containerHeight);
    var padding := LayoutPadding(fontSize as real);
    var wrapped := WrapAsWritten(text, containerWidth - padding * 2.0, measure, fontSize as real);
    SizeAndPadding(text, containerWidth, containerHeight);
    AssembleShape(fontSize, padding, containerHeight, wrapped);
  }

  /** `calculatePerfectLayout` with the corrected wrap; the styling constants of the result are
      not modelled. */
  function PerfectLayout(text: string, containerWidth: real, containerHeight: real, measure: Measure): TextLayout {
    var fontSize := OptimalFontSize(AnalyzeTextLayout(text), containerWidth, containerHeight);
    var padding := LayoutPadding(fontSize as real);
    Assemble(fontSize, padding, containerHeight,
      WrapCorrected(text, containerWidth - padding * 2.0, measure, fontSize as real))
  }

  /** The layout's font size is between 8 and 24, its padding at least 12 and at least
      0.8 of the size, its line height 1.4 times the size and its offset never negative; its
      lines are the first lines of the wrapped text, as many as fit when that count is not
      negative, and each fits the padded width or is a single character. */
  lemma PerfectLayoutSpec(text: string, containerWidth: real, containerHeight: real, measure: Measure)
    ensures var l := PerfectLayout(text, containerWidth, containerHeight, measure);
      var size := l.fontSize as real;
      var availableWidth := containerWidth - l.padding * 2.0;
      var wrapped := WrapCorrected(text, availableWidth, measure, size);
      var maxLines := Floor((containerHeight - l.padding * 2.0) / l.lineHeight);
      8 <= l.fontSize <= 24
      && l.padding >= 12.0 && l.padding >= size * 0.8
      && l.lineHeight == size * 1.4 && l.verticalOffset >= 0.0
      && l.lines <= wrapped
      && (maxLines >= 0 ==> |l.lines| == (if maxLines < |wrapped| then maxLines else |wrapped|))
      && (forall i :: 0 <= i < |l.lines| ==> LineFits(l.lines[i], availableWidth, measure, size))
  {
    var l := PerfectLayout(text, containerWidth, containerHeight, measure);
    var size := l.fontSize as real;
    var availableWidth := containerWidth - l.padding * 2.0;
    AssembleShape(l.fontSize, l.padding, containerHeight, WrapCorrected(text, availableWidth, measure, size));
    WrapCorrectedSpec(text, availableWidth, measure, size);
  }

  datatype Position = Position(text: string, x: real, y: real, width: real, height: real)

  // ---------------------------------------------------------------- the engine

  /** The engine's one piece of state: the canvas measurer, absent when no canvas could be
      created. */
  class TextRenderingEngine {
    var context: Option<Measure>

    /** The constructor runs `initializeCanvas`. */
    constructor (canvas: Option<Measure>)
      ensures context == canvas
    {
      context := canvas;
    }

    /** `initializeCanvas`: the canvas if it could be created, otherwise none. */
    method InitializeCanvas(canvas: Option<Measure>)
      modifies this
      ensures context == canvas
    {
      context := canvas;
    }

    function Measurer(): Measure
      reads this
    {
      if context.Some? then context.value else FallbackWidth
    }

    /** `measureText`: canvas width, or the estimate, and a line height of 1.2 times the size. */
    function MeasureText(text: string, fontSize: real): (m: Metrics)
      reads this
      ensures m.width == Measurer()(text, fontSize)
      ensures context.None? ==> m.width == |text| as real * fontSize * 0.6
      ensures m.height == fontSize * 1.2
    {
      if context.Some? then Metrics(context.value(text, fontSize), fontSize * 1.2)
      else Metrics(FallbackWidth(text, fontSize), fontSize * 1.2)
    }

    /** The long-word loop: cuts `word` into pieces that fit, after the lines `done`. */
    method SplitLongWord(done: seq<string>, word: string, maxWidth: real, fontSize: real)
      returns (lines: seq<string>, partialWord: string)
      ensures Overlay.WrapState(lines, partialWord)
        == CharFold(word, Overlay.WrapState(done, []), maxWidth, Measurer(), fontSize)
    {
      lines := done;
      partialWord := [];
      var k := 0;
      while k < |word|
        invariant 0 <= k <= |word|
        invariant Overlay.WrapState(lines, partialWord)
          == CharFold(word[..k], Overlay.WrapState(done, []), maxWidth, Measurer(), fontSize)
      {
        var c := word[k];
        assert word[..k + 1][..k] == word[..k];
        var testChar := partialWord + [c];
        var charMeasurement := MeasureText(testChar, fontSize);
        if charMeasurement.width <= maxWidth {
          partialWord := testChar;
        } else {
          if partialWord != [] {
            lines := lines + [partialWord];
          } else {
            assert lines + [] == lines;
          }
          partialWord := [c];
        }
        k := k + 1;
      }
      assert word[..k] == word;
    }

    /** `wrapTextIntelligently`, with the word that follows a finished line measured again. */
    method WrapTextIntelligently(text: string, maxWidth: real, fontSize: real) returns (lines: seq<string>)
      ensures lines == WrapCorrected(text, maxWidth, Measurer(), fontSize)
    {
      var words := Words(text);
      lines := [];
      var currentLine: string := [];
      var k := 0;
      while k < |words|
        invariant 0 <= k <= |words|
        invariant Overlay.WrapState(lines, currentLine) == FoldCorrected(words[..k], maxWidth, Measurer(), fontSize)
      {
        var word := words[k];
        assert words[..k + 1][..k] == words[..k];
        var testLine := if currentLine == [] then word else currentLine + " " + word;
        var measurement := MeasureText(testLine, fontSize);
        if measurement.width <= maxWidth {
          currentLine := testLine;
        } else {
          if currentLine != [] {
            lines := lines + [currentLine];
          } else {
            assert lines + [] == lines;
          }
          currentLine := [];
          if MeasureText(word, fontSize).width <= maxWidth {
            currentLine := word;
          } else {
            var partialWord;
            lines, partialWord := SplitLongWord(lines, word, maxWidth, fontSize);
            currentLine := partialWord;
          }
        }
        k := k + 1;
      }
      assert words[..k] == words;
      if currentLine != [] {
        lines := lines + [currentLine];
      }
    }

    /** `calculatePerfectLayout`. */
    method CalculatePerfectLayout(text: string, containerWidth: real, containerHeight: real)
      returns (layout: TextLayout)
      ensures layout == PerfectLayout(text, containerWidth, containerHeight, Measurer())
    {
      var analysis := AnalyzeTextLayout(text);
      var fontSize := CalculateOptimalFontSize(analysis, containerWidth, containerHeight);
      var padding := LayoutPadding(fontSize as real);
      var availableWidth := containerWidth - padding * 2.0;
      var lines := WrapTextIntelligently(text, availableWidth, fontSize as real);
      layout := Assemble(fontSize, padding, containerHeight, lines);
    }

    /** `calculateLinePositions`: one position per line, each centred on the container's
      middle, the first baseline `padding + size + offset` below the container's top and each
      further one a line height lower. */
    method CalculateLinePositions(layout: TextLayout, containerX: real, containerY: real, containerWidth: real)
      returns (positions: seq<Position>)
      ensures |positions| == |layout.lines|
      ensures forall i :: 0 <= i < |positions| ==>
        positions[i].text == layout.lines[i]
        && positions[i].width == Measurer()(layout.lines[i], layout.fontSize as real)
        && positions[i].height == layout.fontSize as real
        && positions[i].x + positions[i].width / 2.0 == containerX + containerWidth / 2.0
      ensures |positions| > 0 ==>
        positions[0].y == containerY + layout.padding + layout.fontSize as real + layout.verticalOffset
      ensures forall i :: 0 < i < |positions| ==> positions[i].y == positions[i - 1].y + layout.lineHeight
    {
      var top := containerY + layout.padding + layout.fontSize as real + layout.verticalOffset;
      positions := [];
      var index := 0;
      while index < |layout.lines|
        invariant 0 <= index <= |layout.lines|
        invariant |positions| == index
        invariant forall i :: 0 <= i < index ==>
          positions[i].text == layout.lines[i]
          && positions[i].width == Measurer()(layout.lines[i], layout.fontSize as real)
          && positions[i].height == layout.fontSize as real
          && positions[i].x + positions[i].width / 2.0 == containerX + containerWidth / 2.0
          && positions[i].y == top + i as real * layout.lineHeight
      {
        var line := layout.lines[index];
        var lineMeasurement := MeasureText(line, layout.fontSize as real);
        var lineX := containerX + (containerWidth - lineMeasurement.width) / 2.0;
        var lineY := containerY + layout.padding + layout.fontSize as real + layout.verticalOffset
          + index as real * layout.lineHeight;
        positions := positions + [Position(line, lineX, lineY, lineMeasurement.width, layout.fontSize as real)];
        index := index + 1;
      }
      forall i | 0 < i < |positions|
        ensures positions[i].y == positions[i - 1].y + layout.lineHeight
      {
        NextRow(i - 1, layout.lineHeight);
      }
    }
  }

  /** Row `i + 1` lies one step below row `i`: the step of `CalculateLinePositions`'s last
      ensures. */
  lemma NextRow(i: nat, step: real)
    ensures (i + 1) as real * step == i as real * step + step
  {
  }
}
