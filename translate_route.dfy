/** The two translation endpoints: `detect` expands repeated rectangles into one copy per
    page and extracts the text under each; `translate` translates every distinct source text
    once and maps the results back onto the rectangles. Extraction and translation are
    parameters (`None` stands for a call that throws). */
module TranslateRoute {
  import opened Wrappers
  import opened Strings
  import opened Model

  const DetectionFailed: string := "Text detection failed"
  const NoTextFound: string := "No text found in this area"
  const TranslationFailed: string := "Translation failed"
  const TranslationNotFound: string := "Translation not found"
  const MissingInput: string := "File ID and rectangles array are required"

  /** A reply: status 400 with an error text, or the processed rectangles. */
  datatype Reply = BadRequest(status: int, error: string) | Done(rects: seq<Rect>)

  /** `!fileId || !rectangles || !Array.isArray(rectangles)`; `None` stands for a missing
      key or for a value that is not an array. */
  predicate Rejected(fileId: Option<string>, rectangles: Option<seq<Rect>>) {
    !Truthy(fileId) || rectangles.None?
  }

  // ------------------------------------------------------------ expansion of repeated rectangles

  predicate IsRepeated(r: Rect) {
    r.mode == Some(Repeated)
  }

  /** `` `${id}_page_${i}` ``. */
  function CopyId(id: string, i: nat): (s: string)
    ensures |id| < |s| && s[..|id|] == id
  {
    id + "_page_" + NatToString(i)
  }

  /** `{ ...rect, page: i, originalId: rect.id, id: CopyId(rect.id, i) }`. */
  function Copy(r: Rect, i: nat): Rect {
    r.(page := i, originalId := Some(r.id), id := CopyId(r.id, i))
  }

  /** What one incoming rectangle contributes: its copies for pages `0 .. numPages-1` when it
      is repeated, itself otherwise. */
  function Expand(r: Rect, numPages: nat): (out: seq<Rect>)
    ensures IsRepeated(r) ==> |out| == numPages
    ensures !IsRepeated(r) ==> out == [r]
    ensures IsRepeated(r) ==> forall i :: 0 <= i < numPages ==> out[i] == Copy(r, i)
  {
    if IsRepeated(r) then seq(numPages, i requires 0 <= i < numPages => Copy(r, i)) else [r]
  }

  /** The contributions of all incoming rectangles, in input order. */
  function Expansion(rects: seq<Rect>, numPages: nat): seq<Rect> {
    if rects == [] then []
    else
      var n := |rects|;
      Expansion(rects[..n - 1], numPages) + Expand(rects[n - 1], numPages)
  }

  /** The number of rectangles the expansion produces. */
  function ExpandedCount(rects: seq<Rect>, numPages: nat): nat {
    if rects == [] then 0
    else
      var n := |rects|;
      ExpandedCount(rects[..n - 1], numPages) + (if IsRepeated(rects[n - 1]) then numPages else 1)
  }

  /** The `forEach` that pushes copies or the rectangle itself onto `rectsToProcess`. */
  method ExpandRepeated(rects: seq<Rect>, numPages: nat) returns (rectsToProcess: seq<Rect>)
    ensures rectsToProcess == Expansion(rects, numPages)
  {
    rectsToProcess := [];
    var k := 0;
    while k < |rects|
      invariant 0 <= k <= |rects|
      invariant rectsToProcess == Expansion(rects[..k], numPages)
    {
      var rect := rects[k];
      assert rects[..k + 1][..k] == rects[..k];
      ghost var before := rectsToProcess;
      if rect.mode == Some(Repeated) {
        var i := 0;
        while i < numPages
          invariant 0 <= i <= numPages
          invariant rectsToProcess == before + Expand(rect, numPages)[..i]
        {
          assert Expand(rect, numPages)[..i + 1] == Expand(rect, numPages)[..i] + [Copy(rect, i)];
          var expandedRect := rect.(page := i, originalId := Some(rect.id), id := CopyId(rect.id, i));
          rectsToProcess := rectsToProcess + [expandedRect];
          i := i + 1;
        }
        assert Expand(rect, numPages)[..numPages] == Expand(rect, numPages);
      } else {
        rectsToProcess := rectsToProcess + [rect];
      }
      k := k + 1;
    }
    assert rects[..k] == rects;
  }

  /** The expansion has one entry per plain rectangle and `numPages` per repeated one. */
  lemma {:induction false} ExpansionLength(rects: seq<Rect>, numPages: nat)
    ensures |Expansion(rects, numPages)| == ExpandedCount(rects, numPages)
  {
    if rects != [] {
      var n := |rects|;
      ExpansionLength(rects[..n - 1], numPages);
      assert |Expand(rects[n - 1], numPages)| == if IsRepeated(rects[n - 1]) then numPages else 1;
    }
  }

  /** Without repeated rectangles the expansion is the input itself. */
  lemma {:induction false} ExpansionOfPlain(rects: seq<Rect>, numPages: nat)
    requires forall i :: 0 <= i < |rects| ==> !IsRepeated(rects[i])
    ensures Expansion(rects, numPages) == rects
  {
    if rects != [] {
      var n := |rects|;
      var init, last := rects[..n - 1], rects[n - 1];
      forall i | 0 <= i < |init| ensures !IsRepeated(init[i]) {
        assert init[i] == rects[i];
      }
      ExpansionOfPlain(init, numPages);
      assert !IsRepeated(last);
      assert Expansion(rects, numPages) == Expansion(init, numPages) + Expand(last, numPages);
      assert Expand(last, numPages) == [last];
      assert rects == init + [last];
    }
  }

  /** `x` is the copy for one of the pages of a repeated rectangle of `rects`. */
  predicate CopyOf(rects: seq<Rect>, numPages: nat, x: Rect) {
    exists r, i :: r in rects && IsRepeated(r) && 0 <= i < numPages && x == Copy(r, i)
  }

  /** Every expanded rectangle is a plain input passed through unchanged or the copy of a
      repeated input for one of the pages, and every such rectangle occurs. */
  lemma ExpansionMembers(rects: seq<Rect>, numPages: nat)
    ensures forall x :: x in Expansion(rects, numPages) <==>
      (x in rects && !IsRepeated(x)) || CopyOf(rects, numPages, x)
  {
    forall x | x in Expansion(rects, numPages)
      ensures (x in rects && !IsRepeated(x)) || CopyOf(rects, numPages, x)
    {
      ExpansionSound(rects, numPages, x);
    }
    forall x | (x in rects && !IsRepeated(x)) || CopyOf(rects, numPages, x)
      ensures x in Expansion(rects, numPages)
    {
      ExpansionComplete(rects, numPages, x);
    }
  }

  lemma {:induction false} ExpansionSound(rects: seq<Rect>, numPages: nat, x: Rect)
    requires x in Expansion(rects, numPages)
    ensures (x in rects && !IsRepeated(x)) || CopyOf(rects, numPages, x)
  {
    var n := |rects|;
    var init := rects[..n - 1];
    var last := rects[n - 1];
    assert Expansion(rects, numPages) == Expansion(init, numPages) + Expand(last, numPages);
    assert last in rects;
    if x in Expansion(init, numPages) {
      ExpansionSound(init, numPages, x);
      assert forall r :: r in init ==> r in rects;
      if !(x in init && !IsRepeated(x)) {
        var r, i :| r in init && IsRepeated(r) && 0 <= i < numPages && x == Copy(r, i);
        assert r in rects;
      }
    } else {
      assert x in Expand(last, numPages);
      if IsRepeated(last) {
        var i :| 0 <= i < numPages && Expand(last, numPages)[i] == x;
        assert x == Copy(last, i);
      }
    }
  }

  lemma {:induction false} ExpansionComplete(rects: seq<Rect>, numPages: nat, x: Rect)
    requires (x in rects && !IsRepeated(x)) || CopyOf(rects, numPages, x)
    ensures x in Expansion(rects, numPages)
  {
    var n := |rects|;
    var init := rects[..n - 1];
    var last := rects[n - 1];
    assert rects == init + [last];
    assert Expansion(rects, numPages) == Expansion(init, numPages) + Expand(last, numPages);
    if x in rects && !IsRepeated(x) {
      if x == last {
        assert Expand(last, numPages) == [x];
      } else {
        assert x in init;
        ExpansionComplete(init, numPages, x);
      }
    } else {
      var r, i :| r in rects && IsRepeated(r) && 0 <= i < numPages && x == Copy(r, i);
      if r == last {
        assert Expand(last, numPages)[i] == x;
      } else {
        assert r in init;
        assert CopyOf(init, numPages, x);
        ExpansionComplete(init, numPages, x);
      }
    }
  }

  /** The copies of one repeated rectangle keep every field but page, id and original id,
      carry page `i`, and have pairwise distinct ids. */
  lemma CopiesDistinct(r: Rect, i: nat, j: nat)
    ensures Copy(r, i).page == i && Copy(r, i).originalId == Some(r.id)
    ensures Copy(r, i).mode == r.mode && Copy(r, i).x == r.x && Copy(r, i).y == r.y
    ensures Copy(r, i).width == r.width && Copy(r, i).height == r.height && Copy(r, i).text == r.text
    ensures i != j ==> Copy(r, i).id != Copy(r, j).id
  {
    if i != j && CopyId(r.id, i) == CopyId(r.id, j) {
      var p := r.id + "_page_";
      assert CopyId(r.id, i) == p + NatToString(i);
      assert NatToString(i) == CopyId(r.id, i)[|p|..];
      assert NatToString(j) == CopyId(r.id, j)[|p|..];
      NatToStringInjective(i, j);
    }
  }

  // ------------------------------------------------------------ the detect loop

  /** One detected rectangle: the extracted text, or the failure sentinel when extraction throws. */
  function Detected(r: Rect, extracted: Option<string>): (d: Rect)
    ensures d == r.(extractedText := d.extractedText)
    ensures d.extractedText == Some(if extracted.Some? then extracted.value else DetectionFailed)
  {
    r.(extractedText := Some(match extracted case Some(t) => t case None => DetectionFailed))
  }

  function DetectAll(rects: seq<Rect>, extract: Rect -> Option<string>): (out: seq<Rect>)
    ensures |out| == |rects|
    ensures forall i :: 0 <= i < |rects| ==> out[i] == Detected(rects[i], extract(rects[i]))
  {
    seq(|rects|, i requires 0 <= i < |rects| => Detected(rects[i], extract(rects[i])))
  }

  /** The `for … of` loop: a failing rectangle gets the sentinel and the loop carries on. */
  method DetectRectangles(rectsToProcess: seq<Rect>, extract: Rect -> Option<string>)
    returns (detectedRectangles: seq<Rect>)
    ensures detectedRectangles == DetectAll(rectsToProcess, extract)
  {
    detectedRectangles := [];
    for k := 0 to |rectsToProcess|
      invariant |detectedRectangles| == k
      invariant forall i :: 0 <= i < k ==>
        detectedRectangles[i] == Detected(rectsToProcess[i], extract(rectsToProcess[i]))
    {
      var rectangle := rectsToProcess[k];
      var extractedText := extract(rectangle);
      if extractedText.Some? {
        detectedRectangles := detectedRectangles + [rectangle.(extractedText := Some(extractedText.value))];
      } else {
        detectedRectangles := detectedRectangles + [rectangle.(extractedText := Some(DetectionFailed))];
      }
    }
  }

  /** `POST /detect`: the pages of the document are given by their count. */
  function DetectReply(fileId: Option<string>, rectangles: Option<seq<Rect>>, numPages: nat,
                       extract: Rect -> Option<string>): Reply
  {
    if Rejected(fileId, rectangles) then BadRequest(400, MissingInput)
    else Done(DetectAll(Expansion(rectangles.value, numPages), extract))
  }

  method Detect(fileId: Option<string>, rectangles: Option<seq<Rect>>, numPages: nat,
                extract: Rect -> Option<string>) returns (reply: Reply)
    ensures reply == DetectReply(fileId, rectangles, numPages, extract)
  {
    if fileId.None? || fileId.value == "" || rectangles.None? {
      return BadRequest(400, MissingInput);
    }
    var rectsToProcess := ExpandRepeated(rectangles.value, numPages);
    var detectedRectangles := DetectRectangles(rectsToProcess, extract);
    reply := Done(detectedRectangles);
  }

  /** A valid detect request answers with one detected rectangle per expanded rectangle, each
      equal to it apart from its extracted text; an invalid one is refused with 400. */
  lemma DetectReplySpec(fileId: Option<string>, rectangles: Option<seq<Rect>>, numPages: nat,
                        extract: Rect -> Option<string>)
    ensures var reply := DetectReply(fileId, rectangles, numPages, extract);
      (reply.BadRequest? <==> Rejected(fileId, rectangles))
      && (reply.BadRequest? ==> reply.status == 400)
      && (reply.Done? ==>
            var ex := Expansion(rectangles.value, numPages);
            |reply.rects| == |ex| == ExpandedCount(rectangles.value, numPages)
            && forall i :: 0 <= i < |ex| ==>
                 reply.rects[i] == ex[i].(extractedText := reply.rects[i].extractedText)
                 && reply.rects[i].extractedText.Some?)
  {
    if !Rejected(fileId, rectangles) {
      ExpansionLength(rectangles.value, numPages);
    }
  }

  // ------------------------------------------------------------ unique texts

  /** `r.extractedText || r.text`. */
  function SourceText(r: Rect): string {
    if Truthy(r.extractedText) then r.extractedText.value else r.text
  }

  /** The filter: a non-empty text that is neither detection sentinel. */
  predicate Translatable(t: string) {
    t != "" && t != DetectionFailed && t != NoTextFound
  }

  /** The translatable source texts of the rectangles, in order, with repeats. */
  function Candidates(rects: seq<Rect>): (r: seq<string>)
    ensures forall t :: t in r <==> (Translatable(t) && exists x :: x in rects && SourceText(x) == t)
  {
    if rects == [] then []
    else
      (if Translatable(SourceText(rects[0])) then [SourceText(rects[0])] else [])
      + Candidates(rects[1..])
  }

  /** `[...new Set(xs)]`: the distinct values in order of first occurrence. */
  function Distinct(xs: seq<string>): (r: seq<string>) {
    if xs == [] then []
    else
      var n := |xs|;
      var r := Distinct(xs[..n - 1]);
      if xs[n - 1] in xs[..n - 1] then r else r + [xs[n - 1]]
  }

  predicate NoRepeats(xs: seq<string>) {
    forall i, j :: 0 <= i < j < |xs| ==> xs[i] != xs[j]
  }

  /** `Distinct` keeps exactly the values of its input, each once. */
  lemma {:induction false} DistinctSpec(xs: seq<string>)
    ensures forall t :: t in Distinct(xs) <==> t in xs
    ensures NoRepeats(Distinct(xs))
    ensures NoRepeats(xs) ==> Distinct(xs) == xs
  {
    if xs != [] {
      var n := |xs|;
      DistinctSpec(xs[..n - 1]);
      assert xs == xs[..n - 1] + [xs[n - 1]];
    }
  }

  function UniqueTexts(rects: seq<Rect>): seq<string> {
    Distinct(Candidates(rects))
  }

  /** The unique texts are the translatable source texts, each exactly once. */
  lemma UniqueTextsSpec(rects: seq<Rect>)
    ensures forall t :: t in UniqueTexts(rects) <==>
      (Translatable(t) && exists x :: x in rects && SourceText(x) == t)
    ensures NoRepeats(UniqueTexts(rects))
  {
    DistinctSpec(Candidates(rects));
  }

  // ------------------------------------------------------------ the translation map

  /** The value stored for a text: the translation, or the failure sentinel. */
  function Outcome(translated: Option<string>): (v: string)
    ensures translated.None? ==> v == TranslationFailed
    ensures translated.Some? ==> v == translated.value
  {
    match translated
    case Some(t) => t
    case None => TranslationFailed
  }

  /** The map after `set` has been called for each text in order. */
  function Table(texts: seq<string>, translate: string -> Option<string>): map<string, string> {
    if texts == [] then map[]
    else
      var n := |texts|;
      Table(texts[..n - 1], translate)[texts[n - 1] := Outcome(translate(texts[n - 1]))]
  }

  /** The map holds exactly the given texts, each with the outcome of translating it. */
  lemma {:induction false} TableSpec(texts: seq<string>, translate: string -> Option<string>)
    ensures Table(texts, translate).Keys == set t | t in texts
    ensures forall t :: t in Table(texts, translate) ==> Table(texts, translate)[t] == Outcome(translate(t))
  {
    if texts != [] {
      var n := |texts|;
      TableSpec(texts[..n - 1], translate);
      assert texts == texts[..n - 1] + [texts[n - 1]];
    }
  }

  /** The translate loop: one call per unique text; a failure is recorded and the loop goes on.
      `asked` lists the texts passed to the translator, in order. */
  method BuildTranslationMap(uniqueTexts: seq<string>, translate: string -> Option<string>)
    returns (translationMap: map<string, string>, asked: seq<string>)
    ensures translationMap == Table(uniqueTexts, translate)
    ensures asked == uniqueTexts
  {
    translationMap := map[];
    asked := [];
    var k := 0;
    while k < |uniqueTexts|
      invariant 0 <= k <= |uniqueTexts|
      invariant translationMap == Table(uniqueTexts[..k], translate)
      invariant asked == uniqueTexts[..k]
    {
      var text := uniqueTexts[k];
      assert uniqueTexts[..k + 1][..k] == uniqueTexts[..k];
      var translation := translate(text);
      asked := asked + [text];
      if translation.Some? {
        translationMap := translationMap[text := translation.value];
      } else {
        translationMap := translationMap[text := TranslationFailed];
      }
      k := k + 1;
    }
    assert uniqueTexts[..k] == uniqueTexts;
  }

  // ------------------------------------------------------------ mapping back

  /** `translationMap.get(text) || 'Translation not found'`. */
  function Lookup(table: map<string, string>, text: string): (v: string)
    ensures text !in table ==> v == TranslationNotFound
    ensures text in table && table[text] != "" ==> v == table[text]
  {
    if text in table && table[text] != "" then table[text] else TranslationNotFound
  }

  function MapBack(rects: seq<Rect>, table: map<string, string>): (out: seq<Rect>)
    ensures |out| == |rects|
    ensures forall i :: 0 <= i < |rects| ==>
      out[i] == rects[i].(translation := Some(Lookup(table, SourceText(rects[i]))))
  {
    seq(|rects|, i requires 0 <= i < |rects| =>
      rects[i].(translation := Some(Lookup(table, SourceText(rects[i])))))
  }

  /** The translation every rectangle ends up with, stated without the map. */
  function ExpectedTranslation(src: string, translate: string -> Option<string>): string {
    if !Translatable(src) then TranslationNotFound
    else if Outcome(translate(src)) == "" then TranslationNotFound
    else Outcome(translate(src))
  }

  function TranslateReply(fileId: Option<string>, rectangles: Option<seq<Rect>>,
                          translate: string -> Option<string>): Reply
  {
    if Rejected(fileId, rectangles) then BadRequest(400, MissingInput)
    else
      var rects := rectangles.value;
      Done(MapBack(rects, Table(UniqueTexts(rects), translate)))
  }

  /** `POST /`: dedup, translate each unique text once, map back. */
  method Translate(fileId: Option<string>, rectangles: Option<seq<Rect>>,
                   translate: string -> Option<string>) returns (reply: Reply)
    ensures reply == TranslateReply(fileId, rectangles, translate)
  {
    if fileId.None? || fileId.value == "" || rectangles.None? {
      return BadRequest(400, MissingInput);
    }
    var rects := rectangles.value;
    var uniqueTexts := UniqueTexts(rects);
    var translationMap, _ := BuildTranslationMap(uniqueTexts, translate);
    reply := Done(MapBack(rects, translationMap));
  }

  /** A valid translate request keeps the rectangles' number and order, changes only their
      translation, gives every rectangle the outcome of translating its own source text (so
      rectangles with equal source texts get equal translations); an invalid request is
      refused with 400. */
  lemma TranslateReplySpec(fileId: Option<string>, rectangles: Option<seq<Rect>>,
                           translate: string -> Option<string>)
    ensures var reply := TranslateReply(fileId, rectangles, translate);
      (reply.BadRequest? <==> Rejected(fileId, rectangles))
      && (reply.BadRequest? ==> reply.status == 400)
      && (reply.Done? ==>
            var rects := rectangles.value;
            |reply.rects| == |rects|
            && forall i :: 0 <= i < |rects| ==>
                 reply.rects[i] == rects[i].(translation :=
                   Some(ExpectedTranslation(SourceText(rects[i]), translate))))
  {
    if !Rejected(fileId, rectangles) {
      var rects := rectangles.value;
      var table := Table(UniqueTexts(rects), translate);
      UniqueTextsSpec(rects);
      TableSpec(UniqueTexts(rects), translate);
      forall i | 0 <= i < |rects|
        ensures Lookup(table, SourceText(rects[i])) == ExpectedTranslation(SourceText(rects[i]), translate)
      {
        var src := SourceText(rects[i]);
        if Translatable(src) {
          assert rects[i] in rects;
          assert src in table;
        } else {
          assert src !in UniqueTexts(rects);
        }
      }
    }
  }
}
