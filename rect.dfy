/** The rectangle record that travels between detection, the editor, extraction, translation
    and rendering. Keys that JavaScript objects may lack are `Option` fields. */
module Model {
  import opened Wrappers

  datatype Mode = Individual | Repeated

  /** The PDF-space box and page size stored at detection time
      (`originalX`, `originalY`, `originalWidth`, `originalHeight`, `pageWidth`, `pageHeight`). */
  datatype PdfGeometry = PdfGeometry(
    originalX: real, originalY: real, originalWidth: real, originalHeight: real,
    pageWidth: real, pageHeight: real)

  /** A rectangle in frontend space (800 units wide, origin top-left). A page of -1 marks a
      rectangle that belongs to every page. */
  datatype Rect = Rect(
    id: string,
    page: int,
    x: real, y: real, width: real, height: real,
    text: string,
    isManual: Option<bool>,
    mode: Option<Mode>,
    stroke: Option<string>,
    fill: Option<string>,
    geometry: Option<PdfGeometry>,
    originalId: Option<string>,
    extractedText: Option<string>,
    translation: Option<string>,
    originalText: Option<string>)

  /** JavaScript truthiness of an optional string: present and non-empty. */
  predicate Truthy(s: Option<string>) {
    s.Some? && s.value != ""
  }

  function Pick<T>(base: Option<T>, over: Option<T>): Option<T> {
    if over.Some? then over else base
  }

  /** `{ ...base, ...over }`: every key `over` has wins, the others come from `base`. */
  function Spread(base: Rect, over: Rect): (r: Rect) {
    Rect(over.id, over.page, over.x, over.y, over.width, over.height, over.text,
      Pick(base.isManual, over.isManual), Pick(base.mode, over.mode),
      Pick(base.stroke, over.stroke), Pick(base.fill, over.fill),
      Pick(base.geometry, over.geometry), Pick(base.originalId, over.originalId),
      Pick(base.extractedText, over.extractedText), Pick(base.translation, over.translation),
      Pick(base.originalText, over.originalText))
  }

  /** Spreading a record over itself changes nothing, and spreading twice is spreading once. */
  lemma SpreadLaws(a: Rect, b: Rect)
    ensures Spread(a, a) == a
    ensures Spread(Spread(a, b), b) == Spread(a, b)
    ensures Spread(a, b).id == b.id && Spread(a, b).page == b.page
  {
  }

  /** The position of the first rectangle with the given id, or -1. */
  function FirstIndex(rects: seq<Rect>, id: string): (i: int)
    ensures -1 <= i < |rects|
    ensures i == -1 <==> forall j :: 0 <= j < |rects| ==> rects[j].id != id
    ensures i >= 0 ==> rects[i].id == id && forall j :: 0 <= j < i ==> rects[j].id != id
  {
    if rects == [] then -1
    else if rects[0].id == id then 0
    else
      var k := FirstIndex(rects[1..], id);
      if k == -1 then -1 else k + 1
  }

  /** `rects.find(r => r.id === id)`: the first rectangle carrying that id. */
  function FindById(rects: seq<Rect>, id: string): (r: Option<Rect>)
    ensures r.None? <==> forall j :: 0 <= j < |rects| ==> rects[j].id != id
    ensures r.Some? ==> r.value.id == id && r.value == rects[FirstIndex(rects, id)]
  {
    var i := FirstIndex(rects, id);
    if i == -1 then None else Some(rects[i])
  }

  /** `list.map(t => t.id === id ? { ...t, translation: text } : t)`; the new text may be
      `undefined` (`None`). */
  function SetTranslationById(ts: seq<Rect>, id: string, text: Option<string>): (r: seq<Rect>)
    ensures |r| == |ts|
    ensures forall i :: 0 <= i < |ts| && ts[i].id == id ==> r[i] == ts[i].(translation := text)
    ensures forall i :: 0 <= i < |ts| && ts[i].id != id ==> r[i] == ts[i]
  {
    seq(|ts|, i requires 0 <= i < |ts| =>
      if ts[i].id == id then ts[i].(translation := text) else ts[i])
  }

  /** Editing the same translation twice keeps only the last edit, and edits of different
      entries commute. */
  lemma SetTranslationLaws(ts: seq<Rect>, id: string, id2: string, a: Option<string>, b: Option<string>)
    ensures SetTranslationById(SetTranslationById(ts, id, a), id, b) == SetTranslationById(ts, id, b)
    ensures id != id2 ==>
      SetTranslationById(SetTranslationById(ts, id, a), id2, b)
      == SetTranslationById(SetTranslationById(ts, id2, b), id, a)
  {
  }

  /** `ts.map(t => { const r = rects.find(r => r.id === t.id); return r ? { ...t, ...r } : t; })`:
      every entry is overlaid with the rectangle of the same id, when there is one. */
  function MergeById(ts: seq<Rect>, rects: seq<Rect>): (r: seq<Rect>)
    ensures |r| == |ts|
    ensures forall i :: 0 <= i < |ts| ==> r[i].id == ts[i].id
    ensures forall i :: 0 <= i < |ts| && FindById(rects, ts[i].id).None? ==> r[i] == ts[i]
    ensures forall i :: 0 <= i < |ts| && FindById(rects, ts[i].id).Some? ==>
              r[i] == Spread(ts[i], rects[FirstIndex(rects, ts[i].id)])
  {
    seq(|ts|, i requires 0 <= i < |ts| =>
      match FindById(rects, ts[i].id)
      case Some(rect) => Spread(ts[i], rect)
      case None => ts[i])
  }

  /** Merging with the same rectangles twice changes nothing more. */
  lemma {:induction false} MergeByIdIdempotent(ts: seq<Rect>, rects: seq<Rect>)
    ensures MergeById(MergeById(ts, rects), rects) == MergeById(ts, rects)
  {
    var m := MergeById(ts, rects);
    forall i | 0 <= i < |ts|
      ensures MergeById(m, rects)[i] == m[i]
    {
      match FindById(rects, ts[i].id)
      case Some(rect) => SpreadLaws(ts[i], rect);
      case None =>
    }
  }

  /** `rects.filter(r => r.page === page)`, in order. */
  function FilterPage(rects: seq<Rect>, page: int): (r: seq<Rect>)
    ensures |r| <= |rects|
    ensures forall x :: x in r <==> x in rects && x.page == page
  {
    if rects == [] then []
    else if rects[0].page == page then [rects[0]] + FilterPage(rects[1..], page)
    else FilterPage(rects[1..], page)
  }
}
