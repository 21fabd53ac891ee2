/** The document context's reducer: every action returns a new state built by spreading the
    old one, and the reducer never mutates. Files and processed files are opaque handles. */
module Context {
  import opened Wrappers
  import opened Model
  import opened CoordinateMapper

  datatype Settings = Settings(
    targetLanguage: string,
    logoFile: Option<string>,
    logoPosition: FrontBox,
    removeChinese: bool)

  /** The keys an `UPDATE_SETTINGS` payload carries: `None` for a key the payload lacks. */
  datatype SettingsPatch = SettingsPatch(
    targetLanguage: Option<string>,
    logoFile: Option<Option<string>>,
    logoPosition: Option<FrontBox>,
    removeChinese: Option<bool>)

  datatype State = State(
    file: Option<string>,
    pdfUrl: Option<string>,
    pages: seq<string>,
    detectedAreas: seq<Rect>,
    translations: seq<Rect>,
    processedFile: Option<string>,
    isProcessing: bool,
    currentPage: int,
    settings: Settings)

  datatype Action =
    | SetFile(file: Option<string>, url: Option<string>)
    | SetDetectedAreas(areas: seq<Rect>)
    | SetTranslations(translations: seq<Rect>)
    | UpdateTranslation(id: string, text: Option<string>)
    | SetProcessing(processing: bool)
    | SetProcessedFile(processed: Option<string>)
    | SetCurrentPage(page: int)
    | UpdateSettings(patch: SettingsPatch)
    | Reset
    | Unknown(kind: string)

  const DefaultLogoPosition: FrontBox := FrontBox(10.0, 10.0, 60.0, 30.0)

  const InitialState: State := State(None, None, [], [], [], None, false, 1,
    Settings("Hebrew", None, DefaultLogoPosition, true))

  function Pick<T>(base: T, over: Option<T>): T {
    if over.Some? then over.value else base
  }

  /** `{ ...settings, ...patch }`. */
  function MergeSettings(s: Settings, p: SettingsPatch): (r: Settings)
    ensures p.targetLanguage.None? ==> r.targetLanguage == s.targetLanguage
    ensures p.targetLanguage.Some? ==> r.targetLanguage == p.targetLanguage.value
    ensures p.logoFile.None? ==> r.logoFile == s.logoFile
    ensures p.logoFile.Some? ==> r.logoFile == p.logoFile.value
    ensures p.logoPosition.None? ==> r.logoPosition == s.logoPosition
    ensures p.logoPosition.Some? ==> r.logoPosition == p.logoPosition.value
    ensures p.removeChinese.None? ==> r.removeChinese == s.removeChinese
    ensures p.removeChinese.Some? ==> r.removeChinese == p.removeChinese.value
  {
    Settings(Pick(s.targetLanguage, p.targetLanguage), Pick(s.logoFile, p.logoFile),
      Pick(s.logoPosition, p.logoPosition), Pick(s.removeChinese, p.removeChinese))
  }

  /** `pdfReducer`. No action but `RESET` touches the page list, and only `UPDATE_SETTINGS`
      and `RESET` touch the settings. */
  function Reduce(s: State, a: Action): (r: State)
    ensures !a.Reset? ==> r.pages == s.pages
    ensures !a.Reset? && !a.UpdateSettings? ==> r.settings == s.settings
  {
    match a
    case SetFile(file, url) =>
      s.(file := file, pdfUrl := url, detectedAreas := [], translations := [], processedFile := None)
    case SetDetectedAreas(areas) => s.(detectedAreas := areas)
    case SetTranslations(ts) => s.(translations := ts)
    case UpdateTranslation(id, text) => s.(translations := SetTranslationById(s.translations, id, text))
    case SetProcessing(p) => s.(isProcessing := p)
    case SetProcessedFile(f) => s.(processedFile := f)
    case SetCurrentPage(p) => s.(currentPage := p)
    case UpdateSettings(patch) => s.(settings := MergeSettings(s.settings, patch))
    case Reset => InitialState
    case Unknown(_) => s
  }

  /** The fields an action may change; every other field of the state keeps its value. */
  predicate Touches(a: Action, field: string) {
    match a
    case SetFile(_, _) => field in {"file", "pdfUrl", "detectedAreas", "translations", "processedFile"}
    case SetDetectedAreas(_) => field == "detectedAreas"
    case SetTranslations(_) => field == "translations"
    case UpdateTranslation(_, _) => field == "translations"
    case SetProcessing(_) => field == "isProcessing"
    case SetProcessedFile(_) => field == "processedFile"
    case SetCurrentPage(_) => field == "currentPage"
    case UpdateSettings(_) => field == "settings"
    case Reset => true
    case Unknown(_) => false
  }

  /** Every field an action does not touch keeps its value. */
  lemma ReduceFrames(s: State, a: Action)
    ensures var r := Reduce(s, a);
      (!Touches(a, "file") ==> r.file == s.file)
      && (!Touches(a, "pdfUrl") ==> r.pdfUrl == s.pdfUrl)
      && (!Touches(a, "pages") ==> r.pages == s.pages)
      && (!Touches(a, "detectedAreas") ==> r.detectedAreas == s.detectedAreas)
      && (!Touches(a, "translations") ==> r.translations == s.translations)
      && (!Touches(a, "processedFile") ==> r.processedFile == s.processedFile)
      && (!Touches(a, "isProcessing") ==> r.isProcessing == s.isProcessing)
      && (!Touches(a, "currentPage") ==> r.currentPage == s.currentPage)
      && (!Touches(a, "settings") ==> r.settings == s.settings)
  {
  }

  /** What the touched fields become. */
  lemma ReduceEffects(s: State, a: Action)
    ensures a.SetFile? ==> var r := Reduce(s, a);
      r.file == a.file && r.pdfUrl == a.url && r.detectedAreas == [] && r.translations == []
      && r.processedFile.None?
    ensures a.SetDetectedAreas? ==> Reduce(s, a).detectedAreas == a.areas
    ensures a.SetTranslations? ==> Reduce(s, a).translations == a.translations
    ensures a.SetProcessing? ==> Reduce(s, a).isProcessing == a.processing
    ensures a.SetProcessedFile? ==> Reduce(s, a).processedFile == a.processed
    ensures a.SetCurrentPage? ==> Reduce(s, a).currentPage == a.page
    ensures a.UpdateTranslation? ==> var r := Reduce(s, a);
      |r.translations| == |s.translations|
      && forall i :: 0 <= i < |s.translations| ==>
           r.translations[i] == if s.translations[i].id == a.id
             then s.translations[i].(translation := a.text) else s.translations[i]
    ensures a.Reset? ==> Reduce(s, a) == InitialState
    ensures a.Unknown? ==> Reduce(s, a) == s
  {
  }

  /** Dispatching the same action twice is dispatching it once, and a reset forgets the past. */
  lemma ReduceIdempotent(s: State, t: State, a: Action)
    ensures Reduce(Reduce(s, a), a) == Reduce(s, a)
    ensures Reduce(s, Reset) == Reduce(t, Reset)
  {
    match a
    case UpdateTranslation(id, text) =>
      SetTranslationLaws(s.translations, id, id, text, text);
    case _ =>
  }

  /** A settings patch changes exactly the keys it carries: merging the empty patch changes
      nothing, and merging two patches in turn is merging their union, the later one winning. */
  lemma MergeSettingsLaws(s: Settings, p: SettingsPatch, q: SettingsPatch)
    ensures MergeSettings(s, SettingsPatch(None, None, None, None)) == s
    ensures MergeSettings(MergeSettings(s, p), q) == MergeSettings(s, SettingsPatch(
      if q.targetLanguage.Some? then q.targetLanguage else p.targetLanguage,
      if q.logoFile.Some? then q.logoFile else p.logoFile,
      if q.logoPosition.Some? then q.logoPosition else p.logoPosition,
      if q.removeChinese.Some? then q.removeChinese else p.removeChinese))
  {
  }
}
