# PDF translation overlay: a Dafny model

This project models the core of a PDF translation tool, in Dafny. The user uploads a PDF. The
backend finds the text block on the right half of every page and emits one rectangle in the
editor's 800-unit-wide coordinate system. The user then moves, resizes, adds and deletes
rectangles. Rectangles in "repeated" mode stand for every page. For each rectangle the backend
extracts the text lying under it, translates every distinct text once, and maps the
translations back. Finally it redraws each page: first the logo, then, for every usable
translation, a white box and right-aligned wrapped lines of sanitised text.

The model follows the program's files:

| file | models |
|---|---|
| `common.dfy` | `Option`; JavaScript numerics (`Math.round`, clamps); string helpers modelled on JavaScript's (`trim`, `split`, `/\s+/` collapsing, `toLowerCase` on ASCII) |
| `rect.dfy` | the rectangle record that travels through the pipeline, its optional keys, and `{ ...a, ...b }` |
| `geometry.dfy` | the one mapping between frontend boxes (top-left origin, 800 wide) and PDF boxes |
| `detection.dfy` | `detectRightSideRectangles` and `groupTextItems` |
| `extraction.dfy` | `extractTextFromRectangle` |
| `overlay.dfy` | `processFullPdf`, `wrapText`, `wrapTextForPdf`, the sanitiser and `removeChinese` |
| `rendering_engine.dfy` | the `TextRenderingEngine` class |
| `translate_route.dfy` | the `/detect` and `/` handlers of the translate route |
| `app.dfy` | the shell's state (`App`) as a class with its handlers |
| `viewer.dfy` | the editor's rectangle state and edit handlers |
| `preview.dfy` | the preview's page navigation, zoom and overlays |
| `context.dfy` | the document context reducer |
| `translation_panel.dfy` | the translation list, its labels and the per-item editor |
| `processing_status.dfy` | the progress bar's step lookup |

Some external things are parameters of the model:
- Font metrics are a function `measure(text, size)`. This covers pdf-lib's `widthOfTextAtSize` and the canvas `measureText`.
- pdf.js text content is a list of text runs per page. A page whose processing throws is `None`.
- The translation service is a function `translate(text)` returning `None` when the call throws.
- The clock (`Date.now()`) is a `nat` parameter.

Stateful code is imperative Dafny:
- React state holders are classes: `App.AppState`, `Viewer.PdfViewer`, `Preview.PdfPreview` and `TranslationPanel.TranslationItem`.
- Loops are `while`/`for` methods, each proved equal to a specification function.
- The properties the program relies on are proved as lemmas about those functions.

## Model

| member | source | states |
|---|---|---|
| Numeric.Round | backend/services/pdfService.js:169-172 | `Math.round`: the result lies in (x − ½, x + ½] |
| Numeric.RoundMonotone | backend/services/textRenderingEngine.js:86 | rounding never reverses an order |
| Numeric.Clamp | backend/services/textRenderingEngine.js:58 | `Math.max(lo, Math.min(hi, x))` lies in [lo, hi] and is x when x is already inside |
| Strings.TrimSpec | backend/services/pdfService.js:173 | `trim()` neither starts nor ends with white space, keeps every visible character in order, and is empty exactly for blank input |
| Strings.NormalizeSpec | backend/services/pdfService.js:241 | `.replace(/\s+/g, ' ').trim()` keeps the visible characters in order, neither starts nor ends with white space, leaves only single plain spaces between words, and is empty exactly when there is no visible character |
| Strings.JoinSplit | backend/services/pdfService.js:789 | `split(c)` then `join(c)` gives the string back |
| Strings.Split | backend/services/pdfService.js:553 | `split(c)` gives at least one piece, and no piece contains `c` |
| Strings.SplitPieces | backend/services/pdfService.js:553 | every character of a piece comes from the input |
| Strings.WordsSpec | backend/services/textRenderingEngine.js:113 | `split(/\s+/).filter(w => w.length > 0)` gives non-empty words without white space, holding the visible characters in order |
| Strings.NatToStringInjective | backend/routes/translate.js:48 | different page numbers print differently |
| Model.SpreadLaws | frontend/src/components/PDFPreview.jsx:123 | `{ ...a, ...a }` is `a`; spreading the same record twice is spreading it once; the spread record's id and page come from the later record |
| Model.FindById | frontend/src/App.jsx:46 | `find(r => r.id === id)` is absent exactly when no rectangle has the id, and otherwise is the first one that does |
| Model.SetTranslationById | frontend/src/context/PDFContext.jsx:46-54 | every entry with the id gets the new text; every other entry is unchanged |
| Model.SetTranslationLaws | frontend/src/components/TranslationPanel.jsx:76-80 | editing the same translation twice keeps only the last edit; edits of different ids commute |
| Model.MergeById | frontend/src/components/PDFViewer.jsx:330-336 | the length and ids are kept; an entry with no rectangle of its id is unchanged; otherwise the rectangle's keys override |
| Model.MergeByIdIdempotent | frontend/src/components/PDFPreview.jsx:121-124 | merging with the same rectangles again changes nothing |
| Model.FilterPage | frontend/src/components/PDFPreview.jsx:167-169 | the kept rectangles are exactly those on the page |
| CoordinateMapper.Scale | backend/services/pdfService.js:282-283 | PDF units per frontend unit: positive, and 800 of them make the page width |
| CoordinateMapper.ToPdf | backend/services/pdfService.js:620-626 | lengths are scaled by `pageWidth / 800` and the top edge is measured down from the page top |
| CoordinateMapper.ToFrontend | backend/services/pdfService.js:164-172 | the inverse scaling with `800 / pageWidth`, the top edge taken from `pageHeight − maxY` |
| CoordinateMapper.RoundTrip | backend/services/pdfService.js:164-172 | frontend→PDF→frontend and PDF→frontend→PDF are both the identity |
| CoordinateMapper.ContainmentPreserved | backend/services/pdfService.js:294-296 | a point is inside a frontend box exactly when its image is inside the box's PDF image |
| Detection.RunBox | backend/services/pdfService.js:219-225 | a run's box starts at its origin, its width is `width \|\| len·height/1.8` and its height is `height \|\| 12` |
| Detection.EstimatedWidthIs | backend/services/pdfService.js:220 | the width estimate equals `n · (height / 1.8)` |
| Detection.ValidItemsMembers | backend/services/pdfService.js:207 | the run filter keeps exactly the runs with a transform and visible text |
| Detection.RightSideMembers | backend/services/pdfService.js:150-154 | the right-side filter keeps exactly the runs with visible text whose x is past half the page width |
| Detection.ValidOfRightSide | backend/services/pdfService.js:150-160 | grouping removes none of the right-side runs |
| Detection.HullEncloses | backend/services/pdfService.js:212-230 | the running extremes enclose every run's box |
| Detection.HullTight | backend/services/pdfService.js:212-230 | each extreme is the side of some run, so no smaller box encloses them all |
| Detection.GroupSpecEmpty | backend/services/pdfService.js:204-209 | grouping yields no block exactly when no run has visible text |
| Detection.GroupProperties | backend/services/pdfService.js:234-245 | the one block is the hull grown by 15 on every side, and its text is the runs' strings joined and normalised |
| Detection.GroupTextItems | backend/services/pdfService.js:203-246 | the one-pass loop computes that block |
| Detection.EmitRect | backend/services/pdfService.js:166-181 | id `rect_<page>_<index>`, zero-based page, trimmed text; x, y, width and height are `round(minX·800/W)`, `round((H − maxY)·800/W)`, `round((maxX − minX)·800/W)` and `round((maxY − minY)·800/W)`; the unrounded PDF box and page size are kept |
| Detection.EmitRectFormula | backend/services/pdfService.js:164-172 | the frontend box before rounding is the coordinate mapper's image of the block |
| Detection.EmitGroups | backend/services/pdfService.js:162-182 | the emission loop yields one rectangle per block, in order |
| Detection.ProcessPage | backend/services/pdfService.js:141-188 | one page of the loop: a page that was read contributes its right-side runs grouped and emitted, in group order; a page that throws contributes nothing |
| Detection.DetectRightSideRectangles | backend/services/pdfService.js:141-194 | the page loop yields the pages' rectangles in page order; a page that throws yields none |
| Detection.PageRectsShape | backend/services/pdfService.js:158-183 | a page gives at most one rectangle, `rect_<n>_0` on page n−1, and gives none exactly when it has no right-side text |
| Detection.DocumentRectsShape | backend/services/pdfService.js:141-191 | at most one rectangle per page, each from a page that was read and holds right-side text |
| Detection.DetectedIdsDistinct | backend/services/pdfService.js:167 | no two detected rectangles share an id |
| Extraction.SelectedMembers | backend/services/pdfService.js:300-323 | the loop keeps exactly the runs that overlap the box horizontally and whose baseline lies strictly inside it vertically |
| Extraction.ExtractTextFromRectangle | backend/services/pdfService.js:258-354 | page `page + 1` is opened, the hits are selected, and the result is the joined normalised text, "No text found in this area", or "Text extraction failed" when the document or page is missing |
| Extraction.ExtractedText | backend/services/pdfService.js:337-344 | text taken from at least one hit is never empty and holds the hits' visible characters in order |
| Extraction.ExtractionResultCases | backend/services/pdfService.js:327-353 | the failure text comes back exactly when the document or page is missing or the selected runs' normalised text is that very text; the "no text" text comes back exactly when the page exists and either nothing is selected or the selected text is that very text; a non-empty selection never gives "" |
| Extraction.BaselineInsideIsFrontendInside | backend/services/pdfService.js:294-316 | the corrected vertical test is the frontend test on the mapped baseline |
| Extraction.FlawedCheckMissesRun | backend/services/pdfService.js:313 | the earlier logged test rejects a run whose baseline lies inside the rectangle |
| Overlay.WrapByLengthSpec | backend/services/pdfService.js:552-568 | `wrapText`: no empty line; each line is within the limit or is one piece on its own; the lines hold the input's visible characters in order |
| Overlay.WrapText | backend/services/pdfService.js:552-568 | the loop computes that wrap |
| Overlay.WrapForPdfSpec | backend/services/pdfService.js:788-816 | `wrapTextForPdf`: each line measures within the width or is one piece; the lines hold the input's visible characters in order |
| Overlay.WrapTextForPdf | backend/services/pdfService.js:788-816 | the loop computes that wrap |
| Overlay.Sanitize | backend/services/pdfService.js:702 | only Hebrew, ASCII letters, white space, digits and `.,!?"':-` remain |
| Overlay.SanitizeKeepsAllowed | backend/services/pdfService.js:702 | every allowed character survives, so allowed text is unchanged |
| Overlay.SanitizeIdempotent | backend/services/pdfService.js:702 | sanitising twice is sanitising once |
| Overlay.OverlayFontSize | backend/services/pdfService.js:720 | the size lies in [10, 16] and is `height / 2.5` between those bounds |
| Overlay.LineOpsPrefix | backend/services/pdfService.js:734-765 | the drawn lines are a prefix of the wrapped lines, each drawn at its own baseline with the right-aligned x |
| Overlay.NothingBelow | backend/services/pdfService.js:745 | once a baseline is at or below the limit, no later line is drawn |
| Overlay.FrameIsMapped | backend/services/pdfService.js:676-717 | the white box is the coordinate mapper's image of the rectangle on the page it was detected on |
| Overlay.TranslationOpsShape | backend/services/pdfService.js:663-769 | a drawable translation paints its white box first; every further operation is a line of sanitised text at size 10..16, right-aligned 4 inside the frame, with its baseline inside the frame |
| Overlay.SkippedDrawsNothing | backend/services/pdfService.js:663 | a missing, empty or failed translation draws nothing |
| Overlay.WrappedSanitizedAllowed | backend/services/pdfService.js:702-722 | every line handed to the font has passed the sanitiser |
| Overlay.DefaultLogoSize | backend/services/pdfService.js:637-641 | the default logo is at most 60 × 30 and keeps the image's aspect ratio |
| Overlay.DefaultLogo | backend/services/pdfService.js:642-643 | the default logo sits 10 units in from the top and right edges |
| Overlay.PlacedLogoIsMapped | backend/services/pdfService.js:618-626 | a chosen logo position is converted by the coordinate mapper with the page's own width |
| Overlay.PageOpsSources | backend/services/pdfService.js:608-775 | a page shows its logo first, then only drawable translations of that page, and every drawable translation of the page paints its white box there |
| Overlay.DrawLines | backend/services/pdfService.js:734-765 | the line loop computes the line operations |
| Overlay.DrawTranslation | backend/services/pdfService.js:662-773 | one translation's body computes its operations |
| Overlay.DrawLogo | backend/services/pdfService.js:613-657 | the logo block computes the logo operations |
| Overlay.DrawTranslations | backend/services/pdfService.js:659-773 | the translation loop draws the page's translations in list order |
| Overlay.DrawPage | backend/services/pdfService.js:609-775 | one page iteration: the logo, then the translations |
| Overlay.ProcessFullPdf | backend/services/pdfService.js:571-785 | one list of operations per page, each that page's operations |
| Overlay.RemoveChineseAsWritten | backend/services/pdfService.js:819-822 | the helper as written removes every character its regular expression denotes |
| Overlay.RemoveChineseDropsLatin | backend/services/pdfService.js:821 | as written the helper turns "A1" into ""; the intended filter keeps it |
| Overlay.RemoveChinese | backend/services/pdfService.js:819-822 | the intended filter leaves no CJK ideograph |
| Overlay.RemoveChineseKeeps | backend/services/pdfService.js:819-822 | the intended filter keeps every other character, so text without ideographs is unchanged |
| Overlay.RemoveChineseIdempotent | backend/services/pdfService.js:819-822 | filtering twice is filtering once |
| RenderingEngine.AnalyzeTextLayout | backend/services/textRenderingEngine.js:26-50 | the length and word count are the text's; the count is 0 exactly for blank text; a non-blank text's average word length is at least 1 |
| RenderingEngine.ClassesMonotone | backend/services/textRenderingEngine.js:40-46 | longer text is never classed simpler, and more words never sparser |
| RenderingEngine.BaseSize | backend/services/textRenderingEngine.js:57-58 | the size before the multipliers lies in [10, 20] |
| RenderingEngine.OptimalFontSize | backend/services/textRenderingEngine.js:53-89 | the final size is an integer in [8, 24] |
| RenderingEngine.FontSizeMonotone | backend/services/textRenderingEngine.js:53-89 | a larger container never gets a smaller font |
| RenderingEngine.RescaledRange | backend/services/textRenderingEngine.js:61-84 | the two multipliers scale a base size into [6, 26.4] |
| RenderingEngine.CalculateOptimalFontSize | backend/services/textRenderingEngine.js:53-89 | the method with the two switches computes that size |
| RenderingEngine.TextRenderingEngine.MeasureText | backend/services/textRenderingEngine.js:92-107 | the canvas width when there is a canvas, otherwise `len · size · 0.6`; the height is 1.2 × size |
| RenderingEngine.FallbackAdditive | backend/services/textRenderingEngine.js:103 | the fallback width adds up over concatenation |
| RenderingEngine.WrapAsWrittenContent | backend/services/textRenderingEngine.js:110-152 | as written, the lines hold the text's visible characters in order |
| RenderingEngine.WrapAsWrittenOverflows | backend/services/textRenderingEngine.js:124-126 | as written, "a bbbbb" at width 10 and size 10 gives the line "bbbbb", which does not fit; the corrected wrap splits it |
| RenderingEngine.WrapCorrectedSpec | backend/services/textRenderingEngine.js:110-152 | as intended, every line fits or is one character on its own, and the lines hold the text's visible characters in order |
| RenderingEngine.TextRenderingEngine.SplitLongWord | backend/services/textRenderingEngine.js:129-141 | the character loop computes the long-word split |
| RenderingEngine.TextRenderingEngine.WrapTextIntelligently | backend/services/textRenderingEngine.js:110-152 | the word loop computes the corrected wrap |
| RenderingEngine.SliceTo | backend/services/textRenderingEngine.js:184 | `slice(0, end)` is a prefix, of length `end` capped by the length, and counts from the back when `end` is negative |
| RenderingEngine.PerfectLayoutSpec | backend/services/textRenderingEngine.js:155-203 | over the corrected wrap (see "## Left out"): size in [8, 24]; padding at least 12 and 0.8 × size; line height 1.4 × size; the lines are the first lines of the wrap, as many as fit, each fitting the padded width or a single character; offset never negative |
| RenderingEngine.PerfectLayoutAsWrittenSpec | backend/services/textRenderingEngine.js:155-203 | over the wrap as written: the same size, padding, line-height and offset facts; the lines are the first lines of that wrap, as many as fit, with no promise about their width |
| RenderingEngine.TextRenderingEngine.CalculatePerfectLayout | backend/services/textRenderingEngine.js:155-203 | the method computes the layout over the corrected wrap |
| RenderingEngine.TextRenderingEngine.CalculateLinePositions | backend/services/textRenderingEngine.js:206-226 | one position per line, centred on the container, rows one line height apart |
| RenderingEngine.TextRenderingEngine.InitializeCanvas | backend/services/textRenderingEngine.js:11-23 | the measurer is the canvas if one could be created, otherwise none |
| TranslateRoute.CopyId | backend/routes/translate.js:48 | a copy's id extends the original id |
| TranslateRoute.Expand | backend/routes/translate.js:33-61 | a repeated rectangle becomes one copy per page; any other is kept as is |
| TranslateRoute.ExpandRepeated | backend/routes/translate.js:31-62 | the nested loops compute the expansion |
| TranslateRoute.ExpansionLength | backend/routes/translate.js:33-62 | the expansion has one entry per plain rectangle and one per page for each repeated rectangle |
| TranslateRoute.ExpansionOfPlain | backend/routes/translate.js:33-62 | a request without repeated rectangles is processed as sent |
| TranslateRoute.ExpansionMembers | backend/routes/translate.js:33-62 | the expansion holds exactly the non-repeated rectangles and the copies of the repeated ones |
| TranslateRoute.CopiesDistinct | backend/routes/translate.js:44-49 | copy i is on page i with `originalId` set and the geometry, text and mode kept, and different copies have different ids |
| TranslateRoute.Detected | backend/routes/translate.js:88-102 | the rectangle keeps everything but `extractedText`, which is the extraction or "Text detection failed" |
| TranslateRoute.DetectRectangles | backend/routes/translate.js:67-104 | the loop detects every expanded rectangle, in order |
| TranslateRoute.Detect | backend/routes/translate.js:10-112 | the handler computes the reply |
| TranslateRoute.DetectReplySpec | backend/routes/translate.js:14-16 | 400 exactly when the file id or the array is missing; otherwise one detection per expanded rectangle, with only `extractedText` changed |
| TranslateRoute.Candidates | backend/routes/translate.js:136-138 | the candidates are exactly the source texts that are non-empty and not a sentinel |
| TranslateRoute.DistinctSpec | backend/routes/translate.js:135 | `[...new Set(xs)]` has the same members, no repeats, and is the identity on distinct input |
| TranslateRoute.UniqueTextsSpec | backend/routes/translate.js:135-139 | the unique texts are the translatable source texts, each once |
| TranslateRoute.Outcome | backend/routes/translate.js:146-155 | a translation, or "Translation failed" when the call throws |
| TranslateRoute.TableSpec | backend/routes/translate.js:144-156 | the map's keys are the unique texts, each mapped to its outcome |
| TranslateRoute.BuildTranslationMap | backend/routes/translate.js:144-156 | the loop builds that map and asks the service once per unique text, in order |
| TranslateRoute.Lookup | backend/routes/translate.js:161 | a missing text gives "Translation not found" |
| TranslateRoute.MapBack | backend/routes/translate.js:159-167 | every rectangle is kept, with `translation` set to its text's lookup |
| TranslateRoute.Translate | backend/routes/translate.js:124-175 | the handler computes the reply |
| TranslateRoute.TranslateReplySpec | backend/routes/translate.js:128-167 | 400 exactly when the file id or the array is missing; otherwise the length is kept, only `translation` changes, and it is the outcome of translating the rectangle's own source text, or "Translation not found" when that text is untranslatable or the outcome is empty |
| App.WithOriginalText | frontend/src/App.jsx:43-51 | every received translation is kept, with `originalText` set to the text of the current rectangle of its id, or "N/A" |
| App.OriginalTextOfOwnRectangle | frontend/src/App.jsx:43-51 | translations made from distinct-id rectangles get back each rectangle's own text |
| App.WithOriginalTextIdempotent | frontend/src/App.jsx:43-51 | merging the original texts again changes nothing |
| App.AppState.constructor | frontend/src/App.jsx:13-23 | the initial state, with the logo at (10, 10, 60, 30) |
| App.AppState.PdfUrl | frontend/src/App.jsx:26-32 | the uploads URL of the file name, or "" without one |
| App.AppState.HandleFileSelect | frontend/src/App.jsx:34-41 | a new file clears the rectangles, translations and detections and leaves the preview |
| App.AppState.HandleTranslationsReceived | frontend/src/App.jsx:43-54 | the translations become the merged ones and the step is cleared |
| App.AppState.ResetApp | frontend/src/App.jsx:56-63 | the file and lists are cleared; the detections and logo survive |
| App.AppState.HandlePreview | frontend/src/App.jsx:65-79 | each argument overrides its field only when it is truthy, and the preview is shown |
| App.AppState.HandleBackFromPreview | frontend/src/App.jsx:81-83 | only the preview flag changes |
| App.AppState.HandleRectanglesDetected | frontend/src/App.jsx:90-92 | only the rectangles change |
| App.AppState.HandleTextDetected | frontend/src/App.jsx:94-97 | new detections always discard the translations |
| App.AppState.SetHasPendingChanges | frontend/src/App.jsx:23 | the pending flag becomes the given value and every other shell field stays |
| App.AppState.SetLogoPosition | frontend/src/App.jsx:22 | the logo box becomes the given box and every other shell field stays |
| Context.Reduce | frontend/src/context/PDFContext.jsx:22-86 | no action but `RESET` changes the page list, and only `UPDATE_SETTINGS` and `RESET` change the settings |
| Context.MergeSettings | frontend/src/context/PDFContext.jsx:74-78 | every key the patch carries wins; every other key is kept |
| Context.MergeSettingsLaws | frontend/src/context/PDFContext.jsx:74-78 | the empty patch changes nothing, and two patches in turn are their union with the later one winning |
| Context.ReduceFrames | frontend/src/context/PDFContext.jsx:22-86 | every field an action does not touch keeps its value |
| Context.ReduceEffects | frontend/src/context/PDFContext.jsx:22-86 | what each action sets its fields to; `RESET` gives the initial state; unknown actions change nothing |
| Context.ReduceIdempotent | frontend/src/context/PDFContext.jsx:22-86 | dispatching any action twice is dispatching it once; a reset forgets the state |
| Viewer.ViewCentre | frontend/src/components/PDFViewer.jsx:425-434 | the stage transform maps the computed point to the view centre; without a stage it is (400, 300) |
| Viewer.NewRect | frontend/src/components/PDFViewer.jsx:436-448 | a 150 × 50 rectangle centred on the point, manual, with the given id, page and mode |
| Viewer.AddedVisibility | frontend/src/components/PDFViewer.jsx:639-646 | an added manual rectangle shows on its page, and an added repeated one on every page |
| Viewer.RemoveId | frontend/src/components/PDFViewer.jsx:513 | exactly the rectangles with another id remain |
| Viewer.RemoveAppended | frontend/src/components/PDFViewer.jsx:511-515 | deleting a just-added rectangle with a fresh id gives the list back |
| Viewer.ReplaceById | frontend/src/components/PDFViewer.jsx:972-976 | entries with the id are updated and the others are unchanged |
| Viewer.Toggled | frontend/src/components/PDFViewer.jsx:527-537 | "individual" becomes "repeated" and anything else becomes "individual"; only the mode and colours change |
| Viewer.ToggleLaws | frontend/src/components/PDFViewer.jsx:532-537 | a toggled rectangle is in its mode's colours, and toggling twice restores a styled rectangle |
| Viewer.ResizedLogo | frontend/src/components/PDFViewer.jsx:621-627 | the logo is at least 20 × 10, its position is kept, and larger sizes are taken as given |
| Viewer.OnPage | frontend/src/components/PDFViewer.jsx:639-646 | the shown rectangles are those repeated, global, or on the current page |
| Viewer.EditKeepsIds | frontend/src/components/PDFViewer.jsx:971-1003 | drag and transform edits keep the length and every id and change no other rectangle |
| Viewer.PdfViewer.constructor | frontend/src/components/PDFViewer.jsx:66-110 | an empty editor on page 1 with no selection |
| Viewer.PdfViewer.CurrentPageRectangles | frontend/src/components/PDFViewer.jsx:639-646 | the rectangles shown on the current page |
| Viewer.PdfViewer.SelectShape | frontend/src/components/PDFViewer.jsx:96 | the selection becomes the given id and nothing else in the editor changes |
| Viewer.PdfViewer.InvalidateDownstream | frontend/src/components/PDFViewer.jsx:452-455 | the step goes back to none, detections and translations are cleared, the processing step is "", and changes are pending; the rectangles, file, logo, preview and processing flag stay |
| Viewer.PdfViewer.AddNewRectangle | frontend/src/components/PDFViewer.jsx:420-457 | a manual rectangle is appended on the current page, centred in the view and selected; later steps are invalidated; the shell's rectangles, file, logo, preview and processing flag stay |
| Viewer.PdfViewer.AddRepeatedRectangle | frontend/src/components/PDFViewer.jsx:459-509 | a repeated rectangle on page −1 is appended and selected; later steps are invalidated; the shell's rectangles, file, logo, preview and processing flag stay |
| Viewer.PdfViewer.DeleteSelectedRectangle | frontend/src/components/PDFViewer.jsx:511-521 | without a selection nothing changes; otherwise the selected id is removed, the selection is cleared, and later steps are invalidated; either way the shell's rectangles, file, logo, preview and processing flag stay |
| Viewer.PdfViewer.ToggleRectangleMode | frontend/src/components/PDFViewer.jsx:523-546 | only the selected rectangle toggles, and nothing is invalidated |
| Viewer.PdfViewer.DragEnd | frontend/src/components/PDFViewer.jsx:971-984 | the dragged rectangle moves, the shell gets the new list, and later steps are invalidated; the shell's file, logo, preview and processing flag stay |
| Viewer.PdfViewer.TransformEnd | frontend/src/components/PDFViewer.jsx:985-1011 | the node's scale is folded into a size of at least 5, the shell gets the new list, and later steps are invalidated; the shell's file, logo, preview and processing flag stay |
| Viewer.PdfViewer.ResetRectangles | frontend/src/components/PDFViewer.jsx:411-418 | the local list becomes the shell's rectangles, which stay; the step is none, the lists are cleared, the processing step is "" and nothing is pending; the file, logo, preview and processing flag stay |
| Viewer.PdfViewer.HandleLogoResize | frontend/src/components/PDFViewer.jsx:621-627 | the shell's logo box is the resized box, and every other shell field stays |
| Viewer.PdfViewer.HandleLogoDrag | frontend/src/components/PDFViewer.jsx:617-619 | the shell's logo box moves and keeps its size, and every other shell field stays |
| Viewer.PdfViewer.DownloadRequest | frontend/src/components/PDFViewer.jsx:319-336 | none without translations; otherwise the translations merged with the edited rectangles |
| Preview.ZoomAbout | frontend/src/components/PDFPreview.jsx:82-92 | the new scale is set and the page point under the anchor stays under it |
| Preview.ZoomInOut | frontend/src/components/PDFPreview.jsx:95-114 | zooming in and then out about the same point restores the stage |
| Preview.GenerateRequest | frontend/src/components/PDFPreview.jsx:116-124 | none without translations; otherwise the translations merged with the original rectangles |
| Preview.PreviewFontSize | frontend/src/components/PDFPreview.jsx:294 | the size lies in [8, 16] and is `height / 3` between those bounds |
| Preview.OverlayOf | frontend/src/components/PDFPreview.jsx:293-320 | the frame is the rectangle, the text is the translation or "", and the size is within [8, 16] |
| Preview.TextBoxInset | frontend/src/components/PDFPreview.jsx:299-314 | the text box is the frame inset by 2 on every side, shares its centre, and lies inside it |
| Preview.Overlays | frontend/src/components/PDFPreview.jsx:292-295 | one overlay per translation on the current page, in order |
| Preview.OverlaysFromPage | frontend/src/components/PDFPreview.jsx:169 | every overlay comes from a translation on the current page |
| Preview.PdfPreview.constructor | frontend/src/components/PDFPreview.jsx:59-61 | a document's preview opens on page 1 at zoom 1 |
| Preview.PdfPreview.PreviousPage | frontend/src/components/PDFPreview.jsx:202 | `Math.max(1, page − 1)`, staying within the document |
| Preview.PdfPreview.NextPage | frontend/src/components/PDFPreview.jsx:212 | `Math.min(numPages, page + 1)`, staying within the document |
| Preview.PdfPreview.Zoom | frontend/src/components/PDFPreview.jsx:95-114 | without a stage nothing changes; otherwise the scale is multiplied or divided by 1.4 about the stage's centre |
| Preview.PdfPreview.Wheel | frontend/src/components/PDFPreview.jsx:73-93 | the scale is divided by 1.05 for a positive delta and multiplied otherwise, about the pointer; without a pointer nothing changes |
| Preview.PdfPreview.StageDragEnd | frontend/src/components/PDFPreview.jsx:280 | the stage moves and keeps its zoom |
| Preview.PdfPreview.CurrentPage | frontend/src/components/PDFPreview.jsx:167-169 | the rectangles and translations on the current page |
| TranslationPanel.SuccessfulTranslations | frontend/src/components/TranslationPanel.jsx:82 | exactly the translations that are present, non-empty and not "Translation failed" |
| TranslationPanel.SuccessfulCount | frontend/src/components/TranslationPanel.jsx:82-87 | the count equals the number of translations exactly when every one succeeded |
| TranslationPanel.AreaLabel | frontend/src/components/TranslationPanel.jsx:23 | `id.split('_').pop()` contains no '_' and is the whole id when it has none |
| TranslationPanel.CopyLabel | frontend/src/components/TranslationPanel.jsx:23 | a page copy of a repeated rectangle is labelled with its page number |
| TranslationPanel.ItemLabel | frontend/src/components/TranslationPanel.jsx:23 | the label shows the one-based page and the area label |
| TranslationPanel.SavedEdit | frontend/src/components/TranslationPanel.jsx:76-82 | saving an edit changes that entry alone, and the entry counts as successful exactly when the new text is non-empty and not the failure marker |
| TranslationPanel.TranslationItem.constructor | frontend/src/components/TranslationPanel.jsx:4-6 | not editing, with the item's translation as the draft |
| TranslationPanel.TranslationItem.ToggleEditing | frontend/src/components/TranslationPanel.jsx:30 | editing flips and the draft is kept |
| TranslationPanel.TranslationItem.Edit | frontend/src/components/TranslationPanel.jsx:43 | the draft becomes the typed text |
| TranslationPanel.TranslationItem.Save | frontend/src/components/TranslationPanel.jsx:8-11 | the item's id and the draft are handed up, and editing stops |
| TranslationPanel.TranslationItem.Cancel | frontend/src/components/TranslationPanel.jsx:13-16 | the draft goes back to the translation, and editing stops |
| ProcessingStatus.FirstWord | frontend/src/components/ProcessingStatus.jsx:18 | the first space-separated piece of the lower-cased step is a prefix of it |
| ProcessingStatus.StepIndexSpec | frontend/src/components/ProcessingStatus.jsx:17-19 | `findIndex` gives the first step containing that word, or −1 when none does |
| ProcessingStatus.ListedStepFound | frontend/src/components/ProcessingStatus.jsx:5-19 | a listed step is found at or before its own position |
| ProcessingStatus.EmptyStepIsFirst | frontend/src/components/ProcessingStatus.jsx:18 | the empty step matches the first step |
| ProcessingStatus.Progress | frontend/src/components/ProcessingStatus.jsx:45 | the bar width lies in [0, 100], and 0 when no step matches |
| ProcessingStatus.ProgressMonotone | frontend/src/components/ProcessingStatus.jsx:45 | a later step never shows less progress |

## Left out

- PDF input and output are left out: reading and writing files, pdf.js document loading, pdf-lib `embedFont`, `embedPng`, `drawImage`/`drawRectangle`/`drawText` and `save`. The model produces the list of drawing operations instead. Whichever font the Hebrew font's load falls back to, its widths are the measurer parameter, and that parameter never fails.
- The network is left out: the translate service's image rendering (`createTextImage`) and the chat API call are the `translate` parameter. The uploads-directory lookup is outside the model, and so are its 404, the 500 ms rate-limit sleep, and the outer 500 replies.
- Fields written only for logging or display are left out: `detectedAt`, `error`, `message` and `success`. So are every console call, toasts, axios and Konva rendering.
- Floating point is left out: coordinates are reals and `Math.round` is exact. The reals also ignore `NaN`, division by zero, and the infinities the grouping pass starts from (the model starts from the first run).
- `toLowerCase` is modelled on ASCII letters only.
- WrapTextForPdf: the measurer is total, so a `widthOfTextAtSize` that throws is not modelled. With Helvetica, the fallback font, Hebrew text makes it throw, and the renderer then fails as a whole.
- DrawTranslation: a `drawText` that throws part-way is not modelled. The source catches it and skips the translation's remaining lines.
- ProcessFullPdf: the failure of the whole run when measuring throws under the fallback font is not modelled; the model always returns one operation list per page.
- PerfectLayoutSpec: the layout is stated over the corrected wrap, as the finding on `wrapTextIntelligently` intends. The program's own layout over the wrap as written is PerfectLayoutAsWritten, with PerfectLayoutAsWrittenSpec. For "a bbbbb" at width 10 the two differ in their lines.
- CalculatePerfectLayout: it runs the corrected `wrapTextIntelligently`, so its lines are the corrected wrap's lines, not the program's as written.
- EstimatedWidthIs: string lengths are counts of Unicode scalar values, while JavaScript's `.length` counts UTF-16 code units. Characters outside the Basic Multilingual Plane therefore count once here and twice in the program. The same holds for the lengths below.
- WrapText: its length limit counts Unicode scalar values, not UTF-16 code units.
- AnalyzeTextLayout: `textLength` counts Unicode scalar values, not UTF-16 code units.
- MeasureText: the fallback width `len · size · 0.6` counts Unicode scalar values, not UTF-16 code units.
- SplitLongWord: splits into Unicode scalar values. JavaScript's `split('')` cuts a character outside the Basic Multilingual Plane into its two surrogate halves.
- The styling constants of `calculatePerfectLayout`'s result are omitted.
- The detector's default `item.height \|\| 12` and width estimate are modelled. The coverage lemma (every right-side run lies inside the rounded detected rectangle) is not stated: it would need rounding bounds through nonlinear products.
- `removeChinese` is never called by the renderer and has no effect on output. It is modelled for its finding only.
- `ResizableRect`, `handleRectangleDrag` and `handleRectangleResize` are left out: the viewer never uses them. So are the editor's own wheel/zoom/pan handlers, keyboard handling and selection of the logo.
- The calls behind the editor's `detectRectangles`, `detectTextFromRectangles`, `translateRectangles` and `handleApplyChanges` are left out. These are network calls; their replies are what `App.AppState` and `TranslateRoute` model.
- Logo upload validation (image type, 5 MB) and `removeLogo` are left out: they are browser file handling.
- The viewer's `useEffect` that copies the shell's rectangles into the local list is left out: the model performs that sync explicitly in `Viewer.PdfViewer.ResetRectangles` and the geometry handlers.
- The preview's loading state is not modelled: `Preview.PdfPreview.constructor` takes a page count of at least one.
- Nothing here models concurrency: React batches state updates, and every handler is modelled as running to completion.

## Findings

| source | as written | input that shows it | evidently intended | confidence | as-written member | corrected member |
|---|---|---|---|---|---|---|
| backend/services/textRenderingEngine.js:124-126 | after a full line is pushed, the next word becomes the current line without being measured, so it can overflow the width | "a bbbbb", maxWidth 10, fontSize 10, fallback measure: the line "bbbbb" is 30 wide | a word that does not fit on a fresh line is split character by character, like a word that never fitted | not executed | RenderingEngine.WrapAsWrittenOverflows | RenderingEngine.WrapCorrectedSpec |
| backend/services/pdfService.js:821 | the character class has no `u` flag, so each five-digit escape reads as a four-digit escape followed by a digit; `\u20000-\u2a6df` thus holds the range from `0` to U+2A6D, and the class deletes every character from U+0030 to U+2CEA, digits and Latin letters included | "A1" becomes "" | only CJK ideographs (the basic block and extensions A–E) are removed | not executed | Overlay.RemoveChineseDropsLatin | Overlay.RemoveChineseKeeps |
