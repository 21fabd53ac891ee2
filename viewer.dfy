/** The editor: the rectangles being edited on the current page, the current selection and
    the detection step. Geometry edits invalidate what was derived from the old geometry: the
    detection step drops back, the shell's detected rectangles and translations are cleared and
    the shell records pending changes. */
module Viewer {
  import opened Wrappers
  import opened Numeric
  import opened Strings
  import opened Model
  import opened CoordinateMapper
  import App

  datatype DetectionStep = NotDetected | Detecting | Detected

  type NonZero = r: real | r != 0.0 witness 1.0

  /** The Konva stage as the add handlers read it: size, offset and scale. */
  datatype StageView = StageView(width: real, height: real, x: real, y: real, scaleX: NonZero, scaleY: NonZero)

  const ManualStroke: string := "#ff4d4d"
  const ManualFill: string := "rgba(255, 77, 77, 0.1)"
  const RepeatedStroke: string := "#8b5cf6"
  const RepeatedFill: string := "rgba(139, 92, 244, 0.1)"

  /** The point of the page at the centre of the view, or (400, 300) without a stage. */
  function ViewCentre(stage: Option<StageView>): (c: (real, real))
    ensures stage.None? ==> c == (400.0, 300.0)
    ensures stage.Some? ==> var s := stage.value;
      c.0 * s.scaleX + s.x == s.width / 2.0 && c.1 * s.scaleY + s.y == s.height / 2.0
  {
    match stage
    case None => (400.0, 300.0)
    case Some(s) => ((s.width / 2.0 - s.x) / s.scaleX, (s.height / 2.0 - s.y) / s.scaleY)
  }

  /** A 150 × 50 rectangle centred on `centre`. */
  function NewRect(id: string, page: int, centre: (real, real), text: string, mode: Mode,
                   stroke: string, fill: string): (r: Rect)
    ensures r.x + r.width / 2.0 == centre.0 && r.y + r.height / 2.0 == centre.1
    ensures r.width == 150.0 && r.height == 50.0
    ensures r.id == id && r.page == page && r.text == text && r.mode == Some(mode)
    ensures r.isManual == Some(true)
  {
    Rect(id, page, centre.0 - 75.0, centre.1 - 25.0, 150.0, 50.0, text, Some(true), Some(mode),
      Some(stroke), Some(fill), None, None, None, None, None)
  }

  /** `'manual_' + Date.now()`; the clock reading is a parameter. */
  function ManualId(now: nat): string {
    "manual_" + NatToString(now)
  }

  function RepeatedId(now: nat): string {
    "repeated_" + NatToString(now)
  }

  /** `rects.filter(rect => rect.id !== id)`. */
  function RemoveId(rects: seq<Rect>, id: string): (r: seq<Rect>)
    ensures |r| <= |rects|
    ensures forall x :: x in r <==> x in rects && x.id != id
  {
    if rects == [] then []
    else (if rects[0].id != id then [rects[0]] else []) + RemoveId(rects[1..], id)
  }

  /** Deleting a rectangle that was just appended under an id nobody else carries gives back
      the rectangles there were before, in order. */
  lemma {:induction false} RemoveAppended(rects: seq<Rect>, r: Rect)
    requires forall x :: x in rects ==> x.id != r.id
    ensures RemoveId(rects + [r], r.id) == rects
  {
    if rects == [] {
      assert RemoveId([r], r.id) == [] + RemoveId([], r.id);
    } else {
      assert (rects + [r])[1..] == rects[1..] + [r];
      RemoveAppended(rects[1..], r);
      assert rects == [rects[0]] + rects[1..];
    }
  }

  /** `rects.map(r => r.id === id ? f(r) : r)`. */
  function ReplaceById(rects: seq<Rect>, id: string, f: Rect -> Rect): (r: seq<Rect>)
    ensures |r| == |rects|
    ensures forall i :: 0 <= i < |rects| && rects[i].id == id ==> r[i] == f(rects[i])
    ensures forall i :: 0 <= i < |rects| && rects[i].id != id ==> r[i] == rects[i]
  {
    seq(|rects|, i requires 0 <= i < |rects| => if rects[i].id == id then f(rects[i]) else rects[i])
  }

  /** `rect.mode === 'individual' ? 'repeated' : 'individual'`, with the new mode's colours. */
  function Toggled(r: Rect): (t: Rect)
    ensures t == r.(mode := t.mode, stroke := t.stroke, fill := t.fill)
    ensures r.mode == Some(Individual) ==> t.mode == Some(Repeated)
    ensures r.mode != Some(Individual) ==> t.mode == Some(Individual)
  {
    var newMode := if r.mode == Some(Individual) then Repeated else Individual;
    r.(mode := Some(newMode),
       stroke := Some(if newMode == Repeated then RepeatedStroke else ManualStroke),
       fill := Some(if newMode == Repeated then RepeatedFill else ManualFill))
  }

  /** A rectangle drawn in the colours of its mode. */
  predicate Styled(r: Rect) {
    r.mode.Some?
    && r.stroke == Some(if r.mode.value == Repeated then RepeatedStroke else ManualStroke)
    && r.fill == Some(if r.mode.value == Repeated then RepeatedFill else ManualFill)
  }

  /** Toggling always leaves a rectangle in its mode's colours, and toggling a styled rectangle
      twice gives it back unchanged. */
  lemma ToggleLaws(r: Rect)
    ensures Styled(Toggled(r))
    ensures Styled(r) ==> Toggled(Toggled(r)) == r
  {
  }

  /** The drag-end update: the node's new position. */
  function Moved(x: real, y: real): Rect -> Rect {
    (r: Rect) => r.(x := x, y := y)
  }

  /** The transform-end update: position, and the node's size times its scale, at least 5. */
  function Resized(x: real, y: real, width: real, height: real, scaleX: real, scaleY: real): Rect -> Rect {
    (r: Rect) => r.(x := x, y := y, width := Max(5.0, width * scaleX), height := Max(5.0, height * scaleY))
  }

  /** The logo box after a resize: at least 20 wide and 10 high. */
  function ResizedLogo(pos: FrontBox, width: real, height: real): (p: FrontBox)
    ensures p.width >= 20.0 && p.height >= 10.0
    ensures p.x == pos.x && p.y == pos.y
    ensures width >= 20.0 ==> p.width == width
    ensures height >= 10.0 ==> p.height == height
  {
    pos.(width := Max(20.0, width), height := Max(10.0, height))
  }

  /** Whether a rectangle is shown on page `pageNumber` (numbered from 1). */
  predicate Visible(r: Rect, pageNumber: int) {
    r.mode == Some(Repeated) || r.page == -1 || r.page == pageNumber - 1
  }

  function OnPage(rects: seq<Rect>, pageNumber: int): (r: seq<Rect>)
    ensures |r| <= |rects|
    ensures forall x :: x in r <==> x in rects && Visible(x, pageNumber)
  {
    if rects == [] then []
    else (if Visible(rects[0], pageNumber) then [rects[0]] else []) + OnPage(rects[1..], pageNumber)
  }

  /** An added manual rectangle shows on the page it was added on, an added repeated one on
      every page. */
  lemma AddedVisibility(centre: (real, real), now: nat, pageNumber: int, other: int)
    ensures Visible(NewRect(ManualId(now), pageNumber - 1, centre, "Manual Area", Individual,
                            ManualStroke, ManualFill), pageNumber)
    ensures Visible(NewRect(RepeatedId(now), -1, centre, "Repeated Area", Repeated,
                            RepeatedStroke, RepeatedFill), other)
  {
  }

  class PdfViewer {
    const app: App.AppState
    var localRectangles: seq<Rect>
    var selectedId: Option<string>
    var detectionStep: DetectionStep
    var pageNumber: int

    constructor(app: App.AppState)
      ensures this.app == app && localRectangles == [] && selectedId.None?
      ensures detectionStep == NotDetected && pageNumber == 1
    {
      this.app := app;
      localRectangles := [];
      selectedId := None;
      detectionStep := NotDetected;
      pageNumber := 1;
    }

    /** What every geometry edit leaves behind. */
    predicate Invalidated()
      reads this, app
    {
      detectionStep == NotDetected && app.detectedRectangles == [] && app.translations == []
      && app.hasPendingChanges
    }

    /** The shell fields no rectangle edit touches: the file, the logo and its box, the preview
        and processing flags. */
    twostate predicate ShellKept()
      reads app
    {
      app.file == old(app.file) && app.logoFile == old(app.logoFile) && app.logoUrl == old(app.logoUrl)
      && app.logoPosition == old(app.logoPosition) && app.showPreview == old(app.showPreview)
      && app.isProcessing == old(app.isProcessing)
    }

    /** Everything in the shell but the logo box, which a logo edit leaves alone. */
    twostate predicate OnlyLogoMoves()
      reads app
    {
      app.file == old(app.file) && app.logoFile == old(app.logoFile) && app.logoUrl == old(app.logoUrl)
      && app.showPreview == old(app.showPreview) && app.isProcessing == old(app.isProcessing)
      && app.rectangles == old(app.rectangles) && app.translations == old(app.translations)
      && app.detectedRectangles == old(app.detectedRectangles)
      && app.processingStep == old(app.processingStep) && app.hasPendingChanges == old(app.hasPendingChanges)
    }

    /** `currentPageRectangles`. */
    function CurrentPageRectangles(): (r: seq<Rect>)
      reads this
      ensures forall x :: x in r <==> x in localRectangles && Visible(x, pageNumber)
    {
      OnPage(localRectangles, pageNumber)
    }

    /** The four calls every edit makes: step back to 'none', clear detected text, clear
        translations, flag pending changes. */
    method InvalidateDownstream()
      modifies this, app
      ensures Invalidated() && app.processingStep == ""
      ensures localRectangles == old(localRectangles) && selectedId == old(selectedId)
      ensures pageNumber == old(pageNumber)
      ensures app.rectangles == old(app.rectangles) && ShellKept()
    {
      detectionStep := NotDetected;
      app.HandleTextDetected([]);
      assert App.WithOriginalText([], []) == [];
      app.HandleTranslationsReceived([], []);
      app.SetHasPendingChanges(true);
    }

    method SelectShape(id: Option<string>)
      modifies this
      ensures selectedId == id
      ensures localRectangles == old(localRectangles) && detectionStep == old(detectionStep)
      ensures pageNumber == old(pageNumber)
    {
      selectedId := id;
    }

    /** `addNewRectangle`: a manual rectangle on the current page, centred in the view, selected. */
    method AddNewRectangle(now: nat, stage: Option<StageView>)
      modifies this, app
      ensures localRectangles == old(localRectangles) + [NewRect(ManualId(now), old(pageNumber) - 1,
        ViewCentre(stage), "Manual Area", Individual, ManualStroke, ManualFill)]
      ensures selectedId == Some(ManualId(now)) && Invalidated() && app.processingStep == ""
      ensures pageNumber == old(pageNumber) && app.rectangles == old(app.rectangles) && ShellKept()
    {
      var newId := ManualId(now);
      var centre := ViewCentre(stage);
      var newRect := NewRect(newId, pageNumber - 1, centre, "Manual Area", Individual, ManualStroke, ManualFill);
      localRectangles := localRectangles + [newRect];
      selectedId := Some(newId);
      InvalidateDownstream();
    }

    /** `addRepeatedRectangle`: a rectangle for every page (page -1), centred in the view. */
    method AddRepeatedRectangle(now: nat, stage: Option<StageView>)
      modifies this, app
      ensures localRectangles == old(localRectangles) + [NewRect(RepeatedId(now), -1,
        ViewCentre(stage), "Repeated Area", Repeated, RepeatedStroke, RepeatedFill)]
      ensures selectedId == Some(RepeatedId(now)) && Invalidated() && app.processingStep == ""
      ensures pageNumber == old(pageNumber) && app.rectangles == old(app.rectangles) && ShellKept()
    {
      var newId := RepeatedId(now);
      var centre := ViewCentre(stage);
      var newRect := NewRect(newId, -1, centre, "Repeated Area", Repeated, RepeatedStroke, RepeatedFill);
      localRectangles := localRectangles + [newRect];
      selectedId := Some(newId);
      InvalidateDownstream();
    }

    /** `deleteSelectedRectangle`: nothing at all happens while nothing is selected. */
    method DeleteSelectedRectangle()
      modifies this, app
      ensures !Truthy(old(selectedId)) ==> (localRectangles == old(localRectangles)
        && selectedId == old(selectedId) && detectionStep == old(detectionStep)
        && unchanged(app))
      ensures Truthy(old(selectedId)) ==>
        (localRectangles == RemoveId(old(localRectangles), old(selectedId).value)
         && selectedId.None? && Invalidated() && app.processingStep == "")
      ensures pageNumber == old(pageNumber) && app.rectangles == old(app.rectangles) && ShellKept()
    {
      if selectedId.Some? && selectedId.value != "" {
        localRectangles := RemoveId(localRectangles, selectedId.value);
        selectedId := None;
        InvalidateDownstream();
      }
    }

    /** `toggleRectangleMode`: only the selected rectangle changes, and nothing is invalidated. */
    method ToggleRectangleMode()
      modifies this
      ensures !Truthy(selectedId) ==> localRectangles == old(localRectangles)
      ensures Truthy(selectedId) ==>
        localRectangles == ReplaceById(old(localRectangles), selectedId.value, Toggled)
      ensures selectedId == old(selectedId) && detectionStep == old(detectionStep)
      ensures pageNumber == old(pageNumber)
    {
      if selectedId.Some? && selectedId.value != "" {
        localRectangles := ReplaceById(localRectangles, selectedId.value, Toggled);
      }
    }

    /** The drag-end handler of rectangle `id`: the new rectangles also go to the shell. */
    method DragEnd(id: string, x: real, y: real)
      modifies this, app
      ensures localRectangles == ReplaceById(old(localRectangles), id, Moved(x, y))
      ensures app.rectangles == localRectangles && Invalidated() && app.processingStep == ""
      ensures selectedId == old(selectedId) && pageNumber == old(pageNumber) && ShellKept()
    {
      var updatedRectangles := ReplaceById(localRectangles, id, Moved(x, y));
      localRectangles := updatedRectangles;
      app.HandleRectanglesDetected(updatedRectangles);
      InvalidateDownstream();
    }

    /** The transform-end handler of rectangle `id`: the node's scale is folded into its size. */
    method TransformEnd(id: string, x: real, y: real, nodeWidth: real, nodeHeight: real,
                        scaleX: real, scaleY: real)
      modifies this, app
      ensures localRectangles == ReplaceById(old(localRectangles), id,
        Resized(x, y, nodeWidth, nodeHeight, scaleX, scaleY))
      ensures forall i :: 0 <= i < |localRectangles| && localRectangles[i].id == id ==>
        localRectangles[i].width >= 5.0 && localRectangles[i].height >= 5.0
      ensures app.rectangles == localRectangles && Invalidated() && app.processingStep == ""
      ensures selectedId == old(selectedId) && pageNumber == old(pageNumber) && ShellKept()
    {
      var updatedRectangles := ReplaceById(localRectangles, id,
        Resized(x, y, nodeWidth, nodeHeight, scaleX, scaleY));
      localRectangles := updatedRectangles;
      app.HandleRectanglesDetected(updatedRectangles);
      InvalidateDownstream();
    }

    /** `resetRectangles`: back to the shell's rectangles, with nothing pending. */
    method ResetRectangles()
      modifies this, app
      ensures localRectangles == old(app.rectangles) && app.rectangles == old(app.rectangles)
      ensures detectionStep == NotDetected
      ensures app.detectedRectangles == [] && app.translations == [] && !app.hasPendingChanges
      ensures app.processingStep == ""
      ensures selectedId == old(selectedId) && pageNumber == old(pageNumber) && ShellKept()
    {
      localRectangles := app.rectangles;
      detectionStep := NotDetected;
      app.HandleTextDetected([]);
      assert App.WithOriginalText([], []) == [];
      app.HandleTranslationsReceived([], []);
      app.SetHasPendingChanges(false);
    }

    /** `handleLogoResize`. */
    method HandleLogoResize(width: real, height: real)
      modifies app
      ensures app.logoPosition == ResizedLogo(old(app.logoPosition), width, height)
      ensures OnlyLogoMoves()
    {
      app.SetLogoPosition(ResizedLogo(app.logoPosition, width, height));
    }

    /** `handleLogoDrag`. */
    method HandleLogoDrag(x: real, y: real)
      modifies app
      ensures app.logoPosition == old(app.logoPosition).(x := x, y := y)
      ensures OnlyLogoMoves()
    {
      app.SetLogoPosition(app.logoPosition.(x := x, y := y));
    }

    /** The translations `processAndDownload` sends: none when there are no translations,
        otherwise each overlaid by the edited rectangle of the same id. */
    function DownloadRequest(): (r: Option<seq<Rect>>)
      reads this, app
      ensures r.None? <==> app.translations == []
      ensures r.Some? ==> r.value == MergeById(app.translations, localRectangles)
    {
      if |app.translations| == 0 then None else Some(MergeById(app.translations, localRectangles))
    }
  }

  /** Geometry edits of one rectangle change no other rectangle, keep every id, and so keep the
      set of rectangles that a later selection or deletion can reach. */
  lemma EditKeepsIds(rects: seq<Rect>, id: string, x: real, y: real, w: real, h: real, sx: real, sy: real)
    ensures var m := ReplaceById(rects, id, Moved(x, y));
      var t := ReplaceById(rects, id, Resized(x, y, w, h, sx, sy));
      (forall i :: 0 <= i < |rects| ==> m[i].id == rects[i].id && t[i].id == rects[i].id)
      && (forall i :: 0 <= i < |rects| ==> m[i].mode == rects[i].mode && t[i].mode == rects[i].mode)
      && (forall i :: 0 <= i < |rects| ==> m[i].page == rects[i].page && t[i].page == rects[i].page)
  {
  }
}
