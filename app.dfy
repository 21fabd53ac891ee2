/** The application shell's state and the handlers that step it. The uploaded file, the logo
    file and its object URL are opaque handles. */
module App {
  import opened Wrappers
  import opened Model
  import opened CoordinateMapper

  /** What the upload endpoint returns for a file. */
  datatype Upload = Upload(id: string, filename: string)

  const DefaultLogoPosition: FrontBox := FrontBox(10.0, 10.0, 60.0, 30.0)
  const NotAvailable: string := "N/A"
  const UploadsUrl: string := "http://localhost:3001/uploads/"

  /** `{ ...trans, originalText: originalRect ? originalRect.text : 'N/A' }` for every received
      translation, where `originalRect` is the current rectangle of the same id. */
  function WithOriginalText(received: seq<Rect>, current: seq<Rect>): (r: seq<Rect>)
    ensures |r| == |received|
    ensures forall i :: 0 <= i < |received| ==>
      r[i] == received[i].(originalText := r[i].originalText)
    ensures forall i :: 0 <= i < |received| ==>
      r[i].originalText == Some(match FindById(current, received[i].id)
                                case Some(rect) => rect.text
                                case None => NotAvailable)
  {
    seq(|received|, i requires 0 <= i < |received| =>
      received[i].(originalText := Some(match FindById(current, received[i].id)
                                        case Some(rect) => rect.text
                                        case None => NotAvailable)))
  }

  /** Received translations that the translate endpoint produced from the current rectangles,
      when those have distinct ids, each carry the text of the rectangle they came from. */
  lemma OriginalTextOfOwnRectangle(received: seq<Rect>, current: seq<Rect>)
    requires |received| == |current|
    requires forall i :: 0 <= i < |current| ==> received[i].id == current[i].id
    requires forall j, k :: 0 <= j < k < |current| ==> current[j].id != current[k].id
    ensures forall i :: 0 <= i < |received| ==>
      WithOriginalText(received, current)[i].originalText == Some(current[i].text)
  {
    forall i | 0 <= i < |received|
      ensures WithOriginalText(received, current)[i].originalText == Some(current[i].text)
    {
      assert FindById(current, current[i].id).Some?;
      assert FirstIndex(current, current[i].id) == i;
    }
  }

  /** Merging the original texts again changes nothing: the ids are kept. */
  lemma WithOriginalTextIdempotent(received: seq<Rect>, current: seq<Rect>)
    ensures WithOriginalText(WithOriginalText(received, current), current)
         == WithOriginalText(received, current)
  {
    var once := WithOriginalText(received, current);
    assert forall i :: 0 <= i < |received| ==> once[i].id == received[i].id;
  }

  class AppState {
    var file: Option<Upload>
    var rectangles: seq<Rect>
    var translations: seq<Rect>
    var detectedRectangles: seq<Rect>
    var isProcessing: bool
    var processingStep: string
    var showPreview: bool
    var logoFile: Option<string>
    var logoUrl: Option<string>
    var logoPosition: FrontBox
    var hasPendingChanges: bool

    constructor()
      ensures file.None? && rectangles == [] && translations == [] && detectedRectangles == []
      ensures !isProcessing && processingStep == "" && !showPreview
      ensures logoFile.None? && logoUrl.None? && logoPosition == DefaultLogoPosition
      ensures !hasPendingChanges
    {
      file := None;
      rectangles := [];
      translations := [];
      detectedRectangles := [];
      isProcessing := false;
      processingStep := "";
      showPreview := false;
      logoFile := None;
      logoUrl := None;
      logoPosition := DefaultLogoPosition;
      hasPendingChanges := false;
    }

    /** The document URL derived from the file: empty while there is no file name. */
    function PdfUrl(): (url: string)
      reads this
      ensures file.None? || file.value.filename == "" ==> url == ""
      ensures file.Some? && file.value.filename != "" ==> url == UploadsUrl + file.value.filename
    {
      if file.Some? && file.value.filename != "" then UploadsUrl + file.value.filename else ""
    }

    /** `handleFileSelect`: a new file clears everything derived from the previous one. */
    method HandleFileSelect(uploaded: Option<Upload>)
      modifies this
      ensures file == uploaded && rectangles == [] && translations == [] && detectedRectangles == []
      ensures !showPreview
      ensures isProcessing == old(isProcessing) && processingStep == old(processingStep)
      ensures logoFile == old(logoFile) && logoUrl == old(logoUrl) && logoPosition == old(logoPosition)
      ensures hasPendingChanges == old(hasPendingChanges)
    {
      file := uploaded;
      rectangles := [];
      translations := [];
      detectedRectangles := [];
      showPreview := false;
    }

    /** `handleTranslationsReceived`. */
    method HandleTranslationsReceived(received: seq<Rect>, current: seq<Rect>)
      modifies this
      ensures translations == WithOriginalText(received, current) && processingStep == ""
      ensures file == old(file) && rectangles == old(rectangles)
      ensures detectedRectangles == old(detectedRectangles) && isProcessing == old(isProcessing)
      ensures showPreview == old(showPreview) && logoFile == old(logoFile) && logoUrl == old(logoUrl)
      ensures logoPosition == old(logoPosition) && hasPendingChanges == old(hasPendingChanges)
    {
      translations := WithOriginalText(received, current);
      processingStep := "";
    }

    /** `resetApp`: detected rectangles and the logo survive a reset. */
    method ResetApp()
      modifies this
      ensures file.None? && rectangles == [] && translations == []
      ensures !isProcessing && processingStep == "" && !showPreview
      ensures detectedRectangles == old(detectedRectangles)
      ensures logoFile == old(logoFile) && logoUrl == old(logoUrl) && logoPosition == old(logoPosition)
      ensures hasPendingChanges == old(hasPendingChanges)
    {
      file := None;
      rectangles := [];
      translations := [];
      isProcessing := false;
      processingStep := "";
      showPreview := false;
    }

    /** `handlePreview`: each argument overrides its field only when it is truthy (an array
        or object is, an empty string is not). */
    method HandlePreview(updatedRectangles: Option<seq<Rect>>, newLogoFile: Option<string>,
                         newLogoUrl: Option<string>, newLogoPosition: Option<FrontBox>)
      modifies this
      ensures rectangles == (if updatedRectangles.Some? then updatedRectangles.value else old(rectangles))
      ensures logoFile == (if newLogoFile.Some? then newLogoFile else old(logoFile))
      ensures logoUrl == (if Truthy(newLogoUrl) then newLogoUrl else old(logoUrl))
      ensures logoPosition == (if newLogoPosition.Some? then newLogoPosition.value else old(logoPosition))
      ensures showPreview
      ensures file == old(file) && translations == old(translations)
      ensures detectedRectangles == old(detectedRectangles) && isProcessing == old(isProcessing)
      ensures processingStep == old(processingStep) && hasPendingChanges == old(hasPendingChanges)
    {
      if updatedRectangles.Some? {
        rectangles := updatedRectangles.value;
      }
      if newLogoFile.Some? {
        logoFile := newLogoFile;
      }
      if newLogoUrl.Some? && newLogoUrl.value != "" {
        logoUrl := newLogoUrl;
      }
      if newLogoPosition.Some? {
        logoPosition := newLogoPosition.value;
      }
      showPreview := true;
    }

    method HandleBackFromPreview()
      modifies this
      ensures !showPreview
      ensures file == old(file) && rectangles == old(rectangles) && translations == old(translations)
      ensures detectedRectangles == old(detectedRectangles) && isProcessing == old(isProcessing)
      ensures processingStep == old(processingStep) && logoFile == old(logoFile)
      ensures logoUrl == old(logoUrl) && logoPosition == old(logoPosition)
      ensures hasPendingChanges == old(hasPendingChanges)
    {
      showPreview := false;
    }

    /** `handleRectanglesDetected`. */
    method HandleRectanglesDetected(newRectangles: seq<Rect>)
      modifies this
      ensures rectangles == newRectangles
      ensures file == old(file) && translations == old(translations)
      ensures detectedRectangles == old(detectedRectangles) && isProcessing == old(isProcessing)
      ensures processingStep == old(processingStep) && showPreview == old(showPreview)
      ensures logoFile == old(logoFile) && logoUrl == old(logoUrl) && logoPosition == old(logoPosition)
      ensures hasPendingChanges == old(hasPendingChanges)
    {
      rectangles := newRectangles;
    }

    /** `handleTextDetected`: new detections always discard the translations. */
    method HandleTextDetected(newDetected: seq<Rect>)
      modifies this
      ensures detectedRectangles == newDetected && translations == []
      ensures file == old(file) && rectangles == old(rectangles) && isProcessing == old(isProcessing)
      ensures processingStep == old(processingStep) && showPreview == old(showPreview)
      ensures logoFile == old(logoFile) && logoUrl == old(logoUrl) && logoPosition == old(logoPosition)
      ensures hasPendingChanges == old(hasPendingChanges)
    {
      detectedRectangles := newDetected;
      translations := [];
    }

    method SetHasPendingChanges(pending: bool)
      modifies this
      ensures hasPendingChanges == pending
      ensures file == old(file) && rectangles == old(rectangles) && translations == old(translations)
      ensures detectedRectangles == old(detectedRectangles) && isProcessing == old(isProcessing)
      ensures processingStep == old(processingStep) && showPreview == old(showPreview)
      ensures logoFile == old(logoFile) && logoUrl == old(logoUrl) && logoPosition == old(logoPosition)
    {
      hasPendingChanges := pending;
    }

    method SetLogoPosition(position: FrontBox)
      modifies this
      ensures logoPosition == position
      ensures file == old(file) && rectangles == old(rectangles) && translations == old(translations)
      ensures detectedRectangles == old(detectedRectangles) && isProcessing == old(isProcessing)
      ensures processingStep == old(processingStep) && showPreview == old(showPreview)
      ensures logoFile == old(logoFile) && logoUrl == old(logoUrl)
      ensures hasPendingChanges == old(hasPendingChanges)
    {
      logoPosition := position;
    }
  }
}
