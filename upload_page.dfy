/** The upload page: a state machine over the page's state cells, driven by discrete browser events.
    FileReader, the canvas, getUserMedia and the HTTP request are outside the model: their results
    arrive as event payloads. */
module UploadPage {
  import opened Wrappers
  import Json

  /** The largest accepted file, 5 MiB. */
  const MaxFileSize: nat := 5 * 1024 * 1024

  const FileRejected := "File too large or unsupported format"
  const AnalysisFailed := "Failed to analyze image. Try again."
  const CameraUnavailable := "Unable to access camera."

  /** The classification endpoint the page posts to, and its port. */
  const Endpoint := "http://localhost:5000/api/search"
  const EndpointPort := 5000

  /** A chosen file: its size in bytes and the data URL the FileReader will produce for it. */
  datatype File = File(size: nat, dataUrl: string)

  /** Three mutually exclusive left-hand panels. */
  datatype Panel = DropZone | Camera | Preview

  /** What the right-hand column shows: a placeholder, or a result card fed `results[0]`. */
  datatype ResultsArea = Placeholder | CardOf(props: Json.Read)

  /** A camera stream; `live[i]` holds while track `i` is still running. */
  class MediaStream {
    const live: array<bool>

    constructor (tracks: nat)
      ensures fresh(live) && live.Length == tracks
      ensures forall i :: 0 <= i < tracks ==> live[i]
    {
      live := new bool[tracks](_ => true);
    }

    /** `stream.getTracks().forEach(track => track.stop())`. */
    method StopAll()
      modifies live
      ensures forall i :: 0 <= i < live.Length ==> !live[i]
    {
      var i := 0;
      while i < live.Length
        invariant 0 <= i <= live.Length
        invariant forall k :: 0 <= k < i ==> !live[k]
      {
        live[i] := false;
        i := i + 1;
      }
    }

    predicate Stopped()
      reads live
    {
      forall i :: 0 <= i < live.Length ==> !live[i]
    }
  }

  class Page {
    var imagePreview: Option<string>
    var dragActive: bool
    var error: string
    var results: Json.Value
    var isAnalyzing: bool
    var showCamera: bool
    var stream: MediaStream?

    /** The camera panel is only open while a stream is held, and the error is one of the page's messages. */
    ghost predicate Valid()
      reads this
    {
      && (showCamera ==> stream != null)
      && error in {"", FileRejected, AnalysisFailed, CameraUnavailable}
    }

    /** The page tests the preview for truthiness: a data URL that is null or empty counts as none. */
    predicate HasPreview()
      reads this
    {
      imagePreview.Some? && imagePreview.value != ""
    }

    /** The objects `stopCamera` may change: the held stream's tracks. */
    function StreamTracks(): set<object>
      reads this
    {
      if stream == null then {} else {stream.live}
    }

    constructor ()
      ensures Valid()
      ensures imagePreview == None && !dragActive && error == "" && results == Json.Null
      ensures !isAnalyzing && !showCamera && stream == null
    {
      imagePreview := None;
      dragActive := false;
      error := "";
      results := Json.Null;
      isAnalyzing := false;
      showCamera := false;
      stream := null;
    }

    /** `handleChange`: an accepted file clears the error and starts reading it; the preview is set only
        when the reader finishes (ReaderLoaded). A missing or oversized file sets the rejection message. */
    method HandleChange(file: Option<File>) returns (accepted: bool)
      requires Valid()
      modifies this`error
      ensures Valid()
      ensures accepted <==> file.Some? && file.value.size <= MaxFileSize
      ensures error == if accepted then "" else FileRejected
    {
      accepted := file.Some? && file.value.size <= MaxFileSize;
      if accepted {
        error := "";
      } else {
        error := FileRejected;
      }
    }

    /** The FileReader's `onloadend`: its `result`, which is null when reading failed, becomes the preview. */
    method ReaderLoaded(result: Option<string>)
      requires Valid()
      modifies this`imagePreview
      ensures Valid()
      ensures imagePreview == result
    {
      imagePreview := result;
    }

    /** `handleDrag`: only "dragenter" and "dragover" light up the drop zone. */
    method HandleDrag(eventType: string)
      requires Valid()
      modifies this`dragActive
      ensures Valid()
      ensures dragActive <==> eventType == "dragenter" || eventType == "dragover"
    {
      dragActive := eventType == "dragenter" || eventType == "dragover";
    }

    /** `handleDrop`: the drop zone goes dark and only the first dropped file, if any, is handled. */
    method HandleDrop(files: seq<File>) returns (accepted: bool)
      requires Valid()
      modifies this`dragActive, this`error
      ensures Valid()
      ensures !dragActive
      ensures accepted <==> |files| > 0 && files[0].size <= MaxFileSize
      ensures |files| == 0 ==> error == old(error)
      ensures |files| > 0 ==> error == if accepted then "" else FileRejected
    {
      dragActive := false;
      accepted := false;
      if |files| > 0 {
        accepted := HandleChange(Some(files[0]));
      }
    }

    /** `resetUpload`: no preview, no results, no error; the camera and the analysis flag are untouched. */
    method ResetUpload()
      requires Valid()
      modifies this`imagePreview, this`results, this`error
      ensures Valid()
      ensures imagePreview == None && results == Json.Null && error == ""
    {
      imagePreview := None;
      results := Json.Null;
      error := "";
    }

    /** The synchronous start of `analyzeImage`: without a (truthy) preview nothing happens and nothing
        is uploaded; otherwise the analysis is marked in flight and the preview is what gets uploaded. */
    method AnalyzeBegin() returns (upload: Option<string>)
      requires Valid()
      modifies this`isAnalyzing
      ensures Valid()
      ensures upload.Some? <==> old(HasPreview())
      ensures upload.Some? ==> upload == old(imagePreview)
      ensures isAnalyzing == (old(isAnalyzing) || old(HasPreview()))
    {
      if HasPreview() {
        upload := imagePreview;
        isAnalyzing := true;
      } else {
        upload := None;
      }
    }

    /** The request resolved: the response body becomes `results` and the analysis ends. */
    method AnalyzeSucceeded(data: Json.Value)
      requires Valid()
      modifies this`results, this`isAnalyzing
      ensures Valid()
      ensures results == data && !isAnalyzing
    {
      results := data;
      isAnalyzing := false;
    }

    /** The upload or the request failed: the retry message is set and the analysis ends; the preview stays. */
    method AnalyzeFailed()
      requires Valid()
      modifies this`error, this`isAnalyzing
      ensures Valid()
      ensures error == AnalysisFailed && !isAnalyzing
    {
      error := AnalysisFailed;
      isAnalyzing := false;
    }

    /** `startCamera` once getUserMedia settles: a granted stream is held and the camera panel opens;
        a refusal only sets the camera message. */
    method StartCamera(granted: MediaStream?)
      requires Valid()
      modifies this`stream, this`showCamera, this`error
      ensures Valid()
      ensures granted != null ==> stream == granted && showCamera && error == old(error)
      ensures granted == null ==> stream == old(stream) && showCamera == old(showCamera) && error == CameraUnavailable
    {
      if granted != null {
        stream := granted;
        showCamera := true;
      } else {
        error := CameraUnavailable;
      }
    }

    /** `stopCamera`: every track of the held stream is stopped and the camera panel closes.
        The stream reference itself is kept. */
    method StopCamera()
      requires Valid()
      modifies this`showCamera, StreamTracks()
      ensures Valid()
      ensures !showCamera && stream == old(stream)
      ensures stream != null ==> stream.Stopped()
    {
      if stream != null {
        stream.StopAll();
      }
      showCamera := false;
    }

    /** `capturePhoto`: the captured frame becomes the preview, then the camera is stopped. */
    method CapturePhoto(frame: string)
      requires Valid()
      modifies this`imagePreview, this`showCamera, StreamTracks()
      ensures Valid()
      ensures imagePreview == Some(frame) && !showCamera && stream == old(stream)
      ensures stream != null ==> stream.Stopped()
    {
      imagePreview := Some(frame);
      StopCamera();
    }

    /** Which left-hand panel is shown. */
    function Panel(): (p: Panel)
      reads this
      ensures p == DropZone <==> !HasPreview() && !showCamera
      ensures p == Camera <==> showCamera
      ensures p == Preview <==> HasPreview() && !showCamera
    {
      if !HasPreview() && !showCamera then DropZone else if showCamera then Camera else Preview
    }

    /** The Analyze button: in the preview panel while there is no truthy result and nothing is in flight. */
    predicate AnalyzeOffered()
      reads this
      ensures AnalyzeOffered() <==> HasPreview() && !showCamera && !Json.Truthy(results) && !isAnalyzing
    {
      Panel() == Preview && !Json.Truthy(results) && !isAnalyzing
    }

    /** The spinner: in the preview panel while an analysis is in flight. */
    predicate SpinnerShown()
      reads this
      ensures SpinnerShown() <==> HasPreview() && !showCamera && isAnalyzing
      ensures SpinnerShown() ==> !AnalyzeOffered()
    {
      Panel() == Preview && isAnalyzing
    }

    /** The error line lives inside the drop zone, so it shows only there. */
    predicate ErrorShown()
      reads this
      ensures ErrorShown() <==> error != "" && !HasPreview() && !showCamera
      ensures ErrorShown() ==> !AnalyzeOffered() && !SpinnerShown()
    {
      Panel() == DropZone && error != ""
    }

    /** The right-hand column: the placeholder while `results` is falsy, otherwise a card fed
        `results[0]`. An empty array is truthy, so it yields a card fed `undefined`. */
    function ResultsArea(): (a: ResultsArea)
      reads this
      ensures results.Null? ==> a == Placeholder
      ensures results == Json.Arr([]) ==> a == CardOf(Json.Undefined)
      ensures results.Arr? && |results.items| > 0 ==> a == CardOf(Json.Got(results.items[0]))
      ensures results.Obj? ==> a.CardOf?
      ensures a.CardOf? <==> Json.Truthy(results)
    {
      if Json.Truthy(results) then CardOf(Json.Index(results, 0)) else Placeholder
    }
  }

  /** Choosing an acceptable file and letting the reader finish shows its preview and offers analysis;
      an empty data URL is falsy and leaves the drop zone in place. */
  method AcceptedFileOffersAnalysis(f: File) returns (panel: Panel, offered: bool, error: string)
    requires f.size <= MaxFileSize
    ensures f.dataUrl != "" ==> panel == Preview && offered
    ensures f.dataUrl == "" ==> panel == DropZone && !offered
    ensures error == ""
  {
    var page := new Page();
    var accepted := page.HandleChange(Some(f));
    page.ReaderLoaded(Some(f.dataUrl));
    panel, offered, error := page.Panel(), page.AnalyzeOffered(), page.error;
  }

  /** An oversized file is rejected: no preview, the drop zone stays and shows the rejection message. */
  method OversizedFileRejected(f: File) returns (panel: Panel, shown: bool, error: string)
    requires f.size > MaxFileSize
    ensures panel == DropZone && shown && error == FileRejected
  {
    var page := new Page();
    var accepted := page.HandleChange(Some(f));
    panel, shown, error := page.Panel(), page.ErrorShown(), page.error;
  }

  /** After a failed analysis the preview is kept and Analyze is offered again; a second attempt uploads
      the same image. The failure message is set but, being part of the drop zone, is not displayed.
      An empty data URL never starts an upload, so nothing can fail. */
  method FailedAnalysisCanRetry(f: File)
    returns (offered: bool, errorSet: bool, errorShown: bool, retry: Option<string>)
    requires f.size <= MaxFileSize
    ensures f.dataUrl != "" ==> offered && errorSet && !errorShown && retry == Some(f.dataUrl)
    ensures f.dataUrl == "" ==> !offered && !errorSet && retry == None
  {
    var page := new Page();
    var accepted := page.HandleChange(Some(f));
    page.ReaderLoaded(Some(f.dataUrl));
    var first := page.AnalyzeBegin();
    if first.Some? {
      page.AnalyzeFailed();
    }
    offered, errorSet, errorShown := page.AnalyzeOffered(), page.error == AnalysisFailed, page.ErrorShown();
    retry := page.AnalyzeBegin();
  }

  /** Starting the camera opens the camera panel; capturing shows the frame and stops every track.
      A capture always yields a data URL, so the frame is never empty in practice; an empty one would
      leave the drop zone showing. */
  method CaptureReleasesCamera(tracks: nat, frame: string)
    returns (during: Panel, after: Panel, preview: Option<string>, released: bool)
    ensures during == Camera && preview == Some(frame) && released
    ensures after == if frame != "" then Preview else DropZone
  {
    var page := new Page();
    var s := new MediaStream(tracks);
    page.StartCamera(s);
    during := page.Panel();
    page.CapturePhoto(frame);
    after, preview, released := page.Panel(), page.imagePreview, s.Stopped();
  }

  /** A refused camera leaves the drop zone in place with the camera message shown. */
  method RefusedCameraShowsMessage() returns (panel: Panel, shown: bool, error: string)
    ensures panel == DropZone && shown && error == CameraUnavailable
  {
    var page := new Page();
    page.StartCamera(null);
    panel, shown, error := page.Panel(), page.ErrorShown(), page.error;
  }
}
