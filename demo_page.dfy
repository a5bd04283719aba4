/**
  The restoration demo page: choosing an image file (type and size checks),
  the three-step processing run with its progress bar, the reset button and
  the name of the downloaded result. The file reader and the restoration
  model are outside the model: their results are parameters.
*/
module DemoPage {
  import opened Wrappers
  import opened Text

  /** The browser's `File`: name, MIME type and size in bytes. */
  datatype File = File(name: string, mimeType: string, size: int)

  datatype StepStatus = Pending | Processing | Completed

  datatype Step = Step(id: string, name: string, description: string, status: StepStatus)

  const MaxFileSize: int := 10 * 1024 * 1024

  const NotAnImageMessage: string := "Por favor selecciona un archivo de imagen válido"
  const TooLargeMessage: string := "El archivo es demasiado grande. Máximo 10MB"
  const ProcessingFailedMessage: string := "Error al procesar la imagen. Por favor intenta nuevamente."

  /** The three processing steps, all pending, as the page starts. */
  const InitialSteps: seq<Step> := [
    Step("detection", "Detección de Objetos", "Identificando elementos artísticos", Pending),
    Step("analysis", "Análisis IA", "Procesando con redes neuronales", Pending),
    Step("reconstruction", "Reconstrucción 2D", "Generando imagen restaurada", Pending)
  ]

  // ---------------------------------------------------------------------
  // File validation
  // ---------------------------------------------------------------------

  /** The verdict on a chosen file. */
  datatype FileCheck = Accepted | NotAnImage | TooLarge

  /** The checks of `handleFileSelect`, in their order: the type first, then the size. */
  function CheckFile(f: File): (r: FileCheck)
    ensures r == Accepted <==> IsPrefix("image/", f.mimeType) && f.size <= MaxFileSize
    ensures r == NotAnImage <==> !IsPrefix("image/", f.mimeType)
  {
    if !IsPrefix("image/", f.mimeType) then NotAnImage
    else if f.size > MaxFileSize then TooLarge
    else Accepted
  }

  /** The error shown for a rejected file. */
  function CheckMessage(c: FileCheck): (r: Option<string>)
    ensures r.None? <==> c == Accepted
    ensures r.Some? ==> r.value != ""
  {
    match c
    case Accepted => None
    case NotAnImage => Some(NotAnImageMessage)
    case TooLarge => Some(TooLargeMessage)
  }

  /** The limit is inclusive: an image of exactly 10 MiB passes, one byte more does not. */
  lemma SizeLimitInclusive(name: string, mimeType: string)
    requires IsPrefix("image/", mimeType)
    ensures CheckFile(File(name, mimeType, 10485760)) == Accepted
    ensures CheckFile(File(name, mimeType, 10485761)) == TooLarge
  {
  }

  /** A file of the wrong type is reported as such whatever its size. */
  lemma TypeCheckedFirst(f: File)
    requires !IsPrefix("image/", f.mimeType) && f.size > MaxFileSize
    ensures CheckMessage(CheckFile(f)) == Some(NotAnImageMessage)
  {
  }

  // ---------------------------------------------------------------------
  // Step statuses
  // ---------------------------------------------------------------------

  /** One `setProcessingSteps(prev => prev.map(...))` update: the step(s) with this id get the status. */
  function SetStatus(steps: seq<Step>, id: string, st: StepStatus): (r: seq<Step>)
    ensures |r| == |steps|
    ensures forall i :: 0 <= i < |steps| ==>
      r[i] == (if steps[i].id == id then steps[i].(status := st) else steps[i])
  {
    seq(|steps|, i requires 0 <= i < |steps| => if steps[i].id == id then steps[i].(status := st) else steps[i])
  }

  /** The reset update: every step back to pending. */
  function ResetStatuses(steps: seq<Step>): (r: seq<Step>)
    ensures |r| == |steps|
    ensures forall i :: 0 <= i < |steps| ==> r[i] == steps[i].(status := Pending)
  {
    seq(|steps|, i requires 0 <= i < |steps| => steps[i].(status := Pending))
  }

  /** The ids of a step list, in order. */
  function Ids(steps: seq<Step>): (r: seq<string>)
    ensures |r| == |steps|
    ensures forall i :: 0 <= i < |steps| ==> r[i] == steps[i].id
  {
    seq(|steps|, i requires 0 <= i < |steps| => steps[i].id)
  }

  /** The statuses of a step list, in order. */
  function Statuses(steps: seq<Step>): (r: seq<StepStatus>)
    ensures |r| == |steps|
    ensures forall i :: 0 <= i < |steps| ==> r[i] == steps[i].status
  {
    seq(|steps|, i requires 0 <= i < |steps| => steps[i].status)
  }

  /** Status updates keep the list's length, order, ids, names and descriptions. */
  lemma SetStatusKeepsShape(steps: seq<Step>, id: string, st: StepStatus)
    ensures Ids(SetStatus(steps, id, st)) == Ids(steps)
    ensures forall i :: 0 <= i < |steps| ==>
      SetStatus(steps, id, st)[i].name == steps[i].name && SetStatus(steps, id, st)[i].description == steps[i].description
  {
  }

  /** A later update of the same step overrides an earlier one. */
  lemma SetStatusOverrides(steps: seq<Step>, id: string, a: StepStatus, b: StepStatus)
    ensures SetStatus(SetStatus(steps, id, a), id, b) == SetStatus(steps, id, b)
  {
  }

  /** Updates of two different steps can be made in either order. */
  lemma SetStatusCommutes(steps: seq<Step>, id1: string, a: StepStatus, id2: string, b: StepStatus)
    requires id1 != id2
    ensures SetStatus(SetStatus(steps, id1, a), id2, b) == SetStatus(SetStatus(steps, id2, b), id1, a)
  {
  }

  /** An update naming no step changes nothing. */
  lemma SetStatusMissingId(steps: seq<Step>, id: string, st: StepStatus)
    requires id !in Ids(steps)
    ensures SetStatus(steps, id, st) == steps
  {
    var r := SetStatus(steps, id, st);
    forall i | 0 <= i < |steps| ensures r[i] == steps[i] {
      assert Ids(steps)[i] == steps[i].id;
    }
  }

  /** Resetting keeps the steps and leaves every one pending. */
  lemma ResetStatusesShape(steps: seq<Step>)
    ensures Ids(ResetStatuses(steps)) == Ids(steps)
    ensures Statuses(ResetStatuses(steps)) == seq(|steps|, i => Pending)
  {
  }

  /** The three steps of the page with the given statuses. */
  function StepsWith(a: StepStatus, b: StepStatus, c: StepStatus): (r: seq<Step>)
    ensures Statuses(r) == [a, b, c]
    ensures Ids(r) == ["detection", "analysis", "reconstruction"]
  {
    [InitialSteps[0].(status := a), InitialSteps[1].(status := b), InitialSteps[2].(status := c)]
  }

  /** A list of the page's three steps is determined by its statuses. */
  lemma StepsWithOfShape(steps: seq<Step>)
    requires |steps| == 3 && forall i :: 0 <= i < 3 ==> steps[i].(status := Pending) == InitialSteps[i]
    ensures steps == StepsWith(steps[0].status, steps[1].status, steps[2].status)
  {
    forall i | 0 <= i < 3
      ensures steps[i] == StepsWith(steps[0].status, steps[1].status, steps[2].status)[i]
    {
      assert steps[i] == steps[i].(status := Pending).(status := steps[i].status);
    }
  }

  /** Each update of the run touches only the step it names. */
  lemma StepsWithUpdates(a: StepStatus, b: StepStatus, c: StepStatus, x: StepStatus)
    ensures SetStatus(StepsWith(a, b, c), "detection", x) == StepsWith(x, b, c)
    ensures SetStatus(StepsWith(a, b, c), "analysis", x) == StepsWith(a, x, c)
    ensures SetStatus(StepsWith(a, b, c), "reconstruction", x) == StepsWith(a, b, x)
    ensures ResetStatuses(StepsWith(a, b, c)) == InitialSteps
  {
    SetDetection(a, b, c, x);
    SetAnalysis(a, b, c, x);
    SetReconstruction(a, b, c, x);
  }

  lemma SetDetection(a: StepStatus, b: StepStatus, c: StepStatus, x: StepStatus)
    ensures SetStatus(StepsWith(a, b, c), "detection", x) == StepsWith(x, b, c)
  {
    var s := StepsWith(a, b, c);
    assert s[0].id == "detection" && s[1].id == "analysis" && s[2].id == "reconstruction";
  }

  lemma SetAnalysis(a: StepStatus, b: StepStatus, c: StepStatus, x: StepStatus)
    ensures SetStatus(StepsWith(a, b, c), "analysis", x) == StepsWith(a, x, c)
  {
    var s := StepsWith(a, b, c);
    assert s[0].id == "detection" && s[1].id == "analysis" && s[2].id == "reconstruction";
  }

  lemma SetReconstruction(a: StepStatus, b: StepStatus, c: StepStatus, x: StepStatus)
    ensures SetStatus(StepsWith(a, b, c), "reconstruction", x) == StepsWith(a, b, x)
  {
    var s := StepsWith(a, b, c);
    assert s[0].id == "detection" && s[1].id == "analysis" && s[2].id == "reconstruction";
  }

  /** Resetting the page's three steps gives the starting list. */
  lemma ResetOfPageSteps(steps: seq<Step>)
    requires |steps| == 3 && forall i :: 0 <= i < 3 ==> steps[i].(status := Pending) == InitialSteps[i]
    ensures ResetStatuses(steps) == InitialSteps
  {
  }

  // ---------------------------------------------------------------------
  // The download name
  // ---------------------------------------------------------------------

  /** The download's file name: the chosen file's name, or "image" when there is none or it is empty. */
  function DownloadName(selected: Option<File>): (r: string)
    ensures IsPrefix("restored-", r)
    ensures |r| >= 13 && r[|r| - 4..] == ".png"
  {
    var base := if selected.Some? && selected.value.name != "" then selected.value.name else "image";
    var r := "restored-" + base + ".png";
    assert r[..9] == "restored-";
    assert r[|r| - 4..] == ".png";
    r
  }

  /** The chosen file's name can be read back out of the download name. */
  lemma DownloadNameKeepsName(f: File)
    requires f.name != ""
    ensures var r := DownloadName(Some(f)); r[9..|r| - 4] == f.name
  {
    var r := DownloadName(Some(f));
    assert r == "restored-" + f.name + ".png";
    assert r[9..|r| - 4] == f.name;
  }

  /** With no file name to use, the result is called "restored-image.png". */
  lemma DownloadNameFallback(selected: Option<File>)
    requires selected.None? || selected.value.name == ""
    ensures DownloadName(selected) == "restored-image.png"
  {
  }

  /** The download link's target and file name. */
  datatype Link = Link(href: string, fileName: string)

  // ---------------------------------------------------------------------
  // The page's state
  // ---------------------------------------------------------------------

  /**
    The page's state. `modelLoading` is the shared store's flag the page
    raises while processing.
  */
  class Demo {
    var selectedFile: Option<File>
    var previewUrl: Option<string>
    var processedImageUrl: Option<string>
    var isProcessing: bool
    var progress: int
    var error: Option<string>
    var processingSteps: seq<Step>
    var modelLoading: bool

    /** The three steps are always the same three, in the same order, with their names. */
    ghost predicate Valid()
      reads this
    {
      |processingSteps| == 3
      && (forall i :: 0 <= i < 3 ==>
            processingSteps[i].(status := Pending) == InitialSteps[i])
    }

    constructor ()
      ensures selectedFile == None && previewUrl == None && processedImageUrl == None
      ensures !isProcessing && progress == 0 && error == None && !modelLoading
      ensures processingSteps == InitialSteps
      ensures Valid()
    {
      selectedFile := None;
      previewUrl := None;
      processedImageUrl := None;
      isProcessing := false;
      progress := 0;
      error := None;
      processingSteps := InitialSteps;
      modelLoading := false;
    }

    /**
      `handleFileSelect`: a rejected file only sets the error; an accepted
      one becomes the selection, clears the error and the previous result.
      The preview arrives later, from the file reader.
    */
    method HandleFileSelect(f: File)
      modifies this
      ensures CheckFile(f) != Accepted ==>
        error == CheckMessage(CheckFile(f)) && selectedFile == old(selectedFile)
        && processedImageUrl == old(processedImageUrl)
      ensures CheckFile(f) == Accepted ==>
        selectedFile == Some(f) && error == None && processedImageUrl == None
      ensures previewUrl == old(previewUrl) && processingSteps == old(processingSteps)
      ensures progress == old(progress) && isProcessing == old(isProcessing) && modelLoading == old(modelLoading)
    {
      if !IsPrefix("image/", f.mimeType) {
        error := Some(NotAnImageMessage);
        return;
      }
      if f.size > MaxFileSize {
        error := Some(TooLargeMessage);
        return;
      }
      selectedFile := Some(f);
      error := None;
      processedImageUrl := None;
    }

    /** `handleDrop`: the first dropped file, if any, goes through the same checks. */
    method HandleDrop(files: seq<File>)
      modifies this
      ensures files == [] ==>
        selectedFile == old(selectedFile) && error == old(error) && processedImageUrl == old(processedImageUrl)
      ensures files != [] && CheckFile(files[0]) == Accepted ==>
        selectedFile == Some(files[0]) && error == None && processedImageUrl == None
      ensures files != [] && CheckFile(files[0]) != Accepted ==>
        selectedFile == old(selectedFile) && error == CheckMessage(CheckFile(files[0]))
        && processedImageUrl == old(processedImageUrl)
      ensures previewUrl == old(previewUrl) && processingSteps == old(processingSteps)
      ensures progress == old(progress) && isProcessing == old(isProcessing) && modelLoading == old(modelLoading)
    {
      if |files| > 0 {
        HandleFileSelect(files[0]);
      }
    }

    /** The file reader's load event: the preview shows the data URL it produced. */
    method PreviewLoaded(dataUrl: string)
      modifies this
      ensures previewUrl == Some(dataUrl)
      ensures selectedFile == old(selectedFile) && processedImageUrl == old(processedImageUrl) && error == old(error)
      ensures processingSteps == old(processingSteps)
      ensures progress == old(progress) && isProcessing == old(isProcessing) && modelLoading == old(modelLoading)
    {
      previewUrl := Some(dataUrl);
    }

    /**
      `processImage` up to its first timer: processing starts, the error is
      cleared, every step goes back to pending and detection starts.
    */
    method StartRun()
      requires Valid()
      modifies this
      ensures processingSteps == StepsWith(Processing, Pending, Pending)
      ensures isProcessing && modelLoading && progress == 20 && error == None
      ensures selectedFile == old(selectedFile) && previewUrl == old(previewUrl)
      ensures processedImageUrl == old(processedImageUrl)
    {
      isProcessing := true;
      modelLoading := true;
      progress := 0;
      error := None;
      ResetOfPageSteps(processingSteps);
      StepsWithUpdates(Pending, Pending, Pending, Processing);
      assert StepsWith(Pending, Pending, Pending) == InitialSteps;
      processingSteps := ResetStatuses(processingSteps);
      processingSteps := SetStatus(processingSteps, "detection", Processing);
      progress := 20;
    }

    /** After the first timer: detection completes and analysis starts. */
    method AfterDetection()
      requires processingSteps == StepsWith(Processing, Pending, Pending)
      modifies this
      ensures processingSteps == StepsWith(Completed, Processing, Pending)
      ensures progress == 50
      ensures isProcessing == old(isProcessing) && modelLoading == old(modelLoading) && error == old(error)
      ensures selectedFile == old(selectedFile) && previewUrl == old(previewUrl)
      ensures processedImageUrl == old(processedImageUrl)
    {
      StepsWithUpdates(Processing, Pending, Pending, Completed);
      StepsWithUpdates(Completed, Pending, Pending, Processing);
      processingSteps := SetStatus(processingSteps, "detection", Completed);
      processingSteps := SetStatus(processingSteps, "analysis", Processing);
      progress := 50;
    }

    /** After the second timer: analysis completes and reconstruction starts. */
    method AfterAnalysis()
      requires processingSteps == StepsWith(Completed, Processing, Pending)
      modifies this
      ensures processingSteps == StepsWith(Completed, Completed, Processing)
      ensures progress == 80
      ensures isProcessing == old(isProcessing) && modelLoading == old(modelLoading) && error == old(error)
      ensures selectedFile == old(selectedFile) && previewUrl == old(previewUrl)
      ensures processedImageUrl == old(processedImageUrl)
    {
      StepsWithUpdates(Completed, Processing, Pending, Completed);
      StepsWithUpdates(Completed, Completed, Pending, Processing);
      processingSteps := SetStatus(processingSteps, "analysis", Completed);
      processingSteps := SetStatus(processingSteps, "reconstruction", Processing);
      progress := 80;
    }

    /**
      When the restoration model settles: on success its result is shown,
      reconstruction completes and progress reaches 100; on failure the
      error is shown. Either way processing ends.
    */
    method Settle(aiResult: Option<string>)
      requires processingSteps == StepsWith(Completed, Completed, Processing)
      modifies this
      ensures !isProcessing && !modelLoading
      ensures aiResult.Some? ==>
        processedImageUrl == aiResult && processingSteps == StepsWith(Completed, Completed, Completed)
        && progress == 100 && error == old(error)
      ensures aiResult.None? ==>
        processedImageUrl == old(processedImageUrl) && processingSteps == old(processingSteps)
        && progress == old(progress) && error == Some(ProcessingFailedMessage)
      ensures selectedFile == old(selectedFile) && previewUrl == old(previewUrl)
    {
      if aiResult.Some? {
        processedImageUrl := aiResult;
        StepsWithUpdates(Completed, Completed, Processing, Completed);
        processingSteps := SetStatus(processingSteps, "reconstruction", Completed);
        progress := 100;
      } else {
        error := Some(ProcessingFailedMessage);
      }
      isProcessing := false;
      modelLoading := false;
    }

    /**
      `processImage`, with the restoration model's outcome given as `aiResult`
      (`None` when it fails). `trace` lists the values the progress bar is set
      to, in order.
    */
    method ProcessImage(aiResult: Option<string>) returns (trace: seq<int>)
      requires Valid()
      modifies this
      ensures Valid()
      ensures old(selectedFile).None? ==>
        trace == [] && processingSteps == old(processingSteps) && progress == old(progress)
        && isProcessing == old(isProcessing) && error == old(error) && processedImageUrl == old(processedImageUrl)
        && modelLoading == old(modelLoading)
      ensures old(selectedFile).Some? ==> !isProcessing && !modelLoading
      ensures old(selectedFile).Some? && aiResult.Some? ==>
        trace == [0, 20, 50, 80, 100] && progress == 100 && error == None
        && processedImageUrl == aiResult
        && Statuses(processingSteps) == [Completed, Completed, Completed]
      ensures old(selectedFile).Some? && aiResult.None? ==>
        trace == [0, 20, 50, 80] && progress == 80 && error == Some(ProcessingFailedMessage)
        && processedImageUrl == old(processedImageUrl)
        && Statuses(processingSteps) == [Completed, Completed, Processing]
      ensures selectedFile == old(selectedFile) && previewUrl == old(previewUrl)
    {
      if selectedFile.None? {
        return [];
      }
      StartRun();
      trace := [0, progress];
      AfterDetection();
      trace := trace + [progress];
      AfterAnalysis();
      trace := trace + [progress];
      Settle(aiResult);
      if aiResult.Some? {
        trace := trace + [progress];
      }
    }

    /** `downloadResult`: nothing without a result; otherwise a link to it under the download name. */
    method DownloadResult() returns (link: Option<Link>)
      ensures processedImageUrl.None? || processedImageUrl.value == "" ==> link.None?
      ensures processedImageUrl.Some? && processedImageUrl.value != "" ==>
        link == Some(Link(processedImageUrl.value, DownloadName(selectedFile)))
    {
      if processedImageUrl.None? || processedImageUrl.value == "" {
        return None;
      }
      return Some(Link(processedImageUrl.value, DownloadName(selectedFile)));
    }

    /** `resetDemo`: back to the starting state, keeping the step list. */
    method ResetDemo()
      requires Valid()
      modifies this
      ensures selectedFile == None && previewUrl == None && processedImageUrl == None
      ensures !isProcessing && progress == 0 && error == None
      ensures processingSteps == InitialSteps
      ensures modelLoading == old(modelLoading)
      ensures Valid()
    {
      selectedFile := None;
      previewUrl := None;
      processedImageUrl := None;
      isProcessing := false;
      progress := 0;
      error := None;
      processingSteps := ResetStatuses(processingSteps);
      assert forall i :: 0 <= i < 3 ==> processingSteps[i] == InitialSteps[i];
    }
  }
}
