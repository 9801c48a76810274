/**
 * pages/Sheet.tsx: the worksheet solver page. The student gives a name and
 * uploads the sheet as a picture or a PDF. `handleGenerate` checks the name,
 * then the file, then asks the account store whether the free trial of the
 * sheet feature may be used, and only then calls the credit guard. The
 * progress indicator shows stage 4 and "complete" once an answer is there.
 *
 * The account store is the in-memory `Auth.Backend`; the reply and what the
 * credit call handed back are parameters; reading the picture as a data URL
 * is a parameter of the file change.
 */
module SheetPage {
  import opened Common
  import opened Text
  import opened Generation
  import Auth
  import Progress
  import WordExport

  /** The number of stages the page's indicator lists. */
  const INDICATOR_STAGES: nat := 4

  class Sheet {
    var name: string
    var sheetFile: Option<UploadedFile>
    /** A data URL for a picture, 'pdf' for a PDF. */
    var sheetPreview: Option<string>
    var isLoading: bool
    var result: Option<string>
    var progressStage: nat
    /** How many times the page has called `onDeductCredits`. */
    var deductCalls: nat
    const backend: Auth.Backend

    constructor(backend: Auth.Backend)
      ensures this.backend == backend
      ensures name == "" && sheetFile.None? && sheetPreview.None?
      ensures !isLoading && result.None? && progressStage == 0 && deductCalls == 0
    {
      this.backend := backend;
      name := "";
      sheetFile := None;
      sheetPreview := None;
      isLoading := false;
      result := None;
      progressStage := 0;
      deductCalls := 0;
    }

    /**
     * `handleFileChange`: the first picked file is kept; a picture's preview
     * is its data URL, a PDF's is the 'pdf' marker, and any other type
     * keeps the preview it had.
     */
    method HandleFileChange(files: seq<UploadedFile>, dataUrl: string)
      modifies this`sheetFile, this`sheetPreview
      ensures |files| == 0 ==> sheetFile == old(sheetFile) && sheetPreview == old(sheetPreview)
      ensures |files| > 0 ==> sheetFile == Some(files[0]) && sheetPreview == PreviewAfter(files[0], dataUrl, old(sheetPreview))
    {
      if |files| > 0 {
        var file := files[0];
        sheetFile := Some(file);
        if StartsWith(file.mimeType, "image/") {
          sheetPreview := Some(dataUrl);
        } else if file.mimeType == "application/pdf" {
          sheetPreview := Some("pdf");
        }
      }
    }

    /** The two input checks of `handleGenerate`, in order. */
    function Checks(): seq<Check>
      reads this`name, this`sheetFile
    {
      [Check(name != "", MissingName), Check(sheetFile.Some?, MissingFile)]
    }

    /**
     * `handleGenerate`. A missing name is reported before a missing file.
     * With a signed-in profile the trial check runs next and a refusal stops
     * before the credit guard; with none the check is skipped. The stage is
     * set to the last one before the reply is awaited.
     */
    method HandleGenerate(deduct: Returned, reply: Result<string, string>) returns (outcome: Outcome)
      modifies this`isLoading, this`result, this`progressStage, this`deductCalls, backend`profiles
      ensures var failure := FirstFailure(old(Checks()));
        failure.Some? ==>
          outcome == Refused(failure.value) && deductCalls == old(deductCalls) && backend.profiles == old(backend.profiles)
      ensures var user := old(backend.CurrentProfile());
        FirstFailure(old(Checks())).None? && user.Some? ==>
          (var d := Auth.DecideTrial(user, Auth.SheetFeature);
           (!d.allowed ==> outcome == Refused(TrialUsed) && deductCalls == old(deductCalls))
           && (d.mark && user.value.id in old(backend.profiles) ==>
                 backend.profiles == old(backend.profiles)[user.value.id := Auth.MarkTrial(old(backend.profiles)[user.value.id], Auth.SheetFeature)])
           && (!(d.mark && user.value.id in old(backend.profiles)) ==> backend.profiles == old(backend.profiles)))
      ensures FirstFailure(old(Checks())).None? && old(backend.CurrentProfile()).None? ==>
        backend.profiles == old(backend.profiles)
      ensures var passes := FirstFailure(old(Checks())).None? && Auth.PageMayProceed(old(backend.CurrentProfile()), Auth.SheetFeature);
        (passes ==> deductCalls == old(deductCalls) + 1)
        && (passes && GuardStops(deduct) ==> outcome == Refused(NoCredit))
        && (passes && !GuardStops(deduct) && reply.Success? ==>
              outcome == Generated(reply.value) && result == Some(reply.value) && progressStage == LAST_STAGE && !isLoading)
        && (passes && !GuardStops(deduct) && reply.Failure? ==>
              outcome == Failed(Shown(reply.error)) && result.None? && progressStage == LAST_STAGE && !isLoading)
      ensures outcome.Refused? ==>
        isLoading == old(isLoading) && result == old(result) && progressStage == old(progressStage)
    {
      var failure := FirstFailure([Check(name != "", MissingName), Check(sheetFile.Some?, MissingFile)]);
      if failure.Some? {
        return Refused(failure.value);
      }
      var user := backend.CurrentProfile();
      if user.Some? {
        var allowed := backend.CheckAndMarkTrial(user.value.id, Auth.SheetFeature);
        if !allowed {
          return Refused(TrialUsed);
        }
      }
      deductCalls := deductCalls + 1;
      if GuardStops(deduct) {
        return Refused(NoCredit);
      }
      isLoading := true;
      result := None;
      progressStage := 0;
      progressStage := LAST_STAGE;
      match reply {
        case Success(answer) =>
          result := Some(answer);
          outcome := Generated(answer);
        case Failure(message) =>
          outcome := Failed(Shown(message));
      }
      isLoading := false;
    }

    /** `currentStage={result ? 4 : progressStage}` and `isComplete={!!result}`. */
    function Indicator(): IndicatorState
      reads this`result, this`progressStage
    {
      IndicatorOf(result, progressStage)
    }
  }

  /** The preview after a file of this type was picked. */
  function PreviewAfter(file: UploadedFile, dataUrl: string, previous: Option<string>): (r: Option<string>)
    ensures StartsWith(file.mimeType, "image/") ==> r == Some(dataUrl)
    ensures file.mimeType == "application/pdf" ==> r == Some("pdf")
    ensures !StartsWith(file.mimeType, "image/") && file.mimeType != "application/pdf" ==> r == previous
  {
    PdfIsNotImage();
    if StartsWith(file.mimeType, "image/") then Some(dataUrl)
    else if file.mimeType == "application/pdf" then Some("pdf")
    else previous
  }

  lemma PdfIsNotImage()
    ensures !StartsWith("application/pdf", "image/")
  {
    assert "application/pdf"[0] != "image/"[0];
  }

  /** An answer counts when it is a non-empty string. */
  predicate HasAnswer(result: Option<string>) {
    result.Some? && result.value != ""
  }

  /** What the page passes to the progress indicator. */
  datatype IndicatorState = IndicatorState(current: nat, complete: bool)

  function IndicatorOf(result: Option<string>, stage: nat): IndicatorState {
    if HasAnswer(result) then IndicatorState(INDICATOR_STAGES, true) else IndicatorState(stage, false)
  }

  /**
   * With an answer every one of the four stages is shown completed and
   * none current; without one, while the stage is at most the last timer
   * stage, the stages before it are completed and exactly one is current,
   * so its message is shown.
   */
  lemma IndicatorStatuses(result: Option<string>, stage: nat)
    requires stage <= LAST_STAGE
    ensures var shown := IndicatorOf(result, stage);
      var flags := Progress.Statuses(INDICATOR_STAGES, shown.current, shown.complete);
      (HasAnswer(result) ==> Progress.CountCompleted(flags) == INDICATOR_STAGES && Progress.CountCurrent(flags) == 0)
      && (!HasAnswer(result) ==>
            Progress.CountCompleted(flags) == stage && Progress.CountCurrent(flags) == 1
            && Progress.ShowsStageMessage(shown.current, INDICATOR_STAGES, shown.complete))
  {
    var shown := IndicatorOf(result, stage);
    Progress.CompletedCount(INDICATOR_STAGES, shown.current, shown.complete);
    Progress.CurrentCount(INDICATOR_STAGES, shown.current, shown.complete);
  }

  // ---------------------------------------------------------------------------
  // Download names

  /** `${data.name || 'Sheet'}-Solution` */
  function Stem(name: string): string {
    Generation.OrElse(name, "Sheet") + "-Solution"
  }

  /** The name of the PDF download and of the Word download. */
  function DownloadName(name: string, f: Format): string {
    Stem(name) + Extension(f)
  }

  /**
   * Both downloads carry the same stem, which ends in '-Solution'; the Word
   * export keeps the Word name as it is; without a name the stem is
   * 'Sheet-Solution'.
   */
  lemma DownloadNames(name: string)
    ensures var doc := DownloadName(name, Doc);
      WordExport.DocName(doc) == doc && EndsWith(DownloadName(name, Pdf), ".pdf")
    ensures DownloadName(name, Pdf)[..|Stem(name)|] == DownloadName(name, Doc)[..|Stem(name)|]
    ensures EndsWith(Stem(name), "-Solution")
    ensures name == "" ==> Stem(name) == "Sheet-Solution"
  {
    var stem := Stem(name);
    FormatsShareStem(stem);
    assert stem[|stem| - 9..] == "-Solution";
  }
}
