/**
 * pages/Report.tsx: the report generator page. It differs from the
 * assignment page in its form check (no subject is needed), in how its
 * result is laid out (numbered sections, `Blocks.FormatReport`) and in its
 * download names, which replace white space in the student name as well.
 *
 * The random design picked before each generation is not modelled.
 */
module ReportPage {
  import opened Common
  import opened Text
  import opened Generation
  import opened ImageSelection
  import WordExport

  class Report {
    var name: string
    var topic: string
    /** The pictures: at most three, and a successful batch keeps the ticked candidates. */
    const images: ImagePicker
    var isLoading: bool
    var result: Option<string>
    var progressStage: nat
    /** How many times the page has called `onDeductCredits`. */
    var deductCalls: nat

    constructor()
      ensures name == "" && topic == ""
      ensures fresh(images) && images.cap == DOCUMENT_IMAGE_CAP && !images.clearsCandidates
      ensures images.selected == [] && images.candidates == []
      ensures !isLoading && result.None? && progressStage == 0 && deductCalls == 0
    {
      name := "";
      topic := "";
      images := new ImagePicker(DOCUMENT_IMAGE_CAP, false);
      isLoading := false;
      result := None;
      progressStage := 0;
      deductCalls := 0;
    }

    /** The form check `!data.name || !topic` passes; the subject is not looked at. */
    predicate InputsComplete()
      reads this`name, this`topic
    {
      name != "" && topic != ""
    }

    /**
     * `handleGenerate`: the same steps as the assignment page's, after the
     * report's own form check.
     */
    method HandleGenerate(deduct: Returned, reply: Result<string, string>, ticks: nat) returns (outcome: Outcome)
      modifies this`isLoading, this`result, this`progressStage, this`deductCalls
      ensures !InputsComplete() ==> outcome == Refused(MissingInput) && deductCalls == old(deductCalls)
      ensures InputsComplete() ==> deductCalls == old(deductCalls) + 1
      ensures InputsComplete() && GuardStops(deduct) ==> outcome == Refused(NoCredit)
      ensures outcome.Refused? ==>
        isLoading == old(isLoading) && result == old(result) && progressStage == old(progressStage)
      ensures deduct.Pending? ==> (outcome.Refused? <==> !InputsComplete())
      ensures InputsComplete() && !GuardStops(deduct) && reply.Success? ==>
        outcome == Generated(reply.value) && result == Some(reply.value) && progressStage == LAST_STAGE && !isLoading
      ensures InputsComplete() && !GuardStops(deduct) && reply.Failure? ==>
        outcome == Failed(Shown(reply.error)) && result.None? && progressStage == Min(ticks, LAST_STAGE) && !isLoading
    {
      if !(name != "" && topic != "") {
        return Refused(MissingInput);
      }
      deductCalls := deductCalls + 1;
      if GuardStops(deduct) {
        return Refused(NoCredit);
      }
      isLoading := true;
      result := None;
      progressStage := 0;
      match reply {
        case Success(text) =>
          progressStage := LAST_STAGE;
          result := Some(text);
          outcome := Generated(text);
        case Failure(message) =>
          progressStage := StageAfter(ticks);
          StageAfterCounts(ticks);
          outcome := Failed(Shown(message));
      }
      isLoading := false;
    }
  }

  // ---------------------------------------------------------------------------
  // Download names

  /** `Report-${data.name.replace(/\s+/g, '_') || 'Report'}-${topic.replace(/\s+/g, '_')}` */
  function Stem(name: string, topic: string): string {
    "Report-" + Generation.OrElse(Underscored(name), "Report") + "-" + Underscored(topic)
  }

  /** The name of the PDF download and of the Word download. */
  function DownloadName(name: string, topic: string, f: Format): string {
    Stem(name, topic) + Extension(f)
  }

  /** The fixed pieces of the report's names hold no white space. */
  lemma FixedPiecesClean()
    ensures NoWhitespace("Report-") && NoWhitespace("Report") && NoWhitespace("-")
    ensures NoWhitespace(".pdf") && NoWhitespace(".doc")
  {
  }

  /**
   * Whatever the student typed, a report's download name holds no white
   * space; both downloads carry the same stem, and the Word export keeps
   * the Word name as it is. A name that is only white space becomes '_',
   * so the 'Report' fallback is taken only for an empty name.
   */
  lemma DownloadNames(name: string, topic: string)
    ensures NoWhitespace(DownloadName(name, topic, Pdf)) && NoWhitespace(DownloadName(name, topic, Doc))
    ensures var doc := DownloadName(name, topic, Doc);
      WordExport.DocName(doc) == doc && EndsWith(DownloadName(name, topic, Pdf), ".pdf")
    ensures DownloadName(name, topic, Pdf)[..|Stem(name, topic)|] == DownloadName(name, topic, Doc)[..|Stem(name, topic)|]
    ensures Generation.OrElse(Underscored(name), "Report") == (if name == "" then "Report" else Underscored(name))
  {
    var stem := Stem(name, topic);
    FormatsShareStem(stem);
    FixedPiecesClean();
    UnderscoredEmptyIff(name);
    var who := Generation.OrElse(Underscored(name), "Report");
    NoWhitespaceConcat("Report-", who);
    NoWhitespaceConcat("Report-" + who, "-");
    NoWhitespaceConcat("Report-" + who + "-", Underscored(topic));
    NoWhitespaceConcat(stem, ".pdf");
    NoWhitespaceConcat(stem, ".doc");
  }
}
