/**
 * pages/Assignment.tsx: the assignment generator page. Its state is the
 * form (student name, subject, topic), the pictures picked for the text, and
 * what the generation left behind: the loading flag, the result, and the
 * progress stage. `handleGenerate` checks the form, calls the credit guard,
 * and then waits for the model's reply while a timer advances the stage.
 *
 * The reply, the number of timer ticks before it came, and what the credit
 * call handed back are parameters; the prompt text is not modelled.
 */
module AssignmentPage {
  import opened Common
  import opened Text
  import opened Generation
  import opened ImageSelection
  import WordExport

  class Assignment {
    var name: string
    var subject: string
    var topic: string
    /** The pictures: at most three, and a successful batch keeps the ticked candidates. */
    const images: ImagePicker
    var isLoading: bool
    var result: Option<string>
    var progressStage: nat
    /** How many times the page has called `onDeductCredits`. */
    var deductCalls: nat

    constructor()
      ensures name == "" && subject == "" && topic == ""
      ensures fresh(images) && images.cap == DOCUMENT_IMAGE_CAP && !images.clearsCandidates
      ensures images.selected == [] && images.candidates == []
      ensures !isLoading && result.None? && progressStage == 0 && deductCalls == 0
    {
      name := "";
      subject := "";
      topic := "";
      images := new ImagePicker(DOCUMENT_IMAGE_CAP, false);
      isLoading := false;
      result := None;
      progressStage := 0;
      deductCalls := 0;
    }

    /** The form check `!data.name || !data.subject || !topic` passes. */
    predicate InputsComplete()
      reads this`name, this`subject, this`topic
    {
      name != "" && subject != "" && topic != ""
    }

    /**
     * `handleGenerate`. An incomplete form stops before the credit call; a
     * guard that stops leaves everything else as it was; otherwise the
     * result is cleared and replaced by the reply, or the stage the timer
     * reached stays shown with the error.
     */
    method HandleGenerate(deduct: Returned, reply: Result<string, string>, ticks: nat) returns (outcome: Outcome)
      modifies this`isLoading, this`result, this`progressStage, this`deductCalls
      ensures !InputsComplete() ==> outcome == Refused(MissingInput) && deductCalls == old(deductCalls)
      ensures InputsComplete() ==> deductCalls == old(deductCalls) + 1
      ensures InputsComplete() && GuardStops(deduct) ==> outcome == Refused(NoCredit)
      ensures outcome.Refused? ==>
        isLoading == old(isLoading) && result == old(result) && progressStage == old(progressStage)
      ensures deduct.Pending? ==> (outcome.Refused? <==> !InputsComplete())
      ensures InputsComplete() && !GuardStops(deduct) && reply.Success? ==>
        outcome == Generated(reply.value) && result == Some(reply.value) && progressStage == LAST_STAGE && !isLoading
      ensures InputsComplete() && !GuardStops(deduct) && reply.Failure? ==>
        outcome == Failed(Shown(reply.error)) && result.None? && progressStage == Min(ticks, LAST_STAGE) && !isLoading
    {
      if !(name != "" && subject != "" && topic != "") {
        return Refused(MissingInput);
      }
      deductCalls := deductCalls + 1;
      if GuardStops(deduct) {
        return Refused(NoCredit);
      }
      isLoading := true;
      result := None;
      progressStage := 0;
      match reply {
        case Success(text) =>
          progressStage := LAST_STAGE;
          result := Some(text);
          outcome := Generated(text);
        case Failure(message) =>
          progressStage := StageAfter(ticks);
          StageAfterCounts(ticks);
          outcome := Failed(Shown(message));
      }
      isLoading := false;
    }
  }

  // ---------------------------------------------------------------------------
  // Download names

  /** `${data.name || 'Assignment'}-${topic.replace(/\s+/g, '_')}` */
  function Stem(name: string, topic: string): (r: string)
    ensures |r| > 0
  {
    Generation.OrElse(name, "Assignment") + "-" + Underscored(topic)
  }

  /** The name of the PDF download and of the Word download. */
  function DownloadName(name: string, topic: string, f: Format): string {
    Stem(name, topic) + Extension(f)
  }

  /**
   * Both downloads carry the same stem; the Word name already ends in
   * '.doc', so the Word export saves it under exactly that name; without a
   * student name the stem starts with 'Assignment-'.
   */
  lemma DownloadNames(name: string, topic: string)
    ensures var doc := DownloadName(name, topic, Doc);
      WordExport.DocName(doc) == doc && EndsWith(DownloadName(name, topic, Pdf), ".pdf")
    ensures DownloadName(name, topic, Pdf)[..|Stem(name, topic)|] == DownloadName(name, topic, Doc)[..|Stem(name, topic)|]
    ensures name == "" ==> StartsWith(Stem(name, topic), "Assignment-")
  {
    var stem := Stem(name, topic);
    FormatsShareStem(stem);
    var head := Generation.OrElse(name, "Assignment") + "-";
    assert stem == head + Underscored(topic);
    if name == "" {
      assert stem[..11] == head;
    }
  }
}
