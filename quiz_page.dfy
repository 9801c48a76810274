/**
 * pages/Quiz.tsx: the quiz solver page. The student gives a name and the
 * question as text, as a picture, or both. `handleSolve` checks that, calls
 * the credit guard, and waits for the answer; on failure it shows its own
 * fixed message, never the thrown one.
 *
 * The reply, the number of timer ticks before it came, and what the credit
 * call handed back are parameters; reading the picture is not modelled.
 */
module QuizPage {
  import opened Common
  import opened Text
  import opened Generation
  import WordExport

  class Quiz {
    var name: string
    var questionText: string
    var questionImage: Option<UploadedFile>
    /** `useState('')`: the answer is a string, empty while there is none. */
    var result: string
    var isLoading: bool
    var progressStage: nat
    /** How many times the page has called `onDeductCredits`. */
    var deductCalls: nat

    constructor()
      ensures name == "" && questionText == "" && questionImage.None?
      ensures result == "" && !isLoading && progressStage == 0 && deductCalls == 0
    {
      name := "";
      questionText := "";
      questionImage := None;
      result := "";
      isLoading := false;
      progressStage := 0;
      deductCalls := 0;
    }

    /** `handleFileChange` on the question-picture input: the first picked file replaces the picture; no file, no change. */
    method HandleFileChange(files: seq<UploadedFile>)
      modifies this`questionImage
      ensures |files| > 0 ==> questionImage == Some(files[0])
      ensures |files| == 0 ==> questionImage == old(questionImage)
    {
      if |files| > 0 {
        questionImage := Some(files[0]);
      }
    }

    /** The check `(!data.questionText && !data.questionImage) || !data.name` does not stop the solve. */
    predicate InputsComplete()
      reads this`name, this`questionText, this`questionImage
    {
      Solvable(name, questionText, questionImage)
    }

    /**
     * `handleSolve`: the answer is cleared when the solve starts and holds
     * the reply when it ends; a failure shows the page's fixed message.
     */
    method HandleSolve(deduct: Returned, reply: Result<string, string>, ticks: nat) returns (outcome: Outcome)
      modifies this`isLoading, this`result, this`progressStage, this`deductCalls
      ensures !InputsComplete() ==> outcome == Refused(MissingInput) && deductCalls == old(deductCalls)
      ensures InputsComplete() ==> deductCalls == old(deductCalls) + 1
      ensures InputsComplete() && GuardStops(deduct) ==> outcome == Refused(NoCredit)
      ensures outcome.Refused? ==>
        isLoading == old(isLoading) && result == old(result) && progressStage == old(progressStage)
      ensures deduct.Pending? ==> (outcome.Refused? <==> !InputsComplete())
      ensures InputsComplete() && !GuardStops(deduct) && reply.Success? ==>
        outcome == Generated(reply.value) && result == reply.value && progressStage == LAST_STAGE && !isLoading
      ensures InputsComplete() && !GuardStops(deduct) && reply.Failure? ==>
        outcome == Failed(SolveFailed) && result == "" && progressStage == Min(ticks, LAST_STAGE) && !isLoading
    {
      if !Solvable(name, questionText, questionImage) {
        return Refused(MissingInput);
      }
      deductCalls := deductCalls + 1;
      if GuardStops(deduct) {
        return Refused(NoCredit);
      }
      isLoading := true;
      result := "";
      progressStage := 0;
      match reply {
        case Success(answer) =>
          progressStage := LAST_STAGE;
          result := answer;
          outcome := Generated(answer);
        case Failure(_) =>
          progressStage := StageAfter(ticks);
          StageAfterCounts(ticks);
          outcome := Failed(SolveFailed);
      }
      isLoading := false;
    }
  }

  /** A name, and the question as text or as a picture. */
  predicate Solvable(name: string, questionText: string, questionImage: Option<UploadedFile>) {
    (questionText != "" || questionImage.Some?) && name != ""
  }

  /** `Question: ${data.questionText || "See image."}` in the prompt. */
  function QuestionLine(questionText: string): (r: string)
    ensures r != ""
  {
    Generation.OrElse(questionText, "See image.")
  }

  /**
   * When a solve is let through without question text, a picture is
   * attached and the prompt points the model at it; with text, the prompt
   * quotes it as typed.
   */
  lemma PromptPointsAtPicture(name: string, questionText: string, questionImage: Option<UploadedFile>)
    requires Solvable(name, questionText, questionImage)
    ensures questionText == "" ==> questionImage.Some? && QuestionLine(questionText) == "See image."
    ensures questionText != "" ==> QuestionLine(questionText) == questionText
  {
  }

  // ---------------------------------------------------------------------------
  // Download names

  /** `${data.name || 'Quiz'}-Solution` */
  function Stem(name: string): string {
    Generation.OrElse(name, "Quiz") + "-Solution"
  }

  /** The name of the PDF download and of the Word download. */
  function DownloadName(name: string, f: Format): string {
    Stem(name) + Extension(f)
  }

  /**
   * Both downloads carry the same stem, which ends in '-Solution'; the Word
   * export keeps the Word name as it is; without a name the stem is
   * 'Quiz-Solution'.
   */
  lemma DownloadNames(name: string)
    ensures var doc := DownloadName(name, Doc);
      WordExport.DocName(doc) == doc && EndsWith(DownloadName(name, Pdf), ".pdf")
    ensures DownloadName(name, Pdf)[..|Stem(name)|] == DownloadName(name, Doc)[..|Stem(name)|]
    ensures EndsWith(Stem(name), "-Solution")
    ensures name == "" ==> Stem(name) == "Quiz-Solution"
  {
    var stem := Stem(name);
    FormatsShareStem(stem);
    assert stem[|stem| - 9..] == "-Solution";
  }
}
