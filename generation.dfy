/**
 * What the five generator pages share: the ordered input checks made before
 * anything is charged, the credit guard `if (!onDeductCredits()) return;`,
 * the simulated progress stage, what the user is told when the reply fails,
 * and the shape of the download names.
 */
module Generation {
  import opened Common
  import opened Text

  // ---------------------------------------------------------------------------
  // Ordered checks

  /** Why a page stopped before starting a generation: an input check, the trial check, or the credit guard. */
  datatype Refusal = MissingInput | MissingName | MissingFile | TrialUsed | NoCredit

  /** One early-return test of a handler: whether it passes, and what is reported when it does not. */
  datatype Check = Check(passes: bool, refusal: Refusal)

  /** The refusal of the first check that fails, tried in order; none when every check passes. */
  function FirstFailure(checks: seq<Check>): (r: Option<Refusal>)
    ensures r.None? <==> forall k :: 0 <= k < |checks| ==> checks[k].passes
    ensures r.Some? ==> exists k :: (0 <= k < |checks| && !checks[k].passes && checks[k].refusal == r.value
      && forall j :: 0 <= j < k ==> checks[j].passes)
  {
    if |checks| == 0 then None
    else if !checks[0].passes then Some(checks[0].refusal)
    else
      var r := FirstFailure(checks[1..]);
      assert forall k :: 1 <= k < |checks| ==> checks[k] == checks[1..][k - 1];
      if r.Some? then
        var k :| (0 <= k < |checks[1..]| && !checks[1..][k].passes && checks[1..][k].refusal == r.value
          && forall j :: 0 <= j < k ==> checks[1..][j].passes);
        assert !checks[k + 1].passes && checks[k + 1].refusal == r.value;
        assert forall j :: 0 <= j < k + 1 ==> checks[j].passes by {
          forall j | 0 <= j < k + 1 ensures checks[j].passes {
            if j > 0 {
              assert checks[j] == checks[1..][j - 1];
            }
          }
        }
        r
      else r
  }

  /** A check that fails decides the outcome whatever the checks after it say. */
  lemma {:induction false} FailureShadowsLater(first: seq<Check>, c: Check, rest: seq<Check>)
    requires forall k :: 0 <= k < |first| ==> first[k].passes
    requires !c.passes
    ensures FirstFailure(first + [c] + rest) == Some(c.refusal)
  {
    if |first| > 0 {
      assert (first + [c] + rest)[1..] == first[1..] + [c] + rest;
      FailureShadowsLater(first[1..], c, rest);
    } else {
      assert first + [c] + rest == [c] + rest;
    }
  }

  // ---------------------------------------------------------------------------
  // The credit guard

  /** What a call of `onDeductCredits` hands back to the page. */
  datatype Returned = Plain(b: bool) | Pending(settlesTo: bool)

  /** JavaScript truthiness of the returned value: a promise object is truthy whatever it settles to. */
  predicate Truthy(v: Returned) {
    match v
    case Plain(b) => b
    case Pending(_) => true
  }

  /**
   * The application shell's deduction handler is declared `async`, so what
   * the page receives is a promise of the decision, never the decision.
   */
  function DeductCall(allowed: bool): (v: Returned)
    ensures v.Pending? && v.settlesTo == allowed
  {
    Pending(allowed)
  }

  /** `if (!onDeductCredits()) return;` on whatever the call handed back. */
  predicate GuardStops(v: Returned) {
    !Truthy(v)
  }

  /** `!onDeductCredits()` as the pages write it, with the shell's handler behind it. */
  predicate GuardStopsAsWritten(allowed: bool) {
    GuardStops(DeductCall(allowed))
  }

  /** The guard as written never stops a generation, not even when no credit was deducted. */
  lemma AsyncGuardNeverStops(allowed: bool)
    ensures !GuardStopsAsWritten(allowed)
  {
  }

  /** The value a returned promise settles to. */
  function Settled(v: Returned): bool {
    match v
    case Plain(b) => b
    case Pending(b) => b
  }

  /** `if (!(await onDeductCredits())) return;`: the guard the pages evidently intend. */
  predicate GuardStopsAwaited(allowed: bool) {
    !Settled(DeductCall(allowed))
  }

  /** The awaited guard stops exactly when the deduction was refused. */
  lemma AwaitedGuardStopsIffRefused(allowed: bool)
    ensures GuardStopsAwaited(allowed) <==> !allowed
  {
  }

  /** A refused deduction: the guard as written lets the generation run, the awaited one stops it. */
  lemma GuardsDisagreeOnRefusal()
    ensures !GuardStopsAsWritten(false) && GuardStopsAwaited(false)
  {
  }

  /** A file picked in a file input: its name and its MIME type (`file.type`). */
  datatype UploadedFile = UploadedFile(name: string, mimeType: string)

  // ---------------------------------------------------------------------------
  // Simulated progress

  /** The stage the progress timer stops at while the reply is awaited. */
  const LAST_STAGE: nat := 3

  /** One tick of the progress timer: `Math.min(prev + 1, 3)`. */
  function NextStage(prev: nat): (r: nat)
    ensures prev < LAST_STAGE ==> r == prev + 1
    ensures prev >= LAST_STAGE ==> r == LAST_STAGE
  {
    Min(prev + 1, LAST_STAGE)
  }

  function Min(a: nat, b: nat): nat {
    if a <= b then a else b
  }

  /** The stage after `ticks` ticks of the timer started from stage 0. */
  function StageAfter(ticks: nat): nat {
    if ticks == 0 then 0 else NextStage(StageAfter(ticks - 1))
  }

  /** The stage counts the ticks up to 3 and stays there. */
  lemma {:induction false} StageAfterCounts(ticks: nat)
    ensures StageAfter(ticks) == Min(ticks, LAST_STAGE)
  {
    if ticks > 0 {
      StageAfterCounts(ticks - 1);
    }
  }

  // ---------------------------------------------------------------------------
  // Outcomes

  /** The error the user is shown when the generation fails. */
  datatype ErrorText =
    | Message(text: string)
    | ServerBusy        // the document pages' fallback: the server is busy, try again later
    | SolveFailed       // the quiz page's only failure message
    | ReplyNotParsed    // the presentation page's error for a reply that is not a JSON array
    | TryAgain          // the presentation page's fallback: something went wrong, try again

  /** `e.message || fallback`: the thrown message, or the page's fixed text when it is empty. */
  function Shown(message: string): (t: ErrorText)
    ensures t == ServerBusy <==> message == ""
    ensures t.Message? ==> t.text == message
  {
    if message == "" then ServerBusy else Message(message)
  }

  /** How a run of a generate handler ended. */
  datatype Outcome = Refused(reason: Refusal) | Generated(text: string) | Failed(error: ErrorText)

  // ---------------------------------------------------------------------------
  // Download names

  datatype Format = Pdf | Doc

  function Extension(f: Format): (e: string)
    ensures |e| == 4 && e[0] == '.'
  {
    match f
    case Pdf => ".pdf"
    case Doc => ".doc"
  }

  /** `value || fallback` on a string. */
  function OrElse(value: string, fallback: string): (r: string)
    ensures value != "" ==> r == value
    ensures value == "" ==> r == fallback
  {
    if value == "" then fallback else value
  }

  /** `s.replace(/\s+/g, '_')`. */
  function Underscored(s: string): (r: string)
    ensures NoWhitespace(r)
  {
    CollapseWhitespaceClean(s, "_");
    CollapseWhitespace(s, "_")
  }

  /** Runs of white space become one '_' each: the text is empty only when it was. */
  lemma {:induction false} UnderscoredEmptyIff(s: string)
    ensures Underscored(s) == "" <==> s == ""
  {
    if |s| > 0 {
      var run := IsWhitespace(s[0]);
      var next := if run then TrimStart(s) else s[1..];
      assert CollapseWhitespace(s, "_") == (if run then "_" else [s[0]]) + CollapseWhitespace(next, "_");
    }
  }

  /** Text without white space is kept as it is. */
  lemma UnderscoredOfClean(s: string)
    requires NoWhitespace(s)
    ensures Underscored(s) == s
  {
    CollapseWhitespaceClean(s, "_");
  }

  /** The same download in the two formats: one stem, two extensions. */
  lemma FormatsShareStem(stem: string)
    ensures (stem + Extension(Pdf))[..|stem|] == (stem + Extension(Doc))[..|stem|] == stem
    ensures EndsWith(stem + Extension(Pdf), ".pdf") && EndsWith(stem + Extension(Doc), ".doc")
  {
    assert (stem + ".pdf")[|stem|..] == ".pdf";
    assert (stem + ".doc")[|stem|..] == ".doc";
  }
}
