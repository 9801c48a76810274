/**
 * pages/PresentationPage.tsx: the presentation generator page. Its state is
 * the form (topic, subject, the team rows), up to eight pictures, the chosen
 * deck design, and the slides the model returned. `handleGenerate` checks
 * the form, runs the trial check of the presentation feature, calls the
 * credit guard, cleans the model's reply of code fences and reads it as a
 * JSON array of slides.
 *
 * The account store is the in-memory `Auth.Backend`; the reply, the number
 * of timer ticks before it came, what the credit call handed back, and
 * `JSON.parse` (with its array check) are parameters.
 */
module PresentationPage {
  import opened Common
  import opened Text
  import opened Generation
  import opened ImageSelection
  import Auth
  import PptService
  import PptDesigns

  type TeamMember = PptService.TeamMember
  type SlideContent = PptService.SlideContent

  // ---------------------------------------------------------------------------
  // The team rows

  /** One row of the team form. The page's update writes into the row object itself. */
  class MemberRow {
    var name: string
    var id: string

    constructor()
      ensures name == "" && id == ""
    {
      name := "";
      id := "";
    }
  }

  /** What the rows hold, in order. */
  function Values(rows: seq<MemberRow>): (r: seq<TeamMember>)
    reads rows
    ensures |r| == |rows|
  {
    seq(|rows|, i requires 0 <= i < |rows| reads rows => PptService.TeamMember(rows[i].name, rows[i].id))
  }

  datatype MemberField = NameField | IdField

  /** `updated[index][field] = value` on the member's value. */
  function Updated(m: TeamMember, field: MemberField, value: string): (r: TeamMember)
    ensures field == NameField ==> r.name == value && r.id == m.id
    ensures field == IdField ==> r.id == value && r.name == m.name
  {
    match field
    case NameField => m.(name := value)
    case IdField => m.(id := value)
  }

  /** The list of team rows: it starts with one empty row and never becomes empty. */
  class TeamForm {
    var rows: seq<MemberRow>

    /** At least one row, and no row object listed twice. */
    predicate Valid()
      reads this
    {
      |rows| > 0 && forall i, j :: 0 <= i < j < |rows| ==> rows[i] != rows[j]
    }

    function Members(): seq<TeamMember>
      reads this, rows
    {
      Values(rows)
    }

    /** `useState([{ name: '', id: '' }])` */
    constructor()
      ensures Valid() && Members() == [PptService.TeamMember("", "")]
      ensures fresh(rows[0])
    {
      var row := new MemberRow();
      rows := [row];
    }

    /** `addTeamMember`: a new empty row at the end. */
    method AddTeamMember()
      requires Valid()
      modifies this`rows
      ensures Valid()
      ensures |rows| == |old(rows)| + 1 && rows[..|old(rows)|] == old(rows) && fresh(rows[|old(rows)|])
      ensures Members() == old(Members()) + [PptService.TeamMember("", "")]
    {
      var row := new MemberRow();
      rows := rows + [row];
      assert forall i :: 0 <= i < |old(rows)| ==> rows[i] == old(rows)[i];
    }

    /** `removeTeamMember`: only while more than one row is left, every row but the given position. */
    method RemoveTeamMember(index: nat)
      requires Valid()
      modifies this`rows
      ensures Valid()
      ensures |old(rows)| > 1 && index < |old(rows)| ==>
        rows == old(rows)[..index] + old(rows)[index + 1..]
        && Members() == old(Members())[..index] + old(Members())[index + 1..]
      ensures (|old(rows)| <= 1 || index >= |old(rows)|) ==> rows == old(rows)
    {
      if |rows| > 1 && index < |rows| {
        rows := rows[..index] + rows[index + 1..];
        forall i, j | 0 <= i < j < |rows| ensures rows[i] != rows[j] {
          var i' := if i < index then i else i + 1;
          var j' := if j < index then j else j + 1;
          assert rows[i] == old(rows)[i'] && rows[j] == old(rows)[j'];
        }
      }
    }

    /**
     * `updateTeamMember`: the row object at `index` is changed in place, so
     * every list that holds it (the previous state's list too) sees the new
     * value; the list itself and every other row stay as they were.
     */
    method UpdateTeamMember(index: nat, field: MemberField, value: string)
      requires Valid() && index < |rows|
      modifies rows[index]
      ensures Valid() && rows == old(rows)
      ensures Members() == old(Members())[index := Updated(old(Members())[index], field, value)]
    {
      var row := rows[index];
      match field {
        case NameField => row.name := value;
        case IdField => row.id := value;
      }
    }
  }

  // ---------------------------------------------------------------------------
  // Valid members

  /** `m.name.trim() && m.id.trim()` */
  predicate ValidMember(m: TeamMember) {
    Trim(m.name) != "" && Trim(m.id) != ""
  }

  /** `teamMembers.filter(m => m.name.trim() && m.id.trim())` */
  function ValidMembers(members: seq<TeamMember>): (r: seq<TeamMember>)
    ensures |r| <= |members|
  {
    Keep(members, ValidMember)
  }

  /** `s.filter(p)` */
  function Keep<T>(s: seq<T>, p: T -> bool): (r: seq<T>)
    ensures |r| <= |s|
  {
    if |s| == 0 then [] else (if p(s[0]) then [s[0]] else []) + Keep(s[1..], p)
  }

  lemma {:induction false} KeepConcat<T>(a: seq<T>, b: seq<T>, p: T -> bool)
    ensures Keep(a + b, p) == Keep(a, p) + Keep(b, p)
  {
    if |a| == 0 {
      assert a + b == b;
    } else {
      assert (a + b)[0] == a[0] && (a + b)[1..] == a[1..] + b;
      KeepConcat(a[1..], b, p);
      var h := if p(a[0]) then [a[0]] else [];
      var x, y := Keep(a[1..], p), Keep(b, p);
      assert h + (x + y) == (h + x) + y;
    }
  }

  /** The valid members are exactly the members that are valid. */
  lemma {:induction false} ValidMembersExactly(members: seq<TeamMember>)
    ensures forall m :: m in ValidMembers(members) <==> m in members && ValidMember(m)
  {
    if |members| > 0 {
      ValidMembersExactly(members[1..]);
      assert members == [members[0]] + members[1..];
    }
  }

  /** The filter keeps the order: the valid members of two lists one after the other. */
  lemma ValidMembersConcat(a: seq<TeamMember>, b: seq<TeamMember>)
    ensures ValidMembers(a + b) == ValidMembers(a) + ValidMembers(b)
  {
    KeepConcat(a, b, ValidMember);
  }

  /** The deck's author is the first valid member's name, never the 'Student' fallback by default. */
  lemma AuthorIsFirstValid(members: seq<TeamMember>)
    requires |ValidMembers(members)| > 0
    ensures PptService.Author(ValidMembers(members)) == ValidMembers(members)[0].name
  {
    ValidMembersExactly(members);
    var first := ValidMembers(members)[0];
    assert first in ValidMembers(members);
    assert Trim(first.name) != "";
  }

  // ---------------------------------------------------------------------------
  // The model's reply

  /** The reply as the page cleans it before `JSON.parse`. */
  function Cleaned(response: string): (r: string)
    ensures |r| == 0 || (!IsWhitespace(r[0]) && !IsWhitespace(r[|r| - 1]))
  {
    var d := DropClosingFence(DropFence(DropJsonFence(Trim(response))));
    Trim(d)
  }

  /** A leading "```json" removed. */
  function DropJsonFence(a: string): string {
    if StartsWith(a, "```json") then a[7..] else a
  }

  /** A leading "```" removed. */
  function DropFence(b: string): string {
    if StartsWith(b, "```") then b[3..] else b
  }

  /** A trailing "```" removed. */
  function DropClosingFence(c: string): string {
    if EndsWith(c, "```") then c[..|c| - 3] else c
  }

  /**
   * The cleanup in `handleGenerate`: trim, drop a leading "```json", then a
   * leading "```", then a trailing "```", and trim again.
   */
  method CleanReply(response: string) returns (clean: string)
    ensures clean == Cleaned(response)
  {
    clean := Trim(response);
    ghost var a := clean;
    if StartsWith(clean, "```json") {
      clean := clean[7..];
    }
    assert clean == DropJsonFence(a);
    ghost var b := clean;
    if StartsWith(clean, "```") {
      clean := clean[3..];
    }
    assert clean == DropFence(b);
    ghost var c := clean;
    if EndsWith(clean, "```") {
      clean := clean[..|clean| - 3];
    }
    assert clean == DropClosingFence(c);
    clean := Trim(clean);
  }

  /** The cleanup and the parse of `handleGenerate`, or the failure it shows. */
  method ReadReply(reply: Result<string, string>, parse: string -> Option<seq<SlideContent>>)
    returns (reading: Result<seq<SlideContent>, ErrorText>)
    ensures reading == Reading(reply, parse)
  {
    match reply {
      case Success(response) =>
        var clean := CleanReply(response);
        var slides := parse(clean);
        if slides.Some? {
          reading := Success(slides.value);
        } else {
          reading := Failure(ReplyNotParsed);
        }
      case Failure(message) =>
        reading := Failure(ShownHere(message));
    }
  }

  /** No white space at either end. */
  predicate Trimmed(s: string) {
    |s| == 0 || (!IsWhitespace(s[0]) && !IsWhitespace(s[|s| - 1]))
  }

  /** Text with no white-space margin, between two line ends, comes back as it is. */
  lemma TrimLines(json: string)
    requires |json| > 0 && Trimmed(json)
    ensures Trim("\n" + json + "\n") == json
  {
    var s := "\n" + json + "\n";
    assert s[1..] == json + "\n";
    TrimStartOfClean(json + "\n");
    assert TrimStart(s) == json + "\n";
    assert (json + "\n")[..|json|] == json;
    TrimEndOfClean(json);
  }

  /** A reply fenced as a JSON code block is cleaned to the JSON inside. */
  lemma CleanedOfFenced(json: string)
    requires |json| > 0 && Trimmed(json)
    ensures Cleaned("```json\n" + json + "\n```") == json
  {
    var inner := "\n" + json + "\n";
    var s := "```json\n" + json + "\n```";
    FencedParts(json);
    calc {
      Cleaned(s);
      Trim(DropClosingFence(DropFence(DropJsonFence(Trim(s)))));
      { TrimOfTrimmed(s); }
      Trim(DropClosingFence(DropFence(DropJsonFence(s))));
      { DropJsonFenceOf(inner + "```"); }
      Trim(DropClosingFence(DropFence(inner + "```")));
      { DropFenceOfNewline(inner + "```"); }
      Trim(DropClosingFence(inner + "```"));
      { DropClosingFenceOf(inner); }
      Trim(inner);
      { TrimLines(json); }
      json;
    }
  }

  /** The fenced reply is the opening fence, the JSON between line ends, and the closing fence. */
  lemma FencedParts(json: string)
    requires |json| > 0
    ensures var s := "```json\n" + json + "\n```";
      s == "```json" + (("\n" + json + "\n") + "```") && Trimmed(s)
  {
    var s := "```json\n" + json + "\n```";
    assert s == "```json" + (("\n" + json + "\n") + "```");
    assert s[0] == '`' && s[|s| - 1] == '`';
  }

  lemma DropJsonFenceOf(t: string)
    ensures DropJsonFence("```json" + t) == t
  {
    assert ("```json" + t)[..7] == "```json";
  }

  lemma DropFenceOfNewline(t: string)
    requires |t| > 0 && t[0] == '\n'
    ensures DropFence(t) == t
  {
    assert !StartsWith(t, "```") by {
      if |t| >= 3 {
        assert t[..3][0] == '\n';
      }
    }
  }

  lemma DropClosingFenceOf(t: string)
    ensures DropClosingFence(t + "```") == t
  {
    var u := t + "```";
    assert u[|u| - 3..] == "```";
    assert u[..|u| - 3] == t;
  }

  /** A reply with no fence and no white-space margin is left as it is. */
  lemma CleanedOfPlain(json: string)
    requires Trimmed(json) && !StartsWith(json, "```") && !EndsWith(json, "```")
    ensures Cleaned(json) == json
  {
    TrimOfTrimmed(json);
    JsonFenceIsFence(json);
  }

  /** A reply that opens with the JSON fence opens with a plain fence too. */
  lemma JsonFenceIsFence(s: string)
    ensures StartsWith(s, "```json") ==> StartsWith(s, "```")
  {
    if StartsWith(s, "```json") {
      assert s[..3] == s[..7][..3];
    }
  }

  /** Cleaning a cleaned reply that has no fence left changes nothing. */
  lemma CleanedTwice(response: string)
    requires !StartsWith(Cleaned(response), "```") && !EndsWith(Cleaned(response), "```")
    ensures Cleaned(Cleaned(response)) == Cleaned(response)
  {
    CleanedOfPlain(Cleaned(response));
  }

  // ---------------------------------------------------------------------------
  // Pictures in the prompt

  /** What the prompt says about pictures. */
  datatype ImageInstruction = OfferIndices(last: nat) | NoImageIndex

  /** With n pictures the model may use indices 0 to n - 1; with none it is told to leave `imageIndex` out. */
  function ImageInstructionFor(count: nat): (r: ImageInstruction)
    ensures r.OfferIndices? <==> count > 0
    ensures r.OfferIndices? ==> r.last + 1 == count
  {
    if count > 0 then OfferIndices(count - 1) else NoImageIndex
  }

  /** `selectedImages.map(img => img.link)` */
  function Links(images: seq<SearchImage>): (r: seq<string>)
    ensures |r| == |images|
    ensures forall k :: 0 <= k < |images| ==> r[k] == images[k].link
  {
    seq(|images|, k requires 0 <= k < |images| => images[k].link)
  }

  /**
   * An index the prompt offers is one the deck builder accepts: a text
   * slide that uses it gets the split image layout with that picture,
   * provided the picture's data is not empty.
   */
  lemma OfferedIndexIsUsed(images: seq<SearchImage>, sd: SlideContent)
    requires ImageInstructionFor(|images|).OfferIndices?
    requires sd.imageIndex.Some? && 0 <= sd.imageIndex.value <= ImageInstructionFor(|images|).last
    requires sd.chartData.None? && images[sd.imageIndex.value].link != ""
    ensures PptService.LayoutOf(sd, Links(images)) == PptService.SplitImage(sd.imageIndex.value)
  {
  }

  // ---------------------------------------------------------------------------
  // The page

  /** The message shown for a failure the page did not raise itself: `e.message || 'حصل مشكلة.. جرب تاني'`. */
  function ShownHere(message: string): (t: ErrorText)
    ensures t == TryAgain <==> message == ""
    ensures t.Message? ==> t.text == message
  {
    if message == "" then TryAgain else Message(message)
  }

  class Presentation {
    var topic: string
    var subject: string
    var college: string
    var department: string
    var drName: string
    var universityLogoUrl: Option<string>
    var collegeLogoUrl: Option<string>
    const team: TeamForm
    /** The pictures: at most eight, and a successful batch empties the ticked candidates. */
    const images: ImagePicker
    var selectedDesign: PptDesigns.PptDesign
    var isLoading: bool
    var generatedSlides: Option<seq<SlideContent>>
    var progressStage: nat
    /** How many times the page has called `onDeductCredits`. */
    var deductCalls: nat
    const backend: Auth.Backend

    /** The page starts with one empty team row and the first deck design, 'cyber-neon'. */
    constructor(backend: Auth.Backend)
      ensures this.backend == backend
      ensures topic == "" && subject == "" && college == "" && department == "" && drName == ""
      ensures universityLogoUrl.None? && collegeLogoUrl.None?
      ensures fresh(team) && team.Valid() && team.Members() == [PptService.TeamMember("", "")]
      ensures fresh(images) && images.cap == PRESENTATION_IMAGE_CAP && images.clearsCandidates
      ensures images.selected == [] && images.candidates == []
      ensures selectedDesign == PptDesigns.PPT_DESIGN_TEMPLATES[0] && selectedDesign.id == "cyber-neon"
      ensures !isLoading && generatedSlides.None? && progressStage == 0 && deductCalls == 0
    {
      this.backend := backend;
      topic := "";
      subject := "";
      college := "";
      department := "";
      drName := "";
      universityLogoUrl := None;
      collegeLogoUrl := None;
      team := new TeamForm();
      images := new ImagePicker(PRESENTATION_IMAGE_CAP, true);
      assert PptDesigns.PPT_DESIGN_TEMPLATES[0] == PptDesigns.CYBER_NEON;
      selectedDesign := PptDesigns.PPT_DESIGN_TEMPLATES[0];
      isLoading := false;
      generatedSlides := None;
      progressStage := 0;
      deductCalls := 0;
    }

    /** The form check `!topic || !subject || validMembers.length === 0` does not stop the generation. */
    predicate InputsComplete()
      reads this, team, team.rows
    {
      topic != "" && subject != "" && |ValidMembers(team.Members())| > 0
    }

    /**
     * `handleGenerate`. The form check comes first, then (for a signed-in
     * user) the trial check, then the credit guard. A reply that is not a
     * JSON array once cleaned fails with the page's parse error.
     */
    method HandleGenerate(deduct: Returned, reply: Result<string, string>, ticks: nat,
                          parse: string -> Option<seq<SlideContent>>) returns (outcome: Outcome)
      modifies this`isLoading, this`generatedSlides, this`progressStage, this`deductCalls, backend`profiles
      ensures !old(InputsComplete()) ==>
        outcome == Refused(MissingInput) && deductCalls == old(deductCalls) && backend.profiles == old(backend.profiles)
      ensures var user := old(backend.CurrentProfile());
        old(InputsComplete()) && user.Some? ==>
          (var d := Auth.DecideTrial(user, Auth.PresentationFeature);
           (!d.allowed ==> outcome == Refused(TrialUsed) && deductCalls == old(deductCalls))
           && (d.mark && user.value.id in old(backend.profiles) ==>
                 backend.profiles
                   == old(backend.profiles)[user.value.id := Auth.MarkTrial(old(backend.profiles)[user.value.id], Auth.PresentationFeature)])
           && (!(d.mark && user.value.id in old(backend.profiles)) ==> backend.profiles == old(backend.profiles)))
      ensures old(InputsComplete()) && old(backend.CurrentProfile()).None? ==> backend.profiles == old(backend.profiles)
      ensures var passes := old(InputsComplete()) && Auth.PageMayProceed(old(backend.CurrentProfile()), Auth.PresentationFeature);
        (passes ==> deductCalls == old(deductCalls) + 1)
        && (passes && GuardStops(deduct) ==> outcome == Refused(NoCredit))
        && (passes && !GuardStops(deduct) && reply.Success? && parse(Cleaned(reply.value)).Some? ==>
              outcome == Generated(Cleaned(reply.value)) && generatedSlides == parse(Cleaned(reply.value))
              && progressStage == LAST_STAGE && !isLoading)
        && (passes && !GuardStops(deduct) && reply.Success? && parse(Cleaned(reply.value)).None? ==>
              outcome == Failed(ReplyNotParsed) && generatedSlides.None? && progressStage == Min(ticks, LAST_STAGE) && !isLoading)
        && (passes && !GuardStops(deduct) && reply.Failure? ==>
              outcome == Failed(ShownHere(reply.error)) && generatedSlides.None? && progressStage == Min(ticks, LAST_STAGE)
              && !isLoading)
      ensures outcome.Refused? ==>
        isLoading == old(isLoading) && generatedSlides == old(generatedSlides) && progressStage == old(progressStage)
    {
      if !(topic != "" && subject != "" && |ValidMembers(team.Members())| > 0) {
        return Refused(MissingInput);
      }
      var user := backend.CurrentProfile();
      if user.Some? {
        var allowed := backend.CheckAndMarkTrial(user.value.id, Auth.PresentationFeature);
        if !allowed {
          return Refused(TrialUsed);
        }
      }
      deductCalls := deductCalls + 1;
      if GuardStops(deduct) {
        return Refused(NoCredit);
      }
      outcome := AwaitSlides(reply, ticks, parse);
    }

    /**
     * The part of `handleGenerate` after the credit guard: the old slides
     * are cleared, the reply is cleaned and parsed; a parsed deck ends at
     * the last stage, a failure leaves the stage the timer reached.
     */
    method AwaitSlides(reply: Result<string, string>, ticks: nat,
                       parse: string -> Option<seq<SlideContent>>) returns (outcome: Outcome)
      modifies this`isLoading, this`generatedSlides, this`progressStage
      ensures !isLoading
      ensures var reading := Reading(reply, parse);
        (reading.Success? ==>
           outcome == Generated(Cleaned(reply.value)) && generatedSlides == Some(reading.value)
           && progressStage == LAST_STAGE)
        && (reading.Failure? ==>
              outcome == Failed(reading.error) && generatedSlides.None? && progressStage == Min(ticks, LAST_STAGE))
    {
      isLoading := true;
      generatedSlides := None;
      progressStage := 0;
      StageAfterCounts(ticks);
      var reading := ReadReply(reply, parse);
      match reading {
        case Success(slides) =>
          progressStage := LAST_STAGE;
          generatedSlides := Some(slides);
          outcome := Generated(Cleaned(reply.value));
        case Failure(error) =>
          progressStage := StageAfter(ticks);
          outcome := Failed(error);
      }
      isLoading := false;
    }

    /**
     * What `handleDownloadPPT` hands to the deck builder: nothing before
     * slides exist; otherwise the form, only the valid members, the
     * pictures' data, the chosen design and the slides.
     */
    function DeckRequest(): (r: Option<PptService.PresentationData>)
      reads this, team, team.rows, images
      ensures r.None? <==> generatedSlides.None?
      ensures r.Some? ==> r.value.teamMembers == ValidMembers(team.Members()) && r.value.slides == generatedSlides.value
      ensures r.Some? ==> |r.value.images| == |images.selected| && r.value.design == selectedDesign
    {
      if generatedSlides.None? then None
      else Some(PptService.PresentationData(
        topic, subject, college, Some(drName), Some(department), ValidMembers(team.Members()),
        if PptService.Truthy(universityLogoUrl) then universityLogoUrl else None,
        if PptService.Truthy(collegeLogoUrl) then collegeLogoUrl else None,
        Links(images.selected), selectedDesign, generatedSlides.value))
    }
  }

  /**
   * What the page reads from the reply: the slides of a reply that parses
   * once cleaned, the parse error for one that does not, and the thrown
   * message (or the fallback) for a failed call.
   */
  function Reading(reply: Result<string, string>, parse: string -> Option<seq<SlideContent>>)
    : (r: Result<seq<SlideContent>, ErrorText>)
    ensures r.Success? <==> reply.Success? && parse(Cleaned(reply.value)).Some?
    ensures r.Failure? && reply.Success? ==> r.error == ReplyNotParsed
    ensures reply.Failure? ==> r == Failure(ShownHere(reply.error))
  {
    match reply
    case Success(response) =>
      (match parse(Cleaned(response))
       case Some(slides) => Success(slides)
       case None => Failure(ReplyNotParsed))
    case Failure(message) => Failure(ShownHere(message))
  }
}
