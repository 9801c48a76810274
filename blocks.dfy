/**
 * `formatContent` of the four document pages: the generated text is split at
 * '\n' and every line becomes one block, by the first test that holds. The
 * tests are shared; the pages differ in which tests they make and in their
 * order (pages/Assignment.tsx, pages/Report.tsx, pages/Quiz.tsx,
 * pages/Sheet.tsx). Styling is not modelled: a block is its kind and text.
 */
module Blocks {
  import opened Common
  import opened Text
  import opened ImageSelection

  datatype Block =
    | Heading1(text: string)
    | Heading2(text: string)
    | Heading3(text: string)
    | Section(number: nat, text: string)   // the report's numbered '## ' header
    | BoldParagraph(parts: seq<string>)    // odd positions are set in bold
    | Bullet(text: string)
    | Numbered(digits: string, text: string)
    | DecimalItem(text: string)            // the quiz's numbered line, numbered by the list
    | Figure(number: nat, image: SearchImage)
    | Nothing                              // an image marker with no such image
    | Paragraph(text: string)
    | Break

  // ---------------------------------------------------------------------------
  // Line tests and the text they keep

  // `line.replace(/^#\s*/, '')` and its '##', '###' and '[-*]' kin: drop `k` marker characters, then white space.
  function AfterMarker(line: string, k: nat): (r: string)
    requires k <= |line|
    ensures |r| <= |line| - k
    ensures |r| == 0 || !IsWhitespace(r[0])
  {
    TrimStart(line[k..])
  }

  /** `line.startsWith('# ')` */
  predicate IsH1Line(line: string) {
    |line| >= 2 && line[0] == '#' && line[1] == ' '
  }

  /** `line.startsWith('## ')` */
  predicate IsH2Line(line: string) {
    |line| >= 3 && line[0] == '#' && line[1] == '#' && line[2] == ' '
  }

  /** `line.startsWith('### ')` */
  predicate IsH3Line(line: string) {
    |line| >= 4 && line[0] == '#' && line[1] == '#' && line[2] == '#' && line[3] == ' '
  }

  /** `line.startsWith('- ') || line.startsWith('* ')` */
  predicate IsBulletLine(line: string) {
    |line| >= 2 && (line[0] == '-' || line[0] == '*') && line[1] == ' '
  }

  /** `/^\d+\.\s/`: one or more digits, a '.', then a white-space character. */
  predicate IsNumberedLine(line: string) {
    var n := DigitRun(line);
    0 < n && n + 1 < |line| && line[n] == '.' && IsWhitespace(line[n + 1])
  }

  // `line.replace(/^\d+\.\s*/, '')` on a numbered line.
  function NumberedText(line: string): string
    requires IsNumberedLine(line)
  {
    AfterMarker(line, DigitRun(line) + 1)
  }

  /** `line.match(/^(\d+)\./)?.[1]` on a numbered line. */
  function NumberedLabel(line: string): (r: string)
    requires IsNumberedLine(line)
    ensures |r| > 0 && AllDigits(r)
  {
    line[..DigitRun(line)]
  }

  /** The characters at which `.` in a regular expression stops. */
  predicate IsLineTerminator(c: char) {
    c == '\n' || c == '\r' || c == '\U{2028}' || c == '\U{2029}'
  }

  predicate PairAt(s: string, k: nat) {
    k + 1 < |s| && s[k] == '*' && s[k + 1] == '*'
  }

  /** `s.includes('**')`, searched from `k`. */
  predicate HasPairFrom(s: string, k: nat)
    decreases |s| - k
  {
    k < |s| && (PairAt(s, k) || HasPairFrom(s, k + 1))
  }

  /** '**' occurs from `k` on exactly when it occurs at some position from `k` on. */
  lemma {:induction false} HasPairIffAt(s: string, k: nat)
    ensures HasPairFrom(s, k) <==> exists i :: k <= i < |s| && PairAt(s, i)
    decreases |s| - k
  {
    if k < |s| {
      HasPairIffAt(s, k + 1);
    }
  }

  /** The closing '**' of `(.*?)\*\*` searched from `k`: the first one before any line terminator. */
  function ClosingPair(s: string, k: nat): (r: Option<nat>)
    decreases |s| - k
    ensures r.Some? ==> k <= r.value && PairAt(s, r.value)
    ensures r.Some? ==> forall m :: k <= m < r.value ==> !PairAt(s, m) && !IsLineTerminator(s[m])
    ensures r.None? ==> forall m :: k <= m < |s| && PairAt(s, m) ==> exists q :: k <= q < m && IsLineTerminator(s[q])
  {
    if k >= |s| then None
    else if PairAt(s, k) then Some(k)
    else if IsLineTerminator(s[k]) then None
    else ClosingPair(s, k + 1)
  }

  // A match of `/\*\*(.*?)\*\*/` opens at `f`: a '**' there with a closing one on its line.
  predicate OpensMatch(s: string, f: nat) {
    PairAt(s, f) && ClosingPair(s, f + 2).Some?
  }

  // The first match of `/\*\*(.*?)\*\*/` at or after `from`: where it opens and where it closes.
  function BoldMatch(s: string, from: nat): (r: Option<(nat, nat)>)
    decreases |s| - from
    ensures r.Some? ==>
      from <= r.value.0 && PairAt(s, r.value.0) && r.value.0 + 2 <= r.value.1 && PairAt(s, r.value.1)
  {
    if from >= |s| then None
    else if PairAt(s, from) && ClosingPair(s, from + 2).Some? then Some((from, ClosingPair(s, from + 2).value))
    else BoldMatch(s, from + 1)
  }

  /**
   * The match found is the leftmost one, closed by the first '**' on its
   * line; no match is found exactly when none opens from `from` on.
   */
  lemma {:induction false} BoldMatchFirst(s: string, from: nat)
    ensures var r := BoldMatch(s, from);
      && (r.Some? ==> OpensMatch(s, r.value.0) && ClosingPair(s, r.value.0 + 2) == Some(r.value.1))
      && (r.Some? ==> forall f :: from <= f < r.value.0 ==> !OpensMatch(s, f))
      && (r.None? <==> forall f :: from <= f < |s| ==> !OpensMatch(s, f))
  {
    BoldMatchOpens(s, from);
    BoldMatchLeftmost(s, from);
    BoldMatchNone(s, from);
  }

  lemma {:induction false} BoldMatchOpens(s: string, from: nat)
    ensures var r := BoldMatch(s, from);
      r.Some? ==> OpensMatch(s, r.value.0) && ClosingPair(s, r.value.0 + 2) == Some(r.value.1)
    decreases |s| - from
  {
    if from < |s| && !OpensMatch(s, from) {
      BoldMatchOpens(s, from + 1);
    }
  }

  lemma {:induction false} BoldMatchLeftmost(s: string, from: nat)
    ensures var r := BoldMatch(s, from);
      r.Some? ==> forall f :: from <= f < r.value.0 ==> !OpensMatch(s, f)
    decreases |s| - from
  {
    if from < |s| && !OpensMatch(s, from) {
      BoldMatchLeftmost(s, from + 1);
    }
  }

  lemma {:induction false} BoldMatchNone(s: string, from: nat)
    ensures BoldMatch(s, from).None? <==> forall f :: from <= f < |s| ==> !OpensMatch(s, f)
    decreases |s| - from
  {
    if from < |s| && !OpensMatch(s, from) {
      BoldMatchNone(s, from + 1);
    }
  }

  /** The inverse of the split below: bold parts are wrapped in '**' again. */
  function RejoinBold(parts: seq<string>): string
    decreases |parts|
  {
    if |parts| == 0 then ""
    else if |parts| == 1 then parts[0]
    else parts[0] + "**" + parts[1] + "**" + RejoinBold(parts[2..])
  }

  // `line.split(/\*\*(.*?)\*\*/g)`: the text between matches at even positions,
  // the captured bold text at odd positions.
  function SplitBold(s: string): (parts: seq<string>)
    decreases |s|
    ensures |parts| % 2 == 1
    ensures RejoinBold(parts) == s
  {
    match BoldMatch(s, 0)
    case None => [s]
    case Some(m) =>
      var i, j := m.0, m.1;
      var rest := SplitBold(s[j + 2..]);
      var parts := [s[..i], s[i + 2..j]] + rest;
      assert parts[2..] == rest;
      Reassemble(s, i, j);
      parts
  }

  /** Text around two '**' pairs is the pieces between them put back together. */
  lemma Reassemble(s: string, i: nat, j: nat)
    requires i + 2 <= j && PairAt(s, i) && PairAt(s, j)
    ensures s == s[..i] + "**" + s[i + 2..j] + "**" + s[j + 2..]
  {
    assert s[i..i + 2] == "**" && s[j..j + 2] == "**";
    assert s == s[..i] + s[i..i + 2] + s[i + 2..j] + s[j..j + 2] + s[j + 2..];
  }

  /** A line splits into itself alone exactly when no bold match opens anywhere in it. */
  lemma SplitBoldWhole(s: string)
    ensures SplitBold(s) == [s] <==> forall f :: 0 <= f < |s| ==> !OpensMatch(s, f)
  {
    BoldMatchFirst(s, 0);
  }

  /**
   * A plain stretch, a bold run on one line and whatever follows split into
   * the plain stretch, the bold text at the odd position, and the split of
   * the rest.
   */
  lemma SplitBoldOfPair(a: string, b: string, c: string)
    requires '*' !in a && '*' !in b
    requires forall q :: 0 <= q < |b| ==> !IsLineTerminator(b[q])
    ensures SplitBold(a + "**" + b + "**" + c) == [a, b] + SplitBold(c)
  {
    var s := a + "**" + b + "**" + c;
    PairPieces(s, a, b, c);
    BoldMatchOfPair(s, a, b);
    SplitBoldAt(s, |a|, |a| + 2 + |b|);
  }

  /** The pieces of a line built from a stretch, a '**' pair around a run, and the rest. */
  lemma PairPieces(s: string, a: string, b: string, c: string)
    requires s == a + "**" + b + "**" + c
    ensures |a| + 2 + |b| + 2 <= |s| && s[..|a|] == a && s[|a|..|a| + 2] == "**"
    ensures s[|a| + 2..|a| + 2 + |b|] == b && s[|a| + 2 + |b|..|a| + 4 + |b|] == "**"
    ensures s[|a| + 4 + |b|..] == c
  {
  }

  /** The split at a found match: the text before it, its bold text, and the split of the rest. */
  lemma SplitBoldAt(s: string, i: nat, j: nat)
    requires BoldMatch(s, 0) == Some((i, j))
    ensures SplitBold(s) == [s[..i], s[i + 2..j]] + SplitBold(s[j + 2..])
  {
  }

  /** The leftmost bold match of such a line is the run right after the plain stretch. */
  lemma BoldMatchOfPair(s: string, a: string, b: string)
    requires '*' !in a && '*' !in b
    requires forall q :: 0 <= q < |b| ==> !IsLineTerminator(b[q])
    requires |a| + 2 + |b| + 2 <= |s| && s[..|a|] == a && s[|a|..|a| + 2] == "**"
    requires s[|a| + 2..|a| + 2 + |b|] == b && s[|a| + 2 + |b|..|a| + 4 + |b|] == "**"
    ensures BoldMatch(s, 0) == Some((|a|, |a| + 2 + |b|))
  {
    var i, j := |a|, |a| + 2 + |b|;
    assert PairAt(s, j) by {
      assert s[j] == s[|a| + 2 + |b|..|a| + 4 + |b|][0];
      assert s[j + 1] == s[|a| + 2 + |b|..|a| + 4 + |b|][1];
    }
    forall m | i + 2 <= m < j ensures s[m] != '*' && !IsLineTerminator(s[m]) {
      assert s[m] == b[m - i - 2];
    }
    ClosingPairAfterRun(s, i + 2, j);
    assert PairAt(s, i) by {
      assert s[i] == s[|a|..|a| + 2][0] && s[i + 1] == s[|a|..|a| + 2][1];
    }
    assert OpensMatch(s, i);
    forall f | 0 <= f < i ensures !OpensMatch(s, f) {
      assert s[f] == a[f];
    }
    LeftmostMatch(s, i, j);
  }

  /** A match that opens at `i` with none before it is the one found. */
  lemma LeftmostMatch(s: string, i: nat, j: nat)
    requires OpensMatch(s, i) && ClosingPair(s, i + 2) == Some(j)
    requires forall f :: 0 <= f < i ==> !OpensMatch(s, f)
    ensures BoldMatch(s, 0) == Some((i, j))
  {
    BoldMatchFirst(s, 0);
    var r := BoldMatch(s, 0);
    if r.Some? {
      assert r.value.0 == i;
    }
  }

  /** The closing '**' after a run free of '*' and of line terminators is the one right after the run. */
  lemma ClosingPairAfterRun(s: string, k: nat, j: nat)
    requires k <= j && PairAt(s, j)
    requires forall m :: k <= m < j ==> s[m] != '*' && !IsLineTerminator(s[m])
    ensures ClosingPair(s, k) == Some(j)
  {
  }

  /** Text with no '**' at all stays one plain part. */
  lemma NoPairNoBold(s: string)
    requires forall k :: 0 <= k < |s| ==> !PairAt(s, k)
    ensures SplitBold(s) == [s]
  {
    NoPairNoMatch(s, 0);
  }

  lemma {:induction false} NoPairNoMatch(s: string, from: nat)
    requires forall k :: 0 <= k < |s| ==> !PairAt(s, k)
    ensures BoldMatch(s, from) == None
    decreases |s| - from
  {
    if from < |s| {
      NoPairNoMatch(s, from + 1);
    }
  }

  /** `[image_` in any case at the start of `t`. */
  predicate ImageTag(t: string) {
    |t| >= 7 && t[0] == '[' && LowerChar(t[1]) == 'i' && LowerChar(t[2]) == 'm' && LowerChar(t[3]) == 'a'
    && LowerChar(t[4]) == 'g' && LowerChar(t[5]) == 'e' && t[6] == '_'
  }

  // `(\d+)\]` at the start of `u`: the number before the closing bracket.
  function BracketedNumber(u: string): Option<nat> {
    var d := DigitRun(u);
    if 0 < d && d < |u| && u[d] == ']' then Some(DigitsValue(u[..d])) else None
  }

  /** `line.trim().match(/^\[IMAGE_(\d+)\]/i)`: the number of an image marker, case-insensitive. */
  function ImageMarker(line: string): Option<nat> {
    var t := Trim(line);
    if ImageTag(t) then BracketedNumber(t[7..]) else None
  }

  /** The marker '[IMAGE_n]' is read back as n. */
  lemma ImageMarkerRoundTrip(n: nat)
    ensures ImageMarker("[IMAGE_" + NatToString(n) + "]") == Some(n)
  {
    var digits := NatToString(n);
    var line := "[IMAGE_" + digits + "]";
    assert line == "[IMAGE_" + (digits + "]");
    calc {
      ImageMarker(line);
      { TrimOfTrimmed(line); MarkerOpening(digits + "]"); }
      BracketedNumber(digits + "]");
      { BracketedDigits(digits); }
      Some(DigitsValue(digits));
      { DigitsValueOfNatToString(n); }
      Some(n);
    }
  }

  /** Digits and a closing bracket give the number the digits spell. */
  lemma BracketedDigits(digits: string)
    requires |digits| >= 1 && AllDigits(digits)
    ensures BracketedNumber(digits + "]") == Some(DigitsValue(digits))
  {
    DigitRunOf(digits, "]");
    assert (digits + "]")[..|digits|] == digits;
  }

  /** '[IMAGE_' in front of any text opens a marker, followed by that text. */
  lemma MarkerOpening(rest: string)
    ensures ImageTag("[IMAGE_" + rest) && ("[IMAGE_" + rest)[7..] == rest
  {
    ImageTagBefore("[IMAGE_", rest);
  }

  /** A seven-character tag in front of any text is still read as the tag, followed by that text. */
  lemma ImageTagBefore(tag: string, rest: string)
    requires |tag| == 7 && ImageTag(tag)
    ensures ImageTag(tag + rest) && (tag + rest)[7..] == rest
  {
    assert forall k :: 0 <= k < 7 ==> (tag + rest)[k] == tag[k];
  }

  /** Marker n shows picked image n (counting from 1) under 'Figure n', when there is one. */
  function FigureOf(n: nat, images: seq<SearchImage>): (b: Block)
    ensures b.Figure? <==> 1 <= n <= |images|
    ensures b.Figure? ==> b.number == n && b.image == images[n - 1]
    ensures !b.Figure? ==> b == Nothing
  {
    if 1 <= n && n - 1 < |images| then Figure(n, images[n - 1]) else Nothing
  }

  // ---------------------------------------------------------------------------
  // The pages' classifiers

  /** Assignment: '# ', '## ', '### ', '**', bullet, numbered, image marker, text, blank. */
  function AssignmentBlock(line: string, images: seq<SearchImage>): Block {
    if IsH1Line(line) then Heading1(AfterMarker(line, 1))
    else if IsH2Line(line) then Heading2(AfterMarker(line, 2))
    else if IsH3Line(line) then Heading3(AfterMarker(line, 3))
    else if HasPairFrom(line, 0) then BoldParagraph(SplitBold(line))
    else if IsBulletLine(line) then Bullet(AfterMarker(line, 1))
    else if IsNumberedLine(line) then Numbered(NumberedLabel(line), NumberedText(line))
    else if ImageMarker(line).Some? then FigureOf(ImageMarker(line).value, images)
    else if !Blank(line) then Paragraph(line)
    else Break
  }

  /** Sheet: the assignment's tests without the image marker. */
  function SheetBlock(line: string): Block {
    if IsH1Line(line) then Heading1(AfterMarker(line, 1))
    else if IsH2Line(line) then Heading2(AfterMarker(line, 2))
    else if IsH3Line(line) then Heading3(AfterMarker(line, 3))
    else if HasPairFrom(line, 0) then BoldParagraph(SplitBold(line))
    else if IsBulletLine(line) then Bullet(AfterMarker(line, 1))
    else if IsNumberedLine(line) then Numbered(NumberedLabel(line), NumberedText(line))
    else if !Blank(line) then Paragraph(line)
    else Break
  }

  /** Quiz: bullets and numbered lines are checked before '**'. */
  function QuizBlock(line: string): Block {
    if IsH1Line(line) then Heading1(AfterMarker(line, 1))
    else if IsH2Line(line) then Heading2(AfterMarker(line, 2))
    else if IsH3Line(line) then Heading3(AfterMarker(line, 3))
    else if IsBulletLine(line) then Bullet(AfterMarker(line, 1))
    else if IsNumberedLine(line) then DecimalItem(NumberedText(line))
    else if HasPairFrom(line, 0) then BoldParagraph(SplitBold(line))
    else if !Blank(line) then Paragraph(line)
    else Break
  }

  // `line.replace(/^##\s*\d*\.?\s*/, '')`: the report's header text without its own number.
  function SectionTitle(line: string): (r: string)
    requires IsH2Line(line)
    ensures |r| == 0 || !IsWhitespace(r[0])
  {
    var t := AfterMarker(line, 2);
    var u := t[DigitRun(t)..];
    if |u| > 0 && u[0] == '.' then TrimStart(u[1..]) else TrimStart(u)
  }

  /** Report: no numbered test, and '## ' headers are numbered by a running count. */
  function ReportBlock(line: string, images: seq<SearchImage>, sectionsBefore: nat): Block {
    if IsH1Line(line) then Heading1(AfterMarker(line, 1))
    else if IsH2Line(line) then Section(sectionsBefore + 1, SectionTitle(line))
    else if IsH3Line(line) then Heading3(AfterMarker(line, 3))
    else if HasPairFrom(line, 0) then BoldParagraph(SplitBold(line))
    else if IsBulletLine(line) then Bullet(AfterMarker(line, 1))
    else if ImageMarker(line).Some? then FigureOf(ImageMarker(line).value, images)
    else if !Blank(line) then Paragraph(line)
    else Break
  }

  // ---------------------------------------------------------------------------
  // Facts about the classifiers

  /** Text that is all white space. */
  predicate Blank(line: string) {
    forall k :: 0 <= k < |line| ==> IsWhitespace(line[k])
  }

  lemma TrimEmptyIffBlank(line: string)
    ensures Trim(line) == "" <==> Blank(line)
  {
    var t := TrimStart(line);
    if |t| > 0 {
      assert !IsWhitespace(t[0]) && t[0] == line[|line| - |t|];
    }
  }

  lemma BlankHasNoPair(line: string)
    requires Blank(line)
    ensures !HasPairFrom(line, 0) && !IsH1Line(line) && !IsH2Line(line)
      && !IsH3Line(line) && !IsBulletLine(line) && !IsNumberedLine(line)
  {
    HasPairIffAt(line, 0);
    forall i | 0 <= i < |line| ensures !PairAt(line, i) {
      assert IsWhitespace(line[i]);
    }
    if |line| > 0 {
      assert !IsDigit(line[0]);
    }
  }

  /** A line becomes a line break exactly when it is blank, on every page. */
  lemma BreakIffBlank(line: string, images: seq<SearchImage>, sectionsBefore: nat)
    ensures AssignmentBlock(line, images) == Break <==> Blank(line)
    ensures SheetBlock(line) == Break <==> Blank(line)
    ensures QuizBlock(line) == Break <==> Blank(line)
    ensures ReportBlock(line, images, sectionsBefore) == Break <==> Blank(line)
  {
    BlankFacts(line);
    AssignmentBreakIffBlank(line, images);
    SheetBreakIffBlank(line);
    QuizBreakIffBlank(line);
    ReportBreakIffBlank(line, images, sectionsBefore);
  }

  /** What the classifiers test that a blank line fails: every marker, and a non-empty trim. */
  predicate BlankFails(line: string) {
    Blank(line) ==>
      (!HasPairFrom(line, 0) && !IsH1Line(line) && !IsH2Line(line)
       && !IsH3Line(line) && !IsBulletLine(line) && !IsNumberedLine(line) && ImageMarker(line) == None)
  }

  /** A blank line trims to nothing and fails every marker test. */
  lemma BlankFacts(line: string)
    ensures Trim(line) == "" <==> Blank(line)
    ensures BlankFails(line)
  {
    TrimEmptyIffBlank(line);
    if Blank(line) {
      BlankHasNoPair(line);
      assert ImageMarker(line) == None;
    }
  }

  lemma AssignmentBreakIffBlank(line: string, images: seq<SearchImage>)
    requires (Trim(line) == "" <==> Blank(line)) && BlankFails(line)
    ensures AssignmentBlock(line, images) == Break <==> Blank(line)
  {
  }

  lemma SheetBreakIffBlank(line: string)
    requires (Trim(line) == "" <==> Blank(line)) && BlankFails(line)
    ensures SheetBlock(line) == Break <==> Blank(line)
  {
  }

  lemma QuizBreakIffBlank(line: string)
    requires (Trim(line) == "" <==> Blank(line)) && BlankFails(line)
    ensures QuizBlock(line) == Break <==> Blank(line)
  {
  }

  lemma ReportBreakIffBlank(line: string, images: seq<SearchImage>, sectionsBefore: nat)
    requires (Trim(line) == "" <==> Blank(line)) && BlankFails(line)
    ensures ReportBlock(line, images, sectionsBefore) == Break <==> Blank(line)
  {
  }

  /**
   * A bullet line holding '**' is a bold paragraph on the assignment, report
   * and sheet pages but a bullet on the quiz page, which tests bullets first.
   */
  lemma BoldBulletDependsOnPage(line: string, images: seq<SearchImage>, sectionsBefore: nat)
    requires IsBulletLine(line) && HasPairFrom(line, 0)
    ensures AssignmentBlock(line, images) == BoldParagraph(SplitBold(line))
    ensures SheetBlock(line) == BoldParagraph(SplitBold(line))
    ensures ReportBlock(line, images, sectionsBefore) == BoldParagraph(SplitBold(line))
    ensures QuizBlock(line) == Bullet(AfterMarker(line, 1))
  {
    assert line[0] == '-' || line[0] == '*';
  }

  /** A heading written as marker, space and text is read back as that text, on every page. */
  lemma HeadingRoundTrip(text: string, images: seq<SearchImage>)
    requires |text| == 0 || (!IsWhitespace(text[0]) && text[0] != '#')
    ensures AssignmentBlock("# " + text, images) == Heading1(text)
    ensures QuizBlock("## " + text) == Heading2(text)
    ensures SheetBlock("### " + text) == Heading3(text)
  {
    var h1, h2, h3 := "# " + text, "## " + text, "### " + text;
    assert h1[1..] == " " + text && h2[2..] == " " + text && h3[3..] == " " + text;
    assert h1[0] == '#' && h1[1] == ' ';
    assert h2[0] == '#' && h2[1] == '#' && h2[2] == ' ';
    assert h3[0] == '#' && h3[1] == '#' && h3[2] == '#' && h3[3] == ' ';
    assert IsH1Line(h1) && IsH2Line(h2) && !IsH1Line(h2) && IsH3Line(h3) && !IsH1Line(h3) && !IsH2Line(h3);
    TrimStartOfClean(text);
    assert TrimStart(" " + text) == text by {
      assert (" " + text)[1..] == text;
    }
  }

  /** A numbered line 'n. text' gives back n and the text. */
  lemma NumberedRoundTrip(n: nat, text: string)
    requires |text| == 0 || !IsWhitespace(text[0])
    ensures var line := NatToString(n) + ". " + text;
      IsNumberedLine(line) && NumberedLabel(line) == NatToString(n) && NumberedText(line) == text
  {
    var digits := NatToString(n);
    var line := digits + ". " + text;
    NumberedPrefix(digits, text);
    assert line[|digits| + 1..] == " " + text;
    TrimStartOfClean(text);
    assert TrimStart(" " + text) == text by {
      assert (" " + text)[1..] == text;
    }
  }

  lemma NumberedPrefix(digits: string, text: string)
    requires |digits| > 0 && AllDigits(digits)
    ensures var line := digits + ". " + text;
      DigitRun(line) == |digits| && IsNumberedLine(line) && line[..|digits|] == digits
  {
    var line := digits + ". " + text;
    assert line == digits + (". " + text);
    DigitRunOf(digits, ". " + text);
    assert line[|digits|] == '.' && line[|digits| + 1] == ' ';
  }

  /** The marker line passes none of the tests the assignment page makes before the marker test. */
  lemma MarkerLineIsPlain(n: nat)
    ensures var line := "[IMAGE_" + NatToString(n) + "]";
      !IsH1Line(line) && !IsH2Line(line) && !IsH3Line(line) && !IsBulletLine(line)
      && !IsNumberedLine(line) && !HasPairFrom(line, 0)
  {
    var digits := NatToString(n);
    var line := "[IMAGE_" + digits + "]";
    assert line[0] == '[';
    assert !IsDigit(line[0]);
    HasPairIffAt(line, 0);
    forall i | 0 <= i < |line| ensures line[i] != '*' {
      if 7 <= i < 7 + |digits| {
        assert line[i] == digits[i - 7];
      }
    }
  }

  /**
   * On the assignment page a line that is exactly the marker '[IMAGE_n]'
   * shows picked image n, or nothing when there is no image n.
   */
  lemma AssignmentFigure(n: nat, images: seq<SearchImage>)
    ensures var line := "[IMAGE_" + NatToString(n) + "]";
      AssignmentBlock(line, images) == FigureOf(n, images)
  {
    ImageMarkerRoundTrip(n);
    MarkerLineIsPlain(n);
  }

  // ---------------------------------------------------------------------------
  // Whole texts

  /** `lines.map(f)`: one block per line, in order. */
  function MapLines(lines: seq<string>, f: string -> Block): (r: seq<Block>)
    ensures |r| == |lines| && forall i :: 0 <= i < |lines| ==> r[i] == f(lines[i])
  {
    if |lines| == 0 then [] else MapLines(lines[..|lines| - 1], f) + [f(lines[|lines| - 1])]
  }

  function FormatAssignment(text: string, images: seq<SearchImage>): seq<Block> {
    MapLines(Split(text, '\n'), line => AssignmentBlock(line, images))
  }

  function FormatSheet(text: string): seq<Block> {
    MapLines(Split(text, '\n'), SheetBlock)
  }

  function FormatQuiz(text: string): seq<Block> {
    MapLines(Split(text, '\n'), QuizBlock)
  }

  /** The number of '## ' lines. */
  function SectionCount(lines: seq<string>): (n: nat)
    ensures n <= |lines|
  {
    if |lines| == 0 then 0
    else SectionCount(lines[..|lines| - 1]) + (if IsH2Line(lines[|lines| - 1]) then 1 else 0)
  }

  /** The report's blocks: line i sees the count of '## ' lines before it. */
  function ReportBlocks(lines: seq<string>, images: seq<SearchImage>): (r: seq<Block>)
    ensures |r| == |lines|
    ensures forall i :: 0 <= i < |lines| ==> r[i] == ReportBlock(lines[i], images, SectionCount(lines[..i]))
  {
    ScanSections(lines, (line, before) => ReportBlock(line, images, before))
  }

  /** A map over the lines in which line i also sees the count of '## ' lines before it. */
  function ScanSections<T>(lines: seq<string>, f: (string, nat) -> T): (r: seq<T>)
    ensures |r| == |lines|
    ensures forall i :: 0 <= i < |lines| ==> r[i] == f(lines[i], SectionCount(lines[..i]))
  {
    if |lines| == 0 then []
    else
      var init := lines[..|lines| - 1];
      PrefixesOfInit(lines);
      ScanSections(init, f) + [f(lines[|lines| - 1], SectionCount(init))]
  }

  /** Dropping the last line keeps every shorter prefix and every earlier line. */
  lemma PrefixesOfInit<T>(lines: seq<T>)
    requires |lines| > 0
    ensures forall i :: 0 <= i < |lines| - 1 ==> lines[..|lines| - 1][..i] == lines[..i]
    ensures lines[..|lines| - 1][..|lines| - 1] == lines[..|lines| - 1]
  {
  }

  /** A report block is a section exactly for a '## ' line, and it is numbered one past the count before it. */
  lemma ReportBlockSection(line: string, images: seq<SearchImage>, sectionsBefore: nat)
    ensures ReportBlock(line, images, sectionsBefore).Section? <==> IsH2Line(line)
    ensures IsH2Line(line) ==> ReportBlock(line, images, sectionsBefore).number == sectionsBefore + 1
  {
    if IsH2Line(line) {
      assert line[1] == '#';
    }
  }

  /**
   * The report's section headers are numbered 1, 2, 3, ... in order: the
   * block of a '## ' line carries the count of '## ' lines up to and
   * including it.
   */
  lemma SectionsNumberedInOrder(lines: seq<string>, images: seq<SearchImage>, i: nat)
    requires i < |lines|
    ensures ReportBlocks(lines, images)[i].Section? <==> IsH2Line(lines[i])
    ensures IsH2Line(lines[i]) ==> ReportBlocks(lines, images)[i].number == SectionCount(lines[..i + 1])
  {
    var before := SectionCount(lines[..i]);
    assert ReportBlocks(lines, images)[i] == ReportBlock(lines[i], images, before);
    ReportBlockSection(lines[i], images, before);
    assert lines[..i + 1][..i] == lines[..i];
  }

  /** Adding one line to the report adds its block, numbered by the count before it. */
  lemma ReportBlocksStep(lines: seq<string>, images: seq<SearchImage>, i: nat)
    requires i < |lines|
    ensures ReportBlocks(lines[..i + 1], images)
      == ReportBlocks(lines[..i], images) + [ReportBlock(lines[i], images, SectionCount(lines[..i]))]
    ensures SectionCount(lines[..i + 1]) == SectionCount(lines[..i]) + (if IsH2Line(lines[i]) then 1 else 0)
  {
    var longer, shorter := lines[..i + 1], lines[..i];
    assert longer[..i] == shorter;
    var a := ReportBlocks(longer, images);
    var b := ReportBlocks(shorter, images) + [ReportBlock(lines[i], images, SectionCount(shorter))];
    forall k | 0 <= k < i ensures a[k] == b[k] {
      assert longer[k] == shorter[k] && longer[..k] == shorter[..k];
    }
  }

  lemma ReportHeadings(line: string, images: seq<SearchImage>, sectionsBefore: nat)
    ensures IsH1Line(line) ==> ReportBlock(line, images, sectionsBefore) == Heading1(AfterMarker(line, 1))
    ensures IsH2Line(line) ==> ReportBlock(line, images, sectionsBefore) == Section(sectionsBefore + 1, SectionTitle(line))
  {
    if IsH2Line(line) {
      assert line[1] == '#';
    }
  }

  /**
   * `formatContent` of the report page: a map over the lines that bumps a
   * local section counter on every '## ' line.
   */
  method FormatReport(text: string, images: seq<SearchImage>) returns (blocks: seq<Block>)
    ensures blocks == ReportBlocks(Split(text, '\n'), images)
  {
    var lines := Split(text, '\n');
    var sectionNumber := 0;
    blocks := [];
    var i := 0;
    while i < |lines|
      invariant 0 <= i <= |lines|
      invariant blocks == ReportBlocks(lines[..i], images)
      invariant sectionNumber == SectionCount(lines[..i])
    {
      var line := lines[i];
      ReportBlocksStep(lines, images, i);
      ReportHeadings(line, images, sectionNumber);
      var block;
      if IsH1Line(line) {
        block := Heading1(AfterMarker(line, 1));
      } else if IsH2Line(line) {
        sectionNumber := sectionNumber + 1;
        block := Section(sectionNumber, SectionTitle(line));
      } else {
        block := ReportBlock(line, images, sectionNumber);
      }
      blocks := blocks + [block];
      i := i + 1;
    }
    assert lines[..|lines|] == lines;
  }
}
