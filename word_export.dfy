/**
 * utils/wordExport.ts: the name a Word download gets, the colours the
 * element export falls back to, and the chain of rewrites `exportTextToWord`
 * applies to plain text before it is saved as a Word document.
 *
 * The rewrites are regular-expression replacements. Those anchored with `^`
 * and `$` under the `m` flag act on one line at a time; `.` never crosses a
 * line terminator, so the others act within a line too. Each replacement is
 * a function here, and the export is their composition in the source's order.
 */
module WordExport {
  import opened Common
  import opened Text
  import Blocks
  import opened DesignTemplates
  import Generation

  // ---------------------------------------------------------------------------
  // The download name

  /** `filename.endsWith('.doc') ? filename : `${filename}.doc`` */
  function DocName(filename: string): (r: string)
    ensures EndsWith(r, ".doc")
    ensures |filename| <= |r| <= |filename| + 4 && r[..|filename|] == filename
    ensures EndsWith(filename, ".doc") ==> r == filename
    ensures !EndsWith(filename, ".doc") ==> r == filename + ".doc"
  {
    if EndsWith(filename, ".doc") then filename
    else
      assert (filename + ".doc")[|filename|..] == ".doc";
      filename + ".doc"
  }

  /** A name is kept exactly when it already ends in '.doc'; so naming twice is naming once. */
  lemma DocNameIdempotent(filename: string)
    ensures DocName(filename) == filename <==> EndsWith(filename, ".doc")
    ensures DocName(DocName(filename)) == DocName(filename)
  {
  }

  // ---------------------------------------------------------------------------
  // Colours of the element export

  /** The colours `exportToWord` styles the document with. */
  datatype WordColors = WordColors(primary: string, secondary: string, accent: string, text: string, titleBg: string)

  /** What is used when no design is passed, or when a design leaves a colour empty. */
  const DEFAULT_COLORS: WordColors := WordColors("#2F5496", "#2F5496", "#F2F2F2", "#000000", "#ffffff")

  predicate Filled(c: WordColors) {
    c.primary != "" && c.secondary != "" && c.accent != "" && c.text != "" && c.titleBg != ""
  }

  /** `design?.colors.primary || '#2F5496'` and its four kin; the text colour is the design's `textPrimary`. */
  function ColorsOf(design: Option<DesignTemplate>): (c: WordColors)
    ensures Filled(c)
    ensures design.None? ==> c == DEFAULT_COLORS
  {
    if design.None? then DEFAULT_COLORS
    else
      var d := design.value.colors;
      WordColors(Generation.OrElse(d.primary, DEFAULT_COLORS.primary),
                 Generation.OrElse(d.secondary, DEFAULT_COLORS.secondary),
                 Generation.OrElse(d.accent, DEFAULT_COLORS.accent),
                 Generation.OrElse(d.textPrimary, DEFAULT_COLORS.text),
                 Generation.OrElse(d.titleBg, DEFAULT_COLORS.titleBg))
  }

  /** A design whose colours are all given is used as it is; each empty colour falls back on its own. */
  lemma ColorsOfDesign(t: DesignTemplate)
    ensures var c := ColorsOf(Some(t));
      (t.colors.primary != "" ==> c.primary == t.colors.primary)
      && (t.colors.primary == "" ==> c.primary == DEFAULT_COLORS.primary)
      && (t.colors.accent != "" ==> c.accent == t.colors.accent)
      && (t.colors.accent == "" ==> c.accent == DEFAULT_COLORS.accent)
      && (t.colors.textPrimary != "" ==> c.text == t.colors.textPrimary)
      && (t.colors.textPrimary == "" ==> c.text == DEFAULT_COLORS.text)
  {
  }

  // ---------------------------------------------------------------------------
  // Lines

  /** No character of the text ends a line. */
  predicate OneLine(s: string) {
    forall k :: 0 <= k < |s| ==> !Blocks.IsLineTerminator(s[k])
  }

  /** The length of the first line: up to the first line terminator. */
  function LineLength(s: string): (n: nat)
    ensures n <= |s| && OneLine(s[..n])
    ensures n < |s| ==> Blocks.IsLineTerminator(s[n])
  {
    if |s| == 0 || Blocks.IsLineTerminator(s[0]) then 0
    else
      var n := 1 + LineLength(s[1..]);
      assert s[..n] == [s[0]] + s[1..][..n - 1];
      n
  }

  /** The line-anchored rewrites of the chain. */
  datatype LineRule =
    | Heading(level: nat)   // `^#{level} (.*$)` → `<h{level}>$1</h{level}>`
    | DashItem              // `^- (.*$)` → `<li>$1</li>`
    | NumberItem            // `^\d+\. (.*$)` → `<li>$1</li>`

  function HeadingTag(level: nat): (tag: string)
    ensures PlainTag(tag)
  {
    if level == 1 then "h1" else if level == 2 then "h2" else "h3"
  }

  /** A tag name that is one line, holds no '*' or '<', and does not start like `li`. */
  predicate PlainTag(tag: string) {
    |tag| > 0 && tag[0] != 'l' && OneLine(tag) && Lacks(tag, '*') && Lacks(tag, '<')
  }

  /** The two emphasis tags are plain. */
  lemma EmphasisTags()
    ensures PlainTag("strong") && PlainTag("em")
  {
  }

  /** `<tag>body</tag>` */
  function Tagged(tag: string, body: string): string {
    "<" + tag + ">" + body + "</" + tag + ">"
  }

  /** The line starts with `level` '#' characters and a space. */
  predicate HeadingMarker(line: string, level: nat) {
    |line| > level && line[level] == ' ' && forall k :: 0 <= k < level ==> line[k] == '#'
  }

  /** A decimal number, a '.' and a space: where the item's text starts, if the line is one. */
  function NumberMarker(line: string): (r: Option<nat>)
    ensures r.Some? ==> 3 <= r.value <= |line|
  {
    var d := DigitRun(line);
    if 0 < d && d + 1 < |line| && line[d] == '.' && line[d + 1] == ' ' then Some(d + 2) else None
  }

  /** The rewrite of one line. */
  function ApplyRule(rule: LineRule, line: string): string {
    match rule
    case Heading(level) => if HeadingMarker(line, level) then Tagged(HeadingTag(level), line[level + 1..]) else line
    case DashItem => if |line| >= 2 && line[0] == '-' && line[1] == ' ' then Tagged("li", line[2..]) else line
    case NumberItem => if NumberMarker(line).Some? then Tagged("li", line[NumberMarker(line).value..]) else line
  }

  /** A `^…$` replacement with the `g` and `m` flags: every line rewritten by itself, the line ends kept. */
  function PerLine(s: string, rule: LineRule): string
    decreases |s|
  {
    var n := LineLength(s);
    if n == |s| then ApplyRule(rule, s) else ApplyRule(rule, s[..n]) + [s[n]] + PerLine(s[n + 1..], rule)
  }

  /** A text of one line is rewritten as that line. */
  lemma PerLineOfLine(s: string, rule: LineRule)
    requires OneLine(s)
    ensures PerLine(s, rule) == ApplyRule(rule, s)
  {
  }

  /** A line, its terminator and the rest: the line is rewritten alone and the terminator kept. */
  lemma PerLineOfLines(line: string, t: char, rest: string, rule: LineRule)
    requires OneLine(line) && Blocks.IsLineTerminator(t)
    ensures PerLine(line + [t] + rest, rule) == ApplyRule(rule, line) + [t] + PerLine(rest, rule)
  {
    var s := line + [t] + rest;
    assert s == line + ([t] + rest);
    LineLengthOf(line, [t] + rest);
    var n := LineLength(s);
    assert n == |line| < |s|;
    assert s[..n] == line && s[n] == t && s[n + 1..] == rest;
    assert PerLine(s, rule) == ApplyRule(rule, s[..n]) + [s[n]] + PerLine(s[n + 1..], rule);
  }

  lemma {:induction false} LineLengthOf(line: string, rest: string)
    requires OneLine(line) && |rest| > 0 && Blocks.IsLineTerminator(rest[0])
    ensures LineLength(line + rest) == |line|
  {
    if |line| > 0 {
      assert (line + rest)[1..] == line[1..] + rest;
      LineLengthOf(line[1..], rest);
    } else {
      assert line + rest == rest;
    }
  }

  // ---------------------------------------------------------------------------
  // Delimited spans: `\*\*(.*?)\*\*` and `\*(.*?)\*`

  /** The closing delimiter of a lazy `(.*?)` from `k`: its first occurrence before any line terminator. */
  function Closing(s: string, k: nat, d: string): (r: Option<nat>)
    requires |d| > 0
    decreases |s| - k
    ensures r.Some? ==> k <= r.value && OccursAt(s, d, r.value)
    ensures r.Some? ==> forall m :: k <= m < r.value ==> !Blocks.IsLineTerminator(s[m]) && !OccursAt(s, d, m)
  {
    if k + |d| > |s| then None
    else if OccursAt(s, d, k) then Some(k)
    else if Blocks.IsLineTerminator(s[k]) then None
    else Closing(s, k + 1, d)
  }

  /**
   * `s.replace(/d(.*?)d/g, '<tag>$1</tag>')` for a delimiter `d`: from the
   * left, each opening delimiter with a closing one on its line is replaced
   * with the enclosed text in the tag; the search goes on after the closing
   * delimiter. Any other character is kept.
   */
  function ReplaceDelimited(s: string, d: string, tag: string): string
    requires |d| > 0
    decreases |s|
  {
    if |s| == 0 then ""
    else if OccursAt(s, d, 0) && Closing(s, |d|, d).Some? then
      var j := Closing(s, |d|, d).value;
      Tagged(tag, s[|d|..j]) + ReplaceDelimited(s[j + |d|..], d, tag)
    else [s[0]] + ReplaceDelimited(s[1..], d, tag)
  }

  /** The text has no character `c`. */
  predicate Lacks(s: string, c: char) {
    forall k :: 0 <= k < |s| ==> s[k] != c
  }

  /** Text without the delimiter's first character is left as it is. */
  lemma {:induction false} ReplaceDelimitedAbsent(s: string, d: string, tag: string)
    requires |d| > 0 && Lacks(s, d[0])
    ensures ReplaceDelimited(s, d, tag) == s
    decreases |s|
  {
    if |s| > 0 {
      assert !OccursAt(s, d, 0);
      ReplaceDelimitedAbsent(s[1..], d, tag);
    }
  }

  /** The delimiter closes right after a run of characters that cannot start it and do not end the line. */
  lemma {:induction false} ClosingAfter(s: string, k: nat, n: nat, d: string)
    requires |d| > 0 && k + n <= |s| && OccursAt(s, d, k + n)
    requires forall m :: k <= m < k + n ==> s[m] != d[0] && !Blocks.IsLineTerminator(s[m])
    ensures Closing(s, k, d) == Some(k + n)
    decreases n
  {
    if n > 0 {
      assert !OccursAt(s, d, k) by {
        assert s[k..k + |d|][0] == s[k];
      }
      ClosingAfter(s, k + 1, n - 1, d);
    }
  }

  /** A span `d x d` whose inside neither starts the delimiter nor ends the line becomes `<tag>x</tag>`. */
  lemma Delimited(x: string, d: string, tag: string)
    requires |d| > 0 && Lacks(x, d[0]) && OneLine(x)
    ensures ReplaceDelimited(d + x + d, d, tag) == Tagged(tag, x)
  {
    var s := d + x + d;
    assert OccursAt(s, d, 0) by {
      assert s[0..|d|] == d;
    }
    assert OccursAt(s, d, |d| + |x|) by {
      assert s[|d| + |x|..|d| + |x| + |d|] == d;
    }
    forall m | |d| <= m < |d| + |x|
      ensures s[m] != d[0] && !Blocks.IsLineTerminator(s[m])
    {
      assert s[m] == x[m - |d|];
    }
    ClosingAfter(s, |d|, |x|, d);
    assert s[|d|..|d| + |x|] == x;
    assert s[|d| + |x| + |d|..] == [];
  }

  // ---------------------------------------------------------------------------
  // Literal replacements: `\n\n` and `\n`

  /** `s.replace(/pat/g, rep)` for a pattern without special characters. */
  function ReplaceAll(s: string, pat: string, rep: string): string
    requires |pat| > 0
    decreases |s|
  {
    if |s| == 0 then ""
    else if StartsWith(s, pat) then rep + ReplaceAll(s[|pat|..], pat, rep)
    else [s[0]] + ReplaceAll(s[1..], pat, rep)
  }

  /** Text without the pattern's first character is left as it is. */
  lemma {:induction false} ReplaceAllAbsent(s: string, pat: string, rep: string)
    requires |pat| > 0 && Lacks(s, pat[0])
    ensures ReplaceAll(s, pat, rep) == s
    decreases |s|
  {
    if |s| > 0 {
      assert !StartsWith(s, pat) by {
        if |pat| <= |s| {
          assert s[..|pat|][0] == s[0];
        }
      }
      ReplaceAllAbsent(s[1..], pat, rep);
    }
  }

  /** A character that neither the replacement nor the kept text holds is not in the result; a one-character pattern is gone from it. */
  lemma {:induction false} ReplaceAllLacks(s: string, pat: string, rep: string, c: char)
    requires |pat| > 0 && Lacks(rep, c) && (Lacks(s, c) || pat == [c])
    ensures Lacks(ReplaceAll(s, pat, rep), c)
    decreases |s|
  {
    if |s| > 0 {
      var r := ReplaceAll(s, pat, rep);
      if StartsWith(s, pat) {
        ReplaceAllLacks(s[|pat|..], pat, rep, c);
        LacksConcat(rep, ReplaceAll(s[|pat|..], pat, rep), c);
      } else {
        assert s[0] != c by {
          if pat == [c] {
            assert s[..|pat|] != pat;
          }
        }
        ReplaceAllLacks(s[1..], pat, rep, c);
        LacksConcat([s[0]], ReplaceAll(s[1..], pat, rep), c);
      }
    }
  }

  lemma LacksConcat(a: string, b: string, c: char)
    requires Lacks(a, c) && Lacks(b, c)
    ensures Lacks(a + b, c)
  {
    forall k | 0 <= k < |a + b| ensures (a + b)[k] != c {
      if k >= |a| {
        assert (a + b)[k] == b[k - |a|];
      }
    }
  }

  // ---------------------------------------------------------------------------
  // Lists: `(<li>.*?<\/li>)+` → `<ul>$&</ul>`

  /** `<li>` at `k`. */
  predicate ItemOpenAt(s: string, k: nat) {
    k + 4 <= |s| && s[k] == '<' && s[k + 1] == 'l' && s[k + 2] == 'i' && s[k + 3] == '>'
  }

  /** `</li>` at `k`. */
  predicate ItemCloseAt(s: string, k: nat) {
    k + 5 <= |s| && s[k] == '<' && s[k + 1] == '/' && s[k + 2] == 'l' && s[k + 3] == 'i' && s[k + 4] == '>'
  }

  /** The `<\/li>` that ends the lazy `.*?` of an item opened before `k`: the first one before any line terminator. */
  function ItemClosing(s: string, k: nat): (r: Option<nat>)
    decreases |s| - k
    ensures r.Some? ==> k <= r.value && ItemCloseAt(s, r.value)
    ensures r.Some? ==> forall m :: k <= m < r.value ==> !Blocks.IsLineTerminator(s[m]) && !ItemCloseAt(s, m)
  {
    if k + 5 > |s| then None
    else if ItemCloseAt(s, k) then Some(k)
    else if Blocks.IsLineTerminator(s[k]) then None
    else ItemClosing(s, k + 1)
  }

  /** Where the run of items that `(<li>.*?<\/li>)+` matches from `k` ends; `k` when no item starts there. */
  function ItemRunEnd(s: string, k: nat): (e: nat)
    decreases |s| - k
    ensures k <= e
    ensures k <= |s| ==> e <= |s|
    ensures e > k ==> ItemOpenAt(s, k)
  {
    if ItemOpenAt(s, k) && ItemClosing(s, k + 4).Some? then
      ItemRunEnd(s, ItemClosing(s, k + 4).value + 5)
    else k
  }

  /** Each maximal run of items is wrapped in one list; the rest is kept. */
  function WrapLists(s: string): string
    decreases |s|
  {
    if |s| == 0 then ""
    else
      var e := ItemRunEnd(s, 0);
      if e > 0 then "<ul>" + s[..e] + "</ul>" + WrapLists(s[e..]) else [s[0]] + WrapLists(s[1..])
  }

  /** No '<' is followed by an 'l': no item can open. */
  predicate NoItemOpens(s: string) {
    forall k :: 0 <= k < |s| && s[k] == '<' ==> k + 1 < |s| && s[k + 1] != 'l'
  }

  /** Where no item opens, the first character is kept and the rest wrapped. */
  lemma WrapListsStep(t: string)
    requires |t| > 0 && !ItemOpenAt(t, 0)
    ensures WrapLists(t) == [t[0]] + WrapLists(t[1..])
  {
    assert ItemRunEnd(t, 0) == 0;
  }

  lemma NoItemOpensTail(s: string)
    requires |s| > 0 && NoItemOpens(s)
    ensures NoItemOpens(s[1..]) && !ItemOpenAt(s, 0)
  {
    forall k | 0 <= k < |s[1..]| && s[1..][k] == '<' ensures k + 1 < |s[1..]| && s[1..][k + 1] != 'l' {
      assert s[k + 1] == '<';
    }
  }

  /** Text in which no item can open is left as it is. */
  lemma {:induction false} WrapListsNone(s: string)
    requires NoItemOpens(s)
    ensures WrapLists(s) == s
    decreases |s|
  {
    if |s| > 0 {
      NoItemOpensTail(s);
      WrapListsStep(s);
      WrapListsNone(s[1..]);
    }
  }

  lemma ConsConcat(c: char, u: string, w: string)
    ensures [c] + (u + w) == ([c] + u) + w
  {
  }

  /** A prefix in which no item can open can be passed over. */
  lemma {:induction false} WrapListsAfter(a: string, s: string)
    requires NoItemOpens(a)
    ensures WrapLists(a + s) == a + WrapLists(s)
    decreases |a|
  {
    if |a| > 0 {
      var t := a + s;
      NoItemOpensTail(a);
      assert t[0] == a[0] && t[1..] == a[1..] + s;
      assert !ItemOpenAt(t, 0) by {
        if a[0] == '<' {
          assert t[1] == a[1];
        }
      }
      WrapListsStep(t);
      WrapListsAfter(a[1..], s);
      ConsConcat(a[0], a[1..], WrapLists(s));
      assert [a[0]] + a[1..] == a;
    } else {
      assert a + s == s;
    }
  }

  /** The characters of `<li>x</li>`. */
  lemma ItemChars(x: string)
    ensures var t := Tagged("li", x);
      |t| == |x| + 9 && ItemOpenAt(t, 0) && ItemCloseAt(t, |x| + 4)
      && forall i :: 0 <= i < |x| ==> t[4 + i] == x[i]
  {
  }

  /** The item closes at the first `</li>` after text without '<' and line terminators. */
  lemma {:induction false} ItemClosingAfter(s: string, k: nat, n: nat)
    requires k + n <= |s| && ItemCloseAt(s, k + n)
    requires forall m :: k <= m < k + n ==> s[m] != '<' && !Blocks.IsLineTerminator(s[m])
    ensures ItemClosing(s, k) == Some(k + n)
    decreases n
  {
    if n > 0 {
      ItemClosingAfter(s, k + 1, n - 1);
    }
  }

  /** One item followed by text that does not open another is wrapped in a list of its own. */
  lemma WrapOneItem(x: string, rest: string)
    requires OneLine(x) && Lacks(x, '<')
    requires !ItemOpenAt(rest, 0)
    ensures WrapLists(Tagged("li", x) + rest) == "<ul>" + Tagged("li", x) + "</ul>" + WrapLists(rest)
  {
    var item := Tagged("li", x);
    var t := item + rest;
    var n := |x|;
    ItemChars(x);
    assert ItemOpenAt(t, 0) by {
      assert t[0] == item[0] && t[1] == item[1] && t[2] == item[2] && t[3] == item[3];
    }
    assert ItemCloseAt(t, n + 4) by {
      assert t[n + 4] == item[n + 4] && t[n + 5] == item[n + 5] && t[n + 6] == item[n + 6];
      assert t[n + 7] == item[n + 7] && t[n + 8] == item[n + 8];
    }
    forall m | 4 <= m < 4 + n ensures t[m] != '<' && !Blocks.IsLineTerminator(t[m]) {
      assert t[m] == item[4 + (m - 4)] == x[m - 4];
    }
    ItemClosingAfter(t, 4, n);
    assert t[n + 9..] == rest;
    assert !ItemOpenAt(t, n + 9) by {
      if n + 13 <= |t| {
        assert t[n + 9] == rest[0] && t[n + 10] == rest[1] && t[n + 11] == rest[2] && t[n + 12] == rest[3];
      }
    }
    assert ItemRunEnd(t, 0) == n + 9;
    assert t[..n + 9] == item;
  }

  /** Text in which no item can open has none after `<p>` and `</p>` are put around it. */
  lemma NoItemOpensConcat(a: string, b: string)
    requires NoItemOpens(a) && NoItemOpens(b)
    ensures NoItemOpens(a + b)
  {
    var t := a + b;
    forall k | 0 <= k < |t| && t[k] == '<' ensures k + 1 < |t| && t[k + 1] != 'l' {
      if k < |a| {
        assert a[k] == '<';
        assert t[k + 1] == a[k + 1];
      } else {
        assert b[k - |a|] == '<';
        assert t[k + 1] == b[k - |a| + 1];
      }
    }
  }

  /** A tag other than `li` around text without '<' lets no item open. */
  lemma NoItemOpensTagged(tag: string, x: string)
    requires |tag| > 0 && tag[0] != 'l' && Lacks(tag, '<') && Lacks(x, '<')
    ensures NoItemOpens(Tagged(tag, x))
  {
    var t := Tagged(tag, x);
    var n := |tag|;
    assert t == "<" + tag + ">" + x + "</" + tag + ">";
    forall k | 1 <= k <= n ensures t[k] == tag[k - 1] != '<' {
    }
    forall k | n + 2 <= k < n + 2 + |x| ensures t[k] == x[k - n - 2] != '<' {
    }
    forall k | n + 4 + |x| <= k < 2 * n + 4 + |x| ensures t[k] == tag[k - n - 4 - |x|] != '<' {
    }
    assert t[n + 1] == '>' && t[n + 3 + |x|] == '/' && t[|t| - 1] == '>' && t[1] == tag[0];
  }

  // ---------------------------------------------------------------------------
  // The whole chain

  /** The three heading rewrites, '#' first. */
  function Headings(s: string): string {
    PerLine(PerLine(PerLine(s, Heading(1)), Heading(2)), Heading(3))
  }

  /** `**…**` to `<strong>`, then what is left of `*…*` to `<em>`. */
  function Emphasis(s: string): string {
    ReplaceDelimited(ReplaceDelimited(s, "**", "strong"), "*", "em")
  }

  /** Dash items, then numbered items, to `<li>`. */
  function Items(s: string): string {
    PerLine(PerLine(s, DashItem), NumberItem)
  }

  /** A blank line to a paragraph break, then every other line end to `<br>`. */
  function Newlines(s: string): string {
    ReplaceAll(ReplaceAll(s, "\n\n", "</p><p>"), "\n", "<br>")
  }

  /** The HTML `exportTextToWord` writes into the document body for `content`. */
  function ToHtml(content: string): string {
    WrapLists("<p>" + Newlines(Items(Emphasis(Headings(content)))) + "</p>")
  }

  // ---------------------------------------------------------------------------
  // What the chain does to one line and to a few lines

  /** Text of one line without markup: no '*', no '<'. */
  predicate Inline(x: string) {
    OneLine(x) && Lacks(x, '*') && Lacks(x, '<')
  }

  /** A line that none of the line rewrites touches: it does not start with '#', '-' or a digit. */
  predicate Unmarked(line: string) {
    |line| == 0 || (line[0] != '#' && line[0] != '-' && !IsDigit(line[0]))
  }

  /** '#', '##' or '###' and a space. */
  function HeadingPrefix(level: nat): string {
    if level == 1 then "# " else if level == 2 then "## " else "### "
  }

  lemma OneLineLacksNewline(s: string)
    requires OneLine(s)
    ensures Lacks(s, '\n')
  {
  }

  /** `<tag>x</tag>` around inline text is one line without '*', and starts with '<'. */
  lemma TaggedInline(tag: string, x: string)
    requires OneLine(tag) && Lacks(tag, '*') && OneLine(x)
    ensures var t := Tagged(tag, x); OneLine(t) && Lacks(t, '\n') && t[0] == '<'
    ensures Lacks(x, '*') ==> Lacks(Tagged(tag, x), '*')
  {
    var t := Tagged(tag, x);
    var n := |tag|;
    assert t == "<" + tag + ">" + x + "</" + tag + ">";
    forall k | 0 <= k < |t| ensures !Blocks.IsLineTerminator(t[k]) && (Lacks(x, '*') ==> t[k] != '*') {
      if 1 <= k <= n {
        assert t[k] == tag[k - 1];
      } else if n + 2 <= k < n + 2 + |x| {
        assert t[k] == x[k - n - 2];
      } else if n + 4 + |x| <= k < 2 * n + 4 + |x| {
        assert t[k] == tag[k - n - 4 - |x|];
      }
    }
  }

  /** A line that does not start with '#' goes through the heading rewrites unchanged. */
  lemma HeadingsKeep(line: string)
    requires OneLine(line) && (|line| == 0 || line[0] != '#')
    ensures Headings(line) == line
  {
    PerLineOfLine(line, Heading(1));
    PerLineOfLine(line, Heading(2));
    PerLineOfLine(line, Heading(3));
  }

  /** A line that starts with neither '-' nor a digit goes through the item rewrites unchanged. */
  lemma ItemsKeep(line: string)
    requires OneLine(line) && (|line| == 0 || (line[0] != '-' && !IsDigit(line[0])))
    ensures Items(line) == line
  {
    PerLineOfLine(line, DashItem);
    assert DigitRun(line) == 0;
    PerLineOfLine(line, NumberItem);
  }

  /** Text without '*' goes through the emphasis rewrites unchanged. */
  lemma EmphasisKeep(s: string)
    requires Lacks(s, '*')
    ensures Emphasis(s) == s
  {
    ReplaceDelimitedAbsent(s, "**", "strong");
    ReplaceDelimitedAbsent(s, "*", "em");
  }

  /** Text without line ends goes through the newline rewrites unchanged. */
  lemma NewlinesKeep(s: string)
    requires Lacks(s, '\n')
    ensures Newlines(s) == s
  {
    ReplaceAllAbsent(s, "\n\n", "</p><p>");
    ReplaceAllAbsent(s, "\n", "<br>");
  }

  /** `# x`, `## x` and `### x` become the heading of that level. */
  lemma HeadingsOfHeading(level: nat, x: string)
    requires 1 <= level <= 3 && OneLine(x)
    ensures Headings(HeadingPrefix(level) + x) == Tagged(HeadingTag(level), x)
  {
    var line := HeadingPrefix(level) + x;
    var p := HeadingPrefix(level);
    assert |p| == level + 1 && line[..level + 1] == p;
    assert line[level + 1..] == x;
    assert OneLine(line) by {
      forall k | 0 <= k < |line| ensures !Blocks.IsLineTerminator(line[k]) {
        if k > level {
          assert line[k] == x[k - level - 1];
        }
      }
    }
    var t := Tagged(HeadingTag(level), x);
    TaggedInline(HeadingTag(level), x);
    PerLineOfLine(line, Heading(1));
    if level == 1 {
      assert ApplyRule(Heading(1), line) == t;
      PerLineOfLine(t, Heading(2));
      PerLineOfLine(t, Heading(3));
    } else {
      assert line[1] == '#';
      assert ApplyRule(Heading(1), line) == line;
      PerLineOfLine(line, Heading(2));
      if level == 2 {
        assert ApplyRule(Heading(2), line) == t;
        PerLineOfLine(t, Heading(3));
      } else {
        assert line[2] == '#';
        assert ApplyRule(Heading(2), line) == line;
        PerLineOfLine(line, Heading(3));
        assert ApplyRule(Heading(3), line) == t;
      }
    }
  }

  /** Text in which no item can open stays so with `<p>` and `</p>` around it. */
  lemma NoItemOpensInParagraph(t: string)
    requires NoItemOpens(t)
    ensures NoItemOpens("<p>" + t + "</p>")
  {
    NoItemOpensConcat("<p>", t);
    NoItemOpensConcat("<p>" + t, "</p>");
  }

  /** A heading line is exported as that heading in a paragraph. */
  lemma HeadingToHtml(level: nat, x: string)
    requires 1 <= level <= 3 && Inline(x)
    ensures ToHtml(HeadingPrefix(level) + x) == "<p>" + Tagged(HeadingTag(level), x) + "</p>"
  {
    HeadingsOfHeading(level, x);
    TaggedKept(HeadingTag(level), x);
    EmphasisKeep(Tagged(HeadingTag(level), x));
  }

  /** An inline element the heading, emphasis and strong rewrites produce passes the later rewrites unchanged. */
  lemma TaggedKept(tag: string, x: string)
    requires PlainTag(tag) && Inline(x)
    ensures var t := Tagged(tag, x);
      Lacks(t, '*') && Items(t) == t && Newlines(t) == t && WrapLists("<p>" + t + "</p>") == "<p>" + t + "</p>"
  {
    var t := Tagged(tag, x);
    TaggedInline(tag, x);
    ItemsKeep(t);
    NewlinesKeep(t);
    NoItemOpensTagged(tag, x);
    NoItemOpensInParagraph(t);
    WrapListsNone("<p>" + t + "</p>");
  }

  /** A delimiter on each side of a line keeps it one line. */
  lemma EnclosedOneLine(d: string, x: string)
    requires OneLine(d) && OneLine(x)
    ensures OneLine(d + x + d)
  {
    var line := d + x + d;
    forall k | 0 <= k < |line| ensures !Blocks.IsLineTerminator(line[k]) {
      if k < |d| {
        assert line[k] == d[k];
      } else if k < |d| + |x| {
        assert line[k] == x[k - |d|];
      } else {
        assert line[k] == d[k - |d| - |x|];
      }
    }
  }

  /** An item in a paragraph is wrapped in a list of its own. */
  lemma ItemInParagraph(x: string)
    requires Inline(x)
    ensures WrapLists("<p>" + Tagged("li", x) + "</p>") == "<p>" + ("<ul>" + Tagged("li", x) + "</ul>") + "</p>"
  {
    var t := Tagged("li", x);
    ParagraphTags();
    assert "<p>" + t + "</p>" == "<p>" + (t + "</p>");
    WrapListsAfter("<p>", t + "</p>");
    WrapOneItem(x, "</p>");
    var u := "<ul>" + t + "</ul>";
    assert WrapLists(t + "</p>") == u + "</p>";
    assert "<p>" + (u + "</p>") == "<p>" + u + "</p>";
  }

  /** No item opens in the paragraph tags. */
  lemma ParagraphTags()
    ensures NoItemOpens("<p>") && NoItemOpens("</p>") && !ItemOpenAt("</p>", 0)
    ensures WrapLists("</p>") == "</p>"
  {
    WrapListsNone("</p>");
  }

  /** `- x` is exported as a one-item list. */
  lemma DashItemToHtml(x: string)
    requires Inline(x)
    ensures ToHtml("- " + x) == "<p>" + ("<ul>" + Tagged("li", x) + "</ul>") + "</p>"
  {
    var line := "- " + x;
    var t := Tagged("li", x);
    assert line[2..] == x;
    assert OneLine(line) && Lacks(line, '*') by {
      forall k | 2 <= k < |line| ensures line[k] == x[k - 2] {
      }
    }
    HeadingsKeep(line);
    EmphasisKeep(line);
    PerLineOfLine(line, DashItem);
    TaggedInline("li", x);
    PerLineOfLine(t, NumberItem);
    assert DigitRun(t) == 0;
    NewlinesKeep(t);
    ItemInParagraph(x);
  }

  /** `N. x` is exported as a one-item list too. */
  lemma NumberItemToHtml(digits: string, x: string)
    requires |digits| > 0 && AllDigits(digits) && Inline(x)
    ensures ToHtml(digits + ". " + x) == "<p>" + ("<ul>" + Tagged("li", x) + "</ul>") + "</p>"
  {
    var line := digits + ". " + x;
    var t := Tagged("li", x);
    NumberLine(digits, x);
    calc {
      ToHtml(line);
      WrapLists("<p>" + Newlines(Items(Emphasis(Headings(line)))) + "</p>");
      { HeadingsKeep(line); EmphasisKeep(line); }
      WrapLists("<p>" + Newlines(Items(line)) + "</p>");
      { PerLineOfLine(line, DashItem); PerLineOfLine(line, NumberItem); }
      WrapLists("<p>" + Newlines(t) + "</p>");
      { TaggedInline("li", x); NewlinesKeep(t); }
      WrapLists("<p>" + t + "</p>");
      { ItemInParagraph(x); }
      "<p>" + ("<ul>" + t + "</ul>") + "</p>";
    }
  }

  /** A numbered line is one line, without '*', not a heading and not a dash item, and its marker ends before `x`. */
  lemma NumberLine(digits: string, x: string)
    requires |digits| > 0 && AllDigits(digits) && Inline(x)
    ensures var line := digits + ". " + x;
      && OneLine(line) && Lacks(line, '*') && line[0] != '#'
      && ApplyRule(DashItem, line) == line && ApplyRule(NumberItem, line) == Tagged("li", x)
  {
    var line := digits + ". " + x;
    var n := |digits|;
    assert line == digits + (". " + x);
    DigitRunOf(digits, ". " + x);
    assert line[n] == '.' && line[n + 1] == ' ' && line[n + 2..] == x;
    assert OneLine(line) && Lacks(line, '*') by {
      forall k | 0 <= k < |line| ensures !Blocks.IsLineTerminator(line[k]) && line[k] != '*' {
        if k < n {
          assert IsDigit(line[k]);
        } else if k >= n + 2 {
          assert line[k] == x[k - n - 2];
        }
      }
    }
    assert IsDigit(line[0]);
    assert NumberMarker(line) == Some(n + 2);
  }

  /** Text without two adjacent delimiter starts is left as it is. */
  lemma {:induction false} ReplaceDelimitedNone(s: string, d: string, tag: string)
    requires |d| > 0 && forall k :: 0 <= k <= |s| ==> !OccursAt(s, d, k)
    ensures ReplaceDelimited(s, d, tag) == s
    decreases |s|
  {
    if |s| > 0 {
      assert !OccursAt(s, d, 0);
      forall k | 0 <= k <= |s| - 1 ensures !OccursAt(s[1..], d, k) {
        assert !OccursAt(s, d, k + 1);
        if k + |d| <= |s| - 1 {
          assert s[1..][k..k + |d|] == s[k + 1..k + 1 + |d|];
        }
      }
      ReplaceDelimitedNone(s[1..], d, tag);
    }
  }

  /** Plain text on one line is exported as one paragraph. */
  lemma PlainToHtml(x: string)
    requires Inline(x) && Unmarked(x)
    ensures ToHtml(x) == "<p>" + x + "</p>"
  {
    HeadingsKeep(x);
    EmphasisKeep(x);
    ItemsKeep(x);
    OneLineLacksNewline(x);
    NewlinesKeep(x);
    assert NoItemOpens(x);
    NoItemOpensInParagraph(x);
    WrapListsNone("<p>" + x + "</p>");
  }

  /** `**x**` is exported as strong text in a paragraph. */
  lemma BoldToHtml(x: string)
    requires Inline(x)
    ensures ToHtml("**" + x + "**") == "<p>" + Tagged("strong", x) + "</p>"
  {
    var line := "**" + x + "**";
    var t := Tagged("strong", x);
    EnclosedOneLine("**", x);
    EmphasisTags();
    HeadingsKeep(line);
    Delimited(x, "**", "strong");
    TaggedKept("strong", x);
    ReplaceDelimitedAbsent(t, "*", "em");
  }

  /** A single star on each side is left by the bold rewrite and becomes emphasis. */
  lemma EmToHtml(x: string)
    requires Inline(x) && |x| > 0
    ensures ToHtml("*" + x + "*") == "<p>" + Tagged("em", x) + "</p>"
  {
    var line := "*" + x + "*";
    var t := Tagged("em", x);
    EnclosedOneLine("*", x);
    EmphasisTags();
    HeadingsKeep(line);
    forall k | 0 <= k <= |line| ensures !OccursAt(line, "**", k) {
      if k + 2 <= |line| {
        assert line[k..k + 2][1] == line[k + 1];
        if k == 0 {
          assert line[1] == x[0];
        } else {
          assert line[k] == x[k - 1];
          assert line[k..k + 2][0] == line[k];
        }
      }
    }
    ReplaceDelimitedNone(line, "**", "strong");
    Delimited(x, "*", "em");
    TaggedKept("em", x);
  }

  // ---------------------------------------------------------------------------
  // Several lines: paragraphs, line breaks and lists

  /** A replacement passes over a prefix that lacks the pattern's first character. */
  lemma {:induction false} ReplaceAllAfter(a: string, s: string, pat: string, rep: string)
    requires |pat| > 0 && Lacks(a, pat[0])
    ensures ReplaceAll(a + s, pat, rep) == a + ReplaceAll(s, pat, rep)
    decreases |a|
  {
    if |a| > 0 {
      var t := a + s;
      assert !StartsWith(t, pat) by {
        if |pat| <= |t| {
          assert t[..|pat|][0] == a[0];
        }
      }
      assert t[0] == a[0] && t[1..] == a[1..] + s;
      ReplaceAllAfter(a[1..], s, pat, rep);
      ConsConcat(a[0], a[1..], ReplaceAll(s, pat, rep));
      assert [a[0]] + a[1..] == a;
    } else {
      assert a + s == s;
    }
  }

  /** A single line end between two lines becomes `<br>`. */
  lemma NewlinesOfBreak(a: string, b: string)
    requires Lacks(a, '\n') && Lacks(b, '\n')
    ensures Newlines(a + ['\n'] + b) == a + "<br>" + b
  {
    var u := ['\n'] + b;
    assert a + ['\n'] + b == a + u;
    assert u[1..] == b;
    assert !StartsWith(u, "\n\n") by {
      if |u| >= 2 {
        assert u[..2][1] == b[0];
      }
    }
    ReplaceAllAbsent(b, "\n\n", "</p><p>");
    assert ReplaceAll(u, "\n\n", "</p><p>") == u;
    ReplaceAllAfter(a, u, "\n\n", "</p><p>");
    assert StartsWith(u, "\n") by {
      assert u[..1] == "\n";
    }
    ReplaceAllAbsent(b, "\n", "<br>");
    assert ReplaceAll(u, "\n", "<br>") == "<br>" + b;
    ReplaceAllAfter(a, u, "\n", "<br>");
  }

  /** A blank line between two lines becomes a paragraph break `</p><p>`. */
  lemma NewlinesOfParagraphs(a: string, b: string)
    requires Lacks(a, '\n') && Lacks(b, '\n')
    ensures Newlines(a + ['\n', '\n'] + b) == a + "</p><p>" + b
  {
    assert a + ['\n', '\n'] + b == a + (['\n', '\n'] + b);
    calc {
      Newlines(a + (['\n', '\n'] + b));
      ReplaceAll(ReplaceAll(a + (['\n', '\n'] + b), "\n\n", "</p><p>"), "\n", "<br>");
      { BlankLineToBreak(a, b); }
      ReplaceAll(a + ("</p><p>" + b), "\n", "<br>");
      { ParagraphBreakKept(a, b); }
      a + ("</p><p>" + b);
    }
  }

  /** The blank line between two lines is the one `\n\n` the first rewrite finds. */
  lemma BlankLineToBreak(a: string, b: string)
    requires Lacks(a, '\n') && Lacks(b, '\n')
    ensures ReplaceAll(a + (['\n', '\n'] + b), "\n\n", "</p><p>") == a + ("</p><p>" + b)
  {
    var u := ['\n', '\n'] + b;
    assert u[2..] == b;
    assert StartsWith(u, "\n\n") by {
      assert u[..2] == "\n\n";
    }
    ReplaceAllAbsent(b, "\n\n", "</p><p>");
    assert ReplaceAll(u, "\n\n", "</p><p>") == "</p><p>" + b;
    ReplaceAllAfter(a, u, "\n\n", "</p><p>");
  }

  /** Two lines around a paragraph break hold no line end for the second rewrite. */
  lemma ParagraphBreakKept(a: string, b: string)
    requires Lacks(a, '\n') && Lacks(b, '\n')
    ensures ReplaceAll(a + ("</p><p>" + b), "\n", "<br>") == a + ("</p><p>" + b)
  {
    assert Lacks("</p><p>", '\n');
    LacksConcat("</p><p>", b, '\n');
    LacksConcat(a, "</p><p>" + b, '\n');
    ReplaceAllAbsent(a + ("</p><p>" + b), "\n", "<br>");
  }

  /** Every line of the text starts with a character none of the line rewrites looks for. */
  predicate LinesUnmarked(s: string) {
    forall k :: 0 <= k < |s| && LineStart(s, k) ==> s[k] != '#' && s[k] != '-' && !IsDigit(s[k])
  }

  /** A line starts at `k`: the text starts there or a line terminator comes just before. */
  predicate LineStart(s: string, k: nat)
    requires k <= |s|
  {
    k == 0 || Blocks.IsLineTerminator(s[k - 1])
  }

  /** The rules of the chain: headings of level 1 to 3 and the two kinds of item. */
  predicate ChainRule(rule: LineRule) {
    rule.Heading? ==> rule.level >= 1
  }

  /** A line rule leaves a line that does not start with '#', '-' or a digit as it is. */
  lemma ApplyRuleKeeps(rule: LineRule, line: string)
    requires ChainRule(rule) && Unmarked(line)
    ensures ApplyRule(rule, line) == line
  {
    if |line| > 0 {
      assert DigitRun(line) == 0;
    }
  }

  /** A line rule leaves text whose every line is unmarked as it is. */
  lemma {:induction false} PerLineOfUnmarked(s: string, rule: LineRule)
    requires ChainRule(rule) && LinesUnmarked(s)
    ensures PerLine(s, rule) == s
    decreases |s|
  {
    var n := LineLength(s);
    FirstLineUnmarked(s, n);
    ApplyRuleKeeps(rule, s[..n]);
    if n < |s| {
      var rest := s[n + 1..];
      LinesUnmarkedTail(s, n);
      calc {
        PerLine(s, rule);
        { PerLineUnfold(s, rule); }
        ApplyRule(rule, s[..n]) + [s[n]] + PerLine(rest, rule);
        { PerLineOfUnmarked(rest, rule); }
        s[..n] + [s[n]] + rest;
        { SplitAround(s, n); }
        s;
      }
    } else {
      assert s[..n] == s;
    }
  }

  /** A sequence is what comes before position `n`, the element there, and what follows. */
  lemma SplitAround<T>(s: seq<T>, n: nat)
    requires n < |s|
    ensures s[..n] + [s[n]] + s[n + 1..] == s
  {
  }

  /** The first step of a `^…$` replacement after a line that ends at `LineLength(s)`. */
  lemma PerLineUnfold(s: string, rule: LineRule)
    requires LineLength(s) < |s|
    ensures var n := LineLength(s);
      PerLine(s, rule) == ApplyRule(rule, s[..n]) + [s[n]] + PerLine(s[n + 1..], rule)
  {
  }

  lemma FirstLineUnmarked(s: string, n: nat)
    requires LinesUnmarked(s) && n <= |s|
    ensures Unmarked(s[..n])
  {
    if n > 0 {
      assert s[..n][0] == s[0] && LineStart(s, 0);
    }
  }

  lemma LinesUnmarkedTail(s: string, n: nat)
    requires LinesUnmarked(s) && n < |s| && Blocks.IsLineTerminator(s[n])
    ensures LinesUnmarked(s[n + 1..])
  {
    var rest := s[n + 1..];
    forall k | 0 <= k < |rest| && LineStart(rest, k)
      ensures rest[k] != '#' && rest[k] != '-' && !IsDigit(rest[k])
    {
      assert rest[k] == s[n + 1 + k];
      if k > 0 {
        assert rest[k - 1] == s[n + 1 + k - 1];
      }
      assert LineStart(s, n + 1 + k);
    }
  }

  /** Text without '*' whose lines are all unmarked goes through headings, emphasis and items unchanged. */
  lemma MarkupKeeps(s: string)
    requires LinesUnmarked(s) && Lacks(s, '*')
    ensures Items(Emphasis(Headings(s))) == s
  {
    PerLineOfUnmarked(s, Heading(1));
    PerLineOfUnmarked(s, Heading(2));
    PerLineOfUnmarked(s, Heading(3));
    EmphasisKeep(s);
    PerLineOfUnmarked(s, DashItem);
    PerLineOfUnmarked(s, NumberItem);
  }

  /** Two plain lines around line ends: every line starts unmarked and no '*' occurs. */
  lemma PlainLines(a: string, ends: string, b: string)
    requires Inline(a) && Unmarked(a) && Inline(b) && Unmarked(b)
    requires |ends| > 0 && forall k :: 0 <= k < |ends| ==> ends[k] == '\n'
    ensures LinesUnmarked(a + ends + b) && Lacks(a + ends + b, '*')
  {
    var s := a + ends + b;
    forall k | 0 <= k < |s| ensures s[k] != '*' {
      if k < |a| {
        assert s[k] == a[k];
      } else if k < |a| + |ends| {
        assert s[k] == ends[k - |a|];
      } else {
        assert s[k] == b[k - |a| - |ends|];
      }
    }
    forall k | 0 <= k < |s|
      ensures LineStart(s, k) ==> s[k] != '#' && s[k] != '-' && !IsDigit(s[k])
    {
      if k < |a| {
        assert s[k] == a[k];
        if k > 0 {
          assert s[k - 1] == a[k - 1];
        }
      } else if k < |a| + |ends| {
        assert s[k] == ends[k - |a|];
      } else {
        assert s[k] == b[k - |a| - |ends|];
        if k > |a| + |ends| {
          assert s[k - 1] == b[k - 1 - |a| - |ends|];
        } else {
          assert s[k] == b[0];
        }
      }
    }
    assert LinesUnmarked(s);
  }

  /** Text without '<' lets no list item open. */
  lemma NoItemOpensOfPlain(x: string)
    requires Lacks(x, '<')
    ensures NoItemOpens(x)
  {
  }

  /** Two plain lines with a blank line between them become two paragraphs. */
  lemma ParagraphsToHtml(a: string, b: string)
    requires Inline(a) && Unmarked(a) && Inline(b) && Unmarked(b)
    ensures ToHtml(a + "\n\n" + b) == "<p>" + a + "</p><p>" + b + "</p>"
  {
    var s := a + ['\n', '\n'] + b;
    assert a + "\n\n" + b == s;
    PlainLines(a, ['\n', '\n'], b);
    MarkupKeeps(s);
    OneLineLacksNewline(a);
    OneLineLacksNewline(b);
    NewlinesOfParagraphs(a, b);
    var body := a + "</p><p>" + b;
    NoItemOpensOfPlain(a);
    NoItemOpensOfPlain(b);
    assert NoItemOpens("</p><p>");
    NoItemOpensConcat(a, "</p><p>");
    NoItemOpensConcat(a + "</p><p>", b);
    NoItemOpensInParagraph(body);
    WrapListsNone("<p>" + body + "</p>");
    Enclose("<p>", a, "</p><p>", b, "</p>");
  }

  /** Two plain lines with one line end between them become one paragraph with a `<br>`. */
  lemma LineBreakToHtml(a: string, b: string)
    requires Inline(a) && Unmarked(a) && Inline(b) && Unmarked(b)
    ensures ToHtml(a + "\n" + b) == "<p>" + a + "<br>" + b + "</p>"
  {
    var s := a + ['\n'] + b;
    assert a + "\n" + b == s;
    PlainLines(a, ['\n'], b);
    MarkupKeeps(s);
    OneLineLacksNewline(a);
    OneLineLacksNewline(b);
    NewlinesOfBreak(a, b);
    var body := a + "<br>" + b;
    NoItemOpensOfPlain(a);
    NoItemOpensOfPlain(b);
    assert NoItemOpens("<br>");
    NoItemOpensConcat(a, "<br>");
    NoItemOpensConcat(a + "<br>", b);
    NoItemOpensInParagraph(body);
    WrapListsNone("<p>" + body + "</p>");
    Enclose("<p>", a, "<br>", b, "</p>");
  }

  /** Two lines, each rewritten by a rule on its own, keep the line end between them. */
  lemma PerLineOfTwo(l1: string, l2: string, rule: LineRule)
    requires OneLine(l1) && OneLine(l2)
    ensures PerLine(l1 + ['\n'] + l2, rule) == ApplyRule(rule, l1) + ['\n'] + ApplyRule(rule, l2)
  {
    PerLineOfLines(l1, '\n', l2, rule);
    PerLineOfLine(l2, rule);
  }

  /** `- x` is one line without '*' that the heading rules leave and the dash rule makes an item. */
  lemma DashLine(x: string)
    requires Inline(x)
    ensures var line := "- " + x;
      OneLine(line) && Lacks(line, '*')
      && ApplyRule(Heading(1), line) == line && ApplyRule(Heading(2), line) == line
      && ApplyRule(Heading(3), line) == line && ApplyRule(DashItem, line) == Tagged("li", x)
  {
    var line := "- " + x;
    assert line[2..] == x;
    forall k | 2 <= k < |line| ensures line[k] == x[k - 2] {
    }
    assert line[0] == '-';
    assert !HeadingMarker(line, 1) && !HeadingMarker(line, 2) && !HeadingMarker(line, 3);
  }

  /** The dash lines of two list lines become two items with the line end kept. */
  lemma DashLinesToItems(a: string, b: string)
    requires Inline(a) && Inline(b)
    ensures Items(Emphasis(Headings("- " + a + ['\n'] + "- " + b))) == Tagged("li", a) + ['\n'] + Tagged("li", b)
  {
    assert "- " + a + ['\n'] + "- " + b == ("- " + a) + ['\n'] + ("- " + b);
    DashPairUnmarked(a, b);
    DashPairItems(a, b);
  }

  /** Two list lines carry no heading and no emphasis. */
  lemma DashPairUnmarked(a: string, b: string)
    requires Inline(a) && Inline(b)
    ensures var s := ("- " + a) + ['\n'] + ("- " + b); Emphasis(Headings(s)) == s
  {
    var l1 := "- " + a;
    var l2 := "- " + b;
    var s := l1 + ['\n'] + l2;
    DashLine(a);
    DashLine(b);
    PerLineOfTwo(l1, l2, Heading(1));
    PerLineOfTwo(l1, l2, Heading(2));
    PerLineOfTwo(l1, l2, Heading(3));
    assert Headings(s) == s;
    LacksConcat(l1, ['\n'], '*');
    LacksConcat(l1 + ['\n'], l2, '*');
    EmphasisKeep(s);
  }

  /** Each of two list lines becomes an item, and no item is read as a numbered one. */
  lemma DashPairItems(a: string, b: string)
    requires Inline(a) && Inline(b)
    ensures Items(("- " + a) + ['\n'] + ("- " + b)) == Tagged("li", a) + ['\n'] + Tagged("li", b)
  {
    var l1 := "- " + a;
    var l2 := "- " + b;
    DashLine(a);
    DashLine(b);
    PerLineOfTwo(l1, l2, DashItem);
    var t1 := Tagged("li", a);
    var t2 := Tagged("li", b);
    TaggedInline("li", a);
    TaggedInline("li", b);
    assert DigitRun(t1) == 0 && DigitRun(t2) == 0;
    PerLineOfTwo(t1, t2, NumberItem);
  }

  /**
   * Two list lines in a row become two lists of one item each, with the
   * `<br>` of their line end between them: the line ends are rewritten
   * before the lists are wrapped, and a run of items only continues while
   * the items touch.
   */
  lemma ConsecutiveItemsToHtml(a: string, b: string)
    requires Inline(a) && Inline(b)
    ensures ToHtml("- " + a + "\n- " + b)
      == "<p>" + ("<ul>" + Tagged("li", a) + "</ul>") + "<br>" + ("<ul>" + Tagged("li", b) + "</ul>") + "</p>"
  {
    var t1 := Tagged("li", a);
    var t2 := Tagged("li", b);
    assert "- " + a + "\n- " + b == "- " + a + ['\n'] + "- " + b;
    DashLinesToItems(a, b);
    TaggedInline("li", a);
    TaggedInline("li", b);
    NewlinesOfBreak(t1, t2);
    ItemsApart(a, b);
  }

  /** Two items separated by `<br>` in a paragraph are wrapped in a list each. */
  lemma ItemsApart(a: string, b: string)
    requires Inline(a) && Inline(b)
    ensures var t1 := Tagged("li", a); var t2 := Tagged("li", b);
      WrapLists("<p>" + (t1 + "<br>" + t2) + "</p>")
        == "<p>" + ("<ul>" + t1 + "</ul>") + "<br>" + ("<ul>" + t2 + "</ul>") + "</p>"
  {
    var t1 := Tagged("li", a);
    var t2 := Tagged("li", b);
    var u1 := "<ul>" + t1 + "</ul>";
    var u2 := "<ul>" + t2 + "</ul>";
    var rest := "<br>" + (t2 + "</p>");
    calc {
      WrapLists("<p>" + (t1 + "<br>" + t2) + "</p>");
      { Nest("<p>", t1, "<br>", t2, "</p>"); }
      WrapLists("<p>" + (t1 + rest));
      { ParagraphTags(); WrapListsAfter("<p>", t1 + rest); }
      "<p>" + WrapLists(t1 + rest);
      { BreakTag(t2 + "</p>"); WrapOneItem(a, rest); }
      "<p>" + (u1 + WrapLists(rest));
      { BreakTag(t2 + "</p>"); WrapListsAfter("<br>", t2 + "</p>"); }
      "<p>" + (u1 + ("<br>" + WrapLists(t2 + "</p>")));
      { ParagraphTags(); WrapOneItem(b, "</p>"); }
      "<p>" + (u1 + ("<br>" + (u2 + "</p>")));
      { Regroup("<p>", u1, "<br>", u2, "</p>"); }
      "<p>" + u1 + "<br>" + u2 + "</p>";
    }
  }

  /** `<br>` opens no item, and no item opens where it starts. */
  lemma BreakTag(x: string)
    ensures NoItemOpens("<br>") && !ItemOpenAt("<br>" + x, 0)
  {
    assert ("<br>" + x)[1] == 'b';
  }

  /** Three parts put between two others can be nested to the right. */
  lemma Nest<T>(p: seq<T>, a: seq<T>, x: seq<T>, b: seq<T>, q: seq<T>)
    ensures p + (a + x + b) + q == p + (a + (x + (b + q)))
  {
  }

  /** Three parts put between two others can be joined from the left. */
  lemma Enclose<T>(p: seq<T>, a: seq<T>, x: seq<T>, b: seq<T>, q: seq<T>)
    ensures p + (a + x + b) + q == p + a + x + b + q
  {
  }

  /** Five parts joined from the right are the same parts joined from the left. */
  lemma Regroup<T>(p: seq<T>, q: seq<T>, r: seq<T>, s: seq<T>, t: seq<T>)
    ensures p + (q + (r + (s + t))) == p + q + r + s + t
  {
  }

  // ---------------------------------------------------------------------------
  // The two exports

  /** The options both exports take; `title` and `author` may be left out. */
  datatype ExportOptions = ExportOptions(filename: string, title: Option<string>, author: Option<string>, design: Option<DesignTemplate>)

  /**
   * What is downloaded: its name, the `<title>` of the page, the colours its
   * stylesheet uses (none for the text export), and its body.
   */
  datatype WordFile = WordFile(name: string, title: string, colors: Option<WordColors>, body: string)

  /** The fixed error `exportToWord` throws, 'فشل في تصدير ملف Word'. */
  const EXPORT_FAILED: string := "\U{0641}\U{0634}\U{0644} \U{0641}\U{064A} \U{062A}\U{0635}\U{062F}\U{064A}\U{0631} \U{0645}\U{0644}\U{0641} Word"

  /** `title = 'Document'` in the destructuring: the default applies only when no title is given. */
  function TitleOf(options: ExportOptions): (t: string)
    ensures options.title.Some? ==> t == options.title.value
    ensures options.title.None? ==> t == "Document"
  {
    if options.title.Some? then options.title.value else "Document"
  }

  /**
   * `exportTextToWord`: `None` is the `false` it returns when anything in
   * saving the file throws (`failed`), `Some(file)` is a `true` with the
   * file it downloaded. The body is the rewritten text; no colours are used.
   */
  function ExportTextToWord(content: string, options: ExportOptions, failed: bool): (r: Option<WordFile>)
    ensures r.None? <==> failed
    ensures r.Some? ==> r.value.name == DocName(options.filename) && r.value.title == TitleOf(options)
    ensures r.Some? ==> r.value.body == ToHtml(content) && r.value.colors.None?
  {
    if failed then None
    else Some(WordFile(DocName(options.filename), TitleOf(options), None, ToHtml(content)))
  }

  /**
   * `exportToWord` on an element whose (converted) HTML is `html`: it either
   * downloads the styled file or throws the fixed error, whatever went wrong.
   */
  function ExportToWord(html: string, options: ExportOptions, failed: bool): (r: Result<WordFile, string>)
    ensures r.Failure? <==> failed
    ensures r.Failure? ==> r.error == EXPORT_FAILED
    ensures r.Success? ==> r.value.name == DocName(options.filename) && r.value.title == TitleOf(options)
    ensures r.Success? ==> r.value.colors == Some(ColorsOf(options.design)) && r.value.body == html
  {
    if failed then Failure(EXPORT_FAILED)
    else Success(WordFile(DocName(options.filename), TitleOf(options), Some(ColorsOf(options.design)), html))
  }

  /**
   * The two exports name the file the same way and, on failure, differ in
   * kind: the text export reports it as a value, the element export as one
   * fixed message that does not depend on the cause or the input.
   */
  lemma ExportsAgree(content: string, html: string, options: ExportOptions, failed: bool)
    ensures ExportTextToWord(content, options, failed).Some? <==> ExportToWord(html, options, failed).Success?
    ensures !failed ==> ExportTextToWord(content, options, failed).value.name == ExportToWord(html, options, failed).value.name
    ensures !failed ==> EndsWith(ExportToWord(html, options, failed).value.name, ".doc")
    ensures failed ==> ExportToWord(html, options, failed) == ExportToWord(content, ExportOptions("", None, None, None), true)
  {
  }
}
