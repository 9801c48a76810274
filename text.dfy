/**
 * String operations with the meaning of the JavaScript built-ins the application
 * calls (`trim`, `startsWith`, `includes`, `split`, `replace(/\s+/g, ...)`,
 * `toLowerCase`, number-to-string). Strings are sequences of characters.
 */
module Text {
  import opened Common

  /** The characters that JavaScript's `\s` class and `String.prototype.trim` treat as white space. */
  predicate IsWhitespace(c: char) {
    c == ' ' || c == '\t' || c == '\n' || c == '\U{000B}' || c == '\U{000C}' || c == '\r'
    || c == '\U{00A0}' || c == '\U{1680}' || ('\U{2000}' <= c <= '\U{200A}')
    || c == '\U{2028}' || c == '\U{2029}' || c == '\U{202F}' || c == '\U{205F}'
    || c == '\U{3000}' || c == '\U{FEFF}'
  }

  predicate NoWhitespace(s: string) {
    forall k :: 0 <= k < |s| ==> !IsWhitespace(s[k])
  }

  lemma NoWhitespaceConcat(a: string, b: string)
    requires NoWhitespace(a) && NoWhitespace(b)
    ensures NoWhitespace(a + b)
  {
    forall k | 0 <= k < |a + b| ensures !IsWhitespace((a + b)[k]) {
      if k >= |a| {
        assert (a + b)[k] == b[k - |a|];
      }
    }
  }

  predicate IsDigit(c: char) { '0' <= c <= '9' }

  predicate AllDigits(s: string) {
    forall k :: 0 <= k < |s| ==> IsDigit(s[k])
  }

  // ---------------------------------------------------------------------------
  // Prefixes, suffixes, occurrences

  predicate StartsWith(s: string, p: string) {
    |p| <= |s| && s[..|p|] == p
  }

  predicate EndsWith(s: string, p: string) {
    |p| <= |s| && s[|s| - |p|..] == p
  }

  predicate OccursAt(s: string, p: string, i: nat) {
    i + |p| <= |s| && s[i..i + |p|] == p
  }

  /** `s.includes(p)`: the pattern is a prefix of the string or of one of its suffixes. */
  predicate Contains(s: string, p: string)
    decreases |s|
  {
    StartsWith(s, p) || (|s| > 0 && Contains(s[1..], p))
  }

  /** `includes` holds exactly when the pattern occurs at some position. */
  lemma {:induction false} ContainsIffOccurs(s: string, p: string)
    ensures Contains(s, p) <==> exists i: nat :: OccursAt(s, p, i)
    decreases |s|
  {
    if StartsWith(s, p) {
      assert OccursAt(s, p, 0);
    }
    if |s| > 0 {
      ContainsIffOccurs(s[1..], p);
      if exists i: nat :: OccursAt(s, p, i) {
        var i: nat :| OccursAt(s, p, i);
        if i > 0 {
          assert s[1..][i - 1..i - 1 + |p|] == s[i..i + |p|];
          assert OccursAt(s[1..], p, i - 1);
        }
      }
      if exists i: nat :: OccursAt(s[1..], p, i) {
        var i: nat :| OccursAt(s[1..], p, i);
        assert s[1..][i..i + |p|] == s[i + 1..i + 1 + |p|];
        assert OccursAt(s, p, i + 1);
      }
    } else {
      if exists i: nat :: OccursAt(s, p, i) {
        var i: nat :| OccursAt(s, p, i);
        assert |p| == 0 && i == 0;
      }
    }
  }

  // ---------------------------------------------------------------------------
  // Trimming

  /** Drops leading white space (the first half of `trim`). */
  function TrimStart(s: string): (r: string)
    ensures |r| <= |s| && r == s[|s| - |r|..]
    ensures |r| == 0 || !IsWhitespace(r[0])
    ensures forall k :: 0 <= k < |s| - |r| ==> IsWhitespace(s[k])
  {
    if |s| > 0 && IsWhitespace(s[0]) then TrimStart(s[1..]) else s
  }

  /** Drops trailing white space (the second half of `trim`). */
  function TrimEnd(s: string): (r: string)
    ensures |r| <= |s| && r == s[..|r|]
    ensures |r| == 0 || !IsWhitespace(r[|r| - 1])
    ensures forall k :: |r| <= k < |s| ==> IsWhitespace(s[k])
  {
    if |s| > 0 && IsWhitespace(s[|s| - 1]) then TrimEnd(s[..|s| - 1]) else s
  }

  /** `s.trim()`: neither end of the result is white space. */
  function Trim(s: string): (r: string)
    ensures |r| == 0 || (!IsWhitespace(r[0]) && !IsWhitespace(r[|r| - 1]))
  {
    var t := TrimStart(s);
    var r := TrimEnd(t);
    assert |r| > 0 ==> r[0] == t[0];
    r
  }

  /** `s[..a]` and `s[b..]` are all white space. */
  predicate WhitespaceMargins(s: string, a: nat, b: nat) {
    a <= b <= |s|
    && (forall k :: 0 <= k < a ==> IsWhitespace(s[k]))
    && (forall k :: b <= k < |s| ==> IsWhitespace(s[k]))
  }

  /** A prefix `r` of a suffix `t` of `s` is a slice of `s`, and white space around `r` is white space around the slice. */
  lemma PrefixOfSuffix(s: string, t: string, r: string) returns (a: nat, b: nat)
    requires |t| <= |s| && t == s[|s| - |t|..] && |r| <= |t| && r == t[..|r|]
    requires forall k :: 0 <= k < |s| - |t| ==> IsWhitespace(s[k])
    requires forall k :: |r| <= k < |t| ==> IsWhitespace(t[k])
    ensures a == |s| - |t| && b == |s| - |t| + |r|
    ensures WhitespaceMargins(s, a, b) && r == s[a..b]
  {
    a, b := |s| - |t|, |s| - |t| + |r|;
    forall k | |s| - |t| + |r| <= k < |s| ensures IsWhitespace(s[k]) {
      assert s[k] == t[k - (|s| - |t|)];
    }
  }

  /** The margins `trim` drops: the result is the slice between them. */
  lemma TrimSlice(s: string) returns (a: nat, b: nat)
    ensures WhitespaceMargins(s, a, b)
    ensures Trim(s) == s[a..b]
  {
    var t := TrimStart(s);
    var r := TrimEnd(t);
    a, b := PrefixOfSuffix(s, t, r);
    TrimOf(s, t, r);
  }

  /** `trim` is the end trimmed off the start-trimmed text. */
  lemma TrimOf(s: string, t: string, r: string)
    requires t == TrimStart(s) && r == TrimEnd(t)
    ensures Trim(s) == r
  {
  }

  /** The trimmed string is the slice of the input between its white-space margins. */
  lemma TrimIsSlice(s: string)
    ensures exists a: nat, b: nat :: WhitespaceMargins(s, a, b) && Trim(s) == s[a..b]
    ensures |Trim(s)| == 0 || (!IsWhitespace(Trim(s)[0]) && !IsWhitespace(Trim(s)[|Trim(s)| - 1]))
  {
    var a, b := TrimSlice(s);
  }

  lemma TrimStartOfClean(s: string)
    requires |s| == 0 || !IsWhitespace(s[0])
    ensures TrimStart(s) == s
  {
  }

  lemma TrimEndOfClean(s: string)
    requires |s| == 0 || !IsWhitespace(s[|s| - 1])
    ensures TrimEnd(s) == s
  {
  }

  /** A string with no white-space margin is left unchanged by `trim`. */
  lemma TrimOfTrimmed(s: string)
    requires |s| == 0 || (!IsWhitespace(s[0]) && !IsWhitespace(s[|s| - 1]))
    ensures Trim(s) == s
  {
    TrimStartOfClean(s);
    TrimEndOfClean(s);
  }

  /** Every character of the trimmed string comes from the input. */
  lemma TrimChars(s: string)
    ensures |Trim(s)| <= |s|
    ensures forall k :: 0 <= k < |Trim(s)| ==> Trim(s)[k] in s
  {
    var a, b := TrimSlice(s);
    SliceChars(s, a, b);
  }

  /** Every character of a slice comes from the sliced string. */
  lemma SliceChars(s: string, a: nat, b: nat)
    requires a <= b <= |s|
    ensures forall k :: 0 <= k < |s[a..b]| ==> s[a..b][k] in s
  {
    forall k | 0 <= k < |s[a..b]| ensures s[a..b][k] in s {
      assert s[a..b][k] == s[a + k];
    }
  }

  /** `trim` is idempotent. */
  lemma TrimIdempotent(s: string)
    ensures Trim(Trim(s)) == Trim(s)
  {
    TrimIsSlice(s);
    TrimOfTrimmed(Trim(s));
  }

  // ---------------------------------------------------------------------------
  // Splitting on one character and joining back

  function IndexOfChar(s: string, c: char): (i: nat)
    requires c in s
    ensures i < |s| && s[i] == c && c !in s[..i]
  {
    if s[0] == c then 0 else 1 + IndexOfChar(s[1..], c)
  }

  lemma {:induction false} IndexOfCharAt(s: string, c: char, k: nat)
    requires k < |s| && s[k] == c && c !in s[..k]
    ensures IndexOfChar(s, c) == k
  {
    if k > 0 {
      assert s[0] in s[..k];
      assert s[1..][..k - 1] == s[1..k];
      IndexOfCharAt(s[1..], c, k - 1);
    }
  }

  /** `parts.join(sep)` */
  function Join(parts: seq<string>, sep: char): string
  {
    if |parts| == 0 then ""
    else if |parts| == 1 then parts[0]
    else parts[0] + [sep] + Join(parts[1..], sep)
  }

  /**
   * `s.split(sep)` for a one-character separator: the pieces between separators,
   * never empty as a list, and joining them back gives the input.
   */
  function Split(s: string, sep: char): (r: seq<string>)
    ensures |r| >= 1
    ensures forall i :: 0 <= i < |r| ==> sep !in r[i]
    ensures Join(r, sep) == s
    decreases |s|
  {
    if sep !in s then [s]
    else
      var i := IndexOfChar(s, sep);
      var rest := Split(s[i + 1..], sep);
      assert s == s[..i] + [sep] + s[i + 1..];
      [s[..i]] + rest
  }

  /** Splitting what was joined gives the pieces back, when no piece holds the separator. */
  lemma {:induction false} SplitJoin(parts: seq<string>, sep: char)
    requires |parts| >= 1
    requires forall i :: 0 <= i < |parts| ==> sep !in parts[i]
    ensures Split(Join(parts, sep), sep) == parts
  {
    if |parts| > 1 {
      var rest := parts[1..];
      calc {
        Split(Join(parts, sep), sep);
        Split(parts[0] + [sep] + Join(rest, sep), sep);
        { SplitPast(parts[0], sep, Join(rest, sep)); }
        [parts[0]] + Split(Join(rest, sep), sep);
        { SplitJoin(rest, sep); }
        [parts[0]] + rest;
      }
    }
  }

  /** A separator-free head before the separator is the first piece. */
  lemma SplitPast(head: string, sep: char, tail: string)
    requires sep !in head
    ensures Split(head + [sep] + tail, sep) == [head] + Split(tail, sep)
  {
    var u := head + [sep] + tail;
    assert u[..|head|] == head;
    SplitAt(u, sep, |head|);
    assert u[|head| + 1..] == tail;
  }

  /** Splitting at the first separator, found at `j`. */
  lemma SplitAt(u: string, sep: char, j: nat)
    requires j < |u| && u[j] == sep && sep !in u[..j]
    ensures Split(u, sep) == [u[..j]] + Split(u[j + 1..], sep)
  {
    IndexOfCharAt(u, sep, j);
  }

  /** One separator between two separator-free strings splits them apart. */
  lemma SplitTwo(head: string, sep: char, tail: string)
    requires sep !in head && sep !in tail
    ensures Split(head + [sep] + tail, sep) == [head, tail]
  {
    var u := head + [sep] + tail;
    assert u[..|head|] == head;
    SplitAt(u, sep, |head|);
    assert u[|head| + 1..] == tail;
  }

  /** Splitting at the first separator of `s` in `s + [sep] + tail`. */
  lemma SplitHead(s: string, sep: char, tail: string)
    requires sep in s
    ensures var j := IndexOfChar(s, sep);
      Split(s + [sep] + tail, sep) == [s[..j]] + Split(s[j + 1..] + [sep] + tail, sep)
  {
    var u := s + [sep] + tail;
    var j := IndexOfChar(s, sep);
    assert u[..j] == s[..j];
    SplitAt(u, sep, j);
    assert u[j + 1..] == s[j + 1..] + [sep] + tail;
  }

  /** A separator and a separator-free tail after `s` add the tail as one more piece. */
  lemma {:induction false} SplitAppend(s: string, sep: char, tail: string)
    requires sep !in tail
    ensures Split(s + [sep] + tail, sep) == Split(s, sep) + [tail]
    decreases |s|
  {
    if sep in s {
      var j := IndexOfChar(s, sep);
      var after := s[j + 1..];
      calc {
        Split(s + [sep] + tail, sep);
        { SplitHead(s, sep, tail); }
        [s[..j]] + Split(after + [sep] + tail, sep);
        { SplitAppend(after, sep, tail); }
        [s[..j]] + (Split(after, sep) + [tail]);
        ([s[..j]] + Split(after, sep)) + [tail];
        { SplitAt(s, sep, j); }
        Split(s, sep) + [tail];
      }
    } else {
      SplitTwo(s, sep, tail);
    }
  }

  /** The last piece of a split: `s.split(sep).pop()`. */
  function LastPiece(pieces: seq<string>): string
    requires |pieces| > 0
  {
    pieces[|pieces| - 1]
  }

  /** Text after the last separator is the last piece of the split. */
  lemma SplitLastPiece(s: string, sep: char, tail: string)
    requires sep !in tail
    ensures LastPiece(Split(s + [sep] + tail, sep)) == tail
  {
    SplitAppend(s, sep, tail);
  }

  // ---------------------------------------------------------------------------
  // Regular-expression style rewrites

  /** `s.replace(/\s+/g, rep)`: every maximal run of white space becomes `rep`. */
  function CollapseWhitespace(s: string, rep: string): string
    decreases |s|
  {
    if |s| == 0 then ""
    else
      var run := IsWhitespace(s[0]);
      var next := if run then TrimStart(s) else s[1..];
      (if run then rep else [s[0]]) + CollapseWhitespace(next, rep)
  }

  /** The result holds no white space when `rep` holds none, and text without white space is unchanged. */
  lemma {:induction false} CollapseWhitespaceClean(s: string, rep: string)
    ensures NoWhitespace(rep) ==> NoWhitespace(CollapseWhitespace(s, rep))
    ensures NoWhitespace(s) ==> CollapseWhitespace(s, rep) == s
    decreases |s|
  {
    if |s| > 0 {
      var run := IsWhitespace(s[0]);
      var next := if run then TrimStart(s) else s[1..];
      CollapseWhitespaceClean(next, rep);
      var head := if run then rep else [s[0]];
      assert CollapseWhitespace(s, rep) == head + CollapseWhitespace(next, rep);
      if NoWhitespace(s) {
        assert !run && next == s[1..];
        assert [s[0]] + s[1..] == s;
      }
    }
  }

  function LowerChar(c: char): char {
    if 'A' <= c <= 'Z' then (c as int + 32) as char else c
  }

  /** `s.toLowerCase()` restricted to the ASCII letters. */
  function LowerAscii(s: string): (r: string)
    ensures |r| == |s|
    ensures forall k :: 0 <= k < |s| ==> r[k] == LowerChar(s[k])
  {
    if |s| == 0 then "" else [LowerChar(s[0])] + LowerAscii(s[1..])
  }

  /** A word without white space passes through `CollapseWhitespace` unchanged. */
  lemma {:induction false} CollapseAfterWord(word: string, t: string, rep: string)
    requires NoWhitespace(word)
    ensures CollapseWhitespace(word + t, rep) == word + CollapseWhitespace(t, rep)
  {
    if |word| == 0 {
      assert word + t == t;
    } else {
      var s := word + t;
      var tail := word[1..];
      assert s[0] == word[0] && !IsWhitespace(s[0]);
      assert s[1..] == tail + t;
      assert CollapseWhitespace(s, rep) == [word[0]] + CollapseWhitespace(tail + t, rep);
      CollapseAfterWord(tail, t, rep);
      assert [word[0]] + tail == word;
    }
  }

  /** One white-space character before a word becomes `rep`. */
  lemma CollapseSpaceBeforeWord(c: char, t: string, rep: string)
    requires IsWhitespace(c) && |t| > 0 && !IsWhitespace(t[0])
    ensures CollapseWhitespace([c] + t, rep) == rep + CollapseWhitespace(t, rep)
  {
    var s := [c] + t;
    assert s[1..] == t;
    assert TrimStart(s) == TrimStart(t) == t;
  }

  /** `toLowerCase` works piece by piece on a concatenation. */
  lemma LowerAsciiConcat(a: string, b: string)
    ensures LowerAscii(a + b) == LowerAscii(a) + LowerAscii(b)
  {
    var l := LowerAscii(a + b);
    assert forall k :: 0 <= k < |a| ==> (a + b)[k] == a[k];
    assert forall k :: |a| <= k < |a| + |b| ==> (a + b)[k] == b[k - |a|];
  }

  /** Lower-casing text without white space creates none. */
  lemma LowerKeepsClean(s: string)
    requires NoWhitespace(s)
    ensures NoWhitespace(LowerAscii(s))
  {
    var l := LowerAscii(s);
    forall k | 0 <= k < |l| ensures !IsWhitespace(l[k]) {
      assert l[k] == LowerChar(s[k]) && !IsWhitespace(s[k]);
    }
  }

  /** Two words with one space between them: the space becomes `rep`. */
  lemma CollapseTwoWords(a: string, b: string, rep: string)
    requires NoWhitespace(a) && NoWhitespace(b) && |b| > 0
    ensures CollapseWhitespace(a + ([' '] + b), rep) == a + rep + b
  {
    CollapseAfterWord(a, [' '] + b, rep);
    CollapseSpaceBeforeWord(' ', b, rep);
    CollapseWhitespaceClean(b, rep);
  }

  /** Lower-casing two words with a space between them lower-cases each word. */
  lemma LowerOfTwoWords(first: string, second: string)
    ensures LowerAscii(first + [' '] + second) == LowerAscii(first) + ([' '] + LowerAscii(second))
  {
    var lf, ls := LowerAscii(first), LowerAscii(second);
    var spaced := first + [' '];
    calc {
      LowerAscii(spaced + second);
      { LowerAsciiConcat(spaced, second); }
      LowerAscii(spaced) + ls;
      { LowerAsciiConcat(first, [' ']); }
      (lf + LowerAscii([' '])) + ls;
      { assert LowerAscii([' ']) == [' ']; }
      (lf + [' ']) + ls;
      lf + ([' '] + ls);
    }
  }

  // ---------------------------------------------------------------------------
  // Decimal numbers

  function DigitChar(d: nat): char
    requires d < 10
  {
    ('0' as int + d) as char
  }

  /** `String(n)` for a non-negative integer. */
  function NatToString(n: nat): (r: string)
    ensures |r| >= 1 && AllDigits(r)
    decreases n
  {
    if n < 10 then [DigitChar(n)] else NatToString(n / 10) + [DigitChar(n % 10)]
  }

  /** The number of leading decimal digits: the length `^\d*` matches. */
  function DigitRun(s: string): (n: nat)
    ensures n <= |s| && AllDigits(s[..n])
    ensures n < |s| ==> !IsDigit(s[n])
  {
    if |s| > 0 && IsDigit(s[0]) then
      var n := 1 + DigitRun(s[1..]);
      assert s[..n] == [s[0]] + s[1..][..n - 1];
      n
    else 0
  }

  /** The digit run of digits followed by a non-digit is those digits. */
  lemma {:induction false} DigitRunOf(d: string, rest: string)
    requires AllDigits(d) && (|rest| == 0 || !IsDigit(rest[0]))
    ensures DigitRun(d + rest) == |d|
  {
    if |d| > 0 {
      assert (d + rest)[1..] == d[1..] + rest;
      DigitRunOf(d[1..], rest);
    } else {
      assert d + rest == rest;
    }
  }

  /** The value of a string of decimal digits (`parseInt(s, 10)` on such a string). */
  function DigitsValue(s: string): nat
    requires AllDigits(s)
  {
    if |s| == 0 then 0
    else DigitsValue(s[..|s| - 1]) * 10 + (s[|s| - 1] as int - '0' as int)
  }

  /** Reading back the decimal text of a number gives the number. */
  lemma {:induction false} DigitsValueOfNatToString(n: nat)
    ensures DigitsValue(NatToString(n)) == n
    decreases n
  {
    if n >= 10 {
      var s := NatToString(n);
      assert s[..|s| - 1] == NatToString(n / 10);
      DigitsValueOfNatToString(n / 10);
    }
  }

  lemma NatToStringInjective(a: nat, b: nat)
    requires NatToString(a) == NatToString(b)
    ensures a == b
  {
    DigitsValueOfNatToString(a);
    DigitsValueOfNatToString(b);
  }
}
