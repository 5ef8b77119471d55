/**
 The string core of the text-recognition hook: JavaScript's `String.prototype.trim`,
 the global match of `/\d+/g` (all maximal runs of ASCII digits, left to right),
 `Array.prototype.join`, and the digit summary shown to the user.
 */
module DigitRuns {
  import opened Nullable

  /** `\d` without the `u` flag: exactly the ten ASCII digits. */
  predicate IsDigit(c: char) {
    '0' <= c <= '9'
  }

  /** What `trim` removes: ECMAScript WhiteSpace (tab, vertical tab, form feed,
      zero-width no-break space and every space separator) and LineTerminator
      (line feed, carriage return, line and paragraph separators). */
  predicate IsWhitespace(c: char) {
    || c == '\t' || c == '\U{000B}' || c == '\U{000C}' || c == '\U{FEFF}'
    || c == ' ' || c == '\U{00A0}' || c == '\U{1680}'
    || ('\U{2000}' <= c <= '\U{200A}')
    || c == '\U{202F}' || c == '\U{205F}' || c == '\U{3000}'
    || c == '\n' || c == '\r' || c == '\U{2028}' || c == '\U{2029}'
  }

  predicate AllDigits(s: string) {
    forall i :: 0 <= i < |s| ==> IsDigit(s[i])
  }

  predicate NoDigits(s: string) {
    forall i :: 0 <= i < |s| ==> !IsDigit(s[i])
  }

  // ---------------------------------------------------------------- trim

  predicate AllWhitespace(s: string) {
    forall i :: 0 <= i < |s| ==> IsWhitespace(s[i])
  }

  /** `s` without its leading whitespace. */
  function TrimStart(s: string): (r: string)
    ensures |r| <= |s| && r == s[|s| - |r|..]
    ensures AllWhitespace(s[..|s| - |r|])
    ensures |r| > 0 ==> !IsWhitespace(r[0])
    decreases |s|
  {
    if |s| > 0 && IsWhitespace(s[0]) then
      var r := TrimStart(s[1..]);
      WhitespacePrefixGrows(s, r);
      r
    else s
  }

  /** `s` without its trailing whitespace. */
  function TrimEnd(s: string): (r: string)
    ensures |r| <= |s| && r == s[..|r|]
    ensures AllWhitespace(s[|r|..])
    ensures |r| > 0 ==> !IsWhitespace(r[|r| - 1])
    decreases |s|
  {
    if |s| > 0 && IsWhitespace(s[|s| - 1]) then
      var r := TrimEnd(s[..|s| - 1]);
      WhitespaceSuffixGrows(s, r);
      r
    else s
  }

  /** One more whitespace character in front keeps `r` a suffix after whitespace. */
  lemma WhitespacePrefixGrows(s: string, r: string)
    requires |s| > 0 && IsWhitespace(s[0])
    requires |r| <= |s| - 1 && r == s[1..][|s| - 1 - |r|..] && AllWhitespace(s[1..][..|s| - 1 - |r|])
    ensures r == s[|s| - |r|..] && AllWhitespace(s[..|s| - |r|])
  {
    assert s[..|s| - |r|] == [s[0]] + s[1..][..|s| - 1 - |r|];
  }

  /** One more whitespace character at the end keeps `r` a prefix before whitespace. */
  lemma WhitespaceSuffixGrows(s: string, r: string)
    requires |s| > 0 && IsWhitespace(s[|s| - 1])
    requires |r| <= |s| - 1 && r == s[..|s| - 1][..|r|] && AllWhitespace(s[..|s| - 1][|r|..])
    ensures r == s[..|r|] && AllWhitespace(s[|r|..])
  {
    assert s[|r|..] == s[..|s| - 1][|r|..] + [s[|s| - 1]];
  }

  /** `String.prototype.trim`: the slice of `s` left after removing whitespace
      at both ends; the slice starts and ends with a non-whitespace character
      (or is empty) and everything removed is whitespace. */
  function Trim(s: string): (r: string)
    ensures exists a, b :: 0 <= a <= b <= |s| && r == s[a..b] && AllWhitespace(s[..a]) && AllWhitespace(s[b..])
    ensures |r| > 0 ==> !IsWhitespace(r[0]) && !IsWhitespace(r[|r| - 1])
  {
    var t := TrimStart(s);
    var r := TrimEnd(t);
    TrimmedSlice(s, t, r);
    r
  }

  /** Where the two halves of `Trim` leave `s`. */
  lemma TrimmedSlice(s: string, t: string, r: string)
    requires |t| <= |s| && t == s[|s| - |t|..] && AllWhitespace(s[..|s| - |t|])
    requires |r| <= |t| && r == t[..|r|] && AllWhitespace(t[|r|..])
    ensures var a := |s| - |t|;
      && 0 <= a <= a + |r| <= |s| && r == s[a..a + |r|]
      && AllWhitespace(s[..a]) && AllWhitespace(s[a + |r|..])
  {
    var a := |s| - |t|;
    assert s[a + |r|..] == t[|r|..];
  }

  lemma WhitespaceHasNoDigits(w: string)
    requires AllWhitespace(w)
    ensures NoDigits(w)
  {
  }

  // ---------------------------------------------------------- digit runs

  /** Length of the longest prefix of `s` made of digits. */
  function DigitPrefix(s: string): (n: nat)
    ensures n <= |s|
    ensures forall i :: 0 <= i < n ==> IsDigit(s[i])
    ensures n < |s| ==> !IsDigit(s[n])
    decreases |s|
  {
    if |s| > 0 && IsDigit(s[0]) then 1 + DigitPrefix(s[1..]) else 0
  }

  /** The matches of `/\d+/g` on `s`, in order: scanning left to right, a
      non-digit is skipped and a digit starts a match that extends as far as
      the digits go. Every match is a non-empty string of digits. */
  function Runs(s: string): (r: seq<string>)
    ensures forall k :: 0 <= k < |r| ==> |r[k]| > 0 && AllDigits(r[k])
    decreases |s|
  {
    if |s| == 0 then []
    else if !IsDigit(s[0]) then Runs(s[1..])
    else
      var n := DigitPrefix(s);
      [s[..n]] + Runs(s[n..])
  }

  /** `String.prototype.match` with a global pattern: null when nothing matches. */
  function MatchDigits(s: string): (r: Option<seq<string>>)
    ensures r.None? <==> NoDigits(s)
    ensures r.Some? ==> r.value == Runs(s) && |r.value| > 0
  {
    RunsEmptyIffNoDigits(s);
    var runs := Runs(s);
    if |runs| == 0 then None else Some(runs)
  }

  // ------------------------------------------- maximal-run characterisation

  /** Interleave `gaps` and `runs`: gaps[0] + runs[0] + gaps[1] + ... + gaps[n]. */
  function Weave(gaps: seq<string>, runs: seq<string>): string
    requires |gaps| == |runs| + 1
    decreases |runs|
  {
    if |runs| == 0 then gaps[0] else gaps[0] + runs[0] + Weave(gaps[1..], runs[1..])
  }

  /** `runs` are the maximal digit runs of `s`, separated by `gaps`: `s` is
      the interleaving of the two, every run is a non-empty digit string,
      no gap holds a digit, and the gaps between two runs are non-empty (so no
      run can be extended into its neighbour). */
  predicate IsRunSplit(s: string, runs: seq<string>, gaps: seq<string>) {
    && |gaps| == |runs| + 1
    && s == Weave(gaps, runs)
    && (forall k :: 0 <= k < |runs| ==> |runs[k]| > 0 && AllDigits(runs[k]))
    && (forall k :: 0 <= k < |gaps| ==> NoDigits(gaps[k]))
    && (forall k :: 0 < k < |runs| ==> |gaps[k]| > 0)
  }

  /** The non-digit stretches around the runs of `s`. */
  function Gaps(s: string): (g: seq<string>)
    ensures IsRunSplit(s, Runs(s), g)
    ensures |s| > 0 && !IsDigit(s[0]) ==> |g[0]| > 0
    decreases |s|
  {
    if |s| == 0 then [""]
    else if !IsDigit(s[0]) then
      var g := Gaps(s[1..]);
      assert s == [s[0]] + s[1..];
      assert Runs(s) == Runs(s[1..]);
      SplitConsGap(s[0], s[1..], Runs(s[1..]), g);
      [[s[0]] + g[0]] + g[1..]
    else
      var n := DigitPrefix(s);
      var g := Gaps(s[n..]);
      var t := s[n..];
      assert s == s[..n] + t;
      assert Runs(s) == [s[..n]] + Runs(t);
      assert |t| > 0 ==> !IsDigit(t[0]);
      SplitConsRun(s[..n], t, Runs(t), g);
      [""] + g
  }

  /** A leading non-digit joins the first gap. */
  lemma SplitConsGap(c: char, t: string, runs: seq<string>, g: seq<string>)
    requires !IsDigit(c) && IsRunSplit(t, runs, g)
    ensures IsRunSplit([c] + t, runs, [[c] + g[0]] + g[1..])
  {
    var g' := [[c] + g[0]] + g[1..];
    assert g'[1..] == g[1..];
    assert NoDigits(g'[0]);
    forall k | 0 < k < |g'|
      ensures g'[k] == g[k]
    {
    }
  }

  /** A leading run followed by a non-digit (or nothing) becomes the first run,
      after an empty first gap. */
  lemma SplitConsRun(d: string, t: string, runs: seq<string>, g: seq<string>)
    requires |d| > 0 && AllDigits(d)
    requires IsRunSplit(t, runs, g)
    requires |runs| > 0 ==> |g[0]| > 0
    ensures IsRunSplit(d + t, [d] + runs, [""] + g)
  {
    var runs', g' := [d] + runs, [""] + g;
    assert runs'[1..] == runs && g'[1..] == g;
    assert Weave(g', runs') == "" + d + Weave(g, runs);
    assert NoDigits(g'[0]);
  }

  /** A digit-free prefix contributes no run. */
  lemma {:induction false} RunsSkipDigitFreePrefix(g: string, t: string)
    requires NoDigits(g)
    ensures Runs(g + t) == Runs(t)
    decreases |g|
  {
    if |g| > 0 {
      assert (g + t)[1..] == g[1..] + t;
      RunsSkipDigitFreePrefix(g[1..], t);
    } else {
      assert g + t == t;
    }
  }

  /** The digit prefix is the one determined by where the first non-digit is. */
  lemma DigitPrefixIs(s: string, n: nat)
    requires n <= |s| && (forall i :: 0 <= i < n ==> IsDigit(s[i]))
    requires n < |s| ==> !IsDigit(s[n])
    ensures DigitPrefix(s) == n
  {
  }

  /** A run followed by a non-digit (or by nothing) is the first match. */
  lemma {:induction false} RunsOfLeadingRun(d: string, t: string)
    requires |d| > 0 && AllDigits(d)
    requires |t| > 0 ==> !IsDigit(t[0])
    ensures Runs(d + t) == [d] + Runs(t)
  {
    var s := d + t;
    DigitPrefixIs(s, |d|);
    assert s[..|d|] == d && s[|d|..] == t;
  }

  /** The split of `s` determines its runs: any split into maximal runs is the
      one `Runs` finds. */
  lemma {:induction false} RunSplitUnique(s: string, runs: seq<string>, gaps: seq<string>)
    requires IsRunSplit(s, runs, gaps)
    ensures runs == Runs(s)
    decreases |runs|
  {
    if |runs| == 0 {
      RunsSkipDigitFreePrefix(gaps[0], "");
      assert gaps[0] + "" == gaps[0];
    } else {
      var rest := Weave(gaps[1..], runs[1..]);
      assert IsRunSplit(rest, runs[1..], gaps[1..]);
      RunSplitUnique(rest, runs[1..], gaps[1..]);
      if |runs| > 1 {
        assert rest == gaps[1] + runs[1] + Weave(gaps[2..], runs[2..]);
        assert rest[0] == gaps[1][0];
      }
      assert NoDigits(gaps[1]);
      RunsOfLeadingRun(runs[0], rest);
      assert s == gaps[0] + (runs[0] + rest);
      RunsSkipDigitFreePrefix(gaps[0], runs[0] + rest);
    }
  }

  /** `Runs(s)` are exactly the maximal digit runs of `s`, in order: a sequence
      of strings is `Runs(s)` if and only if `s` splits into it and digit-free gaps. */
  lemma RunsAreMaximalRuns(s: string, runs: seq<string>)
    ensures runs == Runs(s) <==> exists gaps :: IsRunSplit(s, runs, gaps)
  {
    if runs == Runs(s) {
      assert IsRunSplit(s, runs, Gaps(s));
    }
    if gaps :| IsRunSplit(s, runs, gaps) {
      RunSplitUnique(s, runs, gaps);
    }
  }

  /** A string has no matches exactly when it has no digit. */
  lemma RunsEmptyIffNoDigits(s: string)
    ensures Runs(s) == [] <==> NoDigits(s)
  {
    var runs, gaps := Runs(s), Gaps(s);
    if runs == [] {
      assert s == gaps[0];
    } else {
      assert s == gaps[0] + runs[0] + Weave(gaps[1..], runs[1..]);
      assert s[|gaps[0]|] == runs[0][0];
    }
  }

  // ---------------------------------------------------- digits and trimming

  /** The digit characters of `s`, in order. */
  function DigitsOf(s: string): (r: string)
    ensures AllDigits(r) && |r| <= |s|
    decreases |s|
  {
    if |s| == 0 then ""
    else if IsDigit(s[0]) then [s[0]] + DigitsOf(s[1..])
    else DigitsOf(s[1..])
  }

  function Concat(xs: seq<string>): string
    decreases |xs|
  {
    if |xs| == 0 then "" else xs[0] + Concat(xs[1..])
  }

  lemma {:induction false} DigitsOfAppend(a: string, b: string)
    ensures DigitsOf(a + b) == DigitsOf(a) + DigitsOf(b)
    decreases |a|
  {
    if |a| == 0 {
      assert a + b == b;
    } else {
      assert (a + b)[1..] == a[1..] + b;
      DigitsOfAppend(a[1..], b);
    }
  }

  lemma {:induction false} DigitsOfDigitString(d: string)
    requires AllDigits(d)
    ensures DigitsOf(d) == d
    decreases |d|
  {
    if |d| > 0 {
      DigitsOfDigitString(d[1..]);
      assert d == [d[0]] + d[1..];
    }
  }

  /** Joining the matches gives back every digit of the text and nothing else. */
  lemma {:induction false} RunsCoverDigits(s: string)
    ensures Concat(Runs(s)) == DigitsOf(s)
    decreases |s|
  {
    if |s| > 0 {
      if !IsDigit(s[0]) {
        RunsCoverDigits(s[1..]);
      } else {
        var n := DigitPrefix(s);
        RunsCoverDigits(s[n..]);
        assert s == s[..n] + s[n..];
        DigitsOfAppend(s[..n], s[n..]);
        DigitsOfDigitString(s[..n]);
        assert Runs(s) == [s[..n]] + Runs(s[n..]);
      }
    }
  }

  /** A digit-free suffix contributes no run and does not extend the last one. */
  lemma {:induction false} RunsSkipDigitFreeSuffix(t: string, g: string)
    requires NoDigits(g)
    ensures Runs(t + g) == Runs(t)
    decreases |t|
  {
    if |t| == 0 {
      assert t + g == g + "";
      RunsSkipDigitFreePrefix(g, "");
    } else if !IsDigit(t[0]) {
      assert (t + g)[1..] == t[1..] + g;
      RunsSkipDigitFreeSuffix(t[1..], g);
    } else {
      var n := DigitPrefix(t);
      DigitPrefixIs(t + g, n);
      assert (t + g)[..n] == t[..n];
      assert (t + g)[n..] == t[n..] + g;
      RunsSkipDigitFreeSuffix(t[n..], g);
    }
  }

  /** Trimming only removes whitespace, so it never changes the matches. */
  lemma TrimKeepsRuns(s: string)
    ensures Runs(Trim(s)) == Runs(s)
  {
    var a, b :| 0 <= a <= b <= |s| && Trim(s) == s[a..b] && AllWhitespace(s[..a]) && AllWhitespace(s[b..]);
    assert s == s[..a] + s[a..b] + s[b..];
    RunsIgnoreSurroundingWhitespace(s[..a], s[a..b], s[b..]);
  }

  /** Whitespace on either side of a text does not change its runs. */
  lemma RunsIgnoreSurroundingWhitespace(w1: string, r: string, w2: string)
    requires AllWhitespace(w1) && AllWhitespace(w2)
    ensures Runs(w1 + r + w2) == Runs(r)
  {
    WhitespaceHasNoDigits(w1);
    WhitespaceHasNoDigits(w2);
    assert w1 + r + w2 == w1 + (r + w2);
    RunsSkipDigitFreePrefix(w1, r + w2);
    RunsSkipDigitFreeSuffix(r, w2);
  }

  // ------------------------------------------------------ join and summary

  const Separator := ", "
  const NoNumbersMessage := "No numbers found."

  /** `Array.prototype.join`: the elements in order with one separator
      between each pair of neighbours. */
  function Join(xs: seq<string>, sep: string): (r: string)
    ensures |xs| == 0 ==> r == ""
    ensures |xs| == 1 ==> r == xs[0]
    ensures |xs| > 0 ==> |xs[0]| <= |r| && r[..|xs[0]|] == xs[0]
    decreases |xs|
  {
    if |xs| == 0 then ""
    else if |xs| == 1 then xs[0]
    else xs[0] + sep + Join(xs[1..], sep)
  }

  /** A joined list is as long as its elements together plus one separator
      between each pair of neighbours. */
  lemma {:induction false} JoinLength(xs: seq<string>, sep: string)
    requires |xs| > 0
    ensures |Join(xs, sep)| == |Concat(xs)| + |sep| * (|xs| - 1)
    decreases |xs|
  {
    if |xs| > 1 {
      JoinLength(xs[1..], sep);
      assert |sep| * (|xs| - 1) == |sep| + |sep| * (|xs| - 2);
    }
  }

  /** Appending an element to a non-empty list appends the separator and then
      the element: the separator sits between every pair of neighbours. */
  lemma {:induction false} JoinSnoc(xs: seq<string>, x: string, sep: string)
    requires |xs| > 0
    ensures Join(xs + [x], sep) == Join(xs, sep) + sep + x
    decreases |xs|
  {
    if |xs| > 1 {
      assert (xs + [x])[1..] == xs[1..] + [x];
      JoinSnoc(xs[1..], x, sep);
    } else {
      assert xs + [x] == [xs[0], x];
      assert [xs[0], x][1..] == [x];
    }
  }

  /** The digit summary: the matches of `/\d+/g` in the trimmed text joined
      with ", ", or "No numbers found." when the text holds no digit. */
  function DigitSummary(text: string): (r: string)
    ensures NoDigits(text) ==> r == NoNumbersMessage
    ensures !NoDigits(text) ==> r == Join(Runs(text), Separator) && |Runs(text)| > 0
  {
    TrimKeepsRuns(text);
    RunsEmptyIffNoDigits(text);
    match MatchDigits(Trim(text))
    case None => NoNumbersMessage
    case Some(matches) => Join(matches, Separator)
  }

  /** Re-extracting the matches from a joined list gives the list back. */
  lemma {:induction false} RunsOfJoin(runs: seq<string>)
    requires forall k :: 0 <= k < |runs| ==> |runs[k]| > 0 && AllDigits(runs[k])
    ensures Runs(Join(runs, Separator)) == runs
    decreases |runs|
  {
    if |runs| == 0 {
    } else if |runs| == 1 {
      RunsOfLeadingRun(runs[0], "");
      assert runs[0] + "" == runs[0];
    } else {
      var tail := Join(runs[1..], Separator);
      RunsOfJoin(runs[1..]);
      assert Join(runs, Separator) == runs[0] + (Separator + tail);
      RunsAcrossSeparator(runs[0], tail);
    }
  }

  /** A run followed by the separator ends there; the separator adds no run. */
  lemma {:induction false} RunsAcrossSeparator(d: string, tail: string)
    requires |d| > 0 && AllDigits(d)
    ensures Runs(d + (Separator + tail)) == [d] + Runs(tail)
  {
    var rest := Separator + tail;
    assert rest[0] == ',';
    RunsOfLeadingRun(d, rest);
    assert NoDigits(Separator);
    RunsSkipDigitFreePrefix(Separator, tail);
  }

  lemma NoNumbersMessageHasNoDigits()
    ensures NoDigits(NoNumbersMessage)
  {
    assert forall i :: 0 <= i < |NoNumbersMessage| ==> NoNumbersMessage[i] !in "0123456789";
  }

  /** The summary keeps the numbers of the text: extracting the matches from
      it gives the matches of the text. */
  lemma {:induction false} SummaryKeepsRuns(text: string)
    ensures Runs(DigitSummary(text)) == Runs(text)
  {
    RunsEmptyIffNoDigits(text);
    if NoDigits(text) {
      NoNumbersMessageHasNoDigits();
      RunsEmptyIffNoDigits(NoNumbersMessage);
    } else {
      RunsOfJoin(Runs(text));
    }
  }

  /** Summarising a summary changes nothing. */
  lemma {:induction false} SummaryIdempotent(text: string)
    ensures DigitSummary(DigitSummary(text)) == DigitSummary(text)
  {
    var s := DigitSummary(text);
    SummaryKeepsRuns(text);
    RunsEmptyIffNoDigits(text);
    RunsEmptyIffNoDigits(s);
  }
}
