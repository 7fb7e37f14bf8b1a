/**
 * The problem summariser's text cleaner: keep what follows the summary
 * marker, drop the Markdown emphasis, squeeze blank lines and double spaces
 * once, and trim.
 */
module ProblemSummarizer {
  import opened Text

  /** The heading the model is asked to put before its summary. */
  const Marker := "PROBLEM SUMMARY:"

  /** `s.split(pat, 1)[1]` when `pat` occurs in `s`: the text after its first occurrence. */
  function AfterFirst(s: string, pat: string): Option<string>
    requires pat != []
    decreases |s|
  {
    if IsPrefix(pat, s) then Some(s[|pat|..])
    else if s == [] then None
    else AfterFirst(s[1..], pat)
  }

  /** The emphasis, blank-line and double-space passes, then `strip()`. */
  function Tidy(s: string): string {
    var noBold := ReplaceAll(s, "**", "");
    var noStars := ReplaceAll(noBold, "*", "");
    var fewerBlankLines := ReplaceAll(noStars, "\n\n", "\n");
    var fewerSpaces := ReplaceAll(fewerBlankLines, "  ", " ");
    Strip(fewerSpaces)
  }

  /** `_extract_summary`. */
  function ExtractSummary(response: string): string {
    match AfterFirst(response, Marker)
    case Some(rest) => Tidy(Strip(rest))
    case None => Tidy(Strip(response))
  }

  // ---------------------------------------------------------------------
  // Properties
  // ---------------------------------------------------------------------

  /**
   * `AfterFirst` finds `pat` exactly when it occurs, and then splits at its
   * first occurrence: `s` is a prefix free of `pat`, `pat`, and the result.
   */
  lemma {:induction false} AfterFirstSplits(s: string, pat: string)
    requires pat != []
    ensures AfterFirst(s, pat).Some? <==> Contains(s, pat)
    ensures AfterFirst(s, pat).Some? ==>
      var rest := AfterFirst(s, pat).value;
      var i := |s| - |rest| - |pat|;
      0 <= i && s == s[..i] + pat + rest && forall j :: 0 <= j < i ==> !IsPrefix(pat, s[j..])
    decreases |s|
  {
    if !IsPrefix(pat, s) && s != [] {
      AfterFirstSplits(s[1..], pat);
      if AfterFirst(s[1..], pat).Some? {
        var rest := AfterFirst(s, pat).value;
        var i := |s| - |rest| - |pat|;
        assert s == [s[0]] + s[1..];
        assert s[1..][..i - 1] == s[1..i];
        forall j | 1 <= j < i
          ensures !IsPrefix(pat, s[j..])
        {
          assert s[1..][j - 1..] == s[j..];
        }
      }
    } else if IsPrefix(pat, s) {
      assert s == s[..0] + pat + s[|pat|..];
    }
  }

  /** The cleaned text holds no '*': "**" and then "*" are deleted, and nothing later puts one back. */
  lemma NoStars(response: string)
    ensures '*' !in ExtractSummary(response)
  {
    var s := match AfterFirst(response, Marker) case Some(rest) => Strip(rest) case None => Strip(response);
    var noBold := ReplaceAll(s, "**", "");
    ReplaceAllRemovesChar(noBold, '*');
    var noStars := ReplaceAll(noBold, "*", "");
    ReplaceAllKeepsOut(noStars, "\n\n", "\n", '*');
    var fewerBlankLines := ReplaceAll(noStars, "\n\n", "\n");
    ReplaceAllKeepsOut(fewerBlankLines, "  ", " ", '*');
    StripKeeps(ReplaceAll(fewerBlankLines, "  ", " "), '*');
  }

  /** The cleaned text neither starts nor ends with white space. */
  lemma Trimmed(response: string)
    ensures var r := ExtractSummary(response); r == [] || (!IsSpace(r[0]) && !IsSpace(r[|r| - 1]))
  {
    var s := match AfterFirst(response, Marker) case Some(rest) => Strip(rest) case None => Strip(response);
    var t := ReplaceAll(ReplaceAll(ReplaceAll(ReplaceAll(s, "**", ""), "*", ""), "\n\n", "\n"), "  ", " ");
    StripEnds(t);
  }

  /** With the marker, only the text after its first occurrence, at `i`, is cleaned. */
  lemma MarkerChoosesText(response: string, i: nat)
    requires i + |Marker| <= |response| && IsPrefix(Marker, response[i..])
    requires forall j :: 0 <= j < i ==> !IsPrefix(Marker, response[j..])
    ensures ExtractSummary(response) == Tidy(Strip(response[i + |Marker|..]))
  {
    AfterFirstSplits(response, Marker);
    assert Contains(response, Marker) by {
      ContainsAt(response, Marker, i);
    }
    var rest := AfterFirst(response, Marker).value;
    var first := |response| - |rest| - |Marker|;
    assert response[first..] == Marker + rest;
    assert IsPrefix(Marker, response[first..]);
    assert first == i;
  }

  /** Without the marker, the whole response is cleaned. */
  lemma NoMarkerKeepsAll(response: string)
    requires !Contains(response, Marker)
    ensures ExtractSummary(response) == Tidy(Strip(response))
  {
    AfterFirstSplits(response, Marker);
  }

  /** An occurrence at any index makes `pat` contained. */
  lemma {:induction false} ContainsAt(s: string, pat: string, i: nat)
    requires i <= |s| && IsPrefix(pat, s[i..])
    ensures Contains(s, pat)
    decreases i
  {
    if i > 0 {
      assert s[1..][i - 1..] == s[i..];
      ContainsAt(s[1..], pat, i - 1);
    }
  }

  /** `n` copies of `c`. */
  function Repeat(c: char, n: nat): (r: string)
    ensures |r| == n && forall k :: 0 <= k < n ==> r[k] == c
  {
    if n == 0 then [] else [c] + Repeat(c, n - 1)
  }

  /**
   * One replace pass halves a run: `2n` copies of `c` replaced pairwise by
   * one become `n`, so four spaces come out as two and four newlines as two.
   */
  lemma {:induction false} OnePassHalves(c: char, n: nat)
    ensures ReplaceAll(Repeat(c, 2 * n), [c, c], [c]) == Repeat(c, n)
  {
    if n > 0 {
      var s := Repeat(c, 2 * n);
      assert IsPrefix([c, c], s);
      assert s[2..] == Repeat(c, 2 * (n - 1));
      OnePassHalves(c, n - 1);
    }
  }
}
