/** The three patterns the audit runs over post bodies, written as string
    predicates: an opening heading tag `/<hN[^>]*>/i` and the link target
    `/href=["']([^"']+)["']/i`, plus the test that makes a link internal. */
module Scan {
  import opened Text

  /** `<`, a case-insensitive `h` and the level digit start at `i`. */
  predicate TagAt(s: string, i: nat, level: char) {
    i + 3 <= |s| && s[i] == '<' && LowerChar(s[i + 1]) == 'h' && s[i + 2] == level
  }

  /** Some `>` at or after position `k`. */
  predicate ClosesAfter(s: string, k: nat) {
    exists j :: k <= j < |s| && s[j] == '>'
  }

  /** Reference reading of `/<hN[^>]*>/i` matching somewhere: a tag start
      followed, anywhere later, by `>` (the first such `>` ends the match,
      since `[^>]*` cannot cross one). */
  predicate HeadingMatch(s: string, level: char) {
    exists i: nat :: i < |s| && TagAt(s, i, level) && ClosesAfter(s, i + 3)
  }

  /** Looks for the `>` that closes a tag, from `k` on. */
  function ScanClose(s: string, k: nat): bool
    requires k <= |s|
    decreases |s| - k
  {
    k < |s| && (s[k] == '>' || ScanClose(s, k + 1))
  }

  /** The left-to-right search of the regex engine from position `i`: at the
      first tag start the match succeeds exactly when a `>` follows; if none
      follows, no later start can succeed either. */
  function ScanTag(s: string, level: char, i: nat): bool
    requires i <= |s|
    decreases |s| - i
  {
    if i + 3 > |s| then false
    else if TagAt(s, i, level) then ScanClose(s, i + 3)
    else ScanTag(s, level, i + 1)
  }

  /** `count( $matches[0] ) > 0` for `preg_match_all( '/<hN[^>]*>/i', ... )`. */
  function HasHeading(s: string, level: char): bool {
    ScanTag(s, level, 0)
  }

  lemma {:induction false} ScanCloseCorrect(s: string, k: nat)
    requires k <= |s|
    ensures ScanClose(s, k) <==> ClosesAfter(s, k)
    decreases |s| - k
  {
    if k < |s| && s[k] != '>' {
      ScanCloseCorrect(s, k + 1);
      if ClosesAfter(s, k) {
        var j :| k <= j < |s| && s[j] == '>';
        assert k + 1 <= j;
      }
    }
  }

  lemma {:induction false} ScanTagCorrect(s: string, level: char, i: nat)
    requires i <= |s|
    ensures ScanTag(s, level, i) <==> exists p: nat :: i <= p < |s| && TagAt(s, p, level) && ClosesAfter(s, p + 3)
    decreases |s| - i
  {
    if i + 3 > |s| {
    } else if TagAt(s, i, level) {
      ScanCloseCorrect(s, i + 3);
      if exists p: nat :: i <= p < |s| && TagAt(s, p, level) && ClosesAfter(s, p + 3) {
        var p: nat :| i <= p < |s| && TagAt(s, p, level) && ClosesAfter(s, p + 3);
        var j :| p + 3 <= j < |s| && s[j] == '>';
        assert i + 3 <= j;
      }
    } else {
      ScanTagCorrect(s, level, i + 1);
      if exists p: nat :: i <= p < |s| && TagAt(s, p, level) && ClosesAfter(s, p + 3) {
        var p: nat :| i <= p < |s| && TagAt(s, p, level) && ClosesAfter(s, p + 3);
        assert p != i;
      }
    }
  }

  /** The scanner finds a heading tag exactly when the pattern matches. */
  lemma HasHeadingCorrect(s: string, level: char)
    ensures HasHeading(s, level) <==> HeadingMatch(s, level)
  {
    ScanTagCorrect(s, level, 0);
  }

  /** A body with no `<` has no heading tag of any level. */
  lemma NoAngleNoHeading(s: string, level: char)
    requires forall k :: 0 <= k < |s| ==> s[k] != '<'
    ensures !HasHeading(s, level)
  {
    HasHeadingCorrect(s, level);
  }

  /** The heading test ignores the case of the `h`. */
  lemma HeadingCaseInsensitive(s: string, level: char, i: nat)
    requires i + 4 <= |s| && s[i] == '<' && (s[i + 1] == 'h' || s[i + 1] == 'H') && s[i + 2] == level && s[i + 3] == '>'
    ensures HasHeading(s, level)
  {
    HasHeadingCorrect(s, level);
    assert TagAt(s, i, level) && s[i + 3] == '>';
  }

  predicate IsQuote(c: char) {
    c == '"' || c == '\''
  }

  /** The end of the run of non-quote characters that starts at `k`. */
  function RunEnd(s: string, k: nat): (e: nat)
    requires k <= |s|
    ensures k <= e <= |s|
    ensures forall m :: k <= m < e ==> !IsQuote(s[m])
    ensures e < |s| ==> IsQuote(s[e])
    decreases |s| - k
  {
    if k == |s| || IsQuote(s[k]) then k else RunEnd(s, k + 1)
  }

  /** Case-insensitive `href=` at `i`. */
  predicate HrefAt(s: string, i: nat) {
    i + 5 <= |s| && LowerChar(s[i]) == 'h' && LowerChar(s[i + 1]) == 'r' &&
    LowerChar(s[i + 2]) == 'e' && LowerChar(s[i + 3]) == 'f' && s[i + 4] == '='
  }

  /** The captured group of every match of `/href=["']([^"']+)["']/i` from
      position `i` on, left to right and without overlap. The run `[^"']+`
      cannot give back characters and still be followed by a quote, so a
      match at `i` exists exactly when the run after the opening quote is
      non-empty and ends at a quote. */
  function Hrefs(s: string, i: nat): (r: seq<string>)
    requires i <= |s|
    ensures forall k :: 0 <= k < |r| ==> |r[k]| > 0 && Contains(s, r[k])
    ensures forall k, m :: 0 <= k < |r| && 0 <= m < |r[k]| ==> !IsQuote(r[k][m])
    decreases |s| - i
  {
    if i + 8 > |s| then []
    else if HrefAt(s, i) && IsQuote(s[i + 5]) then
      var e := RunEnd(s, i + 6);
      if i + 6 < e < |s| then
        assert OccursAt(s, s[i + 6..e], i + 6);
        [s[i + 6..e]] + Hrefs(s, e + 1)
      else Hrefs(s, i + 1)
    else Hrefs(s, i + 1)
  }

  /** A match of `/href=["']([^"']+)["']/i` that starts at `p` and whose
      closing quote is at `e`: the capture is `s[p + 6..e]`. */
  predicate HrefMatch(s: string, p: nat, e: nat) {
    p + 6 < e < |s| && HrefAt(s, p) && IsQuote(s[p + 5]) && IsQuote(s[e]) &&
    forall m :: p + 6 <= m < e ==> !IsQuote(s[m])
  }

  /** The closing quote of a match is the first quote after the opening
      one. */
  lemma HrefMatchEndsRun(s: string, p: nat, e: nat)
    requires HrefMatch(s, p, e)
    ensures e == RunEnd(s, p + 6)
  {
  }

  /** One step of the scan at `i`: past the end nothing is found; a match
      at `i` is captured and the scan resumes after its closing quote;
      otherwise the scan moves on by one character. */
  lemma HrefsStep(s: string, i: nat)
    requires i <= |s|
    ensures i + 8 > |s| ==> Hrefs(s, i) == []
    ensures forall e: nat :: HrefMatch(s, i, e) ==> Hrefs(s, i) == [s[i + 6..e]] + Hrefs(s, e + 1)
    ensures i + 8 <= |s| && (forall e: nat :: !HrefMatch(s, i, e)) ==> Hrefs(s, i) == Hrefs(s, i + 1)
  {
    forall e: nat | HrefMatch(s, i, e) ensures Hrefs(s, i) == [s[i + 6..e]] + Hrefs(s, e + 1) {
      HrefMatchEndsRun(s, i, e);
    }
    if i + 8 <= |s| && HrefAt(s, i) && IsQuote(s[i + 5]) {
      var e := RunEnd(s, i + 6);
      if i + 6 < e < |s| {
        assert HrefMatch(s, i, e);
      }
    }
  }

  /** The scan from `i` finds nothing exactly when the pattern matches
      nowhere from `i` on. */
  lemma {:induction false} HrefsEmptyIffNoMatch(s: string, i: nat)
    requires i <= |s|
    ensures Hrefs(s, i) == [] <==> forall p: nat, e: nat :: i <= p ==> !HrefMatch(s, p, e)
    decreases |s| - i
  {
    HrefsStep(s, i);
    if i + 8 <= |s| {
      if exists e: nat :: HrefMatch(s, i, e) {
        var e: nat :| HrefMatch(s, i, e);
        assert Hrefs(s, i)[0] == s[i + 6..e];
      } else {
        HrefsEmptyIffNoMatch(s, i + 1);
        assert forall p: nat, e: nat :: i <= p && HrefMatch(s, p, e) ==> i + 1 <= p;
      }
    }
  }

  /** At the first match from `i` on, the scan captures that match's text
      and carries on after its closing quote. */
  lemma {:induction false} HrefsFirstMatch(s: string, i: nat, p: nat, e: nat)
    requires i <= p && HrefMatch(s, p, e)
    requires forall q: nat, d: nat :: i <= q < p ==> !HrefMatch(s, q, d)
    ensures Hrefs(s, i) == [s[p + 6..e]] + Hrefs(s, e + 1)
    decreases p - i
  {
    HrefsStep(s, i);
    if i < p {
      HrefsFirstMatch(s, i + 1, p, e);
    }
  }

  /** `$matches[1]` for the whole body. */
  function LinkTargets(s: string): seq<string> {
    Hrefs(s, 0)
  }

  /** Without an `=` from `i` on there is no link target. */
  lemma {:induction false} NoEqualsNoHrefs(s: string, i: nat)
    requires i <= |s|
    requires forall k :: i <= k < |s| ==> s[k] != '='
    ensures Hrefs(s, i) == []
    decreases |s| - i
  {
    if i + 8 <= |s| {
      NoEqualsNoHrefs(s, i + 1);
    }
  }

  /** A double-quoted `href` followed by a closing quote is found at the
      start of a body. */
  lemma HrefAtStart(url: string, rest: string)
    requires |url| > 0 && forall m :: 0 <= m < |url| ==> !IsQuote(url[m])
    ensures LinkTargets("href=\"" + url + "\"" + rest) == [url] + Hrefs("href=\"" + url + "\"" + rest, |url| + 7)
  {
    var s := "href=\"" + url + "\"" + rest;
    assert s[..6] == "href=\"";
    assert s[6..6 + |url|] == url;
    assert s[6 + |url|] == '"';
    assert HrefAt(s, 0);
    assert forall m :: 6 <= m < 6 + |url| ==> s[m] == url[m - 6];
    assert RunEnd(s, 6) == 6 + |url|;
  }

  /** A link is internal when it contains the home URL anywhere or starts
      with `/`. */
  predicate IsInternal(url: string, home: string) {
    Contains(url, home) || StartsWith(url, "/")
  }

  /** The number of internal links among the targets. */
  function InternalCount(urls: seq<string>, home: string): (n: nat)
    ensures n <= |urls|
    ensures n == 0 <==> forall k :: 0 <= k < |urls| ==> !IsInternal(urls[k], home)
  {
    if urls == [] then 0
    else
      var init := urls[..|urls| - 1];
      assert forall k :: 0 <= k < |init| ==> init[k] == urls[k];
      InternalCount(init, home) + (if IsInternal(urls[|urls| - 1], home) then 1 else 0)
  }
}
