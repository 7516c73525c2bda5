/** The admin script's `escapeHtml`: a global replace of the five HTML
    special characters by their entities, driven by a constant lookup map. */
module Escape {

  /** The lookup map: the entity for each special character, the character
      itself for every other one. */
  function EscapeChar(c: char): string {
    match c
    case '&' => "&amp;"
    case '<' => "&lt;"
    case '>' => "&gt;"
    case '"' => "&quot;"
    case '\'' => "&#039;"
    case _ => [c]
  }

  predicate IsSpecial(c: char) {
    c == '&' || c == '<' || c == '>' || c == '"' || c == '\''
  }

  /** `String(text).replace(/[&<>"']/g, m => map[m])`. */
  function EscapeHtml(s: string): string {
    if s == [] then [] else EscapeChar(s[0]) + EscapeHtml(s[1..])
  }

  /** The characters that can never appear in escaped output. */
  predicate Unsafe(c: char) {
    c == '<' || c == '>' || c == '"' || c == '\''
  }

  /** Reference decoder: turns the five entities back into their characters
      and keeps everything else. */
  function Unescape(s: string): string
    decreases |s|
  {
    if s == [] then []
    else if |s| >= 5 && s[..5] == "&amp;" then "&" + Unescape(s[5..])
    else if |s| >= 4 && s[..4] == "&lt;" then "<" + Unescape(s[4..])
    else if |s| >= 4 && s[..4] == "&gt;" then ">" + Unescape(s[4..])
    else if |s| >= 6 && s[..6] == "&quot;" then "\"" + Unescape(s[6..])
    else if |s| >= 6 && s[..6] == "&#039;" then "'" + Unescape(s[6..])
    else [s[0]] + Unescape(s[1..])
  }

  /** Each of the five characters is replaced by its entity; every other
      character stands for itself. */
  lemma EscapeCharTable(c: char)
    ensures c == '&' ==> EscapeChar(c) == "&amp;"
    ensures c == '<' ==> EscapeChar(c) == "&lt;"
    ensures c == '>' ==> EscapeChar(c) == "&gt;"
    ensures c == '"' ==> EscapeChar(c) == "&quot;"
    ensures c == '\'' ==> EscapeChar(c) == "&#039;"
    ensures !IsSpecial(c) ==> EscapeChar(c) == [c]
    ensures |EscapeChar(c)| >= 1
    ensures forall k :: 0 <= k < |EscapeChar(c)| ==> !Unsafe(EscapeChar(c)[k])
  {
  }

  /** Escaping works character by character. */
  lemma {:induction false} EscapeConcat(a: string, b: string)
    ensures EscapeHtml(a + b) == EscapeHtml(a) + EscapeHtml(b)
  {
    if a == [] {
      assert a + b == b;
    } else {
      assert (a + b)[0] == a[0];
      assert (a + b)[1..] == a[1..] + b;
      EscapeConcat(a[1..], b);
    }
  }

  /** The output is never shorter than the input. */
  lemma {:induction false} EscapeNotShorter(s: string)
    ensures |EscapeHtml(s)| >= |s|
  {
    if s != [] {
      EscapeCharTable(s[0]);
      EscapeNotShorter(s[1..]);
    }
  }

  /** A string with none of the five characters comes back identical. */
  lemma {:induction false} EscapeIdentity(s: string)
    requires forall k :: 0 <= k < |s| ==> !IsSpecial(s[k])
    ensures EscapeHtml(s) == s
  {
    if s != [] {
      EscapeCharTable(s[0]);
      EscapeIdentity(s[1..]);
      assert [s[0]] + s[1..] == s;
    }
  }

  /** The output holds no `<`, `>`, `"` or `'`. */
  lemma {:induction false} EscapeSafe(s: string)
    ensures forall k :: 0 <= k < |EscapeHtml(s)| ==> !Unsafe(EscapeHtml(s)[k])
  {
    if s != [] {
      EscapeCharTable(s[0]);
      EscapeSafe(s[1..]);
      var e, t := EscapeChar(s[0]), EscapeHtml(s[1..]);
      assert forall k :: 0 <= k < |e + t| ==> (e + t)[k] == if k < |e| then e[k] else t[k - |e|];
    }
  }

  lemma UnescapeAfterEscapeChar(c: char, t: string)
    ensures Unescape(EscapeChar(c) + t) == [c] + Unescape(t)
  {
    var e := EscapeChar(c) + t;
    match c
    case '&' => assert e[..5] == "&amp;" && e[5..] == t;
    case '<' => assert e[..4] == "&lt;" && e[4..] == t && e[1] == 'l' && (|e| < 5 || e[..5][1] == 'l');
    case '>' => assert e[..4] == "&gt;" && e[4..] == t && e[1] == 'g' && (|e| < 5 || e[..5][1] == 'g');
    case '"' => assert e[..6] == "&quot;" && e[6..] == t && e[1] == 'q' && e[..5][1] == 'q' && (e[..4][1] == 'q');
    case '\'' => assert e[..6] == "&#039;" && e[6..] == t && e[1] == '#' && e[..5][1] == '#' && (e[..4][1] == '#');
    case _ =>
      assert e[0] == c && e[1..] == t;
      assert (|e| < 4 || e[..4][0] == c) && (|e| < 5 || e[..5][0] == c) && (|e| < 6 || e[..6][0] == c);
  }

  /** Escaping loses nothing: decoding the entities gives the input back. */
  lemma {:induction false} UnescapeEscape(s: string)
    ensures Unescape(EscapeHtml(s)) == s
  {
    if s != [] {
      UnescapeAfterEscapeChar(s[0], EscapeHtml(s[1..]));
      UnescapeEscape(s[1..]);
      assert [s[0]] + s[1..] == s;
    }
  }

  /** Hence two different texts never escape to the same markup. */
  lemma EscapeInjective(a: string, b: string)
    requires EscapeHtml(a) == EscapeHtml(b)
    ensures a == b
  {
    UnescapeEscape(a);
    UnescapeEscape(b);
  }
}
