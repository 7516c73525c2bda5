/** The helper class: score bands, the meta-description and focus-keyword
    resolvers over the SEO plugins' fields, the alt-text tests, and the
    sitemap and robots.txt probes. */
module Helpers {
  import opened Text
  import opened Repository

  const Green := "#22c55e"
  const Yellow := "#eab308"
  const Red := "#ef4444"

  /** `score_color`. */
  function ScoreColor(score: int): (c: string)
    ensures c == Green <==> score >= 80
    ensures c == Yellow <==> 50 <= score < 80
    ensures c == Red <==> score < 50
  {
    if score >= 80 then Green else if score >= 50 then Yellow else Red
  }

  /** `score_label`. */
  function ScoreLabel(score: int): (l: string)
    ensures l == "Good" <==> score >= 80
    ensures l == "Needs Improvement" <==> 50 <= score < 80
    ensures l == "Poor" <==> score < 50
  {
    if score >= 80 then "Good" else if score >= 50 then "Needs Improvement" else "Poor"
  }

  /** The colour and the label use the same bands: two scores share a colour
      exactly when they share a label, and the pairing is fixed. */
  lemma ColorAndLabelAgree(a: int, b: int)
    ensures ScoreColor(a) == ScoreColor(b) <==> ScoreLabel(a) == ScoreLabel(b)
    ensures ScoreColor(a) == Green <==> ScoreLabel(a) == "Good"
    ensures ScoreColor(a) == Yellow <==> ScoreLabel(a) == "Needs Improvement"
    ensures ScoreColor(a) == Red <==> ScoreLabel(a) == "Poor"
  {
  }

  /** Reference resolver: the first field in priority order that PHP treats
      as true, or '' when there is none. */
  function FirstTruthy(fields: seq<string>): (r: string)
    ensures !Falsy(r) || r == ""
    ensures r == "" <==> forall i :: 0 <= i < |fields| ==> Falsy(fields[i])
    ensures r != "" ==> exists i :: 0 <= i < |fields| && fields[i] == r && forall j :: 0 <= j < i ==> Falsy(fields[j])
  {
    if fields == [] then ""
    else if !Falsy(fields[0]) then fields[0]
    else
      var r := FirstTruthy(fields[1..]);
      assert forall i :: 1 <= i < |fields| ==> fields[i] == fields[1..][i - 1];
      assert r != "" ==> exists i :: 1 <= i < |fields| && fields[i] == r && forall j :: 0 <= j < i ==> Falsy(fields[j]);
      r
  }

  /** `get_meta_description`: Yoast, then Rank Math, then AIOSEO, the first
      one that is not empty; '' otherwise. */
  function MetaDescription(yoast: string, rankMath: string, aioseo: string): (r: string)
    ensures r == FirstTruthy([yoast, rankMath, aioseo])
    ensures !Falsy(yoast) ==> r == yoast
    ensures Falsy(yoast) && !Falsy(rankMath) ==> r == rankMath
    ensures r == "" <==> Falsy(yoast) && Falsy(rankMath) && Falsy(aioseo)
    ensures Falsy(r) <==> r == ""
  {
    assert [yoast, rankMath, aioseo][1..] == [rankMath, aioseo];
    assert [rankMath, aioseo][1..] == [aioseo];
    assert [aioseo][1..] == [];
    if !Falsy(yoast) then yoast
    else if !Falsy(rankMath) then rankMath
    else
      assert FirstTruthy([yoast, rankMath, aioseo]) == FirstTruthy([aioseo]);
      if !Falsy(aioseo) then aioseo
      else ""
  }

  /** `get_focus_keyword`: Yoast, then Rank Math. */
  function FocusKeyword(yoast: string, rankMath: string): (r: string)
    ensures r == FirstTruthy([yoast, rankMath])
    ensures !Falsy(yoast) ==> r == yoast
    ensures r == "" <==> Falsy(yoast) && Falsy(rankMath)
  {
    if !Falsy(yoast) then yoast
    else if !Falsy(rankMath) then rankMath
    else ""
  }

  /** The description the audit and the dashboard see for a document. */
  function DocumentDescription(d: Document): string {
    MetaDescription(d.yoastDesc, d.rankMathDesc, d.aioseoDesc)
  }

  /** `get_meta_description` read from the post-meta table. */
  function DescriptionOf(meta: map<(int, string), string>, id: int): string {
    MetaDescription(MetaValue(meta, id, YoastDescKey), MetaValue(meta, id, RankMathDescKey), MetaValue(meta, id, AioseoDescKey))
  }

  /** `image_has_alt`: false exactly when the alt meta is empty in PHP's
      sense. */
  predicate ImageHasAlt(alt: string) {
    !Falsy(alt)
  }

  /** An alt value the query's `pm.meta_value = ''` matches. WordPress
      creates its tables with PAD SPACE collations, under which trailing
      spaces are ignored in a comparison, so a value made only of spaces
      equals ''. */
  predicate BlankForSql(alt: string) {
    forall i :: 0 <= i < |alt| ==> alt[i] == ' '
  }

  /** The row filter of `get_images_without_alt`: the alt meta is absent
      (NULL, modelled as '') or compares equal to ''. */
  predicate LacksAlt(img: Image) {
    BlankForSql(img.alt)
  }

  /** `get_images_without_alt`, over the image attachments in table order. */
  function ImagesWithoutAlt(images: seq<Image>): (r: seq<Image>)
    ensures |r| <= |images|
    ensures forall x :: x in r <==> x in images && BlankForSql(x.alt)
  {
    if images == [] then []
    else
      var rest := ImagesWithoutAlt(images[..|images| - 1]);
      var last := images[|images| - 1];
      assert forall x :: x in images <==> x in images[..|images| - 1] || x == last;
      if LacksAlt(last) then rest + [last] else rest
  }

  /** The two alt tests disagree on an alt text of "0": `image_has_alt`
      says it has no alt text, while the query does not list it. */
  lemma AltZeroIsHandledDifferently(img: Image)
    requires img.alt == "0"
    ensures !ImageHasAlt(img.alt)
    ensures ImagesWithoutAlt([img]) == []
  {
    assert img.alt[0] != ' ';
  }

  /** The two alt tests disagree on an alt text of spaces only: the query
      lists the image, while `image_has_alt` says it has alt text. */
  lemma AltSpacesAreHandledDifferently(img: Image)
    requires img.alt != "" && BlankForSql(img.alt)
    ensures ImageHasAlt(img.alt)
    ensures ImagesWithoutAlt([img]) == [img]
  {
    assert img.alt[0] == ' ';
  }

  /** Exactly where the two alt tests disagree: the query and
      `image_has_alt` give opposite answers unless the alt is "0" or a
      non-empty run of spaces. */
  lemma AltTestsDisagreeExactly(img: Image)
    ensures (LacksAlt(img) == ImageHasAlt(img.alt)) <==> img.alt == "0" || (img.alt != "" && BlankForSql(img.alt))
  {
    if img.alt == "0" {
      assert img.alt[0] != ' ';
    }
  }

  /** The answer of one probe: a transport error or an HTTP status. */
  datatype HeadResponse = WpError | Status(code: int)

  predicate Reachable(r: HeadResponse) {
    r.Status? && r.code == 200
  }

  const SitemapPaths: seq<string> := ["/sitemap.xml", "/sitemap_index.xml", "/wp-sitemap.xml"]

  /** `sitemap_exists`: probes the three conventional sitemap URLs in order
      and stops at the first one that answers 200. `probed` is the number of
      probes made. */
  method SitemapExists(home: string, probe: string -> HeadResponse) returns (found: bool, probed: nat)
    ensures found <==> exists i :: 0 <= i < |SitemapPaths| && Reachable(probe(home + SitemapPaths[i]))
    ensures 1 <= probed <= |SitemapPaths|
    ensures forall i :: 0 <= i < probed - 1 ==> !Reachable(probe(home + SitemapPaths[i]))
    ensures found ==> Reachable(probe(home + SitemapPaths[probed - 1]))
    ensures !found ==> probed == |SitemapPaths|
  {
    var i := 0;
    while i < |SitemapPaths|
      invariant 0 <= i <= |SitemapPaths|
      invariant forall j :: 0 <= j < i ==> !Reachable(probe(home + SitemapPaths[j]))
    {
      var response := probe(home + SitemapPaths[i]);
      if Reachable(response) {
        return true, i + 1;
      }
      i := i + 1;
    }
    return false, |SitemapPaths|;
  }

  /** `robots_exists`. */
  function RobotsExists(home: string, probe: string -> HeadResponse): (r: bool)
    ensures r <==> probe(home + "/robots.txt") == Status(200)
  {
    Reachable(probe(home + "/robots.txt"))
  }
}
