/** What one audit computes from a repository snapshot: the bucket of
    every check, the issue each non-empty bucket (or failed site check)
    yields, the issues of a whole run in check order, and the score. */
module AuditSpec {
  import opened Wrappers
  import opened Text
  import opened Repository
  import opened Helpers
  import opened Scan

  datatype Severity = Critical | Warning | Info
  datatype Category = Security | Technical | Content | Accessibility | Performance
  datatype Fix = Manual | Ai

  /** What an issue points at: the whole site, posts or image attachments. */
  datatype Targets = SiteWide | Posts(postIds: seq<int>) | Images(imageIds: seq<int>)

  /** One entry of the issue list: `type`, `category`, `title`, `message`,
      `posts` or `images`, `fix` and `fixable`. */
  datatype Issue = Issue(
    severity: Severity,
    category: Category,
    title: string,
    message: string,
    targets: Targets,
    fix: Fix,
    fixable: bool)

  /** The issues an audit can raise, in the order `run` raises them. */
  datatype Check =
    | NoSsl | NoSitemap | NoRobots | PlainPermalinks
    | ShortTitles | LongTitles | DuplicateTitles
    | MissingMeta
    | NoH2 | H1InContent
    | MissingAlt
    | NoInternalLinks
    | LargeImages

  const AllChecks: seq<Check> := [
    NoSsl, NoSitemap, NoRobots, PlainPermalinks,
    ShortTitles, LongTitles, DuplicateTitles,
    MissingMeta,
    NoH2, H1InContent,
    MissingAlt,
    NoInternalLinks,
    LargeImages
  ]

  /** The position of a check in `AllChecks`. */
  function Rank(c: Check): (r: nat)
    ensures r < |AllChecks| && AllChecks[r] == c
  {
    match c
    case NoSsl => 0
    case NoSitemap => 1
    case NoRobots => 2
    case PlainPermalinks => 3
    case ShortTitles => 4
    case LongTitles => 5
    case DuplicateTitles => 6
    case MissingMeta => 7
    case NoH2 => 8
    case H1InContent => 9
    case MissingAlt => 10
    case NoInternalLinks => 11
    case LargeImages => 12
  }

  /** The four site-level checks, which point at no post or image. */
  predicate SiteWideCheck(c: Check) {
    c.NoSsl? || c.NoSitemap? || c.NoRobots? || c.PlainPermalinks?
  }

  predicate ImageCheck(c: Check) {
    c.MissingAlt? || c.LargeImages?
  }

  function SeverityOf(c: Check): Severity {
    match c
    case NoSsl => Critical
    case NoSitemap => Warning
    case NoRobots => Info
    case PlainPermalinks => Critical
    case ShortTitles => Warning
    case LongTitles => Warning
    case DuplicateTitles => Critical
    case MissingMeta => Critical
    case NoH2 => Warning
    case H1InContent => Warning
    case MissingAlt => Critical
    case NoInternalLinks => Warning
    case LargeImages => Warning
  }

  function CategoryOf(c: Check): Category {
    match c
    case NoSsl => Security
    case NoSitemap => Technical
    case NoRobots => Technical
    case PlainPermalinks => Technical
    case MissingAlt => Accessibility
    case LargeImages => Performance
    case _ => Content
  }

  function FixOf(c: Check): Fix {
    match c
    case ShortTitles => Ai
    case LongTitles => Ai
    case MissingMeta => Ai
    case MissingAlt => Ai
    case _ => Manual
  }

  /** The `fixable` literal written next to each issue. */
  function FixableFlag(c: Check): bool {
    match c
    case NoSsl => false
    case NoSitemap => false
    case NoRobots => false
    case PlainPermalinks => false
    case ShortTitles => true
    case LongTitles => true
    case DuplicateTitles => false
    case MissingMeta => true
    case NoH2 => false
    case H1InContent => false
    case MissingAlt => true
    case NoInternalLinks => false
    case LargeImages => false
  }

  function Message(c: Check): string {
    match c
    case NoSsl => "Your site is not using HTTPS. This affects SEO and security."
    case NoSitemap => "XML Sitemap helps search engines discover your pages."
    case NoRobots => "Robots.txt helps control search engine crawling."
    case PlainPermalinks => "Using plain permalinks hurts SEO. Use post name structure."
    case ShortTitles => "Titles under 30 characters may not be descriptive enough."
    case LongTitles => "Titles over 60 characters may be truncated in search results."
    case DuplicateTitles => "Duplicate titles confuse search engines and users."
    case MissingMeta => "Meta descriptions are important for click-through rates."
    case NoH2 => "Headings help structure content and improve readability."
    case H1InContent => "Avoid H1 in content - the title is already H1."
    case MissingAlt => "Alt text improves accessibility and image SEO."
    case NoInternalLinks => "Internal links help users and search engines navigate your site."
    case LargeImages => "Large images slow down your site. Consider compressing them."
  }

  /** The text after the `%d` of a bucket title. */
  function TitleSuffix(c: Check): string {
    match c
    case ShortTitles => " pages with short titles"
    case LongTitles => " pages with long titles"
    case DuplicateTitles => " pages with duplicate titles"
    case MissingMeta => " pages without meta description"
    case NoH2 => " long posts without H2 headings"
    case H1InContent => " pages with H1 in content"
    case MissingAlt => " images without alt text"
    case NoInternalLinks => " pages without internal links"
    case LargeImages => " images over 500KB"
    case NoSsl => "No SSL certificate"
    case NoSitemap => "No sitemap found"
    case NoRobots => "No robots.txt"
    case PlainPermalinks => "Plain permalinks"
  }

  /** The title: fixed text for a site check, `sprintf( '%d ...', count )`
      for a bucket. */
  function Title(c: Check, n: nat): string {
    if SiteWideCheck(c) then TitleSuffix(c) else NatToString(n) + TitleSuffix(c)
  }

  /** Every issue is fixable exactly when its fix is `ai`. */
  lemma FixableExactlyAi(c: Check)
    ensures FixableFlag(c) <==> FixOf(c) == Ai
    ensures FixOf(c) == Ai ==> !SiteWideCheck(c)
  {
  }

  // ---------------------------------------------------------------------
  // Buckets

  /** The IDs of the documents that satisfy `p`, in document order. */
  function Ids(docs: seq<Document>, p: Document -> bool): (r: seq<int>)
    ensures |r| <= |docs|
    ensures forall x :: x in r <==> exists k :: 0 <= k < |docs| && p(docs[k]) && docs[k].id == x
  {
    if docs == [] then []
    else
      var init := docs[..|docs| - 1];
      var last := docs[|docs| - 1];
      assert forall k :: 0 <= k < |init| ==> init[k] == docs[k];
      Ids(init, p) + (if p(last) then [last.id] else [])
  }

  predicate NoDup(s: seq<int>) {
    forall a, b :: 0 <= a < b < |s| ==> s[a] != s[b]
  }

  /** With distinct post IDs no bucket names a post twice. */
  lemma {:induction false} IdsNoDup(docs: seq<Document>, p: Document -> bool)
    requires DistinctIds(docs)
    ensures NoDup(Ids(docs, p))
  {
    if docs != [] {
      var init := docs[..|docs| - 1];
      var last := docs[|docs| - 1];
      assert DistinctIds(init) by {
        forall i, j | 0 <= i < j < |init| ensures init[i].id != init[j].id {
          assert init[i] == docs[i] && init[j] == docs[j];
        }
      }
      IdsNoDup(init, p);
      if p(last) {
        assert last.id !in Ids(init, p) by {
          forall k | 0 <= k < |init| ensures init[k].id != last.id {
            assert init[k] == docs[k];
          }
        }
      }
    }
  }

  /** A bucket keeps document order: the bucket of two runs of documents
      is the first run's bucket followed by the second's. */
  lemma {:induction false} IdsAppend(a: seq<Document>, b: seq<Document>, p: Document -> bool)
    ensures Ids(a + b, p) == Ids(a, p) + Ids(b, p)
    decreases |b|
  {
    if b == [] {
      assert a + b == a;
    } else {
      var init := b[..|b| - 1];
      IdsAppend(a, init, p);
      assert (a + b)[..|a + b| - 1] == a + init;
      assert (a + b)[|a + b| - 1] == b[|b| - 1];
    }
  }

  /** The bucket of one document is its ID when it passes the test and
      nothing otherwise; with IdsAppend this fixes every bucket's order. */
  lemma IdsSingle(d: Document, p: Document -> bool)
    ensures Ids([d], p) == if p(d) then [d.id] else []
  {
    assert [d][..0] == [];
  }

  /** A bucket is empty exactly when no document satisfies its test. */
  lemma IdsEmpty(docs: seq<Document>, p: Document -> bool)
    ensures Ids(docs, p) == [] <==> forall k :: 0 <= k < |docs| ==> !p(docs[k])
  {
    var r := Ids(docs, p);
    if r != [] {
      assert r[0] in r;
    } else {
      forall k | 0 <= k < |docs| ensures !p(docs[k]) {
        assert docs[k].id !in r;
      }
    }
  }

  predicate ShortTitle(d: Document) {
    |d.title| < 30
  }

  predicate LongTitle(d: Document) {
    |d.title| > 60
  }

  predicate LacksMeta(d: Document) {
    Falsy(DocumentDescription(d))
  }

  /** The short and long description buckets, which the check fills but
      never reports. */
  predicate ShortMeta(d: Document) {
    !Falsy(DocumentDescription(d)) && |DocumentDescription(d)| < 120
  }

  predicate LongMeta(d: Document) {
    !Falsy(DocumentDescription(d)) && |DocumentDescription(d)| > 160
  }

  predicate HasH1(d: Document) {
    HasHeading(d.body, '1')
  }

  predicate LacksH2(d: Document) {
    !HasHeading(d.body, '2') && |d.body| > 500
  }

  predicate LacksInternalLinks(d: Document, home: string) {
    InternalCount(LinkTargets(d.body), home) == 0 && |d.body| > 300
  }

  function NoLinksIds(docs: seq<Document>, home: string): seq<int> {
    Ids(docs, d => LacksInternalLinks(d, home))
  }

  /** The IDs of a list of images, in order. */
  function ImageIds(images: seq<Image>): (r: seq<int>)
    ensures |r| == |images|
    ensures forall k :: 0 <= k < |r| ==> r[k] == images[k].id
  {
    if images == [] then [] else ImageIds(images[..|images| - 1]) + [images[|images| - 1].id]
  }

  /** An image counts as large when its file exists and is over 500000
      bytes. */
  predicate IsLarge(img: Image) {
    img.fileSize.Some? && img.fileSize.value > 500000
  }

  function LargeImageIds(images: seq<Image>): (r: seq<int>)
    ensures |r| <= |images|
    ensures forall x :: x in r <==> exists k :: 0 <= k < |images| && IsLarge(images[k]) && images[k].id == x
  {
    if images == [] then []
    else
      var init := images[..|images| - 1];
      var last := images[|images| - 1];
      assert forall k :: 0 <= k < |init| ==> init[k] == images[k];
      LargeImageIds(init) + (if IsLarge(last) then [last.id] else [])
  }

  // ---------------------------------------------------------------------
  // Duplicate titles: `$title_count`, an ordered map from the lowercased
  // title to the IDs that carry it.

  type Groups = seq<(string, seq<int>)>

  function TitleKey(d: Document): string {
    Lower(d.title)
  }

  function GroupKeys(g: Groups): set<string> {
    set k | 0 <= k < |g| :: g[k].0
  }

  predicate DistinctKeys(g: Groups) {
    forall a, b :: 0 <= a < b < |g| ==> g[a].0 != g[b].0
  }

  /** The IDs filed under `key`, or none. */
  function Lookup(g: Groups, key: string): seq<int> {
    if g == [] then [] else if g[0].0 == key then g[0].1 else Lookup(g[1..], key)
  }

  /** `$title_count[ $key ][] = $id`: appends to the key's list, creating
      it at the end when the key is new. */
  function AddToGroup(g: Groups, key: string, id: int): Groups {
    if g == [] then [(key, [id])]
    else if g[0].0 == key then [(key, g[0].1 + [id])] + g[1..]
    else [g[0]] + AddToGroup(g[1..], key, id)
  }

  /** The `$title_count` map after the whole loop. */
  function GroupByTitle(docs: seq<Document>): Groups {
    if docs == [] then []
    else
      var last := docs[|docs| - 1];
      AddToGroup(GroupByTitle(docs[..|docs| - 1]), TitleKey(last), last.id)
  }

  /** `array_merge` of every list longer than one, in map order. */
  function DuplicateIds(g: Groups): seq<int> {
    if g == [] then []
    else DuplicateIds(g[..|g| - 1]) + (if |g[|g| - 1].1| > 1 then g[|g| - 1].1 else [])
  }

  /** The IDs of the documents whose lowercased title is `key`. */
  function IdsWithKey(docs: seq<Document>, key: string): seq<int> {
    Ids(docs, d => TitleKey(d) == key)
  }

  lemma {:induction false} LookupFound(g: Groups, k: nat)
    requires DistinctKeys(g) && k < |g|
    ensures Lookup(g, g[k].0) == g[k].1
  {
    if k > 0 {
      assert g[0].0 != g[k].0;
      assert DistinctKeys(g[1..]) by {
        forall a, b | 0 <= a < b < |g[1..]| ensures g[1..][a].0 != g[1..][b].0 {
          assert g[1..][a] == g[a + 1] && g[1..][b] == g[b + 1];
        }
      }
      LookupFound(g[1..], k - 1);
    }
  }

  lemma {:induction false} LookupMissing(g: Groups, key: string)
    requires key !in GroupKeys(g)
    ensures Lookup(g, key) == []
  {
    if g != [] {
      assert g[0].0 in GroupKeys(g);
      assert GroupKeys(g[1..]) <= GroupKeys(g) by {
        forall x | x in GroupKeys(g[1..]) ensures x in GroupKeys(g) {
          var k :| 0 <= k < |g[1..]| && g[1..][k].0 == x;
          assert g[k + 1].0 == x;
        }
      }
      LookupMissing(g[1..], key);
    }
  }

  lemma ConsKeys(h: (string, seq<int>), t: Groups)
    ensures GroupKeys([h] + t) == {h.0} + GroupKeys(t)
  {
    var r := [h] + t;
    forall x | x in GroupKeys(r) ensures x in {h.0} + GroupKeys(t) {
      var k :| 0 <= k < |r| && r[k].0 == x;
      if k > 0 { assert t[k - 1].0 == x; }
    }
    forall x | x in GroupKeys(t) ensures x in GroupKeys(r) {
      var k :| 0 <= k < |t| && t[k].0 == x;
      assert r[k + 1].0 == x;
    }
    assert r[0].0 == h.0;
  }

  lemma ConsDistinct(h: (string, seq<int>), t: Groups)
    ensures DistinctKeys([h] + t) <==> DistinctKeys(t) && h.0 !in GroupKeys(t)
  {
    var r := [h] + t;
    assert forall k :: 0 <= k < |t| ==> r[k + 1] == t[k];
    if DistinctKeys(r) {
      forall x | x in GroupKeys(t) ensures x != h.0 {
        var k :| 0 <= k < |t| && t[k].0 == x;
        assert r[0] == h && r[k + 1].0 == x;
        assert r[0].0 != r[k + 1].0;
      }
      forall a, b | 0 <= a < b < |t| ensures t[a].0 != t[b].0 {
        assert r[a + 1] == t[a] && r[b + 1] == t[b];
      }
    }
    if DistinctKeys(t) && h.0 !in GroupKeys(t) {
      forall a, b | 0 <= a < b < |r| ensures r[a].0 != r[b].0 {
        if a == 0 {
          assert r[b] == t[b - 1];
        } else {
          assert r[a] == t[a - 1] && r[b] == t[b - 1];
        }
      }
    }
  }

  lemma LookupCons(h: (string, seq<int>), t: Groups)
    ensures forall x :: Lookup([h] + t, x) == if h.0 == x then h.1 else Lookup(t, x)
  {
    assert ([h] + t)[1..] == t;
  }

  lemma {:induction false} AddToGroupEffect(g: Groups, key: string, id: int)
    requires DistinctKeys(g)
    ensures DistinctKeys(AddToGroup(g, key, id))
    ensures GroupKeys(AddToGroup(g, key, id)) == GroupKeys(g) + {key}
    ensures forall x :: Lookup(AddToGroup(g, key, id), x) == if x == key then Lookup(g, x) + [id] else Lookup(g, x)
  {
    if g == [] {
      assert GroupKeys([(key, [id])]) == {key} by {
        assert [(key, [id])][0].0 == key;
      }
    } else {
      var t := g[1..];
      assert g == [g[0]] + t;
      ConsKeys(g[0], t);
      ConsDistinct(g[0], t);
      LookupCons(g[0], t);
      if g[0].0 == key {
        var h := (key, g[0].1 + [id]);
        assert AddToGroup(g, key, id) == [h] + t;
        ConsKeys(h, t);
        ConsDistinct(h, t);
        LookupCons(h, t);
      } else {
        AddToGroupEffect(t, key, id);
        var rt := AddToGroup(t, key, id);
        assert AddToGroup(g, key, id) == [g[0]] + rt;
        ConsKeys(g[0], rt);
        ConsDistinct(g[0], rt);
        LookupCons(g[0], rt);
      }
    }
  }

  /** The title map files each document under its lowercased title: the
      list for a key is exactly the IDs of the documents with that title, in
      document order, and the keys are exactly the titles that occur. */
  lemma {:induction false} GroupByTitleSpec(docs: seq<Document>)
    ensures DistinctKeys(GroupByTitle(docs))
    ensures forall x :: Lookup(GroupByTitle(docs), x) == IdsWithKey(docs, x)
    ensures forall x :: x in GroupKeys(GroupByTitle(docs)) <==> exists k :: 0 <= k < |docs| && TitleKey(docs[k]) == x
  {
    if docs != [] {
      var init := docs[..|docs| - 1];
      var last := docs[|docs| - 1];
      GroupByTitleSpec(init);
      AddToGroupEffect(GroupByTitle(init), TitleKey(last), last.id);
      forall x ensures x in GroupKeys(GroupByTitle(docs)) <==> exists k :: 0 <= k < |docs| && TitleKey(docs[k]) == x {
        if x in GroupKeys(GroupByTitle(docs)) && x != TitleKey(last) {
          var k :| 0 <= k < |init| && TitleKey(init[k]) == x;
          assert docs[k] == init[k];
        }
        if exists k :: 0 <= k < |docs| && TitleKey(docs[k]) == x {
          var k :| 0 <= k < |docs| && TitleKey(docs[k]) == x;
          if k < |init| { assert init[k] == docs[k]; }
        }
      }
    }
  }

  lemma {:induction false} DuplicateIdsMember(g: Groups, x: int)
    ensures x in DuplicateIds(g) <==> exists k :: 0 <= k < |g| && |g[k].1| > 1 && x in g[k].1
  {
    if g != [] {
      var init := g[..|g| - 1];
      DuplicateIdsMember(init, x);
      assert forall k :: 0 <= k < |init| ==> init[k] == g[k];
    }
  }

  /** Two documents sharing a key make its list at least two long. */
  lemma {:induction false} TwoWithKey(docs: seq<Document>, key: string, i: nat, j: nat)
    requires i < |docs| && j < |docs| && i != j
    requires TitleKey(docs[i]) == key && TitleKey(docs[j]) == key
    ensures |IdsWithKey(docs, key)| >= 2
  {
    var init := docs[..|docs| - 1];
    var n := |docs| - 1;
    if i == n || j == n {
      var other := if i == n then j else i;
      assert init[other] == docs[other];
      assert docs[other].id in IdsWithKey(init, key);
    } else {
      assert init[i] == docs[i] && init[j] == docs[j];
      TwoWithKey(init, key, i, j);
    }
  }

  /** A list of at least two gives every member document a partner. */
  lemma {:induction false} PartnerWithKey(docs: seq<Document>, key: string, i: nat)
    requires i < |docs| && TitleKey(docs[i]) == key
    requires |IdsWithKey(docs, key)| >= 2
    ensures exists j :: 0 <= j < |docs| && j != i && TitleKey(docs[j]) == key
  {
    var init := docs[..|docs| - 1];
    var n := |docs| - 1;
    var last := docs[n];
    if TitleKey(last) == key {
      if i == n {
        assert |IdsWithKey(init, key)| >= 1;
        var x := IdsWithKey(init, key)[0];
        assert x in IdsWithKey(init, key);
        var k :| 0 <= k < |init| && TitleKey(init[k]) == key && init[k].id == x;
        assert docs[k] == init[k];
      } else {
        assert TitleKey(docs[n]) == key;
      }
    } else {
      assert init[i] == docs[i];
      PartnerWithKey(init, key, i);
      var j :| 0 <= j < |init| && j != i && TitleKey(init[j]) == key;
      assert docs[j] == init[j];
    }
  }

  /** A post ID is in the duplicate bucket exactly when a document with that
      ID shares its lowercased title with some other document. */
  lemma DuplicateBucketExactly(docs: seq<Document>, x: int)
    ensures x in DuplicateIds(GroupByTitle(docs)) <==>
      exists i, j :: 0 <= i < |docs| && 0 <= j < |docs| && i != j && docs[i].id == x && TitleKey(docs[i]) == TitleKey(docs[j])
  {
    DuplicateHasPartner(docs, x);
    if exists i, j :: 0 <= i < |docs| && 0 <= j < |docs| && i != j && docs[i].id == x && TitleKey(docs[i]) == TitleKey(docs[j]) {
      var i, j :| 0 <= i < |docs| && 0 <= j < |docs| && i != j && docs[i].id == x && TitleKey(docs[i]) == TitleKey(docs[j]);
      PartnerIsDuplicate(docs, i, j);
    }
  }

  /** Every ID in the duplicate bucket belongs to a document whose
      lowercased title another document shares. */
  lemma DuplicateHasPartner(docs: seq<Document>, x: int)
    ensures x in DuplicateIds(GroupByTitle(docs)) ==>
      exists i, j :: 0 <= i < |docs| && 0 <= j < |docs| && i != j && docs[i].id == x && TitleKey(docs[i]) == TitleKey(docs[j])
  {
    var g := GroupByTitle(docs);
    if x in DuplicateIds(g) {
      GroupByTitleSpec(docs);
      DuplicateIdsMember(g, x);
      var k :| 0 <= k < |g| && |g[k].1| > 1 && x in g[k].1;
      LookupFound(g, k);
      var key := g[k].0;
      assert g[k].1 == IdsWithKey(docs, key);
      var i :| 0 <= i < |docs| && TitleKey(docs[i]) == key && docs[i].id == x;
      PartnerWithKey(docs, key, i);
    }
  }

  /** A document whose lowercased title another document shares is in the
      duplicate bucket. */
  lemma PartnerIsDuplicate(docs: seq<Document>, i: nat, j: nat)
    requires i < |docs| && j < |docs| && i != j && TitleKey(docs[i]) == TitleKey(docs[j])
    ensures docs[i].id in DuplicateIds(GroupByTitle(docs))
  {
    var g := GroupByTitle(docs);
    GroupByTitleSpec(docs);
    var key := TitleKey(docs[i]);
    assert key in GroupKeys(g);
    var k :| 0 <= k < |g| && g[k].0 == key;
    LookupFound(g, k);
    TwoWithKey(docs, key, i, j);
    assert docs[i].id in IdsWithKey(docs, key);
    DuplicateIdsMember(g, docs[i].id);
  }

  /** Titles that differ only in letter case are duplicates: two documents
      whose titles are "SEO Tips" and "seo tips" are both in the duplicate
      bucket. */
  lemma CaseVariantsAreDuplicates(docs: seq<Document>, i: nat, j: nat)
    requires i < |docs| && j < |docs| && i != j
    requires SameIgnoringAsciiCase(docs[i].title, docs[j].title)
    ensures docs[i].id in DuplicateIds(GroupByTitle(docs))
    ensures docs[j].id in DuplicateIds(GroupByTitle(docs))
  {
    LowerAlike(docs[i].title, docs[j].title);
    DuplicateBucketExactly(docs, docs[i].id);
    DuplicateBucketExactly(docs, docs[j].id);
  }

  lemma {:induction false} DuplicateIdsNoDup(docs: seq<Document>, g: Groups)
    requires DistinctIds(docs)
    requires DistinctKeys(g)
    requires forall k :: 0 <= k < |g| ==> g[k].1 == IdsWithKey(docs, g[k].0)
    ensures NoDup(DuplicateIds(g))
  {
    if g != [] {
      var init := g[..|g| - 1];
      var last := g[|g| - 1];
      assert forall k :: 0 <= k < |init| ==> init[k] == g[k];
      assert DistinctKeys(init);
      DuplicateIdsNoDup(docs, init);
      if |last.1| > 1 {
        var a := DuplicateIds(init);
        var b := last.1;
        IdsNoDup(docs, d => TitleKey(d) == last.0);
        forall x | x in a ensures x !in b {
          DuplicateIdsMember(init, x);
          var k :| 0 <= k < |init| && |init[k].1| > 1 && x in init[k].1;
          var i :| 0 <= i < |docs| && TitleKey(docs[i]) == init[k].0 && docs[i].id == x;
          if x in b {
            assert false;
          }
        }
        assert NoDup(a + b) by {
          forall p, q | 0 <= p < q < |a + b| ensures (a + b)[p] != (a + b)[q] {
            if q < |a| {
            } else if p >= |a| {
              assert (a + b)[p] == b[p - |a|] && (a + b)[q] == b[q - |a|];
            } else {
              assert (a + b)[p] == a[p] && (a + b)[q] == b[q - |a|];
              assert a[p] in a && b[q - |a|] in b;
            }
          }
        }
      }
    }
  }

  /** With distinct post IDs the duplicate bucket names each post at most
      once. */
  lemma DuplicateBucketNoDup(docs: seq<Document>)
    requires DistinctIds(docs)
    ensures NoDup(DuplicateIds(GroupByTitle(docs)))
  {
    var g := GroupByTitle(docs);
    GroupByTitleSpec(docs);
    forall k | 0 <= k < |g| ensures g[k].1 == IdsWithKey(docs, g[k].0) {
      LookupFound(g, k);
    }
    DuplicateIdsNoDup(docs, g);
  }

  /** No document is in both title-length buckets, and one whose title is
      30 to 60 characters long is in neither. */
  lemma TitleBucketsDisjoint(docs: seq<Document>)
    requires DistinctIds(docs)
    ensures forall x :: !(x in Ids(docs, ShortTitle) && x in Ids(docs, LongTitle))
    ensures forall k :: 0 <= k < |docs| && 30 <= |docs[k].title| <= 60 ==>
      docs[k].id !in Ids(docs, ShortTitle) && docs[k].id !in Ids(docs, LongTitle)
  {
  }

  // ---------------------------------------------------------------------
  // Issues of a run

  /** Everything the ten checks find: the four site facts and the nine
      buckets. */
  datatype Findings = Findings(
    https: bool,
    sitemapReachable: bool,
    robotsReachable: bool,
    permalinkStructure: string,
    shortTitles: seq<int>,
    longTitles: seq<int>,
    duplicateTitles: seq<int>,
    missingMeta: seq<int>,
    noH2: seq<int>,
    h1InContent: seq<int>,
    missingAlt: seq<int>,
    noInternalLinks: seq<int>,
    largeImages: seq<int>)

  /** The IDs check `c` collects from the site: none for a site check. */
  function SiteBucket(c: Check, snap: Snapshot): seq<int> {
    match c
    case ShortTitles => Ids(snap.documents, ShortTitle)
    case LongTitles => Ids(snap.documents, LongTitle)
    case DuplicateTitles => DuplicateIds(GroupByTitle(snap.documents))
    case MissingMeta => Ids(snap.documents, LacksMeta)
    case NoH2 => Ids(snap.documents, LacksH2)
    case H1InContent => Ids(snap.documents, HasH1)
    case MissingAlt => ImageIds(ImagesWithoutAlt(snap.images))
    case NoInternalLinks => NoLinksIds(snap.documents, snap.homeUrl)
    case LargeImages => LargeImageIds(snap.images)
    case _ => []
  }

  function Evaluate(snap: Snapshot): Findings {
    Findings(
      snap.facts.https, snap.facts.sitemapReachable, snap.facts.robotsReachable, snap.facts.permalinkStructure,
      Ids(snap.documents, ShortTitle), Ids(snap.documents, LongTitle), DuplicateIds(GroupByTitle(snap.documents)),
      Ids(snap.documents, LacksMeta),
      Ids(snap.documents, LacksH2), Ids(snap.documents, HasH1),
      ImageIds(ImagesWithoutAlt(snap.images)),
      NoLinksIds(snap.documents, snap.homeUrl),
      LargeImageIds(snap.images))
  }

  function Bucket(c: Check, f: Findings): seq<int> {
    match c
    case ShortTitles => f.shortTitles
    case LongTitles => f.longTitles
    case DuplicateTitles => f.duplicateTitles
    case MissingMeta => f.missingMeta
    case NoH2 => f.noH2
    case H1InContent => f.h1InContent
    case MissingAlt => f.missingAlt
    case NoInternalLinks => f.noInternalLinks
    case LargeImages => f.largeImages
    case _ => []
  }

  /** A site check fires on its failed fact, a bucket check on a non-empty
      bucket. */
  predicate Fires(c: Check, f: Findings) {
    match c
    case NoSsl => !f.https
    case NoSitemap => !f.sitemapReachable
    case NoRobots => !f.robotsReachable
    case PlainPermalinks => Falsy(f.permalinkStructure)
    case _ => |Bucket(c, f)| > 0
  }

  function TargetsOf(c: Check, ids: seq<int>): Targets {
    if SiteWideCheck(c) then SiteWide else if ImageCheck(c) then Images(ids) else Posts(ids)
  }

  /** The issue check `c` reports about the ids `b`. */
  function BucketIssue(c: Check, b: seq<int>): Issue {
    Issue(SeverityOf(c), CategoryOf(c), Title(c, |b|), Message(c), TargetsOf(c, b), FixOf(c), FixableFlag(c))
  }

  function IssueFor(c: Check, f: Findings): Issue {
    BucketIssue(c, Bucket(c, f))
  }

  /** What one check appends: nothing, or its one issue. */
  function Emit(c: Check, f: Findings): seq<Issue> {
    if Fires(c, f) then [IssueFor(c, f)] else []
  }

  /** The duplicate-title issue is critical and fixed by hand; the short
      and long title issues are warnings the AI can fix. */
  lemma TitleIssueAttributes(b: seq<int>)
    ensures BucketIssue(DuplicateTitles, b).severity == Critical && BucketIssue(DuplicateTitles, b).fix == Manual
    ensures !BucketIssue(DuplicateTitles, b).fixable
    ensures BucketIssue(ShortTitles, b).severity == Warning && BucketIssue(ShortTitles, b).fix == Ai
    ensures BucketIssue(LongTitles, b).severity == Warning && BucketIssue(LongTitles, b).fix == Ai
  {
  }

  /** A bucket check raises its issue exactly when its bucket is
      non-empty. */
  lemma EmitBucket(c: Check, f: Findings, ids: seq<int>)
    requires !SiteWideCheck(c) && Bucket(c, f) == ids
    ensures Emit(c, f) == if |ids| > 0 then [BucketIssue(c, ids)] else []
  {
  }

  /** A site check's failed fact. */
  predicate SiteFails(c: Check, facts: SiteFacts) {
    match c
    case NoSsl => !facts.https
    case NoSitemap => !facts.sitemapReachable
    case NoRobots => !facts.robotsReachable
    case PlainPermalinks => Falsy(facts.permalinkStructure)
    case _ => false
  }

  /** What check `c` raises on a site, read from the site alone: a site
      check its issue when its fact fails, a bucket check its issue when its
      bucket is non-empty. */
  function Raised(c: Check, snap: Snapshot): seq<Issue> {
    if SiteWideCheck(c) then
      (if SiteFails(c, snap.facts) then [BucketIssue(c, [])] else [])
    else
      var b := SiteBucket(c, snap);
      if |b| > 0 then [BucketIssue(c, b)] else []
  }

  /** The three title buckets a site yields. */
  lemma TitleSiteBuckets(snap: Snapshot)
    ensures SiteBucket(ShortTitles, snap) == Ids(snap.documents, ShortTitle)
    ensures SiteBucket(LongTitles, snap) == Ids(snap.documents, LongTitle)
    ensures SiteBucket(DuplicateTitles, snap) == DuplicateIds(GroupByTitle(snap.documents))
  {
  }

  /** A bucket check raises its issue on a site exactly when the ids it
      collects there are not empty. */
  lemma RaisedBucket(c: Check, snap: Snapshot, ids: seq<int>)
    requires !SiteWideCheck(c) && SiteBucket(c, snap) == ids
    ensures Raised(c, snap) == if |ids| > 0 then [BucketIssue(c, ids)] else []
  {
  }

  /** Each check raises on a site what it contributes to the run's
      findings. */
  lemma RaisedIsEmitted(c: Check, snap: Snapshot)
    ensures Raised(c, snap) == Emit(c, Evaluate(snap))
  {
    var f := Evaluate(snap);
    if !SiteWideCheck(c) {
      assert Bucket(c, f) == SiteBucket(c, snap) by {
        match c
        case ShortTitles =>
        case LongTitles =>
        case DuplicateTitles =>
        case MissingMeta =>
        case NoH2 =>
        case H1InContent =>
        case MissingAlt =>
        case NoInternalLinks =>
        case LargeImages =>
      }
      EmitBucket(c, f, SiteBucket(c, snap));
    }
  }

  function EmitAll(cs: seq<Check>, f: Findings): seq<Issue> {
    if cs == [] then [] else EmitAll(cs[..|cs| - 1], f) + Emit(cs[|cs| - 1], f)
  }

  /** The checks that fire, in the order given. */
  function Fired(cs: seq<Check>, f: Findings): seq<Check> {
    if cs == [] then []
    else Fired(cs[..|cs| - 1], f) + (if Fires(cs[|cs| - 1], f) then [cs[|cs| - 1]] else [])
  }

  /** The issue list of a whole run. */
  function AllIssues(snap: Snapshot): seq<Issue> {
    EmitAll(AllChecks, Evaluate(snap))
  }

  /** A check is among the fired ones iff it is in the sequence and
      fires. */
  lemma {:induction false} FiredMember(cs: seq<Check>, f: Findings)
    ensures forall c :: c in Fired(cs, f) <==> c in cs && Fires(c, f)
  {
    if cs != [] {
      var init := cs[..|cs| - 1];
      var last := cs[|cs| - 1];
      FiredMember(init, f);
      assert cs == init + [last];
      assert Fired(cs, f) == Fired(init, f) + (if Fires(last, f) then [last] else []);
    }
  }

  /** The issues of a check sequence are, position by position, the issues
      of the checks that fire. */
  lemma {:induction false} EmitAllIsFired(cs: seq<Check>, f: Findings)
    ensures |EmitAll(cs, f)| == |Fired(cs, f)| <= |cs|
    ensures forall k :: 0 <= k < |Fired(cs, f)| ==> EmitAll(cs, f)[k] == IssueFor(Fired(cs, f)[k], f)
  {
    if cs != [] {
      var init := cs[..|cs| - 1];
      var last := cs[|cs| - 1];
      EmitAllIsFired(init, f);
      var e := EmitAll(init, f);
      var fi := Fired(init, f);
      if Fires(last, f) {
        assert EmitAll(cs, f) == e + [IssueFor(last, f)];
        assert Fired(cs, f) == fi + [last];
      } else {
        assert EmitAll(cs, f) == e + [];
        assert Fired(cs, f) == fi + [];
      }
    }
  }

  lemma {:induction false} FiredKeepsOrder(cs: seq<Check>, f: Findings)
    requires forall a, b :: 0 <= a < b < |cs| ==> Rank(cs[a]) < Rank(cs[b])
    ensures forall a, b :: 0 <= a < b < |Fired(cs, f)| ==> Rank(Fired(cs, f)[a]) < Rank(Fired(cs, f)[b])
  {
    if cs != [] {
      var init := cs[..|cs| - 1];
      var last := cs[|cs| - 1];
      assert forall a :: 0 <= a < |init| ==> init[a] == cs[a];
      FiredKeepsOrder(init, f);
      FiredMember(init, f);
      var fi := Fired(init, f);
      assert Fired(cs, f) == fi + (if Fires(last, f) then [last] else []);
      forall c | c in fi ensures Rank(c) < Rank(last) {
        var a :| 0 <= a < |init| && init[a] == c;
        assert cs[a] == c;
      }
      if Fires(last, f) {
        var r := fi + [last];
        forall a, b | 0 <= a < b < |r| ensures Rank(r[a]) < Rank(r[b]) {
          if b == |fi| {
            assert r[a] == fi[a];
            assert fi[a] in fi;
          } else {
            assert r[a] == fi[a] && r[b] == fi[b];
          }
        }
      }
    }
  }

  /** Each check's rank is its position in the run order. */
  lemma RankIsPosition()
    ensures forall i :: 0 <= i < |AllChecks| ==> Rank(AllChecks[i]) == i
  {
    forall i | 0 <= i < |AllChecks| ensures Rank(AllChecks[i]) == i {
      assert AllChecks[Rank(AllChecks[i])] == AllChecks[i];
    }
  }

  /** A run emits its issues in check order: each issue is the one issue of
      a distinct check that fired, the checks keep their fixed order, and
      every check that fires contributes exactly one. */
  lemma IssuesInCheckOrder(f: Findings)
    ensures |EmitAll(AllChecks, f)| == |Fired(AllChecks, f)| <= 13
    ensures forall k :: 0 <= k < |EmitAll(AllChecks, f)| ==> EmitAll(AllChecks, f)[k] == IssueFor(Fired(AllChecks, f)[k], f)
    ensures forall a, b :: 0 <= a < b < |Fired(AllChecks, f)| ==> Rank(Fired(AllChecks, f)[a]) < Rank(Fired(AllChecks, f)[b])
    ensures forall c :: c in Fired(AllChecks, f) <==> Fires(c, f)
  {
    EmitAllIsFired(AllChecks, f);
    FiredMember(AllChecks, f);
    RankIsPosition();
    FiredKeepsOrder(AllChecks, f);
    forall c ensures c in AllChecks { assert AllChecks[Rank(c)] == c; }
  }

  /** The issue list as the ten checks append it, one after another. */
  lemma AllIssuesUnfolded(f: Findings)
    ensures EmitAll(AllChecks, f) ==
      Emit(NoSsl, f) + Emit(NoSitemap, f) + Emit(NoRobots, f) + Emit(PlainPermalinks, f) +
      Emit(ShortTitles, f) + Emit(LongTitles, f) + Emit(DuplicateTitles, f) +
      Emit(MissingMeta, f) +
      Emit(NoH2, f) + Emit(H1InContent, f) +
      Emit(MissingAlt, f) +
      Emit(NoInternalLinks, f) +
      Emit(LargeImages, f)
  {
    var c1: seq<Check> := [NoSsl];
    var c2 := c1 + [NoSitemap];
    var c3 := c2 + [NoRobots];
    var c4 := c3 + [PlainPermalinks];
    var c5 := c4 + [ShortTitles];
    var c6 := c5 + [LongTitles];
    var c7 := c6 + [DuplicateTitles];
    var c8 := c7 + [MissingMeta];
    var c9 := c8 + [NoH2];
    var c10 := c9 + [H1InContent];
    var c11 := c10 + [MissingAlt];
    var c12 := c11 + [NoInternalLinks];
    var c13 := c12 + [LargeImages];
    assert c13 == AllChecks;
    assert EmitAll(c1, f) == Emit(NoSsl, f) by { assert c1[..0] == []; }
    EmitAllSnoc(c1, NoSitemap, f);
    EmitAllSnoc(c2, NoRobots, f);
    EmitAllSnoc(c3, PlainPermalinks, f);
    EmitAllSnoc(c4, ShortTitles, f);
    EmitAllSnoc(c5, LongTitles, f);
    EmitAllSnoc(c6, DuplicateTitles, f);
    EmitAllSnoc(c7, MissingMeta, f);
    EmitAllSnoc(c8, NoH2, f);
    EmitAllSnoc(c9, H1InContent, f);
    EmitAllSnoc(c10, MissingAlt, f);
    EmitAllSnoc(c11, NoInternalLinks, f);
    EmitAllSnoc(c12, LargeImages, f);
  }

  /** The issue list of a run is what the checks raise on the site, one
      after another in run order. */
  lemma AllIssuesRaised(snap: Snapshot)
    ensures AllIssues(snap) ==
      Raised(NoSsl, snap) + Raised(NoSitemap, snap) + Raised(NoRobots, snap) + Raised(PlainPermalinks, snap) +
      Raised(ShortTitles, snap) + Raised(LongTitles, snap) + Raised(DuplicateTitles, snap) +
      Raised(MissingMeta, snap) +
      Raised(NoH2, snap) + Raised(H1InContent, snap) +
      Raised(MissingAlt, snap) +
      Raised(NoInternalLinks, snap) +
      Raised(LargeImages, snap)
  {
    AllIssuesUnfolded(Evaluate(snap));
    forall c ensures Raised(c, snap) == Emit(c, Evaluate(snap)) {
      RaisedIsEmitted(c, snap);
    }
  }

  lemma EmitAllSnoc(cs: seq<Check>, c: Check, f: Findings)
    ensures EmitAll(cs + [c], f) == EmitAll(cs, f) + Emit(c, f)
  {
    assert (cs + [c])[..|cs|] == cs;
  }

  /** Every issue is fixable exactly when its fix is `ai`; a site issue
      points at nothing and a bucket issue at exactly its ids; the number a
      bucket title starts with is the number of ids. */
  lemma BucketIssueShape(c: Check, b: seq<int>)
    ensures BucketIssue(c, b).fixable <==> BucketIssue(c, b).fix == Ai
    ensures SiteWideCheck(c) ==> BucketIssue(c, b).targets == SiteWide && BucketIssue(c, b).title == TitleSuffix(c)
    ensures ImageCheck(c) ==> BucketIssue(c, b).targets == Images(b)
    ensures !SiteWideCheck(c) && !ImageCheck(c) ==> BucketIssue(c, b).targets == Posts(b)
    ensures !SiteWideCheck(c) ==> LeadingNumber(BucketIssue(c, b).title) == |b|
  {
    FixableExactlyAi(c);
    if !SiteWideCheck(c) {
      SuffixStartsWithSpace(c);
      LeadingNumberOfNatToString(|b|, TitleSuffix(c));
    }
  }

  /** The text after a bucket title's count starts with a space. */
  lemma SuffixStartsWithSpace(c: Check)
    requires !SiteWideCheck(c)
    ensures TitleSuffix(c) != [] && TitleSuffix(c)[0] == ' '
  {
  }

  /** The same facts for the issue a check raises on a snapshot's findings,
      and a bucket check fires exactly when its bucket is non-empty. */
  lemma IssueShape(c: Check, f: Findings)
    ensures IssueFor(c, f).fixable <==> IssueFor(c, f).fix == Ai
    ensures SiteWideCheck(c) ==> IssueFor(c, f).targets == SiteWide && IssueFor(c, f).title == TitleSuffix(c)
    ensures ImageCheck(c) ==> IssueFor(c, f).targets == Images(Bucket(c, f))
    ensures !SiteWideCheck(c) && !ImageCheck(c) ==> IssueFor(c, f).targets == Posts(Bucket(c, f))
    ensures !SiteWideCheck(c) ==> LeadingNumber(IssueFor(c, f).title) == |Bucket(c, f)|
    ensures !SiteWideCheck(c) ==> (Fires(c, f) <==> |Bucket(c, f)| > 0)
  {
    BucketIssueShape(c, Bucket(c, f));
  }

  predicate SameButDescriptions(d1: seq<Document>, d2: seq<Document>) {
    |d1| == |d2| &&
    forall k :: 0 <= k < |d1| ==>
      d1[k].id == d2[k].id && d1[k].kind == d2[k].kind && d1[k].title == d2[k].title && d1[k].body == d2[k].body &&
      Falsy(DocumentDescription(d1[k])) == Falsy(DocumentDescription(d2[k]))
  }

  lemma {:induction false} IdsCongruent(d1: seq<Document>, d2: seq<Document>, p: Document -> bool)
    requires SameButDescriptions(d1, d2)
    requires forall k :: 0 <= k < |d1| ==> p(d1[k]) == p(d2[k])
    ensures Ids(d1, p) == Ids(d2, p)
  {
    if d1 != [] {
      var n := |d1| - 1;
      var i1, i2 := d1[..n], d2[..n];
      assert forall k :: 0 <= k < n ==> i1[k] == d1[k] && i2[k] == d2[k];
      assert SameButDescriptions(i1, i2);
      IdsCongruent(i1, i2, p);
      IdsSameStep(d1, d2, p);
    }
  }

  /** Equal buckets of the first documents, and a last document alike in ID
      and test, give equal buckets. */
  lemma IdsSameStep(d1: seq<Document>, d2: seq<Document>, p: Document -> bool)
    requires |d1| == |d2| > 0
    requires Ids(d1[..|d1| - 1], p) == Ids(d2[..|d2| - 1], p)
    requires p(d1[|d1| - 1]) == p(d2[|d2| - 1]) && d1[|d1| - 1].id == d2[|d2| - 1].id
    ensures Ids(d1, p) == Ids(d2, p)
  {
  }

  lemma {:induction false} GroupsCongruent(d1: seq<Document>, d2: seq<Document>)
    requires SameButDescriptions(d1, d2)
    ensures GroupByTitle(d1) == GroupByTitle(d2)
  {
    if d1 != [] {
      var n := |d1| - 1;
      assert SameButDescriptions(d1[..n], d2[..n]);
      GroupsCongruent(d1[..n], d2[..n]);
    }
  }

  /** The audit reads the resolved descriptions only through whether they
      are empty: the short and long description buckets never raise an
      issue, so changing descriptions without emptying or filling one
      changes nothing. */
  lemma DescriptionLengthIrrelevant(s1: Snapshot, s2: Snapshot)
    requires s1.facts == s2.facts && s1.images == s2.images && s1.homeUrl == s2.homeUrl
    requires SameButDescriptions(s1.documents, s2.documents)
    ensures Evaluate(s1) == Evaluate(s2)
    ensures AllIssues(s1) == AllIssues(s2)
  {
    var d1, d2 := s1.documents, s2.documents;
    IdsCongruent(d1, d2, ShortTitle);
    IdsCongruent(d1, d2, LongTitle);
    IdsCongruent(d1, d2, LacksMeta);
    IdsCongruent(d1, d2, LacksH2);
    IdsCongruent(d1, d2, HasH1);
    IdsCongruent(d1, d2, d => LacksInternalLinks(d, s1.homeUrl));
    GroupsCongruent(d1, d2);
  }

  // ---------------------------------------------------------------------
  // Score

  function Penalty(s: Severity): nat {
    match s
    case Critical => 15
    case Warning => 5
    case Info => 2
  }

  /** What the issues take off the base score of 100. */
  function Deduction(issues: seq<Issue>): nat {
    if issues == [] then 0 else Deduction(issues[..|issues| - 1]) + Penalty(issues[|issues| - 1].severity)
  }

  function CountSeverity(issues: seq<Issue>, s: Severity): nat {
    if issues == [] then 0
    else CountSeverity(issues[..|issues| - 1], s) + (if issues[|issues| - 1].severity == s then 1 else 0)
  }

  /** `max( 0, min( 100, $base_score ) )`. */
  function Clamp(x: int): int {
    if x > 100 then 100 else if x < 0 then 0 else x
  }

  function Score(issues: seq<Issue>): (r: int)
    ensures 0 <= r <= 100
    ensures r == 100 <==> issues == []
  {
    Clamp(100 - Deduction(issues))
  }

  /** The deduction is 15 per critical, 5 per warning and 2 per info issue. */
  lemma {:induction false} DeductionByCounts(issues: seq<Issue>)
    ensures Deduction(issues) ==
      15 * CountSeverity(issues, Critical) + 5 * CountSeverity(issues, Warning) + 2 * CountSeverity(issues, Info)
  {
    if issues != [] {
      DeductionByCounts(issues[..|issues| - 1]);
    }
  }

  /** What the checks in `cs` deduct when all of them fire. */
  function MaxDeduction(cs: seq<Check>): nat {
    if cs == [] then 0 else MaxDeduction(cs[..|cs| - 1]) + Penalty(SeverityOf(cs[|cs| - 1]))
  }

  lemma DeductionSnoc(a: seq<Issue>, i: Issue)
    ensures Deduction(a + [i]) == Deduction(a) + Penalty(i.severity)
  {
    assert (a + [i])[..|a|] == a;
  }

  lemma IssueForSeverity(c: Check, f: Findings)
    ensures IssueFor(c, f).severity == SeverityOf(c)
  {
  }

  lemma {:induction false} EmitAllDeduction(cs: seq<Check>, f: Findings)
    ensures Deduction(EmitAll(cs, f)) <= MaxDeduction(cs)
    ensures (forall c :: c in cs ==> Fires(c, f)) ==> Deduction(EmitAll(cs, f)) == MaxDeduction(cs)
  {
    if cs != [] {
      var init := cs[..|cs| - 1];
      var c := cs[|cs| - 1];
      EmitAllDeduction(init, f);
      assert forall x :: x in init ==> x in cs;
      var a := EmitAll(init, f);
      assert EmitAll(cs, f) == a + Emit(c, f);
      if Fires(c, f) {
        assert Emit(c, f) == [IssueFor(c, f)];
        DeductionSnoc(a, IssueFor(c, f));
        IssueForSeverity(c, f);
      } else {
        assert Emit(c, f) == [];
        assert a + [] == a;
      }
    }
  }

  lemma MaxDeductionOfAllChecks()
    ensures MaxDeduction(AllChecks) == 112
  {
    var cs := AllChecks;
    assert forall n :: 0 < n <= 13 ==> cs[..n][..n - 1] == cs[..n - 1];
    assert MaxDeduction(cs[..0]) == 0;
    assert MaxDeduction(cs[..4]) == 37 by {
      assert MaxDeduction(cs[..1]) == 15;
      assert MaxDeduction(cs[..2]) == 20;
      assert MaxDeduction(cs[..3]) == 22;
    }
    assert MaxDeduction(cs[..8]) == 77 by {
      assert MaxDeduction(cs[..5]) == 42;
      assert MaxDeduction(cs[..6]) == 47;
      assert MaxDeduction(cs[..7]) == 62;
    }
    assert MaxDeduction(cs[..12]) == 107 by {
      assert MaxDeduction(cs[..9]) == 82;
      assert MaxDeduction(cs[..10]) == 87;
      assert MaxDeduction(cs[..11]) == 102;
    }
    assert cs[..13] == cs;
  }

  /** The full battery costs 112 points: no run deducts more, and a run in
      which every check fires deducts exactly that and scores 0. */
  lemma DeductionAtMost112(f: Findings)
    ensures Deduction(EmitAll(AllChecks, f)) <= 112
    ensures (forall c :: Fires(c, f)) ==> Deduction(EmitAll(AllChecks, f)) == 112 && Score(EmitAll(AllChecks, f)) == 0
  {
    EmitAllDeduction(AllChecks, f);
    MaxDeductionOfAllChecks();
  }

  /** A site where every check fires: two short documents sharing the title
      "a", one with a long body holding neither headings nor links and one
      holding an H1; a third with a 61-character title; no descriptions; one
      large image without alt text; and every site check failing. */
  function WorstSnapshot(): Snapshot {
    Snapshot(
      [ Document(1, Post, "a", seq(501, _ => 'x'), "", "", ""),
        Document(2, Post, "a", "<h1>", "", "", ""),
        Document(3, Page, seq(61, _ => 't'), "", "", "", "") ],
      [ Image(10, "photo", "", Some(600000)) ],
      SiteFacts(false, false, false, ""),
      "https://example.org")
  }

  lemma WorstTitleBuckets()
    ensures 1 in Ids(WorstSnapshot().documents, ShortTitle)
    ensures 3 in Ids(WorstSnapshot().documents, LongTitle)
    ensures 1 in DuplicateIds(GroupByTitle(WorstSnapshot().documents))
  {
    var docs := WorstSnapshot().documents;
    assert ShortTitle(docs[0]) && docs[0].id == 1;
    assert LongTitle(docs[2]) && docs[2].id == 3;
    assert TitleKey(docs[0]) == TitleKey(docs[1]);
    DuplicateBucketExactly(docs, 1);
  }

  lemma WorstBodyBuckets()
    ensures 1 in Ids(WorstSnapshot().documents, LacksMeta)
    ensures 1 in Ids(WorstSnapshot().documents, LacksH2)
    ensures 2 in Ids(WorstSnapshot().documents, HasH1)
    ensures 1 in NoLinksIds(WorstSnapshot().documents, WorstSnapshot().homeUrl)
  {
    var s := WorstSnapshot();
    var docs := s.documents;
    var d1, d2 := docs[0], docs[1];
    assert LacksMeta(d1);
    NoAngleNoHeading(d1.body, '2');
    assert LacksH2(d1);
    HeadingCaseInsensitive(d2.body, '1', 0);
    assert HasH1(d2);
    NoEqualsNoHrefs(d1.body, 0);
    assert LacksInternalLinks(d1, s.homeUrl);
  }

  lemma WorstImageBuckets()
    ensures |ImageIds(ImagesWithoutAlt(WorstSnapshot().images))| > 0
    ensures 10 in LargeImageIds(WorstSnapshot().images)
  {
    var images := WorstSnapshot().images;
    assert images[0] in ImagesWithoutAlt(images);
    assert IsLarge(images[0]);
  }

  lemma FiresInWorst(c: Check)
    ensures Fires(c, Evaluate(WorstSnapshot()))
  {
    WorstTitleBuckets();
    WorstBodyBuckets();
    WorstImageBuckets();
  }

  /** ... where all 13 issues are raised and the score is clamped at 0. */
  lemma WorstSnapshotScoresZero()
    ensures |AllIssues(WorstSnapshot())| == 13
    ensures Score(AllIssues(WorstSnapshot())) == 0
  {
    var f := Evaluate(WorstSnapshot());
    forall c ensures Fires(c, f) {
      FiresInWorst(c);
    }
    IssuesInCheckOrder(f);
    DeductionAtMost112(f);
    assert |Fired(AllChecks, f)| == 13 by {
      FiredAll(AllChecks, f);
    }
  }

  lemma {:induction false} FiredAll(cs: seq<Check>, f: Findings)
    requires forall c :: Fires(c, f)
    ensures Fired(cs, f) == cs
  {
    if cs != [] {
      FiredAll(cs[..|cs| - 1], f);
      assert cs == cs[..|cs| - 1] + [cs[|cs| - 1]];
    }
  }

  /** A site that passes every check raises nothing and scores 100. */
  lemma CleanSiteScores100(facts: SiteFacts, home: string)
    requires facts.https && facts.sitemapReachable && facts.robotsReachable && !Falsy(facts.permalinkStructure)
    ensures AllIssues(Snapshot([], [], facts, home)) == []
    ensures Score(AllIssues(Snapshot([], [], facts, home))) == 100
  {
    AllIssuesUnfolded(Evaluate(Snapshot([], [], facts, home)));
  }
}
