/** The audit engine: an issue accumulator filled by the ten checks in a
    fixed order, the score, the audits table it appends to, the
    best-effort fix loop, and the request and cron entry points. */
module SeoAudit {
  import opened Wrappers
  import opened Text
  import opened Options
  import opened Request
  import opened Repository
  import opened Helpers
  import opened Scan
  import opened AuditSpec
  import JeiSeo

  /** One row of the audits table. */
  datatype AuditRecord = AuditRecord(auditDate: int, score: int, issuesCount: nat, issuesData: seq<Issue>, fixedCount: int)

  /** The audits table. */
  class AuditLog {
    var rows: seq<AuditRecord>

    constructor (rows: seq<AuditRecord>)
      ensures this.rows == rows
    {
      this.rows := rows;
    }
  }

  /** What `run` returns. */
  datatype RunResult = RunResult(score: int, issues: seq<Issue>, total: nat)

  /** The record a run with these issues appends. */
  function RecordOf(date: int, issues: seq<Issue>): AuditRecord {
    AuditRecord(date, Score(issues), |issues|, issues, 0)
  }

  /** The number of internal links among the link targets of a body. */
  method CountInternalLinks(urls: seq<string>, home: string) returns (n: nat)
    ensures n == InternalCount(urls, home)
    ensures n <= |urls|
  {
    n := 0;
    for k := 0 to |urls|
      invariant n == InternalCount(urls[..k], home)
    {
      if Contains(urls[k], home) || StartsWith(urls[k], "/") {
        n := n + 1;
      }
      assert urls[..k + 1][..k] == urls[..k];
    }
    assert urls[..|urls|] == urls;
  }

  /** The first pass of `check_titles`: the short and long buckets and the
      lower-cased title map, in one loop over the posts. */
  method TitleBuckets(posts: seq<Document>) returns (short: seq<int>, long: seq<int>, titleCount: Groups)
    ensures short == Ids(posts, ShortTitle)
    ensures long == Ids(posts, LongTitle)
    ensures titleCount == GroupByTitle(posts)
  {
    short, long, titleCount := [], [], [];
    for i := 0 to |posts|
      invariant short == Ids(posts[..i], ShortTitle)
      invariant long == Ids(posts[..i], LongTitle)
      invariant titleCount == GroupByTitle(posts[..i])
    {
      assert posts[..i + 1][..i] == posts[..i];
      var post := posts[i];
      var length := |post.title|;
      if length < 30 {
        short := short + [post.id];
      } else if length > 60 {
        long := long + [post.id];
      }
      var titleLower := Lower(post.title);
      titleCount := AddToGroup(titleCount, titleLower, post.id);
    }
    assert posts[..|posts|] == posts;
  }

  /** The second pass of `check_titles`: the ID lists of the titles shared
      by more than one post, merged in map order. */
  method DuplicateList(titleCount: Groups) returns (duplicates: seq<int>)
    ensures duplicates == DuplicateIds(titleCount)
  {
    duplicates := [];
    for k := 0 to |titleCount|
      invariant duplicates == DuplicateIds(titleCount[..k])
    {
      assert titleCount[..k + 1][..k] == titleCount[..k];
      if |titleCount[k].1| > 1 {
        duplicates := duplicates + titleCount[k].1;
      }
    }
    assert titleCount[..|titleCount|] == titleCount;
  }

  /** The loop of `check_meta_descriptions`: a post whose description is
      empty is missing; otherwise it is short under 120 characters and long
      over 160. */
  method MetaBuckets(posts: seq<Document>) returns (missing: seq<int>, short: seq<int>, long: seq<int>)
    ensures missing == Ids(posts, LacksMeta)
    ensures short == Ids(posts, ShortMeta)
    ensures long == Ids(posts, LongMeta)
  {
    missing, short, long := [], [], [];
    for i := 0 to |posts|
      invariant missing == Ids(posts[..i], LacksMeta)
      invariant short == Ids(posts[..i], ShortMeta)
      invariant long == Ids(posts[..i], LongMeta)
    {
      assert posts[..i + 1][..i] == posts[..i];
      var post := posts[i];
      var meta := DocumentDescription(post);
      if Falsy(meta) {
        missing := missing + [post.id];
      } else {
        var length := |meta|;
        if length < 120 {
          short := short + [post.id];
        } else if length > 160 {
          long := long + [post.id];
        }
      }
    }
    assert posts[..|posts|] == posts;
  }

  /** The loop of `check_headings`. */
  method HeadingBuckets(posts: seq<Document>) returns (noH2: seq<int>, multipleH1: seq<int>)
    ensures noH2 == Ids(posts, LacksH2)
    ensures multipleH1 == Ids(posts, HasH1)
  {
    noH2, multipleH1 := [], [];
    for i := 0 to |posts|
      invariant noH2 == Ids(posts[..i], LacksH2)
      invariant multipleH1 == Ids(posts[..i], HasH1)
    {
      assert posts[..i + 1][..i] == posts[..i];
      var content := posts[i].body;
      if HasHeading(content, '1') {
        multipleH1 := multipleH1 + [posts[i].id];
      }
      if !HasHeading(content, '2') && |content| > 500 {
        noH2 := noH2 + [posts[i].id];
      }
    }
    assert posts[..|posts|] == posts;
  }

  /** The loop of `check_internal_links`: a post over 300 characters with
      no internal link target. */
  method NoLinkPosts(posts: seq<Document>, homeUrl: string) returns (noLinks: seq<int>)
    ensures noLinks == NoLinksIds(posts, homeUrl)
  {
    noLinks := [];
    for i := 0 to |posts|
      invariant noLinks == NoLinksIds(posts[..i], homeUrl)
    {
      assert posts[..i + 1][..i] == posts[..i];
      var internalLinks := CountInternalLinks(LinkTargets(posts[i].body), homeUrl);
      if internalLinks == 0 && |posts[i].body| > 300 {
        noLinks := noLinks + [posts[i].id];
      }
    }
    assert posts[..|posts|] == posts;
  }

  /** The loop of `check_large_images`: files that exist and are over
      500000 bytes. */
  method LargeImageList(images: seq<Image>) returns (large: seq<int>)
    ensures large == LargeImageIds(images)
  {
    large := [];
    for k := 0 to |images|
      invariant large == LargeImageIds(images[..k])
    {
      assert images[..k + 1][..k] == images[..k];
      match images[k].fileSize {
        case Some(size) =>
          if size > 500000 {
            large := large + [images[k].id];
          }
        case None =>
      }
    }
    assert images[..|images|] == images;
  }

  /** What one generator call gave back: success with text, or failure. */
  datatype Generated = Generated(success: bool, content: string)

  const ProOnlyMessage := "Auto-fix is a PRO feature."
  const MetaFixType := "meta_description"
  const AltFixType := "image_alt"

  datatype FixResponse = FixDenied(message: string, upgrade: bool) | FixDone(fixed: nat, message: string)

  /** The targets, among the first `n`, that exist and whose generator call
      succeeded. */
  predicate Succeeds(targets: seq<int>, existing: set<int>, outcome: nat -> Generated, k: nat) {
    k < |targets| && targets[k] in existing && outcome(k).success
  }

  /** The number of targets that exist and whose generation succeeded. */
  function SuccessCount(targets: seq<int>, existing: set<int>, outcome: nat -> Generated): (n: nat)
    ensures n <= |targets|
  {
    if targets == [] then 0
    else
      var k := |targets| - 1;
      SuccessCount(targets[..k], existing, outcome) +
        (if targets[k] in existing && outcome(k).success then 1 else 0)
  }

  /** The post meta after writing each successful result under `key`.
      `store` is what `update_post_meta` does to a value before saving it
      (`wp_unslash`, then `sanitize_meta`). */
  function Applied(values: map<(int, string), string>, targets: seq<int>, existing: set<int>, outcome: nat -> Generated, key: string, store: string -> string): map<(int, string), string> {
    if targets == [] then values
    else
      var k := |targets| - 1;
      var before := Applied(values, targets[..k], existing, outcome, key, store);
      if targets[k] in existing && outcome(k).success then before[(targets[k], key) := store(outcome(k).content)] else before
  }

  /** The targets that exist and whose generation succeeded. */
  function Written(targets: seq<int>, existing: set<int>, outcome: nat -> Generated): set<int> {
    set k: nat | k < |targets| && Succeeds(targets, existing, outcome, k) :: targets[k]
  }

  /** The fix loop writes only under `key` and only for targets that exist
      and succeeded: the written entries are exactly those, every other
      entry keeps its old value, and when nothing succeeds nothing is
      written and nothing is counted. */
  lemma {:induction false} AppliedFrame(values: map<(int, string), string>, targets: seq<int>, existing: set<int>, outcome: nat -> Generated, key: string, store: string -> string)
    ensures forall p :: p in Applied(values, targets, existing, outcome, key, store) <==>
      p in values || (p.1 == key && p.0 in Written(targets, existing, outcome))
    ensures forall p :: p in values && (p.1 != key || p.0 !in Written(targets, existing, outcome)) ==>
      Applied(values, targets, existing, outcome, key, store)[p] == values[p]
    ensures Written(targets, existing, outcome) == {} <==> SuccessCount(targets, existing, outcome) == 0
    ensures Written(targets, existing, outcome) == {} ==> Applied(values, targets, existing, outcome, key, store) == values
  {
    if targets != [] {
      var k := |targets| - 1;
      var init := targets[..k];
      AppliedFrame(values, init, existing, outcome, key, store);
      var w := Written(targets, existing, outcome);
      var wInit := Written(init, existing, outcome);
      assert w == if targets[k] in existing && outcome(k).success then wInit + {targets[k]} else wInit by {
        forall id | id in w ensures id in wInit || (id == targets[k] && targets[k] in existing && outcome(k).success) {
          var j: nat :| Succeeds(targets, existing, outcome, j) && targets[j] == id;
          if j < k {
            assert Succeeds(init, existing, outcome, j) && init[j] == id;
          }
        }
        forall id | id in wInit ensures id in w {
          var j: nat :| j < |init| && Succeeds(init, existing, outcome, j) && init[j] == id;
          assert init[j] == targets[j];
          assert Succeeds(targets, existing, outcome, j);
        }
        if targets[k] in existing && outcome(k).success {
          assert Succeeds(targets, existing, outcome, k);
        }
      }
    }
  }

  /** With no target named twice, each target that exists and succeeded
      ends up holding its generated text as `update_post_meta` stores it. */
  lemma {:induction false} AppliedWrites(values: map<(int, string), string>, targets: seq<int>, existing: set<int>, outcome: nat -> Generated, key: string, store: string -> string)
    requires forall a, b :: 0 <= a < b < |targets| ==> targets[a] != targets[b]
    ensures forall k :: 0 <= k < |targets| && Succeeds(targets, existing, outcome, k) ==>
      (targets[k], key) in Applied(values, targets, existing, outcome, key, store) &&
      Applied(values, targets, existing, outcome, key, store)[(targets[k], key)] == store(outcome(k).content)
  {
    if targets != [] {
      var n := |targets| - 1;
      var init := targets[..n];
      AppliedWrites(values, init, existing, outcome, key, store);
      forall k | 0 <= k < |targets| && Succeeds(targets, existing, outcome, k)
        ensures (targets[k], key) in Applied(values, targets, existing, outcome, key, store)
        ensures Applied(values, targets, existing, outcome, key, store)[(targets[k], key)] == store(outcome(k).content)
      {
        if k < n {
          assert Succeeds(init, existing, outcome, k);
          assert targets[k] != targets[n];
        }
      }
    }
  }

  /** After a meta fix, a post whose generation succeeded with a text that
      is still non-empty once stored resolves to the stored text as its
      description, whatever the other SEO plugins' fields hold, since the
      Yoast field is read first. */
  lemma MetaFixResolves(values: map<(int, string), string>, targets: seq<int>, existing: set<int>, outcome: nat -> Generated, store: string -> string, k: nat)
    requires forall a, b :: 0 <= a < b < |targets| ==> targets[a] != targets[b]
    requires Succeeds(targets, existing, outcome, k) && !Falsy(store(outcome(k).content))
    ensures DescriptionOf(Applied(values, targets, existing, outcome, YoastDescKey, store), targets[k]) == store(outcome(k).content)
  {
    AppliedWrites(values, targets, existing, outcome, YoastDescKey, store);
  }

  /** `ajax_fix_issues` past the nonce and capability checks: PRO only;
      the issue type is read through `sanitize` (`sanitize_text_field`);
      `meta_description` writes generated descriptions under the Yoast key
      for the posts, `image_alt` writes generated alt text for the images,
      and any other type fixes nothing. Each written value goes through
      `store`, the unslashing and meta sanitising of `update_post_meta`. */
  method FixIssues(isPro: bool, issueType: Option<string>, sanitize: string -> string, postIds: seq<int>, imageIds: seq<int>, existing: set<int>, outcome: nat -> Generated, store: string -> string, meta: PostMeta)
    returns (r: FixResponse)
    modifies meta
    ensures !isPro ==> r == FixDenied(ProOnlyMessage, true) && meta.values == old(meta.values)
    ensures isPro && Field(issueType, sanitize, "") == MetaFixType ==>
      meta.values == Applied(old(meta.values), postIds, existing, outcome, YoastDescKey, store) &&
      r.FixDone? && r.fixed == SuccessCount(postIds, existing, outcome)
    ensures isPro && Field(issueType, sanitize, "") == AltFixType ==>
      meta.values == Applied(old(meta.values), imageIds, existing, outcome, AltKey, store) &&
      r.FixDone? && r.fixed == SuccessCount(imageIds, existing, outcome)
    ensures isPro && Field(issueType, sanitize, "") != MetaFixType && Field(issueType, sanitize, "") != AltFixType ==>
      meta.values == old(meta.values) && r.FixDone? && r.fixed == 0
    ensures r.FixDone? ==> r.message == "Fixed " + NatToString(r.fixed) + " issues."
  {
    if !isPro {
      return FixDenied(ProOnlyMessage, true);
    }
    var kind := Field(issueType, sanitize, "");
    var fixed: nat := 0;
    if kind == MetaFixType {
      fixed := ApplyFixes(postIds, existing, outcome, YoastDescKey, store, meta);
    } else if kind == AltFixType {
      fixed := ApplyFixes(imageIds, existing, outcome, AltKey, store, meta);
    }
    r := FixDone(fixed, "Fixed " + NatToString(fixed) + " issues.");
  }

  /** The per-target loop: a target that does not exist or whose generation
      failed is skipped; each success writes its text through
      `update_post_meta` and counts one. */
  method ApplyFixes(targets: seq<int>, existing: set<int>, outcome: nat -> Generated, key: string, store: string -> string, meta: PostMeta) returns (fixed: nat)
    modifies meta
    ensures meta.values == Applied(old(meta.values), targets, existing, outcome, key, store)
    ensures fixed == SuccessCount(targets, existing, outcome)
  {
    fixed := 0;
    for k := 0 to |targets|
      invariant meta.values == Applied(old(meta.values), targets[..k], existing, outcome, key, store)
      invariant fixed == SuccessCount(targets[..k], existing, outcome)
    {
      assert targets[..k + 1][..k] == targets[..k];
      var id := targets[k];
      if id in existing {
        var result := outcome(k);
        if result.success {
          meta.values := meta.values[(id, key) := store(result.content)];
          fixed := fixed + 1;
        }
      }
    }
    assert targets[..|targets|] == targets;
  }

  const AuditLimitMessage := "Free audit limit reached. Upgrade to PRO for unlimited audits."
  const AutoAuditOption := "jeiseo_auto_audit"

  datatype AuditResponse = AuditRefused(message: string, upgrade: bool) | AuditDone(result: RunResult)

  class Audit {
    /** `$this->issues`. */
    var issues: seq<Issue>

    constructor ()
      ensures issues == []
    {
      issues := [];
    }

    /** The step every bucket check ends with: a non-empty bucket appends
      its one issue. */
    method Report(c: Check, ids: seq<int>)
      modifies this
      ensures issues == old(issues) + (if |ids| > 0 then [BucketIssue(c, ids)] else [])
    {
      if |ids| > 0 {
        issues := issues + [BucketIssue(c, ids)];
      }
    }

    method CheckSsl(snap: Snapshot)
      modifies this
      ensures issues == old(issues) + Raised(NoSsl, snap)
    {
      if !snap.facts.https {
        issues := issues + [Issue(Critical, Security, TitleSuffix(NoSsl), Message(NoSsl), SiteWide, Manual, false)];
      }
    }

    method CheckSitemap(snap: Snapshot)
      modifies this
      ensures issues == old(issues) + Raised(NoSitemap, snap)
    {
      if !snap.facts.sitemapReachable {
        issues := issues + [Issue(Warning, Technical, TitleSuffix(NoSitemap), Message(NoSitemap), SiteWide, Manual, false)];
      }
    }

    method CheckRobots(snap: Snapshot)
      modifies this
      ensures issues == old(issues) + Raised(NoRobots, snap)
    {
      if !snap.facts.robotsReachable {
        issues := issues + [Issue(Info, Technical, TitleSuffix(NoRobots), Message(NoRobots), SiteWide, Manual, false)];
      }
    }

    method CheckPermalink(snap: Snapshot)
      modifies this
      ensures issues == old(issues) + Raised(PlainPermalinks, snap)
    {
      var structure := snap.facts.permalinkStructure;
      if Falsy(structure) {
        issues := issues + [Issue(Critical, Technical, TitleSuffix(PlainPermalinks), Message(PlainPermalinks), SiteWide, Manual, false)];
      }
    }

    /** `check_titles`. */
    method CheckTitles(snap: Snapshot) returns (short: seq<int>, long: seq<int>, duplicates: seq<int>)
      modifies this
      ensures short == Ids(snap.documents, ShortTitle)
      ensures long == Ids(snap.documents, LongTitle)
      ensures duplicates == DuplicateIds(GroupByTitle(snap.documents))
      ensures issues == old(issues) + Raised(ShortTitles, snap) + Raised(LongTitles, snap) + Raised(DuplicateTitles, snap)
    {
      var titleCount;
      short, long, titleCount := TitleBuckets(snap.documents);
      duplicates := DuplicateList(titleCount);
      TitleSiteBuckets(snap);
      RaisedBucket(ShortTitles, snap, short);
      RaisedBucket(LongTitles, snap, long);
      RaisedBucket(DuplicateTitles, snap, duplicates);
      Report(ShortTitles, short);
      Report(LongTitles, long);
      Report(DuplicateTitles, duplicates);
    }

    /** `check_meta_descriptions`: only the missing bucket is reported. */
    method CheckMetaDescriptions(snap: Snapshot) returns (missing: seq<int>, short: seq<int>, long: seq<int>)
      modifies this
      ensures missing == Ids(snap.documents, LacksMeta)
      ensures short == Ids(snap.documents, ShortMeta)
      ensures long == Ids(snap.documents, LongMeta)
      ensures issues == old(issues) + Raised(MissingMeta, snap)
    {
      missing, short, long := MetaBuckets(snap.documents);
      RaisedBucket(MissingMeta, snap, missing);
      Report(MissingMeta, missing);
    }

    /** `check_headings`: the no-H2 issue is appended before the H1 one. */
    method CheckHeadings(snap: Snapshot) returns (noH2: seq<int>, multipleH1: seq<int>)
      modifies this
      ensures noH2 == Ids(snap.documents, LacksH2)
      ensures multipleH1 == Ids(snap.documents, HasH1)
      ensures issues == old(issues) + Raised(NoH2, snap) + Raised(H1InContent, snap)
    {
      noH2, multipleH1 := HeadingBuckets(snap.documents);
      RaisedBucket(NoH2, snap, noH2);
      RaisedBucket(H1InContent, snap, multipleH1);
      Report(NoH2, noH2);
      Report(H1InContent, multipleH1);
    }

    /** `check_images_alt`. */
    method CheckImagesAlt(snap: Snapshot)
      modifies this
      ensures issues == old(issues) + Raised(MissingAlt, snap)
    {
      var images := ImagesWithoutAlt(snap.images);
      if |images| > 0 {
        var imageIds := ImageIds(images);
        issues := issues + [BucketIssue(MissingAlt, imageIds)];
      }
    }

    /** `check_internal_links`. */
    method CheckInternalLinks(snap: Snapshot) returns (noLinks: seq<int>)
      modifies this
      ensures noLinks == NoLinksIds(snap.documents, snap.homeUrl)
      ensures issues == old(issues) + Raised(NoInternalLinks, snap)
    {
      noLinks := NoLinkPosts(snap.documents, snap.homeUrl);
      RaisedBucket(NoInternalLinks, snap, noLinks);
      Report(NoInternalLinks, noLinks);
    }

    /** `check_large_images`. */
    method CheckLargeImages(snap: Snapshot) returns (large: seq<int>)
      modifies this
      ensures large == LargeImageIds(snap.images)
      ensures issues == old(issues) + Raised(LargeImages, snap)
    {
      large := LargeImageList(snap.images);
      RaisedBucket(LargeImages, snap, large);
      Report(LargeImages, large);
    }

    /** `calculate_score`: 100 less the penalty of each issue, clamped to
      0..100. */
    method CalculateScore() returns (score: int)
      ensures score == Score(issues)
      ensures 0 <= score <= 100
    {
      var baseScore := 100;
      for k := 0 to |issues|
        invariant baseScore == 100 - Deduction(issues[..k])
      {
        assert issues[..k + 1][..k] == issues[..k];
        match issues[k].severity {
          case Critical => baseScore := baseScore - 15;
          case Warning => baseScore := baseScore - 5;
          case Info => baseScore := baseScore - 2;
        }
      }
      assert issues[..|issues|] == issues;
      score := if baseScore > 100 then 100 else if baseScore < 0 then 0 else baseScore;
    }

    /** `save_audit`: appends one row with `fixed_count` 0. */
    method SaveAudit(score: int, log: AuditLog, now: int)
      modifies log
      ensures log.rows == old(log.rows) + [AuditRecord(now, score, |issues|, issues, 0)]
    {
      log.rows := log.rows + [AuditRecord(now, score, |issues|, issues, 0)];
    }

    /** `run`: clears the issues, runs the ten checks in order, scores them
      and appends one audit row. */
    method Run(snap: Snapshot, log: AuditLog, now: int) returns (result: RunResult)
      modifies this, log
      ensures issues == AllIssues(snap)
      ensures result == RunResult(Score(AllIssues(snap)), AllIssues(snap), |AllIssues(snap)|)
      ensures log.rows == old(log.rows) + [RecordOf(now, AllIssues(snap))]
    {
      issues := [];
      CheckSsl(snap);
      assert issues == Raised(NoSsl, snap);
      CheckSitemap(snap);
      CheckRobots(snap);
      CheckPermalink(snap);
      var _, _, _ := CheckTitles(snap);
      var _, _, _ := CheckMetaDescriptions(snap);
      var _, _ := CheckHeadings(snap);
      CheckImagesAlt(snap);
      var _ := CheckInternalLinks(snap);
      var _ := CheckLargeImages(snap);
      AllIssuesRaised(snap);
      var score := CalculateScore();
      SaveAudit(score, log, now);
      result := RunResult(score, issues, |issues|);
    }

    /** `ajax_run_audit` past the nonce and capability checks: a free site
      with no audits left this month is refused before anything runs;
      otherwise the audit runs and, on a free site, the month's audit count
      goes up by one afterwards. */
    method RunAuditRequest(plugin: JeiSeo.Plugin, month: string, snap: Snapshot, log: AuditLog, now: int) returns (r: AuditResponse)
      modifies this, log, plugin.options
      ensures !plugin.IsPro() && old(plugin.FreeQuota("audit", month)) == 0 ==>
        r == AuditRefused(AuditLimitMessage, true) && log.rows == old(log.rows) &&
        plugin.options.values == old(plugin.options.values) && issues == old(issues)
      ensures plugin.IsPro() || old(plugin.FreeQuota("audit", month)) > 0 ==>
        r == AuditDone(RunResult(Score(AllIssues(snap)), AllIssues(snap), |AllIssues(snap)|)) &&
        log.rows == old(log.rows) + [RecordOf(now, AllIssues(snap))] &&
        plugin.options.values == if plugin.IsPro() then old(plugin.options.values) else JeiSeo.Incremented(old(plugin.options.values), "audit", month)
    {
      if !plugin.IsPro() && plugin.FreeQuota("audit", month) <= 0 {
        return AuditRefused(AuditLimitMessage, true);
      }
      var result := Run(snap, log, now);
      if !plugin.IsPro() {
        plugin.IncrementUsage("audit", month);
      }
      r := AuditDone(result);
    }

    /** `scheduled_audit`: runs unless the auto-audit option is set to a
      false value; the option is absent by default, which reads as true. */
    method ScheduledAudit(options: map<string, Value>, snap: Snapshot, log: AuditLog, now: int)
      modifies this, log
      ensures Truthy(Get(options, AutoAuditOption, VBool(true))) ==>
        log.rows == old(log.rows) + [RecordOf(now, AllIssues(snap))] && issues == AllIssues(snap)
      ensures !Truthy(Get(options, AutoAuditOption, VBool(true))) ==>
        log.rows == old(log.rows) && issues == old(issues)
      ensures AutoAuditOption !in options ==> log.rows == old(log.rows) + [RecordOf(now, AllIssues(snap))]
    {
      if Truthy(Get(options, AutoAuditOption, VBool(true))) {
        var _ := Run(snap, log, now);
      }
    }
  }

  /** What a run reports agrees with the row it saves: the returned total
      and the saved issue count both equal the number of issues, the score
      is in 0..100, and a fresh row has `fixed_count` 0. */
  lemma RunResultAgreesWithRecord(snap: Snapshot, now: int)
    ensures RecordOf(now, AllIssues(snap)).issuesCount == |AllIssues(snap)| <= 13
    ensures 0 <= RecordOf(now, AllIssues(snap)).score <= 100
    ensures RecordOf(now, AllIssues(snap)).fixedCount == 0
  {
    IssuesInCheckOrder(Evaluate(snap));
  }
}
