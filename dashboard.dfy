/** The dashboard: the figures shown from the latest audit (zero when there
    is none), the repository counts, and the recent-activity feed merged
    from the audits and content tables. */
module Dashboard {
  import opened Wrappers
  import opened Text
  import opened Repository
  import opened Helpers
  import opened AuditSpec
  import opened SeoAudit
  import opened ContentDrafts
  import JeiSeo

  /** The row `ORDER BY audit_date DESC LIMIT 1` picks: one with the
      greatest date (the first such row in table order). */
  function LatestAudit(rows: seq<AuditRecord>): (r: Option<AuditRecord>)
    ensures r == None <==> rows == []
    ensures r.Some? ==> r.value in rows
    ensures r.Some? ==> forall k :: 0 <= k < |rows| ==> rows[k].auditDate <= r.value.auditDate
  {
    if rows == [] then None
    else
      var init := rows[..|rows| - 1];
      var last := rows[|rows| - 1];
      var best := LatestAudit(init);
      assert forall k :: 0 <= k < |init| ==> init[k] == rows[k];
      if best.None? || last.auditDate > best.value.auditDate then Some(last) else best
  }

  /** What `get_stats` returns. */
  datatype Stats = Stats(
    score: int,
    issues: int,
    fixed: int,
    lastAudit: Option<int>,
    totalPosts: nat,
    totalPages: nat,
    imagesNoAlt: nat,
    postsNoMeta: nat,
    hasSitemap: bool,
    hasRobots: bool,
    hasSsl: bool,
    isPro: bool,
    freeAudits: nat,
    freeContent: nat)

  predicate IsPost(d: Document) {
    d.kind == Post
  }

  predicate IsPage(d: Document) {
    d.kind == Page
  }

  /** `count_posts_without_meta`: the published documents whose resolved
      description is empty. */
  method CountPostsWithoutMeta(posts: seq<Document>) returns (count: nat)
    ensures count == |Ids(posts, LacksMeta)|
    ensures count <= |posts|
    ensures count == 0 <==> forall k :: 0 <= k < |posts| ==> !Falsy(DocumentDescription(posts[k]))
  {
    count := 0;
    for i := 0 to |posts|
      invariant count == |Ids(posts[..i], LacksMeta)|
    {
      assert posts[..i + 1][..i] == posts[..i];
      if Falsy(DocumentDescription(posts[i])) {
        count := count + 1;
      }
    }
    assert posts[..|posts|] == posts;
    IdsEmpty(posts, LacksMeta);
  }

  /** `get_stats`: the last audit's score, issue count and fixed count and
      its date, or 0, 0, 0 and null when no audit exists; the repository
      counts; the site facts; and the plan and free quotas. The number of
      documents without a description is the size of the audit's missing
      bucket, and the images without alt text are the ones its alt check
      reports. */
  method GetStats(rows: seq<AuditRecord>, snap: Snapshot, plugin: JeiSeo.Plugin, month: string) returns (s: Stats)
    ensures rows == [] ==> s.score == 0 && s.issues == 0 && s.fixed == 0 && s.lastAudit == None
    ensures rows != [] ==>
      var last := LatestAudit(rows).value;
      s.score == last.score && s.issues == last.issuesCount && s.fixed == last.fixedCount &&
      s.lastAudit == Some(last.auditDate) &&
      forall k :: 0 <= k < |rows| ==> rows[k].auditDate <= last.auditDate
    ensures s.totalPosts == |Ids(snap.documents, IsPost)| && s.totalPages == |Ids(snap.documents, IsPage)|
    ensures s.postsNoMeta == |Evaluate(snap).missingMeta|
    ensures s.imagesNoAlt == |Evaluate(snap).missingAlt|
    ensures s.hasSitemap == snap.facts.sitemapReachable && s.hasRobots == snap.facts.robotsReachable && s.hasSsl == snap.facts.https
    ensures s.isPro == plugin.IsPro()
    ensures s.freeAudits == plugin.FreeQuota("audit", month) && s.freeContent == plugin.FreeQuota("content", month)
  {
    var lastAudit := LatestAudit(rows);
    var imagesNoAlt := |ImagesWithoutAlt(snap.images)|;
    var postsNoMeta := CountPostsWithoutMeta(snap.documents);
    s := Stats(
      if lastAudit.Some? then lastAudit.value.score else 0,
      if lastAudit.Some? then lastAudit.value.issuesCount else 0,
      if lastAudit.Some? then lastAudit.value.fixedCount else 0,
      if lastAudit.Some? then Some(lastAudit.value.auditDate) else None,
      |Ids(snap.documents, IsPost)|,
      |Ids(snap.documents, IsPage)|,
      imagesNoAlt,
      postsNoMeta,
      snap.facts.sitemapReachable,
      snap.facts.robotsReachable,
      snap.facts.https,
      plugin.IsPro(),
      plugin.FreeQuota("audit", month),
      plugin.FreeQuota("content", month));
  }

  /** One entry of the activity feed, as the two SELECTs shape it. */
  datatype Activity =
    | AuditActivity(date: int, score: int, issuesCount: int)
    | ContentActivity(date: int, contentType: string, status: string)

  function OfAudit(r: AuditRecord): Activity {
    AuditActivity(r.auditDate, r.score, r.issuesCount)
  }

  function OfContent(r: ContentRecord): Activity {
    ContentActivity(r.createdAt, r.contentType, r.status)
  }

  /** Newest first: dates never increase along the sequence. */
  predicate NewestFirst(s: seq<Activity>) {
    forall p, q :: 0 <= p < q < |s| ==> s[p].date >= s[q].date
  }

  /** Exchanges two neighbouring entries. */
  method SwapDown(a: array<Activity>, j: nat)
    modifies a
    requires 0 < j < a.Length
    ensures a[..] == old(a[..])[j - 1 := old(a[j])][j := old(a[j - 1])]
    ensures multiset(a[..]) == multiset(old(a[..]))
  {
    a[j - 1], a[j] := a[j], a[j - 1];
  }

  /** Moves `a[i]` left past every older entry, so that the first `i + 1`
      entries are newest first. */
  method SinkNewest(a: array<Activity>, i: nat)
    modifies a
    requires i < a.Length
    requires forall p, q :: 0 <= p < q < i ==> a[p].date >= a[q].date
    ensures forall p, q :: 0 <= p < q <= i ==> a[p].date >= a[q].date
    ensures multiset(a[..]) == multiset(old(a[..]))
  {
    var j := i;
    while j > 0 && a[j - 1].date < a[j].date
      invariant 0 <= j <= i
      invariant forall p, q :: 0 <= p < q <= i && p != j && q != j ==> a[p].date >= a[q].date
      invariant forall q :: j < q <= i ==> a[j].date >= a[q].date
      invariant multiset(a[..]) == multiset(old(a[..]))
    {
      SwapDown(a, j);
      j := j - 1;
    }
  }

  /** The `usort` of `get_activity`, in place: dates descending. */
  method SortNewestFirst(a: array<Activity>)
    modifies a
    ensures NewestFirst(a[..])
    ensures multiset(a[..]) == multiset(old(a[..]))
  {
    var i := 0;
    while i < a.Length
      invariant 0 <= i <= a.Length
      invariant forall p, q :: 0 <= p < q < i ==> a[p].date >= a[q].date
      invariant multiset(a[..]) == multiset(old(a[..]))
    {
      SinkNewest(a, i);
      i := i + 1;
    }
  }

  /** The first `n` entries of a newest-first sequence are newest first,
      and none of the rest is newer than any of them. */
  lemma NewestPrefix(sorted: seq<Activity>, n: nat)
    requires NewestFirst(sorted) && n <= |sorted|
    ensures NewestFirst(sorted[..n])
    ensures multiset(sorted[..n]) <= multiset(sorted)
    ensures forall x, y :: x in multiset(sorted) - multiset(sorted[..n]) && y in sorted[..n] ==> x.date <= y.date
  {
    var r := sorted[..n];
    assert sorted == r + sorted[n..];
    assert multiset(sorted) == multiset(r) + multiset(sorted[n..]);
    forall x, y | x in multiset(sorted) - multiset(r) && y in r
      ensures x.date <= y.date
    {
      assert x in multiset(sorted[n..]);
      var q :| 0 <= q < |sorted[n..]| && sorted[n..][q] == x;
      var p :| 0 <= p < |r| && r[p] == y;
      assert sorted[p] == y && sorted[n + q] == x;
    }
  }

  /** `get_activity`: the two query results merged, sorted newest first
      and cut to `limit`. The feed holds the `limit` newest entries of the
      merge (all of them when there are fewer), newest first, and nothing
      that is not in one of the two results. */
  method GetActivity(audits: seq<Activity>, contents: seq<Activity>, limit: nat) returns (r: seq<Activity>)
    ensures |r| == if |audits| + |contents| < limit then |audits| + |contents| else limit
    ensures NewestFirst(r)
    ensures multiset(r) <= multiset(audits + contents)
    ensures forall x, y :: x in multiset(audits + contents) - multiset(r) && y in r ==> x.date <= y.date
  {
    var activity := audits + contents;
    var a := new Activity[|activity|](k requires 0 <= k < |activity| => activity[k]);
    assert a[..] == activity;
    SortNewestFirst(a);
    var sorted := a[..];
    var n := if |sorted| < limit then |sorted| else limit;
    r := sorted[..n];
    NewestPrefix(sorted, n);
  }

  /** The feed of one audits query and one content query over the tables'
      rows: an entry is an audit row or a content row. */
  lemma FeedEntriesFromTables(auditRows: seq<AuditRecord>, contentRows: seq<ContentRecord>, r: seq<Activity>)
    requires multiset(r) <= multiset(seq(|auditRows|, k requires 0 <= k < |auditRows| => OfAudit(auditRows[k])) +
                                     seq(|contentRows|, k requires 0 <= k < |contentRows| => OfContent(contentRows[k])))
    ensures forall e :: e in r ==>
      (exists k :: 0 <= k < |auditRows| && e == OfAudit(auditRows[k])) ||
      (exists k :: 0 <= k < |contentRows| && e == OfContent(contentRows[k]))
  {
    var audits := seq(|auditRows|, k requires 0 <= k < |auditRows| => OfAudit(auditRows[k]));
    var contents := seq(|contentRows|, k requires 0 <= k < |contentRows| => OfContent(contentRows[k]));
    forall e | e in r
      ensures (exists k :: 0 <= k < |auditRows| && e == OfAudit(auditRows[k])) ||
              (exists k :: 0 <= k < |contentRows| && e == OfContent(contentRows[k]))
    {
      assert e in multiset(r);
      assert e in audits + contents;
      var k :| 0 <= k < |audits + contents| && (audits + contents)[k] == e;
      if k < |audits| {
        assert e == OfAudit(auditRows[k]);
      } else {
        assert e == OfContent(contentRows[k - |audits|]);
      }
    }
  }
}
