# JeiSEO in Dafny

This project models the decision logic of JeiSEO, a WordPress SEO plugin, and proves properties of that model. The modelled parts are:

- **The SEO audit.** It runs ten checks in a fixed order over a snapshot of the site:
  - SSL, sitemap, robots.txt and permalinks;
  - title length and duplicate titles;
  - meta descriptions;
  - headings;
  - image alt text;
  - internal links;
  - large images.

  Each check appends at most one issue per bucket. The audit then scores the issues and appends one audit record. The AI fix loop writes generated meta descriptions or alt texts under the post-meta keys. The daily scheduled audit is modelled too.
- **The monthly free quota.** `jeiseo_{type}_count_{Y-m}` counters, the option defaults, the PRO test and the cron guard set on activation.
- **The helper functions.** Score bands, the meta-description and focus-keyword resolvers over the Yoast, Rank Math and AIOSEO fields, the images-without-alt filter, and the sitemap and robots probes.
- **The license.** Key format, masking, plan, and activation and deactivation through the options.
- **The dashboard.** The latest-audit figures with their defaults, the count of posts without a description, and the activity feed (merged, sorted newest first, cut to a limit).
- **AI content generation.** The four gates in order, the draft record, the quota charge, and saving a draft as a published post.
- **`escapeHtml`** from the admin script.

The site is an input value, `Repository.Snapshot`, which holds:

- the published posts and pages, with their titles, bodies and the three description fields;
- the image attachments, with their alt text and optional file size;
- the site facts the network probes and WordPress settings give: HTTPS, sitemap reachable, robots.txt reachable, and the permalink structure;
- the home URL.

Stateful parts of the source are classes:

- `JeiSeo.Plugin`, the plugin with its option store, license and cron schedule;
- `Options.OptionStore`;
- `Repository.PostMeta`;
- `SeoAudit.Audit`, with its issue accumulator;
- `SeoAudit.AuditLog`;
- `ContentDrafts.ContentTable`.

Each method is proved against a specification function. The audit's specification is `AuditSpec.AllIssues` and `AuditSpec.Score`. The fix loop's specification is `SeoAudit.Applied` and `SeoAudit.SuccessCount`. The quota's specification is `JeiSeo.Remaining` and `JeiSeo.Incremented`. Lemmas then state what the source promises about those functions.

PHP semantics are written out in the model:

- `empty()` on a string is `Text.Falsy`, so `""` and `"0"` are empty.
- `mb_strtolower` is ASCII lowercasing (`Text.Lower`).
- `strpos(...) !== false` is `Text.Contains`.
- `(int)` on a string is `Text.StringToInt`.
- `sprintf('%d')` is `Text.NatToString`.
- `substr` is `Text.Prefix` and `Text.Suffix`.
- The three regular expressions of the audit are hand-written scanners in module `Scan`. `Scan.HasHeadingCorrect` ties the heading scanner to a declarative reading of the pattern.

Where the code and its design description disagree, the model follows the code:

- The audit row's `fixed_count` stays 0, since the fix handler never updates it.
- The short and long description buckets are filled but never reported.
- Alt text `"0"` counts as present for the SQL filter but as missing for `image_has_alt`.
- Alt text made only of spaces counts as missing for the SQL filter, whose `= ''` ignores trailing spaces under the PAD SPACE collations WordPress creates its tables with, but as present for `image_has_alt`.
- The license pattern's `$` also accepts one trailing newline.

## Model

| member | source | states |
|---|---|---|
| Text.LowerChar | modules/audit/class-jeiseo-audit.php:164 | the lower-case form of a character is not upper case and is the same character up to ASCII case |
| Text.Lower | modules/audit/class-jeiseo-audit.php:164 | a lowercased title differs from the title only in letter case and holds no upper-case letter |
| Text.LowerCharAlike | modules/audit/class-jeiseo-audit.php:164 | two characters lowercase alike iff they are equal up to ASCII case |
| Text.LowerAlike | modules/audit/class-jeiseo-audit.php:164-168 | two titles get the same key iff they differ only in the ASCII case of their letters |
| Text.LowerIdempotent | modules/audit/class-jeiseo-audit.php:164 | lowercasing a lowercased title changes nothing |
| Text.Prefix | includes/class-jeiseo-license.php:124 | `substr($s, 0, n)` has length min(n, len) and is a prefix of the string |
| Text.Suffix | includes/class-jeiseo-license.php:124 | `substr($s, -n)` has length min(n, len) and is the string's tail |
| Text.NatToString | modules/audit/class-jeiseo-audit.php:183 | `%d` of a count is a non-empty string of decimal digits |
| Text.IntToString | jeiseo.php:234-235 | an integer option value written as a string is never empty |
| Text.LeadingDigits | jeiseo.php:216 | the digit run the `(int)` cast reads is all digits and stops at the first non-digit |
| Text.LeadingNumberOfNatToString | modules/audit/class-jeiseo-audit.php:183 | the number an issue title starts with is the count printed into it |
| Text.StringToIntOfIntToString | jeiseo.php:216 | casting a printed integer back with `(int)` gives the same integer, negative ones included |
| Escape.EscapeCharTable | assets/js/admin.js:373-380 | `& < > " '` become `&amp; &lt; &gt; &quot; &#039;`, and every other character stands for itself |
| Escape.EscapeConcat | assets/js/admin.js:380 | escaping works character by character: escape(a+b) = escape(a)+escape(b) |
| Escape.EscapeNotShorter | assets/js/admin.js:380 | the output is never shorter than the input |
| Escape.EscapeIdentity | assets/js/admin.js:380 | text holding none of the five characters comes back unchanged |
| Escape.EscapeSafe | assets/js/admin.js:380 | the output contains no `<`, `>`, `"` or `'` |
| Escape.UnescapeEscape | assets/js/admin.js:372-381 | decoding the five entities gives the input back |
| Escape.EscapeInjective | assets/js/admin.js:372-381 | two different texts never escape to the same markup |
| Options.Get | jeiseo.php:216 | `get_option` gives the stored value when the name is present and the default otherwise |
| Options.IntOptionReadsBack | jeiseo.php:216-235 | a counter stored as an integer, or as its decimal string, reads back as the same integer |
| License.FromOptions | includes/class-jeiseo-license.php:28-30 | with no stored key or status the license has key `''` and status `'free'` |
| License.Plan | includes/class-jeiseo-license.php:39-51 | the plan is `'pro'` iff the status is `'valid'` and the key is non-empty, and `'free'` otherwise |
| License.ValidateLicense | includes/class-jeiseo-license.php:100-114 | a key is accepted iff it matches the four-group pattern, optionally followed by the one newline `$` allows; a rejection carries the format message |
| License.PatternIsShape | includes/class-jeiseo-license.php:103 | the group-by-group reading of the pattern matches exactly the 19-character keys with `-` at positions 4, 9 and 14 and `[A-Z0-9]` elsewhere |
| License.ValidateLicenseAcceptsExactly | includes/class-jeiseo-license.php:103-113 | the validator accepts exactly those 19-character keys, plus that key followed by one newline; with no newline in the key, exactly the keys of that shape |
| License.KeyFromGroups | includes/class-jeiseo-license.php:103 | any four `[A-Z0-9]{4}` groups joined by `-` are accepted |
| License.MaskedKey | includes/class-jeiseo-license.php:119-125 | an empty key masks to `''`, and otherwise to its first 4 characters, `-****-****-` and its last 4 |
| License.MaskedValidKey | includes/class-jeiseo-license.php:119-125 | the mask of a well-formed key is 19 characters, shows the first and last groups and hides the middle two |
| License.Activate | includes/class-jeiseo-license.php:56-79 | the key is tested after cleaning: one empty after cleaning is refused with nothing stored; a well-formed one is stored with status `'valid'`; a malformed one is refused with the format message and nothing stored |
| License.Deactivate | includes/class-jeiseo-license.php:84-95 | the key becomes `''` and the status `'free'`, so a license read back from the options is not valid and its plan is `'free'` |
| JeiSeo.Remaining | jeiseo.php:213-226 | the quota left is 0 iff this month's count has reached the limit; otherwise it is limit − count; with a non-negative count it never exceeds the limit |
| JeiSeo.IncrementedEffect | jeiseo.php:231-236 | an increment adds 1 to this month's counter without clamping, takes one from what remains (0 stays 0), adds only that key and leaves every other option unchanged |
| JeiSeo.QuotaKeyInjective | jeiseo.php:214-233 | for months without `_`, two counter names are equal only for the same feature and month |
| JeiSeo.YearMonthHasNoUnderscore | jeiseo.php:214 | a `Y-m` month contains no `_` |
| JeiSeo.IncrementIndependent | jeiseo.php:214-235 | incrementing one feature's counter for one month leaves every other feature's and month's count and quota unchanged |
| JeiSeo.WithDefaultsKeeps | jeiseo.php:182-201 | adding defaults yields the old names plus the default names, and every existing option keeps its value |
| JeiSeo.WithDefaultsPresent | jeiseo.php:196-200 | when every default name is already present, nothing changes |
| JeiSeo.WithDefaultsIdempotent | jeiseo.php:182-201 | setting the defaults twice has the effect of setting them once |
| JeiSeo.Plugin.Init | jeiseo.php:100-113 | after init the license is read from the options, and the site is PRO iff that license is valid |
| JeiSeo.Plugin.SetDefaults | jeiseo.php:182-201 | the options become the old options with the absent defaults added; no existing option is overwritten |
| JeiSeo.Plugin.Activate | jeiseo.php:118-132 | activation sets the defaults; it schedules the daily audit at the given time only when it is not already scheduled, and afterwards it is scheduled |
| JeiSeo.Plugin.Deactivate | jeiseo.php:137-142 | deactivation removes the daily audit from the schedule and changes nothing else |
| JeiSeo.Plugin.IncrementUsage | jeiseo.php:231-236 | the options become the incremented counter, and the quota left drops by one, or stays at 0 |
| Helpers.ScoreColor | includes/class-jeiseo-helpers.php:18-25 | green iff score ≥ 80, yellow iff 50 ≤ score < 80, red iff score < 50 |
| Helpers.ScoreLabel | includes/class-jeiseo-helpers.php:30-37 | Good iff score ≥ 80, Needs Improvement iff 50 ≤ score < 80, Poor iff score < 50 |
| Helpers.ColorAndLabelAgree | includes/class-jeiseo-helpers.php:18-37 | colour and label use the same bands: two scores share a colour iff they share a label, and green/yellow/red go with Good/Needs Improvement/Poor |
| Helpers.FirstTruthy | includes/class-jeiseo-helpers.php:67-87 | the result is the first non-empty field, with all fields before it empty, or `''` exactly when every field is empty |
| Helpers.MetaDescription | includes/class-jeiseo-helpers.php:67-87 | the first non-empty of Yoast, Rank Math and AIOSEO; a populated Yoast field wins whatever the others hold; `''` iff all three are empty, with `"0"` counting as empty |
| Helpers.FocusKeyword | includes/class-jeiseo-helpers.php:92-106 | the first non-empty of Yoast and Rank Math; `''` iff both are empty |
| Helpers.ImagesWithoutAlt | includes/class-jeiseo-helpers.php:119-136 | the listed images are exactly the attachments whose alt is absent or compares equal to `''` (nothing but spaces), and there are no more of them than images |
| Helpers.AltZeroIsHandledDifferently | includes/class-jeiseo-helpers.php:111-135 | alt `"0"` fails `image_has_alt` yet is not selected by the alt filter |
| Helpers.AltSpacesAreHandledDifferently | includes/class-jeiseo-helpers.php:111-135 | a non-empty alt of spaces passes `image_has_alt` yet is selected by the alt filter |
| Helpers.AltTestsDisagreeExactly | includes/class-jeiseo-helpers.php:111-135 | the filter and `image_has_alt` agree (listed iff no alt) on every alt except `"0"` and non-empty runs of spaces |
| Helpers.SitemapExists | includes/class-jeiseo-helpers.php:155-170 | true iff one of the three sitemap URLs answers 200; the probes stop at the first success, and all three are probed when none succeeds |
| Helpers.RobotsExists | includes/class-jeiseo-helpers.php:175-178 | true iff `/robots.txt` answers status 200 |
| Scan.ScanTagCorrect | modules/audit/class-jeiseo-audit.php:282-288 | scanning from a position finds a heading tag iff some later tag start is followed by a `>` |
| Scan.HasHeadingCorrect | modules/audit/class-jeiseo-audit.php:282-291 | the heading scanner succeeds exactly when `/<hN[^>]*>/i` matches |
| Scan.NoAngleNoHeading | modules/audit/class-jeiseo-audit.php:282-291 | a body without `<` has no heading of any level |
| Scan.HeadingCaseInsensitive | modules/audit/class-jeiseo-audit.php:282-288 | `<hN>` and `<HN>` are both found |
| Scan.RunEnd | modules/audit/class-jeiseo-audit.php:364 | the `[^"']+` run ends at the first quote or at the end of the body |
| Scan.Hrefs | modules/audit/class-jeiseo-audit.php:364 | every captured link target is non-empty, quote-free and occurs in the body |
| Scan.NoEqualsNoHrefs | modules/audit/class-jeiseo-audit.php:364 | a body without `=` has no link targets |
| Scan.HrefsStep | modules/audit/class-jeiseo-audit.php:364 | the scan at a position captures a match that starts there and resumes after its closing quote, and otherwise moves on by one character |
| Scan.HrefsEmptyIffNoMatch | modules/audit/class-jeiseo-audit.php:364 | the scan finds no link target iff `/href=["']([^"']+)["']/i` matches nowhere from that position on |
| Scan.HrefsFirstMatch | modules/audit/class-jeiseo-audit.php:364 | at the first match the scan captures exactly the text between the quotes and continues after the closing quote |
| Scan.HrefAtStart | modules/audit/class-jeiseo-audit.php:364 | a double-quoted `href` at the start of the body is captured first |
| Scan.InternalCount | modules/audit/class-jeiseo-audit.php:366-372 | the internal-link count is at most the number of links, and 0 iff no link contains the home URL or starts with `/` |
| AuditSpec.Rank | modules/audit/class-jeiseo-audit.php:37-54 | every check has a place in the run order |
| AuditSpec.FixableExactlyAi | modules/audit/class-jeiseo-audit.php:74-426 | every issue is `fixable` exactly when its fix is `ai`, and no site-wide issue is AI-fixable |
| AuditSpec.Ids | modules/audit/class-jeiseo-audit.php:152-170 | a bucket holds exactly the IDs of the documents its predicate selects, and no more IDs than there are documents |
| AuditSpec.IdsAppend | modules/audit/class-jeiseo-audit.php:152-170 | buckets keep document order: the bucket of two runs of documents is the first run's bucket followed by the second's |
| AuditSpec.IdsSingle | modules/audit/class-jeiseo-audit.php:152-170 | one document contributes its ID iff it passes the test |
| AuditSpec.IdsNoDup | modules/audit/class-jeiseo-audit.php:152-170 | with distinct post IDs no bucket names a post twice |
| AuditSpec.IdsEmpty | modules/audit/class-jeiseo-audit.php:152-170 | a bucket is empty iff no document passes its test |
| AuditSpec.ImageIds | modules/audit/class-jeiseo-audit.php:335-341 | the alt issue lists the IDs of the images without alt, in order |
| AuditSpec.LargeImageIds | modules/audit/class-jeiseo-audit.php:404-412 | an image is flagged iff its file exists and is over 500000 bytes |
| AuditSpec.AddToGroupEffect | modules/audit/class-jeiseo-audit.php:164-167 | filing an ID under a lowercased title appends it to that title's list and leaves the other lists as they were |
| AuditSpec.GroupByTitleSpec | modules/audit/class-jeiseo-audit.php:152-170 | the title map files each document under its lowercased title, in order, once per distinct title |
| AuditSpec.DuplicateIdsMember | modules/audit/class-jeiseo-audit.php:172-176 | an ID is in the merged lists iff it is in some list with more than one entry |
| AuditSpec.DuplicateBucketExactly | modules/audit/class-jeiseo-audit.php:164-176 | the duplicate bucket holds exactly the documents whose lowercased title another document shares |
| AuditSpec.DuplicateHasPartner | modules/audit/class-jeiseo-audit.php:164-176 | every ID in the duplicate bucket belongs to a document whose lowercased title another document shares |
| AuditSpec.PartnerIsDuplicate | modules/audit/class-jeiseo-audit.php:164-176 | a document whose lowercased title another document shares is in the duplicate bucket |
| AuditSpec.CaseVariantsAreDuplicates | modules/audit/class-jeiseo-audit.php:164-176 | two documents whose titles differ only in letter case, such as "SEO Tips" and "seo tips", are both in the duplicate bucket |
| AuditSpec.DuplicateIdsNoDup | modules/audit/class-jeiseo-audit.php:172-176 | merging per-title lists of distinct documents repeats no ID |
| AuditSpec.DuplicateBucketNoDup | modules/audit/class-jeiseo-audit.php:164-176 | with distinct post IDs, each duplicate is listed once |
| AuditSpec.TitleBucketsDisjoint | modules/audit/class-jeiseo-audit.php:154-161 | no post is both short (< 30) and long (> 60), and a title of 30..60 characters is in neither bucket |
| AuditSpec.TitleIssueAttributes | modules/audit/class-jeiseo-audit.php:178-215 | the duplicate-title issue is critical, manual and not fixable; the short and long title issues are warnings with fix `ai` |
| AuditSpec.EmitBucket | modules/audit/class-jeiseo-audit.php:178-215 | a bucket check appends its one issue, about exactly the bucket's ids, iff its bucket is non-empty |
| AuditSpec.RaisedBucket | modules/audit/class-jeiseo-audit.php:138-426 | a bucket check raises its issue on a site iff the ids it collects there are not empty |
| AuditSpec.RaisedIsEmitted | modules/audit/class-jeiseo-audit.php:72-426 | what each check raises, read from the site alone, is what it contributes to the run's findings |
| AuditSpec.EmitAllIsFired | modules/audit/class-jeiseo-audit.php:37-54 | a check sequence yields exactly one issue per check that fires, and the k-th issue is the k-th firing check's own issue |
| AuditSpec.FiredMember | modules/audit/class-jeiseo-audit.php:37-54 | a check is among those that fire iff it is in the sequence and its condition holds |
| AuditSpec.FiredKeepsOrder | modules/audit/class-jeiseo-audit.php:37-54 | the checks that fire keep the order of the sequence they came from |
| AuditSpec.IssuesInCheckOrder | modules/audit/class-jeiseo-audit.php:37-54 | a run yields at most 13 issues, one per firing check in run order: SSL, sitemap, robots, permalink, titles, meta, headings, alt, links, large images |
| AuditSpec.AllIssuesUnfolded | modules/audit/class-jeiseo-audit.php:37-54 | a run's issue list is the checks' contributions concatenated in run order, with the no-H2 issue before the H1 issue |
| AuditSpec.AllIssuesRaised | modules/audit/class-jeiseo-audit.php:37-54 | a run's issue list is what the ten checks raise on the site, appended one after another in run order |
| AuditSpec.BucketIssueShape | modules/audit/class-jeiseo-audit.php:72-426 | an issue is fixable iff its fix is `ai`; site issues target the site and have a fixed title; image issues list images and post issues list posts; the number that starts a bucket title is the bucket size |
| AuditSpec.IssueShape | modules/audit/class-jeiseo-audit.php:74-426 | the same for the issue each check would raise from a snapshot; a bucket check fires iff its bucket is non-empty |
| AuditSpec.DescriptionLengthIrrelevant | modules/audit/class-jeiseo-audit.php:234-260 | two sites that differ only in non-empty descriptions yield the same issues, so the short and long description buckets never produce an issue |
| AuditSpec.Score | modules/audit/class-jeiseo-audit.php:431-449 | the score is in 0..100, and it is 100 iff there are no issues |
| AuditSpec.DeductionByCounts | modules/audit/class-jeiseo-audit.php:436-446 | the deduction is 15·#critical + 5·#warning + 2·#info |
| AuditSpec.EmitAllDeduction | modules/audit/class-jeiseo-audit.php:431-449 | a check sequence deducts at most the sum of its checks' penalties, and exactly that when all fire |
| AuditSpec.MaxDeductionOfAllChecks | modules/audit/class-jeiseo-audit.php:431-449 | all ten checks together cost at most 112 |
| AuditSpec.DeductionAtMost112 | modules/audit/class-jeiseo-audit.php:431-449 | a run deducts at most 112, and exactly 112 with score 0 when every check fires |
| AuditSpec.FiresInWorst | modules/audit/class-jeiseo-audit.php:72-426 | on the worst-case site every check fires |
| AuditSpec.WorstSnapshotScoresZero | modules/audit/class-jeiseo-audit.php:431-449 | a score of 0 is reachable: a concrete site raises all 13 issues and scores 0 |
| AuditSpec.FiredAll | modules/audit/class-jeiseo-audit.php:37-54 | when every check fires, all of them are reported in order |
| AuditSpec.CleanSiteScores100 | modules/audit/class-jeiseo-audit.php:431-449 | a site with HTTPS, sitemap, robots.txt, pretty permalinks and no content raises no issue and scores 100 |
| SeoAudit.CountInternalLinks | modules/audit/class-jeiseo-audit.php:365-372 | the loop counts exactly the internal links |
| SeoAudit.TitleBuckets | modules/audit/class-jeiseo-audit.php:152-170 | the loop fills the short and long buckets and the lowercased-title map as specified |
| SeoAudit.DuplicateList | modules/audit/class-jeiseo-audit.php:172-176 | the loop merges exactly the title lists with more than one entry |
| SeoAudit.MetaBuckets | modules/audit/class-jeiseo-audit.php:234-247 | the loop fills the missing, short (< 120) and long (> 160) description buckets |
| SeoAudit.HeadingBuckets | modules/audit/class-jeiseo-audit.php:280-292 | the loop fills the no-H2 (no `<h2`, body over 500) and H1 buckets |
| SeoAudit.NoLinkPosts | modules/audit/class-jeiseo-audit.php:363-377 | the loop flags exactly the posts over 300 characters with no internal link |
| SeoAudit.LargeImageList | modules/audit/class-jeiseo-audit.php:404-412 | the loop flags exactly the images whose file exists and is over 500000 bytes |
| SeoAudit.SuccessCount | modules/audit/class-jeiseo-audit.php:522-552 | the number of fixes is never more than the number of targets |
| SeoAudit.AppliedFrame | modules/audit/class-jeiseo-audit.php:522-552 | the fix loop writes only the successful existing targets under the one key, keeps every other entry, and changes nothing at all iff no generation succeeded |
| SeoAudit.AppliedWrites | modules/audit/class-jeiseo-audit.php:526-551 | each successful existing target holds its generated text, as `update_post_meta` stores it, under the key |
| SeoAudit.MetaFixResolves | modules/audit/class-jeiseo-audit.php:526-537 | after a meta fix, a post whose stored text is non-empty resolves to that stored text as its description, because it is written under the Yoast key |
| SeoAudit.FixIssues | modules/audit/class-jeiseo-audit.php:503-561 | a free site is refused with the PRO message and nothing written; the issue type is compared after cleaning; a meta fix writes under the Yoast key and an alt fix under the alt key, each storing its text through `update_post_meta` and counting exactly the successes; any other type fixes 0 and writes nothing; the reply says `Fixed n issues.` |
| SeoAudit.ApplyFixes | modules/audit/class-jeiseo-audit.php:522-552 | the loop's writes, each value as `update_post_meta` stores it, and its count are the specified ones |
| SeoAudit.Audit.constructor | modules/audit/class-jeiseo-audit.php:22 | the issue list starts empty |
| SeoAudit.Audit.Report | modules/audit/class-jeiseo-audit.php:178-215 | a non-empty bucket appends its one issue, and an empty one appends nothing |
| SeoAudit.Audit.CheckSsl | modules/audit/class-jeiseo-audit.php:72-83 | appends the critical SSL issue iff the site is not on HTTPS |
| SeoAudit.Audit.CheckSitemap | modules/audit/class-jeiseo-audit.php:88-99 | appends the sitemap warning iff no sitemap is reachable |
| SeoAudit.Audit.CheckRobots | modules/audit/class-jeiseo-audit.php:104-115 | appends the robots.txt notice iff it is not reachable |
| SeoAudit.Audit.CheckPermalink | modules/audit/class-jeiseo-audit.php:120-133 | appends the permalink issue iff the structure is empty |
| SeoAudit.Audit.CheckTitles | modules/audit/class-jeiseo-audit.php:138-216 | computes the three title buckets and appends the short, long and duplicate issues in that order |
| SeoAudit.Audit.CheckMetaDescriptions | modules/audit/class-jeiseo-audit.php:221-261 | computes the three description buckets and appends only the missing-description issue |
| SeoAudit.Audit.CheckHeadings | modules/audit/class-jeiseo-audit.php:266-319 | computes both heading buckets and appends the no-H2 issue before the H1 issue |
| SeoAudit.Audit.CheckImagesAlt | modules/audit/class-jeiseo-audit.php:324-346 | appends the alt issue, listing the images without alt, iff there is one |
| SeoAudit.Audit.CheckInternalLinks | modules/audit/class-jeiseo-audit.php:351-390 | computes the no-links bucket and appends its issue iff it is non-empty |
| SeoAudit.Audit.CheckLargeImages | modules/audit/class-jeiseo-audit.php:395-426 | computes the large-image bucket and appends its issue iff it is non-empty |
| SeoAudit.Audit.CalculateScore | modules/audit/class-jeiseo-audit.php:431-449 | the loop's score is the specified score of the issue list, in 0..100 |
| SeoAudit.Audit.SaveAudit | modules/audit/class-jeiseo-audit.php:454-468 | appends one record with the date, score, issue count, issues and `fixed_count` 0 |
| SeoAudit.Audit.Run | modules/audit/class-jeiseo-audit.php:37-67 | the issue list starts empty and ends as the specified issues of the site; the result carries their score and count; exactly one matching record is appended |
| SeoAudit.Audit.RunAuditRequest | modules/audit/class-jeiseo-audit.php:473-498 | a free site with no audits left is refused with nothing run or charged; otherwise the audit runs, and a free site is charged one audit |
| SeoAudit.Audit.ScheduledAudit | modules/audit/class-jeiseo-audit.php:566-570 | the daily audit runs iff `jeiseo_auto_audit` is truthy, which it is when unset |
| SeoAudit.RunResultAgreesWithRecord | modules/audit/class-jeiseo-audit.php:454-468 | the saved record's issue count is the result's total (at most 13), its score is in 0..100, and `fixed_count` is 0 |
| ContentDrafts.Published | modules/content/class-jeiseo-content.php:148-160 | the row with the draft's ID gets the post ID and status `'published'`, and every other row is unchanged |
| ContentDrafts.PublishedKeeps | modules/content/class-jeiseo-content.php:148-160 | publishing keeps the IDs, prompts and texts, and publishing again changes nothing |
| ContentDrafts.PublishNewDraft | modules/content/class-jeiseo-content.php:148-160 | saving a freshly recorded draft publishes that draft and leaves every earlier row as it was |
| ContentDrafts.ContentTable.InsertDraft | modules/content/class-jeiseo-content.php:85-97 | appends one `'draft'` row with no post under the next ID, and returns that ID |
| ContentDrafts.ContentTable.Generate | modules/content/class-jeiseo-content.php:41-111 | the gates run in order (quota, keyword empty after cleaning, API key, provider), and each refusal records and charges nothing; on success one draft is recorded with the cleaned keyword as prompt and the cleaned type, `blog_post` by default, only a free site is charged, and `remaining` is −1 on PRO and otherwise the quota after the charge |
| ContentDrafts.ContentTable.Save | modules/content/class-jeiseo-content.php:116-170 | a title or body that is empty after cleaning is refused, then a failed insert; otherwise a non-zero `content_id` publishes that draft with the new post's ID, and 0 leaves the table unchanged |
| Dashboard.LatestAudit | admin/class-jeiseo-dashboard.php:29-31 | none iff there are no audits; otherwise a stored record with the greatest date |
| Dashboard.CountPostsWithoutMeta | admin/class-jeiseo-dashboard.php:64-82 | the count is the size of the audit's missing-description bucket, 0 iff every post has a description |
| Dashboard.GetStats | admin/class-jeiseo-dashboard.php:25-59 | with no audit, score, issues and fixed are 0 and the date is null; otherwise the latest audit's figures; the counts of posts, pages, posts without description and images without alt agree with the audit's buckets; the plan and quotas come from the plugin |
| Dashboard.SinkNewest | admin/class-jeiseo-dashboard.php:127-132 | moving one entry left past the older ones extends the newest-first prefix by one and permutes the entries |
| Dashboard.NewestPrefix | admin/class-jeiseo-dashboard.php:134 | the first n entries of a newest-first list are newest first, drawn from it, and nothing dropped is newer than anything kept |
| Dashboard.SortNewestFirst | admin/class-jeiseo-dashboard.php:127-132 | the sort leaves dates non-increasing and is a permutation |
| Dashboard.GetActivity | admin/class-jeiseo-dashboard.php:100-135 | the feed holds min(limit, total) entries, newest first, all drawn from the two query results, and no entry left out is newer than any kept |
| Dashboard.FeedEntriesFromTables | admin/class-jeiseo-dashboard.php:103-125 | every feed entry comes from an audit row or a content row |

## Left out

- The WordPress stores are maps and sequences:
  - `get_option` and `update_option` act on `Options.OptionStore`;
  - `$wpdb` tables are `SeoAudit.AuditLog` and `ContentDrafts.ContentTable`;
  - post meta is `Repository.PostMeta`. `update_post_meta` unslashes and sanitises a value before saving it; `SeoAudit.FixIssues` and `SeoAudit.ApplyFixes` take that step as a function parameter `store` and write `store(text)`.
- SQL, nonces, capability checks, hooks, `flush_rewrite_rules`, table creation and `uninstall.php` are not modelled. Their `wp_send_json_*` replies are return values.
- The month key (`gmdate('Y-m')`) and the timestamps (`current_time`) are parameters.
- The AI provider calls in includes/class-jeiseo-api.php, their HTTP and JSON handling, and `temperature` are not modelled:
  - a generation is an input outcome;
  - in the fix loop, an oracle indexed by target position;
  - `is_configured` is `ContentDrafts.ApiConfigured` over the stored key.
- The network probes are not modelled:
  - `sitemap_exists` and `robots_exists` take a probe function;
  - the audit and the dashboard read their answers from `Repository.SiteFacts`.
- `estimate_site_speed` and `format_number` are not modelled, since they compute with floating point.
- `get_history` is not modelled; it is a plain ordered query.
- `wp_insert_post` is not modelled: its outcome is an input, and the new post itself is not added to the repository. Called with the default `$wp_error = false`, it reports failure as post ID 0, which is `Inserted(0)`: the handler then answers "Post created successfully!" and publishes the draft with `post_id` 0. The `InsertError` outcome covers the `is_wp_error` test the handler also makes.
- `sanitize_text_field`, `wp_kses_post` and the `wp_unslash` before them are WordPress code and are not modelled. `ContentDrafts.ContentTable.Generate`, `ContentDrafts.ContentTable.Save`, `SeoAudit.FixIssues` and `License.Activate` take them as function parameters and apply them to the raw request fields (`Request.Field`) before any test, so a keyword or title that cleaning empties is refused and a trimmed issue type is recognised, exactly as far as the given cleaner does so.
- The rest of admin.js, admin/views/*.php and admin/class-jeiseo-admin.php are not modelled:
  - they are rendering, menus and asset loading;
  - the script reads `issue.severity` and `issue.code`, which the server never sends;
  - it posts actions that are never registered.
- `uninstall.php` deletes option names that do not match the quota counters.
- Translation (`__`) is the identity.
- Byte-level `substr`, and `mb_strtolower` outside ASCII, are not modelled. `Text.Lower` folds only A-Z.
- `(int)` is modelled on a sign and decimal digits only. Leading whitespace and exponents are not handled.
- An empty home URL makes every link internal, as `strpos` with an empty needle does.
- License.Activate: `sanitize_text_field` strips the trailing newline the validator's `$` would accept, so `ValidateLicense`'s newline case is reachable through `Activate` only with a cleaner that keeps it.
- `jeiseo_auto_audit` is absent from the defaults, so the scheduled audit runs unless the option has been set falsy.
- SeoAudit.Audit.SaveAudit: `fixed_count` is always 0, because `ajax_fix_issues` never updates the audit row.
- Dashboard.GetActivity: the two query results, each already cut to `limit` and ordered, are parameters. The ordering of the SQL itself is not modelled.
- Dashboard.SortNewestFirst: states order and permutation only. Stability is not stated.
- Dashboard.LatestAudit: among rows with equal dates it picks the first. SQL leaves ties unspecified.
- Dashboard.GetStats: the SSL and sitemap facts are read from the snapshot, not probed again.
- ContentDrafts.ContentTable.Generate: that the charge happens after the insert is not observable in the final state, so only the final state is stated.
- The `limit` of `get_activity` is a `nat`; negative limits are not modelled.
