/** The content repository as the audit sees it: published documents with
    their title, body and the three SEO-plugin meta-description fields,
    image attachments with their alt text and file size, the site-level
    facts, and the post-meta table that fixes write into. */
module Repository {
  import opened Wrappers

  datatype PostType = Post | Page

  /** A published post or page. The three description fields hold the
      values of the Yoast, Rank Math and AIOSEO meta keys ('' when absent). */
  datatype Document = Document(
    id: int,
    kind: PostType,
    title: string,
    body: string,
    yoastDesc: string,
    rankMathDesc: string,
    aioseoDesc: string)

  /** An image attachment: its alt-text meta ('' when there is none) and
      the size in bytes of its file when the file exists. */
  datatype Image = Image(id: int, title: string, alt: string, fileSize: Option<nat>)

  /** Site facts: served over HTTPS, the sitemap and robots.txt probes, and
      the `permalink_structure` option. */
  datatype SiteFacts = SiteFacts(https: bool, sitemapReachable: bool, robotsReachable: bool, permalinkStructure: string)

  datatype Snapshot = Snapshot(documents: seq<Document>, images: seq<Image>, facts: SiteFacts, homeUrl: string)

  /** Post IDs are the table's primary key. */
  predicate DistinctIds(docs: seq<Document>) {
    forall i, j :: 0 <= i < j < |docs| ==> docs[i].id != docs[j].id
  }

  const YoastDescKey := "_yoast_wpseo_metadesc"
  const RankMathDescKey := "rank_math_description"
  const AioseoDescKey := "_aioseo_description"
  const AltKey := "_wp_attachment_image_alt"

  /** `get_post_meta( $id, $key, true )`: '' when the key is absent. */
  function MetaValue(values: map<(int, string), string>, id: int, key: string): string {
    if (id, key) in values then values[(id, key)] else ""
  }

  /** The post-meta table. */
  class PostMeta {
    var values: map<(int, string), string>

    constructor (initial: map<(int, string), string>)
      ensures values == initial
    {
      values := initial;
    }
  }
}
