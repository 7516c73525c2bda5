/** AI content generation: the gates a generation request passes, the draft
    it records in the content table, the free-quota charge that follows, and
    saving a draft as a post. */
module ContentDrafts {
  import opened Wrappers
  import opened Text
  import opened Options
  import opened Request
  import JeiSeo

  /** One row of the content table; `post_id` is NULL until the draft is
      saved as a post. */
  datatype ContentRecord = ContentRecord(
    id: int,
    contentType: string,
    prompt: string,
    generatedContent: string,
    createdAt: int,
    status: string,
    postId: Option<int>)

  const LimitMessage := "Free content limit reached. Upgrade to PRO for unlimited content."
  const KeywordMessage := "Please enter a keyword or topic."
  const ApiMessage := "API key not configured. Go to Settings."
  const RequiredMessage := "Title and content are required."
  const SavedMessage := "Post created successfully!"
  const DefaultType := "blog_post"
  const ApiKeyOption := "jeiseo_api_key"

  /** What the provider call gave back. */
  datatype ProviderResult = Generated(content: string) | ProviderError(error: string)

  datatype GenerateResponse =
    | GenerateRefused(message: string, upgrade: bool)
    | GenerateDone(contentId: int, content: string, remaining: int)

  /** What creating the post gave back: its ID or a WordPress error. */
  datatype InsertOutcome = Inserted(postId: int) | InsertError(message: string)

  datatype SaveResponse = SaveRefused(message: string) | Saved(postId: int, message: string)

  /** `is_configured`: the stored API key is not empty. */
  predicate ApiConfigured(values: map<string, Value>) {
    Truthy(Get(values, ApiKeyOption, VStr("")))
  }

  /** The rows after `UPDATE ... SET post_id, status = 'published' WHERE id`. */
  function Published(rows: seq<ContentRecord>, contentId: int, postId: int): (r: seq<ContentRecord>)
    ensures |r| == |rows|
    ensures forall k :: 0 <= k < |rows| && rows[k].id == contentId ==>
      r[k] == rows[k].(postId := Some(postId), status := "published")
    ensures forall k :: 0 <= k < |rows| && rows[k].id != contentId ==> r[k] == rows[k]
  {
    seq(|rows|, k requires 0 <= k < |rows| =>
      if rows[k].id == contentId then rows[k].(postId := Some(postId), status := "published") else rows[k])
  }

  /** Publishing keeps every row's ID, prompt and generated text, and a
      second publish with the same post ID changes nothing. */
  lemma PublishedKeeps(rows: seq<ContentRecord>, contentId: int, postId: int)
    ensures forall k :: 0 <= k < |rows| ==>
      Published(rows, contentId, postId)[k].id == rows[k].id &&
      Published(rows, contentId, postId)[k].prompt == rows[k].prompt &&
      Published(rows, contentId, postId)[k].generatedContent == rows[k].generatedContent
    ensures Published(Published(rows, contentId, postId), contentId, postId) == Published(rows, contentId, postId)
  {
    var once := Published(rows, contentId, postId);
    var twice := Published(once, contentId, postId);
    assert forall k :: 0 <= k < |rows| ==> twice[k] == once[k];
  }

  /** The draft lifecycle: when the new draft's ID is not used by any
      earlier row, as the auto-increment counter ensures, saving it as a post
      publishes that draft and leaves every earlier row as it was. */
  lemma {:induction false} PublishNewDraft(rows: seq<ContentRecord>, draft: ContentRecord, postId: int)
    requires forall k :: 0 <= k < |rows| ==> rows[k].id != draft.id
    ensures Published(rows + [draft], draft.id, postId) == rows + [draft.(postId := Some(postId), status := "published")]
  {
    var after := Published(rows + [draft], draft.id, postId);
    assert forall k :: 0 <= k < |rows| ==> (rows + [draft])[k] == rows[k];
    assert forall k :: 0 <= k < |rows| ==> after[k] == rows[k];
  }

  /** The content table with its auto-increment counter. */
  class ContentTable {
    var rows: seq<ContentRecord>
    /** The ID the next insert receives. */
    var nextId: int

    constructor (rows: seq<ContentRecord>, nextId: int)
      ensures this.rows == rows && this.nextId == nextId
    {
      this.rows := rows;
      this.nextId := nextId;
    }

    /** `$wpdb->insert` of a draft; returns its `insert_id`. */
    method InsertDraft(contentType: string, prompt: string, content: string, now: int) returns (id: int)
      modifies this
      ensures id == old(nextId) && nextId == old(nextId) + 1
      ensures rows == old(rows) + [ContentRecord(id, contentType, prompt, content, now, "draft", None)]
    {
      id := nextId;
      rows := rows + [ContentRecord(id, contentType, prompt, content, now, "draft", None)];
      nextId := nextId + 1;
    }

    /** `ajax_generate` past the nonce and capability checks. The keyword
      and the content type are read through `sanitize` (the request's
      `sanitize_text_field`). The gates run in order: a free site with no
      content left this month, a keyword that is empty once cleaned, an API
      key that is not set, a failed provider call; each
      refuses with nothing recorded and nothing charged. Otherwise one draft
      is recorded, then a free site is charged one generation, and the
      response reports what remains (-1 on PRO). */
    method Generate(plugin: JeiSeo.Plugin, month: string, keyword: Option<string>, contentType: Option<string>,
                    sanitize: string -> string, result: ProviderResult, now: int)
      returns (r: GenerateResponse)
      modifies this, plugin.options
      ensures !plugin.IsPro() && old(plugin.FreeQuota("content", month)) == 0 ==>
        r == GenerateRefused(LimitMessage, true)
      ensures (plugin.IsPro() || old(plugin.FreeQuota("content", month)) > 0) && Falsy(Field(keyword, sanitize, "")) ==>
        r == GenerateRefused(KeywordMessage, false)
      ensures ((plugin.IsPro() || old(plugin.FreeQuota("content", month)) > 0) && !Falsy(Field(keyword, sanitize, "")) &&
               !ApiConfigured(old(plugin.options.values))) ==>
        r == GenerateRefused(ApiMessage, false)
      ensures ((plugin.IsPro() || old(plugin.FreeQuota("content", month)) > 0) && !Falsy(Field(keyword, sanitize, "")) &&
               ApiConfigured(old(plugin.options.values)) && result.ProviderError?) ==>
        r == GenerateRefused(result.error, false)
      ensures r.GenerateRefused? ==>
        rows == old(rows) && nextId == old(nextId) && plugin.options.values == old(plugin.options.values)
      ensures r.GenerateDone? ==>
        result.Generated? &&
        rows == old(rows) + [ContentRecord(old(nextId), Field(contentType, sanitize, DefaultType), Field(keyword, sanitize, ""), result.content, now, "draft", None)] &&
        nextId == old(nextId) + 1 &&
        plugin.options.values == (if plugin.IsPro() then old(plugin.options.values) else JeiSeo.Incremented(old(plugin.options.values), "content", month)) &&
        r == GenerateDone(old(nextId), result.content, if plugin.IsPro() then -1 else plugin.FreeQuota("content", month))
      ensures r.GenerateDone? <==>
        (plugin.IsPro() || old(plugin.FreeQuota("content", month)) > 0) && !Falsy(Field(keyword, sanitize, "")) &&
        ApiConfigured(old(plugin.options.values)) && result.Generated?
    {
      if !plugin.IsPro() && plugin.FreeQuota("content", month) <= 0 {
        return GenerateRefused(LimitMessage, true);
      }
      var kw := Field(keyword, sanitize, "");
      var kind := Field(contentType, sanitize, DefaultType);
      if Falsy(kw) {
        return GenerateRefused(KeywordMessage, false);
      }
      if !ApiConfigured(plugin.options.values) {
        return GenerateRefused(ApiMessage, false);
      }
      if result.ProviderError? {
        return GenerateRefused(result.error, false);
      }
      var contentId := InsertDraft(kind, kw, result.content, now);
      if !plugin.IsPro() {
        plugin.IncrementUsage("content", month);
      }
      r := GenerateDone(contentId, result.content, if plugin.IsPro() then -1 else plugin.FreeQuota("content", month));
    }

    /** `ajax_save` past the nonce and capability checks: the title is read
      through `sanitize` (`sanitize_text_field`) and the body through `kses`
      (`wp_kses_post`); a title or body that is empty once cleaned is
      refused, as is a failed post insert; otherwise a non-zero `content_id`
      marks that draft published with the new post's ID. */
    method Save(contentId: int, title: Option<string>, content: Option<string>,
                sanitize: string -> string, kses: string -> string, insert: InsertOutcome) returns (r: SaveResponse)
      modifies this
      ensures Falsy(Field(title, sanitize, "")) || Falsy(Field(content, kses, "")) ==> r == SaveRefused(RequiredMessage)
      ensures !Falsy(Field(title, sanitize, "")) && !Falsy(Field(content, kses, "")) && insert.InsertError? ==>
        r == SaveRefused(insert.message)
      ensures r.SaveRefused? ==> rows == old(rows)
      ensures r.Saved? <==> !Falsy(Field(title, sanitize, "")) && !Falsy(Field(content, kses, "")) && insert.Inserted?
      ensures r.Saved? ==>
        r == Saved(insert.postId, SavedMessage) &&
        rows == (if contentId != 0 then Published(old(rows), contentId, insert.postId) else old(rows))
      ensures nextId == old(nextId)
    {
      var cleanTitle := Field(title, sanitize, "");
      var cleanContent := Field(content, kses, "");
      if Falsy(cleanTitle) || Falsy(cleanContent) {
        return SaveRefused(RequiredMessage);
      }
      if insert.InsertError? {
        return SaveRefused(insert.message);
      }
      var postId := insert.postId;
      if contentId != 0 {
        rows := Published(rows, contentId, postId);
      }
      r := Saved(postId, SavedMessage);
    }
  }
}
