/** A field of an AJAX request as the handlers read it:
    `isset( $_POST[f] ) ? clean( wp_unslash( $_POST[f] ) ) : default`.
    The WordPress sanitisers (`sanitize_text_field`, `wp_kses_post`, with
    `wp_unslash` before them) are passed in as functions, since their code
    is not part of this model. */
module Request {
  import opened Wrappers

  /** The value a handler works with: the cleaned field when it was sent,
      the default otherwise. */
  function Field(raw: Option<string>, clean: string -> string, default: string): string {
    match raw
    case Some(v) => clean(v)
    case None => default
  }
}
