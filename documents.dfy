/**
 * The shape of a stored document, as the store writes it and the handlers
 * read it back: `{"_id", "text", "metadata": {"text", "created_at",
 * "categories", ...}}`. Search results may also carry `document.text`.
 * A key that is absent from the dictionary is `None` here.
 */
module Documents {
  import opened Wrappers

  /** A metadata value the callers put in besides the keys the core reads (`user_id`, `question`, ...). */
  datatype Value = Str(s: string) | Num(n: int)

  datatype Metadata = Metadata(
    text: Option<string>,
    createdAt: Option<string>,
    categories: Option<seq<string>>,
    extra: map<string, Value>)

  datatype Doc = Doc(
    id: Option<string>,
    text: Option<string>,
    documentText: Option<string>,  // `entry["document"]["text"]`, only present on search results
    metadata: Option<Metadata>)

  /** A metadata dictionary with none of the keys the core reads. */
  const EmptyMetadata := Metadata(None, None, None, map[])

  /** `metadata["text"]`, when the document has metadata holding that key. */
  function MetadataText(d: Doc): Option<string> {
    if d.metadata.Some? then d.metadata.value.text else None
  }

  /** `metadata["categories"]`, when the document has metadata holding that key. */
  function MetadataCategories(d: Doc): Option<seq<string>> {
    if d.metadata.Some? then d.metadata.value.categories else None
  }

  /** `metadata["created_at"]`, when the document has metadata holding that key. */
  function MetadataCreatedAt(d: Doc): Option<string> {
    if d.metadata.Some? then d.metadata.value.createdAt else None
  }
}
