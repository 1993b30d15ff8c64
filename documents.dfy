/** The document record both loaders produce (`llama_stack_client.types.Document`). */
module Documents {

  const TextPlain := "text/plain"
  const SourceKey := "source"
  const DocumentIdPrefix := "doc-"

  /** An identifier, the text, its MIME type and metadata naming where the text came from. */
  datatype Document = Document(documentId: string, content: string, mimeType: string, metadata: map<string, string>)
}
