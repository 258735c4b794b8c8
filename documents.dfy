/** Values shared by the loaders, the chunker and the uploader. */
module Documents {

  /** Python's `None` or a present value. */
  datatype Option<+T> = None | Some(value: T)

  /** A document's metadata dictionary; every key the core writes has a string value. */
  type Metadata = map<string, string>

  /** A LangChain `Document`: extracted text plus its metadata. */
  datatype Document = Document(pageContent: string, metadata: Metadata)
}
