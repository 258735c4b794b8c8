/** Loading, chunking and uploading in `src/utils.py`: `load_file`, `chunk_document` and
    `upload_chunks`. The PDF, DOCX and text loaders, the recursive character splitter and the
    vector store's `add_documents` are foreign code, so each is a parameter: a function that
    yields its result, or `None` where the foreign call raises. */
module Loading {
  import opened Documents
  import opened Paths

  /** The three loaders `load_file` can choose. */
  datatype LoaderKind = PdfLoader | DocxLoader | TextLoader

  /** A loader run on a path: its documents, or `None` when it raises. */
  type Extractor = (LoaderKind, string) -> Option<seq<Document>>

  /** The splitter run on a list of documents: its chunks, or `None` when it raises. */
  type Splitter = seq<Document> -> Option<seq<Document>>

  /** The metadata key `load_file` stamps on every document. */
  const FILE_NAME_KEY: string := "file_name"

  /** The suffix dispatch of `load_file`. */
  function SelectLoader(path: string): Option<LoaderKind>
  {
    if EndsWith(path, ".pdf") then Some(PdfLoader)
    else if EndsWith(path, ".docx") then Some(DocxLoader)
    else if EndsWith(path, ".txt") then Some(TextLoader)
    else None
  }

  /** Each loader is chosen exactly for its suffix. The three suffixes end in different
      characters, so at most one of them matches and the order of the tests does not matter;
      any other suffix selects no loader. */
  lemma SelectLoaderSuffixes(path: string)
    ensures SelectLoader(path) == Some(PdfLoader) <==> EndsWith(path, ".pdf")
    ensures SelectLoader(path) == Some(DocxLoader) <==> EndsWith(path, ".docx")
    ensures SelectLoader(path) == Some(TextLoader) <==> EndsWith(path, ".txt")
    ensures SelectLoader(path) == None <==> !EndsWith(path, ".pdf") && !EndsWith(path, ".docx") && !EndsWith(path, ".txt")
  {
    if EndsWith(path, ".pdf") {
      assert path[|path| - 1] == ".pdf"[3];
    }
  }

  /** There is no HTML branch: a path ending in `.html` is unsupported. */
  lemma HtmlIsUnsupported(path: string)
    requires EndsWith(path, ".html")
    ensures SelectLoader(path) == None
  {
    assert path[|path| - 1] == ".html"[4];
  }

  /** `doc.metadata['file_name'] = name`. */
  function Stamp(doc: Document, name: string): Document
  {
    doc.(metadata := doc.metadata[FILE_NAME_KEY := name])
  }

  /** `docs` with `file_name` set to `name` on each. */
  function StampAll(docs: seq<Document>, name: string): seq<Document>
  {
    seq(|docs|, i requires 0 <= i < |docs| => Stamp(docs[i], name))
  }

  /** What `load_file(path)` returns: nothing for an unsupported suffix or a loader that raises,
      otherwise the loader's documents, each stamped with the base name of `path`. */
  function LoadedDocuments(path: string, extract: Extractor): (docs: seq<Document>)
    ensures SelectLoader(path) == None ==> docs == []
    ensures SelectLoader(path) != None && extract(SelectLoader(path).value, path) == None ==> docs == []
    ensures SelectLoader(path) != None && extract(SelectLoader(path).value, path) != None ==>
      docs == StampAll(extract(SelectLoader(path).value, path).value, Basename(path))
  {
    match SelectLoader(path)
    case None => []
    case Some(kind) =>
      match extract(kind, path)
      case None => []
      case Some(loaded) => StampAll(loaded, Basename(path))
  }

  /** Stamping keeps the documents, in order, with their text, and sets `file_name` to `name`,
      leaving every other metadata key as it was. */
  lemma StampAllKeeps(loaded: seq<Document>, name: string)
    ensures var docs := StampAll(loaded, name);
      |docs| == |loaded| &&
      forall i :: 0 <= i < |docs| ==>
        docs[i].pageContent == loaded[i].pageContent &&
        docs[i].metadata == loaded[i].metadata[FILE_NAME_KEY := name]
  {
  }

  /** The metadata loop of `load_file`: sets `file_name` on each document in turn. */
  method StampFileNames(loaded: seq<Document>, name: string) returns (docs: seq<Document>)
    ensures docs == StampAll(loaded, name)
    ensures forall d :: d in docs ==> FILE_NAME_KEY in d.metadata && d.metadata[FILE_NAME_KEY] == name
  {
    docs := loaded;
    for i := 0 to |docs|
      invariant |docs| == |loaded|
      invariant forall j :: 0 <= j < i ==> docs[j] == Stamp(loaded[j], name)
      invariant forall j :: i <= j < |docs| ==> docs[j] == loaded[j]
    {
      docs := docs[i := Stamp(docs[i], name)];
    }
  }

  /** `load_file`: picks the loader by suffix, runs it, and stamps `file_name` on each document;
      any loader error yields the empty list. */
  method LoadFile(path: string, extract: Extractor) returns (docs: seq<Document>)
    ensures docs == LoadedDocuments(path, extract)
    ensures forall d :: d in docs ==> FILE_NAME_KEY in d.metadata && d.metadata[FILE_NAME_KEY] == Basename(path)
  {
    var kind := SelectLoader(path);
    if kind == None {
      return [];
    }
    var loaded := extract(kind.value, path);
    if loaded == None {
      return [];
    }
    docs := StampFileNames(loaded.value, Basename(path));
  }

  /** `chunk_document`: the splitter's chunks, or the empty list when the splitter raises. */
  function ChunkDocument(docs: seq<Document>, split: Splitter): (chunks: seq<Document>)
    ensures split(docs) == None ==> chunks == []
    ensures split(docs) != None ==> chunks == split(docs).value
  {
    match split(docs)
    case None => []
    case Some(chunks) => chunks
  }

  /** One call of `add_documents`: the batch handed over and whether the call returned normally. */
  datatype Upload = Upload(chunks: seq<Document>, committed: bool)

  /** The remote vector index. Only the calls made on it are recorded. */
  class VectorStore {
    /** Every batch handed to `add_documents`, in call order. */
    ghost var log: seq<Upload>

    constructor ()
      ensures log == []
    {
      log := [];
    }
  }

  /** `upload_chunks`: hands the chunks to the store exactly once; whether the store accepts them
      is decided by `accepts`, and a refusal is swallowed rather than raised. */
  method UploadChunks(chunks: seq<Document>, store: VectorStore, accepts: seq<Document> -> bool)
    modifies store
    ensures store.log == old(store.log) + [Upload(chunks, accepts(chunks))]
  {
    store.log := store.log + [Upload(chunks, accepts(chunks))];
  }
}
