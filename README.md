# Local-vault document ingestion, modelled in Dafny

This project models the ingestion core of a small document-ingestion pipeline. It has two parts.

**The vault state machine (`src/utils.py`).** The vault is two flat directories, `unprocessed` and `processed`.
- `get_unprocessed_files` lists `unprocessed` once. It keeps the regular files whose names do not start with `.`.
- `process_file` handles one file in order:
  - it skips a file whose base name already exists in `processed`;
  - it loads the file with a loader chosen by suffix and stamps `file_name` metadata on each document;
  - it chunks the documents;
  - it hands the chunks once to the vector store;
  - it then tries to move the file to `processed/<basename>`.
- Every failure is absorbed: a load, chunk or upload error becomes "nothing" or is swallowed, and a failed move leaves both directories as they were.
- `process_all_unprocessed_files` runs `process_file` on every listed path in order.

**The HTML loader (`src/html_loader.py`, `CustomHTMLLoader`).** The loader builds a single document from a parsed page.
- Its text comes from one of two sources:
  - with a non-empty mapping of element tag to element id, the text of every found element, each followed by a newline, in mapping order;
  - otherwise, the text of the whole page.
- The text is stripped of surrounding whitespace.
- The metadata is the source path and the title.

How the model is built:
- **Vault.** The vault is a class, `Vault.LocalVault`, whose two `map` fields the methods change in place.
- **Store.** The vector store is a class whose ghost `log` records every batch handed to `add_documents`.
- **Foreign code as parameters.** Every foreign call is a parameter:
  - the directory listing (`None` when `os.listdir` raises);
  - the PDF/DOCX/text loaders and the splitter (`None` when they raise);
  - the store's verdict on a batch;
  - the operating system's verdict on a rename.
- **Methods proved against pure functions:**
  - `ProcessFile` against `Step`;
  - `ProcessAllUnprocessedFiles` against `Sweep`/`SweepListed`;
  - `GetUnprocessedFiles` against `EligibleNames`;
  - `LoadFile` against `LoadedDocuments`;
  - `CustomHtmlLoader.Load` against `SelectedText`/`AssembledText`.
- **Sweep properties.** The properties of a sweep are lemmas about `Sweep`:
  - each entry ends as if processed alone;
  - the uploads are those each file would make alone;
  - exhaustiveness;
  - a second sweep does nothing.
- **The plan.** `Step` and `Sweep` take a `Plan`: for each entry name, the chunks, the store's verdict and the rename verdict. `PlanOf(env)` is the plan a run follows: it loads and renames entry `n` through the path `os.path.join(UNPROCESSED_DIR, n)`. `Pipeline.PlanOfPath` shows that this is what `process_file` computes from the path itself.

Python semantics written out:
- `str.strip` removes exactly the characters for which `str.isspace` holds.
- `os.path.join` and `os.path.basename` follow their POSIX definitions.
- `os.path.exists` is true for `""`, `.` and `..` under a directory.
- `shutil.move` onto an existing directory puts the file inside that directory.
- `str(soup.title.string)` is the text `"None"` when the title element does not hold exactly one string.

## Model

| member | source | states |
|---|---|---|
| Loading.SelectLoaderSuffixes | src/utils.py:28-36 | Each loader is selected exactly when the path ends in its suffix (`.pdf`, `.docx`, `.txt`). No loader is selected for any other suffix. |
| Loading.HtmlIsUnsupported | src/utils.py:28-36 | A path ending in `.html` selects no loader. |
| Loading.LoadedDocuments | src/utils.py:22-47 | An unsupported suffix gives `[]`. A loader that raises gives `[]`. Otherwise the result is the loader's documents, each stamped with the base name of the path. |
| Loading.StampAllKeeps | src/utils.py:40-41 | Stamping keeps the number and order of the documents and their text. It sets `file_name` to the name and leaves every other metadata key unchanged. |
| Loading.StampFileNames | src/utils.py:40-41 | The metadata loop stamps every document in place. Every returned document has `file_name` equal to the given name. |
| Loading.LoadFile | src/utils.py:26-47 | Returns what `load_file` returns. Every returned document carries `file_name == basename(path)`. |
| Loading.ChunkDocument | src/utils.py:49-61 | A splitter error gives `[]`. Otherwise the result is the splitter's chunks, unchanged. |
| Loading.UploadChunks | src/utils.py:63-72 | The batch is handed to the store exactly once, whether or not the store accepts it. Nothing is raised. |
| Paths.Basename | src/utils.py:79 | The base name contains no `/`. It is a suffix of the path and is preceded by `/` unless it is the whole path. |
| Paths.BasenameOfJoin | src/utils.py:102 | The base name of a slash-free name joined onto any directory is that name. |
| Vault.JoinInUnprocessed | src/utils.py:102 | The path built for a listed name lies directly under `unprocessed` and has that name as its base name. |
| Vault.EligibleNamesMembers | src/utils.py:101-104 | A name is kept iff it is listed, it is a regular file, and it does not start with `.`. A listing without repeats yields names without repeats. |
| Vault.ListingEligible | src/utils.py:100-106 | For a listing of the whole directory, the kept names are exactly its non-hidden regular files, each kept once. |
| Vault.LocalVault.GetUnprocessedFiles | src/utils.py:95-110 | A failed listing gives `[]`. Otherwise the i-th result is `UNPROCESSED_DIR` joined with the i-th kept name, in listing order. |
| Vault.LocalVault.IsFileProcessed | src/utils.py:86-93 | For a plain name, true iff `processed` holds that name. Always true for `""`, `.` and `..`. Being a function, it changes nothing. |
| Vault.AfterMove | src/utils.py:74-84 | A missing source or a refused rename leaves both directories unchanged. On success the source is gone and `processed/<name>` exists. When `processed/<name>` did not exist before, or was a regular file (which the rename replaces), it then holds the source's entry. An existing directory there is left as it was at the top level. |
| Vault.LocalVault.MoveFileToProcessed | src/utils.py:74-84 | The vault's new state is `AfterMove` of the old state at the base name of the path. Well-formedness is kept. |
| Pipeline.PlanOfPath | src/utils.py:117-133 | For a path under `unprocessed`, the plan for its base name gives the chunks `process_file` computes from the path and the path's rename verdict. |
| Pipeline.Step | src/utils.py:112-137 | There is no upload and no change if the base name is already processed or there are no chunks. Otherwise there is exactly one upload of the chunks, with the store's verdict. The entry moves exactly when it was not yet processed, yields chunks and the rename succeeds. |
| Pipeline.MovedIsProcessed | src/utils.py:79-93 | After a step that uploads and whose rename succeeds, `is_file_processed(name)` holds and the entry has left `unprocessed`. |
| Pipeline.MoveIgnoresUploadOutcome | src/utils.py:132-133 | The move is attempted whatever the store answers. The vault after a step does not depend on the store's verdict. |
| Pipeline.ReuploadAfterFailedMove | src/utils.py:132-133 | When chunks were uploaded but the rename failed, the file stays in `unprocessed`, and processing it again uploads the same chunks again. |
| Pipeline.ProcessFile | src/utils.py:112-137 | The new vault and the new uploads are exactly those of `Step` at the path's base name. Nothing raises. |
| Pipeline.Sweep | src/utils.py:144-145 | At most one upload per listed name. Well-formedness is kept. |
| Pipeline.SweepListed | src/utils.py:139-145 | A failed listing changes nothing and uploads nothing. There are never more uploads than listed names. |
| Pipeline.ProcessAllUnprocessedFiles | src/utils.py:139-145 | The vault is listed once and `process_file` runs on each listed path in order, none stopping the loop. The final vault and the uploads are those of `SweepListed`. |
| Pipeline.SweepEffect | src/utils.py:143-145 | Over distinct names, every entry ends as one `process_file` on the initial vault would leave it: either moved to `processed` with its content, or untouched. |
| Pipeline.SweepUploads | src/utils.py:143-145 | Over distinct names, the uploads are, in order, exactly those each file would make alone on the initial vault. |
| Pipeline.SweepNoop | src/utils.py:143-145 | A sweep over names that `process_file` leaves alone changes nothing and uploads nothing. |
| Pipeline.SweepExhaustive | src/utils.py:139-145 | After one sweep, every listed regular file that was unprocessed, yields chunks and renames successfully is in `processed` with its content. Every other entry of either directory is unchanged. |
| Pipeline.SweepIdempotent | src/utils.py:139-145 | When every rename succeeds, and every foreign call (loaders, splitter, store) answers in the second sweep as it did in the first, a second sweep over any listing of what the first left uploads nothing and moves nothing. |
| PyText.Strip | src/html_loader.py:74 | The result is the input with leading and trailing whitespace removed. It is empty iff the input is all whitespace, and otherwise it neither starts nor ends with whitespace. |
| PyText.StripIdempotent | src/html_loader.py:74 | Stripping twice is stripping once. |
| HtmlLoader.TitleOf | src/html_loader.py:65-68 | The title is `""` without a title element, `"None"` when the title has no single string, and otherwise the title's string. |
| HtmlLoader.SelectedTextIsFoundLines | src/html_loader.py:56-60 | The loop's text is the concatenation, in mapping order, of each found element's `get_text(sep)` followed by `"\n"`. |
| HtmlLoader.SelectedTextAppend | src/html_loader.py:57-60 | The text of a mapping is the text of its first part followed by the text of the rest. |
| HtmlLoader.NotFoundContributesNothing | src/html_loader.py:58-59 | An entry whose element is not found contributes nothing, wherever it sits in the mapping. |
| HtmlLoader.SelectionIgnoresRestOfPage | src/html_loader.py:57-60 | The selected text depends only on the lookups of the listed entries, not on the rest of the page. |
| HtmlLoader.AssembledTextCases | src/html_loader.py:56-63 | A missing mapping and an empty one both give the whole page's text. A non-empty mapping gives the found elements' lines. |
| HtmlLoader.CustomHtmlLoader.constructor | src/html_loader.py:14-43 | The path, encoding and separator are kept as given; the separator defaults to `""`. Missing BeautifulSoup arguments become `{"features": "lxml"}`. |
| HtmlLoader.CustomHtmlLoader.Load | src/html_loader.py:45-74 | Exactly one document. Its text is the assembled text stripped. Its metadata is `{source: file_path, title: title}`. |

## Left out

- Filesystem, network and library calls are parameters rather than modelled code:
  - the directory listing, the three document loaders, the text splitter and `add_documents`;
  - the rename verdict of `shutil.move`;
  - the parsed BeautifulSoup page.
- Logging and the module-level `os.makedirs` calls (`src/utils.py:17-20`) are not modelled. The vault's constructor takes an initial state in which both directories exist.
- Pipeline.ProcessFile: modelled only for paths directly under `unprocessed`, the only paths `process_all_unprocessed_files` passes. Calls on arbitrary paths are not covered.
- Vault.LocalVault.MoveFileToProcessed: same restriction to paths directly under `unprocessed`.
- Vault.LocalVault.MoveFileToProcessed: the path `unprocessed/` itself, whose base name is empty, is excluded. There `shutil.move` would rename the whole `unprocessed` directory into `processed`. `process_file` never reaches that call, because `is_file_processed("")` is always true.
- Vault.LocalVault.MoveFileToProcessed: a move is atomic in the model. A cross-filesystem `shutil.move` that fails halfway is not represented.
- Vault.LocalVault.MoveFileToProcessed: moving onto an existing directory of the same name is modelled only as "the source leaves `unprocessed`". The contents of subdirectories are not modelled.
- Vault.LocalVault.IsFileProcessed: the contract speaks only of plain names and of `""`, `.` and `..`. Names containing `/` reach into subdirectories, which the model does not represent.
- Regular-file status is a flag on each entry. Symbolic links are not modelled separately.
- `load_file` dispatch uses the loaders as abstract functions. The parsing inside PDF, DOCX and text loaders is not modelled.
- `chunk_document`: the splitter's sizes (1500 characters with 250 of overlap) and its splitting strategy are not modelled. The splitter is an abstract function, and no chunk numbering exists in the code.
- `upload_chunks`: only the call and whether it returned normally are recorded. Embeddings and the index contents are not modelled.
- The outer `try`/`except` of `process_file` (`src/utils.py:136-137`) is not modelled: every step it guards already absorbs its own errors.
- `CustomHTMLLoader.__init__`: the `ImportError` raised when BeautifulSoup is missing (`src/html_loader.py:30-36`) is not modelled.
- `CustomHTMLLoader.__init__`: the BeautifulSoup keyword arguments are modelled as a string-to-string map.
- HtmlLoader.CustomHtmlLoader.Load: opening and parsing the file (`src/html_loader.py:47-50`) is replaced by the parsed page, given as a parameter. Errors from `open` and from the parser are not modelled, and neither is the effect of the encoding or of the parser options.
- HtmlLoader.CustomHtmlLoader.Load: the mapping is a sequence of (tag, id) pairs in dictionary iteration order. Python dictionaries never repeat a key; the model does not need that.
- `main.py` (index provisioning, embeddings client, readiness polling) and `_dev/load_main_content.py` are not part of this model.
- The listing is one level deep (`os.listdir`, `src/utils.py:101`), and the move destination is `processed/<basename>` (`src/utils.py:79`). Relative directory structure under `unprocessed` is neither walked nor mirrored.
- The loader dispatch has no `.html` branch (`src/utils.py:28-36`), so HTML files are skipped by `process_file`.
- No `chunk_id` is assigned to chunks anywhere in the code, so none is modelled.
