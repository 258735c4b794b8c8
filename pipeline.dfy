/** The orchestration in `src/utils.py`: `process_file` runs one file through loading, chunking,
    upload and the move to `processed`; `process_all_unprocessed_files` lists `unprocessed` once
    and runs `process_file` on every listed path in order. */
module Pipeline {
  import opened Documents
  import opened Paths
  import opened Loading
  import opened Vault

  /** The foreign calls a run makes: the loaders, the splitter, the store's verdict on a batch
      (true when `add_documents` returns normally) and the operating system's verdict on renaming
      a source path into `processed`. */
  datatype Environment = Environment(
    extract: Extractor,
    split: Splitter,
    accepts: seq<Document> -> bool,
    renames: string -> bool)

  /** The chunks `process_file` uploads for `path`: empty when loading yields no documents (the
      splitter is then not called) or when chunking yields none. */
  function ChunksFor(path: string, env: Environment): seq<Document>
  {
    var docs := LoadedDocuments(path, env.extract);
    if docs == [] then [] else ChunkDocument(docs, env.split)
  }

  /** What `process_file` decides about each entry name of `unprocessed`, read off the foreign
      calls: the chunks it would upload for the file, the store's verdict on a batch, and whether
      renaming the file into `processed` succeeds. */
  datatype Plan = Plan(
    chunks: string -> seq<Document>,
    accepts: seq<Document> -> bool,
    renames: string -> bool)

  /** The plan a run under `env` follows: entry `name` is loaded and renamed through the path
      `os.path.join(UNPROCESSED_DIR, name)`. */
  function PlanOf(env: Environment): Plan
  {
    Plan(
      name => ChunksFor(Join(UNPROCESSED_DIR, name), env),
      env.accepts,
      name => env.renames(Join(UNPROCESSED_DIR, name)))
  }

  /** For a path under `unprocessed`, the plan for its base name is what `process_file` computes
      from the path itself. */
  lemma PlanOfPath(path: string, env: Environment)
    requires InUnprocessed(path)
    ensures PlanOf(env).chunks(Basename(path)) == ChunksFor(path, env)
    ensures PlanOf(env).renames(Basename(path)) == env.renames(path)
  {
    InUnprocessedJoin(path);
  }

  /** Whether `process_file` takes the entry `name` out of `unprocessed`: it is there, no
      `processed/<name>` exists yet, it yields chunks, and the rename succeeds. */
  predicate Moves(s: VaultState, name: string, plan: Plan)
  {
    name in s.unprocessed && !Exists(s.processed, name) && plan.chunks(name) != [] && plan.renames(name)
  }

  /** `s` with the entry `name` moved from `unprocessed` to `processed`. */
  function Relocated(s: VaultState, name: string): VaultState
    requires name in s.unprocessed
  {
    VaultState(s.unprocessed - {name}, s.processed[name := s.unprocessed[name]])
  }

  /** One call of `process_file` on the file named `name`: the new vault and the uploads it made.
      A file already in `processed` or yielding no chunks is left alone without an upload;
      otherwise its chunks are handed over exactly once, and it moves if the rename succeeds. */
  function Step(s: VaultState, name: string, plan: Plan): (r: (VaultState, seq<Upload>))
    ensures |r.1| <= 1
    ensures r.1 == [] <==> Exists(s.processed, name) || plan.chunks(name) == []
    ensures r.1 != [] ==> r.1[0] == Upload(plan.chunks(name), plan.accepts(plan.chunks(name)))
    ensures r.0 == if Moves(s, name, plan) then Relocated(s, name) else s
    ensures WellFormed(s) ==> WellFormed(r.0)
  {
    if Exists(s.processed, name) then (s, [])
    else
      var chunks := plan.chunks(name);
      if chunks == [] then (s, [])
      else (AfterMove(s, name, plan.renames(name)), [Upload(chunks, plan.accepts(chunks))])
  }

  /** After a step that uploads and whose rename succeeds, `is_file_processed` holds of the name. */
  lemma MovedIsProcessed(s: VaultState, name: string, plan: Plan)
    requires name in s.unprocessed && Step(s, name, plan).1 != [] && plan.renames(name)
    ensures Exists(Step(s, name, plan).0.processed, name)
    ensures name !in Step(s, name, plan).0.unprocessed
  {
    assert Moves(s, name, plan);
  }

  /** The move is attempted whatever the store answers: the vault after a step does not depend on
      whether the upload was accepted. */
  lemma MoveIgnoresUploadOutcome(s: VaultState, name: string, plan: Plan, accepts: seq<Document> -> bool)
    ensures Step(s, name, plan).0 == Step(s, name, plan.(accepts := accepts)).0
    ensures |Step(s, name, plan).1| == |Step(s, name, plan.(accepts := accepts)).1|
  {
    assert Moves(s, name, plan) == Moves(s, name, plan.(accepts := accepts));
  }

  /** A sweep over `names` in order: every name gets its `Step`, on the vault the earlier ones
      left. */
  function Sweep(s: VaultState, names: seq<string>, plan: Plan): (r: (VaultState, seq<Upload>))
    ensures |r.1| <= |names|
    ensures WellFormed(s) ==> WellFormed(r.0)
  {
    if names == [] then (s, [])
    else
      var before := Sweep(s, names[..|names| - 1], plan);
      var last := Step(before.0, names[|names| - 1], plan);
      (last.0, before.1 + last.1)
  }

  /** What `process_all_unprocessed_files` does to the vault, given the listing of `unprocessed`
      (`None` when listing raises). */
  function SweepListed(s: VaultState, listing: Option<seq<string>>, env: Environment): (r: (VaultState, seq<Upload>))
    ensures listing == None ==> r == (s, [])
    ensures WellFormed(s) ==> WellFormed(r.0)
    ensures listing != None ==> |r.1| <= |listing.value|
  {
    match listing
    case None => (s, [])
    case Some(names) =>
      EligibleNamesLength(names, s.unprocessed);
      Sweep(s, EligibleNames(names, s.unprocessed), PlanOf(env))
  }

  /** `process_file`: skips a file whose base name is already in `processed`, or that loads no
      documents, or that yields no chunks; otherwise uploads the chunks once and then attempts the
      move, whatever the upload's outcome. No step raises. */
  method ProcessFile(vault: LocalVault, path: string, store: VectorStore, env: Environment)
    requires vault.Valid() && InUnprocessed(path)
    modifies vault, store
    ensures vault.Valid()
    ensures vault.State() == Step(old(vault.State()), Basename(path), PlanOf(env)).0
    ensures store.log == old(store.log) + Step(old(vault.State()), Basename(path), PlanOf(env)).1
  {
    PlanOfPath(path, env);
    var fileName := Basename(path);
    if vault.IsFileProcessed(fileName) {
      return;
    }
    var documents := LoadFile(path, env.extract);
    if documents == [] {
      return;
    }
    var chunks := ChunkDocument(documents, env.split);
    if chunks == [] {
      return;
    }
    UploadChunks(chunks, store, env.accepts);
    vault.MoveFileToProcessed(path, env.renames(path));
  }

  /** `process_all_unprocessed_files`: lists `unprocessed` once, then calls `process_file` on each
      listed path in order; no file stops the loop. */
  method ProcessAllUnprocessedFiles(vault: LocalVault, store: VectorStore, listing: Option<seq<string>>, env: Environment)
    requires vault.Valid()
    modifies vault, store
    ensures vault.Valid()
    ensures vault.State() == SweepListed(old(vault.State()), listing, env).0
    ensures store.log == old(store.log) + SweepListed(old(vault.State()), listing, env).1
  {
    ghost var s0 := vault.State();
    ghost var log0 := store.log;
    ghost var plan := PlanOf(env);
    ghost var names := if listing == None then [] else EligibleNames(listing.value, s0.unprocessed);
    var files := vault.GetUnprocessedFiles(listing);
    if listing != None {
      EligibleNamesIndexed(listing.value, s0.unprocessed);
    }
    assert |files| == |names|;
    for i := 0 to |files|
      invariant vault.Valid()
      invariant vault.State() == Sweep(s0, names[..i], plan).0
      invariant store.log == log0 + Sweep(s0, names[..i], plan).1
    {
      assert files[i] == Join(UNPROCESSED_DIR, names[i]);
      assert names[i] in s0.unprocessed;
      JoinInUnprocessed(names[i]);
      SweepSnoc(s0, names, i, plan);
      ghost var before := Sweep(s0, names[..i], plan);
      ProcessFile(vault, files[i], store, env);
      AppendAssoc(log0, before.1, Step(before.0, names[i], plan).1);
    }
    assert names[..|files|] == names;
  }

  /** Sweeping one more name is one more `Step` on the vault the shorter sweep left. */
  lemma SweepSnoc(s: VaultState, names: seq<string>, i: nat, plan: Plan)
    requires i < |names|
    ensures var before := Sweep(s, names[..i], plan);
      var last := Step(before.0, names[i], plan);
      Sweep(s, names[..i + 1], plan) == (last.0, before.1 + last.1)
  {
    assert names[..i + 1][..i] == names[..i];
  }

  lemma AppendAssoc<T>(a: seq<T>, b: seq<T>, c: seq<T>)
    ensures a + b + c == a + (b + c)
  {
  }

  /** `a` and `b` hold the same entry `k` (or lack it) in both directories. */
  ghost predicate Agree(a: VaultState, b: VaultState, k: string)
  {
    (k in a.unprocessed <==> k in b.unprocessed) &&
    (k in a.unprocessed ==> a.unprocessed[k] == b.unprocessed[k]) &&
    (k in a.processed <==> k in b.processed) &&
    (k in a.processed ==> a.processed[k] == b.processed[k])
  }

  /** After sweeping `names` from `s` to `r`, entry `k` has moved to `processed` with its content
      if it was swept and `process_file` moves it from `s`; otherwise it is as in `s`. */
  ghost predicate SweptAt(s: VaultState, r: VaultState, k: string, names: seq<string>, plan: Plan)
  {
    if k in names && Moves(s, k, plan) then
      k !in r.unprocessed && k in r.processed && r.processed[k] == s.unprocessed[k]
    else
      Agree(s, r, k)
  }

  /** A sweep over distinct names treats every file as if it were alone: each entry ends as one
      `process_file` on the initial vault would leave it. */
  lemma {:induction false} SweepEffect(s: VaultState, names: seq<string>, plan: Plan)
    requires Distinct(names)
    ensures forall k :: SweptAt(s, Sweep(s, names, plan).0, k, names, plan)
  {
    if names != [] {
      var init := names[..|names| - 1];
      var n := names[|names| - 1];
      assert names == init + [n];
      assert Distinct(init);
      SweepEffect(s, init, plan);
      var mid := Sweep(s, init, plan).0;
      var r := Sweep(s, names, plan).0;
      assert r == Step(mid, n, plan).0;
      assert n !in init;
      assert SweptAt(s, mid, n, init, plan);
      assert Moves(mid, n, plan) == Moves(s, n, plan);
      forall k
        ensures SweptAt(s, r, k, names, plan)
      {
        assert SweptAt(s, mid, k, init, plan);
      }
    }
  }

  /** The uploads each file would make on its own, against the initial vault. */
  function IsolatedUploads(s: VaultState, names: seq<string>, plan: Plan): seq<Upload>
  {
    if names == [] then []
    else IsolatedUploads(s, names[..|names| - 1], plan) + Step(s, names[|names| - 1], plan).1
  }

  /** Isolation: the uploads of a sweep over distinct names are, in order, exactly the uploads
      each file would make if it were processed alone on the initial vault. */
  lemma {:induction false} SweepUploads(s: VaultState, names: seq<string>, plan: Plan)
    requires Distinct(names)
    ensures Sweep(s, names, plan).1 == IsolatedUploads(s, names, plan)
  {
    if names != [] {
      var init := names[..|names| - 1];
      var n := names[|names| - 1];
      assert names == init + [n];
      assert Distinct(init);
      SweepUploads(s, init, plan);
      SweepEffect(s, init, plan);
      var mid := Sweep(s, init, plan).0;
      assert n !in init;
      assert SweptAt(s, mid, n, init, plan);
      assert Exists(mid.processed, n) == Exists(s.processed, n);
      assert Step(mid, n, plan).1 == Step(s, n, plan).1;
    }
  }

  /** A sweep over names none of which `process_file` acts on changes nothing and uploads nothing. */
  lemma {:induction false} SweepNoop(s: VaultState, names: seq<string>, plan: Plan)
    requires forall n :: n in names ==> Step(s, n, plan) == (s, [])
    ensures Sweep(s, names, plan) == (s, [])
  {
    if names != [] {
      SweepNoop(s, names[..|names| - 1], plan);
      assert names[|names| - 1] in names;
    }
  }

  /** Exhaustiveness: after one sweep, every listed regular file that was not yet processed and
      yields chunks, and whose rename succeeds, sits in `processed` with its content and no longer
      in `unprocessed`; every other entry of either directory is as it was. */
  lemma SweepExhaustive(s: VaultState, listing: seq<string>, env: Environment)
    requires IsListing(listing, s.unprocessed)
    ensures forall n :: Eligible(s.unprocessed, n) && Moves(s, n, PlanOf(env)) ==>
      var r := SweepListed(s, Some(listing), env).0;
      n !in r.unprocessed && n in r.processed && r.processed[n] == s.unprocessed[n]
    ensures forall n :: !(Eligible(s.unprocessed, n) && Moves(s, n, PlanOf(env))) ==>
      Agree(s, SweepListed(s, Some(listing), env).0, n)
  {
    var plan := PlanOf(env);
    var names := EligibleNames(listing, s.unprocessed);
    ListingEligible(listing, s.unprocessed);
    SweepEffect(s, names, plan);
    var r := SweepListed(s, Some(listing), env).0;
    assert r == Sweep(s, names, plan).0;
    forall n | Eligible(s.unprocessed, n) && Moves(s, n, plan)
      ensures n !in r.unprocessed && n in r.processed && r.processed[n] == s.unprocessed[n]
    {
      assert SweptAt(s, r, n, names, plan);
    }
    forall n | !(Eligible(s.unprocessed, n) && Moves(s, n, plan))
      ensures Agree(s, r, n)
    {
      assert SweptAt(s, r, n, names, plan);
    }
  }

  /** Idempotence: when every rename succeeds, sweeping a second time, on whatever listing of what
      the first sweep left, uploads nothing and moves nothing. */
  lemma SweepIdempotent(s: VaultState, first: seq<string>, second: seq<string>, env: Environment)
    requires IsListing(first, s.unprocessed)
    requires forall n :: n in s.unprocessed ==> env.renames(Join(UNPROCESSED_DIR, n))
    requires IsListing(second, SweepListed(s, Some(first), env).0.unprocessed)
    ensures SweepListed(SweepListed(s, Some(first), env).0, Some(second), env) ==
      (SweepListed(s, Some(first), env).0, [])
  {
    var plan := PlanOf(env);
    var s1 := SweepListed(s, Some(first), env).0;
    SweepExhaustive(s, first, env);
    var names := EligibleNames(second, s1.unprocessed);
    EligibleNamesMembers(second, s1.unprocessed);
    forall n | n in names
      ensures Step(s1, n, plan) == (s1, [])
    {
      assert Eligible(s1.unprocessed, n);
      assert Agree(s, s1, n);
      assert plan.renames(n);
      assert !Moves(s, n, plan);
    }
    SweepNoop(s1, names, plan);
  }

  /** The price of moving regardless of the upload: a file whose rename fails after its chunks were
      handed over stays in `unprocessed`, and processing it again hands the same chunks over again. */
  lemma ReuploadAfterFailedMove(s: VaultState, name: string, plan: Plan)
    requires Step(s, name, plan).1 != [] && !plan.renames(name)
    ensures Step(s, name, plan).0 == s
    ensures Step(Step(s, name, plan).0, name, plan) == Step(s, name, plan)
  {
  }
}
