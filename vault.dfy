/** The two flat directories of `src/utils.py` that record ingestion state: `unprocessed` holds
    files still to handle, `processed` the ones already handled. A file's state is nothing but
    the directory it sits in. */
module Vault {
  import opened Documents
  import opened Paths

  const UNPROCESSED_DIR: string := "_local_vault/unprocessed"
  const PROCESSED_DIR: string := "_local_vault/processed"

  /** One entry of a directory: whether `os.path.isfile` holds of it, and its bytes. */
  datatype Entry = Entry(isFile: bool, content: seq<bv8>)

  /** Both directories, each a map from entry name to entry. */
  datatype VaultState = VaultState(unprocessed: map<string, Entry>, processed: map<string, Entry>)

  /** Every entry name is a plain name: the directories are listed one level deep. */
  ghost predicate WellFormed(s: VaultState)
  {
    (forall n :: n in s.unprocessed ==> PlainName(n)) &&
    (forall n :: n in s.processed ==> PlainName(n))
  }

  /** `os.path.exists(os.path.join(dir, name))` for a slash-free `name`: an entry of the
      directory, or one of the names `""`, `.` and `..`, which resolve to the directory itself or
      to its parent. */
  predicate Exists(dir: map<string, Entry>, name: string)
  {
    name == "" || name == "." || name == ".." || name in dir
  }

  /** A path that `os.path.join(UNPROCESSED_DIR, name)` yields for a slash-free `name`. */
  predicate InUnprocessed(path: string)
  {
    StartsWith(path, UNPROCESSED_DIR + "/") && '/' !in path[|UNPROCESSED_DIR| + 1..]
  }

  /** The paths under `unprocessed` are exactly the joins of slash-free names onto it. */
  lemma InUnprocessedJoin(path: string)
    requires InUnprocessed(path)
    ensures path == Join(UNPROCESSED_DIR, Basename(path))
  {
    var name := path[|UNPROCESSED_DIR| + 1..];
    assert path == UNPROCESSED_DIR + "/" + name;
    assert !StartsWith(name, "/") by {
      if |name| > 0 { assert name[0] in name; }
    }
    assert Join(UNPROCESSED_DIR, name) == path;
    BasenameOfJoin(UNPROCESSED_DIR, name);
  }

  /** Joining a plain name onto `unprocessed` gives a path under it whose base name is that name. */
  lemma JoinInUnprocessed(name: string)
    requires '/' !in name
    ensures InUnprocessed(Join(UNPROCESSED_DIR, name))
    ensures Basename(Join(UNPROCESSED_DIR, name)) == name
  {
    assert !StartsWith(name, "/") by {
      if |name| > 0 { assert name[0] in name; }
    }
    var path := Join(UNPROCESSED_DIR, name);
    assert path == UNPROCESSED_DIR + "/" + name;
    assert path[|UNPROCESSED_DIR| + 1..] == name;
    BasenameOfJoin(UNPROCESSED_DIR, name);
  }

  /** What `get_unprocessed_files` keeps of a listed name: a regular file not starting with `.`. */
  predicate Eligible(dir: map<string, Entry>, name: string)
  {
    name in dir && dir[name].isFile && !StartsWith(name, ".")
  }

  /** The names `get_unprocessed_files` keeps from `listing`, in listing order. */
  function EligibleNames(listing: seq<string>, dir: map<string, Entry>): seq<string>
  {
    if listing == [] then []
    else
      var name := listing[|listing| - 1];
      var rest := EligibleNames(listing[..|listing| - 1], dir);
      if Eligible(dir, name) then rest + [name] else rest
  }

  predicate Distinct(names: seq<string>)
  {
    forall i, j :: 0 <= i < j < |names| ==> names[i] != names[j]
  }

  /** A result `os.listdir` can give for a directory: each entry name exactly once. */
  predicate IsListing(listing: seq<string>, dir: map<string, Entry>)
  {
    Distinct(listing) && (forall n :: n in listing ==> n in dir) && (forall n :: n in dir ==> n in listing)
  }

  /** The kept names are exactly the listed eligible ones, and a listing without repeats keeps
      none twice. */
  lemma {:induction false} EligibleNamesMembers(listing: seq<string>, dir: map<string, Entry>)
    ensures forall n :: n in EligibleNames(listing, dir) <==> n in listing && Eligible(dir, n)
    ensures Distinct(listing) ==> Distinct(EligibleNames(listing, dir))
  {
    if listing != [] {
      var init := listing[..|listing| - 1];
      var name := listing[|listing| - 1];
      assert listing == init + [name];
      EligibleNamesMembers(init, dir);
      if Distinct(listing) {
        assert Distinct(init);
        assert name !in init;
      }
    }
  }

  /** Of a listing of the whole directory, the kept names are exactly the eligible entries. */
  lemma ListingEligible(listing: seq<string>, dir: map<string, Entry>)
    requires IsListing(listing, dir)
    ensures forall n :: n in EligibleNames(listing, dir) <==> Eligible(dir, n)
    ensures Distinct(EligibleNames(listing, dir))
  {
    EligibleNamesMembers(listing, dir);
  }

  /** Filtering keeps no more names than were listed. */
  lemma {:induction false} EligibleNamesLength(listing: seq<string>, dir: map<string, Entry>)
    ensures |EligibleNames(listing, dir)| <= |listing|
  {
    if listing != [] {
      EligibleNamesLength(listing[..|listing| - 1], dir);
    }
  }

  /** Every kept name, position by position, is an eligible entry. */
  lemma {:induction false} EligibleNamesIndexed(listing: seq<string>, dir: map<string, Entry>)
    ensures forall i :: 0 <= i < |EligibleNames(listing, dir)| ==> Eligible(dir, EligibleNames(listing, dir)[i])
  {
    if listing != [] {
      EligibleNamesIndexed(listing[..|listing| - 1], dir);
    }
  }

  /** The state after `shutil.move(source, os.path.join(PROCESSED_DIR, name))`, where `source`
      is the entry `name` of `unprocessed` and `renames` is the operating system's verdict on the
      rename. A missing source or a refused rename changes nothing. A regular file already at the
      destination is replaced, as a POSIX rename does. Moving onto an existing directory puts the
      file inside it, below the level the model records. */
  function AfterMove(s: VaultState, name: string, renames: bool): (r: VaultState)
    ensures !(name in s.unprocessed && renames) ==> r == s
    ensures name in s.unprocessed && renames ==>
      r.unprocessed == s.unprocessed - {name} && Exists(r.processed, name)
    ensures name in s.unprocessed && renames && !(name in s.processed && !s.processed[name].isFile) ==>
      r.processed == s.processed[name := s.unprocessed[name]]
    ensures name in s.unprocessed && renames && name in s.processed && !s.processed[name].isFile ==>
      r.processed == s.processed
  {
    if name !in s.unprocessed || !renames then s
    else if name in s.processed && !s.processed[name].isFile then
      VaultState(s.unprocessed - {name}, s.processed)
    else
      VaultState(s.unprocessed - {name}, s.processed[name := s.unprocessed[name]])
  }

  /** The local vault: both directories, changed in place by moves. */
  class LocalVault {
    var unprocessed: map<string, Entry>
    var processed: map<string, Entry>

    function State(): VaultState
      reads this
    {
      VaultState(unprocessed, processed)
    }

    ghost predicate Valid()
      reads this
    {
      WellFormed(State())
    }

    /** Both directories exist from the start, as the module-level `os.makedirs` calls ensure. */
    constructor (initial: VaultState)
      requires WellFormed(initial)
      ensures Valid() && State() == initial
    {
      unprocessed := initial.unprocessed;
      processed := initial.processed;
    }

    /** `is_file_processed(name)`: whether `processed/<name>` exists. Being a function, it
        changes nothing. */
    function IsFileProcessed(name: string): (r: bool)
      reads this
      ensures PlainName(name) ==> (r <==> name in processed)
      ensures name == "" || name == "." || name == ".." ==> r
    {
      Exists(processed, name)
    }

    /** `get_unprocessed_files`: walks the listing of `unprocessed` once, in order, keeping the
        regular files whose names do not start with `.`, each joined onto the directory. A listing
        that raises (`None`) yields the empty list. */
    method GetUnprocessedFiles(listing: Option<seq<string>>) returns (files: seq<string>)
      ensures listing == None ==> files == []
      ensures listing != None ==>
        var names := EligibleNames(listing.value, unprocessed);
        |files| == |names| && forall i :: 0 <= i < |files| ==> files[i] == Join(UNPROCESSED_DIR, names[i])
    {
      if listing == None {
        return [];
      }
      var listed := listing.value;
      files := [];
      for i := 0 to |listed|
        invariant |files| == |EligibleNames(listed[..i], unprocessed)|
        invariant forall j :: 0 <= j < |files| ==> files[j] == Join(UNPROCESSED_DIR, EligibleNames(listed[..i], unprocessed)[j])
      {
        assert listed[..i + 1][..i] == listed[..i];
        var fileName := listed[i];
        var filePath := Join(UNPROCESSED_DIR, fileName);
        if fileName in unprocessed && unprocessed[fileName].isFile && !StartsWith(fileName, ".") {
          files := files + [filePath];
        }
      }
      assert listed[..|listed|] == listed;
    }

    /** `move_file_to_processed(path)`: moves the file to `processed/<basename>`; a failure is
        swallowed and leaves both directories as they were. */
    method MoveFileToProcessed(path: string, renames: bool)
      requires Valid() && InUnprocessed(path) && Basename(path) != ""
      modifies this
      ensures Valid()
      ensures State() == AfterMove(old(State()), Basename(path), renames)
    {
      var name := Basename(path);
      if name in unprocessed && renames {
        var entry := unprocessed[name];
        if !(name in processed && !processed[name].isFile) {
          processed := processed[name := entry];
        }
        unprocessed := unprocessed - {name};
      }
    }
  }
}
