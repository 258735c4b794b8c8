/** POSIX path handling as `os.path` does it, for the operations the ingestion code uses. */
module Paths {

  predicate StartsWith(s: string, prefix: string)
  {
    |prefix| <= |s| && s[..|prefix|] == prefix
  }

  /** Python's `str.endswith`. */
  predicate EndsWith(s: string, suffix: string)
  {
    |suffix| <= |s| && s[|s| - |suffix|..] == suffix
  }

  /** A name that can be an entry of a directory: not empty, not `.` or `..`, and without `/`. */
  predicate PlainName(name: string)
  {
    name != "" && name != "." && name != ".." && '/' !in name
  }

  /** `os.path.join(dir, name)` on POSIX: an absolute `name` replaces `dir`, and a `/` is
      inserted only when `dir` is non-empty and does not already end with one. */
  function Join(dir: string, name: string): string
  {
    if StartsWith(name, "/") then name
    else if dir == "" || EndsWith(dir, "/") then dir + name
    else dir + "/" + name
  }

  /** `os.path.basename(path)`: the longest suffix of `path` that holds no `/`. */
  function Basename(path: string): (r: string)
    ensures '/' !in r
    ensures EndsWith(path, r)
    ensures |r| < |path| ==> path[|path| - |r| - 1] == '/'
  {
    if path == [] || path[|path| - 1] == '/' then ""
    else Basename(path[..|path| - 1]) + [path[|path| - 1]]
  }

  /** After a `/` (or at the start), a slash-free tail is its own base name. */
  lemma {:induction false} BasenameAfterSlash(prefix: string, name: string)
    requires prefix == "" || prefix[|prefix| - 1] == '/'
    requires '/' !in name
    ensures Basename(prefix + name) == name
  {
    if name == [] {
      assert prefix + name == prefix;
    } else {
      var init := name[..|name| - 1];
      assert (prefix + name)[..|prefix + name| - 1] == prefix + init;
      assert name[|name| - 1] in name;
      BasenameAfterSlash(prefix, init);
      assert init + [name[|name| - 1]] == name;
    }
  }

  /** Joining a slash-free name onto any directory and taking the base name gives the name back. */
  lemma BasenameOfJoin(dir: string, name: string)
    requires '/' !in name
    ensures Basename(Join(dir, name)) == name
  {
    assert !StartsWith(name, "/") by {
      if |name| > 0 { assert name[0] in name; }
    }
    if dir == "" || EndsWith(dir, "/") {
      assert dir == "" || dir[|dir| - 1] == dir[|dir| - 1..][0];
      BasenameAfterSlash(dir, name);
    } else {
      assert dir + "/" + name == (dir + "/") + name;
      BasenameAfterSlash(dir + "/", name);
    }
  }
}
