/** Path names, suffixes and the ignore rules of the walk. */
module Paths {
  import opened Text

  /** Directory names whose presence anywhere in a path excludes it. */
  const IgnoreDirs: set<string> := {
    ".git", "node_modules", "vendor", ".idea", ".vscode", "__pycache__", ".pytest_cache",
    "dist", "build", "target", ".next", ".nuxt", "coverage", ".nyc_output"
  }

  /** File names the generic inventory leaves out. */
  const IgnoreFiles: set<string> := {
    ".DS_Store", "Thumbs.db", ".gitignore", ".gitattributes", "package-lock.json",
    "yarn.lock", "go.sum", "Pipfile.lock", "poetry.lock", "composer.lock"
  }

  /** `Path.name`: the last component, or "" for a path with none (the file-system root). */
  function Name(parts: seq<string>): string {
    if parts == [] then "" else parts[|parts| - 1]
  }

  /** `str(path)` of a relative path given by its components. */
  function RelPath(rel: seq<string>): string {
    if rel == [] then "." else Join(rel, "/")
  }

  /** `any(p in path.parts for p in IGNORE_DIRS)` over the full path `root + rel`. */
  predicate Ignored(root: seq<string>, rel: seq<string>) {
    var parts := root + rel;
    exists i :: 0 <= i < |parts| && parts[i] in IgnoreDirs
  }

  /** `s.rfind(".")`: the index of the last dot, or -1. */
  function LastDot(s: string): (i: int)
    ensures -1 <= i < |s|
    ensures i >= 0 ==> s[i] == '.'
    decreases |s|
  {
    if s == [] then -1
    else if s[|s| - 1] == '.' then |s| - 1
    else LastDot(s[..|s| - 1])
  }

  /** No dot follows the one `LastDot` finds. */
  lemma {:induction false} LastDotIsLast(s: string)
    ensures forall k :: LastDot(s) < k < |s| ==> s[k] != '.'
    decreases |s|
  {
    if s != [] && s[|s| - 1] != '.' {
      var t := s[..|s| - 1];
      LastDotIsLast(t);
      forall k | LastDot(s) < k < |s| ensures s[k] != '.' {
        if k < |t| {
          assert s[k] == t[k];
        }
      }
    }
  }

  /** `Path.suffix`: from the last dot on, unless that dot leads or ends the name. */
  function Suffix(name: string): string {
    var i := LastDot(name);
    if 0 < i < |name| - 1 then name[i..] else ""
  }

  /** For an extension such as ".go", the suffix rule and the `*.go` name pattern
      agree on every name except the bare name ".go" itself. */
  lemma SuffixVersusPattern(name: string, ext: string)
    requires |ext| >= 2 && ext[0] == '.' && '.' !in ext[1..]
    ensures Suffix(name) == ext <==> EndsWith(name, ext) && |name| > |ext|
  {
    var i := LastDot(name);
    LastDotIsLast(name);
    if EndsWith(name, ext) && |name| > |ext| {
      var p := |name| - |ext|;
      assert name[p] == ext[0];
      forall k | p < k < |name| ensures name[k] != '.' {
        assert name[k] == ext[1..][k - p - 1];
      }
      assert i == p;
    }
    if Suffix(name) == ext {
      assert 0 < i < |name| - 1;
    }
  }
}
