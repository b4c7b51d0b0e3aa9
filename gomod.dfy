/** The two line-anchored go.mod patterns, scanned by hand:
    `^module\s+(.+)$` (first match) and `^\t([^\s]+)\s+v[\d.]+` (every match),
    both with `re.MULTILINE`. Each scanner works on the rest `s` of the text and a
    flag `bol` saying whether `s` begins at the start of a line, where `^` can match. */
module GoMod {
  import opened Model
  import opened Text

  /** Length of the longest all-whitespace prefix: a greedy `\s+` or `\s*`. */
  function SpaceSpan(s: string): (n: nat)
    ensures n <= |s| && AllSpace(s[..n])
    ensures n == |s| || !IsSpace(s[n])
    decreases |s|
  {
    if s != [] && IsSpace(s[0]) then
      var n := 1 + SpaceSpan(s[1..]);
      assert forall k :: 1 <= k < n ==> s[k] == s[1..][k - 1];
      n
    else 0
  }

  /** Text without whitespace, what `[^\s]+` matches. */
  predicate IsToken(t: string) {
    t != [] && forall k :: 0 <= k < |t| ==> !IsSpace(t[k])
  }

  /** Length of the longest prefix without whitespace: a greedy `[^\s]+`. */
  function TokenSpan(s: string): (n: nat)
    ensures n <= |s|
    ensures forall k :: 0 <= k < n ==> !IsSpace(s[k])
    ensures n == |s| || IsSpace(s[n])
    decreases |s|
  {
    if s != [] && !IsSpace(s[0]) then
      var n := 1 + TokenSpan(s[1..]);
      assert forall k :: 1 <= k < n ==> s[k] == s[1..][k - 1];
      n
    else 0
  }

  predicate IsVersionChar(c: char) { IsDigit(c) || c == '.' }

  /** Length of the longest prefix of digits and dots: a greedy `[\d.]+`. */
  function VersionSpan(s: string): (n: nat)
    ensures n <= |s|
    ensures forall k :: 0 <= k < n ==> IsVersionChar(s[k])
    ensures n == |s| || !IsVersionChar(s[n])
    decreases |s|
  {
    if s != [] && IsVersionChar(s[0]) then
      var n := 1 + VersionSpan(s[1..]);
      assert forall k :: 1 <= k < n ==> s[k] == s[1..][k - 1];
      n
    else 0
  }

  /** Length of the rest of the line: a greedy `.+` or `.*`, which stops before `\n`. */
  function LineSpan(s: string): (n: nat)
    ensures n <= |s| && '\n' !in s[..n]
    ensures n == |s| || s[n] == '\n'
    decreases |s|
  {
    if s != [] && s[0] != '\n' then
      var n := 1 + LineSpan(s[1..]);
      assert s[..n] == [s[0]] + s[1..][..n - 1];
      n
    else 0
  }

  // ---- ^module\s+(.+)$ ----

  /** The largest `k` with `lo <= k <= hi` that can start `.+`: a position before the
      end whose character is not a line break. This is where the backtracking of
      the greedy `\s+` stops. */
  function LastLineStart(s: string, lo: nat, hi: nat): (r: Option<nat>)
    requires hi <= |s|
    ensures r.Some? ==> lo <= r.value <= hi && r.value < |s| && s[r.value] != '\n'
    ensures r.Some? ==> forall k :: r.value < k <= hi && k < |s| ==> s[k] == '\n'
    ensures r.None? ==> forall k :: lo <= k <= hi && k < |s| ==> s[k] == '\n'
    decreases hi
  {
    if hi < lo then None
    else if hi < |s| && s[hi] != '\n' then Some(hi)
    else if hi == 0 then None
    else LastLineStart(s, lo, hi - 1)
  }

  /** The capture of `module\s+(.+)$` matched at the start of `s`, if it matches there. */
  function ModuleAt(s: string): (r: Option<string>)
    ensures r.Some? ==> r.value != [] && '\n' !in r.value
  {
    if |s| > 6 && s[..6] == "module" && IsSpace(s[6]) then
      var q := 6 + SpaceSpan(s[6..]);
      match LastLineStart(s, 7, q)
      case Some(k) =>
        var n := LineSpan(s[k..]);
        assert n > 0 by { assert s[k..][0] == s[k]; }
        Some(s[k..k + n])
      case None => None
    else None
  }

  /** `re.search(r"^module\s+(.+)$", content, re.MULTILINE)`: the first line that matches. */
  function ModuleLine(s: string, bol: bool): (r: Option<string>)
    ensures r.Some? ==> r.value != [] && '\n' !in r.value
    decreases |s|
  {
    if s == [] then None
    else if bol && ModuleAt(s).Some? then ModuleAt(s)
    else ModuleLine(s[1..], s[0] == '\n')
  }

  /** The module name: the last `/`-segment of the module path, else `fallback`. */
  function ModuleName(content: string, fallback: string): (r: string)
    ensures '/' !in r || r == fallback
    ensures ModuleLine(content, true).None? ==> r == fallback
    ensures ModuleLine(content, true).Some? ==> EndsWith(ModuleLine(content, true).value, r)
    ensures ModuleLine(content, true).Some? && '/' !in ModuleLine(content, true).value ==>
      r == ModuleLine(content, true).value
    ensures var m := ModuleLine(content, true);
      m.Some? && |r| < |m.value| ==> m.value[|m.value| - |r| - 1] == '/'
  {
    match ModuleLine(content, true)
    case Some(path) => AfterLastSlash(path)
    case None => fallback
  }

  lemma {:induction false} LineSpanOfLine(line: string, rest: string)
    requires '\n' !in line && (rest == [] || rest[0] == '\n')
    ensures LineSpan(line + rest) == |line|
    decreases |line|
  {
    if line != [] {
      assert (line + rest)[1..] == line[1..] + rest;
      assert line[0] in line;
      LineSpanOfLine(line[1..], rest);
    } else {
      assert line + rest == rest;
    }
  }

  /** A leading `module <path>` line is found, and its path is captured whole. */
  lemma ModuleText(pr: string)
    ensures var s := "module " + pr;
      s[..6] == "module" && s[6] == ' ' && s[6..] == " " + pr && s[7..] == pr
  {
  }

  lemma ModuleLineRoundTrip(path: string, rest: string)
    requires path != [] && '\n' !in path && !IsSpace(path[0])
    requires rest == [] || rest[0] == '\n'
    ensures ModuleLine("module " + path + rest, true) == Some(path)
  {
    var pr := path + rest;
    var s := "module " + pr;
    Assoc("module ", path, rest);
    ModuleText(pr);
    assert pr[0] == path[0];
    assert SpaceSpan(s[6..]) == 1 by {
      assert (" " + pr)[1..] == pr;
    }
    assert LastLineStart(s, 7, 7) == Some(7);
    LineSpanOfLine(path, rest);
    assert s[7..7 + |path|] == pr[..|path|] == path;
  }

  // ---- ^\t([^\s]+)\s+v[\d.]+ ----

  /** One match at the start of `s`: the captured token and the length of the match. */
  function RequireAt(s: string): (r: Option<(string, nat)>)
    ensures r.Some? ==> 4 <= r.value.1 <= |s|
  {
    if s != [] && s[0] == '\t' then
      var t := TokenSpan(s[1..]);
      var w := SpaceSpan(s[1 + t..]);
      var v := 1 + t + w;
      if t > 0 && w > 0 && v < |s| && s[v] == 'v' then
        var d := VersionSpan(s[v + 1..]);
        if d > 0 then Some((s[1..1 + t], v + 1 + d)) else None
      else None
    else None
  }

  /** A match captures a token without whitespace and ends on a version character. */
  lemma RequireAtShape(s: string)
    requires RequireAt(s).Some?
    ensures IsToken(RequireAt(s).value.0) && IsVersionChar(s[RequireAt(s).value.1 - 1])
  {
    var t := TokenSpan(s[1..]);
    var v := 1 + t + SpaceSpan(s[1 + t..]);
    var d := VersionSpan(s[v + 1..]);
    assert forall k :: 0 <= k < t ==> s[1..1 + t][k] == s[1..][k];
    assert s[v + 1..][d - 1] == s[v + d];
  }

  /** `[m.group(1) for m in re.finditer(r"^\t([^\s]+)\s+v[\d.]+", s, re.MULTILINE)]`.
      A match ends on a version character, so no line starts right after it. */
  function Requires(s: string, bol: bool): (r: seq<string>)
    decreases |s|
  {
    if s == [] then []
    else match (if bol then RequireAt(s) else None)
      case Some((tok, n)) => [tok] + Requires(s[n..], false)
      case None => Requires(s[1..], s[0] == '\n')
  }

  /** Every dependency found is a non-empty token without whitespace. */
  lemma {:induction false} RequiresTokens(s: string, bol: bool)
    ensures forall k :: 0 <= k < |Requires(s, bol)| ==> IsToken(Requires(s, bol)[k])
    decreases |s|
  {
    if s != [] {
      match (if bol then RequireAt(s) else None)
      case Some((tok, n)) =>
        RequireAtShape(s);
        RequiresTokens(s[n..], false);
      case None =>
        RequiresTokens(s[1..], s[0] == '\n');
    }
  }

  /** The dependency loop of lines 132-133 (the regex scan and the appends); `rest` is
      the text from the scan position on. */
  method ScanRequires(content: string) returns (deps: seq<string>)
    ensures deps == Requires(content, true)
  {
    deps := [];
    var rest := content;
    var bol := true;
    while rest != []
      invariant deps + Requires(rest, bol) == Requires(content, true)
      decreases |rest|
    {
      var here := if bol then RequireAt(rest) else None;
      match here {
        case Some((tok, n)) =>
          deps := deps + [tok];
          rest := rest[n..];
          bol := false;
        case None =>
          bol := rest[0] == '\n';
          rest := rest[1..];
      }
    }
  }

  /** A `require` line in canonical form: tab, module path, space, `v`, version, then an
      optional comment such as `// indirect`. */
  datatype Require = Require(path: string, version: string, comment: string)

  predicate WellFormedRequire(r: Require) {
    IsToken(r.path) && r.version != [] &&
    (forall k :: 0 <= k < |r.version| ==> IsVersionChar(r.version[k])) &&
    '\n' !in r.comment && (r.comment == [] || !IsVersionChar(r.comment[0]))
  }

  function RequireLine(r: Require): string {
    "\t" + r.path + " v" + r.version + r.comment + "\n"
  }

  function RequireLines(rs: seq<Require>): string
    decreases |rs|
  {
    if rs == [] then "" else RequireLine(rs[0]) + RequireLines(rs[1..])
  }

  function RequirePaths(rs: seq<Require>): seq<string>
    decreases |rs|
  {
    if rs == [] then [] else [rs[0].path] + RequirePaths(rs[1..])
  }

  /** Past a match, the scan lies idle until the next line. */
  lemma {:induction false} RestOfLine(x: string, rest: string)
    requires '\n' !in x
    ensures Requires(x + "\n" + rest, false) == Requires(rest, true)
    decreases |x|
  {
    if x == [] {
      assert x + "\n" + rest == "\n" + rest;
      assert ("\n" + rest)[1..] == rest;
    } else {
      assert (x + "\n" + rest)[1..] == x[1..] + "\n" + rest;
      assert x[0] in x;
      RestOfLine(x[1..], rest);
    }
  }

  /** A line that does not start with a tab contributes nothing. */
  lemma OtherLine(line: string, rest: string)
    requires '\n' !in line && (line == [] || line[0] != '\t')
    ensures Requires(line + "\n" + rest, true) == Requires(rest, true)
  {
    var s := line + "\n" + rest;
    if line == [] {
      assert s == "\n" + rest;
      assert s[1..] == rest;
    } else {
      assert s[1..] == line[1..] + "\n" + rest;
      assert line[0] in line;
      RestOfLine(line[1..], rest);
    }
  }

  lemma {:induction false} TokenSpanAt(u: string, p: nat)
    requires p < |u| && IsSpace(u[p]) && forall k :: 0 <= k < p ==> !IsSpace(u[k])
    ensures TokenSpan(u) == p
    decreases p
  {
    if p > 0 {
      TokenSpanAt(u[1..], p - 1);
    }
  }

  lemma {:induction false} VersionSpanAt(u: string, q: nat)
    requires q < |u| && !IsVersionChar(u[q]) && forall k :: 0 <= k < q ==> IsVersionChar(u[k])
    ensures VersionSpan(u) == q
    decreases q
  {
    if q > 0 {
      VersionSpanAt(u[1..], q - 1);
    }
  }

  /** `RequireAt` read off the characters of its input: a tab, `p` characters other
      than whitespace, a space, `v`, then `q > 0` version characters and one more
      character that is not one. */
  lemma RequireAtChars(s: string, p: nat, q: nat)
    requires 0 < p && 0 < q && 3 + p + q < |s|
    requires s[0] == '\t' && forall k :: 1 <= k < 1 + p ==> !IsSpace(s[k])
    requires s[1 + p] == ' ' && s[2 + p] == 'v'
    requires (forall k :: 3 + p <= k < 3 + p + q ==> IsVersionChar(s[k])) && !IsVersionChar(s[3 + p + q])
    ensures RequireAt(s) == Some((s[1..1 + p], 3 + p + q))
  {
    TokenSpanAt(s[1..], p);
    SpaceBeforeV(s[1 + p..]);
    VersionSpanAt(s[3 + p..], q);
    RequireAtSpans(s, p, q);
  }

  lemma SpaceBeforeV(x: string)
    requires |x| > 1 && x[0] == ' ' && x[1] == 'v'
    ensures SpaceSpan(x) == 1
  {
    assert x[1..][0] == 'v';
  }

  /** `RequireAt` read off the lengths of its three greedy runs. */
  lemma RequireAtSpans(s: string, p: nat, q: nat)
    requires 0 < p && 0 < q && 3 + p + q <= |s| && s[0] == '\t' && s[2 + p] == 'v'
    requires TokenSpan(s[1..]) == p && SpaceSpan(s[1 + p..]) == 1 && VersionSpan(s[3 + p..]) == q
    ensures RequireAt(s) == Some((s[1..1 + p], 3 + p + q))
  {
  }

  /** `s` starts with a tab, `path`, a space, `v` and `version`, and the character
      after the version is not a version character. */
  predicate Spells(s: string, path: string, version: string) {
    var p, q := |path|, |version|;
      3 + p + q < |s| && s[0] == '\t' && (forall k :: 0 <= k < p ==> s[1 + k] == path[k]) &&
      s[1 + p] == ' ' && s[2 + p] == 'v' &&
      (forall k :: 0 <= k < q ==> s[3 + p + k] == version[k]) &&
      !IsVersionChar(s[3 + p + q]) && s[1..1 + p] == path
  }

  /** The characters of a canonical require line followed by more text. */
  lemma RequireLineChars(r: Require, rest: string)
    requires WellFormedRequire(r)
    ensures Spells(RequireLine(r) + rest, r.path, r.version)
  {
    var s := RequireLine(r) + rest;
    RequireLineTail(r, rest);
    assert s[3 + |r.path| + |r.version|] == (r.comment + "\n" + rest)[0];
  }

  /** What follows the version of a require line. */
  lemma RequireLineTail(r: Require, rest: string)
    ensures (RequireLine(r) + rest)[3 + |r.path| + |r.version|..] == r.comment + "\n" + rest
  {
  }

  lemma NoSpaceAt(s: string, t: string, off: nat)
    requires IsToken(t) && off + |t| <= |s| && forall k :: 0 <= k < |t| ==> s[off + k] == t[k]
    ensures forall k :: off <= k < off + |t| ==> !IsSpace(s[k])
  {
    forall k | off <= k < off + |t| ensures !IsSpace(s[k]) {
      assert s[off + (k - off)] == t[k - off];
    }
  }

  lemma VersionCharsAt(s: string, v: string, off: nat)
    requires (forall k :: 0 <= k < |v| ==> IsVersionChar(v[k])) && off + |v| <= |s|
    requires forall k :: 0 <= k < |v| ==> s[off + k] == v[k]
    ensures forall k :: off <= k < off + |v| ==> IsVersionChar(s[k])
  {
    forall k | off <= k < off + |v| ensures IsVersionChar(s[k]) {
      assert s[off + (k - off)] == v[k - off];
    }
  }

  /** `RequireAt` on text that spells out a tab, `path`, a space, `v` and `version`. */
  lemma RequireAtPieces(s: string, r: Require)
    requires WellFormedRequire(r) && Spells(s, r.path, r.version)
    ensures RequireAt(s) == Some((r.path, 3 + |r.path| + |r.version|))
  {
    NoSpaceAt(s, r.path, 1);
    VersionCharsAt(s, r.version, 3 + |r.path|);
    RequireAtChars(s, |r.path|, |r.version|);
  }

  /** The pattern matches a canonical require line at its start, capturing the path. */
  lemma RequireAtLine(r: Require, rest: string)
    requires WellFormedRequire(r)
    ensures RequireAt(RequireLine(r) + rest) == Some((r.path, 3 + |r.path| + |r.version|))
  {
    RequireLineChars(r, rest);
    RequireAtPieces(RequireLine(r) + rest, r);
  }

  /** One canonical require line is matched, and its token is the module path. */
  lemma RequireLineMatches(r: Require, rest: string)
    requires WellFormedRequire(r)
    ensures Requires(RequireLine(r) + rest, true) == [r.path] + Requires(rest, true)
  {
    var s := RequireLine(r) + rest;
    var n := 3 + |r.path| + |r.version|;
    RequireAtLine(r, rest);
    RequiresMatch(s, r.path, n);
    RequireLineTail(r, rest);
    RestOfLine(r.comment, rest);
  }

  /** A match at the start of a line contributes its token, then the scan goes on
      past it. */
  lemma RequiresMatch(s: string, tok: string, n: nat)
    requires RequireAt(s) == Some((tok, n))
    ensures Requires(s, true) == [tok] + Requires(s[n..], false)
  {
  }

  /** A block of canonical require lines yields exactly their module paths, in order. */
  lemma {:induction false} RequireLinesRoundTrip(rs: seq<Require>, rest: string)
    requires forall k :: 0 <= k < |rs| ==> WellFormedRequire(rs[k])
    ensures Requires(RequireLines(rs) + rest, true) == RequirePaths(rs) + Requires(rest, true)
    decreases |rs|
  {
    if rs == [] {
      assert RequireLines(rs) + rest == rest;
    } else {
      var line, lines := RequireLine(rs[0]), RequireLines(rs[1..]);
      Assoc(line, lines, rest);
      RequireLineMatches(rs[0], lines + rest);
      RequireLinesRoundTrip(rs[1..], rest);
      Assoc([rs[0].path], RequirePaths(rs[1..]), Requires(rest, true));
    }
  }
}
