/** Language detection: marker files at the root first, then an extension count. */
module Detect {
  import opened Model
  import opened Text
  import opened Paths

  /** A marker: an exact file name, or `*` followed by a suffix (a glob at the root). */
  datatype Pattern = Exact(name: string) | Glob(suffix: string)

  /** The ordered marker table. */
  const Indicators: seq<(Lang, seq<Pattern>)> := [
    (Go, [Exact("go.mod"), Exact("go.sum")]),
    (Python, [Exact("pyproject.toml"), Exact("setup.py"), Exact("requirements.txt"), Exact("Pipfile")]),
    (JavaScript, [Exact("package.json")]),
    (TypeScript, [Exact("tsconfig.json")]),
    (Php, [Exact("composer.json")]),
    (Swift, [Exact("Package.swift"), Glob(".xcodeproj")])
  ]

  /** Some name directly under the root matches the glob `*` + `suffix`. */
  predicate GlobHit(top: set<string>, suffix: string) {
    exists n :: n in top && EndsWith(n, suffix)
  }

  /** The scan over one language's patterns. Only an exact-name hit of the
      JavaScript marker is upgraded to TypeScript when tsconfig.json exists. */
  function ScanPatterns(top: set<string>, lang: Lang, pats: seq<Pattern>): Option<Lang>
    decreases |pats|
  {
    if pats == [] then None
    else match pats[0]
      case Glob(sfx) =>
        if GlobHit(top, sfx) then Some(lang) else ScanPatterns(top, lang, pats[1..])
      case Exact(n) =>
        if n in top then
          Some(if lang == JavaScript && "tsconfig.json" in top then TypeScript else lang)
        else ScanPatterns(top, lang, pats[1..])
  }

  /** The outer scan over the table, in order; the first language with a hit wins. */
  function ScanTable(top: set<string>, table: seq<(Lang, seq<Pattern>)>): Option<Lang>
    decreases |table|
  {
    if table == [] then None
    else match ScanPatterns(top, table[0].0, table[0].1)
      case Some(l) => Some(l)
      case None => ScanTable(top, table[1..])
  }

  function MarkerLanguage(top: set<string>): Option<Lang> {
    ScanTable(top, Indicators)
  }

  predicate GoMarker(top: set<string>) { "go.mod" in top || "go.sum" in top }

  predicate PythonMarker(top: set<string>) {
    "pyproject.toml" in top || "setup.py" in top || "requirements.txt" in top || "Pipfile" in top
  }

  predicate SwiftMarker(top: set<string>) { "Package.swift" in top || GlobHit(top, ".xcodeproj") }

  /** The table scan is the priority chain go, python, javascript (upgraded to
      typescript when tsconfig.json is present), typescript, php, swift. */
  lemma MarkerPriority(top: set<string>)
    ensures MarkerLanguage(top) ==
      if GoMarker(top) then Some(Go)
      else if PythonMarker(top) then Some(Python)
      else if "package.json" in top then Some(if "tsconfig.json" in top then TypeScript else JavaScript)
      else if "tsconfig.json" in top then Some(TypeScript)
      else if "composer.json" in top then Some(Php)
      else if SwiftMarker(top) then Some(Swift)
      else None
  {
    var t := Indicators;
    assert t[1..] == Indicators[1..];
    assert t[1..][1..] == t[2..];
    assert t[2..][1..] == t[3..];
    assert t[3..][1..] == t[4..];
    assert t[4..][1..] == t[5..];
    assert t[5..][1..] == [];
    var py := t[1].1;
    assert py[1..][1..] == py[2..] && py[2..][1..] == py[3..] && py[3..][1..] == [];
    var sw := t[5].1;
    assert sw[1..][1..] == [];
  }

  /** package.json together with tsconfig.json gives typescript, unless a go or python marker comes first. */
  lemma TypeScriptUpgrade(top: set<string>)
    requires "package.json" in top && "tsconfig.json" in top
    requires !GoMarker(top) && !PythonMarker(top)
    ensures MarkerLanguage(top) == Some(TypeScript)
  {
    MarkerPriority(top);
  }

  /** typescript comes out of the markers exactly when tsconfig.json exists and no go or python marker does. */
  lemma TypeScriptExactly(top: set<string>)
    ensures MarkerLanguage(top) == Some(TypeScript) <==> "tsconfig.json" in top && !GoMarker(top) && !PythonMarker(top)
  {
    MarkerPriority(top);
  }

  /** A glob hit never takes the TypeScript upgrade, whatever else exists. */
  lemma GlobHitNotUpgraded(top: set<string>, lang: Lang, sfx: string, rest: seq<Pattern>)
    requires GlobHit(top, sfx)
    ensures ScanPatterns(top, lang, [Glob(sfx)] + rest) == Some(lang)
  {
  }

  // ---- The extension-count fallback ----

  /** `ext_map`. */
  function ExtLang(suffix: string): Option<Lang> {
    if suffix == ".go" then Some(Go)
    else if suffix == ".py" then Some(Python)
    else if suffix == ".js" then Some(JavaScript)
    else if suffix == ".ts" then Some(TypeScript)
    else if suffix == ".php" then Some(Php)
    else if suffix == ".swift" then Some(Swift)
    else None
  }

  /** The language a walk entry counts for: a file whose suffix is in `ext_map`. */
  function FileLang(e: Entry): Option<Lang> {
    if e.isFile then ExtLang(Suffix(Name(e.rel))) else None
  }

  /** What each walk entry counts for, entry by entry; the counting below works on
      this sequence so that its proofs never look inside a file name. */
  function Tags(w: seq<Entry>): seq<Option<Lang>> {
    Apply(FileLang, w)
  }

  lemma TagsAt(w: seq<Entry>, k: nat)
    requires k < |w|
    ensures |Tags(w)| == |w| && Tags(w)[k] == FileLang(w[k])
  {
    ApplyAt(FileLang, w, k);
  }

  /** How many entries count for `l`. */
  function Count(ts: seq<Option<Lang>>, l: Lang): nat
    decreases |ts|
  {
    if ts == [] then 0
    else Count(ts[..|ts| - 1], l) + (if ts[|ts| - 1] == Some(l) then 1 else 0)
  }

  /** The languages in the order in which each is first counted
      (the insertion order of the `ext_count` dictionary). */
  function Seen(ts: seq<Option<Lang>>): seq<Lang>
    decreases |ts|
  {
    if ts == [] then []
    else
      var s := Seen(ts[..|ts| - 1]);
      match ts[|ts| - 1]
      case Some(l) => if l in s then s else s + [l]
      case None => s
  }

  /** The final contents of `ext_count`. */
  function CountMap(ts: seq<Option<Lang>>): map<Lang, nat> {
    map l | l in Seen(ts) :: Count(ts, l)
  }

  /** The position of the first entry that counts for `l`. */
  function FirstIndex(ts: seq<Option<Lang>>, l: Lang): (i: nat)
    requires Count(ts, l) > 0
    ensures i < |ts| && ts[i] == Some(l)
    ensures forall k :: 0 <= k < i ==> ts[k] != Some(l)
    decreases |ts|
  {
    var n := |ts| - 1;
    if Count(ts[..n], l) > 0 then
      var i := FirstIndex(ts[..n], l);
      assert forall k :: 0 <= k < i ==> ts[..n][k] == ts[k];
      i
    else
      NoneCounted(ts[..n], l);
      assert forall k :: 0 <= k < n ==> ts[..n][k] == ts[k];
      n
  }

  /** An entry that counts for `l` makes the count of `l` positive. */
  lemma {:induction false} CountedAt(ts: seq<Option<Lang>>, k: nat, l: Lang)
    requires k < |ts|
    ensures ts[k] == Some(l) ==> Count(ts, l) > 0
    decreases |ts|
  {
    var n := |ts| - 1;
    if k < n {
      assert ts[..n][k] == ts[k];
      CountedAt(ts[..n], k, l);
    }
  }

  /** A language with count zero has no entry counting for it. */
  lemma NoneCounted(ts: seq<Option<Lang>>, l: Lang)
    requires Count(ts, l) == 0
    ensures forall k :: 0 <= k < |ts| ==> ts[k] != Some(l)
  {
    forall k | 0 <= k < |ts| ensures ts[k] != Some(l) {
      CountedAt(ts, k, l);
    }
  }

  /** `max(ext_count, key=ext_count.get)`: the first key, in iteration order, with the largest count. */
  function FirstMaxIndex(keys: seq<Lang>, m: map<Lang, nat>): (i: nat)
    requires keys != []
    requires forall k :: k in keys ==> k in m
    ensures i < |keys|
    ensures forall j :: 0 <= j < |keys| ==> m[keys[j]] <= m[keys[i]]
    ensures forall j :: 0 <= j < i ==> m[keys[j]] < m[keys[i]]
    decreases |keys|
  {
    if |keys| == 1 then 0
    else
      var b := 1 + FirstMaxIndex(keys[1..], m);
      if m[keys[b]] > m[keys[0]] then b else 0
  }

  /** What the fallback returns. */
  function Fallback(ts: seq<Option<Lang>>): Lang {
    var order := Seen(ts);
    if order == [] then Unknown
    else
      SeenCounted(ts);
      order[FirstMaxIndex(order, CountMap(ts))]
  }

  /** `detect_language`. */
  function Detected(top: set<string>, walk: seq<Entry>): Lang {
    match MarkerLanguage(top)
    case Some(l) => l
    case None => Fallback(Tags(walk))
  }

  lemma {:induction false} SeenCounted(ts: seq<Option<Lang>>)
    ensures forall l :: l in Seen(ts) <==> Count(ts, l) > 0
    decreases |ts|
  {
    if ts != [] {
      SeenCounted(ts[..|ts| - 1]);
    }
  }

  /** Seen lists languages in increasing order of their first counted entry. */
  lemma {:induction false} SeenOrdered(ts: seq<Option<Lang>>, i: nat, j: nat)
    requires i < j < |Seen(ts)|
    ensures Count(ts, Seen(ts)[i]) > 0 && Count(ts, Seen(ts)[j]) > 0
    ensures FirstIndex(ts, Seen(ts)[i]) < FirstIndex(ts, Seen(ts)[j])
    decreases |ts|
  {
    SeenCounted(ts);
    assert Seen(ts)[i] in Seen(ts) && Seen(ts)[j] in Seen(ts);
    var n := |ts| - 1;
    var ts' := ts[..n];
    var s' := Seen(ts');
    SeenCounted(ts');
    if j < |s'| {
      assert Seen(ts)[i] == s'[i] && Seen(ts)[j] == s'[j];
      assert s'[i] in s' && s'[j] in s';
      SeenOrdered(ts', i, j);
    } else {
      assert Seen(ts)[i] == s'[i];
      assert s'[i] in s';
      assert Seen(ts)[j] !in s';
      assert FirstIndex(ts, Seen(ts)[j]) == n;
    }
  }

  /** The fallback's result has a count at least that of every other language. */
  lemma FallbackIsMaximal(ts: seq<Option<Lang>>, l: Lang)
    requires Fallback(ts) != Unknown
    ensures Count(ts, l) <= Count(ts, Fallback(ts))
  {
    SeenCounted(ts);
    var order := Seen(ts);
    var i := FirstMaxIndex(order, CountMap(ts));
    if l in order {
      var j :| 0 <= j < |order| && order[j] == l;
    }
  }

  /** On a tie the winner is the language whose first file comes earlier in the walk. */
  lemma FallbackTieBreak(ts: seq<Option<Lang>>, l: Lang)
    requires Fallback(ts) != Unknown && l != Fallback(ts)
    requires Count(ts, l) == Count(ts, Fallback(ts))
    ensures Count(ts, Fallback(ts)) > 0 && Count(ts, l) > 0
    ensures FirstIndex(ts, Fallback(ts)) < FirstIndex(ts, l)
  {
    SeenCounted(ts);
    var order := Seen(ts);
    var m := CountMap(ts);
    var i := FirstMaxIndex(order, m);
    assert order[i] in order;
    var j :| 0 <= j < |order| && order[j] == l;
    assert m[order[j]] == m[order[i]];
    FirstMaxFirst(order, m, j);
    SeenOrdered(ts, i, j);
  }

  lemma FirstMaxFirst(keys: seq<Lang>, m: map<Lang, nat>, j: nat)
    requires keys != [] && forall k :: k in keys ==> k in m
    requires j < |keys| && keys[j] != keys[FirstMaxIndex(keys, m)]
    requires m[keys[j]] == m[keys[FirstMaxIndex(keys, m)]]
    ensures FirstMaxIndex(keys, m) < j
  {
  }

  /** The fallback says unknown exactly when no file has a suffix in `ext_map`. */
  lemma FallbackUnknown(w: seq<Entry>)
    ensures Fallback(Tags(w)) == Unknown <==> forall k :: 0 <= k < |w| ==> FileLang(w[k]).None?
  {
    var ts := Tags(w);
    SeenCounted(ts);
    if Seen(ts) == [] {
      forall k | 0 <= k < |w| ensures FileLang(w[k]).None? {
        TagsAt(w, k);
        if ts[k].Some? {
          var l := ts[k].value;
          assert l !in Seen(ts);
          NoneCounted(ts, l);
        }
      }
    } else {
      var l := Seen(ts)[0];
      assert l in Seen(ts);
      var k := FirstIndex(ts, l);
      TagsAt(w, k);
      assert Fallback(ts) != Unknown by {
        assert Fallback(ts) in Seen(ts);
        UnknownNeverCounted(w);
      }
    }
  }

  /** No file counts for unknown, so it is never a key of `ext_count`. */
  lemma UnknownNeverCounted(w: seq<Entry>)
    ensures Unknown !in Seen(Tags(w))
  {
    var ts := Tags(w);
    SeenCounted(ts);
    if Count(ts, Unknown) > 0 {
      var k := FirstIndex(ts, Unknown);
      TagsAt(w, k);
    }
  }

  /** When a marker is present the walk is never consulted. */
  lemma MarkersOverrideCounts(top: set<string>, w1: seq<Entry>, w2: seq<Entry>)
    requires MarkerLanguage(top).Some?
    ensures Detected(top, w1) == Detected(top, w2) == MarkerLanguage(top).value
  {
  }

  /** One more walk entry extends the counts and the first-seen order by that entry alone. */
  lemma CountStep(ts: seq<Option<Lang>>, t: Option<Lang>)
    ensures Seen(ts + [t]) == match t
      case Some(l) => if l in Seen(ts) then Seen(ts) else Seen(ts) + [l]
      case None => Seen(ts)
    ensures forall l :: Count(ts + [t], l) == Count(ts, l) + (if t == Some(l) then 1 else 0)
  {
    assert (ts + [t])[..|ts|] == ts;
  }

  /** The loop of lines 112-115 that fills `ext_count`. */
  method CountExtensions(walk: seq<Entry>) returns (counts: map<Lang, nat>, order: seq<Lang>)
    ensures order == Seen(Tags(walk))
    ensures counts == CountMap(Tags(walk))
  {
    // ext_count: its values in `counts`, its key insertion order in `order`.
    counts, order := map[], [];
    var i := 0;
    while i < |walk|
      invariant 0 <= i <= |walk|
      invariant order == Seen(Tags(walk[..i]))
      invariant forall l :: l in counts <==> l in order
      invariant forall l :: l in counts ==> counts[l] == Count(Tags(walk[..i]), l)
    {
      ghost var ts, t := Tags(walk[..i]), FileLang(walk[i]);
      assert walk[..i + 1][..i] == walk[..i];
      assert Tags(walk[..i + 1]) == ts + [t];
      CountStep(ts, t);
      SeenCounted(ts);
      var e := walk[i];
      var ext := ExtLang(Suffix(Name(e.rel)));
      assert t == if e.isFile then ext else None;
      if e.isFile && ext.Some? {
        var l := ext.value;
        if l !in counts {
          order := order + [l];
        }
        counts := counts[l := (if l in counts then counts[l] else 0) + 1];
      }
      assert order == Seen(ts + [t]);
      i := i + 1;
    }
    assert walk[..i] == walk;
  }

  /** `detect_language`: the marker scan, then the extension count, then the
      first most frequent language. */
  method DetectLanguage(top: set<string>, walk: seq<Entry>) returns (lang: Lang)
    ensures lang == Detected(top, walk)
  {
    var marker := MarkerLanguage(top);
    if marker.Some? {
      return marker.value;
    }
    var counts, order := CountExtensions(walk);
    if counts == map[] {
      lang := Unknown;
    } else {
      assert order != [] by {
        var l :| l in counts;
      }
      lang := order[FirstMaxIndex(order, counts)];
    }
  }
}
