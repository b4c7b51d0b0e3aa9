/** The three ecosystem extractors: the manifest step, then one pass over the
    files the `rglob` pattern yields, appending to the analysis record. */
module Extract {
  import opened Model
  import opened Text
  import opened Paths
  import opened Entities
  import opened GoMod

  datatype Scanner = GoScanner | PythonScanner | JsScanner(typescript: bool)

  /** What an extractor gives back: the filled-in record, or the exception a
      manifest read let escape (named by the manifest's file name). */
  datatype Extraction = Extracted(analysis: ProjectAnalysis) | Uncaught(file: string)

  /** The extension of the `rglob` pattern: `*.go`, `*.py`, and `*.ts` or `*.js`. */
  function Extension(sc: Scanner): string {
    match sc
    case GoScanner => ".go"
    case PythonScanner => ".py"
    case JsScanner(ts) => if ts then ".ts" else ".js"
  }

  /** The name tests each extractor applies after the ignore rule. */
  predicate Excluded(sc: Scanner, name: string) {
    match sc
    case GoScanner => Contains(name, "_test.go")
    case PythonScanner => false
    case JsScanner(_) => Contains(name, ".d.ts") || Contains(name, ".spec.") || Contains(name, ".test.")
  }

  /** A walk entry the extractor lists: its name matches the pattern, no component
      of its full path is an ignored directory, and the name is not excluded.
      Whether it is a regular file or can be read plays no part. */
  predicate Candidate(sc: Scanner, root: seq<string>, e: Entry) {
    var name := Name(e.rel);
    EndsWith(name, Extension(sc)) && !Ignored(root, e.rel) && !Excluded(sc, name)
  }

  function FileTypes(sc: Scanner, m: Matches, file: string): seq<TypeInfo> {
    match sc
    case GoScanner => GoTypes(m.goTypes, file)
    case PythonScanner => PyTypes(m.pyClasses, file)
    case JsScanner(_) => JsTypes(m.jsClasses, file)
  }

  function FileFunctions(sc: Scanner, m: Matches, file: string): seq<FunctionInfo> {
    match sc
    case GoScanner => GoFunctions(m.goFuncs, file)
    case PythonScanner => PyFunctions(m.pyFuncs, file)
    case JsScanner(_) => JsFunctions(m.jsFuncs, file)
  }

  /** One iteration of the file loop: a candidate is appended to `files` first; only
      a readable one then contributes its types and functions. */
  function Step(sc: Scanner, root: seq<string>, a: ProjectAnalysis, e: Entry): ProjectAnalysis {
    if !Candidate(sc, root, e) then a
    else
      var rel := RelPath(e.rel);
      var listed := a.(files := a.files + [rel]);
      match e.source
      case Failed => listed
      case Read(m) => listed.(types := listed.types + FileTypes(sc, m, rel),
                              functions := listed.functions + FileFunctions(sc, m, rel))
  }

  /** The record after the file loop has run over `es`, starting from `a0`. */
  function Scanned(sc: Scanner, root: seq<string>, es: seq<Entry>, a0: ProjectAnalysis): ProjectAnalysis
    decreases |es|
  {
    if es == [] then a0
    else Step(sc, root, Scanned(sc, root, es[..|es| - 1], a0), es[|es| - 1])
  }

  // ---- The three lists the loop builds, stated separately ----

  function CandidatePaths(sc: Scanner, root: seq<string>, es: seq<Entry>): seq<string>
    decreases |es|
  {
    if es == [] then []
    else
      var e := es[|es| - 1];
      CandidatePaths(sc, root, es[..|es| - 1]) + (if Candidate(sc, root, e) then [RelPath(e.rel)] else [])
  }

  function FoundTypes(sc: Scanner, root: seq<string>, es: seq<Entry>): seq<TypeInfo>
    decreases |es|
  {
    if es == [] then []
    else
      var e := es[|es| - 1];
      FoundTypes(sc, root, es[..|es| - 1]) +
        (if Candidate(sc, root, e) && e.source.Read? then FileTypes(sc, e.source.value, RelPath(e.rel)) else [])
  }

  function FoundFunctions(sc: Scanner, root: seq<string>, es: seq<Entry>): seq<FunctionInfo>
    decreases |es|
  {
    if es == [] then []
    else
      var e := es[|es| - 1];
      FoundFunctions(sc, root, es[..|es| - 1]) +
        (if Candidate(sc, root, e) && e.source.Read? then FileFunctions(sc, e.source.value, RelPath(e.rel)) else [])
  }

  /** What one iteration adds to each list. */
  lemma StepParts(sc: Scanner, root: seq<string>, a: ProjectAnalysis, e: Entry)
    ensures var b, take := Step(sc, root, a, e), Candidate(sc, root, e) && e.source.Read?;
      b.files == a.files + (if Candidate(sc, root, e) then [RelPath(e.rel)] else []) &&
      b.types == a.types + (if take then FileTypes(sc, e.source.value, RelPath(e.rel)) else []) &&
      b.functions == a.functions + (if take then FileFunctions(sc, e.source.value, RelPath(e.rel)) else [])
  {
  }

  lemma {:induction false} ScannedFiles(sc: Scanner, root: seq<string>, es: seq<Entry>, a0: ProjectAnalysis)
    ensures Scanned(sc, root, es, a0).files == a0.files + CandidatePaths(sc, root, es)
    decreases |es|
  {
    if es != [] {
      var init, e := es[..|es| - 1], es[|es| - 1];
      ScannedFiles(sc, root, init, a0);
      StepParts(sc, root, Scanned(sc, root, init, a0), e);
      Assoc(a0.files, CandidatePaths(sc, root, init), if Candidate(sc, root, e) then [RelPath(e.rel)] else []);
    }
  }

  lemma {:induction false} ScannedTypes(sc: Scanner, root: seq<string>, es: seq<Entry>, a0: ProjectAnalysis)
    ensures Scanned(sc, root, es, a0).types == a0.types + FoundTypes(sc, root, es)
    decreases |es|
  {
    if es != [] {
      var init, e := es[..|es| - 1], es[|es| - 1];
      ScannedTypes(sc, root, init, a0);
      StepParts(sc, root, Scanned(sc, root, init, a0), e);
      Assoc(a0.types, FoundTypes(sc, root, init),
            if Candidate(sc, root, e) && e.source.Read? then FileTypes(sc, e.source.value, RelPath(e.rel)) else []);
    }
  }

  lemma {:induction false} ScannedFunctions(sc: Scanner, root: seq<string>, es: seq<Entry>, a0: ProjectAnalysis)
    ensures Scanned(sc, root, es, a0).functions == a0.functions + FoundFunctions(sc, root, es)
    decreases |es|
  {
    if es != [] {
      var init, e := es[..|es| - 1], es[|es| - 1];
      ScannedFunctions(sc, root, init, a0);
      StepParts(sc, root, Scanned(sc, root, init, a0), e);
      Assoc(a0.functions, FoundFunctions(sc, root, init),
            if Candidate(sc, root, e) && e.source.Read? then FileFunctions(sc, e.source.value, RelPath(e.rel)) else []);
    }
  }

  lemma {:induction false} ScannedKeeps(sc: Scanner, root: seq<string>, es: seq<Entry>, a0: ProjectAnalysis)
    ensures var a := Scanned(sc, root, es, a0);
      a.language == a0.language && a.name == a0.name && a.description == a0.description &&
      a.version == a0.version && a.dependencies == a0.dependencies && a.entryPoints == a0.entryPoints
    decreases |es|
  {
    if es != [] {
      ScannedKeeps(sc, root, es[..|es| - 1], a0);
    }
  }

  /** The file loop appends exactly the candidate paths, and the types and functions of
      the readable candidates, in walk order, and changes nothing else. */
  lemma ScannedParts(sc: Scanner, root: seq<string>, es: seq<Entry>, a0: ProjectAnalysis)
    ensures Scanned(sc, root, es, a0) == a0.(files := a0.files + CandidatePaths(sc, root, es),
                                             types := a0.types + FoundTypes(sc, root, es),
                                             functions := a0.functions + FoundFunctions(sc, root, es))
  {
    ScannedFiles(sc, root, es, a0);
    ScannedTypes(sc, root, es, a0);
    ScannedFunctions(sc, root, es, a0);
    ScannedKeeps(sc, root, es, a0);
  }

  /** Every candidate's path is listed. */
  lemma {:induction false} CandidateListed(sc: Scanner, root: seq<string>, es: seq<Entry>, k: nat)
    requires k < |es| && Candidate(sc, root, es[k])
    ensures RelPath(es[k].rel) in CandidatePaths(sc, root, es)
    decreases |es|
  {
    var init := es[..|es| - 1];
    if k < |init| {
      assert init[k] == es[k];
      CandidateListed(sc, root, init, k);
    }
  }

  /** Every listed path is the path of a candidate. */
  lemma {:induction false} ListedCandidate(sc: Scanner, root: seq<string>, es: seq<Entry>, p: string)
    requires p in CandidatePaths(sc, root, es)
    ensures exists k :: 0 <= k < |es| && Candidate(sc, root, es[k]) && p == RelPath(es[k].rel)
    decreases |es|
  {
    var init := es[..|es| - 1];
    if p in CandidatePaths(sc, root, init) {
      ListedCandidate(sc, root, init, p);
      var k :| 0 <= k < |init| && Candidate(sc, root, init[k]) && p == RelPath(init[k].rel);
      assert es[k] == init[k];
    } else {
      assert Candidate(sc, root, es[|es| - 1]);
    }
  }

  /** A path is listed iff some walk entry at that path is a candidate. */
  lemma CandidatePathsMembers(sc: Scanner, root: seq<string>, es: seq<Entry>, p: string)
    ensures p in CandidatePaths(sc, root, es) <==>
      exists k :: 0 <= k < |es| && Candidate(sc, root, es[k]) && p == RelPath(es[k].rel)
  {
    if p in CandidatePaths(sc, root, es) {
      ListedCandidate(sc, root, es, p);
    }
    if exists k :: 0 <= k < |es| && Candidate(sc, root, es[k]) && p == RelPath(es[k].rel) {
      var k :| 0 <= k < |es| && Candidate(sc, root, es[k]) && p == RelPath(es[k].rel);
      CandidateListed(sc, root, es, k);
    }
  }

  /** A candidate is listed even when it cannot be read. */
  lemma UnreadableStillListed(sc: Scanner, root: seq<string>, es: seq<Entry>, a0: ProjectAnalysis, k: nat)
    requires k < |es| && Candidate(sc, root, es[k]) && es[k].source.Failed?
    ensures RelPath(es[k].rel) in Scanned(sc, root, es, a0).files
  {
    ScannedParts(sc, root, es, a0);
    CandidatePathsMembers(sc, root, es, RelPath(es[k].rel));
  }

  /** Every recorded type and function names a file that is listed. */
  lemma {:induction false} FoundInListedFiles(sc: Scanner, root: seq<string>, es: seq<Entry>)
    ensures forall t :: t in FoundTypes(sc, root, es) ==> t.file in CandidatePaths(sc, root, es)
    ensures forall f :: f in FoundFunctions(sc, root, es) ==> f.file in CandidatePaths(sc, root, es)
    decreases |es|
  {
    if es != [] {
      var init := es[..|es| - 1];
      FoundInListedFiles(sc, root, init);
      var e := es[|es| - 1];
      if Candidate(sc, root, e) && e.source.Read? {
        var m := e.source.value;
        var rel := RelPath(e.rel);
        assert forall t :: t in FileTypes(sc, m, rel) ==> t.file == rel by {
          match sc
          case GoScanner =>
          case PythonScanner =>
          case JsScanner(_) =>
            forall t | t in FileTypes(sc, m, rel) ensures t.file == rel {
              var k :| 0 <= k < |m.jsClasses| && JsTypes(m.jsClasses, rel)[k] == t;
            }
        }
        assert forall f :: f in FileFunctions(sc, m, rel) ==> f.file == rel by {
          match sc
          case GoScanner =>
          case PythonScanner =>
          case JsScanner(_) =>
            forall f | f in FileFunctions(sc, m, rel) ensures f.file == rel {
              var k :| 0 <= k < |m.jsFuncs| && JsFunctions(m.jsFuncs, rel)[k] == f;
            }
        }
      }
    }
  }

  /** The Go extractor records only names that start with an upper-case letter. */
  lemma {:induction false} GoFoundExported(root: seq<string>, es: seq<Entry>)
    ensures forall t :: t in FoundTypes(GoScanner, root, es) ==> GoExported(t.name)
    ensures forall f :: f in FoundFunctions(GoScanner, root, es) ==> GoExported(f.name)
    decreases |es|
  {
    if es != [] {
      GoFoundExported(root, es[..|es| - 1]);
    }
  }

  /** The Python extractor records no name that starts with `_`. */
  lemma {:induction false} PyFoundPublic(root: seq<string>, es: seq<Entry>)
    ensures forall t :: t in FoundTypes(PythonScanner, root, es) ==> PyPublic(t.name)
    ensures forall f :: f in FoundFunctions(PythonScanner, root, es) ==> PyPublic(f.name)
    decreases |es|
  {
    if es != [] {
      PyFoundPublic(root, es[..|es| - 1]);
    }
  }

  /** Under a root that itself lies inside an ignored directory, nothing is listed. */
  lemma {:induction false} IgnoredRootScansNothing(sc: Scanner, root: seq<string>, es: seq<Entry>, a0: ProjectAnalysis)
    requires exists i :: 0 <= i < |root| && root[i] in IgnoreDirs
    ensures Scanned(sc, root, es, a0) == a0
    decreases |es|
  {
    if es != [] {
      IgnoredRootScansNothing(sc, root, es[..|es| - 1], a0);
      var e := es[|es| - 1];
      var i :| 0 <= i < |root| && root[i] in IgnoreDirs;
      assert (root + e.rel)[i] == root[i];
    }
  }

  // ---- Manifests ----

  /** `d.get(key, default)` for a key that maps to a string or is absent. */
  function GetOr(v: Option<string>, default: string): string {
    match v
    case Some(s) => s
    case None => default
  }

  /** go.mod: the module line names the project; its tab-indented versioned lines are
      the dependencies. The read is outside any `try`, so a failed read escapes. */
  function GoManifest(p: Project): Extraction {
    var a := NewAnalysis("go", Name(p.root));
    if "go.mod" !in p.top then Extracted(a)
    else
      match p.goMod
      case Failed => Uncaught("go.mod")
      case Read(content) => Extracted(a.(name := ModuleName(content, a.name), dependencies := Requires(content, true)))
  }

  /** pyproject.toml: the first `name = "..."` and `version = "..."`, each when present.
      A failed read escapes as well. */
  function PyManifest(p: Project): Extraction {
    var a := NewAnalysis("python", Name(p.root));
    if "pyproject.toml" !in p.top then Extracted(a)
    else
      match p.pyproject
      case Failed => Uncaught("pyproject.toml")
      case Read(pp) => Extracted(a.(name := GetOr(pp.name, a.name), version := GetOr(pp.version, a.version)))
  }

  /** package.json under the swallowing `try`: a failed read or decode, or a value that
      is not an object, changes nothing; otherwise name, version and description are taken
      with their defaults, and then the dependency keys, unless `dependencies` is not an
      object, in which case the `.keys()` call raises after the first three are set. */
  function JsManifest(p: Project, lang: string): ProjectAnalysis {
    var a := NewAnalysis(lang, Name(p.root));
    if "package.json" !in p.top then a
    else
      match p.packageJson
      case Failed => a
      case Read(NotObject) => a
      case Read(PackageObject(name, version, description, deps)) =>
        var b := a.(name := GetOr(name, Name(p.root)), version := GetOr(version, ""), description := GetOr(description, ""));
        match deps
        case DepsObject(keys) => b.(dependencies := keys)
        case DepsAbsent => b.(dependencies := [])
        case DepsOther => b
  }

  function GoAnalysis(p: Project): Extraction {
    match GoManifest(p)
    case Uncaught(f) => Uncaught(f)
    case Extracted(a) => Extracted(Scanned(GoScanner, p.root, p.walk, a))
  }

  function PyAnalysis(p: Project): Extraction {
    match PyManifest(p)
    case Uncaught(f) => Uncaught(f)
    case Extracted(a) => Extracted(Scanned(PythonScanner, p.root, p.walk, a))
  }

  /** `ext = "*.ts" if lang == "typescript" else "*.js"`. */
  function JsAnalysis(p: Project, typescript: bool): ProjectAnalysis {
    var lang := if typescript then "typescript" else "javascript";
    Scanned(JsScanner(typescript), p.root, p.walk, JsManifest(p, lang))
  }

  /** A leading module line names a Go project after the last segment of its path, and
      a block of canonical require lines below it gives the dependencies in order. */
  lemma GoManifestRoundTrip(p: Project, path: string, rs: seq<Require>)
    requires "go.mod" in p.top
    requires path != [] && '\n' !in path && !IsSpace(path[0])
    requires forall k :: 0 <= k < |rs| ==> WellFormedRequire(rs[k])
    requires p.goMod == Read("module " + path + "\n" + RequireLines(rs))
    ensures GoManifest(p).Extracted?
    ensures GoManifest(p).analysis.name == AfterLastSlash(path)
    ensures GoManifest(p).analysis.dependencies == RequirePaths(rs)
  {
    var content := "module " + path + "\n" + RequireLines(rs);
    assert content == "module " + path + ("\n" + RequireLines(rs));
    ModuleLineRoundTrip(path, "\n" + RequireLines(rs));
    OtherLine("module " + path, RequireLines(rs));
    RequireLinesRoundTrip(rs, "");
    assert RequireLines(rs) + "" == RequireLines(rs);
  }

  /** A package.json object: each of `name`, `version` and `description` is taken when
      present and otherwise defaults to the directory name, `""` and `""`; the
      dependencies are the keys of a `dependencies` object, none when the member is
      absent, and none when it is not an object, the other members being taken all the
      same. Nothing else of the record changes. */
  lemma PackageJsonFields(p: Project, lang: string)
    requires "package.json" in p.top && p.packageJson.Read? && p.packageJson.value.PackageObject?
    ensures var o, a := p.packageJson.value, JsManifest(p, lang);
      (o.name.Some? ==> a.name == o.name.value) && (o.name.None? ==> a.name == Name(p.root)) &&
      (o.version.Some? ==> a.version == o.version.value) && (o.version.None? ==> a.version == "") &&
      (o.description.Some? ==> a.description == o.description.value) &&
      (o.description.None? ==> a.description == "")
    ensures var o, a := p.packageJson.value, JsManifest(p, lang);
      (o.deps.DepsObject? ==> a.dependencies == o.deps.keys) &&
      (o.deps.DepsAbsent? ==> a.dependencies == []) &&
      (o.deps.DepsOther? ==> a.dependencies == [])
    ensures var a := JsManifest(p, lang);
      a.language == lang && a.files == [] && a.types == [] && a.functions == [] && a.entryPoints == []
  {
  }

  /** Without package.json, or when it cannot be read or decoded, or when it decodes to
      something other than an object, the swallowing `try` leaves the fresh record. */
  lemma PackageJsonIgnored(p: Project, lang: string)
    requires "package.json" !in p.top || p.packageJson.Failed? || p.packageJson.value.NotObject?
    ensures JsManifest(p, lang) == NewAnalysis(lang, Name(p.root))
  {
  }

  // ---- The loops ----

  method GoTypesOf(ms: seq<GoTypeMatch>, rel: string) returns (types: seq<TypeInfo>)
    ensures types == GoTypes(ms, rel)
  {
    types := [];
    for i := 0 to |ms|
      invariant types == GoTypes(ms[..i], rel)
    {
      if GoExported(ms[i].name) {
        types := types + [GoType(ms[i], rel)];
      }
      assert ms[..i + 1][..i] == ms[..i];
    }
    assert ms[..|ms|] == ms;
  }

  method GoFunctionsOf(ms: seq<GoFuncMatch>, rel: string) returns (functions: seq<FunctionInfo>)
    ensures functions == GoFunctions(ms, rel)
  {
    functions := [];
    for i := 0 to |ms|
      invariant functions == GoFunctions(ms[..i], rel)
    {
      if GoExported(ms[i].name) {
        functions := functions + [GoFunction(ms[i], rel)];
      }
      assert ms[..i + 1][..i] == ms[..i];
    }
    assert ms[..|ms|] == ms;
  }

  method PyTypesOf(ms: seq<PyClassMatch>, rel: string) returns (types: seq<TypeInfo>)
    ensures types == PyTypes(ms, rel)
  {
    types := [];
    for i := 0 to |ms|
      invariant types == PyTypes(ms[..i], rel)
    {
      if PyPublic(ms[i].name) {
        types := types + [PyType(ms[i], rel)];
      }
      assert ms[..i + 1][..i] == ms[..i];
    }
    assert ms[..|ms|] == ms;
  }

  method PyFunctionsOf(ms: seq<PyFuncMatch>, rel: string) returns (functions: seq<FunctionInfo>)
    ensures functions == PyFunctions(ms, rel)
  {
    functions := [];
    for i := 0 to |ms|
      invariant functions == PyFunctions(ms[..i], rel)
    {
      if PyPublic(ms[i].name) {
        functions := functions + [PyFunction(ms[i], rel)];
      }
      assert ms[..i + 1][..i] == ms[..i];
    }
    assert ms[..|ms|] == ms;
  }

  method JsFunctionsOf(ms: seq<JsFuncMatch>, rel: string) returns (functions: seq<FunctionInfo>)
    ensures functions == JsFunctions(ms, rel)
  {
    functions := [];
    for i := 0 to |ms|
      invariant functions == JsFunctions(ms[..i], rel)
    {
      functions := functions + [JsFunction(ms[i], rel)];
      assert ms[..i + 1][..i] == ms[..i];
    }
    assert ms[..|ms|] == ms;
  }

  method JsTypesOf(names: seq<string>, rel: string) returns (types: seq<TypeInfo>)
    ensures types == JsTypes(names, rel)
  {
    types := [];
    for i := 0 to |names|
      invariant types == JsTypes(names[..i], rel)
    {
      types := types + [JsType(names[i], rel)];
      assert names[..i + 1][..i] == names[..i];
    }
    assert names[..|names|] == names;
  }

  /** The per-file part of the loop body: the type matches, then the function matches
      (for JavaScript/TypeScript the functions come first; the lists are separate). */
  method ScanFile(sc: Scanner, m: Matches, rel: string) returns (types: seq<TypeInfo>, functions: seq<FunctionInfo>)
    ensures types == FileTypes(sc, m, rel) && functions == FileFunctions(sc, m, rel)
  {
    match sc {
      case GoScanner =>
        types := GoTypesOf(m.goTypes, rel);
        functions := GoFunctionsOf(m.goFuncs, rel);
      case PythonScanner =>
        types := PyTypesOf(m.pyClasses, rel);
        functions := PyFunctionsOf(m.pyFuncs, rel);
      case JsScanner(_) =>
        functions := JsFunctionsOf(m.jsFuncs, rel);
        types := JsTypesOf(m.jsClasses, rel);
    }
  }

  /** The file loop over the walk. */
  method ScanWalk(sc: Scanner, root: seq<string>, walk: seq<Entry>, a0: ProjectAnalysis) returns (a: ProjectAnalysis)
    ensures a == Scanned(sc, root, walk, a0)
  {
    a := a0;
    for i := 0 to |walk|
      invariant a == Scanned(sc, root, walk[..i], a0)
    {
      var e := walk[i];
      var name := Name(e.rel);
      assert walk[..i + 1][..i] == walk[..i];
      if EndsWith(name, Extension(sc)) && !Ignored(root, e.rel) && !Excluded(sc, name) {
        var rel := RelPath(e.rel);
        a := a.(files := a.files + [rel]);
        match e.source {
          case Failed =>
          case Read(m) =>
            var types, functions := ScanFile(sc, m, rel);
            a := a.(types := a.types + types, functions := a.functions + functions);
        }
      }
    }
    assert walk[..|walk|] == walk;
  }

  /** The go.mod step of `extract_go_info` (lines 124-133). */
  method ReadGoMod(p: Project) returns (x: Extraction)
    ensures x == GoManifest(p)
  {
    var a := NewAnalysis("go", Name(p.root));
    if "go.mod" in p.top {
      match p.goMod {
        case Failed =>
          return Uncaught("go.mod");
        case Read(content) =>
          match ModuleLine(content, true) {
            case Some(path) => a := a.(name := AfterLastSlash(path));
            case None =>
          }
          assert a == NewAnalysis("go", Name(p.root)).(name := ModuleName(content, Name(p.root)));
          var deps := ScanRequires(content);
          a := a.(dependencies := a.dependencies + deps);
          assert GoManifest(p) == Extracted(a);
      }
    }
    return Extracted(a);
  }

  /** `extract_go_info`. */
  method ExtractGo(p: Project) returns (x: Extraction)
    ensures x == GoAnalysis(p)
  {
    x := ReadGoMod(p);
    if x.Extracted? {
      var a := ScanWalk(GoScanner, p.root, p.walk, x.analysis);
      x := Extracted(a);
    }
  }

  /** `extract_python_info`. */
  method ExtractPython(p: Project) returns (x: Extraction)
    ensures x == PyAnalysis(p)
  {
    var a := NewAnalysis("python", Name(p.root));
    if "pyproject.toml" in p.top {
      match p.pyproject {
        case Failed =>
          return Uncaught("pyproject.toml");
        case Read(pp) =>
          if pp.name.Some? { a := a.(name := pp.name.value); }
          if pp.version.Some? { a := a.(version := pp.version.value); }
      }
    }
    a := ScanWalk(PythonScanner, p.root, p.walk, a);
    return Extracted(a);
  }

  /** `extract_js_ts_info`. */
  method ExtractJsTs(p: Project, typescript: bool) returns (a: ProjectAnalysis)
    ensures a == JsAnalysis(p, typescript)
  {
    var lang := if typescript then "typescript" else "javascript";
    a := NewAnalysis(lang, Name(p.root));
    if "package.json" in p.top {
      match p.packageJson {
        case Failed =>
        case Read(pkg) =>
          match pkg {
            case NotObject =>
            case PackageObject(name, version, description, deps) =>
              a := a.(name := GetOr(name, Name(p.root)));
              a := a.(version := GetOr(version, ""));
              a := a.(description := GetOr(description, ""));
              match deps {
                case DepsObject(keys) => a := a.(dependencies := keys);
                case DepsAbsent => a := a.(dependencies := []);
                case DepsOther =>
              }
          }
      }
    }
    a := ScanWalk(JsScanner(typescript), p.root, p.walk, a);
  }
}
