/** `analyze_project`: the missing-path error, the dispatch on the detected
    language, the generic inventory arm and the assembly of the result dict. */
module Analyze {
  import opened Model
  import opened Paths
  import opened Sorting
  import opened Detect
  import opened Extract
  import opened Text
  import opened GoMod

  /** The result dict: `files` sorted, the other lists in discovery order, and no
      `entry_points` member. */
  datatype Report = Report(
    language: string,
    name: string,
    description: string,
    version: string,
    files: seq<string>,
    types: seq<TypeInfo>,
    functions: seq<FunctionInfo>,
    dependencies: seq<string>)

  /** The three things a call can end in: the dict, the `{"error": ...}` dict, or an
      exception escaping from the read of the named manifest. */
  datatype Outcome = Reported(report: Report) | PathError(error: string) | Raised(file: string)

  // ---- The generic arm ----

  /** A walk entry the generic arm lists: a regular file with no ignored directory in
      its full path and a name outside the ignored file names. */
  predicate Listed(root: seq<string>, e: Entry) {
    e.isFile && !Ignored(root, e.rel) && Name(e.rel) !in IgnoreFiles
  }

  function Inventory(root: seq<string>, es: seq<Entry>): seq<string>
    decreases |es|
  {
    if es == [] then []
    else
      var e := es[|es| - 1];
      Inventory(root, es[..|es| - 1]) + (if Listed(root, e) then [RelPath(e.rel)] else [])
  }

  function GenericAnalysis(lang: Lang, p: Project): ProjectAnalysis {
    NewAnalysis(Label(lang), Name(p.root)).(files := Inventory(p.root, p.walk))
  }

  lemma {:induction false} InventoryListed(root: seq<string>, es: seq<Entry>, k: nat)
    requires k < |es| && Listed(root, es[k])
    ensures RelPath(es[k].rel) in Inventory(root, es)
    decreases |es|
  {
    var init := es[..|es| - 1];
    if k < |init| {
      assert init[k] == es[k];
      InventoryListed(root, init, k);
    }
  }

  lemma {:induction false} InventoryFrom(root: seq<string>, es: seq<Entry>, f: string)
    requires f in Inventory(root, es)
    ensures exists k :: 0 <= k < |es| && Listed(root, es[k]) && f == RelPath(es[k].rel)
    decreases |es|
  {
    var init := es[..|es| - 1];
    if f in Inventory(root, init) {
      InventoryFrom(root, init, f);
      var k :| 0 <= k < |init| && Listed(root, init[k]) && f == RelPath(init[k].rel);
      assert es[k] == init[k];
    } else {
      assert Listed(root, es[|es| - 1]);
    }
  }

  /** The generic inventory holds exactly the paths of the listed walk entries. */
  lemma InventoryMembers(root: seq<string>, es: seq<Entry>, f: string)
    ensures f in Inventory(root, es) <==> exists k :: 0 <= k < |es| && Listed(root, es[k]) && f == RelPath(es[k].rel)
  {
    if f in Inventory(root, es) {
      InventoryFrom(root, es, f);
    }
    if exists k :: 0 <= k < |es| && Listed(root, es[k]) && f == RelPath(es[k].rel) {
      var k :| 0 <= k < |es| && Listed(root, es[k]) && f == RelPath(es[k].rel);
      InventoryListed(root, es, k);
    }
  }

  // ---- Dispatch and assembly ----

  /** The extractor each language label is sent to. */
  function Dispatch(lang: Lang, p: Project): Extraction {
    match lang
    case Go => GoAnalysis(p)
    case Python => PyAnalysis(p)
    case JavaScript => Extracted(JsAnalysis(p, false))
    case TypeScript => Extracted(JsAnalysis(p, true))
    case Php => Extracted(GenericAnalysis(lang, p))
    case Swift => Extracted(GenericAnalysis(lang, p))
    case Unknown => Extracted(GenericAnalysis(lang, p))
  }

  /** The scanner of an extractor arm; none for the generic arm. */
  function ScannerOf(lang: Lang): Option<Scanner> {
    match lang
    case Go => Some(GoScanner)
    case Python => Some(PythonScanner)
    case JavaScript => Some(JsScanner(false))
    case TypeScript => Some(JsScanner(true))
    case Php => None
    case Swift => None
    case Unknown => None
  }

  /** The record an arm starts its file loop from: the manifest step's result for an
      extractor arm, the fresh record for the generic arm. */
  function ManifestStep(lang: Lang, p: Project): Extraction {
    match lang
    case Go => GoManifest(p)
    case Python => PyManifest(p)
    case JavaScript => Extracted(JsManifest(p, "javascript"))
    case TypeScript => Extracted(JsManifest(p, "typescript"))
    case Php => Extracted(NewAnalysis(Label(lang), Name(p.root)))
    case Swift => Extracted(NewAnalysis(Label(lang), Name(p.root)))
    case Unknown => Extracted(NewAnalysis(Label(lang), Name(p.root)))
  }

  /** The project-level members of the dict are those of the manifest step. */
  predicate FromManifest(rep: Report, m: ProjectAnalysis) {
    rep.name == m.name && rep.description == m.description && rep.version == m.version &&
    rep.dependencies == m.dependencies
  }

  function ReportOf(a: ProjectAnalysis): Report {
    Report(a.language, a.name, a.description, a.version, Sort(a.files), a.types, a.functions, a.dependencies)
  }

  /** The whole call. `fs` is the resolved root as the file system shows it, or `None`
      when the path does not exist. */
  function Analysis(rootPath: string, fs: Option<Project>): (r: Outcome)
    ensures r.PathError? <==> fs.None?
    ensures r.PathError? ==> r.error == "Path does not exist: " + rootPath
  {
    match fs
    case None => PathError("Path does not exist: " + rootPath)
    case Some(p) =>
      match Dispatch(Detected(p.top, p.walk), p)
      case Uncaught(f) => Raised(f)
      case Extracted(a) => Reported(ReportOf(a))
  }

  /** The files the chosen arm collects, before sorting. */
  function Collected(lang: Lang, p: Project): seq<string> {
    match ScannerOf(lang)
    case Some(sc) => CandidatePaths(sc, p.root, p.walk)
    case None => Inventory(p.root, p.walk)
  }

  /** What a scanning arm hands on: its language label, the candidate paths, and the
      types and functions found, in walk order, with name, description, version and
      dependencies as its manifest step left them. */
  lemma ScanningArm(lang: Lang, p: Project)
    requires ScannerOf(lang).Some? && Dispatch(lang, p).Extracted?
    ensures ManifestStep(lang, p).Extracted?
    ensures var a := Dispatch(lang, p).analysis;
      var sc := ScannerOf(lang).value;
      a.language == Label(lang) &&
      a.files == CandidatePaths(sc, p.root, p.walk) &&
      a.types == FoundTypes(sc, p.root, p.walk) &&
      a.functions == FoundFunctions(sc, p.root, p.walk)
    ensures FromManifest(ReportOf(Dispatch(lang, p).analysis), ManifestStep(lang, p).analysis)
  {
    var sc := ScannerOf(lang).value;
    assert ManifestStep(lang, p).Extracted?;
    var a0 := ManifestStep(lang, p).analysis;
    assert Dispatch(lang, p).analysis == Scanned(sc, p.root, p.walk, a0);
    assert a0.language == Label(lang) && a0.files == [] && a0.types == [] && a0.functions == [];
    ScannedFiles(sc, p.root, p.walk, a0);
    ScannedTypes(sc, p.root, p.walk, a0);
    ScannedFunctions(sc, p.root, p.walk, a0);
    ScannedKeeps(sc, p.root, p.walk, a0);
  }

  /** The dict built from what the arm for `lang` hands on. */
  lemma ArmReport(lang: Lang, p: Project)
    requires Dispatch(lang, p).Extracted?
    ensures ManifestStep(lang, p).Extracted?
    ensures var rep := ReportOf(Dispatch(lang, p).analysis);
      rep.language == Label(lang) &&
      rep.files == Sort(Collected(lang, p)) &&
      (ScannerOf(lang).Some? ==>
         rep.types == FoundTypes(ScannerOf(lang).value, p.root, p.walk) &&
         rep.functions == FoundFunctions(ScannerOf(lang).value, p.root, p.walk) &&
         FromManifest(rep, ManifestStep(lang, p).analysis)) &&
      (ScannerOf(lang).None? ==>
         rep == Report(Label(lang), Name(p.root), "", "", Sort(Inventory(p.root, p.walk)), [], [], []))
  {
    if ScannerOf(lang).Some? {
      ScanningArm(lang, p);
    }
  }

  /** Every field of the dict, as the arm for the detected language fills it in. */
  lemma ReportContents(rootPath: string, p: Project)
    requires Analysis(rootPath, Some(p)).Reported?
    ensures ManifestStep(Detected(p.top, p.walk), p).Extracted?
    ensures var rep := Analysis(rootPath, Some(p)).report;
      var lang := Detected(p.top, p.walk);
      rep.language == Label(lang) &&
      rep.files == Sort(Collected(lang, p)) &&
      (ScannerOf(lang).Some? ==>
         rep.types == FoundTypes(ScannerOf(lang).value, p.root, p.walk) &&
         rep.functions == FoundFunctions(ScannerOf(lang).value, p.root, p.walk) &&
         FromManifest(rep, ManifestStep(lang, p).analysis)) &&
      (ScannerOf(lang).None? ==>
         rep == Report(Label(lang), Name(p.root), "", "", Sort(Inventory(p.root, p.walk)), [], [], []))
  {
    ArmReport(Detected(p.top, p.walk), p);
  }

  /** A Go project with a leading module line and a block of canonical require lines is
      reported under the last segment of the module path, with the required module
      paths as its dependencies, in file order. */
  lemma GoReportRoundTrip(rootPath: string, p: Project, path: string, rs: seq<Require>)
    requires Detected(p.top, p.walk) == Go && "go.mod" in p.top
    requires path != [] && '\n' !in path && !IsSpace(path[0])
    requires forall k :: 0 <= k < |rs| ==> WellFormedRequire(rs[k])
    requires p.goMod == Read("module " + path + "\n" + RequireLines(rs))
    ensures Analysis(rootPath, Some(p)).Reported?
    ensures Analysis(rootPath, Some(p)).report.name == AfterLastSlash(path)
    ensures Analysis(rootPath, Some(p)).report.dependencies == RequirePaths(rs)
  {
    GoManifestRoundTrip(p, path, rs);
    assert Dispatch(Go, p).Extracted?;
    ReportContents(rootPath, p);
  }

  /** `files` is the one sorted arrangement of the collected paths. */
  lemma ReportFilesSorted(rootPath: string, p: Project, xs: seq<string>)
    requires Analysis(rootPath, Some(p)).Reported?
    requires Sorted(xs) && multiset(xs) == multiset(Collected(Detected(p.top, p.walk), p))
    ensures Sorted(Analysis(rootPath, Some(p)).report.files)
    ensures Analysis(rootPath, Some(p)).report.files == xs
  {
    ReportContents(rootPath, p);
    var ys := Collected(Detected(p.top, p.walk), p);
    SortedUnique(xs, Sort(ys));
  }

  /** An exception escapes exactly when the chosen extractor finds its go.mod or
      pyproject.toml at the root but cannot read it. */
  lemma RaisedExactly(rootPath: string, p: Project)
    ensures var lang := Detected(p.top, p.walk);
      Analysis(rootPath, Some(p)).Raised? <==>
        (lang == Go && "go.mod" in p.top && p.goMod.Failed?) ||
        (lang == Python && "pyproject.toml" in p.top && p.pyproject.Failed?)
    ensures Analysis(rootPath, Some(p)).Raised? ==>
      Analysis(rootPath, Some(p)).file in {"go.mod", "pyproject.toml"}
  {
  }

  // ---- The imperative code ----

  /** The generic arm's loop. */
  method ListFiles(root: seq<string>, walk: seq<Entry>) returns (files: seq<string>)
    ensures files == Inventory(root, walk)
  {
    files := [];
    for i := 0 to |walk|
      invariant files == Inventory(root, walk[..i])
    {
      var e := walk[i];
      assert walk[..i + 1][..i] == walk[..i];
      if e.isFile && !Ignored(root, e.rel) {
        if Name(e.rel) !in IgnoreFiles {
          files := files + [RelPath(e.rel)];
        }
      }
    }
    assert walk[..|walk|] == walk;
  }

  /** `analyze_project`. */
  method AnalyzeProject(rootPath: string, fs: Option<Project>) returns (out: Outcome)
    ensures out == Analysis(rootPath, fs)
  {
    if fs.None? {
      return PathError("Path does not exist: " + rootPath);
    }
    var p := fs.value;
    var lang := DetectLanguage(p.top, p.walk);
    var x: Extraction;
    match lang {
      case Go =>
        x := ExtractGo(p);
      case Python =>
        x := ExtractPython(p);
      case JavaScript =>
        var a := ExtractJsTs(p, false);
        x := Extracted(a);
      case TypeScript =>
        var a := ExtractJsTs(p, true);
        x := Extracted(a);
      case Php =>
        var files := ListFiles(p.root, p.walk);
        x := Extracted(NewAnalysis(Label(lang), Name(p.root)).(files := files));
      case Swift =>
        var files := ListFiles(p.root, p.walk);
        x := Extracted(NewAnalysis(Label(lang), Name(p.root)).(files := files));
      case Unknown =>
        var files := ListFiles(p.root, p.walk);
        x := Extracted(NewAnalysis(Label(lang), Name(p.root)).(files := files));
    }
    match x {
      case Uncaught(f) => out := Raised(f);
      case Extracted(a) => out := Reported(ReportOf(a));
    }
  }
}
