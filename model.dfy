/** The records the analyser builds, and the abstract project it reads. */
module Model {

  datatype Option<T> = None | Some(value: T)

  /** Outcome of reading one file: the read (or decode) failed, or it gave a value. */
  datatype Read<T> = Failed | Read(value: T)

  /** Languages the detector can report. */
  datatype Lang = Go | Python | JavaScript | TypeScript | Php | Swift | Unknown

  /** The label the analyser reports for a language. */
  function Label(l: Lang): string {
    match l
    case Go => "go"
    case Python => "python"
    case JavaScript => "javascript"
    case TypeScript => "typescript"
    case Php => "php"
    case Swift => "swift"
    case Unknown => "unknown"
  }

  // ---- The dataclasses FunctionInfo, TypeInfo and ProjectAnalysis ----

  /** One field record of a Go type: `{name, type, tag}`. */
  datatype FieldInfo = FieldInfo(name: string, typ: string, tag: string)

  datatype TypeInfo = TypeInfo(name: string, kind: string, fields: seq<FieldInfo>, doc: string, file: string)

  datatype FunctionInfo = FunctionInfo(name: string, signature: string, doc: string, exported: bool, file: string, line: int)

  datatype ProjectAnalysis = ProjectAnalysis(
    language: string,
    name: string,
    description: string,
    version: string,
    types: seq<TypeInfo>,
    functions: seq<FunctionInfo>,
    files: seq<string>,
    dependencies: seq<string>,
    entryPoints: seq<string>)

  /** `ProjectAnalysis(language=..., name=...)` with every other field at its default. */
  function NewAnalysis(language: string, name: string): ProjectAnalysis {
    ProjectAnalysis(language, name, "", "", [], [], [], [], [])
  }

  // ---- What the regular expressions capture (the regex engine is not modelled) ----

  /** One `(\w+)\s+(\S+)(?:\s+`([^`]+)`)?` match inside a Go type body. */
  datatype FieldMatch = FieldMatch(name: string, typ: string, tag: Option<string>)

  /** One match of the Go type pattern: doc comment, name, `struct`/`interface`, body fields. */
  datatype GoTypeMatch = GoTypeMatch(doc: Option<string>, name: string, kind: string, fields: seq<FieldMatch>)

  /** The `(\w+)\s+\*?(\w+)` receiver group pair of a Go method: both or neither are captured. */
  datatype Receiver = Receiver(name: string, typ: string)

  /** The return group of a Go function: none, the parenthesised `([^)]*)` one, or the bare `(\w+)` one. */
  datatype GoReturn = NoReturn | Multi(list: string) | Single(typ: string)

  datatype GoFuncMatch = GoFuncMatch(doc: Option<string>, receiver: Option<Receiver>, name: string, params: string, ret: GoReturn)

  datatype PyClassMatch = PyClassMatch(doc: Option<string>, name: string, bases: Option<string>)

  datatype PyFuncMatch = PyFuncMatch(doc: Option<string>, name: string, params: string, ret: Option<string>)

  /** `export [async] function NAME [<generics>] (PARAMS)`: the generics are not captured. */
  datatype JsFuncMatch = JsFuncMatch(name: string, params: string)

  /** The matches of every per-file pattern over one file's text, in text order. */
  datatype Matches = Matches(
    goTypes: seq<GoTypeMatch>,
    goFuncs: seq<GoFuncMatch>,
    pyClasses: seq<PyClassMatch>,
    pyFuncs: seq<PyFuncMatch>,
    jsFuncs: seq<JsFuncMatch>,
    jsClasses: seq<string>)

  /** One path yielded by the recursive walk, relative to the root, with its kind and text.
      `source` is `Failed` for an entry that is not a regular file: `read_text()` on a
      directory raises, and the bare `except` around it skips the entry. */
  datatype Entry = Entry(rel: seq<string>, isFile: bool, source: Read<Matches>)

  /** The `name = "..."` and `version = "..."` captures of pyproject.toml. */
  datatype PyProject = PyProject(name: Option<string>, version: Option<string>)

  /** What `pkg.get("dependencies", {})` gives: absent, a JSON object (its keys), or anything else. */
  datatype DepsField = DepsAbsent | DepsObject(keys: seq<string>) | DepsOther

  /** A decoded package.json: an object with these string members, or some other JSON value. */
  datatype PackageJson = NotObject | PackageObject(name: Option<string>, version: Option<string>, description: Option<string>, deps: DepsField)

  /** The project directory as the analyser sees it.
      `root` is the resolved root path as components; `top` the names that exist directly
      under it; `walk` what the recursive walk yields, in walk order; the three manifests are
      read only when their name is in `top` (a JSON decode error counts as a failed read). */
  datatype Project = Project(
    root: seq<string>,
    top: set<string>,
    walk: seq<Entry>,
    goMod: Read<string>,
    pyproject: Read<PyProject>,
    packageJson: Read<PackageJson>)
}
