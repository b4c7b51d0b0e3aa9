# A verified model of `analyze_project.py`

`scripts/analyze_project.py` analyses a project directory so that a README can be
generated for it. It guesses the project's language from marker files at the root,
or failing that from the most frequent source-file extension. It then runs one
extractor for that language: Go, Python, or JavaScript/TypeScript, with a generic
file inventory for everything else. The extractor reads the manifest (`go.mod`,
`pyproject.toml`, `package.json`), lists the source files that pass the ignore
rules, and records the public types and functions it finds in them together with
a signature and a doc string. `analyze_project` puts it all into one result dict,
with the file list sorted.

The model takes the project directory as a value (`Model.Project`):

- the resolved root as path components;
- the names directly under the root;
- the entries of the recursive walk in walk order, each with its relative path,
  whether it is a regular file, and either a failed read or the captures every
  per-file regular expression makes on its text;
- each manifest as a failed read or its decoded content.

The regex engine is not modelled. The captures of the per-file patterns are inputs
(`Model.Matches`). The two line patterns of `go.mod` are scanned by hand
(`GoMod`), including the backtracking of `\s+(.+)$`.

Modules, leaf first:

- `Text`: Python's whitespace, `strip`, `split("/")[-1]` and `join`.
- `Sorting`: `sorted` on strings.
- `Model`: the dataclasses and the inputs.
- `Paths`: the ignore sets, `Path.name`, `Path.suffix`, the component rule.
- `Detect`: `detect_language`.
- `GoMod`: the `go.mod` scanners.
- `Entities`: visibility, signatures, doc strings and per-file lists.
- `Extract`: the three extractors.
- `Analyze`: `analyze_project`.

Most loops of the source are methods whose `ensures` ties the result to a function:
the count of extensions, the `go.mod` dependency scan, the six per-file match loops,
the file loop, the three extractors, the generic inventory and `analyze_project`.
Two loops are recursive functions instead, because they only compute a value: the
marker loop (`Detect.ScanTable` over `Detect.ScanPatterns`), which returns early at
the first hit, and the field loop of a Go struct (`Entities.GoFields`). The lemmas state the source's
promises about those functions.

Behaviour of the code that a reader may not expect:

- `files` is sorted but not deduplicated.
- A tie in the extension count goes to the language whose first file the walk met
  first (dict insertion order).
- A source file that cannot be read is still listed in `files`.
- A `go.mod` or `pyproject.toml` that exists but cannot be read raises out of
  `analyze_project` (`Analyze.Outcome.Raised`). Only the `package.json` read is
  guarded.
- Go dependencies are all tab-indented `<token> v<digits/dots>` lines anywhere in
  `go.mod`; the pattern does not look for a `require` block.

## Model

| member | source | states |
|---|---|---|
| `Text.Strip` | scripts/analyze_project.py:167 | the stripped text neither starts nor ends with whitespace and is no longer than the input |
| `Text.StripPadded` | scripts/analyze_project.py:167 | stripping removes exactly the whitespace padding around a text that has none at its ends |
| `Text.StripDecomposes` | scripts/analyze_project.py:167 | every text is its stripped form with whitespace before and after |
| `Text.StripIdempotent` | scripts/analyze_project.py:167 | stripping twice is stripping once |
| `Text.AfterLastSlash` | scripts/analyze_project.py:129 | `split("/")[-1]` has no `/`, is a suffix of the input, is preceded by a `/` when shorter, and is the whole input when there is no `/` |
| `Text.ContainsAt` | scripts/analyze_project.py:139 | a substring occurring at any position makes `in` true |
| `Text.ContainsOccurs` | scripts/analyze_project.py:139 | `in` is true only when the substring occurs at some position |
| `Text.ContainsIff` | scripts/analyze_project.py:139 | `t in s` holds iff `t` occurs at some position of `s` |
| `Sorting.Sort` | scripts/analyze_project.py:352 | `sorted` gives an ascending list with exactly the input's elements (a permutation) |
| `Sorting.SortedUnique` | scripts/analyze_project.py:352 | two sorted permutations of the same strings are equal, so `files` is determined by the inventory alone |
| `Sorting.LeTotal` | scripts/analyze_project.py:352 | string comparison is total |
| `Sorting.LeTrans` | scripts/analyze_project.py:352 | string comparison is transitive |
| `Sorting.LeAntisym` | scripts/analyze_project.py:352 | string comparison is antisymmetric |
| `Paths.LastDot` | scripts/analyze_project.py:113 | the index of a `.` of the name, or -1 |
| `Paths.LastDotIsLast` | scripts/analyze_project.py:113 | no `.` follows the one found, so it is the last one (and -1 means there is none) |
| `Paths.SuffixVersusPattern` | scripts/analyze_project.py:113 | `Path.suffix == ".go"` holds iff the name ends in `.go` and is longer than `.go`, so detection and `rglob("*.go")` differ only on the bare name `.go` |
| `Detect.MarkerPriority` | scripts/analyze_project.py:81-99 | the marker scan is the chain go, python, javascript (typescript if `tsconfig.json` exists), typescript, php, swift, else no marker |
| `Detect.TypeScriptUpgrade` | scripts/analyze_project.py:96-98 | `package.json` with `tsconfig.json` and no go or python marker gives typescript |
| `Detect.TypeScriptExactly` | scripts/analyze_project.py:84-98 | the markers give typescript iff `tsconfig.json` exists and no go or python marker does |
| `Detect.GlobHitNotUpgraded` | scripts/analyze_project.py:92-94 | a glob hit returns its own language, never the typescript upgrade |
| `Detect.MarkersOverrideCounts` | scripts/analyze_project.py:90-99 | with a marker present, the walk is never consulted |
| `Detect.TagsAt` | scripts/analyze_project.py:112-114 | entry `k` of the walk counts for the language its file suffix maps to in `ext_map`, and for none when it is not a file or the suffix is not mapped |
| `Detect.FirstIndex` | scripts/analyze_project.py:112-115 | the first walk position whose file counts for a language |
| `Detect.CountedAt` | scripts/analyze_project.py:112-115 | a walk entry that counts for a language makes that language's count positive |
| `Detect.NoneCounted` | scripts/analyze_project.py:112-115 | a zero count means no walk entry counts for that language |
| `Detect.SeenCounted` | scripts/analyze_project.py:112-115 | a language is a key of `ext_count` iff at least one file counts for it |
| `Detect.SeenOrdered` | scripts/analyze_project.py:112-115 | the keys of `ext_count` are in the order of their first counted file |
| `Detect.FirstMaxIndex` | scripts/analyze_project.py:117 | `max(..., key=...)` picks a largest count, and no earlier key has that count |
| `Detect.FallbackIsMaximal` | scripts/analyze_project.py:112-117 | without markers the result's count is at least every other language's count |
| `Detect.FallbackTieBreak` | scripts/analyze_project.py:112-117 | on a tie the winner's first file comes earlier in the walk than the other language's |
| `Detect.FallbackUnknown` | scripts/analyze_project.py:117 | the fallback is unknown iff no file has a suffix in `ext_map` |
| `Detect.UnknownNeverCounted` | scripts/analyze_project.py:103-110 | unknown is never a key of `ext_count` |
| `Detect.CountStep` | scripts/analyze_project.py:112-115 | one more walk entry changes the counts and the key order by that entry alone |
| `Detect.CountExtensions` | scripts/analyze_project.py:102-115 | the loop leaves in `ext_count` exactly the per-language counts, with keys in first-seen order |
| `Detect.DetectLanguage` | scripts/analyze_project.py:79-117 | the method returns the marker language, else the first most frequent language, else unknown |
| `GoMod.SpaceSpan` | scripts/analyze_project.py:128 | a greedy `\s+` takes the longest all-whitespace prefix |
| `GoMod.TokenSpan` | scripts/analyze_project.py:132 | a greedy `[^\s]+` takes the longest prefix without whitespace |
| `GoMod.VersionSpan` | scripts/analyze_project.py:132 | a greedy `[\d.]+` takes the longest prefix of digits and dots |
| `GoMod.LineSpan` | scripts/analyze_project.py:128 | a greedy `.+` stops at the first line break |
| `GoMod.LastLineStart` | scripts/analyze_project.py:128 | where `\s+` backtracks to: the last position in the whitespace run that can start `.+` |
| `GoMod.ModuleAt` | scripts/analyze_project.py:128 | a module capture is non-empty and within one line |
| `GoMod.ModuleLine` | scripts/analyze_project.py:128 | the first module line's capture is non-empty and within one line |
| `GoMod.ModuleName` | scripts/analyze_project.py:122-129 | the name is the last `/`-segment of the module path: it has no `/`, ends the path, is preceded by `/` when shorter, and is the whole path when that has no `/`; the directory name when there is no module line |
| `GoMod.ModuleLineRoundTrip` | scripts/analyze_project.py:128-129 | `module <path>` on the first line is found and its path captured whole |
| `GoMod.RequireAt` | scripts/analyze_project.py:132 | a dependency match spans at least a tab, a token character, whitespace, `v` and a version character, and stays inside the text |
| `GoMod.RequireAtShape` | scripts/analyze_project.py:132 | a dependency match captures a whitespace-free token and ends on a version character |
| `GoMod.RequiresTokens` | scripts/analyze_project.py:132-133 | every dependency found is a non-empty whitespace-free token |
| `GoMod.ScanRequires` | scripts/analyze_project.py:132-133 | the scan loop appends exactly the tokens `finditer` yields, in file order |
| `GoMod.RestOfLine` | scripts/analyze_project.py:132 | after a match nothing more matches until the next line |
| `GoMod.OtherLine` | scripts/analyze_project.py:132 | a line not starting with a tab contributes no dependency |
| `GoMod.RequireAtLine` | scripts/analyze_project.py:132 | the pattern matches a `\t<path> v<version>` line at its start, capturing the path and ending after the version |
| `GoMod.RequireLineMatches` | scripts/analyze_project.py:132 | a `\t<path> v<version>` line, with any comment after it, yields its path |
| `GoMod.RequireLinesRoundTrip` | scripts/analyze_project.py:132-133 | a block of such lines yields exactly their paths, in order |
| `Entities.DocText` | scripts/analyze_project.py:167 | the doc text is empty without a comment and never starts or ends with whitespace |
| `Entities.DocTextUnpads` | scripts/analyze_project.py:167 | the doc text is the comment without its surrounding whitespace |
| `Entities.SplitAt` | scripts/analyze_project.py:181-183 | the split is at the first occurrence of the delimiter, or there is none |
| `Entities.SplitAtFirst` | scripts/analyze_project.py:181-183 | text without the delimiter, the delimiter, and a rest split back into those two parts |
| `Entities.ParseCallText` | scripts/analyze_project.py:181-183 | `name(params)` reads back into the name, the parameters and what follows |
| `Entities.ParseGoReturnText` | scripts/analyze_project.py:185-187 | the return part reads back: bare for a single return, in parentheses for a list, nothing for `()` or no return |
| `Entities.GoSignatureRoundTrip` | scripts/analyze_project.py:180-187 | a Go signature determines receiver (always printed `(r *T)`), name, parameters and return, with `()` identified with no return |
| `Entities.PySignatureRoundTrip` | scripts/analyze_project.py:249-251 | a Python signature determines name, parameters and annotation, with ` -> ret` present only for a captured annotation |
| `Entities.JsSignatureRoundTrip` | scripts/analyze_project.py:309 | a JS/TS signature is exactly `function name(params)` and determines both |
| `Entities.GoFields` | scripts/analyze_project.py:158-160 | one field record per body match, in order, with the tag or `""` |
| `Entities.GoTypes` | scripts/analyze_project.py:155-170 | every recorded Go type is exported, from this file, and built from one of the matches; match order and multiplicity are stated by `Entities.GoTypesAppend` and `Entities.GoTypesOne` |
| `Entities.GoTypesAppend` | scripts/analyze_project.py:155-170 | the Go types of two runs of matches are the two lists concatenated, so the list keeps match order |
| `Entities.GoTypesOne` | scripts/analyze_project.py:155-170 | a single match gives its type exactly when its name is exported |
| `Entities.GoFunctions` | scripts/analyze_project.py:177-197 | every recorded Go function is exported, marked exported, from this file, and built from one of the matches; match order and multiplicity are stated by `Entities.GoFunctionsAppend` and `Entities.GoFunctionsOne` |
| `Entities.GoFunctionsAppend` | scripts/analyze_project.py:177-197 | the Go functions of two runs of matches are the two lists concatenated, so the list keeps match order |
| `Entities.GoFunctionsOne` | scripts/analyze_project.py:177-197 | a single match gives its function exactly when its name is exported |
| `Entities.PyTypes` | scripts/analyze_project.py:230-240 | every recorded Python class is public, of kind class, from this file, and built from one of the matches; match order and multiplicity are stated by `Entities.PyTypesAppend` and `Entities.PyTypesOne` |
| `Entities.PyTypesAppend` | scripts/analyze_project.py:230-240 | the Python classes of two runs of matches are the two lists concatenated, so the list keeps match order |
| `Entities.PyTypesOne` | scripts/analyze_project.py:230-240 | a single match gives its class exactly when its name is public |
| `Entities.PyFunctions` | scripts/analyze_project.py:246-260 | every recorded Python function is public, marked exported, from this file, and built from one of the matches; match order and multiplicity are stated by `Entities.PyFunctionsAppend` and `Entities.PyFunctionsOne` |
| `Entities.PyFunctionsAppend` | scripts/analyze_project.py:246-260 | the Python functions of two runs of matches are the two lists concatenated, so the list keeps match order |
| `Entities.PyFunctionsOne` | scripts/analyze_project.py:246-260 | a single match gives its function exactly when its name is public |
| `Entities.JsFunctions` | scripts/analyze_project.py:304-313 | every exported JS/TS function is recorded, one per match, in order, with doc `""` |
| `Entities.JsTypes` | scripts/analyze_project.py:316-319 | every exported JS/TS class is recorded, one per match, in order, of kind class |
| `Entities.GoTypeRecorded` | scripts/analyze_project.py:156 | a Go type is recorded iff its name starts with an upper-case letter |
| `Entities.GoFunctionRecorded` | scripts/analyze_project.py:179 | a Go function is recorded iff its name starts with an upper-case letter |
| `Entities.PyTypeRecorded` | scripts/analyze_project.py:232 | a Python class is recorded iff its name does not start with `_` |
| `Entities.PyFunctionRecorded` | scripts/analyze_project.py:248 | a Python function is recorded iff its name does not start with `_` |
| `Extract.ScannedFiles` | scripts/analyze_project.py:136-143 | the file loop appends exactly the candidate paths, in walk order |
| `Extract.ScannedTypes` | scripts/analyze_project.py:145-170 | the file loop appends exactly the types of the readable candidates, in walk order |
| `Extract.ScannedFunctions` | scripts/analyze_project.py:145-197 | the file loop appends exactly the functions of the readable candidates, in walk order |
| `Extract.ScannedKeeps` | scripts/analyze_project.py:136-197 | the file loop changes no field but the three lists |
| `Extract.ScannedParts` | scripts/analyze_project.py:136-197 | the record after the loop is the manifest record with the three lists appended |
| `Extract.CandidateListed` | scripts/analyze_project.py:136-143 | every candidate's path is listed |
| `Extract.ListedCandidate` | scripts/analyze_project.py:136-143 | every listed path is a candidate's |
| `Extract.CandidatePathsMembers` | scripts/analyze_project.py:136-143 | a path is listed iff a walk entry at that path matches the pattern, is not ignored and not excluded |
| `Extract.UnreadableStillListed` | scripts/analyze_project.py:142-148 | a candidate that cannot be read is still listed |
| `Extract.FoundInListedFiles` | scripts/analyze_project.py:142-197 | every recorded type and function names a listed file |
| `Extract.GoFoundExported` | scripts/analyze_project.py:151-197 | the Go extractor records only upper-case names |
| `Extract.PyFoundPublic` | scripts/analyze_project.py:228-260 | the Python extractor records no name that starts with `_` |
| `Extract.IgnoredRootScansNothing` | scripts/analyze_project.py:137 | under a root inside an ignored directory, no file is listed and nothing recorded |
| `Extract.GoManifestRoundTrip` | scripts/analyze_project.py:125-133 | a module line and a block of require lines give the last path segment as name and the paths as dependencies |
| `Extract.PackageJsonFields` | scripts/analyze_project.py:271-279 | a package.json object gives `name`, `version` and `description` when present, else the directory name, `""` and `""`; the keys of a `dependencies` object, none when absent, and none when it is not an object while the other three are still taken |
| `Extract.PackageJsonIgnored` | scripts/analyze_project.py:267-279 | a missing, unreadable or undecodable package.json, or one that is not an object, leaves the fresh record |
| `Extract.GoTypesOf` | scripts/analyze_project.py:155-170 | the Go type loop yields the per-file Go type list |
| `Extract.GoFunctionsOf` | scripts/analyze_project.py:174-197 | the Go function loop yields the per-file Go function list |
| `Extract.PyTypesOf` | scripts/analyze_project.py:230-240 | the Python class loop yields the per-file Python class list |
| `Extract.PyFunctionsOf` | scripts/analyze_project.py:246-260 | the Python function loop yields the per-file Python function list |
| `Extract.JsFunctionsOf` | scripts/analyze_project.py:304-313 | the JS/TS function loop yields the per-file function list |
| `Extract.JsTypesOf` | scripts/analyze_project.py:316-319 | the JS/TS class loop yields the per-file class list |
| `Extract.ScanFile` | scripts/analyze_project.py:150-197 | the body of the file loop yields the file's types and functions |
| `Extract.ScanWalk` | scripts/analyze_project.py:136-197 | the file loop yields the record `Scanned` describes |
| `Extract.ReadGoMod` | scripts/analyze_project.py:124-133 | the go.mod step yields the record `GoManifest` describes, or the escaping read failure |
| `Extract.ExtractGo` | scripts/analyze_project.py:120-199 | `extract_go_info` is the go.mod step (raising on a failed read) followed by the file loop |
| `Extract.ExtractPython` | scripts/analyze_project.py:202-262 | `extract_python_info` is the pyproject step (raising on a failed read) followed by the file loop |
| `Extract.ExtractJsTs` | scripts/analyze_project.py:265-321 | `extract_js_ts_info` is the guarded package.json step followed by the `*.ts` or `*.js` file loop |
| `Analyze.InventoryListed` | scripts/analyze_project.py:341-344 | every regular, non-ignored file with a name outside the ignored file names is in the generic inventory |
| `Analyze.InventoryFrom` | scripts/analyze_project.py:341-344 | every inventory path belongs to such a file |
| `Analyze.InventoryMembers` | scripts/analyze_project.py:341-344 | a path is in the generic inventory iff such a file is at that path |
| `Analyze.ListFiles` | scripts/analyze_project.py:339-344 | the generic arm's loop yields the inventory |
| `Analyze.Analysis` | scripts/analyze_project.py:326-329 | the call returns the error object iff the path does not exist, with the original argument in the message |
| `Analyze.ScanningArm` | scripts/analyze_project.py:331-338 | an extractor arm hands on its own label, the candidate paths and what it found, with name, description, version and dependencies as its manifest step left them |
| `Analyze.ArmReport` | scripts/analyze_project.py:331-356 | the dict carries the arm's label, the sorted collected files, the found types and functions, the manifest step's name, description, version and dependencies, and for the generic arm nothing else |
| `Analyze.ReportContents` | scripts/analyze_project.py:331-356 | every member of the dict: the detected label, `files` the sorted collected paths, the arm's types and functions in discovery order, and name, description, version and dependencies from the manifest step (the directory name and empty values for the generic arm) |
| `Analyze.GoReportRoundTrip` | scripts/analyze_project.py:124-133 | a detected Go project with a module line and a block of require lines is reported under the module path's last segment, with the required paths as dependencies in file order |
| `Analyze.ReportFilesSorted` | scripts/analyze_project.py:352 | `files` is sorted and is the only sorted arrangement of the collected paths |
| `Analyze.RaisedExactly` | scripts/analyze_project.py:124-213 | an exception escapes iff the chosen extractor's go.mod or pyproject.toml exists and cannot be read |
| `Analyze.AnalyzeProject` | scripts/analyze_project.py:324-358 | `analyze_project` returns the outcome `Analysis` describes |

## Left out

- File system access (`resolve`, `exists`, `glob`, `rglob`, `read_text`, `relative_to`) is not modelled; the project directory, the walk and every read are inputs.
- `rglob(pattern)` is assumed to yield the entries of `rglob("*")` that match the pattern, in the same order; the pattern test on the name is written out.
- The regex engine is not modelled: the captures of the type, function, class and field patterns are inputs, so which text they match is not modelled.
- Go struct-body field scanning is only kept as the record shape `{name, type, tag or ""}`; the spurious fields it finds in nested or embedded types are not modelled.
- JSON and TOML parsing are inputs: `package.json` is an object with optional string members or another JSON value, a decode error is a failed read, and `pyproject.toml` is its two optional captures. Non-string JSON values for `name`, `version` and `description` are not modelled.
- `str.isupper`, `\w` and `\d` are restricted to ASCII; `\s` and `str.strip` use Python's full whitespace set.
- The command-line entry point (argument count, usage message, exit code) and the `json.dumps`/`asdict` serialisation are left out; the model ends at the result dict.
- The in-place appends to the `ProjectAnalysis` record are modelled as updates of a local record value, since the record is never shared while it is being filled.
- `entry_points` is kept in the record and left out of the result dict, as the code does.
