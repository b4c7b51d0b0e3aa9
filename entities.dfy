/** What the extractors build from one regex match: the visibility rules, the
    signature strings (each with a parser that reads it back), the doc text and
    the per-file lists of recorded types and functions. */
module Entities {
  import opened Model
  import opened Text

  // ---- Doc strings and visibility ----

  /** `doc.strip() if doc else ""`. */
  function DocText(doc: Option<string>): (r: string)
    ensures Unpadded(r)
    ensures doc.None? ==> r == []
  {
    match doc
    case None => ""
    case Some(d) => Strip(d)
  }

  /** The doc text is the captured comment without its surrounding whitespace. */
  lemma DocTextUnpads(a: string, d: string, b: string)
    requires AllSpace(a) && AllSpace(b) && Unpadded(d)
    ensures DocText(Some(a + d + b)) == d
  {
    StripPadded(a, d, b);
  }

  /** Go: `name[0].isupper()`. */
  predicate GoExported(name: string) {
    name != [] && IsUpper(name[0])
  }

  /** Python: `not name.startswith("_")`. */
  predicate PyPublic(name: string) {
    !StartsWith(name, "_")
  }

  // ---- Splitting at a delimiter ----

  /** The text before the first `c` and the text after it. */
  function SplitAt(s: string, c: char): (r: Option<(string, string)>)
    ensures r.Some? ==> c !in r.value.0 && s == r.value.0 + [c] + r.value.1
    ensures r.None? ==> c !in s
    decreases |s|
  {
    if s == [] then None
    else if s[0] == c then Some(([], s[1..]))
    else
      match SplitAt(s[1..], c)
      case None =>
        assert s == [s[0]] + s[1..];
        None
      case Some((x, y)) =>
        assert s == [s[0]] + (x + [c] + y);
        Some(([s[0]] + x, y))
  }

  lemma {:induction false} SplitAtFirst(x: string, c: char, y: string)
    requires c !in x
    ensures SplitAt(x + [c] + y, c) == Some((x, y))
    decreases |x|
  {
    if x == [] {
      assert x + [c] + y == [c] + y;
    } else {
      assert (x + [c] + y)[1..] == x[1..] + [c] + y;
      assert x[0] in x;
      SplitAtFirst(x[1..], c, y);
      assert [x[0]] + x[1..] == x;
    }
  }

  lemma WordLacks(s: string, c: char)
    requires IsWord(s) && !IsWordChar(c)
    ensures c !in s
  {
  }

  // ---- name(params) ----

  function CallText(name: string, params: string): string {
    name + "(" + params + ")"
  }

  /** Reads `name(params)` off the front of `s`, with the text that follows. */
  function ParseCall(s: string): Option<(string, string, string)> {
    match SplitAt(s, '(')
    case None => None
    case Some((name, after)) =>
      match SplitAt(after, ')')
      case None => None
      case Some((params, rest)) => Some((name, params, rest))
  }

  lemma ParseCallText(name: string, params: string, rest: string)
    requires '(' !in name && ')' !in params
    ensures ParseCall(CallText(name, params) + rest) == Some((name, params, rest))
  {
    assert CallText(name, params) + rest == name + ['('] + (params + [')'] + rest);
    SplitAtFirst(name, '(', params + [')'] + rest);
    SplitAtFirst(params, ')', rest);
  }

  // ---- Go signatures ----

  /** `ret = ret_multi or ret_single or ""`, appended bare when it is the single
      return and in parentheses otherwise; empty `()` or no return adds nothing. */
  function GoReturnText(ret: GoReturn): string {
    match ret
    case NoReturn => ""
    case Multi(list) => if list == "" then "" else " (" + list + ")"
    case Single(typ) => if typ == "" then "" else " " + typ
  }

  /** The receiver part: always `(name *Type)`, with the star, whether or not the
      source had one. */
  function GoReceiverText(recv: Option<Receiver>): string {
    match recv
    case None => ""
    case Some(r) => "(" + r.name + " *" + r.typ + ") "
  }

  function GoSignature(m: GoFuncMatch): string {
    "func " + GoReceiverText(m.receiver) + CallText(m.name, m.params) + GoReturnText(m.ret)
  }

  /** Captures that the Go function pattern can produce. */
  predicate WellFormedGoFunc(m: GoFuncMatch) {
    IsWord(m.name) && ')' !in m.params &&
    (m.receiver.Some? ==> IsWord(m.receiver.value.name) && IsWord(m.receiver.value.typ)) &&
    (m.ret.Multi? ==> ')' !in m.ret.list) &&
    (m.ret.Single? ==> IsWord(m.ret.typ))
  }

  /** Empty parentheses print like no return at all. */
  function NormalGoReturn(ret: GoReturn): GoReturn {
    if ret == Multi("") then NoReturn else ret
  }

  function ParseGoReturn(rest: string): Option<GoReturn> {
    if rest == "" then Some(NoReturn)
    else if |rest| >= 3 && rest[..2] == " (" && rest[|rest| - 1] == ')' then Some(Multi(rest[2..|rest| - 1]))
    else if |rest| >= 2 && rest[0] == ' ' && rest[1] != '(' then Some(Single(rest[1..]))
    else None
  }

  function ParseGoCall(recv: Option<Receiver>, s: string): Option<(Option<Receiver>, string, string, GoReturn)> {
    match ParseCall(s)
    case None => None
    case Some((name, params, rest)) =>
      match ParseGoReturn(rest)
      case None => None
      case Some(ret) => Some((recv, name, params, ret))
  }

  /** Reads `name *Type) ` and then the call, once `func (` has been read. */
  function ParseGoReceiverCall(s: string): Option<(Option<Receiver>, string, string, GoReturn)> {
    match SplitAt(s, ' ')
    case None => None
    case Some((rn, a)) =>
      if a == [] || a[0] != '*' then None
      else
        match SplitAt(a[1..], ')')
        case None => None
        case Some((rt, b)) =>
          if b == [] || b[0] != ' ' then None
          else ParseGoCall(Some(Receiver(rn, rt)), b[1..])
  }

  /** Reads a Go signature back into receiver, name, parameters and return. */
  function ParseGoSignature(sig: string): Option<(Option<Receiver>, string, string, GoReturn)> {
    if !StartsWith(sig, "func ") then None
    else
      var s := sig[5..];
      if s != [] && s[0] == '(' then ParseGoReceiverCall(s[1..])
      else ParseGoCall(None, s)
  }

  lemma ParseGoReturnText(ret: GoReturn)
    requires ret.Multi? ==> ')' !in ret.list
    requires ret.Single? ==> IsWord(ret.typ)
    ensures ParseGoReturn(GoReturnText(ret)) == Some(NormalGoReturn(ret))
  {
    match ret
    case NoReturn =>
    case Multi(list) =>
      if list != "" {
        var t := " (" + list + ")";
        assert t[..2] == " (" && t[2..|t| - 1] == list;
      }
    case Single(typ) =>
      assert (" " + typ)[1..] == typ;
      assert (" " + typ)[1] == typ[0];
  }

  /** The call part of a Go signature reads back as the captures it was built from. */
  lemma GoCallRoundTrip(m: GoFuncMatch, recv: Option<Receiver>)
    requires WellFormedGoFunc(m)
    ensures ParseGoCall(recv, CallText(m.name, m.params) + GoReturnText(m.ret)) ==
      Some((recv, m.name, m.params, NormalGoReturn(m.ret)))
  {
    WordLacks(m.name, '(');
    ParseCallText(m.name, m.params, GoReturnText(m.ret));
    ParseGoReturnText(m.ret);
  }

  /** The receiver text followed by `tail`, regrouped piece by piece. */
  lemma GoReceiverSlices(rn: string, rt: string, tail: string)
    ensures var s := GoReceiverText(Some(Receiver(rn, rt))) + tail;
      s != [] && s[0] == '(' && s[1..] == rn + (" *" + (rt + (") " + tail)))
  {
    Assoc("(" + rn + " *" + rt, ") ", tail);
    Assoc("(" + rn + " *", rt, ") " + tail);
    Assoc("(" + rn, " *", rt + (") " + tail));
    Assoc("(", rn, " *" + (rt + (") " + tail)));
  }

  /** `s` with its first character split off. */
  lemma Uncons(s: string)
    requires s != []
    ensures s == [s[0]] + s[1..]
  {
  }

  /** `(rn *rt) ` is read as the receiver, and the rest is the call part. */
  lemma GoReceiverCallText(rn: string, rt: string, tail: string)
    requires IsWord(rn) && IsWord(rt)
    ensures ParseGoReceiverCall(rn + (" *" + (rt + (") " + tail)))) == ParseGoCall(Some(Receiver(rn, rt)), tail)
  {
    WordLacks(rn, ' ');
    WordLacks(rt, ')');
    var z := rt + (") " + tail);
    assert " *" == [' '] + "*" && ") " == [')'] + " ";
    Assoc([' '], "*", z);
    Assoc(rn, [' '], "*" + z);
    SplitAtFirst(rn, ' ', "*" + z);
    Assoc([')'], " ", tail);
    Assoc(rt, [')'], " " + tail);
    SplitAtFirst(rt, ')', " " + tail);
    Uncons(" " + tail);
  }

  /** `func ` comes off the front of a signature. */
  lemma FuncPrefix(x: string)
    ensures StartsWith("func " + x, "func ") && ("func " + x)[5..] == x
  {
  }

  /** A Go signature determines the receiver, name, parameters and return it was built from. */
  lemma GoSignatureRoundTrip(m: GoFuncMatch)
    requires WellFormedGoFunc(m)
    ensures ParseGoSignature(GoSignature(m)) == Some((m.receiver, m.name, m.params, NormalGoReturn(m.ret)))
  {
    var recv, call := GoReceiverText(m.receiver), CallText(m.name, m.params);
    var tail := call + GoReturnText(m.ret);
    Assoc("func " + recv, call, GoReturnText(m.ret));
    Assoc("func ", recv, tail);
    FuncPrefix(recv + tail);
    GoCallRoundTrip(m, m.receiver);
    match m.receiver
    case None =>
      assert recv + tail == tail;
      assert tail[0] == m.name[0];
    case Some(r) =>
      GoReceiverSlices(r.name, r.typ, tail);
      GoReceiverCallText(r.name, r.typ, tail);
  }

  // ---- Python signatures ----

  /** ` -> ret` only when a non-empty return annotation was captured. */
  function PyReturnText(ret: Option<string>): string {
    match ret
    case None => ""
    case Some(r) => if r == "" then "" else " -> " + r
  }

  function PySignature(m: PyFuncMatch): string {
    "def " + CallText(m.name, m.params) + PyReturnText(m.ret)
  }

  predicate WellFormedPyFunc(m: PyFuncMatch) {
    IsWord(m.name) && ')' !in m.params
  }

  function NormalPyReturn(ret: Option<string>): Option<string> {
    if ret == Some("") then None else ret
  }

  function ParsePySignature(sig: string): Option<(string, string, Option<string>)> {
    if !StartsWith(sig, "def ") then None
    else
      match ParseCall(sig[4..])
      case None => None
      case Some((name, params, rest)) =>
        if rest == "" then Some((name, params, None))
        else if |rest| > 4 && rest[..4] == " -> " then Some((name, params, Some(rest[4..])))
        else None
  }

  /** A Python signature determines the name, parameters and annotation it was built from. */
  lemma PySignatureRoundTrip(m: PyFuncMatch)
    requires WellFormedPyFunc(m)
    ensures ParsePySignature(PySignature(m)) == Some((m.name, m.params, NormalPyReturn(m.ret)))
  {
    var sig := PySignature(m);
    var ret := PyReturnText(m.ret);
    assert sig == "def " + (CallText(m.name, m.params) + ret);
    assert StartsWith(sig, "def ") && sig[4..] == CallText(m.name, m.params) + ret;
    WordLacks(m.name, '(');
    ParseCallText(m.name, m.params, ret);
    if ret != "" {
      assert ret[..4] == " -> " && ret[4..] == m.ret.value;
    }
  }

  // ---- JavaScript / TypeScript signatures ----

  /** Exactly `function name(params)`: generic parameters and `async` leave no trace. */
  function JsSignature(m: JsFuncMatch): string {
    "function " + CallText(m.name, m.params)
  }

  predicate WellFormedJsFunc(m: JsFuncMatch) {
    IsWord(m.name) && ')' !in m.params
  }

  function ParseJsSignature(sig: string): Option<(string, string)> {
    if !StartsWith(sig, "function ") then None
    else
      match ParseCall(sig[9..])
      case Some((name, params, rest)) => if rest == "" then Some((name, params)) else None
      case None => None
  }

  lemma JsSignatureRoundTrip(m: JsFuncMatch)
    requires WellFormedJsFunc(m)
    ensures ParseJsSignature(JsSignature(m)) == Some((m.name, m.params))
  {
    var sig := JsSignature(m);
    assert sig[9..] == CallText(m.name, m.params) + "";
    WordLacks(m.name, '(');
    ParseCallText(m.name, m.params, "");
  }

  // ---- Records built from one match ----

  /** `{"name": fname, "type": ftype, "tag": tag or ""}`. */
  function GoField(f: FieldMatch): FieldInfo {
    FieldInfo(f.name, f.typ, match f.tag case Some(t) => t case None => "")
  }

  function GoFields(fs: seq<FieldMatch>): (r: seq<FieldInfo>)
    ensures |r| == |fs|
    ensures forall k :: 0 <= k < |fs| ==> r[k] == GoField(fs[k])
    decreases |fs|
  {
    if fs == [] then [] else [GoField(fs[0])] + GoFields(fs[1..])
  }

  function GoType(m: GoTypeMatch, file: string): TypeInfo {
    TypeInfo(m.name, m.kind, GoFields(m.fields), DocText(m.doc), file)
  }

  function GoFunction(m: GoFuncMatch, file: string): FunctionInfo {
    FunctionInfo(m.name, GoSignature(m), DocText(m.doc), true, file, 0)
  }

  function PyType(m: PyClassMatch, file: string): TypeInfo {
    TypeInfo(m.name, "class", [], DocText(m.doc), file)
  }

  function PyFunction(m: PyFuncMatch, file: string): FunctionInfo {
    FunctionInfo(m.name, PySignature(m), DocText(m.doc), true, file, 0)
  }

  function JsFunction(m: JsFuncMatch, file: string): FunctionInfo {
    FunctionInfo(m.name, JsSignature(m), "", true, file, 0)
  }

  function JsType(name: string, file: string): TypeInfo {
    TypeInfo(name, "class", [], "", file)
  }

  // ---- What one file contributes, in match order ----

  function GoTypes(ms: seq<GoTypeMatch>, file: string): (r: seq<TypeInfo>)
    ensures forall t :: t in r ==> GoExported(t.name) && t.file == file
    ensures forall t :: t in r ==> exists k :: 0 <= k < |ms| && t == GoType(ms[k], file)
    decreases |ms|
  {
    if ms == [] then []
    else
      var last := ms[|ms| - 1];
      var init := ms[..|ms| - 1];
      var prev := GoTypes(init, file);
      forall t | t in prev ensures exists k :: 0 <= k < |ms| && t == GoType(ms[k], file) {
        var k :| 0 <= k < |init| && t == GoType(init[k], file);
        assert init[k] == ms[k];
      }
      prev + (if GoExported(last.name) then [GoType(last, file)] else [])
  }

  function GoFunctions(ms: seq<GoFuncMatch>, file: string): (r: seq<FunctionInfo>)
    ensures forall f :: f in r ==> GoExported(f.name) && f.exported && f.file == file
    ensures forall f :: f in r ==> exists k :: 0 <= k < |ms| && f == GoFunction(ms[k], file)
    decreases |ms|
  {
    if ms == [] then []
    else
      var last := ms[|ms| - 1];
      var init := ms[..|ms| - 1];
      var prev := GoFunctions(init, file);
      forall f | f in prev ensures exists k :: 0 <= k < |ms| && f == GoFunction(ms[k], file) {
        var k :| 0 <= k < |init| && f == GoFunction(init[k], file);
        assert init[k] == ms[k];
      }
      prev + (if GoExported(last.name) then [GoFunction(last, file)] else [])
  }

  function PyTypes(ms: seq<PyClassMatch>, file: string): (r: seq<TypeInfo>)
    ensures forall t :: t in r ==> PyPublic(t.name) && t.kind == "class" && t.file == file
    ensures forall t :: t in r ==> exists k :: 0 <= k < |ms| && t == PyType(ms[k], file)
    decreases |ms|
  {
    if ms == [] then []
    else
      var last := ms[|ms| - 1];
      var init := ms[..|ms| - 1];
      var prev := PyTypes(init, file);
      forall t | t in prev ensures exists k :: 0 <= k < |ms| && t == PyType(ms[k], file) {
        var k :| 0 <= k < |init| && t == PyType(init[k], file);
        assert init[k] == ms[k];
      }
      prev + (if PyPublic(last.name) then [PyType(last, file)] else [])
  }

  function PyFunctions(ms: seq<PyFuncMatch>, file: string): (r: seq<FunctionInfo>)
    ensures forall f :: f in r ==> PyPublic(f.name) && f.exported && f.file == file
    ensures forall f :: f in r ==> exists k :: 0 <= k < |ms| && f == PyFunction(ms[k], file)
    decreases |ms|
  {
    if ms == [] then []
    else
      var last := ms[|ms| - 1];
      var init := ms[..|ms| - 1];
      var prev := PyFunctions(init, file);
      forall f | f in prev ensures exists k :: 0 <= k < |ms| && f == PyFunction(ms[k], file) {
        var k :| 0 <= k < |init| && f == PyFunction(init[k], file);
        assert init[k] == ms[k];
      }
      prev + (if PyPublic(last.name) then [PyFunction(last, file)] else [])
  }

  /** Every exported JS/TS function is recorded, in match order. */
  function JsFunctions(ms: seq<JsFuncMatch>, file: string): (r: seq<FunctionInfo>)
    ensures |r| == |ms|
    ensures forall k :: 0 <= k < |ms| ==> r[k] == JsFunction(ms[k], file)
    decreases |ms|
  {
    if ms == [] then []
    else JsFunctions(ms[..|ms| - 1], file) + [JsFunction(ms[|ms| - 1], file)]
  }

  function JsTypes(names: seq<string>, file: string): (r: seq<TypeInfo>)
    ensures |r| == |names|
    ensures forall k :: 0 <= k < |names| ==> r[k] == JsType(names[k], file)
    decreases |names|
  {
    if names == [] then []
    else JsTypes(names[..|names| - 1], file) + [JsType(names[|names| - 1], file)]
  }

  // ---- Match order: a file's list is built match by match, in order ----

  /** The Go types of consecutive runs of matches are consecutive in the list; with
      `GoTypesOne` this fixes the list as the exported matches in match order. */
  lemma {:induction false} GoTypesAppend(a: seq<GoTypeMatch>, b: seq<GoTypeMatch>, file: string)
    ensures GoTypes(a + b, file) == GoTypes(a, file) + GoTypes(b, file)
    decreases |b|
  {
    if b == [] {
      assert a + b == a;
    } else {
      var b', last := b[..|b| - 1], b[|b| - 1];
      assert (a + b)[..|a + b| - 1] == a + b';
      assert (a + b)[|a + b| - 1] == last;
      GoTypesAppend(a, b', file);
      Assoc(GoTypes(a, file), GoTypes(b', file), if GoExported(last.name) then [GoType(last, file)] else []);
    }
  }

  lemma GoTypesOne(m: GoTypeMatch, file: string)
    ensures GoTypes([m], file) == if GoExported(m.name) then [GoType(m, file)] else []
  {
    assert [m][..0] == [];
  }

  /** The Go functions of consecutive runs of matches are consecutive in the list. */
  lemma {:induction false} GoFunctionsAppend(a: seq<GoFuncMatch>, b: seq<GoFuncMatch>, file: string)
    ensures GoFunctions(a + b, file) == GoFunctions(a, file) + GoFunctions(b, file)
    decreases |b|
  {
    if b == [] {
      assert a + b == a;
    } else {
      var b', last := b[..|b| - 1], b[|b| - 1];
      assert (a + b)[..|a + b| - 1] == a + b';
      assert (a + b)[|a + b| - 1] == last;
      GoFunctionsAppend(a, b', file);
      Assoc(GoFunctions(a, file), GoFunctions(b', file), if GoExported(last.name) then [GoFunction(last, file)] else []);
    }
  }

  lemma GoFunctionsOne(m: GoFuncMatch, file: string)
    ensures GoFunctions([m], file) == if GoExported(m.name) then [GoFunction(m, file)] else []
  {
    assert [m][..0] == [];
  }

  /** The Python classes of consecutive runs of matches are consecutive in the list. */
  lemma {:induction false} PyTypesAppend(a: seq<PyClassMatch>, b: seq<PyClassMatch>, file: string)
    ensures PyTypes(a + b, file) == PyTypes(a, file) + PyTypes(b, file)
    decreases |b|
  {
    if b == [] {
      assert a + b == a;
    } else {
      var b', last := b[..|b| - 1], b[|b| - 1];
      assert (a + b)[..|a + b| - 1] == a + b';
      assert (a + b)[|a + b| - 1] == last;
      PyTypesAppend(a, b', file);
      Assoc(PyTypes(a, file), PyTypes(b', file), if PyPublic(last.name) then [PyType(last, file)] else []);
    }
  }

  lemma PyTypesOne(m: PyClassMatch, file: string)
    ensures PyTypes([m], file) == if PyPublic(m.name) then [PyType(m, file)] else []
  {
    assert [m][..0] == [];
  }

  /** The Python functions of consecutive runs of matches are consecutive in the list. */
  lemma {:induction false} PyFunctionsAppend(a: seq<PyFuncMatch>, b: seq<PyFuncMatch>, file: string)
    ensures PyFunctions(a + b, file) == PyFunctions(a, file) + PyFunctions(b, file)
    decreases |b|
  {
    if b == [] {
      assert a + b == a;
    } else {
      var b', last := b[..|b| - 1], b[|b| - 1];
      assert (a + b)[..|a + b| - 1] == a + b';
      assert (a + b)[|a + b| - 1] == last;
      PyFunctionsAppend(a, b', file);
      Assoc(PyFunctions(a, file), PyFunctions(b', file), if PyPublic(last.name) then [PyFunction(last, file)] else []);
    }
  }

  lemma PyFunctionsOne(m: PyFuncMatch, file: string)
    ensures PyFunctions([m], file) == if PyPublic(m.name) then [PyFunction(m, file)] else []
  {
    assert [m][..0] == [];
  }

  // ---- Visibility, both directions ----

  /** A Go type is recorded iff its name starts with an upper-case letter. */
  lemma {:induction false} GoTypeRecorded(ms: seq<GoTypeMatch>, file: string, k: nat)
    requires k < |ms|
    ensures GoType(ms[k], file) in GoTypes(ms, file) <==> GoExported(ms[k].name)
    decreases |ms|
  {
    if k < |ms| - 1 {
      assert ms[..|ms| - 1][k] == ms[k];
      GoTypeRecorded(ms[..|ms| - 1], file, k);
    }
  }

  /** A Go function or method is recorded iff its name starts with an upper-case letter. */
  lemma {:induction false} GoFunctionRecorded(ms: seq<GoFuncMatch>, file: string, k: nat)
    requires k < |ms|
    ensures GoFunction(ms[k], file) in GoFunctions(ms, file) <==> GoExported(ms[k].name)
    decreases |ms|
  {
    if k < |ms| - 1 {
      assert ms[..|ms| - 1][k] == ms[k];
      GoFunctionRecorded(ms[..|ms| - 1], file, k);
    }
  }

  /** A Python class is recorded iff its name does not start with `_`. */
  lemma {:induction false} PyTypeRecorded(ms: seq<PyClassMatch>, file: string, k: nat)
    requires k < |ms|
    ensures PyType(ms[k], file) in PyTypes(ms, file) <==> PyPublic(ms[k].name)
    decreases |ms|
  {
    if k < |ms| - 1 {
      assert ms[..|ms| - 1][k] == ms[k];
      PyTypeRecorded(ms[..|ms| - 1], file, k);
    }
  }

  /** A Python function is recorded iff its name does not start with `_`. */
  lemma {:induction false} PyFunctionRecorded(ms: seq<PyFuncMatch>, file: string, k: nat)
    requires k < |ms|
    ensures PyFunction(ms[k], file) in PyFunctions(ms, file) <==> PyPublic(ms[k].name)
    decreases |ms|
  {
    if k < |ms| - 1 {
      assert ms[..|ms| - 1][k] == ms[k];
      PyFunctionRecorded(ms[..|ms| - 1], file, k);
    }
  }
}
