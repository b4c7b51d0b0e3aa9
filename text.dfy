/** Character classes and string helpers with the meaning Python gives them. */
module Text {

  /** `str.isspace()` and the `\s` class of `re` on str patterns: Python's
      whitespace characters, listed by code point. */
  predicate IsSpace(c: char) {
    var n := c as int;
    (9 <= n <= 13) || (28 <= n <= 32) || n == 0x85 || n == 0xA0 || n == 0x1680 ||
    (0x2000 <= n <= 0x200A) || n == 0x2028 || n == 0x2029 || n == 0x202F ||
    n == 0x205F || n == 0x3000
  }

  /** `\d`, restricted to ASCII digits. */
  predicate IsDigit(c: char) { '0' <= c <= '9' }

  /** `str.isupper()` on one character, restricted to ASCII letters. */
  predicate IsUpper(c: char) { 'A' <= c <= 'Z' }

  /** `\w`, restricted to ASCII letters, digits and the underscore. */
  predicate IsWordChar(c: char) {
    'a' <= c <= 'z' || 'A' <= c <= 'Z' || '0' <= c <= '9' || c == '_'
  }

  /** A non-empty run of word characters, what `(\w+)` captures. */
  predicate IsWord(s: string) {
    s != [] && forall i :: 0 <= i < |s| ==> IsWordChar(s[i])
  }

  predicate AllSpace(s: string) {
    forall i :: 0 <= i < |s| ==> IsSpace(s[i])
  }

  predicate StartsWith(s: string, p: string) {
    |p| <= |s| && s[..|p|] == p
  }

  predicate EndsWith(s: string, p: string) {
    |p| <= |s| && s[|s| - |p|..] == p
  }

  /** Python's `t in s` for strings. */
  predicate Contains(s: string, t: string)
    decreases |s|
  {
    StartsWith(s, t) || (s != [] && Contains(s[1..], t))
  }

  lemma {:induction false} ContainsAt(s: string, t: string, i: nat)
    requires i + |t| <= |s| && s[i..i + |t|] == t
    ensures Contains(s, t)
    decreases i
  {
    if i > 0 {
      assert s[1..][i - 1..i - 1 + |t|] == s[i..i + |t|];
      ContainsAt(s[1..], t, i - 1);
    }
  }

  /** `s.lstrip()`. */
  function StripLeading(s: string): (r: string)
    ensures |r| <= |s| && r == s[|s| - |r|..]
    ensures AllSpace(s[..|s| - |r|])
    ensures r == [] || !IsSpace(r[0])
    decreases |s|
  {
    if s != [] && IsSpace(s[0]) then
      var r := StripLeading(s[1..]);
      var pre, pre' := s[..|s| - |r|], s[1..][..|s| - 1 - |r|];
      assert forall i :: 0 < i < |pre| ==> pre[i] == pre'[i - 1];
      assert s[|s| - |r|..] == s[1..][|s| - 1 - |r|..];
      r
    else s
  }

  /** `s.rstrip()`. */
  function StripTrailing(s: string): (r: string)
    ensures |r| <= |s| && r == s[..|r|]
    ensures AllSpace(s[|r|..])
    ensures r == [] || !IsSpace(r[|r| - 1])
    decreases |s|
  {
    if s != [] && IsSpace(s[|s| - 1]) then
      var t := s[..|s| - 1];
      var r := StripTrailing(t);
      assert forall i :: |r| <= i < |s| ==> s[i] == (if i == |s| - 1 then s[|s| - 1] else t[|r|..][i - |r|]);
      assert s[..|r|] == t[..|r|];
      r
    else s
  }

  /** Text that neither starts nor ends with whitespace. */
  predicate Unpadded(r: string) {
    r == [] || (!IsSpace(r[0]) && !IsSpace(r[|r| - 1]))
  }

  /** `s.strip()`: the text between the leading and the trailing whitespace. */
  function Strip(s: string): (r: string)
    ensures Unpadded(r)
    ensures |r| <= |s|
  {
    var t := StripLeading(s);
    var r := StripTrailing(t);
    assert r != [] ==> r[0] == t[0];
    r
  }

  lemma {:induction false} StripLeadingSpaces(a: string, x: string)
    requires AllSpace(a)
    ensures StripLeading(a + x) == StripLeading(x)
    decreases |a|
  {
    if a != [] {
      var a' := a[1..];
      assert (a + x)[0] == a[0];
      assert (a + x)[1..] == a' + x;
      assert forall i :: 0 <= i < |a'| ==> a'[i] == a[i + 1];
      StripLeadingSpaces(a', x);
      assert StripLeading(a + x) == StripLeading(a' + x);
    } else {
      assert a + x == x;
    }
  }

  lemma {:induction false} StripTrailingSpaces(x: string, b: string)
    requires AllSpace(b)
    ensures StripTrailing(x + b) == StripTrailing(x)
    decreases |b|
  {
    if b != [] {
      var b' := b[..|b| - 1];
      assert (x + b)[|x + b| - 1] == b[|b| - 1];
      assert (x + b)[..|x + b| - 1] == x + b';
      assert forall i :: 0 <= i < |b'| ==> b'[i] == b[i];
      StripTrailingSpaces(x, b');
      assert StripTrailing(x + b) == StripTrailing(x + b');
    } else {
      assert x + b == x;
    }
  }

  /** Stripping undoes any whitespace padding of a text that has no
      whitespace at either end: `strip` is the inverse of padding. */
  lemma StripPadded(a: string, r: string, b: string)
    requires AllSpace(a) && AllSpace(b) && Unpadded(r)
    ensures Strip(a + r + b) == r
  {
    var s := a + r + b;
    assert s == a + (r + b);
    StripLeadingSpaces(a, r + b);
    var t := r + b;
    if r == [] {
      assert t == b + [];
      StripLeadingSpaces(b, []);
      assert StripLeading(t) == [];
      assert StripTrailing([]) == [];
    } else {
      assert t[0] == r[0];
      assert StripLeading(t) == t;
      StripTrailingSpaces(r, b);
    }
  }

  /** Every text is its stripped form padded by whitespace on both sides. */
  lemma StripDecomposes(s: string)
    ensures exists i, j :: 0 <= i <= j <= |s| && AllSpace(s[..i]) && AllSpace(s[j..]) && Strip(s) == s[i..j]
  {
    var t := StripLeading(s);
    var r := StripTrailing(t);
    var i := |s| - |t|;
    var j := i + |r|;
    assert t == s[i..];
    assert s[i..j] == t[..|r|];
    assert s[j..] == t[|r|..];
    assert Strip(s) == r;
    assert AllSpace(s[..i]) && AllSpace(s[j..]) && Strip(s) == s[i..j];
  }

  lemma StripIdempotent(s: string)
    ensures Strip(Strip(s)) == Strip(s)
  {
    var r := Strip(s);
    assert StripLeading(r) == r;
    assert StripTrailing(r) == r;
  }

  /** `s.split("/")[-1]`: the text after the last `/`, or all of `s`. */
  function AfterLastSlash(s: string): (r: string)
    ensures '/' !in r
    ensures EndsWith(s, r)
    ensures |r| < |s| ==> s[|s| - |r| - 1] == '/'
    ensures '/' !in s ==> r == s
    decreases |s|
  {
    if s == [] then []
    else if s[|s| - 1] == '/' then []
    else
      var t := s[..|s| - 1];
      var r' := AfterLastSlash(t);
      var r := r' + [s[|s| - 1]];
      assert t[|t| - |r'|..] == r';
      assert forall i :: 0 <= i < |r| ==> s[|s| - |r| + i] == r[i] by {
        forall i | 0 <= i < |r| ensures s[|s| - |r| + i] == r[i] {
          if i < |r'| { assert s[|s| - |r| + i] == t[|t| - |r'| + i]; }
        }
      }
      assert s[|s| - |r|..] == r;
      assert |r| < |s| ==> |r'| < |t| && s[|s| - |r| - 1] == t[|t| - |r'| - 1];
      assert '/' !in s ==> t == r' && s == t + [s[|s| - 1]];
      r
  }

  /** Python's `str.join` with separator `sep`. */
  function Join(parts: seq<string>, sep: string): string
    decreases |parts|
  {
    if parts == [] then ""
    else if |parts| == 1 then parts[0]
    else parts[0] + sep + Join(parts[1..], sep)
  }

  /** Concatenation regrouped, stated once so that proofs need not rediscover it. */
  lemma Assoc<T>(a: seq<T>, b: seq<T>, c: seq<T>)
    ensures (a + b) + c == a + (b + c)
  {
  }

  /** `f` applied to every element of `s`, in order. */
  function Apply<A, B>(f: A -> B, s: seq<A>): (r: seq<B>)
    ensures |r| == |s|
    decreases |s|
  {
    if s == [] then [] else Apply(f, s[..|s| - 1]) + [f(s[|s| - 1])]
  }

  lemma {:induction false} ApplyAt<A, B>(f: A -> B, s: seq<A>, k: nat)
    requires k < |s|
    ensures Apply(f, s)[k] == f(s[k])
    decreases |s|
  {
    var n := |s| - 1;
    if k < n {
      assert s[..n][k] == s[k];
      ApplyAt(f, s[..n], k);
    }
  }

  /** `t` occurs in `s` at position `i`. */
  predicate OccursAt(s: string, t: string, i: nat) {
    i + |t| <= |s| && s[i..i + |t|] == t
  }

  /** `t in s` holds only when `t` occurs at some position of `s`. */
  lemma {:induction false} ContainsOccurs(s: string, t: string)
    requires Contains(s, t)
    ensures exists i: nat :: OccursAt(s, t, i)
    decreases |s|
  {
    if StartsWith(s, t) {
      assert OccursAt(s, t, 0);
    } else {
      ContainsOccurs(s[1..], t);
      var i: nat :| OccursAt(s[1..], t, i);
      assert s[i + 1..i + 1 + |t|] == s[1..][i..i + |t|];
      assert OccursAt(s, t, i + 1);
    }
  }

  /** Python's substring test: `t in s` exactly when `t` occurs at some position. */
  lemma ContainsIff(s: string, t: string)
    ensures Contains(s, t) <==> exists i: nat :: OccursAt(s, t, i)
  {
    if Contains(s, t) {
      ContainsOccurs(s, t);
    }
    if exists i: nat :: OccursAt(s, t, i) {
      var i: nat :| OccursAt(s, t, i);
      ContainsAt(s, t, i);
    }
  }
}
