/** Python's `sorted` on a list of str: code-point lexicographic order. */
module Sorting {

  /** `a <= b` on Python strings. */
  predicate Le(a: string, b: string)
    decreases |a|
  {
    a == [] || (b != [] && (a[0] < b[0] || (a[0] == b[0] && Le(a[1..], b[1..]))))
  }

  lemma {:induction false} LeTotal(a: string, b: string)
    ensures Le(a, b) || Le(b, a)
    decreases |a|
  {
    if a != [] && b != [] && a[0] == b[0] {
      LeTotal(a[1..], b[1..]);
    }
  }

  lemma {:induction false} LeRefl(a: string)
    ensures Le(a, a)
    decreases |a|
  {
    if a != [] { LeRefl(a[1..]); }
  }

  lemma {:induction false} LeTrans(a: string, b: string, c: string)
    requires Le(a, b) && Le(b, c)
    ensures Le(a, c)
    decreases |a|
  {
    if a != [] && a[0] == b[0] && b[0] == c[0] {
      LeTrans(a[1..], b[1..], c[1..]);
    }
  }

  lemma {:induction false} LeAntisym(a: string, b: string)
    requires Le(a, b) && Le(b, a)
    ensures a == b
    decreases |a|
  {
    if a != [] {
      LeAntisym(a[1..], b[1..]);
      assert a == [a[0]] + a[1..] && b == [b[0]] + b[1..];
    }
  }

  predicate Sorted(s: seq<string>) {
    forall i, j :: 0 <= i < j < |s| ==> Le(s[i], s[j])
  }

  /** Every element of a sorted sequence after its head is at least the head. */
  lemma HeadLeAll(x: string, s: seq<string>, y: string)
    requires Sorted(s) && s != [] && Le(x, s[0]) && y in multiset(s)
    ensures Le(x, y)
  {
    var k :| 0 <= k < |s| && s[k] == y;
    if k > 0 { LeTrans(x, s[0], y); }
  }

  /** A head that is at most every element keeps a sorted sequence sorted. */
  lemma PrependSorted(x: string, t: seq<string>)
    requires Sorted(t) && forall k :: 0 <= k < |t| ==> Le(x, t[k])
    ensures Sorted([x] + t)
  {
    forall i, j | 0 <= i < j < |t| + 1 ensures Le(([x] + t)[i], ([x] + t)[j]) {
      if i > 0 {
        assert ([x] + t)[i] == t[i - 1];
      }
      assert ([x] + t)[j] == t[j - 1];
    }
  }

  /** Every element of a multiset drawn from `s[1..]` and `x` is at least `s[0]`. */
  lemma InsertTailBound(x: string, s: seq<string>, t: seq<string>)
    requires Sorted(s) && s != [] && Le(s[0], x)
    requires multiset(t) == multiset(s[1..]) + multiset{x}
    ensures forall k :: 0 <= k < |t| ==> Le(s[0], t[k])
  {
    forall k | 0 <= k < |t| ensures Le(s[0], t[k]) {
      assert t[k] in multiset(t);
      if t[k] != x {
        assert t[k] in multiset(s[1..]);
        var j :| 0 <= j < |s[1..]| && s[1..][j] == t[k];
        assert s[j + 1] == t[k];
      }
    }
  }

  function Insert(x: string, s: seq<string>): (r: seq<string>)
    requires Sorted(s)
    ensures Sorted(r)
    ensures multiset(r) == multiset(s) + multiset{x}
    decreases |s|
  {
    if s == [] then [x]
    else if Le(x, s[0]) then
      forall k | 0 <= k < |s| ensures Le(x, s[k]) { HeadLeAll(x, s, s[k]); }
      PrependSorted(x, s);
      [x] + s
    else
      SortedTail(s);
      var t := Insert(x, s[1..]);
      LeTotal(x, s[0]);
      InsertTailBound(x, s, t);
      PrependSorted(s[0], t);
      assert s == [s[0]] + s[1..];
      [s[0]] + t
  }

  /** `sorted(s)`: the ascending arrangement of exactly the elements of `s`. */
  function Sort(s: seq<string>): (r: seq<string>)
    ensures Sorted(r)
    ensures multiset(r) == multiset(s)
    decreases |s|
  {
    if s == [] then []
    else
      assert s == [s[0]] + s[1..];
      Insert(s[0], Sort(s[1..]))
  }

  lemma SortedHeadMin(s: seq<string>, y: string)
    requires Sorted(s) && y in multiset(s)
    ensures s != [] && Le(s[0], y)
  {
    var k :| 0 <= k < |s| && s[k] == y;
    if k == 0 { LeRefl(y); }
  }

  lemma SortedTail(s: seq<string>)
    requires Sorted(s) && s != []
    ensures Sorted(s[1..])
  {
    forall i, j | 0 <= i < j < |s| - 1 ensures Le(s[1..][i], s[1..][j]) {
      assert s[1..][i] == s[i + 1] && s[1..][j] == s[j + 1];
    }
  }

  lemma TailMultiset(a: seq<string>, b: seq<string>)
    requires a != [] && b != [] && a[0] == b[0] && multiset(a) == multiset(b)
    ensures multiset(a[1..]) == multiset(b[1..])
  {
    assert a == [a[0]] + a[1..] && b == [b[0]] + b[1..];
    assert multiset(a) == multiset{a[0]} + multiset(a[1..]);
    assert multiset(b) == multiset{b[0]} + multiset(b[1..]);
    forall y ensures multiset(a[1..])[y] == multiset(b[1..])[y] {
      assert multiset(a)[y] == multiset{a[0]}[y] + multiset(a[1..])[y];
      assert multiset(b)[y] == multiset{b[0]}[y] + multiset(b[1..])[y];
    }
  }

  /** A sorted arrangement is unique, so `Sort` is the only possible output. */
  lemma {:induction false} SortedUnique(a: seq<string>, b: seq<string>)
    requires Sorted(a) && Sorted(b) && multiset(a) == multiset(b)
    ensures a == b
    decreases |a|
  {
    if a != [] {
      assert a[0] in multiset(a);
      SortedHeadMin(b, a[0]);
      assert b[0] in multiset(b);
      SortedHeadMin(a, b[0]);
      LeAntisym(a[0], b[0]);
      TailMultiset(a, b);
      SortedTail(a);
      SortedTail(b);
      SortedUnique(a[1..], b[1..]);
      assert a == [a[0]] + a[1..] && b == [b[0]] + b[1..];
    }
  }
}
