/** The ascending order `std::sort` puts a vector of `std::string` in: lexicographic by
    character code, a proper prefix before any of its extensions. */
module Ordering {

  /** `a <= b` for `std::string`. */
  predicate LexLe(a: string, b: string)
    decreases |a|
  {
    a == [] || (b != [] && (a[0] < b[0] || (a[0] == b[0] && LexLe(a[1..], b[1..]))))
  }

  lemma {:induction false} LexReflexive(a: string)
    ensures LexLe(a, a)
    decreases |a|
  {
    if a != [] { LexReflexive(a[1..]); }
  }

  lemma {:induction false} LexTotal(a: string, b: string)
    ensures LexLe(a, b) || LexLe(b, a)
    decreases |a|
  {
    if a != [] && b != [] && a[0] == b[0] {
      LexTotal(a[1..], b[1..]);
    }
  }

  lemma {:induction false} LexAntisymmetric(a: string, b: string)
    requires LexLe(a, b) && LexLe(b, a)
    ensures a == b
    decreases |a|
  {
    if a != [] {
      LexAntisymmetric(a[1..], b[1..]);
      assert a == [a[0]] + a[1..] && b == [b[0]] + b[1..];
    }
  }

  lemma {:induction false} LexTransitive(a: string, b: string, c: string)
    requires LexLe(a, b) && LexLe(b, c)
    ensures LexLe(a, c)
    decreases |a|
  {
    if a != [] && a[0] == b[0] && b[0] == c[0] {
      LexTransitive(a[1..], b[1..], c[1..]);
    }
  }

  /** Every element is at most every later one. */
  predicate Sorted(s: seq<string>) {
    forall i, j :: 0 <= i < j < |s| ==> LexLe(s[i], s[j])
  }

  /** `lo` is at most every element of `s`. */
  predicate Below(lo: string, s: seq<string>) {
    forall k :: 0 <= k < |s| ==> LexLe(lo, s[k])
  }

  /** `x` placed before the first element it does not exceed. */
  function Insert(x: string, s: seq<string>): (r: seq<string>)
    requires Sorted(s)
    ensures Sorted(r) && multiset(r) == multiset(s) + multiset{x}
    ensures forall lo :: Below(lo, s) && LexLe(lo, x) ==> Below(lo, r)
  {
    if s == [] then [x]
    else if LexLe(x, s[0]) then
      assert forall k :: 0 < k < |s| ==> LexLe(s[0], s[k]);
      assert Below(x, s) by {
        forall k | 0 <= k < |s| ensures LexLe(x, s[k]) {
          if k > 0 { LexTransitive(x, s[0], s[k]); }
        }
      }
      [x] + s
    else
      var t := Insert(x, s[1..]);
      InsertAfter(x, s, t);
      [s[0]] + t
  }

  /** `x` inserted after the first element of `s`, which it exceeds. */
  lemma InsertAfter(x: string, s: seq<string>, t: seq<string>)
    requires Sorted(s) && s != [] && !LexLe(x, s[0])
    requires Sorted(t) && multiset(t) == multiset(s[1..]) + multiset{x}
    requires forall lo :: Below(lo, s[1..]) && LexLe(lo, x) ==> Below(lo, t)
    ensures Sorted([s[0]] + t) && multiset([s[0]] + t) == multiset(s) + multiset{x}
    ensures forall lo :: Below(lo, s) && LexLe(lo, x) ==> Below(lo, [s[0]] + t)
  {
    assert s == [s[0]] + s[1..];
    LexTotal(x, s[0]);
    assert Below(s[0], s[1..]);
    var r := [s[0]] + t;
    forall lo | Below(lo, s) && LexLe(lo, x) ensures Below(lo, r) {
      assert Below(lo, s[1..]);
    }
  }

  /** An ascending rearrangement of `s`. */
  function Sort(s: seq<string>): (r: seq<string>)
    ensures Sorted(r) && multiset(r) == multiset(s)
  {
    if s == [] then []
    else
      assert s == [s[0]] + s[1..];
      Insert(s[0], Sort(s[1..]))
  }

  lemma TailMultiset(a: seq<string>)
    requires a != []
    ensures multiset(a[1..]) == multiset(a) - multiset{a[0]}
  {
    assert a == [a[0]] + a[1..];
  }

  /** Two ascending sequences with the same elements are equal: the sorted order of a
      collection of strings is unique, whatever order the elements came in. */
  lemma {:induction false} SortedUnique(a: seq<string>, b: seq<string>)
    requires Sorted(a) && Sorted(b) && multiset(a) == multiset(b)
    ensures a == b
  {
    if a != [] {
      assert a[0] in multiset(b);
      assert b != [] && b[0] in multiset(a);
      var i :| 0 <= i < |a| && a[i] == b[0];
      var j :| 0 <= j < |b| && b[j] == a[0];
      LexReflexive(a[0]);
      assert LexLe(a[0], b[0]) by { if i > 0 { assert LexLe(a[0], a[i]); } }
      assert LexLe(b[0], a[0]) by { if j > 0 { assert LexLe(b[0], b[j]); } }
      LexAntisymmetric(a[0], b[0]);
      TailMultiset(a);
      TailMultiset(b);
      SortedUnique(a[1..], b[1..]);
      assert a == [a[0]] + a[1..] && b == [b[0]] + b[1..];
    } else {
      assert |b| == |multiset(b)|;
    }
  }

  /** Sorting depends only on the elements, not on the order they were given in. */
  lemma SortOrderIndependent(a: seq<string>, b: seq<string>)
    requires multiset(a) == multiset(b)
    ensures Sort(a) == Sort(b)
  {
    SortedUnique(Sort(a), Sort(b));
  }
}
