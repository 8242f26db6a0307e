/** Searching and splitting text the way std::string and std::getline do. */
module Text {
  import opened Wrappers

  /** `t` occurs in `s` starting at index `i`. */
  predicate OccursAt(s: string, t: string, i: nat) {
    i + |t| <= |s| && s[i..i + |t|] == t
  }

  /** std::string::find(t, from): the first index at or after `from` where `t` occurs. */
  function FindFrom(s: string, t: string, from: nat): (r: Option<nat>)
    ensures r.Some? ==> from <= r.value && OccursAt(s, t, r.value)
    ensures r.Some? ==> forall j :: from <= j < r.value ==> !OccursAt(s, t, j)
    ensures r.None? ==> forall j :: from <= j ==> !OccursAt(s, t, j)
    decreases |s| - from
  {
    if from + |t| > |s| then None
    else if s[from..from + |t|] == t then Some(from)
    else FindFrom(s, t, from + 1)
  }

  /** `s.find(t) != npos`. */
  function Contains(s: string, t: string): (b: bool)
    ensures b <==> exists i: nat :: OccursAt(s, t, i)
  {
    FindFrom(s, t, 0).Some?
  }

  /** std::string::find_first_of(cs, from), and std::string::find(c, from) when `cs` is `[c]`. */
  function FindFirstOf(s: string, cs: string, from: nat): (r: Option<nat>)
    ensures r.Some? ==> from <= r.value < |s| && s[r.value] in cs
    ensures r.Some? ==> forall j :: from <= j < r.value ==> s[j] !in cs
    ensures r.None? ==> forall j :: from <= j < |s| ==> s[j] !in cs
    decreases |s| - from
  {
    if from >= |s| then None
    else if s[from] in cs then Some(from)
    else FindFirstOf(s, cs, from + 1)
  }

  /** `s.substr(from, end - from)` where `end` is a position found after `from`, or npos. */
  function Until(s: string, from: nat, end: Option<nat>): (r: string)
    requires from <= |s|
    requires end.Some? ==> from <= end.value <= |s|
    ensures r <= s[from..]
    ensures end.None? ==> r == s[from..]
    ensures end.Some? ==> |r| == end.value - from
  {
    match end
    case None => s[from..]
    case Some(e) => s[from..e]
  }

  /** The lines std::getline yields from a stream over `s`: the pieces between '\n'
      characters, where a final '\n' does not open another, empty, line. */
  function Lines(s: string): (ls: seq<string>)
    ensures forall k :: 0 <= k < |ls| ==> '\n' !in ls[k]
    decreases |s|
  {
    if s == [] then []
    else
      match FindFirstOf(s, "\n", 0)
      case None => [s]
      case Some(i) => [s[..i]] + Lines(s[i + 1..])
  }

  /** The lines concatenated, each followed by "\n". */
  function Joined(ls: seq<string>): string {
    if ls == [] then "" else ls[0] + "\n" + Joined(ls[1..])
  }

  /** Splitting the joined lines gives the lines back. */
  lemma {:induction false} LinesOfJoined(ls: seq<string>)
    requires forall k :: 0 <= k < |ls| ==> '\n' !in ls[k]
    ensures Lines(Joined(ls)) == ls
  {
    if ls != [] {
      var s := Joined(ls);
      var n := |ls[0]|;
      assert s == ls[0] + "\n" + Joined(ls[1..]);
      assert s[n] == '\n';
      assert forall j :: 0 <= j < n ==> s[j] == ls[0][j];
      var r := FindFirstOf(s, "\n", 0);
      assert r == Some(n);
      assert s[..n] == ls[0];
      assert s[n + 1..] == Joined(ls[1..]);
      LinesOfJoined(ls[1..]);
    }
  }

  /** Occurrences inside the first part of a concatenation are occurrences in that part. */
  lemma OccursInLeft(a: string, b: string, t: string, i: nat)
    requires i + |t| <= |a|
    ensures OccursAt(a + b, t, i) <==> OccursAt(a, t, i)
  {
    assert (a + b)[i..i + |t|] == a[i..i + |t|];
  }

  /** Occurrences after the first part of a concatenation are occurrences in the second part. */
  lemma OccursInRight(a: string, b: string, t: string, i: nat)
    ensures OccursAt(a + b, t, |a| + i) <==> OccursAt(b, t, i)
  {
    if |a| + i + |t| <= |a + b| {
      assert (a + b)[|a| + i..|a| + i + |t|] == b[i..i + |t|];
    }
  }

  /** Every character an occurrence covers is a character of `t`. */
  lemma OccursCovers(s: string, t: string, i: nat, k: nat)
    requires OccursAt(s, t, i) && i <= k < i + |t|
    ensures s[k] == t[k - i]
  {
    assert s[i..i + |t|][k - i] == s[k];
  }

  /** An occurrence of `t` cannot straddle a character that `t` does not contain. */
  lemma ContainsAcross(a: string, c: char, b: string, t: string)
    requires c !in t
    ensures Contains(a + [c] + b, t) <==> Contains(a, t) || Contains(b, t)
  {
    var s := a + [c] + b;
    assert s == a + ([c] + b);
    if Contains(a, t) {
      var i: nat :| OccursAt(a, t, i);
      OccursInLeft(a, [c] + b, t, i);
    }
    if Contains(b, t) {
      var i: nat :| OccursAt(b, t, i);
      OccursInRight(a + [c], b, t, i);
    }
    if Contains(s, t) {
      var i: nat :| OccursAt(s, t, i);
      if i + |t| <= |a| {
        OccursInLeft(a, [c] + b, t, i);
      } else if i >= |a| + 1 {
        OccursInRight(a + [c], b, t, i - |a| - 1);
      } else {
        OccursCovers(s, t, i, |a|);
        assert false;
      }
    }
  }

  /** No occurrence of `t` starts before `c` when `a` holds none and `t` cannot straddle `c`. */
  lemma NoneBefore(a: string, c: char, b: string, t: string, j: nat)
    requires c !in t && !Contains(a, t) && j <= |a|
    ensures !OccursAt(a + [c] + b, t, j)
  {
    var s := a + [c] + b;
    if OccursAt(s, t, j) {
      if j + |t| <= |a| {
        assert s == a + ([c] + b);
        OccursInLeft(a, [c] + b, t, j);
      } else {
        OccursCovers(s, t, j, |a|);
      }
    }
  }

  /** find stops at the first occurrence. */
  lemma FindFirstAt(s: string, t: string, k: nat)
    requires OccursAt(s, t, k) && forall j :: 0 <= j < k ==> !OccursAt(s, t, j)
    ensures FindFrom(s, t, 0) == Some(k)
  {
    var r := FindFrom(s, t, 0);
    assert r.Some? && r.value <= k;
  }

  /** A search finds `t` right after `c` when `a` holds no occurrence of `t`, `t` cannot
      straddle `c`, and what follows `c` starts with `t`. */
  lemma FindAfter(a: string, c: char, b: string, t: string)
    requires c !in t && !Contains(a, t) && OccursAt(b, t, 0)
    ensures FindFrom(a + [c] + b, t, 0) == Some(|a| + 1)
  {
    OccursInRight(a + [c], b, t, 0);
    forall j | 0 <= j < |a| + 1
      ensures !OccursAt(a + [c] + b, t, j)
    {
      NoneBefore(a, c, b, t, j);
    }
    FindFirstAt(a + [c] + b, t, |a| + 1);
  }

  /** Text lacking one of t's characters does not contain `t`. */
  lemma MissingChar(s: string, t: string, i: nat)
    requires i < |t| && t[i] !in s
    ensures !Contains(s, t)
  {
    if Contains(s, t) {
      var k: nat :| OccursAt(s, t, k);
      OccursCovers(s, t, k, k + i);
    }
  }

  /** find_first_of stops at the first character of `cs` at or after `from`. */
  lemma FirstOfAt(s: string, cs: string, from: nat, e: nat)
    requires from <= e < |s| && s[e] in cs
    requires forall j :: from <= j < e ==> s[j] !in cs
    ensures FindFirstOf(s, cs, from) == Some(e)
  {
  }

  /** Lines of text with a '\n' at `i`: the text before it, then the lines after it. */
  lemma LinesAt(s: string, i: nat)
    requires FindFirstOf(s, "\n", 0) == Some(i)
    ensures Lines(s) == [s[..i]] + Lines(s[i + 1..])
    ensures s == s[..i] + ['\n'] + s[i + 1..]
  {
    assert s == s[..i] + ['\n'] + s[i + 1..];
  }

  /** A token without '\n' found in text is found on one of its lines. */
  lemma {:induction false} TokenOnSomeLine(s: string, t: string)
    requires '\n' !in t && t != [] && Contains(s, t)
    ensures exists k :: 0 <= k < |Lines(s)| && Contains(Lines(s)[k], t)
    decreases |s|
  {
    if s == [] {
      assert false;
    }
    var f := FindFirstOf(s, "\n", 0);
    if f.None? {
      assert Lines(s)[0] == s;
    } else {
      var i := f.value;
      var before := s[..i];
      var after := s[i + 1..];
      LinesAt(s, i);
      ContainsAcross(before, '\n', after, t);
      if Contains(before, t) {
        assert Lines(s)[0] == before;
      } else {
        TokenOnSomeLine(after, t);
        var k :| 0 <= k < |Lines(after)| && Contains(Lines(after)[k], t);
        LineAfter(s, i, after, k);
      }
    }
  }

  /** Line `k` after the first '\n' is line `k + 1` of the whole text. */
  lemma LineAfter(s: string, i: nat, after: string, k: nat)
    requires FindFirstOf(s, "\n", 0) == Some(i) && after == s[i + 1..] && k < |Lines(after)|
    ensures k + 1 < |Lines(s)| && Lines(s)[k + 1] == Lines(after)[k]
  {
    LinesAt(s, i);
  }

  /** A token found on a line of the text is found in the text. */
  lemma {:induction false} TokenFromLine(s: string, t: string, k: nat)
    requires '\n' !in t && k < |Lines(s)| && Contains(Lines(s)[k], t)
    ensures Contains(s, t)
    decreases |s|
  {
    var ls := Lines(s);
    match FindFirstOf(s, "\n", 0)
    case None =>
      assert ls == [s];
    case Some(i) =>
      var rest := Lines(s[i + 1..]);
      assert ls == [s[..i]] + rest;
      assert s == s[..i] + ['\n'] + s[i + 1..];
      ContainsAcross(s[..i], '\n', s[i + 1..], t);
      if k > 0 {
        assert ls[k] == rest[k - 1];
        TokenFromLine(s[i + 1..], t, k - 1);
      }
  }

  /** A token without '\n' occurs in joined lines followed by `tail` exactly when it occurs
      on one of the lines or in the tail. */
  lemma {:induction false} JoinedContains(ls: seq<string>, tail: string, t: string)
    requires '\n' !in t
    ensures Contains(Joined(ls) + tail, t) <==>
              (exists k :: 0 <= k < |ls| && Contains(ls[k], t)) || Contains(tail, t)
    decreases |ls|
  {
    if ls == [] {
      assert Joined(ls) + tail == tail;
    } else {
      var later := ls[1..];
      var rest := Joined(later) + tail;
      assert Joined(ls) + tail == ls[0] + ['\n'] + rest;
      ContainsAcross(ls[0], '\n', rest, t);
      JoinedContains(later, tail, t);
      if exists k :: 0 <= k < |ls| && Contains(ls[k], t) {
        var k :| 0 <= k < |ls| && Contains(ls[k], t);
        if k > 0 {
          assert later[k - 1] == ls[k];
        }
      }
      if exists k :: 0 <= k < |later| && Contains(later[k], t) {
        var k :| 0 <= k < |later| && Contains(later[k], t);
        assert ls[k + 1] == later[k];
      }
    }
  }

  /** Joining one more line appends it and its "\n". */
  lemma {:induction false} JoinedSnoc(ls: seq<string>, line: string)
    ensures Joined(ls + [line]) == Joined(ls) + line + "\n"
    decreases |ls|
  {
    if ls == [] {
      assert ls + [line] == [line];
    } else {
      assert (ls + [line])[1..] == ls[1..] + [line];
      JoinedSnoc(ls[1..], line);
    }
  }
}
