/** Paths in Python's order, and sorting them. */
module FramePaths {
  /** A path is the sequence of its parts. */
  type Path = seq<string>

  /** Texts compare character by character, a prefix first. */
  predicate TextLeq(a: string, b: string) {
    if a == "" then true
    else if b == "" then false
    else if a[0] != b[0] then a[0] < b[0]
    else TextLeq(a[1..], b[1..])
  }

  /** Paths compare part by part. */
  predicate PathLeq(a: Path, b: Path) {
    if a == [] then true
    else if b == [] then false
    else if a[0] != b[0] then TextLeq(a[0], b[0])
    else PathLeq(a[1..], b[1..])
  }

  lemma SameStart<T>(a: seq<T>, b: seq<T>, i: nat)
    requires 0 < i <= |a| && i <= |b|
    ensures a[..i] == b[..i] <==> a[0] == b[0] && a[1..][..i - 1] == b[1..][..i - 1]
  {
    assert a[..i] == [a[0]] + a[1..][..i - 1] && b[..i] == [b[0]] + b[1..][..i - 1];
    if a[..i] == b[..i] {
      assert a[..i][0] == b[..i][0] && a[..i][1..] == b[..i][1..];
    }
  }

  lemma SamePrefix<T>(a: seq<T>, b: seq<T>)
    requires a != [] && b != []
    ensures a <= b <==> a[0] == b[0] && a[1..] <= b[1..]
  {
    if |a| <= |b| {
      SameStart(a, b, |a|);
      assert a[..|a|] == a && a[1..][..|a| - 1] == a[1..];
    }
  }

  /** `a` and `b` first differ at `i`. */
  predicate DifferAt<T(==)>(a: seq<T>, b: seq<T>, i: nat) {
    i < |a| && i < |b| && a[..i] == b[..i] && a[i] != b[i]
  }

  lemma DifferLater<T>(a: seq<T>, b: seq<T>, i: nat)
    requires a != [] && b != [] && i > 0
    ensures DifferAt(a, b, i) <==> a[0] == b[0] && DifferAt(a[1..], b[1..], i - 1)
  {
    if i < |a| && i < |b| {
      SameStart(a, b, i);
    }
  }

  /** Texts are ordered by the first character in which they differ, a prefix first. */
  lemma {:induction false} TextOrder(a: string, b: string)
    ensures TextLeq(a, b) <==> a <= b || exists i: nat :: DifferAt(a, b, i) && a[i] < b[i]
  {
    if a != "" && b != "" {
      SamePrefix(a, b);
      TextOrder(a[1..], b[1..]);
      assert DifferAt(a, b, 0) <==> a[0] != b[0];
      if i: nat :| DifferAt(a, b, i) && a[i] < b[i] {
        if i > 0 {
          DifferLater(a, b, i);
          assert DifferAt(a[1..], b[1..], i - 1) && a[1..][i - 1] < b[1..][i - 1];
        }
      }
      if i: nat :| DifferAt(a[1..], b[1..], i) && a[1..][i] < b[1..][i] {
        DifferLater(a, b, i + 1);
        assert a[0] == b[0] ==> DifferAt(a, b, i + 1) && a[i + 1] < b[i + 1];
      }
    }
  }

  /** Paths are ordered by the first part in which they differ, a prefix first. */
  lemma {:induction false} PathOrder(a: Path, b: Path)
    ensures PathLeq(a, b) <==> a <= b || exists i: nat :: DifferAt(a, b, i) && TextLeq(a[i], b[i])
  {
    hide TextLeq;
    if a != [] && b != [] {
      SamePrefix(a, b);
      PathOrder(a[1..], b[1..]);
      assert DifferAt(a, b, 0) <==> a[0] != b[0];
      if i: nat :| DifferAt(a, b, i) && TextLeq(a[i], b[i]) {
        if i > 0 {
          DifferLater(a, b, i);
          assert DifferAt(a[1..], b[1..], i - 1) && TextLeq(a[1..][i - 1], b[1..][i - 1]);
        }
      }
      if i: nat :| DifferAt(a[1..], b[1..], i) && TextLeq(a[1..][i], b[1..][i]) {
        DifferLater(a, b, i + 1);
        assert a[0] == b[0] ==> DifferAt(a, b, i + 1) && TextLeq(a[i + 1], b[i + 1]);
      }
    }
  }

  lemma {:induction false} TextTotal(a: string, b: string)
    ensures TextLeq(a, b) || TextLeq(b, a)
    ensures TextLeq(a, b) && TextLeq(b, a) ==> a == b
  {
    if a != "" && b != "" && a[0] == b[0] {
      TextTotal(a[1..], b[1..]);
      assert a == [a[0]] + a[1..] && b == [b[0]] + b[1..];
    }
  }

  lemma {:induction false} TextTransitive(a: string, b: string, c: string)
    requires TextLeq(a, b) && TextLeq(b, c)
    ensures TextLeq(a, c)
  {
    if a != "" && b != "" && c != "" && a[0] == b[0] == c[0] {
      TextTransitive(a[1..], b[1..], c[1..]);
    }
  }

  lemma {:induction false} PathTotal(a: Path, b: Path)
    ensures PathLeq(a, b) || PathLeq(b, a)
    ensures PathLeq(a, b) && PathLeq(b, a) ==> a == b
  {
    if a != [] && b != [] {
      TextTotal(a[0], b[0]);
      if a[0] == b[0] {
        PathTotal(a[1..], b[1..]);
        assert a == [a[0]] + a[1..] && b == [b[0]] + b[1..];
      }
    }
  }

  lemma {:induction false} PathTransitive(a: Path, b: Path, c: Path)
    requires PathLeq(a, b) && PathLeq(b, c)
    ensures PathLeq(a, c)
  {
    if a != [] && b != [] && c != [] {
      if a[0] == b[0] == c[0] {
        PathTransitive(a[1..], b[1..], c[1..]);
      } else if a[0] != b[0] && b[0] != c[0] {
        TextTransitive(a[0], b[0], c[0]);
        TextTotal(a[0], b[0]);
      }
    }
  }

  predicate Ascending(paths: seq<Path>) {
    forall i, k :: 0 <= i < k < |paths| ==> PathLeq(paths[i], paths[k])
  }

  function Insert(p: Path, sorted: seq<Path>): seq<Path> {
    if sorted == [] || PathLeq(p, sorted[0]) then [p] + sorted else [sorted[0]] + Insert(p, sorted[1..])
  }

  function Sorted(paths: seq<Path>): seq<Path> {
    if paths == [] then [] else Insert(paths[0], Sorted(paths[1..]))
  }

  lemma {:induction false} InsertKeepsAscending(p: Path, sorted: seq<Path>)
    requires Ascending(sorted)
    ensures Ascending(Insert(p, sorted)) && multiset(Insert(p, sorted)) == multiset(sorted) + multiset{p}
  {
    hide PathLeq;
    var r := Insert(p, sorted);
    if sorted == [] || PathLeq(p, sorted[0]) {
      forall i | 0 <= i < |sorted|
        ensures PathLeq(p, sorted[i])
      {
        if i > 0 {
          PathTransitive(p, sorted[0], sorted[i]);
        }
      }
    } else {
      var first, rest := sorted[0], sorted[1..];
      InsertKeepsAscending(p, rest);
      PathTotal(p, first);
      assert sorted == [first] + rest && r == [first] + Insert(p, rest);
      forall k | 0 <= k < |Insert(p, rest)|
        ensures PathLeq(first, Insert(p, rest)[k])
      {
        var x := Insert(p, rest)[k];
        assert x in multiset(Insert(p, rest));
        assert x in multiset(rest) + multiset{p};
        if x != p {
          var i :| 0 <= i < |rest| && rest[i] == x;
          assert sorted[i + 1] == x;
        }
      }
    }
  }

  /** Sorting gives the same paths in ascending order. */
  lemma {:induction false} SortedIsAscending(paths: seq<Path>)
    ensures Ascending(Sorted(paths)) && multiset(Sorted(paths)) == multiset(paths)
    ensures |Sorted(paths)| == |paths|
  {
    hide Insert;
    if paths != [] {
      hide Ascending;
      SortedIsAscending(paths[1..]);
      InsertKeepsAscending(paths[0], Sorted(paths[1..]));
      assert paths == [paths[0]] + paths[1..];
    }
    assert |multiset(Sorted(paths))| == |multiset(paths)|;
  }

  /** And only one sequence is both, so that every way of sorting agrees. */
  lemma {:induction false} AscendingIsUnique(a: seq<Path>, b: seq<Path>)
    requires Ascending(a) && Ascending(b) && multiset(a) == multiset(b)
    ensures a == b
  {
    hide Ascending, PathLeq;
    assert |multiset(a)| == |multiset(b)|;
    if a != [] {
      LeastFirst(a, b);
      LeastFirst(b, a);
      PathTotal(a[0], b[0]);
      TailOf(a);
      TailOf(b);
      AscendingIsUnique(a[1..], b[1..]);
      assert a == [a[0]] + a[1..] && b == [b[0]] + b[1..];
    }
  }

  lemma TailOf(a: seq<Path>)
    requires a != [] && Ascending(a)
    ensures Ascending(a[1..]) && multiset(a[1..]) == multiset(a) - multiset{a[0]}
  {
    hide PathLeq;
    assert a == [a[0]] + a[1..];
  }

  lemma LeastFirst(a: seq<Path>, b: seq<Path>)
    requires Ascending(a) && multiset(a) == multiset(b) && a != [] && b != []
    ensures PathLeq(a[0], b[0])
  {
    hide PathLeq;
    assert b[0] in multiset(b);
    assert b[0] in multiset(a);
    var i :| 0 <= i < |a| && a[i] == b[0];
    PathTotal(a[0], a[0]);
  }
}
