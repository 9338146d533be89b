/** Optional values, and the string order and distinctness behind Python's `sorted` and `set`. */
module Ordering {

  datatype Option<+T> = None | Some(value: T)

  /** Code-point order on strings, as Python compares `str` values. */
  predicate Less(a: string, b: string) {
    b != [] && (a == [] || a[0] < b[0] || (a[0] == b[0] && Less(a[1..], b[1..])))
  }

  lemma LessTotal(a: string, b: string)
    ensures Less(a, b) || a == b || Less(b, a)
  {
    if a == [] || b == [] || a[0] != b[0] {
    } else {
      LessTotal(a[1..], b[1..]);
      assert a == [a[0]] + a[1..] && b == [b[0]] + b[1..];
    }
  }

  lemma LessTransitive(a: string, b: string, c: string)
    requires Less(a, b) && Less(b, c)
    ensures Less(a, c)
  {
    if a == [] || a[0] != b[0] || b[0] != c[0] {
    } else {
      LessTransitive(a[1..], b[1..], c[1..]);
    }
  }

  lemma LessIrreflexive(a: string, b: string)
    requires Less(a, b)
    ensures a != b && !Less(b, a)
  {
    if a == [] || a[0] != b[0] {
    } else {
      LessIrreflexive(a[1..], b[1..]);
    }
  }

  predicate IsLeast(s: set<string>, m: string) {
    m in s && forall x :: x in s && x != m ==> Less(m, x)
  }

  lemma LeastExists(s: set<string>)
    requires s != {}
    ensures exists m :: IsLeast(s, m)
  {
    var x :| x in s;
    if s == {x} {
      assert IsLeast(s, x);
    } else {
      LeastExists(s - {x});
      var m :| IsLeast(s - {x}, m);
      LessTotal(x, m);
      if Less(x, m) {
        forall y | y in s && y != x ensures Less(x, y) {
          if y != m { LessTransitive(x, m, y); }
        }
        assert IsLeast(s, x);
      } else {
        assert IsLeast(s, m);
      }
    }
  }

  /** The first element of a non-empty set of strings. */
  function Least(s: set<string>): (m: string)
    requires s != {}
    ensures IsLeast(s, m)
  {
    LeastExists(s);
    assert forall x, y | IsLeast(s, x) && IsLeast(s, y) :: x == y by {
      forall x, y | IsLeast(s, x) && IsLeast(s, y) ensures x == y {
        if x != y { LessIrreflexive(x, y); }
      }
    }
    var m :| m in s && IsLeast(s, m);
    m
  }

  /** `sorted(s)`: every element once, in increasing order. */
  function Sorted(s: set<string>): (r: seq<string>)
    ensures forall x :: x in r <==> x in s
    ensures |r| == |s|
    ensures forall i, j :: 0 <= i < j < |r| ==> Less(r[i], r[j])
  {
    if s == {} then [] else
      var m := Least(s);
      [m] + Sorted(s - {m})
  }

  predicate Distinct(s: seq<string>) {
    forall i, j :: 0 <= i < j < |s| ==> s[i] != s[j]
  }

  lemma SortedDistinct(s: set<string>)
    ensures Distinct(Sorted(s))
  {
    var r := Sorted(s);
    forall i, j | 0 <= i < j < |r| ensures r[i] != r[j] {
      LessIrreflexive(r[i], r[j]);
    }
  }

  /** The first `n` names of a list that are in a set, in the order of the list. */
  function Kept(names: seq<string>, n: nat, keep: set<string>): (kept: seq<string>)
    requires n <= |names|
    ensures forall name :: name in kept ==> name in keep
  {
    if n == 0 then []
    else Kept(names, n - 1, keep) + if names[n - 1] in keep then [names[n - 1]] else []
  }

  lemma {:induction false} KeptFromFront(names: seq<string>, n: nat, keep: set<string>)
    requires 0 < n <= |names|
    ensures Kept(names, n, keep) == (if names[0] in keep then [names[0]] else []) + Kept(names[1..], n - 1, keep)
  {
    if n == 1 {
      assert Kept(names, 0, keep) == [] && Kept(names[1..], 0, keep) == [];
    } else {
      var tail := names[1..];
      var first := if names[0] in keep then [names[0]] else [];
      var last := if names[n - 1] in keep then [names[n - 1]] else [];
      KeptFromFront(names, n - 1, keep);
      assert tail[n - 2] == names[n - 1];
      assert Kept(tail, n - 1, keep) == Kept(tail, n - 2, keep) + last;
      assert first + Kept(tail, n - 2, keep) + last == first + (Kept(tail, n - 2, keep) + last);
    }
  }

  /** Skipping names while going through a sorted set is going through the sorted subset. */
  lemma {:induction false} KeptSorted(all: set<string>, keep: set<string>)
    ensures Kept(Sorted(all), |all|, keep) == Sorted(all * keep)
  {
    if all == {} {
      assert all * keep == {};
    } else {
      var m := Least(all);
      KeptFromFront(Sorted(all), |all|, keep);
      KeptSorted(all - {m}, keep);
      if m in keep {
        LeastOfPart(all, all * keep);
        assert all * keep - {m} == (all - {m}) * keep;
      } else {
        assert (all - {m}) * keep == all * keep;
      }
    }
  }

  lemma LeastOfPart(all: set<string>, part: set<string>)
    requires part <= all && all != {} && Least(all) in part
    ensures Least(part) == Least(all)
  {
    if Least(part) != Least(all) {
      LessIrreflexive(Least(all), Least(part));
    }
  }
}
