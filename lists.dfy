/** The two array transforms the application's screens are built from:
    `array.map(x => matches(x) ? change(x) : x)` and `array.filter(keep)`. */
module Lists {

  /** Applies `f` to exactly the elements that satisfy `hit`. */
  function MapWhere<T>(s: seq<T>, hit: T -> bool, f: T -> T): (r: seq<T>)
    ensures |r| == |s|
    ensures forall i :: 0 <= i < |s| ==> r[i] == if hit(s[i]) then f(s[i]) else s[i]
  {
    if s == [] then [] else [if hit(s[0]) then f(s[0]) else s[0]] + MapWhere(s[1..], hit, f)
  }

  /** Applying twice an update that undoes itself restores the sequence. */
  lemma MapWhereTwice<T>(s: seq<T>, hit: T -> bool, f: T -> T)
    requires forall x :: x in s && hit(x) ==> hit(f(x)) && f(f(x)) == x
    ensures MapWhere(MapWhere(s, hit, f), hit, f) == s
  {
    var r := MapWhere(MapWhere(s, hit, f), hit, f);
    forall i | 0 <= i < |s| ensures r[i] == s[i] {
      assert s[i] in s;
    }
  }

  /** Keeps, in order, exactly the elements that satisfy `keep`. */
  function Filter<T(==,!new)>(s: seq<T>, keep: T -> bool): (r: seq<T>)
    ensures |r| <= |s|
    ensures forall x :: x in r <==> x in s && keep(x)
    ensures forall x :: multiset(r)[x] == if keep(x) then multiset(s)[x] else 0
  {
    if s == [] then []
    else
      var rest := Filter(s[1..], keep);
      assert s == [s[0]] + s[1..];
      if keep(s[0]) then [s[0]] + rest else rest
  }

  /** Filtering preserves order: it distributes over concatenation. */
  lemma {:induction false} FilterConcat<T(!new)>(a: seq<T>, b: seq<T>, keep: T -> bool)
    ensures Filter(a + b, keep) == Filter(a, keep) + Filter(b, keep)
  {
    if a == [] {
      assert a + b == b;
    } else {
      assert (a + b)[0] == a[0];
      assert (a + b)[1..] == a[1..] + b;
      FilterConcat(a[1..], b, keep);
      if keep(a[0]) {
        calc {
          Filter(a + b, keep);
          [a[0]] + Filter(a[1..] + b, keep);
          [a[0]] + (Filter(a[1..], keep) + Filter(b, keep));
          ([a[0]] + Filter(a[1..], keep)) + Filter(b, keep);
        }
      }
    }
  }

  /** Removing what is already removed changes nothing. */
  lemma {:induction false} FilterIdempotent<T(!new)>(s: seq<T>, keep: T -> bool)
    ensures Filter(Filter(s, keep), keep) == Filter(s, keep)
  {
    if s != [] {
      FilterIdempotent(s[1..], keep);
    }
  }

  /** A filter that rejects nothing is the identity. */
  lemma {:induction false} FilterKeepsAll<T(!new)>(s: seq<T>, keep: T -> bool)
    requires forall x :: x in s ==> keep(x)
    ensures Filter(s, keep) == s
  {
    if s != [] {
      assert forall x :: x in s[1..] ==> x in s;
      FilterKeepsAll(s[1..], keep);
    }
  }

  /** No element occurs twice. */
  predicate NoDuplicates<T(==)>(s: seq<T>) {
    forall i, j :: 0 <= i < j < |s| ==> s[i] != s[j]
  }

  /** A concatenation has no duplicates exactly when its parts have none
      and share no element. */
  lemma NoDuplicatesAppend<T(!new)>(a: seq<T>, b: seq<T>)
    ensures NoDuplicates(a + b) <==>
      NoDuplicates(a) && NoDuplicates(b) && forall x :: x in a ==> x !in b
  {
    if NoDuplicates(a + b) {
      forall x | x in a ensures x !in b {
        var i :| 0 <= i < |a| && a[i] == x;
        forall j | 0 <= j < |b| ensures b[j] != x {
          assert (a + b)[i] == a[i] && (a + b)[|a| + j] == b[j];
        }
      }
      forall i, j | 0 <= i < j < |b| ensures b[i] != b[j] {
        assert (a + b)[|a| + i] == b[i] && (a + b)[|a| + j] == b[j];
      }
      forall i, j | 0 <= i < j < |a| ensures a[i] != a[j] {
        assert (a + b)[i] == a[i] && (a + b)[j] == a[j];
      }
    }
    if NoDuplicates(a) && NoDuplicates(b) && forall x :: x in a ==> x !in b {
      forall i, j | 0 <= i < j < |a + b| ensures (a + b)[i] != (a + b)[j] {
        if j < |a| {
          assert (a + b)[i] == a[i] && (a + b)[j] == a[j];
        } else if i >= |a| {
          assert (a + b)[i] == b[i - |a|] && (a + b)[j] == b[j - |a|];
        } else {
          assert (a + b)[i] == a[i] && (a + b)[j] == b[j - |a|];
          assert a[i] in a;
        }
      }
    }
  }

  /** `array.filter(x => x.id !== id)`: exactly the elements with another
      id stay, in their order. */
  function RemoveId<T(==,!new)>(s: seq<T>, idOf: T -> string, id: string): (r: seq<T>)
    ensures forall x :: x in r <==> x in s && idOf(x) != id
    ensures forall x :: multiset(r)[x] == if idOf(x) != id then multiset(s)[x] else 0
  {
    Filter(s, (x: T) => idOf(x) != id)
  }

  /** Removing an id that nothing has changes nothing, removing it twice
      is removing it once, and removal keeps the order of what stays. */
  lemma RemoveIdSettles<T(!new)>(s: seq<T>, t: seq<T>, idOf: T -> string, id: string)
    ensures (forall x :: x in s ==> idOf(x) != id) ==> RemoveId(s, idOf, id) == s
    ensures RemoveId(RemoveId(s, idOf, id), idOf, id) == RemoveId(s, idOf, id)
    ensures RemoveId(s + t, idOf, id) == RemoveId(s, idOf, id) + RemoveId(t, idOf, id)
  {
    var keep := (x: T) => idOf(x) != id;
    if forall x :: x in s ==> idOf(x) != id {
      FilterKeepsAll(s, keep);
    }
    FilterIdempotent(s, keep);
    FilterConcat(s, t, keep);
  }

  /** `[...new Set(s)]`: each element once, where it first occurs. */
  function Distinct<T(==,!new)>(s: seq<T>): (r: seq<T>)
    ensures NoDuplicates(r)
    ensures forall x :: x in r <==> x in s
    ensures |r| <= |s|
  {
    if s == [] then []
    else
      var r := Distinct(s[..|s| - 1]);
      assert forall x :: x in s <==> x in s[..|s| - 1] || x == s[|s| - 1] by {
        assert s == s[..|s| - 1] + [s[|s| - 1]];
      }
      if s[|s| - 1] in r then r
      else
        NoDuplicatesAppend(r, [s[|s| - 1]]);
        r + [s[|s| - 1]]
  }

  /** A sequence without duplicates is its own set of distinct elements. */
  lemma {:induction false} DistinctOfDistinct<T(!new)>(s: seq<T>)
    requires NoDuplicates(s)
    ensures Distinct(s) == s
  {
    if s != [] {
      var p := s[..|s| - 1];
      assert NoDuplicates(p);
      DistinctOfDistinct(p);
      assert s == p + [s[|s| - 1]];
      assert s[|s| - 1] !in p;
    }
  }
}
