/**
 Vectors of addresses and symbols, as the contracts scan and filter them.
 */
module Sequences {

  predicate Distinct<T(==)>(s: seq<T>) {
    forall i, j :: 0 <= i < j < |s| ==> s[i] != s[j]
  }

  function Elements<T>(s: seq<T>): set<T> { set x | x in s }

  /** s without every occurrence of x, in order. */
  function Without<T(==, !new)>(s: seq<T>, x: T): (r: seq<T>)
    ensures forall y :: y in r <==> y in s && y != x
  {
    if s == [] then []
    else if s[0] == x then Without(s[1..], x)
    else [s[0]] + Without(s[1..], x)
  }

  /** The linear search used for admin lists, ballots and registries. */
  method VecContains<T(==)>(list: seq<T>, x: T) returns (found: bool)
    ensures found <==> x in list
  {
    for i := 0 to |list|
      invariant x !in list[..i]
    {
      if list[i] == x { return true; }
    }
    assert list[..|list|] == list;
    return false;
  }

  lemma {:induction false} WithoutSnoc<T(!new)>(s: seq<T>, y: T, x: T)
    ensures Without(s + [y], x) == Without(s, x) + (if y == x then [] else [y])
  {
    if s == [] {
    } else {
      assert (s + [y])[1..] == s[1..] + [y];
      WithoutSnoc(s[1..], y, x);
    }
  }

  /** r is s without x, the others in their order. */
  ghost predicate Filtered<T(!new)>(s: seq<T>, x: T, r: seq<T>) {
    if s == [] then r == []
    else if s[|s| - 1] == x then Filtered(s[..|s| - 1], x, r)
    else r != [] && r[|r| - 1] == s[|s| - 1] && Filtered(s[..|s| - 1], x, r[..|r| - 1])
  }

  lemma {:induction false} WithoutFilters<T(!new)>(s: seq<T>, x: T)
    ensures Filtered(s, x, Without(s, x))
  {
    if s != [] {
      var front, last := s[..|s| - 1], s[|s| - 1];
      assert s == front + [last];
      WithoutSnoc(front, last, x);
      WithoutFilters(front, x);
      if last == x {
        assert Without(s, x) == Without(front, x);
      } else {
        assert Without(s, x)[..|Without(s, x)| - 1] == Without(front, x);
      }
    }
  }

  lemma {:induction false} WithoutAbsent<T(!new)>(s: seq<T>, x: T)
    requires x !in s
    ensures Without(s, x) == s
  {
    if s != [] {
      assert s == [s[0]] + s[1..];
      WithoutAbsent(s[1..], x);
    }
  }

  /** The copy-all-but-one loop of remove_admin, unregister_provider and
      remove_oracle_address. */
  method FilterOut<T(==, !new)>(list: seq<T>, x: T) returns (filtered: seq<T>)
    ensures filtered == Without(list, x)
  {
    filtered := [];
    for i := 0 to |list|
      invariant filtered == Without(list[..i], x)
    {
      WithoutSnoc(list[..i], list[i], x);
      assert list[..i + 1] == list[..i] + [list[i]];
      if list[i] != x {
        filtered := filtered + [list[i]];
      }
    }
    assert list[..|list|] == list;
  }

  /** Removing one element of a duplicate-free vector shortens it by exactly one
      and leaves the rest distinct. */
  lemma {:induction false} WithoutDistinct<T(!new)>(s: seq<T>, x: T)
    requires Distinct(s)
    ensures Distinct(Without(s, x))
    ensures |Without(s, x)| == |s| - (if x in s then 1 else 0)
  {
    if s == [] {
    } else {
      WithoutDistinct(s[1..], x);
      assert s == [s[0]] + s[1..];
      assert s[0] !in s[1..];
    }
  }

  lemma {:induction false} DistinctSnoc<T>(s: seq<T>, x: T)
    requires Distinct(s) && x !in s
    ensures Distinct(s + [x])
  {
  }

  /** A concatenation is duplicate-free exactly when its parts are and share nothing. */
  lemma {:induction false} DistinctConcat<T(!new)>(s: seq<T>, t: seq<T>)
    ensures Distinct(s + t) <==> Distinct(s) && Distinct(t) && forall x :: x in s ==> x !in t
  {
    forall i | 0 <= i < |s| ensures (s + t)[i] == s[i] {}
    forall j | 0 <= j < |t| ensures (s + t)[|s| + j] == t[j] {}
    if Distinct(s + t) {
      assert Distinct(s);
      forall i, j | 0 <= i < j < |t| ensures t[i] != t[j] {
        assert (s + t)[|s| + i] != (s + t)[|s| + j];
      }
      forall x | x in s ensures x !in t {
        var i :| 0 <= i < |s| && s[i] == x;
        forall j | 0 <= j < |t| ensures t[j] != x {
          assert (s + t)[i] != (s + t)[|s| + j];
        }
      }
    } else if Distinct(s) && Distinct(t) {
      var i, j :| 0 <= i < j < |s + t| && (s + t)[i] == (s + t)[j];
      assert i < |s| && j >= |s|;
      assert s[i] in s && t[j - |s|] in t;
    }
  }

  /** A duplicate-free vector drawn from another is no longer than it. */
  lemma {:induction false} DistinctFits<T(!new)>(s: seq<T>, t: seq<T>)
    requires Distinct(s) && Distinct(t)
    requires forall x :: x in s ==> x in t
    ensures |s| <= |t|
    ensures |s| == |t| ==> forall x :: x in t ==> x in s
    decreases |s|
  {
    if s == [] {
    } else {
      var t' := Without(t, s[0]);
      WithoutDistinct(t, s[0]);
      assert forall x :: x in s[1..] ==> x in t';
      DistinctFits(s[1..], t');
      assert s == [s[0]] + s[1..];
    }
  }
}
