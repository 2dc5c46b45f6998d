/** Sequence vocabulary shared by the modules that model linked lists as sequences. */
module Seqs {

  datatype Option<+T> = None | Some(value: T)

  ghost predicate Distinct<T>(xs: seq<T>) {
    forall i, j :: 0 <= i < j < |xs| ==> xs[i] != xs[j]
  }

  /** The list after unlinking every occurrence of x. */
  function Without<T(==)>(xs: seq<T>, x: T): seq<T> {
    if xs == [] then []
    else if xs[0] == x then Without(xs[1..], x)
    else [xs[0]] + Without(xs[1..], x)
  }

  /** What is left of the list behind the first occurrence of x. */
  function After<T(==)>(xs: seq<T>, x: T): seq<T> {
    if xs == [] then [] else if xs[0] == x then xs[1..] else After(xs[1..], x)
  }

  function Reverse<T>(xs: seq<T>): seq<T> {
    if xs == [] then [] else Reverse(xs[1..]) + [xs[0]]
  }

  lemma WithoutMembers<T>(xs: seq<T>, x: T)
    ensures forall y :: y in Without(xs, x) <==> y in xs && y != x
  {
    if xs != [] {
      WithoutMembers(xs[1..], x);
      assert xs == [xs[0]] + xs[1..];
    }
  }

  lemma WithoutAbsent<T>(xs: seq<T>, x: T)
    requires x !in xs
    ensures Without(xs, x) == xs
  {
    if xs != [] {
      WithoutAbsent(xs[1..], x);
    }
  }

  lemma WithoutConcat<T>(xs: seq<T>, ys: seq<T>, x: T)
    ensures Without(xs + ys, x) == Without(xs, x) + Without(ys, x)
  {
    if xs == [] {
      assert xs + ys == ys;
    } else {
      assert (xs + ys)[1..] == xs[1..] + ys;
      WithoutConcat(xs[1..], ys, x);
    }
  }

  lemma WithoutReverse<T>(xs: seq<T>, x: T)
    ensures Without(Reverse(xs), x) == Reverse(Without(xs, x))
  {
    if xs != [] {
      WithoutReverse(xs[1..], x);
      WithoutConcat(Reverse(xs[1..]), [xs[0]], x);
      if xs[0] != x {
        assert Without([xs[0]], x) == [xs[0]];
        assert ([xs[0]] + Without(xs[1..], x))[1..] == Without(xs[1..], x);
      }
    }
  }

  lemma WithoutDistinct<T>(xs: seq<T>, x: T)
    requires Distinct(xs)
    ensures Distinct(Without(xs, x))
    ensures |Without(xs, x)| == if x in xs then |xs| - 1 else |xs|
  {
    if xs != [] {
      assert Distinct(xs[1..]);
      WithoutDistinct(xs[1..], x);
      WithoutMembers(xs[1..], x);
      assert xs[0] !in xs[1..];
      if xs[0] != x {
        DistinctConcat([xs[0]], Without(xs[1..], x));
      }
    }
  }

  /** Unlinking s commutes with looking behind another element. */
  lemma AfterWithout<T>(xs: seq<T>, s: T, e: T)
    requires s != e
    ensures After(Without(xs, s), e) == Without(After(xs, e), s)
  {
    if xs != [] {
      AfterWithout(xs[1..], s, e);
      if xs[0] != s {
        assert Without(xs, s)[1..] == Without(xs[1..], s);
      }
    }
  }

  lemma AfterSplit<T>(xs: seq<T>, ys: seq<T>, e: T)
    ensures e in xs ==> After(xs + ys, e) == After(xs, e) + ys
    ensures e !in xs ==> After(xs + ys, e) == After(ys, e)
  {
    if xs == [] {
      assert xs + ys == ys;
    } else {
      assert (xs + ys)[1..] == xs[1..] + ys;
      AfterSplit(xs[1..], ys, e);
    }
  }

  lemma AfterMembers<T>(xs: seq<T>, e: T)
    ensures forall y :: y in After(xs, e) ==> y in xs
    ensures |After(xs, e)| <= |xs|
  {
    if xs != [] {
      AfterMembers(xs[1..], e);
    }
  }

  lemma AfterDistinct<T>(xs: seq<T>, e: T)
    requires Distinct(xs)
    ensures Distinct(After(xs, e)) && e !in After(xs, e)
  {
    if xs != [] {
      assert Distinct(xs[1..]);
      AfterDistinct(xs[1..], e);
    }
  }

  lemma ReverseMembers<T>(xs: seq<T>)
    ensures |Reverse(xs)| == |xs|
    ensures forall y :: y in Reverse(xs) <==> y in xs
  {
    if xs != [] {
      ReverseMembers(xs[1..]);
      assert xs == [xs[0]] + xs[1..];
    }
  }

  lemma ReverseConcat<T>(xs: seq<T>, ys: seq<T>)
    ensures Reverse(xs + ys) == Reverse(ys) + Reverse(xs)
  {
    if xs == [] {
      assert xs + ys == ys;
    } else {
      assert (xs + ys)[1..] == xs[1..] + ys;
      ReverseConcat(xs[1..], ys);
    }
  }

  lemma ReverseDistinct<T>(xs: seq<T>)
    requires Distinct(xs)
    ensures Distinct(Reverse(xs))
  {
    if xs != [] {
      assert Distinct(xs[1..]);
      ReverseDistinct(xs[1..]);
      ReverseMembers(xs[1..]);
      assert xs[0] !in xs[1..];
    }
  }

  lemma DistinctConcat<T>(xs: seq<T>, ys: seq<T>)
    requires Distinct(xs) && Distinct(ys)
    requires forall x :: x in xs ==> x !in ys
    ensures Distinct(xs + ys)
  {
    forall i, j | 0 <= i < j < |xs + ys|
      ensures (xs + ys)[i] != (xs + ys)[j]
    {
      if i < |xs| <= j {
        assert xs[i] in xs && ys[j - |xs|] in ys;
      }
    }
  }

  // ----- counting -----

  function Range(n: nat): (r: set<nat>)
    ensures forall i: nat :: i in r <==> i < n
    ensures |r| == n
  {
    if n == 0 then {} else Range(n - 1) + {n - 1}
  }

  lemma SubsetSize<T>(a: set<T>, b: set<T>)
    requires a <= b
    ensures |a| <= |b|
    ensures |a| == |b| ==> a == b
  {
    if a != {} {
      var x :| x in a;
      SubsetSize(a - {x}, b - {x});
    }
  }

  /** Fewer than n numbers leave one below n unused. */
  lemma Unused(live: set<nat>, n: nat) returns (s: nat)
    requires |live| < n
    ensures s < n && s !in live
  {
    if Range(n) <= live {
      SubsetSize(Range(n), live);
    }
    s :| s in Range(n) && s !in live;
  }
}
