/** Lists without duplicates, as GList is used for sessions, servers, seats, VTs and users. */
module Lists {

  predicate Distinct<T(==)>(xs: seq<T>) {
    forall i, j :: 0 <= i < j < |xs| ==> xs[i] != xs[j]
  }

  /** `g_list_remove`: the first occurrence goes. */
  function Without<T(==)>(xs: seq<T>, x: T): seq<T> {
    if xs == [] then [] else if xs[0] == x then xs[1..] else [xs[0]] + Without(xs[1..], x)
  }

  method Remove<T(==)>(xs: seq<T>, x: T) returns (r: seq<T>)
    ensures r == Without(xs, x)
  {
    r := [];
    var i := 0;
    while i < |xs| && xs[i] != x
      invariant 0 <= i <= |xs| && r == xs[..i]
      invariant Without(xs, x) == r + Without(xs[i..], x)
    {
      assert xs[i..][1..] == xs[i + 1..];
      r := r + [xs[i]];
      i := i + 1;
    }
    if i < |xs| {
      assert xs[i..][1..] == xs[i + 1..];
      r := r + xs[i + 1..];
    }
  }

  lemma DistinctSnoc<T>(xs: seq<T>, x: T)
    requires Distinct(xs) && x !in xs
    ensures Distinct(xs + [x])
  {
  }

  lemma {:induction false} WithoutFacts<T>(xs: seq<T>, x: T)
    requires Distinct(xs)
    ensures Distinct(Without(xs, x))
    ensures forall y :: y in Without(xs, x) <==> y in xs && y != x
    ensures |Without(xs, x)| == |xs| - if x in xs then 1 else 0
    decreases |xs|
  {
    if xs != [] {
      var rest := Without(xs[1..], x);
      assert Distinct(xs[1..]);
      WithoutFacts(xs[1..], x);
      assert xs == [xs[0]] + xs[1..] && xs[0] !in xs[1..];
      forall i, j | 0 <= i < j < |[xs[0]] + rest| ensures ([xs[0]] + rest)[i] != ([xs[0]] + rest)[j] {
        assert rest[j - 1] in rest;
      }
    }
  }

  lemma {:induction false} WithoutOthers<T>(xs: seq<T>, x: T, y: T)
    requires y in xs && y != x
    ensures y in Without(xs, x)
    decreases |xs|
  {
    if xs[0] != x && xs[0] != y {
      WithoutOthers(xs[1..], x, y);
    }
  }

  lemma {:induction false} WithoutMultiset<T>(xs: seq<T>, x: T)
    ensures multiset(Without(xs, x)) == multiset(xs) - multiset{x}
    decreases |xs|
  {
    if xs != [] {
      WithoutMultiset(xs[1..], x);
      assert xs == [xs[0]] + xs[1..];
    }
  }

  // ------------------------------------------------------------------ one list against another

  /** Those of one list that are not in another. */
  function Apart<T(==)>(xs: seq<T>, ys: seq<T>): seq<T> {
    if xs == [] then [] else (if xs[0] in ys then [] else [xs[0]]) + Apart(xs[1..], ys)
  }

  /** Those of one list that are in another. */
  function Common<T(==)>(xs: seq<T>, ys: seq<T>): seq<T> {
    if xs == [] then [] else (if xs[0] in ys then [xs[0]] else []) + Common(xs[1..], ys)
  }

  lemma {:induction false} ApartFacts<T>(xs: seq<T>, ys: seq<T>)
    ensures forall x :: x in Apart(xs, ys) <==> x in xs && x !in ys
    ensures Distinct(xs) ==> Distinct(Apart(xs, ys))
    decreases |xs|
  {
    if xs != [] {
      ApartFacts(xs[1..], ys);
      assert xs == [xs[0]] + xs[1..];
      if Distinct(xs) {
        assert Distinct(xs[1..]) && xs[0] !in xs[1..];
      }
    }
  }

  lemma {:induction false} CommonFacts<T>(xs: seq<T>, ys: seq<T>)
    ensures forall x :: x in Common(xs, ys) <==> x in xs && x in ys
    ensures Distinct(xs) ==> Distinct(Common(xs, ys))
    ensures |Common(xs, ys)| <= |xs|
    ensures |Common(xs, ys)| == |xs| <==> forall x <- xs :: x in ys
    ensures |Common(xs, ys)| == |xs| ==> Common(xs, ys) == xs
    ensures |Common(xs, ys)| + |Apart(xs, ys)| == |xs|
    decreases |xs|
  {
    if xs != [] {
      CommonFacts(xs[1..], ys);
      assert xs == [xs[0]] + xs[1..];
      if Distinct(xs) {
        assert Distinct(xs[1..]) && xs[0] !in xs[1..];
      }
    }
  }

  lemma {:induction false} ApartAppend<T>(xs: seq<T>, more: seq<T>, ys: seq<T>)
    ensures Apart(xs + more, ys) == Apart(xs, ys) + Apart(more, ys)
    decreases |xs|
  {
    if xs == [] {
      assert xs + more == more;
    } else {
      var head := if xs[0] in ys then [] else [xs[0]];
      ApartAppend(xs[1..], more, ys);
      assert (xs + more)[1..] == xs[1..] + more && (xs + more)[0] == xs[0];
      assert Apart(xs + more, ys) == head + (Apart(xs[1..], ys) + Apart(more, ys));
      assert head + (Apart(xs[1..], ys) + Apart(more, ys)) == (head + Apart(xs[1..], ys)) + Apart(more, ys);
    }
  }

  lemma {:induction false} CommonAppend<T>(xs: seq<T>, more: seq<T>, ys: seq<T>)
    ensures Common(xs + more, ys) == Common(xs, ys) + Common(more, ys)
    decreases |xs|
  {
    if xs == [] {
      assert xs + more == more;
    } else {
      var head := if xs[0] in ys then [xs[0]] else [];
      CommonAppend(xs[1..], more, ys);
      assert (xs + more)[1..] == xs[1..] + more && (xs + more)[0] == xs[0];
      assert Common(xs + more, ys) == head + (Common(xs[1..], ys) + Common(more, ys));
      assert head + (Common(xs[1..], ys) + Common(more, ys)) == (head + Common(xs[1..], ys)) + Common(more, ys);
    }
  }

  /** One element alone. */
  lemma OneOf<T>(x: T, ys: seq<T>)
    ensures Apart([x], ys) == if x in ys then [] else [x]
    ensures Common([x], ys) == if x in ys then [x] else []
  {
    assert [x][1..] == [];
  }

  lemma {:induction false} CommonCommutes<T>(xs: seq<T>, ys: seq<T>, zs: seq<T>)
    ensures Common(Common(xs, ys), zs) == Common(Common(xs, zs), ys)
    decreases |xs|
  {
    if xs != [] {
      CommonCommutes(xs[1..], ys, zs);
      CommonAppend(if xs[0] in ys then [xs[0]] else [], Common(xs[1..], ys), zs);
      CommonAppend(if xs[0] in zs then [xs[0]] else [], Common(xs[1..], zs), ys);
      OneOf(xs[0], ys);
      OneOf(xs[0], zs);
    }
  }

  /** A list without duplicates is no longer than one that holds all of it. */
  lemma {:induction false} NoLonger<T>(xs: seq<T>, ys: seq<T>)
    requires Distinct(xs) && (forall x <- xs :: x in ys) && Distinct(ys)
    ensures |xs| <= |ys|
    decreases |xs|
  {
    if xs != [] {
      var x := xs[0];
      assert x in xs && Distinct(xs[1..]);
      WithoutFacts(ys, x);
      forall z <- xs[1..] ensures z in Without(ys, x) {
        var i :| 0 <= i < |xs[1..]| && xs[1..][i] == z;
        assert xs[i + 1] == z;
      }
      NoLonger(xs[1..], Without(ys, x));
    }
  }
}
