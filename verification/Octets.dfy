/**
  Octets and the fixed-width integers that the pipes carry: big-endian in the login and
  compositor protocols and in Xauthority files, native (little-endian) on the pipe between
  the daemon and a session child.
 */
module Octets {

  type octet = x: int | 0 <= x < 256

  /** A C string: its octets without the terminating NUL. */
  type Text = seq<octet>

  datatype Option<+T> = None | Some(value: T)

  const U16 := 0x1_0000
  const U32 := 0x1_0000_0000

  type u16 = x: int | 0 <= x < U16
  type u32 = x: int | 0 <= x < U32

  function Be16(v: u16): (b: seq<octet>)
    ensures |b| == 2
  {
    [v / 0x100, v % 0x100]
  }

  function FromBe16(b: seq<octet>): (v: u16)
    requires |b| == 2
  {
    b[0] as int * 0x100 + b[1] as int
  }

  function Be32(v: u32): (b: seq<octet>)
    ensures |b| == 4
  {
    Be16(v / U16) + Be16(v % U16)
  }

  function FromBe32(b: seq<octet>): (v: u32)
    requires |b| == 4
  {
    FromBe16(b[..2]) as int * U16 + FromBe16(b[2..]) as int
  }

  lemma Be16RoundTrip(v: u16)
    ensures FromBe16(Be16(v)) == v
  {
  }

  lemma Be32RoundTrip(v: u32)
    ensures FromBe32(Be32(v)) == v
  {
    var high, low := Be16(v / U16), Be16(v % U16);
    assert Be32(v)[..2] == high && Be32(v)[2..] == low;
    Be16RoundTrip(v / U16);
    Be16RoundTrip(v % U16);
  }

  /** What `f` makes of each item of a list, in order. */
  function Cat<T, U>(f: T -> seq<U>, xs: seq<T>): (b: seq<U>)
  {
    if xs == [] then [] else f(xs[0]) + Cat(f, xs[1..])
  }

  lemma {:induction false} CatAppend<T, U>(f: T -> seq<U>, xs: seq<T>, ys: seq<T>)
    ensures Cat(f, xs + ys) == Cat(f, xs) + Cat(f, ys)
  {
    if xs == [] {
      assert xs + ys == ys;
    } else {
      assert (xs + ys)[1..] == xs[1..] + ys;
      CatAppend(f, xs[1..], ys);
    }
  }

  lemma CatHead<T, U>(f: T -> seq<U>, xs: seq<T>)
    requires xs != []
    ensures Cat(f, xs) == f(xs[0]) + Cat(f, xs[1..])
  {
  }

  lemma CatSnoc<T, U>(f: T -> seq<U>, xs: seq<T>, y: T)
    ensures Cat(f, xs + [y]) == Cat(f, xs) + f(y)
  {
    CatAppend(f, xs, [y]);
    assert Cat(f, [y]) == f(y) + Cat(f, []) == f(y);
  }

  /** The octets of a list of blocks, in order. */
  function Flatten(blocks: seq<seq<octet>>): (b: seq<octet>)
  {
    if blocks == [] then [] else blocks[0] + Flatten(blocks[1..])
  }

  lemma {:induction false} FlattenAppend(xs: seq<seq<octet>>, ys: seq<seq<octet>>)
    ensures Flatten(xs + ys) == Flatten(xs) + Flatten(ys)
  {
    if xs == [] {
      assert xs + ys == ys;
    } else {
      assert (xs + ys)[1..] == xs[1..] + ys;
      FlattenAppend(xs[1..], ys);
    }
  }

  lemma FlattenSnoc(xs: seq<seq<octet>>, y: seq<octet>)
    ensures Flatten(xs + [y]) == Flatten(xs) + y
  {
    FlattenAppend(xs, [y]);
    assert Flatten([y]) == y + Flatten([]) == y;
  }

  /** `strcmp`: by unsigned octets, a prefix first. */
  predicate Leq(a: Text, b: Text)
    decreases |a|
  {
    a == [] || (b != [] && (a[0] < b[0] || (a[0] == b[0] && Leq(a[1..], b[1..]))))
  }

  /** A text comes no later than another if it begins it, or is smaller in the first octet in which they differ. */
  lemma {:induction false} LeqIs(a: Text, b: Text)
    ensures Leq(a, b) <==>
              (|a| <= |b| && b[..|a|] == a) || exists k :: 0 <= k < |a| && k < |b| && a[..k] == b[..k] && a[k] < b[k]
    decreases |a|
  {
    if a != [] && b != [] && a[0] == b[0] {
      var p, q := a[1..], b[1..];
      LeqIs(p, q);
      assert a == [a[0]] + p && b == [b[0]] + q;
      if |a| <= |b| && b[..|a|] == a {
        assert q[..|p|] == p;
      }
      if |p| <= |q| && q[..|p|] == p {
        assert b[..|a|] == [b[0]] + q[..|p|];
      }
      if k :| 0 <= k < |a| && k < |b| && a[..k] == b[..k] && a[k] < b[k] {
        assert p[..k - 1] == a[..k][1..] && q[..k - 1] == b[..k][1..] && p[k - 1] < q[k - 1];
      }
      if k :| 0 <= k < |p| && k < |q| && p[..k] == q[..k] && p[k] < q[k] {
        assert a[..k + 1] == [a[0]] + p[..k] && b[..k + 1] == [b[0]] + q[..k] && a[k + 1] < b[k + 1];
      }
    } else if a != [] && b != [] {
      assert a[..0] == b[..0];
      forall k | 0 < k <= |a| && k <= |b| ensures a[..k] != b[..k] {
        assert a[..k][0] == a[0] && b[..k][0] == b[0];
      }
      assert a[..|a|] == a;
    }
  }

  lemma {:induction false} LeqTotal(a: Text, b: Text)
    ensures Leq(a, b) || Leq(b, a)
    decreases |a|
  {
    if a != [] && b != [] {
      LeqTotal(a[1..], b[1..]);
    }
  }

  lemma {:induction false} LeqTransitive(a: Text, b: Text, c: Text)
    requires Leq(a, b) && Leq(b, c)
    ensures Leq(a, c)
    decreases |a|
  {
    if a != [] && a[0] == b[0] == c[0] {
      LeqTransitive(a[1..], b[1..], c[1..]);
    }
  }

  lemma {:induction false} LeqAntisymmetric(a: Text, b: Text)
    requires Leq(a, b) && Leq(b, a)
    ensures a == b
    decreases |a|
  {
    if a != [] {
      LeqAntisymmetric(a[1..], b[1..]);
      assert a == [a[0]] + a[1..] && b == [b[0]] + b[1..];
    }
  }
}
