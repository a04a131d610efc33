/** Facts about sequences and the multisets of their elements. */
module Sequences {

  lemma Regroup<T>(a: seq<T>, b: seq<T>, c: seq<T>)
    ensures (a + b) + c == a + (b + c)
  {
  }

  lemma PickOut<T>(a: seq<T>, i: nat)
    requires i < |a|
    ensures multiset(a[..i] + a[i + 1..]) == multiset(a) - multiset{a[i]}
  {
    assert a == a[..i] + ([a[i]] + a[i + 1..]);
  }

  lemma DropSame<T>(a: seq<T>, b: seq<T>, i: nat)
    requires multiset(a) == multiset(b) && a != [] && i < |b| && b[i] == a[0]
    ensures multiset(a[1..]) == multiset(b[..i] + b[i + 1..])
  {
    PickOut(a, 0);
    PickOut(b, i);
    assert a[..0] + a[1..] == a[1..];
  }

  function Mapped<A, B>(f: A -> B, s: seq<A>): (r: seq<B>)
    ensures |r| == |s|
    ensures forall i | 0 <= i < |s| :: r[i] == f(s[i])
  {
    if s == [] then [] else [f(s[0])] + Mapped(f, s[1..])
  }

  lemma MappedWithout<A, B>(f: A -> B, s: seq<A>, i: nat)
    requires i < |s|
    ensures f(s[i]) in Mapped(f, s)
    ensures multiset(Mapped(f, s[..i] + s[i + 1..])) == multiset(Mapped(f, s)) - multiset{f(s[i])}
  {
    hide Mapped;
    var m := Mapped(f, s);
    assert Mapped(f, s[..i] + s[i + 1..]) == m[..i] + m[i + 1..];
    PickOut(m, i);
  }

  lemma SameWithout<T>(a: multiset<T>, b: multiset<T>, x: T)
    requires x in a && x in b && a - multiset{x} == b - multiset{x}
    ensures a == b
  {
    forall y ensures a[y] == b[y] {
      assert (a - multiset{x})[y] == (b - multiset{x})[y];
    }
  }

  lemma MappedTail<A, B>(f: A -> B, a: seq<A>)
    requires a != []
    ensures f(a[0]) in Mapped(f, a)
    ensures multiset(Mapped(f, a[1..])) == multiset(Mapped(f, a)) - multiset{f(a[0])}
  {
    hide Mapped;
    MappedWithout(f, a, 0);
    assert a[..0] + a[1..] == a[1..];
  }

  /** An element of a rearranged list is somewhere in the other. */
  lemma PlaceIn<T>(b: seq<T>, a: seq<T>, k: nat) returns (i: nat)
    requires multiset(a) == multiset(b) && k < |a|
    ensures i < |b| && b[i] == a[k]
  {
    assert a[k] in multiset(a);
    i :| 0 <= i < |b| && b[i] == a[k];
  }

  /** Rearranging the arguments of a map rearranges its results. */
  lemma {:induction false} MappedPermutes<A, B>(f: A -> B, a: seq<A>, b: seq<A>)
    requires multiset(a) == multiset(b)
    ensures multiset(Mapped(f, a)) == multiset(Mapped(f, b))
  {
    hide Mapped;
    if a == [] {
      assert |multiset(b)| == 0;
      assert b == a;
    } else {
      var i := PlaceIn(b, a, 0);
      DropSame(a, b, i);
      MappedPermutes(f, a[1..], b[..i] + b[i + 1..]);
      MappedWithout(f, b, i);
      MappedTail(f, a);
      SameWithout(multiset(Mapped(f, a)), multiset(Mapped(f, b)), f(a[0]));
    }
  }
}
