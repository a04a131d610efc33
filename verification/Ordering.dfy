/** The two orders in which the daemon walks its skip lists: names by `strcmp`, daemons by their
    place in the configuration. A skip list is modelled as a set or map together with its order. */
module Ordering {
  import opened Wire

  predicate Before(a: seq<byte>, b: seq<byte>)
    requires |a| == |b|
  {
    |a| > 0 && (a[0] < b[0] || (a[0] == b[0] && Before(a[1..], b[1..])))
  }

  /** `strcmp(a, b) < 0`: on zero-padded fields, the first differing byte decides. */
  predicate NameBefore(a: Name, b: Name) {
    Before(a, b)
  }

  lemma {:induction false} BeforeIsTotal(a: seq<byte>, b: seq<byte>)
    requires |a| == |b|
    ensures Before(a, b) || Before(b, a) || a == b
    ensures !(Before(a, b) && Before(b, a))
    ensures !Before(a, a)
  {
    if |a| > 0 {
      BeforeIsTotal(a[1..], b[1..]);
      BeforeIsTotal(a[1..], a[1..]);
      if a[0] == b[0] && a[1..] == b[1..] {
        assert a == [a[0]] + a[1..] == b;
      }
    }
  }

  lemma {:induction false} BeforeIsTransitive(a: seq<byte>, b: seq<byte>, c: seq<byte>)
    requires |a| == |b| == |c| && Before(a, b) && Before(b, c)
    ensures Before(a, c)
  {
    if a[0] == b[0] == c[0] {
      BeforeIsTransitive(a[1..], b[1..], c[1..]);
    }
  }

  ghost predicate IsFirst(m: Name, s: set<Name>) {
    m in s && forall x | x in s && x != m :: NameBefore(m, x)
  }

  lemma {:induction false} FirstExists(s: set<Name>) returns (m: Name)
    requires s != {}
    ensures IsFirst(m, s)
  {
    var x :| x in s;
    if s == {x} {
      m := x;
    } else {
      var y := FirstExists(s - {x});
      BeforeIsTotal(x, y);
      m := if NameBefore(x, y) then x else y;
      forall z | z in s && z != m ensures NameBefore(m, z) {
        if z != x && z != y && m == x {
          assert z in s - {x};
          BeforeIsTransitive(x, y, z);
        }
      }
    }
  }

  ghost function First(s: set<Name>): (m: Name)
    requires s != {}
    ensures IsFirst(m, s)
  {
    assert exists m :: IsFirst(m, s) by {
      var m := FirstExists(s);
    }
    var m :| IsFirst(m, s);
    m
  }

  /** The skip-list walk over s: every element once, in ascending order. */
  ghost function InOrder(s: set<Name>): (r: seq<Name>)
    ensures |r| == |s|
    ensures forall x :: x in r <==> x in s
    ensures forall i, j | 0 <= i < j < |r| :: NameBefore(r[i], r[j])
  {
    if s == {} then []
    else
      var m := First(s);
      [m] + InOrder(s - {m})
  }

  lemma InOrderDistinct(s: set<Name>, i: nat, j: nat)
    requires i < |s| && j < |s| && i != j
    ensures InOrder(s)[i] != InOrder(s)[j]
  {
    BeforeIsTotal(InOrder(s)[i], InOrder(s)[i]);
  }

  /** The members of `all`, a list without repetitions, that are in `s`, in list order. */
  function Select<T(==,!new)>(all: seq<T>, s: set<T>): (r: seq<T>)
    ensures forall x :: x in r <==> x in all && x in s
    ensures |r| <= |all|
  {
    if all == [] then []
    else if all[0] in s then [all[0]] + Select(all[1..], s)
    else Select(all[1..], s)
  }

  ghost predicate Distinct<T(!new)>(a: seq<T>) {
    forall i, j | 0 <= i < j < |a| :: a[i] != a[j]
  }

  lemma {:induction false} SelectDistinct<T(!new)>(all: seq<T>, s: set<T>)
    requires Distinct(all)
    ensures Distinct(Select(all, s))
  {
    if all != [] {
      SelectDistinct(all[1..], s);
      assert all[0] !in all[1..];
    }
  }

  lemma {:induction false} CountOne<T(!new)>(a: seq<T>, x: T)
    requires Distinct(a)
    ensures multiset(a)[x] == if x in a then 1 else 0
  {
    if a != [] {
      assert a == [a[0]] + a[1..];
      assert Distinct(a[1..]);
      CountOne(a[1..], x);
      assert a[0] !in a[1..];
    }
  }

  ghost function Among<T(!new)>(s: seq<T>): set<T> {
    set x | x in s
  }

  /** A list without repetitions has as many elements as its set. */
  lemma {:induction false} DistinctSize<T(!new)>(a: seq<T>)
    requires Distinct(a)
    ensures |Among(a)| == |a|
  {
    if a == [] {
      assert Among(a) == {};
    } else {
      DistinctSize(a[1..]);
      assert Among(a) == {a[0]} + Among(a[1..]);
    }
  }

  lemma NoneAmong<T(!new)>()
    ensures Among<T>([]) == {}
  {
  }

  lemma FirstApart<T(!new)>(a: seq<T>)
    requires a != [] && Distinct(a)
    ensures Distinct(a[1..]) && a[0] !in a[1..] && Among(a) == {a[0]} + Among(a[1..])
  {
    assert a == [a[0]] + a[1..];
  }

  lemma SubsetOfSameSize<T>(a: set<T>, b: set<T>)
    requires a <= b
    ensures |a| == |b| <==> a == b
  {
    assert b == a + (b - a);
    assert |b| == |a| + |b - a|;
  }
}
