/** Messages as scatters: a list of packet-sized buffers with lengths. A message is cut into fragments,
    flattened again, located by byte offset, and handed on while its buffers are replaced. */
module Scatters {
  import opened Wire

  const MAX_SCATTER_ELEMENTS := 100
  const PACKET_BODY := 1436
  const MESSAGE_HEADER := 48

  // ---------------------------------------------------------------- the fragments of a message

  /** The number of fragments of a message of n bytes, header included. */
  function FragmentCount(n: nat): (k: nat)
    requires n > 0
    ensures k >= 1 && 1436 * (k - 1) < n <= 1436 * k
  {
    (n - 1) / 1436 + 1
  }

  function Least(a: nat, b: nat): nat {
    if a < b then a else b
  }

  /** The k-th fragment: as much as fits a packet body. */
  function Fragment(all: seq<byte>, k: nat): (r: seq<byte>)
    requires 1436 * k <= |all|
    ensures |r| == Least(1436, |all| - 1436 * k)
  {
    all[1436 * k..Least(1436 * (k + 1), |all|)]
  }

  lemma FragmentIs(all: seq<byte>, k: nat)
    requires 1436 * k <= |all|
    ensures Fragment(all, k) == all[1436 * k..1436 * k + Least(1436, |all| - 1436 * k)]
  {
  }

  function Fragments(all: seq<byte>): (r: seq<seq<byte>>)
    requires all != []
    ensures |r| == FragmentCount(|all|) && forall k | 0 <= k < |r| :: r[k] == Fragment(all, k)
  {
    seq(FragmentCount(|all|), k requires 0 <= k < FragmentCount(|all|) => Fragment(all, k))
  }

  function Concat(parts: seq<seq<byte>>): (r: seq<byte>) {
    if parts == [] then [] else Concat(parts[..|parts| - 1]) + parts[|parts| - 1]
  }

  lemma {:induction false} FirstFragments(all: seq<byte>, k: nat)
    requires all != [] && k <= FragmentCount(|all|)
    ensures Concat(Fragments(all)[..k]) == all[..Least(1436 * k, |all|)]
    decreases k
  {
    if k > 0 {
      FirstFragments(all, k - 1);
      assert Fragments(all)[..k][..k - 1] == Fragments(all)[..k - 1];
      assert all[..1436 * (k - 1)] + Fragment(all, k - 1) == all[..Least(1436 * k, |all|)];
    }
  }

  /** The fragments put together again give the message; all but the last are full, and the last is not
      empty. */
  lemma FragmentsRoundTrip(all: seq<byte>)
    requires all != []
    ensures Concat(Fragments(all)) == all
    ensures forall k | 0 <= k < |Fragments(all)| - 1 :: |Fragments(all)[k]| == PACKET_BODY
    ensures Fragments(all)[|Fragments(all)| - 1] != []
  {
    FirstFragments(all, FragmentCount(|all|));
    assert Fragments(all)[..FragmentCount(|all|)] == Fragments(all);
  }

  lemma {:induction false} FullBodies(bodies: seq<seq<byte>>, k: nat)
    requires k < |bodies| && forall i | 0 <= i < |bodies| :: |bodies[i]| == PACKET_BODY
    ensures |Concat(bodies)| == 1436 * |bodies| && Concat(bodies)[1436 * k..1436 * k + 1436] == bodies[k]
    decreases |bodies|
  {
    var front := bodies[..|bodies| - 1];
    if k < |front| {
      FullBodies(front, k);
      assert Concat(bodies)[1436 * k..1436 * k + 1436] == Concat(front)[1436 * k..1436 * k + 1436];
    } else if front != [] {
      FullBodies(front, 0);
    }
  }

  /** Taking over the bodies that hold the first len bytes gives the fragments of those bytes. */
  lemma TakenOverIsPrefix(bodies: seq<seq<byte>>, len: nat, parts: seq<seq<byte>>)
    requires 0 < len && |parts| == FragmentCount(len) <= |bodies|
    requires forall i | 0 <= i < |bodies| :: |bodies[i]| == PACKET_BODY
    requires forall k | 0 <= k < |parts| :: parts[k] == bodies[k][..Least(PACKET_BODY, len - 1436 * k)]
    ensures len <= |Concat(bodies)| && parts == Fragments(Concat(bodies)[..len])
    ensures Concat(parts) == Concat(bodies)[..len]
  {
    hide Concat, Fragments;
    FullBodies(bodies, 0);
    var whole := Concat(bodies);
    var all := whole[..len];
    forall k | 0 <= k < |parts| ensures parts[k] == Fragment(all, k) {
      FullBodies(bodies, k);
      FragmentIs(all, k);
      SliceOfPrefix(whole, len, 1436 * k, Least(PACKET_BODY, len - 1436 * k));
    }
    FragmentsRoundTrip(all);
    assert parts == Fragments(all);
  }

  lemma SliceOfPrefix(s: seq<byte>, len: nat, at: nat, n: nat)
    requires at + n <= len <= |s| && n <= 1436 && at + 1436 <= |s|
    ensures s[..len][at..at + n] == s[at..at + 1436][..n]
  {
  }

  // ---------------------------------------------------------------- locating a byte

  function Sum(lens: seq<nat>): nat {
    if lens == [] then 0 else Sum(lens[..|lens| - 1]) + lens[|lens| - 1]
  }

  /** Byte b of element e has offset off. */
  ghost predicate IsAt(lens: seq<nat>, e: nat, b: nat, off: nat) {
    e <= |lens| && off == Sum(lens[..e]) + b && (e < |lens| ==> b < lens[e])
  }

  lemma {:induction false} SumGrows(lens: seq<nat>, i: nat, j: nat)
    requires i <= j <= |lens|
    ensures Sum(lens[..i]) <= Sum(lens[..j])
    decreases j - i
  {
    if i < j {
      SumGrows(lens, i, j - 1);
      assert lens[..j][..j - 1] == lens[..j - 1];
    }
  }

  lemma SumPast(lens: seq<nat>, e: nat, f: nat)
    requires e < f <= |lens|
    ensures Sum(lens[..e]) + lens[e] <= Sum(lens[..f])
  {
    SumGrows(lens, e + 1, f);
    assert lens[..e + 1][..e] == lens[..e];
  }

  /** An offset has one location, whatever the lengths of the elements. */
  lemma LocationIsUnique(lens: seq<nat>, e: nat, b: nat, f: nat, c: nat, off: nat)
    requires IsAt(lens, e, b, off) && IsAt(lens, f, c, off) && e <= f
    ensures e == f && b == c
  {
    if e < f {
      SumPast(lens, e, f);
    }
  }

  function Lengths(parts: seq<seq<byte>>): (r: seq<nat>)
    ensures |r| == |parts| && forall i | 0 <= i < |r| :: r[i] == |parts[i]|
  {
    seq(|parts|, i requires 0 <= i < |parts| => |parts[i]|)
  }

  lemma {:induction false} SumIsLength(parts: seq<seq<byte>>)
    ensures Sum(Lengths(parts)) == |Concat(parts)|
  {
    if parts != [] {
      SumIsLength(parts[..|parts| - 1]);
      assert Lengths(parts)[..|parts| - 1] == Lengths(parts[..|parts| - 1]);
    }
  }

  /** On the fragments of a message the location of an offset is its quotient and remainder by the packet
      size, and the byte found there is the byte of the message. */
  lemma FragmentLocation(all: seq<byte>, off: nat)
    requires off < |all|
    ensures var parts := Fragments(all);
      && off / 1436 < |parts| && off % 1436 < |parts[off / 1436]|
      && IsAt(Lengths(parts), off / 1436, off % 1436, off)
      && parts[off / 1436][off % 1436] == all[off]
  {
    var parts, e, b := Fragments(all), off / 1436, off % 1436;
    assert off == 1436 * e + b;
    FirstFragments(all, e);
    SumIsLength(parts[..e]);
    assert Lengths(parts[..e]) == Lengths(parts)[..e];
  }

  // ---------------------------------------------------------------- in memory

  /** A packet body and how much of it is used. */
  datatype Element = Element(buf: array?<byte>, len: nat)

  class Scatter {
    var numElements: nat
    const elements: array<Element>

    /** The first n elements hold packet bodies, each its own. */
    ghost predicate Valid()
      reads this, elements
    {
      && elements.Length == MAX_SCATTER_ELEMENTS && numElements <= elements.Length
      && (forall k | 0 <= k < numElements ::
            elements[k].buf != null && elements[k].buf.Length == PACKET_BODY && elements[k].len <= PACKET_BODY)
      && forall j, k | 0 <= j < k < numElements :: elements[j].buf != elements[k].buf
    }

    ghost function Buffers(): set<object>
      reads this, elements
    {
      set k | 0 <= k < numElements && k < elements.Length && elements[k].buf != null :: elements[k].buf
    }

    /** The bytes in use of the k-th element. */
    ghost function Part(k: nat): seq<byte>
      requires Valid() && k < numElements
      reads this, elements, Buffers()
    {
      elements[k].buf[..elements[k].len]
    }

    ghost function Parts(): (r: seq<seq<byte>>)
      requires Valid()
      ensures |r| == numElements && forall k | 0 <= k < numElements :: r[k] == Part(k)
      reads this, elements, Buffers()
    {
      PartsUpTo(numElements)
    }

    ghost function PartsUpTo(n: nat): (r: seq<seq<byte>>)
      requires Valid() && n <= numElements
      ensures |r| == n && forall k | 0 <= k < n :: r[k] == Part(k)
      reads this, elements, Buffers()
    {
      if n == 0 then [] else PartsUpTo(n - 1) + [Part(n - 1)]
    }

    /** Message_new_message: one element that holds the header. */
    constructor ()
      ensures Valid() && numElements == 1 && elements[0].len == MESSAGE_HEADER && fresh(elements)
      ensures fresh(elements[0].buf)
    {
      var body := new byte[PACKET_BODY](_ => 0);
      elements := new Element[MAX_SCATTER_ELEMENTS](_ => Element(body, 0));
      numElements := 1;
      new;
      elements[0] := Element(body, MESSAGE_HEADER);
    }

    constructor Empty()
      ensures Valid() && numElements == 0 && fresh(elements)
    {
      elements := new Element[MAX_SCATTER_ELEMENTS](_ => Element(null, 0));
      numElements := 0;
    }

    /** A new packet body that starts with b. */
    method NewBody(b: seq<byte>) returns (body: array<byte>)
      requires |b| <= PACKET_BODY
      ensures fresh(body) && body.Length == PACKET_BODY && body[..|b|] == b
    {
      body := new byte[PACKET_BODY];
      CopyInto(body, 0, b);
    }

    /** The first fragment goes behind the header. */
    method FillFirst(b: seq<byte>)
      requires Valid() && numElements == 1 && elements[0].len == MESSAGE_HEADER && |b| <= PACKET_BODY - MESSAGE_HEADER
      modifies elements, elements[0].buf
      ensures Valid() && elements[0].buf == old(elements[0].buf)
      ensures Part(0) == old(elements[0].buf[..MESSAGE_HEADER]) + b
    {
      CopyInto(elements[0].buf, MESSAGE_HEADER, b);
      elements[0] := elements[0].(len := elements[0].len + |b|);
      var buf := elements[0].buf;
      assert buf[..MESSAGE_HEADER + |b|] == buf[..MESSAGE_HEADER] + buf[MESSAGE_HEADER..MESSAGE_HEADER + |b|];
    }

    /** Message_Buffer_to_Message_Fragments: the header is in the first element already. */
    method BufferToFragments(buf: array<byte>, numBytes: nat)
      requires Valid() && numElements == 1 && elements[0].len == MESSAGE_HEADER
      requires numBytes <= buf.Length && buf != elements[0].buf
      requires FragmentCount(MESSAGE_HEADER + numBytes) <= MAX_SCATTER_ELEMENTS
      modifies this, elements, elements[0].buf
      ensures Valid() && Parts() == Fragments(old(elements[0].buf[..MESSAGE_HEADER]) + buf[..numBytes])
    {
      hide Concat, Fragment;
      ghost var all := elements[0].buf[..MESSAGE_HEADER] + buf[..numBytes];
      FragmentIs(all, 0);
      var copied := Least(numBytes, PACKET_BODY - MESSAGE_HEADER);
      FillFirst(buf[..copied]);
      CutRest(buf[..numBytes], copied, all);
    }

    /** The fragments behind the first, each in a new packet body. */
    method CutRest(data: seq<byte>, copied0: nat, ghost all: seq<byte>)
      requires Valid() && numElements == 1 && |all| == MESSAGE_HEADER + |data| && all[MESSAGE_HEADER..] == data
      requires Part(0) == Fragment(all, 0) && copied0 == Least(|data|, PACKET_BODY - MESSAGE_HEADER)
      requires FragmentCount(|all|) <= MAX_SCATTER_ELEMENTS
      modifies this, elements
      ensures Valid() && Parts() == Fragments(all)
    {
      hide Concat, Fragment;
      var count := (|data| + MESSAGE_HEADER - 1) / PACKET_BODY + 1;
      var copied := copied0;
      for i := 1 to count
        invariant numElements == i && Valid() && copied == Least(1436 * i, |all|) - MESSAGE_HEADER
        invariant forall k | 0 <= k < i :: Part(k) == Fragment(all, k)
      {
        var bytes := Least(|data| - copied, PACKET_BODY);
        FragmentIs(all, i);
        Shifted(all, data, 1436 * i, bytes);
        AddElement(data[copied..copied + bytes]);
        copied := copied + bytes;
      }
    }

    method AddElement(b: seq<byte>)
      requires Valid() && numElements < MAX_SCATTER_ELEMENTS && |b| <= PACKET_BODY
      modifies this, elements
      ensures Valid() && numElements == old(numElements) + 1 && Part(numElements - 1) == b
      ensures fresh(elements[numElements - 1].buf)
      ensures forall k | 0 <= k < old(numElements) :: elements[k] == old(elements[k])
    {
      var body := NewBody(b);
      elements[numElements] := Element(body, |b|);
      numElements := numElements + 1;
    }

    /** Message_dup_and_reset_old_message: the duplicate takes over the buffers that hold the first len
        bytes; the old message gets new ones in their place. */
    method DupAndReset(len: nat) returns (dup: Scatter)
      requires Valid() && 0 < len && FragmentCount(len) <= numElements
      modifies elements
      ensures Valid() && numElements == old(numElements) && fresh(dup) && fresh(dup.elements) && dup.Valid()
      ensures dup.numElements == FragmentCount(len)
      ensures forall k | 0 <= k < dup.numElements ::
        dup.elements[k] == Element(old(elements[k].buf), Least(PACKET_BODY, len - 1436 * k))
      ensures forall k | 0 <= k < dup.numElements ::
        dup.Part(k) == old(elements[k].buf[..Least(PACKET_BODY, len - 1436 * k)])
      ensures forall k | 0 <= k < dup.numElements :: fresh(elements[k].buf) && elements[k].len == PACKET_BODY
      ensures forall k | dup.numElements <= k < numElements :: elements[k] == old(elements[k])
    {
      dup := new Scatter.Empty();
      var i, remain := 0, len;
      while remain > 0
        invariant Valid() && numElements == old(numElements) && fresh(dup) && fresh(dup.elements)
        invariant dup.elements != elements
        invariant i == dup.numElements <= FragmentCount(len) && dup.elements.Length == MAX_SCATTER_ELEMENTS
        invariant remain == len - 1436 * i
        invariant forall k | 0 <= k < i ::
          dup.elements[k] == Element(old(elements[k].buf), Least(PACKET_BODY, len - 1436 * k))
        invariant forall k | 0 <= k < i :: fresh(elements[k].buf) && elements[k].len == PACKET_BODY
        invariant forall k | i <= k < numElements :: elements[k] == old(elements[k])
        decreases remain
      {
        HandOver(dup, if remain > PACKET_BODY then PACKET_BODY else remain);
        i := i + 1;
        remain := remain - PACKET_BODY;
      }
    }

    /** The next element goes to the duplicate, with n bytes. */
    method HandOver(dup: Scatter, n: nat)
      requires Valid() && dup != this && dup.elements != elements && dup.elements.Length == MAX_SCATTER_ELEMENTS
      requires dup.numElements < numElements
      modifies elements, dup`numElements, dup.elements
      ensures Valid() && dup.numElements == old(dup.numElements) + 1
      ensures var i := old(dup.numElements);
        && dup.elements[i] == Element(old(elements[i].buf), n)
        && fresh(elements[i].buf) && elements[i].len == PACKET_BODY
        && (forall j | 0 <= j < MAX_SCATTER_ELEMENTS && j != i :: dup.elements[j] == old(dup.elements[j]))
        && (forall j | 0 <= j < numElements && j != i :: elements[j] == old(elements[j]))
    {
      var i := dup.numElements;
      dup.elements[i] := Element(elements[i].buf, n);
      dup.numElements := i + 1;
      Renew(i);
    }

    /** A new packet body in the k-th place. */
    method Renew(k: nat)
      requires Valid() && k < numElements
      modifies elements
      ensures Valid() && fresh(elements[k].buf) && elements[k].len == PACKET_BODY
      ensures forall j | 0 <= j < numElements && j != k :: elements[j] == old(elements[j])
    {
      var body := NewBody([]);
      elements[k] := Element(body, PACKET_BODY);
    }

    /** The copy of all elements into one buffer that G_mess_to_groups makes. */
    method Flatten(temp: array<byte>) returns (total: nat)
      requires Valid() && |Concat(Parts())| <= temp.Length && temp !in Buffers()
      modifies temp
      ensures total == |Concat(Parts())| && temp[..total] == Concat(Parts())
    {
      hide Concat;
      ghost var parts := Parts();
      total := 0;
      NothingYet(parts);
      for i := 0 to numElements
        invariant total <= temp.Length && temp[..total] == Concat(parts[..i])
      {
        ConcatNext(parts, i);
        PrefixFits(parts, i + 1);
        total := Append(temp, total, elements[i].buf[..elements[i].len]);
      }
      assert parts[..numElements] == parts;
    }

    /** Message_calculate_current_location. */
    method CalculateCurrentLocation(lenSent: nat) returns (element: nat, inElement: nat)
      requires Valid()
      ensures IsAt(Lengths(Parts()), element, inElement, lenSent)
    {
      ghost var lens := Lengths(Parts());
      element, inElement := 0, lenSent;
      while element < numElements && inElement >= elements[element].len
        invariant element <= numElements && lenSent == Sum(lens[..element]) + inElement
      {
        assert lens[..element + 1][..element] == lens[..element];
        inElement := inElement - elements[element].len;
        element := element + 1;
      }
    }
  }

  lemma Shifted(all: seq<byte>, data: seq<byte>, at: nat, n: nat)
    requires |all| == MESSAGE_HEADER + |data| && all[MESSAGE_HEADER..] == data && MESSAGE_HEADER <= at
    requires at + n <= |all|
    ensures all[at..at + n] == data[at - MESSAGE_HEADER..at - MESSAGE_HEADER + n]
  {
    var x, y := all[at..at + n], data[at - MESSAGE_HEADER..at - MESSAGE_HEADER + n];
    forall i | 0 <= i < n ensures x[i] == y[i] {
      assert all[MESSAGE_HEADER..][at + i - MESSAGE_HEADER] == all[at + i];
    }
  }

  lemma NothingYet(parts: seq<seq<byte>>)
    ensures Concat(parts[..0]) == []
  {
  }

  lemma ConcatNext(parts: seq<seq<byte>>, i: nat)
    requires i < |parts|
    ensures Concat(parts[..i + 1]) == Concat(parts[..i]) + parts[i]
  {
    assert parts[..i + 1][..i] == parts[..i];
  }

  lemma {:induction false} PrefixFits(parts: seq<seq<byte>>, n: nat)
    requires n <= |parts|
    ensures |Concat(parts[..n])| <= |Concat(parts)|
    decreases |parts| - n
  {
    if n < |parts| {
      PrefixFits(parts, n + 1);
      assert parts[..n + 1][..n] == parts[..n];
    } else {
      assert parts[..n] == parts;
    }
  }
}
