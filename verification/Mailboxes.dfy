/** The array of mailboxes of a group's local members. */
module Mailboxes {
  import opened GroupTable

  /** A growing array: the first `size` entries are in use. */
  class MailboxArray {
    var begin: array<Mailbox>
    var size: nat

    ghost predicate Valid()
      reads this
    {
      size <= begin.Length
    }

    ghost function Contents(): seq<Mailbox>
      requires Valid()
      reads this, begin
    {
      begin[..size]
    }

    constructor ()
      ensures Valid() && Contents() == [] && fresh(begin)
    {
      begin := new Mailbox[4];
      size := 0;
    }

    /** stdarr_push_back: the array is replaced by a larger one when it is full. */
    method PushBack(m: Mailbox)
      requires Valid()
      modifies this, begin
      ensures Valid() && Contents() == old(Contents()) + [m] && (begin == old(begin) || fresh(begin))
    {
      if size == begin.Length {
        var bigger := new Mailbox[2 * size + 1];
        for i := 0 to size
          invariant begin == old(begin) && size == old(size) && begin[..] == old(begin[..])
          invariant bigger[..i] == begin[..i]
        {
          bigger[i] := begin[i];
        }
        begin := bigger;
      }
      begin[size] := m;
      size := size + 1;
    }

    /** G_remove_mailbox: the last entry overwrites m. The daemon aborts if m is not there. */
    method Remove(m: Mailbox)
      requires Valid() && m in Contents()
      modifies this`size, begin
      ensures Valid() && Contents() == Unpost(old(Contents()), m)
    {
      hide Unpost, FirstIndex;
      ghost var before := Contents();
      var i := Search(m);
      UnpostIs(before, m);
      begin[i] := begin[size - 1];
      size := size - 1;
      assert Contents() == before[i := before[|before| - 1]][..|before| - 1];
    }

    /** The linear search for m. */
    method Search(m: Mailbox) returns (i: nat)
      requires Valid() && m in Contents()
      ensures i < size && i == FirstIndex(Contents(), m)
    {
      i := 0;
      while begin[i] != m
        invariant i < size && m in begin[i..size] && forall j | 0 <= j < i :: begin[j] != m
        decreases size - i
      {
        assert begin[i..size] == [begin[i]] + begin[i + 1..size];
        i := i + 1;
      }
      FirstAt(Contents(), m, i);
    }
  }

  lemma UnpostIs(a: seq<Mailbox>, m: Mailbox)
    requires m in a
    ensures FirstIndex(a, m) < |a| && Unpost(a, m) == a[FirstIndex(a, m) := a[|a| - 1]][..|a| - 1]
  {
  }

  lemma {:induction false} FirstAt(a: seq<Mailbox>, m: Mailbox, i: nat)
    requires i < |a| && a[i] == m && forall j | 0 <= j < i :: a[j] != m
    ensures FirstIndex(a, m) == i
  {
  }
}
