/** What a slot of the event table holds after any calls, told from the calls alone. */
module TableTheorems {
  import opened Options
  import opened Masks
  import opened EventTable

  datatype Bit = Readable | Writable

  predicate Has(mask: Mask, bit: Bit) {
    match bit
    case Readable => mask.readable
    case Writable => mask.writable
  }

  /** Call i is a creation on the descriptor that fits the table of that moment and is not refused. */
  predicate Accepted<T>(slots: seq<FileEvent<T>>, cs: seq<TableCall<T>>, i: nat, fd: nat)
    requires i < |cs|
  {
    cs[i].Create? && cs[i].fd == fd && !cs[i].refused && fd < |AfterAll(slots, cs[..i])|
  }

  predicate Asks<T>(slots: seq<FileEvent<T>>, cs: seq<TableCall<T>>, i: nat, fd: nat, bit: Bit)
    requires i < |cs|
  {
    Accepted(slots, cs, i, fd) && Has(cs[i].mask, bit)
  }

  predicate Withdraws<T>(cs: seq<TableCall<T>>, i: nat, fd: nat, bit: Bit)
    requires i < |cs|
  {
    cs[i].Delete? && cs[i].fd == fd && Has(cs[i].mask, bit)
  }

  /** No call from i on withdraws the bit. */
  ghost predicate Kept<T>(cs: seq<TableCall<T>>, i: nat, fd: nat, bit: Bit) {
    forall j :: i <= j < |cs| ==> !Withdraws(cs, j, fd, bit)
  }

  /** Some accepted creation asked for the bit and no later deletion withdrew it, or the table had it all along. */
  ghost predicate Wanted<T>(slots: seq<FileEvent<T>>, cs: seq<TableCall<T>>, fd: nat, bit: Bit) {
    || (exists i :: 0 <= i < |cs| && Asks(slots, cs, i, fd, bit) && Kept(cs, i, fd, bit))
    || (fd < |slots| && Has(slots[fd].mask, bit) && Kept(cs, 0, fd, bit))
  }

  /** Whether the table holds the bit for the descriptor. */
  predicate Holds<T>(slots: seq<FileEvent<T>>, fd: nat, bit: Bit) {
    fd < |slots| && Has(slots[fd].mask, bit)
  }

  lemma OneCall<T>(slots: seq<FileEvent<T>>, c: TableCall<T>, fd: nat, bit: Bit)
    ensures Holds(After(slots, c), fd, bit) <==>
              || (c.Create? && c.fd == fd && !c.refused && fd < |slots| && Has(c.mask, bit))
              || (Holds(slots, fd, bit) && !(c.Delete? && c.fd == fd && Has(c.mask, bit)))
  {
    MaxFdIsGreatest(slots);
  }

  lemma WantedNext<T>(slots: seq<FileEvent<T>>, cs: seq<TableCall<T>>, c: TableCall<T>, fd: nat, bit: Bit)
    ensures Wanted(slots, cs + [c], fd, bit) <==>
              || (c.Create? && c.fd == fd && !c.refused && fd < |AfterAll(slots, cs)| && Has(c.mask, bit))
              || (Wanted(slots, cs, fd, bit) && !(c.Delete? && c.fd == fd && Has(c.mask, bit)))
  {
    hide AfterAll, Has;
    var all, n := cs + [c], |cs|;
    assert all[..n] == cs;
    forall i | 0 <= i < n
      ensures Asks(slots, all, i, fd, bit) <==> Asks(slots, cs, i, fd, bit)
      ensures Withdraws(all, i, fd, bit) <==> Withdraws(cs, i, fd, bit)
    {
      assert all[..i] == cs[..i];
    }
    forall i | 0 <= i <= n
      ensures Kept(all, i, fd, bit) <==> Kept(cs, i, fd, bit) && !Withdraws(all, n, fd, bit)
    {
      if Kept(all, i, fd, bit) {
        assert !Withdraws(all, n, fd, bit);
      }
    }
    assert Asks(slots, all, n, fd, bit) <==>
           c.Create? && c.fd == fd && !c.refused && fd < |AfterAll(slots, cs)| && Has(c.mask, bit);
    assert Kept(all, n, fd, bit) <==> !Withdraws(all, n, fd, bit);
  }

  /**
   After any calls a slot is registered for reading, and likewise for writing, if and only if some accepted creation
   asked for it and no later deletion withdrew it.
   */
  lemma {:induction false} BitsExactly<T>(slots: seq<FileEvent<T>>, cs: seq<TableCall<T>>, fd: nat, bit: Bit)
    ensures Holds(AfterAll(slots, cs), fd, bit) <==> Wanted(slots, cs, fd, bit)
  {
    if cs != [] {
      hide After, Wanted, Holds, Has;
      var n := |cs| - 1;
      BitsExactly(slots, cs[..n], fd, bit);
      OneCall(AfterAll(slots, cs[..n]), cs[n], fd, bit);
      WantedNext(slots, cs[..n], cs[n], fd, bit);
      assert cs[..n] + [cs[n]] == cs;
    }
  }

  /** The last accepted creation decides whom a used slot serves, whatever was deleted or resized since. */
  lemma {:induction false} ClientOfLast<T>(slots: seq<FileEvent<T>>, cs: seq<TableCall<T>>, fd: nat, i: nat)
    requires i < |cs| && Accepted(slots, cs, i, fd) && forall j :: i < j < |cs| ==> !Accepted(slots, cs, j, fd)
    ensures var after := AfterAll(slots, cs);
            fd < |after| && after[fd].mask != AE_NONE ==> after[fd].client == Some(cs[i].client)
  {
    var n := |cs| - 1;
    assert Accepted(slots, cs, n, fd) ==> i == n;
    MaxFdIsGreatest(AfterAll(slots, cs[..n]));
    if i < n {
      forall j | 0 <= j < n ensures Accepted(slots, cs[..n], j, fd) <==> Accepted(slots, cs, j, fd) {
        assert cs[..n][..j] == cs[..j];
      }
      ClientOfLast(slots, cs[..n], fd, i);
    }
  }

  /** What epoll watches is what the slots say, bit by bit. */
  lemma InterestExactly<T>(loop: EventLoop<T>, fd: nat)
    requires loop.Valid()
    ensures fd in loop.interest <==>
              fd < loop.events.Length && (loop.events[fd].mask.readable || loop.events[fd].mask.writable)
    ensures fd in loop.interest ==>
              && loop.interest[fd].input == loop.events[fd].mask.readable
              && loop.interest[fd].output == loop.events[fd].mask.writable
  {
  }
}
