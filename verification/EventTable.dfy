/** Event masks: the subsets of {AE_READABLE, AE_WRITABLE} (src/ae.h). */
module Masks {
  datatype Mask = Mask(readable: bool, writable: bool) {
    function Or(m: Mask): Mask {
      Mask(readable || m.readable, writable || m.writable)
    }

    function And(m: Mask): Mask {
      Mask(readable && m.readable, writable && m.writable)
    }

    /** The C expression `mask & ~m`. */
    function Minus(m: Mask): Mask {
      Mask(readable && !m.readable, writable && !m.writable)
    }
  }

  const AE_NONE := Mask(false, false)
  const AE_READABLE := Mask(true, false)
  const AE_WRITABLE := Mask(false, true)
}

/**
 The fd-indexed table of file events (src/ae.c) and the epoll interest set behind it (src/ae_epoll.c).
 A table is viewed as the sequence of its slots; the functions on that sequence say what the calls mean.
 */
module EventTable {
  import opened Options
  import opened Masks

  datatype FileEvent<+T> = FileEvent(mask: Mask, client: Option<T>)

  datatype FiredEvent = FiredEvent(fd: nat, mask: Mask)

  /** What epoll is asked to watch on one descriptor (EPOLLIN, EPOLLOUT). */
  datatype Interest = Interest(input: bool, output: bool)

  /** One event handed back by epoll_wait; errors and hang-ups are reported without being asked for. */
  datatype KernelEvent = KernelEvent(fd: nat, input: bool, output: bool, err: bool, hup: bool)

  datatype CtlOp = Add | Mod | Del

  /** One epoll_ctl call, with whether the descriptor was in the interest set when it was made. */
  datatype CtlCall = CtlCall(op: CtlOp, fd: nat, present: bool)

  // ---------- slots as a sequence ----------

  /** The highest descriptor with a nonempty mask, or -1. */
  function MaxFd<T>(slots: seq<FileEvent<T>>): int
  {
    if slots == [] then -1
    else if slots[|slots| - 1].mask != AE_NONE then |slots| - 1
    else MaxFd(slots[..|slots| - 1])
  }

  function ToInterest(mask: Mask): Interest {
    Interest(mask.readable, mask.writable)
  }

  /** The interest set that mirrors a table. */
  function Mirror<T>(slots: seq<FileEvent<T>>): map<nat, Interest> {
    map fd: nat | fd < |slots| && slots[fd].mask != AE_NONE :: ToInterest(slots[fd].mask)
  }

  function Created<T>(slots: seq<FileEvent<T>>, fd: nat, mask: Mask, client: T): seq<FileEvent<T>>
    requires fd < |slots|
  {
    slots[fd := FileEvent(slots[fd].mask.Or(mask), Some(client))]
  }

  function Deleted<T>(slots: seq<FileEvent<T>>, fd: nat, mask: Mask): seq<FileEvent<T>> {
    if fd < |slots| && slots[fd].mask != AE_NONE
    then slots[fd := slots[fd].(mask := slots[fd].mask.Minus(mask))]
    else slots
  }

  function Resized<T>(slots: seq<FileEvent<T>>, setsize: int): seq<FileEvent<T>> {
    if MaxFd(slots) >= setsize || setsize < 0 then slots
    else if setsize <= |slots| then slots[..setsize]
    else slots + seq(setsize - |slots|, _ => FileEvent(AE_NONE, None))
  }

  /** MaxFd is the greatest descriptor with a nonempty mask, and nothing else is. */
  lemma {:induction false} MaxFdIsGreatest<T>(slots: seq<FileEvent<T>>)
    ensures -1 <= MaxFd(slots) < |slots|
    ensures MaxFd(slots) >= 0 ==> slots[MaxFd(slots)].mask != AE_NONE
    ensures forall fd :: MaxFd(slots) < fd < |slots| ==> slots[fd].mask == AE_NONE
  {
    if slots != [] && slots[|slots| - 1].mask == AE_NONE {
      var shorter := slots[..|slots| - 1];
      MaxFdIsGreatest(shorter);
      forall fd | MaxFd(slots) < fd < |slots| ensures slots[fd].mask == AE_NONE {
        if fd < |slots| - 1 {
          assert shorter[fd] == slots[fd];
        }
      }
    }
  }

  /** The highest descriptor is determined by the masks alone. */
  lemma MaxFdUnique<T>(slots: seq<FileEvent<T>>, k: int)
    requires -1 <= k < |slots|
    requires k >= 0 ==> slots[k].mask != AE_NONE
    requires forall fd :: k < fd < |slots| ==> slots[fd].mask == AE_NONE
    ensures MaxFd(slots) == k
  {
  }

  /** Deleting a mask just created on an empty slot restores every mask, the maximum and the mirror. */
  lemma DeleteUndoesCreate<T>(slots: seq<FileEvent<T>>, fd: nat, mask: Mask, client: T)
    requires fd < |slots| && slots[fd].mask == AE_NONE && mask != AE_NONE
    ensures var after := Deleted(Created(slots, fd, mask, client), fd, mask);
            && |after| == |slots|
            && (forall i :: 0 <= i < |slots| ==> after[i].mask == slots[i].mask)
            && MaxFd(after) == MaxFd(slots)
            && Mirror(after) == Mirror(slots)
  {
    var after := Deleted(Created(slots, fd, mask, client), fd, mask);
    MaxFdIsGreatest(slots);
    MaxFdUnique(after, MaxFd(slots));
  }

  lemma MirrorUpdated<T>(slots: seq<FileEvent<T>>, fd: nat, slot: FileEvent<T>)
    requires fd < |slots|
    ensures Mirror(slots[fd := slot])
            == if slot.mask != AE_NONE then Mirror(slots)[fd := ToInterest(slot.mask)] else Mirror(slots) - {fd}
  {
  }

  lemma MaxFdUpdated<T>(slots: seq<FileEvent<T>>, fd: nat, slot: FileEvent<T>)
    requires fd < |slots| && (slot.mask != AE_NONE || fd != MaxFd(slots))
    ensures MaxFd(slots[fd := slot]) == if slot.mask != AE_NONE && fd > MaxFd(slots) then fd else MaxFd(slots)
  {
    var after := slots[fd := slot];
    var k := if slot.mask != AE_NONE && fd > MaxFd(slots) then fd else MaxFd(slots);
    MaxFdIsGreatest(slots);
    assert forall i: nat :: i < |slots| && i != fd ==> after[i] == slots[i];
    MaxFdUnique(after, k);
  }

  lemma MirrorResized<T>(slots: seq<FileEvent<T>>, size: nat)
    requires MaxFd(slots) < size
    ensures Mirror(Resized(slots, size)) == Mirror(slots) && MaxFd(Resized(slots, size)) == MaxFd(slots)
  {
    MaxFdIsGreatest(slots);
    MaxFdUnique(Resized(slots, size), MaxFd(slots));
  }

  /** What the kernel may return from a wait on the given interest set. */
  ghost predicate KernelReturns(interest: map<nat, Interest>, events: seq<KernelEvent>) {
    && (forall i, j :: 0 <= i < j < |events| ==> events[i].fd != events[j].fd)
    && (forall i :: 0 <= i < |events| ==>
          && events[i].fd in interest
          && (events[i].input ==> interest[events[i].fd].input)
          && (events[i].output ==> interest[events[i].fd].output))
  }

  function FiredOf(e: KernelEvent): FiredEvent {
    FiredEvent(e.fd, Mask(e.input, e.output || e.err || e.hup))
  }

  class EventLoop<T> {
    var maxfd: int
    var setsize: int
    var events: array<FileEvent<T>>
    var fired: array<FiredEvent>
    // The interest set held by the kernel for this epoll instance.
    var interest: map<nat, Interest>
    // Every epoll_ctl call made so far.
    ghost var calls: seq<CtlCall>

    ghost predicate Valid()
      reads this, events
    {
      && 0 <= setsize == events.Length == fired.Length
      && maxfd == MaxFd(events[..])
      && interest == Mirror(events[..])
      && forall c :: c in calls ==> (c.op == Add <==> !c.present)
    }

    constructor (setsize: nat)
      ensures Valid() && this.setsize == setsize && fresh(events) && fresh(fired)
      ensures maxfd == -1 && interest == map[] && calls == []
      ensures forall fd :: 0 <= fd < setsize ==> events[fd].mask == AE_NONE
    {
      this.setsize := setsize;
      events := new FileEvent<T>[setsize](_ => FileEvent(AE_NONE, None));
      fired := new FiredEvent[setsize](_ => FiredEvent(0, AE_NONE));
      maxfd := -1;
      interest := map[];
      calls := [];
      new;
      MaxFdUnique(events[..], -1);
    }

    /** The kernel: refuses ADD of a watched descriptor and MOD or DEL of an unwatched one, and may refuse others. */
    method EpollCtl(op: CtlOp, fd: nat, watch: Interest, refuse: bool) returns (ret: int)
      modifies this`interest, this`calls
      ensures calls == old(calls) + [CtlCall(op, fd, fd in old(interest))]
      ensures ret == if refuse || (op == Add <==> fd in old(interest)) then -1 else 0
      ensures interest == if ret == -1 then old(interest)
                          else if op == Del then old(interest) - {fd}
                          else old(interest)[fd := watch]
    {
      calls := calls + [CtlCall(op, fd, fd in interest)];
      if refuse || ((op == Add) == (fd in interest)) {
        return -1;
      }
      interest := if op == Del then interest - {fd} else interest[fd := watch];
      return 0;
    }

    /** aeApiAddEvent. */
    method ApiAddEvent(fd: nat, mask: Mask, refuse: bool) returns (ret: int)
      requires Valid() && fd < setsize && mask != AE_NONE
      modifies this`interest, this`calls
      ensures ret == if refuse then -1 else 0
      ensures interest == if refuse then old(interest)
                          else old(interest)[fd := Interest(events[fd].mask.readable || mask.readable,
                                                            events[fd].mask.writable || mask.writable)]
      ensures forall c :: c in calls ==> (c.op == Add <==> !c.present)
    {
      var op := if events[fd].mask == AE_NONE then Add else Mod;
      var merged := mask.Or(events[fd].mask);
      ret := EpollCtl(op, fd, Interest(merged.readable, merged.writable), refuse);
    }

    /** aeApiDelEvent; its epoll_ctl result is ignored. */
    method ApiDelEvent(fd: nat, delmask: Mask)
      requires Valid() && fd < setsize && events[fd].mask != AE_NONE
      modifies this`interest, this`calls
      ensures var input, output := events[fd].mask.readable && !delmask.readable,
                                   events[fd].mask.writable && !delmask.writable;
              interest == if input || output then old(interest)[fd := Interest(input, output)]
                          else old(interest) - {fd}
      ensures forall c :: c in calls ==> (c.op == Add <==> !c.present)
    {
      var mask := events[fd].mask.Minus(delmask);
      if mask != AE_NONE {
        var _ := EpollCtl(Mod, fd, ToInterest(mask), false);
      } else {
        var _ := EpollCtl(Del, fd, ToInterest(mask), false);
      }
    }

    /** aeCreateFileEvent: on failure nothing changes. */
    method CreateFileEvent(fd: nat, mask: Mask, client: T, refuse: bool) returns (ok: bool)
      requires Valid() && mask != AE_NONE
      modifies this`interest, this`calls, this`maxfd, events
      ensures Valid()
      ensures ok <==> fd < setsize && !refuse
      ensures events[..] == if ok then Created(old(events[..]), fd, mask, client) else old(events[..])
      ensures !ok ==> maxfd == old(maxfd) && interest == old(interest)
    {
      if fd >= setsize {
        return false;
      }
      var ret := ApiAddEvent(fd, mask, refuse);
      if ret == -1 {
        return false;
      }
      ghost var slots, slot := events[..], FileEvent(events[fd].mask.Or(mask), Some(client));
      MirrorUpdated(slots, fd, slot);
      MaxFdUpdated(slots, fd, slot);
      events[fd] := FileEvent(events[fd].mask.Or(mask), Some(client));
      assert events[..] == slots[fd := slot];
      if fd > maxfd {
        maxfd := fd;
      }
      return true;
    }

    /** aeDeleteFileEvent, with the downward scan for the new maximum. */
    method DeleteFileEvent(fd: nat, mask: Mask)
      requires Valid()
      modifies this`interest, this`calls, this`maxfd, events
      ensures Valid()
      ensures events[..] == Deleted(old(events[..]), fd, mask)
    {
      if fd >= setsize || events[fd].mask == AE_NONE {
        return;
      }
      ghost var slots, slot := events[..], events[fd].(mask := events[fd].mask.Minus(mask));
      MaxFdIsGreatest(slots);
      MirrorUpdated(slots, fd, slot);
      if slot.mask != AE_NONE || fd != maxfd {
        MaxFdUpdated(slots, fd, slot);
      }
      ApiDelEvent(fd, mask);
      events[fd] := events[fd].(mask := events[fd].mask.Minus(mask));
      assert events[..] == slots[fd := slot];
      if fd == maxfd && events[fd].mask == AE_NONE {
        var j := maxfd - 1;
        while j >= 0 && events[j].mask == AE_NONE
          invariant -1 <= j < maxfd
          invariant forall i :: j < i < events.Length ==> events[i].mask == AE_NONE
        {
          j := j - 1;
        }
        maxfd := j;
        MaxFdUnique(events[..], maxfd);
      }
    }

    /** aeResizeSetSize: fails, changing nothing, when a descriptor in use would not fit. */
    method ResizeSetSize(size: int) returns (ok: bool)
      requires Valid()
      modifies this`setsize, this`events, this`fired
      ensures Valid()
      ensures ok <==> size == old(setsize) || old(maxfd) < size
      ensures events[..] == Resized(old(events[..]), size)
      ensures ok ==> setsize == size
      ensures !ok ==> setsize == old(setsize) && events == old(events) && fired == old(fired)
      ensures events == old(events) || fresh(events)
    {
      MaxFdIsGreatest(events[..]);
      if size == setsize {
        return true;
      }
      if maxfd >= size {
        return false;
      }
      var slots := events[..];
      var kept := if size < |slots| then size else |slots|;
      events := new FileEvent<T>[size](i requires 0 <= i =>
        if i < kept && i < |slots| then slots[i] else FileEvent(AE_NONE, None));
      fired := new FiredEvent[size](_ => FiredEvent(0, AE_NONE));
      setsize := size;
      assert events[..] == Resized(slots, size);
      MirrorResized(slots, size);
      return true;
    }

    /** aeApiPoll: the fired array becomes the translation of what the kernel returned. */
    method Poll(returned: seq<KernelEvent>) returns (numevents: nat)
      requires Valid() && |returned| <= setsize && KernelReturns(interest, returned)
      modifies fired
      ensures numevents == |returned|
      ensures forall j {:trigger fired[j]} :: 0 <= j < numevents ==>
                && fired[j].fd == returned[j].fd && (fired[j].mask.readable <==> returned[j].input)
                && (fired[j].mask.writable <==> returned[j].output || returned[j].err || returned[j].hup)
    {
      numevents := |returned|;
      for j := 0 to numevents
        invariant forall i :: 0 <= i < j ==> fired[i] == FiredOf(returned[i])
      {
        var e := returned[j];
        var mask := AE_NONE;
        if e.input { mask := mask.Or(AE_READABLE); }
        if e.output { mask := mask.Or(AE_WRITABLE); }
        if e.err { mask := mask.Or(AE_WRITABLE); }
        if e.hup { mask := mask.Or(AE_WRITABLE); }
        fired[j] := FiredEvent(e.fd, mask);
      }
    }
  }

  // ---------- runs ----------

  datatype TableCall<+T> =
    | Create(fd: nat, mask: Mask, client: T, refused: bool)
    | Delete(fd: nat, mask: Mask)
    | Resize(size: int)

  ghost predicate WellFormedCall<T>(c: TableCall<T>) {
    !c.Resize? ==> c.mask != AE_NONE
  }

  function After<T>(slots: seq<FileEvent<T>>, c: TableCall<T>): seq<FileEvent<T>> {
    match c
    case Create(fd, mask, client, refused) =>
      if fd < |slots| && !refused then Created(slots, fd, mask, client) else slots
    case Delete(fd, mask) => Deleted(slots, fd, mask)
    case Resize(size) => Resized(slots, size)
  }

  function AfterAll<T>(slots: seq<FileEvent<T>>, cs: seq<TableCall<T>>): seq<FileEvent<T>> {
    if cs == [] then slots else After(AfterAll(slots, cs[..|cs| - 1]), cs[|cs| - 1])
  }

  /** Over any sequence of calls the table, the maximum and the interest set stay in step. */
  method RunCalls<T>(loop: EventLoop<T>, cs: seq<TableCall<T>>)
    requires loop.Valid() && forall c :: c in cs ==> WellFormedCall(c)
    modifies loop, loop.events
    ensures loop.Valid() && (loop.events == old(loop.events) || fresh(loop.events))
    ensures loop.events[..] == AfterAll(old(loop.events[..]), cs)
    ensures loop.maxfd == MaxFd(AfterAll(old(loop.events[..]), cs))
    ensures forall fd: nat :: fd in loop.interest <==>
              fd < loop.events.Length && (loop.events[fd].mask.readable || loop.events[fd].mask.writable)
    ensures forall fd: nat :: fd in loop.interest ==>
              && loop.interest[fd].input == loop.events[fd].mask.readable
              && loop.interest[fd].output == loop.events[fd].mask.writable
  {
    ghost var start := loop.events[..];
    for i := 0 to |cs|
      invariant loop.Valid() && (loop.events == old(loop.events) || fresh(loop.events))
      invariant loop.events[..] == AfterAll(start, cs[..i])
    {
      assert cs[..i + 1][..i] == cs[..i] && cs[i] in cs;
      match cs[i] {
        case Create(fd, mask, client, refused) =>
          var _ := loop.CreateFileEvent(fd, mask, client, refused);
        case Delete(fd, mask) =>
          loop.DeleteFileEvent(fd, mask);
        case Resize(size) =>
          var _ := loop.ResizeSetSize(size);
      }
    }
    assert cs[..|cs|] == cs;
  }
}
