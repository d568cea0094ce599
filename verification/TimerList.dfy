/** The timer list on the heap: time events linked through next, as src/ae.c keeps them. */
module TimerList {
  import opened Timers
  import opened TimerTheorems
  import opened TimerLife

  class TimeEvent {
    var id: int
    var whenSec: int
    var whenMs: int
    var next: TimeEvent?
    ghost var birth: nat

    constructor (id: nat, sec: int, ms: int, next: TimeEvent?)
      ensures this.id == id && whenSec == sec && whenMs == ms && this.next == next && birth == id
    {
      this.id, whenSec, whenMs, this.next, birth := id, sec, ms, next, id;
    }
  }

  class TimerLoop {
    var head: TimeEvent?
    var nextId: nat
    var lastTime: int
    // The events in list order, and what they amount to.
    ghost var nodes: seq<TimeEvent>
    ghost var state: State

    ghost function At(i: nat): TimeEvent?
      reads this`nodes
    {
      if i < |nodes| then nodes[i] else null
    }

    ghost predicate Matches(n: TimeEvent, t: Timer)
      reads n
    {
      n.id == t.id && n.birth == t.birth && n.whenSec == t.when.sec && n.whenMs == t.when.ms
    }

    ghost predicate Shape()
      reads this, nodes
    {
      && |nodes| == |state.list| && head == At(0)
      && nextId == state.nextId && lastTime == state.lastTime
      && (forall i, j :: 0 <= i < j < |nodes| ==> nodes[i] != nodes[j])
      && (forall i {:trigger nodes[i].next} :: 0 <= i < |nodes| ==> nodes[i].next == At(i + 1))
      && (forall i :: 0 <= i < |nodes| ==> Matches(nodes[i], state.list[i]))
    }

    ghost predicate Valid()
      reads this, nodes
    {
      Shape() && Inv(state)
    }

    constructor (now: int)
      ensures Valid() && state == Start(now) && nodes == []
    {
      head, nextId, lastTime := null, 0, now;
      nodes, state := [], Start(now);
    }

    /** aeAddMillisecondsToNow. */
    static method AddMillisecondsToNow(delay: nat, now: Reading) returns (sec: int, ms: int)
      ensures Instant(sec, ms) == Deadline(now, delay)
      ensures sec * 1000 + ms == now.sec * 1000 + now.ms + delay && 0 <= ms < 1000
    {
      sec := now.sec + delay / 1000;
      ms := now.ms + delay % 1000;
      if ms >= 1000 {
        sec := sec + 1;
        ms := ms - 1000;
      }
    }

    /** aeCreateTimeEvent: the new timer becomes the head. */
    method CreateTimeEvent(delay: nat, now: Reading) returns (id: nat)
      requires Valid()
      modifies this
      ensures Valid() && id == old(nextId)
      ensures state == Added(old(state), delay, now) && lastTime == old(lastTime)
      ensures nodes != [] && nodes == [nodes[0]] + old(nodes) && fresh(nodes[0])
      ensures nodes[0].whenSec * 1000 + nodes[0].whenMs == now.sec * 1000 + now.ms + delay
      ensures 0 <= nodes[0].whenMs < 1000
    {
      AddedKeeps(state, delay, now);
      hide Inv;
      id := nextId;
      var sec, ms := AddMillisecondsToNow(delay, now);
      var te := new TimeEvent(id, sec, ms, head);
      head, nextId := te, nextId + 1;
      nodes := [te] + nodes;
      state := Added(state, delay, now);
    }

    /** aeDeleteTimeEvent: marks the timer; it succeeds exactly for a timer that is live. */
    method DeleteTimeEvent(id: nat) returns (ok: bool)
      requires Valid()
      modifies nodes`id, this`state
      ensures Valid() && state == Marked(old(state), id)
      ensures ok <==> Life(old(state).log, id) == Live
      ensures nodes == old(nodes)
    {
      hide Inv, Shape, Life;
      Sizes();
      MarkedKeeps(state, id);
      LiveIffListed(state, id);
      ghost var i: nat := 0;
      var te := head;
      while te != null
        invariant Valid() && state == old(state) && forall n :: n in nodes ==> unchanged(n)
        invariant i <= |nodes| == |state.list| && te == At(i)
        invariant forall j :: 0 <= j < i ==> state.list[j].id != id
        decreases |nodes| - i
      {
        Here(i);
        if te.id == id {
          assert i == IndexOf(state.list, id);
          te.id := DELETED;
          state := Marked(state, id);
          OneChanged(i);
          return true;
        }
        te := te.next;
        i := i + 1;
      }
      return false;
    }

    /** The events of a list that only grew in front are the old ones, behind new ones. */
    twostate predicate Extended()
      reads this`nodes
    {
      && |old(nodes)| <= |nodes| && nodes[|nodes| - |old(nodes)|..] == old(nodes)
      && forall i :: 0 <= i < |nodes| - |old(nodes)| ==> fresh(nodes[i])
    }

    /** What a callback does to the list. */
    method RunActions(actions: seq<Action>)
      requires Valid()
      modifies this, nodes
      ensures Valid() && state == ActAll(old(state), actions) && Extended() && lastTime == old(lastTime)
    {
      hide Shape, Inv;
      ghost var s := state;
      for i := 0 to |actions|
        invariant Valid() && Extended() && lastTime == old(lastTime)
        invariant state == ActAll(s, actions[..i])
      {
        assert actions[..i + 1][..i] == actions[..i];
        forall n | n in nodes ensures n in old(nodes) || fresh(n) {
          var j :| 0 <= j < |nodes| && nodes[j] == n;
          if j >= |nodes| - |old(nodes)| {
            assert n == nodes[|nodes| - |old(nodes)|..][j - (|nodes| - |old(nodes)|)];
          }
        }
        match actions[i] {
          case Create(delay, now) =>
            var _ := CreateTimeEvent(delay, now);
          case Delete(id) =>
            var _ := DeleteTimeEvent(id);
        }
      }
      assert actions[..|actions|] == actions;
    }

    /** Unlinks the event a pass has come to, which is marked, and gives the one after it. */
    method Unlink(prev: TimeEvent?, te: TimeEvent, ghost v: Visit) returns (next: TimeEvent?)
      requires Valid() && state.pos < |nodes| && te == nodes[state.pos] && te.id == DELETED
      requires prev == if state.pos == 0 then null else nodes[state.pos - 1]
      modifies this`head, this`nodes, this`state, nodes`next
      ensures Valid() && state == Step(old(state), v) && next == At(state.pos)
      ensures state.pos == old(state.pos) && nodes == old(nodes)[..state.pos] + old(nodes)[state.pos + 1..]
    {
      hide Inv, Step, ActAll, Due, Shape;
      ghost var pos, s := state.pos, state;
      Sizes();
      Here(pos);
      if pos > 0 {
        Here(pos - 1);
      }
      StepKeeps(state, v);
      StepDrops(state, v);
      next := te.next;
      if prev == null {
        head := te.next;
      } else {
        prev.next := te.next;
      }
      nodes := nodes[..pos] + nodes[pos + 1..];
      state := Step(state, v);
      Unlinked(pos);
    }

    /** The list without the event at pos, whose predecessor now leads past it. */
    twostate lemma Unlinked(pos: nat)
      requires old(Shape()) && pos < |old(nodes)| && nextId == old(nextId) && lastTime == old(lastTime)
      requires nodes == old(nodes)[..pos] + old(nodes)[pos + 1..]
      requires state.nextId == old(state.nextId) && state.lastTime == old(state.lastTime)
      requires state.list == old(state).list[..pos] + old(state).list[pos + 1..]
      requires head == if pos == 0 then old(nodes[0].next) else old(head)
      requires forall n :: n in old(nodes) ==>
                 && n.id == old(n.id) && n.birth == old(n.birth)
                 && n.whenSec == old(n.whenSec) && n.whenMs == old(n.whenMs)
                 && n.next == if pos > 0 && n == old(nodes[pos - 1]) then old(nodes[pos].next) else old(n.next)
      ensures Shape()
    {
      hide Inv, Matches;
      forall i | 0 <= i < |nodes|
        ensures Matches(nodes[i], state.list[i]) && nodes[i].next == At(i + 1)
      {
        var j := if i < pos then i else i + 1;
        assert nodes[i] == old(nodes[j]) && state.list[i] == old(state).list[j];
        MatchesKept(j);
        assert nodes[i].next == if j + 1 == pos then old(nodes[pos].next) else old(nodes[j].next);
      }
    }

    twostate lemma MatchesKept(j: nat)
      requires j < |old(nodes)| == |old(state).list| && old(Matches(nodes[j], state.list[j]))
      requires var n := old(nodes[j]);
               n.id == old(n.id) && n.birth == old(n.birth) && n.whenSec == old(n.whenSec) && n.whenMs == old(n.whenMs)
      ensures Matches(old(nodes[j]), old(state).list[j])
    {
    }

    /** The list when one event changed, and what is said of it changed with it. */
    twostate lemma OneChanged(pos: nat)
      requires old(Shape()) && nodes == old(nodes) && head == old(head) && nextId == old(nextId)
      requires lastTime == old(lastTime) && state.nextId == nextId && state.lastTime == lastTime
      requires pos < |nodes| && |state.list| == |old(state).list| && Matches(nodes[pos], state.list[pos])
      requires forall i :: 0 <= i < |state.list| && i != pos ==> state.list[i] == old(state).list[i]
      requires nodes[pos].next == old(nodes[pos].next)
      requires forall n :: n in nodes && n != nodes[pos] ==> unchanged(n)
      ensures Shape()
    {
      hide Inv, Matches;
      forall i | 0 <= i < |nodes| ensures Matches(nodes[i], state.list[i]) && nodes[i].next == At(i + 1) {
        assert old(Matches(nodes[i], state.list[i])) && old(nodes[i].next) == At(i + 1);
        if i != pos {
          assert nodes[i] in nodes && nodes[i] != nodes[pos];
        }
      }
    }

    /** Applies what a callback returned to the timer it was called for. */
    method Reschedule(te: TimeEvent, outcome: Outcome)
      requires Valid() && state.pos < |nodes| && te == nodes[state.pos]
      modifies te`whenSec, te`whenMs, te`id, this`state
      ensures Valid() && state == Settle(old(state), outcome)
    {
      hide Inv, Shape;
      ghost var pos := state.pos;
      Sizes();
      Here(pos);
      SettledKeeps(state, outcome);
      match outcome {
        case Again(delay, now) =>
          te.whenSec, te.whenMs := AddMillisecondsToNow(delay, now);
        case NoMore =>
          te.id := DELETED;
      }
      state := Settle(state, outcome);
      OneChanged(pos);
    }

    /** A step of the abstract state that changes no timer. */
    ghost method Record(s: State)
      requires Valid() && Inv(s) && s.list == state.list && s.nextId == state.nextId && s.lastTime == state.lastTime
      modifies this`state
      ensures Valid() && state == s
    {
      state := s;
    }

    /** Calls a timer: its callback may create and delete timers. */
    method Call(te: TimeEvent, v: Visit)
      requires Valid() && state.pos < |nodes| && te == nodes[state.pos] && te.id != DELETED
      modifies this, nodes
      ensures Valid() && Extended() && lastTime == old(lastTime) && old(state.pos) < |old(state).list|
      ensures state == ActAll(old(state).(log := old(state.log) + [Fired(old(state.list[state.pos].birth))]), v.actions)
      ensures state.pos < |nodes| && nodes[state.pos] == te
    {
      hide Valid, Inv, ActAll, Shape, Grown, Life;
      ghost var s := state;
      Sizes();
      Here(state.pos);
      FiredKeeps(s, s.pos);
      CallGrows(s, v);
      Record(s.(log := s.log + [Fired(te.birth)]));
      RunActions(v.actions);
      Sizes();
    }

    /** Calls a due timer, and reschedules it or marks it as its callback says. */
    method Fire(te: TimeEvent, v: Visit)
      requires Valid() && state.pos < |nodes| && te == nodes[state.pos]
      requires te.id != DELETED && Due(v.now, Instant(te.whenSec, te.whenMs))
      modifies this, nodes
      ensures Valid() && state == Step(old(state), v) && Extended() && lastTime == old(lastTime)
      ensures 0 < state.pos <= |nodes| && nodes[state.pos - 1] == te
    {
      hide Valid, Inv, ActAll, Due, Step, Settle, Shape, Grown, Life;
      ghost var s := state;
      Sizes();
      Here(state.pos);
      StepFires(s, v);
      StepKeeps(s, v);
      Call(te, v);
      ghost var p := state.pos;
      Reschedule(te, v.outcome);
      Record(Step(s, v));
      assert state.pos == p + 1;
    }

    /** The list with other deadline seconds and another last reading. */
    twostate lemma Reclocked()
      requires old(Shape()) && nodes == old(nodes) && head == old(head) && nextId == old(nextId)
      requires |state.list| == |old(state).list| && state.nextId == old(state.nextId) && state.lastTime == lastTime
      requires forall j {:trigger nodes[j]} :: 0 <= j < |nodes| ==>
                 var n, t, t0 := nodes[j], state.list[j], old(state).list[j];
                 && n.id == old(n.id) && n.birth == old(n.birth) && n.whenMs == old(n.whenMs) && n.next == old(n.next)
                 && t.id == t0.id && t.birth == t0.birth && t.when.ms == t0.when.ms && n.whenSec == t.when.sec
      ensures Shape()
    {
      hide Inv;
      forall j | 0 <= j < |nodes| ensures Matches(nodes[j], state.list[j]) && nodes[j].next == At(j + 1) {
        assert old(Matches(nodes[j], state.list[j])) && old(nodes[j].next) == At(j + 1);
      }
    }

    /** A clock that went back: every deadline is moved to the epoch. */
    method Unskew(now: int)
      requires Valid() && state.pos == 0
      modifies this`lastTime, this`state, nodes`whenSec
      ensures Valid() && state == Unskewed(old(state), now)
    {
      hide Inv, Unskewed;
      UnskewedKeeps(state, now);
      if now < lastTime {
        ghost var i: nat := 0;
        var te := head;
        while te != null
          invariant i <= |nodes| && te == At(i) && state == old(state) && lastTime == old(lastTime)
          invariant forall j :: 0 <= j < |nodes| ==>
                      nodes[j].whenSec == if j < i then 0 else old(nodes[j].whenSec)
          decreases |nodes| - i
        {
          te.whenSec := 0;
          te := te.next;
          i := i + 1;
        }
      }
      lastTime := now;
      state := Unskewed(state, now);
      forall j | 0 <= j < |nodes| ensures nodes[j].whenSec == state.list[j].when.sec {
        assert old(Matches(nodes[j], state.list[j]));
      }
      Reclocked();
    }

    /**
     One iteration of the loop of processTimeEvents. The test for identifiers above maxId is never met: the loop only
     visits timers that were in the list when it began.
     */
    method VisitTimer(prev: TimeEvent?, te: TimeEvent, maxId: int, v: Visit)
      returns (prev': TimeEvent?, te': TimeEvent?, fired: bool)
      requires Valid() && state.pos < |nodes| && te == nodes[state.pos] && state.list[state.pos].id <= maxId
      requires prev == if state.pos == 0 then null else nodes[state.pos - 1]
      modifies this, nodes
      ensures Valid() && state == Step(old(state), v) && lastTime == old(lastTime) && state.pos <= |nodes|
      ensures te' == At(state.pos) && prev' == if state.pos == 0 then null else At(state.pos - 1)
      ensures forall i :: 0 <= i < |nodes| ==> nodes[i] in old(nodes) || fresh(nodes[i])
      ensures fired <==> old(te.id) != DELETED && Due(v.now, old(state.list[state.pos].when))
    {
      hide Inv, Shape, Step, Due, Life;
      prev', fired := prev, false;
      Sizes();
      Here(state.pos);
      if te.id == DELETED {
        te' := Unlink(prev, te, v);
      } else {
        if te.id > maxId {
          assert false;
        }
        if Due(v.now, Instant(te.whenSec, te.whenMs)) {
          Fire(te, v);
          fired := true;
        } else {
          StepKeeps(state, v);
          StepPasses(state, v);
          Record(Step(state, v));
        }
        Sizes();
        Here(state.pos - 1);
        prev' := te;
        te' := te.next;
      }
      Sizes();
    }

    /** processTimeEvents. */
    method ProcessTimeEvents(now: int, env: nat -> Visit) returns (processed: nat)
      requires Valid() && state.pos == 0
      modifies this, nodes
      ensures Valid() && state == Pass(old(state), now, env)
      ensures processed == |FiredIn(state.log)| - |FiredIn(old(state).log)|
      ensures forall i :: 0 <= i < |nodes| ==> nodes[i] in old(nodes) || fresh(nodes[i])
    {
      hide Valid, Inv, Shape, Step, Steps, Due, FiredIn, Reached, Life;
      Unskew(now);
      ghost var u := state;
      Sizes();
      StepsStart(u, env);
      processed := 0;
      var prev: TimeEvent? := null;
      var te := head;
      var maxId := nextId - 1;
      var k: nat := 0;
      while te != null
        invariant Valid() && k <= |u.list| && state == Steps(u, env, k) && lastTime == now
        invariant |state.list| - state.pos == |u.list| - k
        invariant te == At(state.pos) && prev == if state.pos == 0 then null else At(state.pos - 1)
        invariant forall i :: 0 <= i < |nodes| ==> nodes[i] in old(nodes) || fresh(nodes[i])
        invariant processed == |FiredIn(state.log)| - |FiredIn(u.log)|
        decreases |u.list| - k
      {
        Sizes();
        Here(state.pos);
        BoundedIds(u, env, k);
        StepsStep(u, env, k);
        StepLogs(state, env(k));
        var fired;
        prev, te, fired := VisitTimer(prev, te, maxId, env(k));
        if fired {
          processed := processed + 1;
        }
        k := k + 1;
      }
      Sizes();
      MovedKeeps(state, state.(pos := 0));
      Record(state.(pos := 0));
    }

    /** aeSearchNearestTimer: the first of the events with the earliest deadline, marked ones included. */
    method SearchNearestTimer() returns (nearest: TimeEvent?)
      requires Valid()
      ensures nearest == null <==> state.list == []
      ensures nearest != null ==>
                Instant(nearest.whenSec, nearest.whenMs).Total() == EarliestTotal(state.list)
                && nearest in nodes && 0 <= nearest.whenMs < 1000
    {
      hide Inv;
      ghost var i: nat := 0;
      var te := head;
      nearest := null;
      while te != null
        invariant i <= |nodes| && te == At(i)
        invariant nearest == null <==> i == 0
        invariant i > 0 ==>
                    && nearest in nodes && 0 <= nearest.whenMs < 1000
                    && Instant(nearest.whenSec, nearest.whenMs).Total() == EarliestTotal(state.list[..i])
        decreases |nodes| - i
      {
        assert Matches(te, state.list[i]);
        assert state.list[..i + 1][..i] == state.list[..i];
        if nearest == null || te.whenSec < nearest.whenSec
           || (te.whenSec == nearest.whenSec && te.whenMs < nearest.whenMs) {
          nearest := te;
        }
        te := te.next;
        i := i + 1;
      }
      assert state.list[..i] == state.list;
    }

    /**
     The timeout that aeProcessEvents and aeApiPoll hand to epoll_wait: through struct timeval and back, it is the exact
     number of milliseconds to the earliest deadline.
     */
    method PollTimeout(timeEvents: bool, dontWait: bool, now: Reading) returns (timeout: int)
      requires Valid()
      ensures timeout == if dontWait then 0 else if timeEvents then Timeout(state.list, now) else -1
    {
      var shortest: TimeEvent? := null;
      if timeEvents && !dontWait {
        shortest := SearchNearestTimer();
      }
      var tv: (int, int) := (0, 0);
      var wait := true;
      if shortest != null {
        var ms := (shortest.whenSec - now.sec) * 1000 + shortest.whenMs - now.ms;
        if ms > 0 {
          tv := (ms / 1000, (ms % 1000) * 1000);
        } else {
          tv := (0, 0);
        }
      } else if dontWait {
        tv := (0, 0);
      } else {
        wait := false;
      }
      timeout := if wait then tv.0 * 1000 + tv.1 / 1000 else -1;
    }

    lemma Sizes()
      requires Valid()
      ensures |nodes| == |state.list| && nextId == state.nextId && lastTime == state.lastTime && head == At(0)
      ensures Inv(state)
    {
    }

    lemma Here(i: nat)
      requires Valid() && i < |nodes|
      ensures i < |state.list| == |nodes| && nodes[i].birth == state.list[i].birth && nodes[i].id == state.list[i].id
      ensures Instant(nodes[i].whenSec, nodes[i].whenMs) == state.list[i].when
      ensures nodes[i].next == At(i + 1)
    {
    }
  }

  lemma StepDrops(s: State, v: Visit)
    requires s.pos < |s.list| && s.list[s.pos].id == DELETED
    ensures Step(s, v) == s.(list := s.list[..s.pos] + s.list[s.pos + 1..],
                             log := s.log + [Finalised(s.list[s.pos].birth)])
  {
  }

  lemma StepFires(s: State, v: Visit)
    requires s.pos < |s.list| && s.list[s.pos].id != DELETED && Due(v.now, s.list[s.pos].when)
    ensures var s1 := ActAll(s.(log := s.log + [Fired(s.list[s.pos].birth)]), v.actions);
            && s1.pos < |s1.list|
            && Step(s, v) == Settle(s1, v.outcome).(pos := s1.pos + 1)
            && Step(s, v).list == Settle(s1, v.outcome).list && Step(s, v).nextId == s1.nextId
            && Step(s, v).lastTime == s1.lastTime
  {
    hide ActAll, Due;
    CallGrows(s, v);
  }

  lemma UnskewedKeeps(s: State, now: int)
    requires Inv(s)
    ensures var u := Unskewed(s, now);
            && Inv(u) && |u.list| == |s.list| && u == s.(list := u.list, lastTime := now)
            && forall i :: 0 <= i < |s.list| ==>
                 && u.list[i].id == s.list[i].id && u.list[i].birth == s.list[i].birth
                 && u.list[i].when.ms == s.list[i].when.ms
                 && u.list[i].when.sec == if now < s.lastTime then 0 else s.list[i].when.sec
  {
    SilentKeeps(s, Unskewed(s, now));
  }

  lemma StepsStart(s: State, env: nat -> Visit)
    requires s.pos == 0
    ensures Steps(s, env, 0) == s
  {
  }

  lemma StepsStep(s: State, env: nat -> Visit, k: nat)
    requires s.pos == 0 && k < |s.list|
    ensures Steps(s, env, k).pos < |Steps(s, env, k).list|
    ensures Steps(s, env, k + 1) == Step(Steps(s, env, k), env(k))
  {
  }

  lemma StepPasses(s: State, v: Visit)
    requires s.pos < |s.list| && s.list[s.pos].id != DELETED && !Due(v.now, s.list[s.pos].when)
    ensures Step(s, v) == s.(pos := s.pos + 1)
  {
  }

  /** A timer that a pass visits was in the list when the pass began. */
  lemma BoundedIds(s: State, env: nat -> Visit, k: nat)
    requires Inv(s) && s.pos == 0 && k < |s.list|
    ensures var s' := Steps(s, env, k);
            s'.pos < |s'.list| && s'.list[s'.pos].id < s.nextId
  {
    hide Steps, Kept, Dropped, Called, AtStage, Life;
    StepsExact(s, env, k);
    var s' := Steps(s, env, k);
    assert SameOrMarked(s.list[k], s'.list[s'.pos]);
  }

  lemma LiveIffListed(s: State, id: nat)
    requires Inv(s)
    ensures IndexOf(s.list, id) < |s.list| <==> Life(s.log, id) == Live
  {
  }
}
