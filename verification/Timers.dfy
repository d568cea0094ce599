/**
 The timer list of src/ae.c as a sequence: newest timer first, timers marked deleted staying until a pass unlinks
 them. Clock readings, callbacks and what callbacks do to the list come from the environment.
 */
module Timers {
  // ---------- clock arithmetic ----------

  datatype Instant = Instant(sec: int, ms: int) {
    function Total(): int { sec * 1000 + ms }
  }

  type Reading = t: Instant | 0 <= t.ms < 1000 witness Instant(0, 0)

  /** aeAddMillisecondsToNow at the given clock reading. */
  function Deadline(now: Reading, delay: nat): (t: Reading)
    ensures t.Total() == now.Total() + delay
  {
    var ms := now.ms + delay % 1000;
    if ms >= 1000 then Instant(now.sec + delay / 1000 + 1, ms - 1000)
    else Instant(now.sec + delay / 1000, ms)
  }

  predicate Before(a: Instant, b: Instant) {
    a.sec < b.sec || (a.sec == b.sec && a.ms < b.ms)
  }

  /** A timer is due at a reading that is not before its deadline. */
  predicate Due(now: Instant, deadline: Instant) {
    now.sec > deadline.sec || (now.sec == deadline.sec && now.ms >= deadline.ms)
  }

  /** With milliseconds kept below 1000, comparing fields is comparing total milliseconds. */
  lemma LexicographicIsTotal(a: Reading, b: Reading)
    ensures Before(a, b) <==> a.Total() < b.Total()
    ensures Due(a, b) <==> b.Total() <= a.Total()
  {
  }

  // ---------- the list ----------

  const DELETED := -1

  /** id is the identifier, or DELETED; birth is the identifier the timer was created with. */
  datatype Timer = Timer(id: int, birth: nat, when: Reading)

  datatype Event = Created(birth: nat) | Fired(birth: nat) | Deleted(birth: nat) | Finalised(birth: nat)

  datatype Action = Create(delay: nat, now: Reading) | Delete(id: nat)

  /** What a callback returned, with the clock reading at which a new deadline is computed. */
  datatype Outcome = NoMore | Again(delay: nat, now: Reading)

  /** The clock reading at a visit of a timer, and what its callback does if it is called. */
  datatype Visit = Visit(now: Reading, actions: seq<Action>, outcome: Outcome)

  /** pos is the place of the timer a pass has come to; outside a pass it is 0. */
  datatype State = State(list: seq<Timer>, pos: nat, nextId: nat, lastTime: int, log: seq<Event>)

  function Added(s: State, delay: nat, now: Reading): State {
    s.(list := [Timer(s.nextId, s.nextId, Deadline(now, delay))] + s.list, pos := s.pos + 1,
       nextId := s.nextId + 1, log := s.log + [Created(s.nextId)])
  }

  /** The place of the first timer with the given id, or the length of the list. */
  function IndexOf(list: seq<Timer>, id: nat): (i: nat)
    ensures i <= |list|
    ensures i < |list| ==> list[i].id == id
    ensures forall j :: 0 <= j < i ==> list[j].id != id
  {
    if list == [] || list[0].id == id then 0 else 1 + IndexOf(list[1..], id)
  }

  function Marked(s: State, id: nat): State {
    var i := IndexOf(s.list, id);
    if i < |s.list|
    then s.(list := s.list[i := s.list[i].(id := DELETED)], log := s.log + [Deleted(s.list[i].birth)])
    else s
  }

  function Act(s: State, a: Action): State {
    match a
    case Create(delay, now) => Added(s, delay, now)
    case Delete(id) => Marked(s, id)
  }

  function ActAll(s: State, actions: seq<Action>): State {
    if actions == [] then s else Act(ActAll(s, actions[..|actions| - 1]), actions[|actions| - 1])
  }

  /** The return value of a callback is applied to the timer that was called. */
  function Settle(s: State, outcome: Outcome): State
    requires s.pos < |s.list|
  {
    var t := s.list[s.pos];
    match outcome
    case Again(delay, now) => s.(list := s.list[s.pos := t.(when := Deadline(now, delay))])
    case NoMore =>
      s.(list := s.list[s.pos := t.(id := DELETED)],
         log := if t.id == DELETED then s.log else s.log + [Deleted(t.birth)])
  }

  /** One iteration of the loop of processTimeEvents. */
  function Step(s: State, v: Visit): (s': State)
    requires s.pos < |s.list|
    ensures |s'.list| - s'.pos == |s.list| - s.pos - 1
  {
    var t := s.list[s.pos];
    if t.id == DELETED then
      s.(list := s.list[..s.pos] + s.list[s.pos + 1..], log := s.log + [Finalised(t.birth)])
    else if Due(v.now, t.when) then
      var s1 := ActAll(s.(log := s.log + [Fired(t.birth)]), v.actions);
      ActAllGrows(s.(log := s.log + [Fired(t.birth)]), v.actions);
      var s2 := Settle(s1, v.outcome);
      s2.(pos := s2.pos + 1)
    else s.(pos := s.pos + 1)
  }

  /** From s to s', timers were added in front, newest first, and others at most marked. */
  ghost predicate Grown(s: State, s': State) {
    var n := s'.nextId - s.nextId;
    && n >= 0 && s'.lastTime == s.lastTime
    && |s'.list| == |s.list| + n && s'.pos == s.pos + n
    && (forall i {:trigger s'.list[i].birth} :: 0 <= i < n ==> s'.list[i].birth == s'.nextId - 1 - i)
    && (forall i {:trigger s'.list[i]} :: n <= i < |s'.list| ==> SameOrMarked(s.list[i - n], s'.list[i]))
  }

  ghost predicate SameOrMarked(t: Timer, t': Timer) {
    t'.birth == t.birth && t'.when == t.when && (t'.id == t.id || t'.id == DELETED)
  }

  lemma ActGrows(s0: State, s: State, a: Action)
    requires Grown(s0, s)
    ensures Grown(s0, Act(s, a))
  {
  }

  /** Callbacks only add timers in front and mark timers. */
  lemma {:induction false} ActAllGrows(s: State, actions: seq<Action>)
    ensures Grown(s, ActAll(s, actions))
  {
    if actions != [] {
      ActAllGrows(s, actions[..|actions| - 1]);
      ActGrows(s, ActAll(s, actions[..|actions| - 1]), actions[|actions| - 1]);
    }
  }

  /** The first k iterations of a pass. */
  function Steps(s: State, env: nat -> Visit, k: nat): State
    requires s.pos == 0 && k <= |s.list|
    ensures |Steps(s, env, k).list| - Steps(s, env, k).pos == |s.list| - k
  {
    if k == 0 then s else Step(Steps(s, env, k - 1), env(k - 1))
  }

  /** A clock that went back makes every timer due as soon as possible. */
  function Unskewed(s: State, now: int): State {
    s.(list := if now < s.lastTime then seq(|s.list|, i requires 0 <= i < |s.list| =>
                                              s.list[i].(when := Instant(0, s.list[i].when.ms)))
               else s.list,
       lastTime := now)
  }

  /** processTimeEvents. */
  function Pass(s: State, now: int, env: nat -> Visit): State
    requires s.pos == 0
  {
    var s1 := Unskewed(s, now);
    Steps(s1, env, |s1.list|).(pos := 0)
  }

  // ---------- how long a poll may sleep ----------

  function Max(a: int, b: int): int {
    if a < b then b else a
  }

  /** The earliest deadline of a nonempty list, in milliseconds. */
  function EarliestTotal(list: seq<Timer>): int
    requires list != []
  {
    var last := list[|list| - 1].when.Total();
    if |list| == 1 then last
    else
      var rest := EarliestTotal(list[..|list| - 1]);
      if last < rest then last else rest
  }

  lemma {:induction false} EarliestIsLeast(list: seq<Timer>)
    requires list != []
    ensures exists i :: 0 <= i < |list| && list[i].when.Total() == EarliestTotal(list)
    ensures forall i :: 0 <= i < |list| ==> EarliestTotal(list) <= list[i].when.Total()
  {
    if |list| == 1 {
      assert list[0].when.Total() == EarliestTotal(list);
    } else {
      var rest := list[..|list| - 1];
      EarliestIsLeast(rest);
      var i :| 0 <= i < |rest| && rest[i].when.Total() == EarliestTotal(rest);
      assert list[i] == rest[i];
      forall j | 0 <= j < |list| ensures EarliestTotal(list) <= list[j].when.Total() {
        if j < |rest| {
          assert list[j] == rest[j];
        }
      }
    }
  }

  /** What a poll that may wait is given to wait for: nothing to wait for is -1. */
  function Timeout(list: seq<Timer>, now: Reading): int {
    if list == [] then -1 else Max(0, EarliestTotal(list) - now.Total())
  }
}
