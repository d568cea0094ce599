/** What every pass over the timers, and every run of creations, deletions and passes, does. */
module TimerTheorems {
  import opened Timers

  // ---------- one pass, exactly ----------

  /** Whether the timer at place k of the list a pass began with is marked when the pass comes to it. */
  predicate MarkedAt(s: State, env: nat -> Visit, k: nat)
    requires s.pos == 0 && k < |s.list|
  {
    var s' := Steps(s, env, k);
    s'.list[s'.pos].id == DELETED
  }

  predicate FiresAt(s: State, env: nat -> Visit, k: nat)
    requires s.pos == 0 && k < |s.list|
  {
    !MarkedAt(s, env, k) && Due(env(k).now, s.list[k].when)
  }

  /** Of the first k timers of the list a pass began with: those unmarked, marked, and called when visited. */
  function Kept(s: State, env: nat -> Visit, k: nat): seq<nat>
    requires s.pos == 0 && k <= |s.list|
  {
    if k == 0 then [] else Kept(s, env, k - 1) + if MarkedAt(s, env, k - 1) then [] else [s.list[k - 1].birth]
  }

  function Dropped(s: State, env: nat -> Visit, k: nat): seq<nat>
    requires s.pos == 0 && k <= |s.list|
  {
    if k == 0 then [] else Dropped(s, env, k - 1) + if MarkedAt(s, env, k - 1) then [s.list[k - 1].birth] else []
  }

  function Called(s: State, env: nat -> Visit, k: nat): seq<nat>
    requires s.pos == 0 && k <= |s.list|
  {
    if k == 0 then [] else Called(s, env, k - 1) + if FiresAt(s, env, k - 1) then [s.list[k - 1].birth] else []
  }

  function Births(list: seq<Timer>): seq<nat> {
    seq(|list|, i requires 0 <= i < |list| => list[i].birth)
  }

  /** to - 1, ..., from. */
  function Newest(from: nat, to: nat): seq<nat>
    requires from <= to
  {
    seq(to - from, i requires 0 <= i < to - from => to - 1 - i)
  }

  function FiredIn(log: seq<Event>): seq<nat> {
    if log == [] then []
    else FiredIn(log[..|log| - 1]) + if log[|log| - 1].Fired? then [log[|log| - 1].birth] else []
  }

  function FinalisedIn(log: seq<Event>): seq<nat> {
    if log == [] then []
    else FinalisedIn(log[..|log| - 1]) + if log[|log| - 1].Finalised? then [log[|log| - 1].birth] else []
  }

  lemma LogGrows(log: seq<Event>, e: Event)
    ensures FiredIn(log + [e]) == FiredIn(log) + if e.Fired? then [e.birth] else []
    ensures FinalisedIn(log + [e]) == FinalisedIn(log) + if e.Finalised? then [e.birth] else []
  {
  }

  lemma {:induction false} CallbacksFireNothing(s: State, actions: seq<Action>)
    ensures FiredIn(ActAll(s, actions).log) == FiredIn(s.log)
    ensures FinalisedIn(ActAll(s, actions).log) == FinalisedIn(s.log)
  {
    if actions != [] {
      var s1 := ActAll(s, actions[..|actions| - 1]);
      CallbacksFireNothing(s, actions[..|actions| - 1]);
      LogGrows(s1.log, Created(s1.nextId));
      match actions[|actions| - 1] {
        case Create(_, _) =>
        case Delete(id) =>
          var i := IndexOf(s1.list, id);
          if i < |s1.list| {
            LogGrows(s1.log, Deleted(s1.list[i].birth));
          }
      }
    }
  }

  /** s' is where a pass from s is after k visits, having kept the births of `kept`. */
  ghost predicate Reached(s: State, k: nat, s': State, kept: seq<nat>) {
    && k <= |s.list| && s.nextId <= s'.nextId && s'.lastTime == s.lastTime
    && var n := s'.nextId - s.nextId;
       && s'.pos == n + |kept| && |s'.list| == s'.pos + |s.list| - k
       && (forall i {:trigger s'.list[i].birth} :: 0 <= i < n ==> s'.list[i].birth == s'.nextId - 1 - i)
       && (forall i {:trigger s'.list[i].birth} :: n <= i < s'.pos ==> s'.list[i].birth == kept[i - n])
       && (forall i {:trigger s'.list[i]} :: s'.pos <= i < |s'.list| ==>
             SameOrMarked(s.list[i - s'.pos + k], s'.list[i]))
  }

  lemma StepReaches(s: State, k: nat, s1: State, kept: seq<nat>, v: Visit)
    requires Reached(s, k, s1, kept) && k < |s.list|
    ensures Reached(s, k + 1, Step(s1, v), kept + if s1.list[s1.pos].id == DELETED then [] else [s.list[k].birth])
  {
    hide Reached, ActAll, Grown;
    ReachedTodo(s, k, s1, kept);
    var t := s1.list[s1.pos];
    if t.id == DELETED {
      assert kept + [] == kept;
      DropReaches(s, k, s1, kept, v);
    } else if Due(v.now, t.when) {
      var s2 := ActAll(s1.(log := s1.log + [Fired(t.birth)]), v.actions);
      CallGrows(s1, v);
      CallReaches(s, k, s1, kept, s2);
      AdvanceReaches(s, k, s2, kept, Step(s1, v));
    } else {
      AdvanceReaches(s, k, s1, kept, Step(s1, v));
    }
  }

  /** A callback leaves the timer it was called for where the pass is. */
  lemma CallGrows(s: State, v: Visit)
    requires s.pos < |s.list|
    ensures var s' := ActAll(s.(log := s.log + [Fired(s.list[s.pos].birth)]), v.actions);
            && Grown(s, s')
            && s'.pos < |s'.list| && s'.list[s'.pos].birth == s.list[s.pos].birth
            && s'.pos - s.pos == |s'.list| - |s.list| >= 0 && s'.lastTime == s.lastTime
  {
    var s1 := s.(log := s.log + [Fired(s.list[s.pos].birth)]);
    ActAllGrows(s1, v.actions);
    assert SameOrMarked(s1.list[s.pos], ActAll(s1, v.actions).list[ActAll(s1, v.actions).pos]);
  }

  lemma StepLogs(s1: State, v: Visit)
    requires s1.pos < |s1.list|
    ensures var t := s1.list[s1.pos];
            && FiredIn(Step(s1, v).log) == FiredIn(s1.log)
                 + (if t.id != DELETED && Due(v.now, t.when) then [t.birth] else [])
            && FinalisedIn(Step(s1, v).log) == FinalisedIn(s1.log) + (if t.id == DELETED then [t.birth] else [])
  {
    hide ActAll, Grown, Due, FiredIn, FinalisedIn;
    var t := s1.list[s1.pos];
    LogGrows(s1.log, Finalised(t.birth));
    LogGrows(s1.log, Fired(t.birth));
    var s2 := s1.(log := s1.log + [Fired(t.birth)]);
    CallbacksFireNothing(s2, v.actions);
    CallGrows(s1, v);
    LogGrows(ActAll(s2, v.actions).log, Deleted(t.birth));
  }

  lemma AdvanceReaches(s: State, k: nat, s1: State, kept: seq<nat>, s2: State)
    requires Reached(s, k, s1, kept) && k < |s.list|
    requires s2.nextId == s1.nextId && s2.lastTime == s1.lastTime && s2.pos == s1.pos + 1 && |s2.list| == |s1.list|
    requires s2.list[s1.pos].birth == s1.list[s1.pos].birth
    requires forall i :: 0 <= i < |s1.list| && i != s1.pos ==> s2.list[i] == s1.list[i]
    ensures Reached(s, k + 1, s2, kept + [s.list[k].birth])
  {
  }

  lemma DropReaches(s: State, k: nat, s1: State, kept: seq<nat>, v: Visit)
    requires Reached(s, k, s1, kept) && k < |s.list| && s1.list[s1.pos].id == DELETED
    ensures Reached(s, k + 1, Step(s1, v), kept)
  {
  }

  lemma CallReaches(s: State, k: nat, s1: State, kept: seq<nat>, s2: State)
    requires Reached(s, k, s1, kept) && k < |s.list| && Grown(s1, s2)
    ensures Reached(s, k, s2, kept)
  {
  }

  lemma Unfolded(s: State, env: nat -> Visit, k: nat)
    requires s.pos == 0 && k < |s.list|
    ensures var s1 := Steps(s, env, k);
            var marked, birth := s1.list[s1.pos].id == DELETED, [s.list[k].birth];
            && Steps(s, env, k + 1) == Step(s1, env(k))
            && Kept(s, env, k + 1) == Kept(s, env, k) + (if marked then [] else birth)
            && Dropped(s, env, k + 1) == Dropped(s, env, k) + (if marked then birth else [])
            && Called(s, env, k + 1) == Called(s, env, k)
                 + (if !marked && Due(env(k).now, s.list[k].when) then birth else [])
  {
  }

  /** The first k visits of a pass: what is in the list, what has fired and what has been finalised. */
  lemma {:induction false} StepsExact(s: State, env: nat -> Visit, k: nat)
    requires s.pos == 0 && k <= |s.list|
    ensures var s' := Steps(s, env, k);
            && Reached(s, k, s', Kept(s, env, k))
            && FiredIn(s'.log) == FiredIn(s.log) + Called(s, env, k)
            && FinalisedIn(s'.log) == FinalisedIn(s.log) + Dropped(s, env, k)
  {
    hide Step, Reached, Due, SameOrMarked, FiredIn, FinalisedIn;
    if k == 0 {
      ReachedStart(s);
    } else {
      hide Steps, Kept, Dropped, Called;
      StepsExact(s, env, k - 1);
      Unfolded(s, env, k - 1);
      var s1 := Steps(s, env, k - 1);
      StepReaches(s, k - 1, s1, Kept(s, env, k - 1), env(k - 1));
      StepLogs(s1, env(k - 1));
      ReachedTodo(s, k - 1, s1, Kept(s, env, k - 1));
    }
  }

  lemma ReachedStart(s: State)
    requires s.pos == 0
    ensures Reached(s, 0, s, [])
  {
  }

  lemma ReachedTodo(s: State, k: nat, s1: State, kept: seq<nat>)
    requires Reached(s, k, s1, kept) && k < |s.list|
    ensures s1.pos < |s1.list| && s1.list[s1.pos].birth == s.list[k].birth && s1.list[s1.pos].when == s.list[k].when
    ensures s.list[k].id == DELETED ==> s1.list[s1.pos].id == DELETED
  {
  }

  lemma ReachedEnd(s: State, s1: State, kept: seq<nat>)
    requires Reached(s, |s.list|, s1, kept)
    ensures s.nextId <= s1.nextId && s1.lastTime == s.lastTime
    ensures Births(s1.list) == Newest(s.nextId, s1.nextId) + kept
  {
  }

  /**
   The outcome of a pass, for arbitrary callbacks: the list is the timers created in the pass, newest first, followed
   by the old list in order without exactly those already marked when visited; these, in that order, are what was
   finalised; what fired, in list order, is exactly what was unmarked and due when visited, so nothing created in the
   pass fires in it and nothing fires twice.
   */
  lemma PassExact(s: State, now: int, env: nat -> Visit)
    requires s.pos == 0
    ensures var s' := Pass(s, now, env);
            var u := Unskewed(s, now);
            && s.nextId <= s'.nextId && s'.lastTime == now
            && |u.list| == |s.list|
            && Births(s'.list) == Newest(s.nextId, s'.nextId) + Kept(u, env, |u.list|)
            && FinalisedIn(s'.log) == FinalisedIn(s.log) + Dropped(u, env, |u.list|)
            && FiredIn(s'.log) == FiredIn(s.log) + Called(u, env, |u.list|)
  {
    hide Steps, Kept, Dropped, Called, Reached, FiredIn, FinalisedIn, Births;
    var u := Unskewed(s, now);
    StepsExact(u, env, |u.list|);
    ReachedEnd(u, Steps(u, env, |u.list|), Kept(u, env, |u.list|));
  }

  /** After the clock went back, every unmarked timer of the old list is due at any reading past the epoch. */
  lemma SkewMakesDue(s: State, now: int, env: nat -> Visit, k: nat)
    requires s.pos == 0 && now < s.lastTime && k < |s.list| && env(k).now.sec > 0
    ensures var u := Unskewed(s, now); FiresAt(u, env, k) <==> !MarkedAt(u, env, k)
  {
  }
}
