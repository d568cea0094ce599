/** The life cycle of timers over whole runs. */
module TimerLife {
  import opened Timers
  import opened TimerTheorems

  // A timer is created once, may fire while it is live, is deleted once, and is finalised once after that.
  datatype Stage = Unborn | Live | Dead | Gone | Broken

  function NextStage(stage: Stage, e: Event): Stage {
    match (stage, e)
    case (Unborn, Created(_)) => Live
    case (Live, Fired(_)) => Live
    case (Live, Deleted(_)) => Dead
    case (Dead, Finalised(_)) => Gone
    case _ => Broken
  }

  /** The stage that a log of events takes a timer to. */
  function Life(log: seq<Event>, b: nat): Stage {
    if log == [] then Unborn
    else
      var stage := Life(log[..|log| - 1], b);
      if log[|log| - 1].birth == b then NextStage(stage, log[|log| - 1]) else stage
  }

  /** What the list says of a timer. */
  ghost predicate AtStage(s: State, b: nat, stage: Stage) {
    match stage
    case Unborn => b >= s.nextId
    case Live => exists i :: 0 <= i < |s.list| && s.list[i].birth == b && s.list[i].id != DELETED
    case Dead => exists i :: 0 <= i < |s.list| && s.list[i].birth == b && s.list[i].id == DELETED
    case Gone => b < s.nextId && forall i :: 0 <= i < |s.list| ==> s.list[i].birth != b
    case Broken => false
  }

  ghost predicate Ordered(s: State) {
    && (forall i, j :: 0 <= i < j < |s.list| ==> s.list[i].birth > s.list[j].birth)
    && (forall i :: 0 <= i < |s.list| ==>
          s.list[i].birth < s.nextId && (s.list[i].id == s.list[i].birth || s.list[i].id == DELETED))
  }

  /** Identifiers decrease along the list, are below the next one, and every timer is where its life took it. */
  ghost predicate Inv(s: State) {
    Ordered(s) && forall b: nat :: AtStage(s, b, Life(s.log, b))
  }

  lemma LifeExtends(log: seq<Event>, e: Event, b: nat)
    ensures Life(log + [e], b) == if e.birth == b then NextStage(Life(log, b), e) else Life(log, b)
  {
  }

  /** A state has one stage for each timer. */
  lemma OneStage(s: State, b: nat, a: Stage, c: Stage)
    requires Ordered(s) && AtStage(s, b, a) && AtStage(s, b, c)
    ensures a == c
  {
  }

  lemma AddedKeeps(s: State, delay: nat, now: Reading)
    requires Inv(s)
    ensures Inv(Added(s, delay, now))
  {
    var s' := Added(s, delay, now);
    assert forall i :: 0 < i < |s'.list| ==> s'.list[i] == s.list[i - 1];
    forall b: nat ensures AtStage(s', b, Life(s'.log, b)) {
      LifeExtends(s.log, Created(s.nextId), b);
      assert AtStage(s, b, Life(s.log, b));
      if b == s.nextId {
        OneStage(s, b, Life(s.log, b), Unborn);
        assert s'.list[0].birth == b;
      } else if i :| 0 <= i < |s.list| && s.list[i].birth == b {
        assert s'.list[i + 1] == s.list[i];
      }
    }
  }

  /** Marking a live timer. */
  lemma DeletedKeeps(s: State, k: nat, s': State)
    requires Inv(s) && k < |s.list| && s.list[k].id != DELETED
    requires |s'.list| == |s.list| && s'.list[k].id == DELETED && s'.list[k].birth == s.list[k].birth
    requires s' == s.(list := s.list[k := s'.list[k]], log := s.log + [Deleted(s.list[k].birth)], pos := s'.pos)
    ensures Inv(s')
  {
    forall b: nat ensures AtStage(s', b, Life(s'.log, b)) {
      LifeExtends(s.log, Deleted(s.list[k].birth), b);
      assert AtStage(s, b, Life(s.log, b));
      if b == s.list[k].birth {
        OneStage(s, b, Life(s.log, b), Live);
        assert s'.list[k].birth == b;
      } else if i :| 0 <= i < |s.list| && s.list[i].birth == b {
        assert s'.list[i] == s.list[i];
      }
    }
  }

  /** Changing no identifier and logging nothing. */
  lemma SilentKeeps(s: State, s': State)
    requires Inv(s) && s'.log == s.log && s'.nextId == s.nextId && |s'.list| == |s.list|
    requires forall i :: 0 <= i < |s.list| ==> s'.list[i].id == s.list[i].id && s'.list[i].birth == s.list[i].birth
    ensures Inv(s')
  {
  }

  lemma FiredKeeps(s: State, k: nat)
    requires Inv(s) && k < |s.list| && s.list[k].id != DELETED
    ensures Inv(s.(log := s.log + [Fired(s.list[k].birth)]))
  {
  }

  lemma DroppedKeeps(s: State, k: nat)
    requires Inv(s) && k < |s.list| && s.list[k].id == DELETED
    ensures Inv(s.(list := s.list[..k] + s.list[k + 1..], log := s.log + [Finalised(s.list[k].birth)]))
  {
    hide AtStage, Life;
    var s' := s.(list := s.list[..k] + s.list[k + 1..], log := s.log + [Finalised(s.list[k].birth)]);
    assert forall i :: 0 <= i < |s'.list| ==> s'.list[i] == s.list[if i < k then i else i + 1];
    forall b: nat ensures AtStage(s', b, Life(s'.log, b)) {
      DroppedStage(s, k, b);
    }
  }

  lemma DroppedStage(s: State, k: nat, b: nat)
    requires Inv(s) && k < |s.list| && s.list[k].id == DELETED
    ensures var s' := s.(list := s.list[..k] + s.list[k + 1..], log := s.log + [Finalised(s.list[k].birth)]);
            AtStage(s', b, Life(s'.log, b))
  {
    hide Life;
    var s' := s.(list := s.list[..k] + s.list[k + 1..], log := s.log + [Finalised(s.list[k].birth)]);
    assert forall i :: 0 <= i < |s'.list| ==> s'.list[i] == s.list[if i < k then i else i + 1];
    LifeExtends(s.log, Finalised(s.list[k].birth), b);
    assert AtStage(s, b, Life(s.log, b));
    if b == s.list[k].birth {
      OneStage(s, b, Life(s.log, b), Dead);
    } else if i :| 0 <= i < |s.list| && s.list[i].birth == b {
      assert s'.list[if i < k then i else i - 1] == s.list[i];
    }
  }

  lemma MarkedKeeps(s: State, id: nat)
    requires Inv(s)
    ensures Inv(Marked(s, id))
  {
    var i := IndexOf(s.list, id);
    if i < |s.list| {
      DeletedKeeps(s, i, Marked(s, id));
    }
  }

  lemma {:induction false} ActAllKeeps(s: State, actions: seq<Action>)
    requires Inv(s)
    ensures Inv(ActAll(s, actions))
  {
    if actions != [] {
      ActAllKeeps(s, actions[..|actions| - 1]);
      var s1 := ActAll(s, actions[..|actions| - 1]);
      match actions[|actions| - 1] {
        case Create(delay, now) => AddedKeeps(s1, delay, now);
        case Delete(id) => MarkedKeeps(s1, id);
      }
    }
  }

  lemma SettledKeeps(s: State, outcome: Outcome)
    requires Inv(s) && s.pos < |s.list|
    ensures Inv(Settle(s, outcome))
  {
    var s' := Settle(s, outcome);
    if outcome.NoMore? && s.list[s.pos].id != DELETED {
      DeletedKeeps(s, s.pos, s');
    } else {
      SilentKeeps(s, s');
    }
  }

  lemma StepKeeps(s: State, v: Visit)
    requires Inv(s) && s.pos < |s.list|
    ensures Inv(Step(s, v))
  {
    hide Inv, ActAll, Settle, Grown, Due;
    var t := s.list[s.pos];
    if t.id == DELETED {
      DroppedKeeps(s, s.pos);
    } else if Due(v.now, t.when) {
      FiredKeeps(s, s.pos);
      var s1 := s.(log := s.log + [Fired(t.birth)]);
      ActAllKeeps(s1, v.actions);
      CallGrows(s, v);
      SettledKeeps(ActAll(s1, v.actions), v.outcome);
      MovedKeeps(Settle(ActAll(s1, v.actions), v.outcome), Step(s, v));
    } else {
      MovedKeeps(s, Step(s, v));
    }
  }

  lemma MovedKeeps(s: State, s': State)
    requires Inv(s) && s' == s.(pos := s'.pos)
    ensures Inv(s')
  {
  }

  lemma {:induction false} StepsKeep(s: State, env: nat -> Visit, k: nat)
    requires Inv(s) && s.pos == 0 && k <= |s.list|
    ensures Inv(Steps(s, env, k))
  {
    hide Inv, Step;
    if k > 0 {
      StepsKeep(s, env, k - 1);
      StepKeeps(Steps(s, env, k - 1), env(k - 1));
    }
  }

  lemma PassKeeps(s: State, now: int, env: nat -> Visit)
    requires Inv(s) && s.pos == 0
    ensures Inv(Pass(s, now, env))
  {
    var u := Unskewed(s, now);
    SilentKeeps(s, u);
    StepsKeep(u, env, |u.list|);
    MovedKeeps(Steps(u, env, |u.list|), Pass(s, now, env));
  }

  // ---------- runs ----------

  datatype Call = CreateCall(delay: nat, at: Reading) | DeleteCall(id: nat) | PassCall(now: int, env: nat -> Visit)

  function Apply(s: State, c: Call): State
    requires s.pos == 0
  {
    match c
    case CreateCall(delay, at) => Added(s, delay, at).(pos := 0)
    case DeleteCall(id) => Marked(s, id)
    case PassCall(now, env) => Pass(s, now, env)
  }

  function ApplyAll(s: State, cs: seq<Call>): (s': State)
    requires s.pos == 0
    ensures s'.pos == 0
  {
    if cs == [] then s else Apply(ApplyAll(s, cs[..|cs| - 1]), cs[|cs| - 1])
  }

  /** An event loop as aeCreateEventLoop leaves it. */
  function Start(now: int): State {
    State([], 0, 0, now, [])
  }

  /**
   Over every run: identifiers strictly decrease along the list, stay below the next one and are never reused, and
   the log of every timer is a life: created once, fired only while not deleted, finalised exactly once after its
   deletion, with the list holding exactly the timers that are live, or dead and not yet finalised.
   */
  lemma {:induction false} RunsKeepInv(now: int, cs: seq<Call>)
    ensures Inv(ApplyAll(Start(now), cs))
    ensures forall b: nat :: Life(ApplyAll(Start(now), cs).log, b) != Broken
  {
    if cs != [] {
      var s := ApplyAll(Start(now), cs[..|cs| - 1]);
      RunsKeepInv(now, cs[..|cs| - 1]);
      match cs[|cs| - 1] {
        case CreateCall(delay, at) =>
          AddedKeeps(s, delay, at);
          MovedKeeps(Added(s, delay, at), Added(s, delay, at).(pos := 0));
        case DeleteCall(id) =>
          MarkedKeeps(s, id);
        case PassCall(t, env) =>
          PassKeeps(s, t, env);
      }
    }
    forall b: nat ensures Life(ApplyAll(Start(now), cs).log, b) != Broken {
      assert AtStage(ApplyAll(Start(now), cs), b, Life(ApplyAll(Start(now), cs).log, b));
    }
  }

  /** A pass does not keep what was marked before it. */
  lemma {:induction false} MarkedNotKept(s: State, env: nat -> Visit, k: nat, b: nat)
    requires s.pos == 0 && k <= |s.list|
    requires forall j :: 0 <= j < |s.list| && s.list[j].birth == b ==> s.list[j].id == DELETED
    ensures b !in Kept(s, env, k)
  {
    hide Steps, Step, Kept, Dropped, Called, Due, Reached;
    if k == 0 {
      KeptNone(s, env);
    } else {
      MarkedNotKept(s, env, k - 1, b);
      Unfolded(s, env, k - 1);
      StepsExact(s, env, k - 1);
      ReachedTodo(s, k - 1, Steps(s, env, k - 1), Kept(s, env, k - 1));
    }
  }

  lemma KeptNone(s: State, env: nat -> Visit)
    requires s.pos == 0
    ensures Kept(s, env, 0) == []
  {
  }

  /** A timer deleted before a pass is unlinked and finalised in it. */
  lemma DeletedIsGoneNextPass(s: State, now: int, env: nat -> Visit, b: nat)
    requires Inv(s) && s.pos == 0 && Life(s.log, b) == Dead
    ensures Life(Pass(s, now, env).log, b) == Gone
  {
    hide Steps, Step, Kept, Dropped, Called, Life;
    var u, s' := Unskewed(s, now), Pass(s, now, env);
    PassExact(s, now, env);
    PassKeeps(s, now, env);
    assert AtStage(s, b, Dead) && AtStage(s', b, Life(s'.log, b));
    MarkedNotKept(u, env, |u.list|, b);
    forall i | 0 <= i < |s'.list| ensures s'.list[i].birth != b {
      assert Births(s'.list)[i] == s'.list[i].birth;
    }
  }
}
