/** When the timers that a pass leaves behind are due, told from the callbacks alone. */
module TimerDeadlines {
  import opened Timers
  import opened TimerTheorems

  /** The creations among some actions. */
  function Creates(actions: seq<Action>): seq<Action> {
    if actions == [] then []
    else
      var a := actions[|actions| - 1];
      Creates(actions[..|actions| - 1]) + if a.Create? then [a] else []
  }

  /** The creations made by the callbacks of the first k timers of the list a pass began with. */
  function Creations(s: State, env: nat -> Visit, k: nat): seq<Action>
    requires s.pos == 0 && k <= |s.list|
  {
    if k == 0 then []
    else Creations(s, env, k - 1) + if FiresAt(s, env, k - 1) then Creates(env(k - 1).actions) else []
  }

  /** The places, among the first k of that list, of the timers that the pass keeps. */
  function Survivors(s: State, env: nat -> Visit, k: nat): seq<nat>
    requires s.pos == 0 && k <= |s.list|
  {
    if k == 0 then [] else Survivors(s, env, k - 1) + if MarkedAt(s, env, k - 1) then [] else [k - 1]
  }

  /** The deadline of timer j after its visit: what its callback asked for, or the one it had. */
  function DueNext(s: State, env: nat -> Visit, j: nat): int
    requires s.pos == 0 && j < |s.list|
  {
    if FiresAt(s, env, j) && env(j).outcome.Again?
    then env(j).outcome.now.Total() + env(j).outcome.delay
    else s.list[j].when.Total()
  }

  /** The timer that creation a made, with the identifier it got. */
  predicate MadeBy(t: Timer, a: Action, id: nat) {
    a.Create? && t.birth == id && t.when.Total() == a.now.Total() + a.delay
  }

  /** Timer j of the list a pass began with, after its visit. */
  predicate LeftOf(t: Timer, s: State, env: nat -> Visit, j: nat)
    requires s.pos == 0
  {
    j < |s.list| && t.birth == s.list[j].birth && t.when.Total() == DueNext(s, env, j)
  }

  /** s' holds what the creations made, newest first, then the survivors, then what the pass has yet to come to. */
  ghost predicate Dated(s: State, env: nat -> Visit, k: nat, s': State, made: seq<Action>, places: seq<nat>)
    requires s.pos == 0
  {
    var n := |made|;
    && k <= |s.list| && s'.nextId == s.nextId + n
    && s'.pos == n + |places| && |s'.list| == s'.pos + |s.list| - k
    && (forall i {:trigger s'.list[i]} :: 0 <= i < n ==> MadeBy(s'.list[i], made[n - 1 - i], s'.nextId - 1 - i))
    && (forall i {:trigger s'.list[i]} :: n <= i < s'.pos ==> LeftOf(s'.list[i], s, env, places[i - n]))
    && (forall i {:trigger s'.list[i]} :: s'.pos <= i < |s'.list| ==>
          SameOrMarked(s.list[i - s'.pos + k], s'.list[i]))
  }

  ghost predicate Produced(s: State, s': State, made: seq<Action>) {
    var n := |made|;
    && s'.nextId == s.nextId + n && s'.pos == s.pos + n && |s'.list| == |s.list| + n
    && (forall i {:trigger s'.list[i]} :: 0 <= i < n ==> MadeBy(s'.list[i], made[n - 1 - i], s'.nextId - 1 - i))
    && (forall i {:trigger s'.list[i]} :: n <= i < |s'.list| ==> SameOrMarked(s.list[i - n], s'.list[i]))
  }

  lemma AddedProduced(s: State, s1: State, made: seq<Action>, delay: nat, now: Reading)
    requires Produced(s, s1, made)
    ensures Produced(s, Added(s1, delay, now), made + [Create(delay, now)])
  {
    hide MadeBy, SameOrMarked;
    var s2, all := Added(s1, delay, now), made + [Create(delay, now)];
    forall i | 0 <= i < |all| ensures MadeBy(s2.list[i], all[|all| - 1 - i], s2.nextId - 1 - i) {
      if i == 0 {
        AddedDue(s1, delay, now);
      } else {
        assert s2.list[i] == s1.list[i - 1] && all[|all| - 1 - i] == made[|made| - 1 - (i - 1)];
        assert MadeBy(s1.list[i - 1], made[|made| - 1 - (i - 1)], s1.nextId - 1 - (i - 1));
      }
    }
    forall i | |all| <= i < |s2.list| ensures SameOrMarked(s.list[i - |all|], s2.list[i]) {
      assert s2.list[i] == s1.list[i - 1];
    }
  }

  /** A timer created with a delay at a reading is due exactly that delay later. */
  lemma AddedDue(s: State, delay: nat, now: Reading)
    ensures var s' := Added(s, delay, now);
            && s'.list[0].birth == s.nextId && s'.list[0].when.Total() == now.Total() + delay
            && s'.list[1..] == s.list && MadeBy(s'.list[0], Create(delay, now), s.nextId)
  {
  }

  lemma MarkedProduced(s: State, s1: State, made: seq<Action>, id: nat)
    requires Produced(s, s1, made)
    ensures Produced(s, Marked(s1, id), made)
  {
    hide MadeBy;
    var s2 := Marked(s1, id);
    assert forall i :: 0 <= i < |s2.list| ==> SameOrMarked(s1.list[i], s2.list[i]);
    forall i | 0 <= i < |made| ensures MadeBy(s2.list[i], made[|made| - 1 - i], s2.nextId - 1 - i) {
      assert MadeBy(s1.list[i], made[|made| - 1 - i], s1.nextId - 1 - i);
      MadeStays(s1.list[i], s2.list[i], made[|made| - 1 - i], s1.nextId - 1 - i);
    }
  }

  lemma ProducedNext(s: State, s1: State, made: seq<Action>, a: Action)
    requires Produced(s, s1, made)
    ensures Produced(s, Act(s1, a), made + if a.Create? then [a] else [])
  {
    hide Produced, Added, Marked;
    match a
    case Create(delay, now) =>
      AddedProduced(s, s1, made, delay, now);
    case Delete(id) =>
      assert made + [] == made;
      MarkedProduced(s, s1, made, id);
  }

  /** Callbacks make exactly the timers their creations ask for. */
  lemma {:induction false} ActionsProduce(s: State, actions: seq<Action>)
    ensures Produced(s, ActAll(s, actions), Creates(actions))
  {
    hide Act, Produced;
    if actions == [] {
      NoneProduced(s);
    } else {
      var less := actions[..|actions| - 1];
      ActionsProduce(s, less);
      ProducedNext(s, ActAll(s, less), Creates(less), actions[|actions| - 1]);
    }
  }

  lemma NoneProduced(s: State)
    ensures Produced(s, s, [])
  {
  }

  lemma CallDated(s: State, env: nat -> Visit, k: nat, s1: State, made: seq<Action>, places: seq<nat>,
                  s2: State, more: seq<Action>)
    requires s.pos == 0 && Dated(s, env, k, s1, made, places) && Produced(s1, s2, more)
    ensures Dated(s, env, k, s2, made + more, places)
  {
    hide DueNext, MadeBy;
    forall i | 0 <= i < |s2.list| && i < |made + more|
      ensures MadeBy(s2.list[i], (made + more)[|made + more| - 1 - i], s2.nextId - 1 - i)
    {
      if i >= |more| {
        var j := i - |more|;
        assert SameOrMarked(s1.list[j], s2.list[i]);
        assert MadeBy(s1.list[j], made[|made| - 1 - j], s1.nextId - 1 - j);
        MadeStays(s1.list[j], s2.list[i], made[|made| - 1 - j], s1.nextId - 1 - j);
      }
    }
    forall i | |made + more| <= i < |s2.list|
      ensures i < s2.pos ==> LeftOf(s2.list[i], s, env, places[i - |made + more|])
      ensures i >= s2.pos ==> SameOrMarked(s.list[i - s2.pos + k], s2.list[i])
    {
      assert SameOrMarked(s1.list[i - |more|], s2.list[i]);
    }
  }

  lemma MadeStays(t: Timer, t': Timer, a: Action, id: nat)
    requires MadeBy(t, a, id) && SameOrMarked(t, t')
    ensures MadeBy(t', a, id)
  {
  }

  lemma DropDated(s: State, env: nat -> Visit, k: nat, s1: State, made: seq<Action>, places: seq<nat>, v: Visit)
    requires s.pos == 0 && Dated(s, env, k, s1, made, places) && k < |s.list| && s1.list[s1.pos].id == DELETED
    ensures Dated(s, env, k + 1, Step(s1, v), made, places)
  {
    hide DueNext, MadeBy, ActAll;
    var s2 := Step(s1, v);
    assert forall i :: 0 <= i < |s2.list| ==> s2.list[i] == s1.list[if i < s1.pos then i else i + 1];
  }

  lemma AdvanceDated(s: State, env: nat -> Visit, k: nat, s1: State, made: seq<Action>, places: seq<nat>, s2: State)
    requires s.pos == 0 && Dated(s, env, k, s1, made, places) && k < |s.list|
    requires s2.nextId == s1.nextId && s2.pos == s1.pos + 1 && |s2.list| == |s1.list|
    requires LeftOf(s2.list[s1.pos], s, env, k)
    requires forall i :: 0 <= i < |s1.list| && i != s1.pos ==> s2.list[i] == s1.list[i]
    ensures Dated(s, env, k + 1, s2, made, places + [k])
  {
    hide DueNext, MadeBy;
  }

  lemma Untouched(s: State, env: nat -> Visit, k: nat, s1: State, made: seq<Action>, places: seq<nat>)
    requires s.pos == 0 && Dated(s, env, k, s1, made, places) && k < |s.list|
    ensures s1.pos < |s1.list| && SameOrMarked(s.list[k], s1.list[s1.pos])
  {
    hide DueNext, MadeBy, LeftOf;
  }

  /** What settling does to the timer that was called. */
  lemma Settled(s: State, v: Visit)
    requires s.pos < |s.list| && s.list[s.pos].id != DELETED && Due(v.now, s.list[s.pos].when)
    ensures var s1 := ActAll(s.(log := s.log + [Fired(s.list[s.pos].birth)]), v.actions);
            var s2 := Step(s, v);
            && s1.pos < |s1.list| && |s2.list| == |s1.list| && s2.pos == s1.pos + 1 && s2.nextId == s1.nextId
            && s2.list[s1.pos].birth == s.list[s.pos].birth
            && s2.list[s1.pos].when.Total()
               == (if v.outcome.Again? then v.outcome.now.Total() + v.outcome.delay else s.list[s.pos].when.Total())
            && (v.outcome.NoMore? ==> s2.list[s1.pos].id == DELETED)
            && (v.outcome.Again? ==> s2.list[s1.pos].id == s1.list[s1.pos].id)
            && forall i :: 0 <= i < |s1.list| && i != s1.pos ==> s2.list[i] == s1.list[i]
  {
    hide ActAll;
    var s0 := s.(log := s.log + [Fired(s.list[s.pos].birth)]);
    ActAllGrows(s0, v.actions);
    var s1 := ActAll(s0, v.actions);
    assert SameOrMarked(s0.list[s.pos], s1.list[s1.pos]);
  }

  lemma DatedNext(s: State, env: nat -> Visit, k: nat, made: seq<Action>, places: seq<nat>)
    requires s.pos == 0 && k < |s.list| && Dated(s, env, k, Steps(s, env, k), made, places)
    ensures Dated(s, env, k + 1, Steps(s, env, k + 1),
                  made + (if FiresAt(s, env, k) then Creates(env(k).actions) else []),
                  places + if MarkedAt(s, env, k) then [] else [k])
  {
    hide Dated, Produced, ActAll, Step, Creates, Due, Settle;
    var s1, v := Steps(s, env, k), env(k);
    StepsNext(s, env, k);
    Untouched(s, env, k, s1, made, places);
    assert made + [] == made && places + [] == places;
    if MarkedAt(s, env, k) {
      DropDated(s, env, k, s1, made, places, v);
    } else if FiresAt(s, env, k) {
      var s0 := s1.(log := s1.log + [Fired(s1.list[s1.pos].birth)]);
      ActionsProduce(s0, v.actions);
      SameProduced(s1, s0, ActAll(s0, v.actions), Creates(v.actions));
      CallDated(s, env, k, s1, made, places, ActAll(s0, v.actions), Creates(v.actions));
      Settled(s1, v);
      AdvanceDated(s, env, k, ActAll(s0, v.actions), made + Creates(v.actions), places, Step(s1, v));
    } else {
      StepPassesBy(s1, v);
      AdvanceDated(s, env, k, s1, made, places, Step(s1, v));
    }
  }

  lemma StepsNext(s: State, env: nat -> Visit, k: nat)
    requires s.pos == 0 && k < |s.list|
    ensures Steps(s, env, k).pos < |Steps(s, env, k).list|
    ensures Steps(s, env, k + 1) == Step(Steps(s, env, k), env(k))
  {
  }

  lemma StepPassesBy(s: State, v: Visit)
    requires s.pos < |s.list| && s.list[s.pos].id != DELETED && !Due(v.now, s.list[s.pos].when)
    ensures Step(s, v) == s.(pos := s.pos + 1)
  {
  }

  lemma SameProduced(s: State, s0: State, s1: State, made: seq<Action>)
    requires Produced(s0, s1, made) && s0.list == s.list && s0.pos == s.pos && s0.nextId == s.nextId
    ensures Produced(s, s1, made)
  {
  }

  lemma {:induction false} StepsDated(s: State, env: nat -> Visit, k: nat)
    requires s.pos == 0 && k <= |s.list|
    ensures Dated(s, env, k, Steps(s, env, k), Creations(s, env, k), Survivors(s, env, k))
  {
    hide Dated, Step, MarkedAt, FiresAt, Creates;
    if k == 0 {
      NoneDated(s, env);
    } else {
      StepsDated(s, env, k - 1);
      DatedNext(s, env, k - 1, Creations(s, env, k - 1), Survivors(s, env, k - 1));
    }
  }

  lemma NoneDated(s: State, env: nat -> Visit)
    requires s.pos == 0
    ensures Dated(s, env, 0, s, [], [])
  {
  }

  lemma {:induction false} SurvivorsOrdered(s: State, env: nat -> Visit, k: nat)
    requires s.pos == 0 && k <= |s.list|
    ensures forall i :: 0 <= i < |Survivors(s, env, k)| ==> Survivors(s, env, k)[i] < k
    ensures forall i, j :: 0 <= i < j < |Survivors(s, env, k)| ==> Survivors(s, env, k)[i] < Survivors(s, env, k)[j]
    ensures forall j :: 0 <= j < k ==> (j in Survivors(s, env, k) <==> !MarkedAt(s, env, j))
  {
    hide MarkedAt;
    if k > 0 {
      SurvivorsOrdered(s, env, k - 1);
    }
  }

  /**
   The deadlines that a pass leaves, in milliseconds. Each creation by a callback that was called has made one timer,
   with the next identifier, due its delay after its clock reading. Behind them stand the timers kept, in their order:
   one whose callback was called and asked for more is due the delay it asked for after the reading at that moment; any
   other is due when it was, or, if the clock was set back, in the first second of the epoch.
   */
  lemma PassDeadlines(s: State, now: int, env: nat -> Visit)
    requires s.pos == 0
    ensures var s', u := Pass(s, now, env), Unskewed(s, now);
            var made, places := Creations(u, env, |u.list|), Survivors(u, env, |u.list|);
            var n := |made|;
            && s'.nextId == s.nextId + n && |s'.list| == n + |places|
            && (forall i :: 0 <= i < n ==>
                  && made[i].Create? && s'.list[n - 1 - i].birth == s.nextId + i
                  && s'.list[n - 1 - i].when.Total() == made[i].now.Total() + made[i].delay)
            && (forall i :: 0 <= i < |places| ==>
                  && places[i] < |s.list| && s'.list[n + i].birth == s.list[places[i]].birth
                  && s'.list[n + i].when.Total()
                     == if FiresAt(u, env, places[i]) && env(places[i]).outcome.Again?
                        then env(places[i]).outcome.now.Total() + env(places[i]).outcome.delay
                        else if now < s.lastTime then s.list[places[i]].when.Total() % 1000
                        else s.list[places[i]].when.Total())
  {
    hide *;
    var u := Unskewed(s, now);
    Repaired(s, now);
    StepsDated(u, env, |u.list|);
    PassEnds(s, now, env);
    var s', made, places := Pass(s, now, env), Creations(u, env, |u.list|), Survivors(u, env, |u.list|);
    var n := |made|;
    DatedSizes(u, env, |u.list|, Steps(u, env, |u.list|), made, places);
    forall i | 0 <= i < n
      ensures made[i].Create? && s'.list[n - 1 - i].birth == s.nextId + i
      ensures s'.list[n - 1 - i].when.Total() == made[i].now.Total() + made[i].delay
    {
      DatedMade(u, env, |u.list|, Steps(u, env, |u.list|), made, places, i);
    }
    forall i | 0 <= i < |places|
      ensures places[i] < |s.list| && s'.list[n + i].birth == s.list[places[i]].birth
      ensures s'.list[n + i].when.Total()
              == if FiresAt(u, env, places[i]) && env(places[i]).outcome.Again?
                 then env(places[i]).outcome.now.Total() + env(places[i]).outcome.delay
                 else if now < s.lastTime then s.list[places[i]].when.Total() % 1000
                 else s.list[places[i]].when.Total()
    {
      DatedLeft(u, env, |u.list|, Steps(u, env, |u.list|), made, places, i);
    }
  }

  /** Setting the clock back leaves of every deadline its milliseconds. */
  lemma Repaired(s: State, now: int)
    requires s.pos == 0
    ensures var u := Unskewed(s, now);
            && u.pos == 0 && u.nextId == s.nextId && |u.list| == |s.list|
            && forall j {:trigger u.list[j]} :: 0 <= j < |s.list| ==>
                 && u.list[j].id == s.list[j].id && u.list[j].birth == s.list[j].birth
                 && u.list[j].when.Total()
                    == if now < s.lastTime then s.list[j].when.Total() % 1000 else s.list[j].when.Total()
  {
    forall j | 0 <= j < |s.list| ensures s.list[j].when.Total() % 1000 == s.list[j].when.ms {
    }
  }

  lemma PassEnds(s: State, now: int, env: nat -> Visit)
    requires s.pos == 0
    ensures var s', u := Pass(s, now, env), Unskewed(s, now);
            s'.list == Steps(u, env, |u.list|).list && s'.nextId == Steps(u, env, |u.list|).nextId
  {
    hide Steps;
  }

  lemma DatedSizes(s: State, env: nat -> Visit, k: nat, s': State, made: seq<Action>, places: seq<nat>)
    requires s.pos == 0 && Dated(s, env, k, s', made, places) && k == |s.list|
    ensures s'.nextId == s.nextId + |made| && |s'.list| == |made| + |places|
  {
    hide MadeBy, LeftOf;
  }

  lemma DatedMade(s: State, env: nat -> Visit, k: nat, s': State, made: seq<Action>, places: seq<nat>, i: nat)
    requires s.pos == 0 && Dated(s, env, k, s', made, places) && i < |made|
    ensures var j := |made| - 1 - i;
            && j < |s'.list| && made[i].Create? && s'.list[j].birth == s.nextId + i
            && s'.list[j].when.Total() == made[i].now.Total() + made[i].delay
  {
    hide LeftOf;
    var j := |made| - 1 - i;
    assert MadeBy(s'.list[j], made[|made| - 1 - j], s'.nextId - 1 - j);
  }

  lemma DatedLeft(s: State, env: nat -> Visit, k: nat, s': State, made: seq<Action>, places: seq<nat>, i: nat)
    requires s.pos == 0 && Dated(s, env, k, s', made, places) && i < |places|
    ensures var j := |made| + i;
            && j < |s'.list| && places[i] < |s.list| && s'.list[j].birth == s.list[places[i]].birth
            && s'.list[j].when.Total()
               == if FiresAt(s, env, places[i]) && env(places[i]).outcome.Again?
                  then env(places[i]).outcome.now.Total() + env(places[i]).outcome.delay
                  else s.list[places[i]].when.Total()
  {
    hide MadeBy, FiresAt;
    var j := |made| + i;
    assert LeftOf(s'.list[j], s, env, places[j - |made|]);
  }
}
