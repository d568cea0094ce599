/** Which timers a pass, or a deletion, marks: told from the callbacks alone. */
module TimerDeletions {
  import opened Timers
  import opened TimerTheorems
  import opened TimerLife
  import opened TimerDeadlines

  /** Deleting an identifier marks the timer that has it, if it is still live, and no other. */
  lemma MarksOnly(s: State, id: nat)
    requires Inv(s)
    ensures var s' := Marked(s, id);
            && |s'.list| == |s.list|
            && (forall i :: 0 <= i < |s.list| ==>
                  && s'.list[i].birth == s.list[i].birth && s'.list[i].when == s.list[i].when
                  && s'.list[i].id == if s.list[i].birth == id then DELETED else s.list[i].id)
            && s'.log == s.log + if Life(s.log, id) == Live then [Deleted(id)] else []
  {
    hide Life;
    assert AtStage(s, id, Life(s.log, id));
    var k := IndexOf(s.list, id);
    if k < |s.list| {
      OneStage(s, id, Life(s.log, id), Live);
    } else {
      assert forall i :: 0 <= i < |s.list| && s.list[i].birth == id ==> s.list[i].id == DELETED;
      assert s.log + [] == s.log;
    }
  }

  /** From s to s', the timers of s are marked exactly if they were, or if an action deletes them. */
  ghost predicate MarkedBy(s: State, s': State, actions: seq<Action>) {
    && |s'.list| >= |s.list|
    && forall i {:trigger s.list[i]} :: 0 <= i < |s.list| ==>
         var t' := s'.list[|s'.list| - |s.list| + i];
         && t'.birth == s.list[i].birth
         && (t'.id == DELETED <==> s.list[i].id == DELETED || Delete(s.list[i].birth) in actions)
  }

  lemma AddedMarks(s: State, s1: State, actions: seq<Action>, delay: nat, now: Reading)
    requires MarkedBy(s, s1, actions)
    ensures MarkedBy(s, Added(s1, delay, now), actions + [Create(delay, now)])
  {
    var s2, all := Added(s1, delay, now), actions + [Create(delay, now)];
    forall i | 0 <= i < |s.list|
      ensures s2.list[|s2.list| - |s.list| + i] == s1.list[|s1.list| - |s.list| + i]
      ensures Delete(s.list[i].birth) in all <==> Delete(s.list[i].birth) in actions
    {
    }
  }

  lemma DeletedMarks(s: State, s1: State, actions: seq<Action>, id: nat)
    requires MarkedBy(s, s1, actions) && Inv(s1)
    ensures MarkedBy(s, Marked(s1, id), actions + [Delete(id)])
  {
    hide Inv, Marked;
    MarksOnly(s1, id);
    var s2, all := Marked(s1, id), actions + [Delete(id)];
    forall i | 0 <= i < |s.list|
      ensures Delete(s.list[i].birth) in all <==> Delete(s.list[i].birth) in actions || s.list[i].birth == id
    {
    }
  }

  lemma {:induction false} ActionsMark(s: State, actions: seq<Action>)
    requires Inv(s)
    ensures MarkedBy(s, ActAll(s, actions), actions)
  {
    hide Inv, Added, Marked, MarkedBy;
    if actions == [] {
      NoneMarked(s);
    } else {
      var less := actions[..|actions| - 1];
      ActionsMark(s, less);
      ActAllKeeps(s, less);
      assert less + [actions[|actions| - 1]] == actions;
      match actions[|actions| - 1] {
        case Create(delay, now) => AddedMarks(s, ActAll(s, less), less, delay, now);
        case Delete(id) => DeletedMarks(s, ActAll(s, less), less, id);
      }
    }
  }

  lemma NoneMarked(s: State)
    ensures MarkedBy(s, s, [])
  {
  }

  // ---------- whole passes ----------

  /** Some callback of the first k timers is called and deletes timer p. */
  ghost predicate Doomed(s: State, env: nat -> Visit, k: nat, p: nat)
    requires s.pos == 0 && k <= |s.list| && p < |s.list|
  {
    exists j :: 0 <= j < k && FiresAt(s, env, j) && Delete(s.list[p].birth) in env(j).actions
  }

  /** Whether a timer kept in its visit is marked after k visits. */
  ghost predicate GivenUp(s: State, env: nat -> Visit, k: nat, p: nat)
    requires s.pos == 0 && k <= |s.list| && p < |s.list|
  {
    Doomed(s, env, k, p) || (FiresAt(s, env, p) && env(p).outcome.NoMore?)
  }

  /** After k visits, s' has marked exactly what was marked, or deleted, or has asked for no more. */
  ghost predicate Marks(s: State, env: nat -> Visit, k: nat, s': State, places: seq<nat>)
    requires s.pos == 0
  {
    && k <= |s.list| && |places| <= s'.pos && |s'.list| == s'.pos + |s.list| - k
    && (forall i {:trigger places[i]} :: 0 <= i < |places| ==>
          && places[i] < k
          && var t := s'.list[s'.pos - |places| + i];
             t.birth == s.list[places[i]].birth && (t.id == DELETED <==> GivenUp(s, env, k, places[i])))
    && (forall p {:trigger s.list[p]} :: k <= p < |s.list| ==>
          var t := s'.list[s'.pos + p - k];
          && t.birth == s.list[p].birth
          && (t.id == DELETED <==> s.list[p].id == DELETED || Doomed(s, env, k, p)))
  }

  lemma DoomedNext(s: State, env: nat -> Visit, k: nat, p: nat)
    requires s.pos == 0 && k < |s.list| && p < |s.list|
    ensures Doomed(s, env, k + 1, p) <==>
              Doomed(s, env, k, p) || (FiresAt(s, env, k) && Delete(s.list[p].birth) in env(k).actions)
  {
    hide FiresAt;
  }

  /** Timer k, when the pass comes to it. */
  lemma MarkedWhenVisited(s: State, env: nat -> Visit, k: nat, places: seq<nat>)
    requires s.pos == 0 && k < |s.list| && Marks(s, env, k, Steps(s, env, k), places)
    ensures MarkedAt(s, env, k) <==> s.list[k].id == DELETED || Doomed(s, env, k, k)
  {
    hide Doomed, GivenUp, Steps;
  }

  /** The timers not yet visited, from s0 before the visit of timer k to s2 after it. */
  lemma TodoMarks(s: State, env: nat -> Visit, k: nat, s0: State, places: seq<nat>, s2: State, p: nat)
    requires s.pos == 0 && k < p < |s.list| && Marks(s, env, k, s0, places)
    requires s2.pos <= |s2.list| && |s2.list| - s2.pos == |s.list| - (k + 1)
    requires var t, t' := s0.list[s0.pos + p - k], s2.list[s2.pos + p - (k + 1)];
             && t'.birth == t.birth
             && (t'.id == DELETED <==>
                  t.id == DELETED || (FiresAt(s, env, k) && Delete(t.birth) in env(k).actions))
    ensures var t' := s2.list[s2.pos + p - (k + 1)];
            && t'.birth == s.list[p].birth
            && (t'.id == DELETED <==> s.list[p].id == DELETED || Doomed(s, env, k + 1, p))
  {
    hide Doomed, GivenUp, FiresAt;
    DoomedNext(s, env, k, p);
    assert s0.list[s0.pos + p - k].birth == s.list[p].birth;
  }

  /** A timer kept before, likewise. */
  lemma KeptMarks(s: State, env: nat -> Visit, k: nat, s0: State, places: seq<nat>, t': Timer, i: nat)
    requires s.pos == 0 && k < |s.list| && Marks(s, env, k, s0, places) && i < |places|
    requires var t := s0.list[s0.pos - |places| + i];
             && t'.birth == t.birth
             && (t'.id == DELETED <==>
                  t.id == DELETED || (FiresAt(s, env, k) && Delete(t.birth) in env(k).actions))
    ensures places[i] < k && t'.birth == s.list[places[i]].birth
    ensures t'.id == DELETED <==> GivenUp(s, env, k + 1, places[i])
  {
    hide Doomed, FiresAt;
    assert s0.list[s0.pos - |places| + i].birth == s.list[places[i]].birth;
    DoomedNext(s, env, k, places[i]);
  }

  lemma DropMarks(s: State, env: nat -> Visit, k: nat, s0: State, places: seq<nat>, s2: State)
    requires s.pos == 0 && k < |s.list| && Marks(s, env, k, s0, places) && !FiresAt(s, env, k)
    requires s2.pos == s0.pos && s2.list == s0.list[..s0.pos] + s0.list[s0.pos + 1..]
    ensures Marks(s, env, k + 1, s2, places)
  {
    hide Doomed, GivenUp, FiresAt;
    forall i | 0 <= i < |places|
      ensures places[i] < k && s2.list[s2.pos - |places| + i].birth == s.list[places[i]].birth
      ensures s2.list[s2.pos - |places| + i].id == DELETED <==> GivenUp(s, env, k + 1, places[i])
    {
      KeptMarks(s, env, k, s0, places, s2.list[s2.pos - |places| + i], i);
    }
    forall p | k + 1 <= p < |s.list|
      ensures s2.list[s2.pos + p - (k + 1)].birth == s.list[p].birth
      ensures s2.list[s2.pos + p - (k + 1)].id == DELETED <==> s.list[p].id == DELETED || Doomed(s, env, k + 1, p)
    {
      TodoMarks(s, env, k, s0, places, s2, p);
    }
  }

  /** The visit of a timer that is kept; t is what becomes of it. */
  lemma KeepMarks(s: State, env: nat -> Visit, k: nat, s0: State, places: seq<nat>, s2: State)
    requires s.pos == 0 && k < |s.list| && Marks(s, env, k, s0, places)
    requires var m := |s2.list| - |s0.list|;
             && m >= 0 && s2.pos == s0.pos + 1 + m
             && s2.list[s0.pos + m].birth == s.list[k].birth
             && (s2.list[s0.pos + m].id == DELETED <==> GivenUp(s, env, k + 1, k))
             && forall i {:trigger s0.list[i]} :: 0 <= i < |s0.list| && i != s0.pos ==>
                  && s2.list[m + i].birth == s0.list[i].birth
                  && (s2.list[m + i].id == DELETED <==>
                       s0.list[i].id == DELETED
                       || (FiresAt(s, env, k) && Delete(s0.list[i].birth) in env(k).actions))
    ensures Marks(s, env, k + 1, s2, places + [k])
  {
    hide Doomed, GivenUp, FiresAt;
    var all, m := places + [k], |s2.list| - |s0.list|;
    forall i | 0 <= i < |all|
      ensures all[i] < k + 1 && s2.list[s2.pos - |all| + i].birth == s.list[all[i]].birth
      ensures s2.list[s2.pos - |all| + i].id == DELETED <==> GivenUp(s, env, k + 1, all[i])
    {
      if i < |places| {
        var at := s0.pos - |places| + i;
        assert s2.list[m + at].birth == s0.list[at].birth;
        KeptMarks(s, env, k, s0, places, s2.list[m + at], i);
      }
    }
    forall p | k + 1 <= p < |s.list|
      ensures s2.list[s2.pos + p - (k + 1)].birth == s.list[p].birth
      ensures s2.list[s2.pos + p - (k + 1)].id == DELETED <==> s.list[p].id == DELETED || Doomed(s, env, k + 1, p)
    {
      var at := s0.pos + p - k;
      assert s2.list[m + at].birth == s0.list[at].birth;
      TodoMarks(s, env, k, s0, places, s2, p);
    }
  }

  /** What the call of a timer marks. */
  lemma CallMarks(s: State, env: nat -> Visit, k: nat, s0: State, places: seq<nat>, s1: State, s2: State)
    requires s.pos == 0 && k < |s.list| && Marks(s, env, k, s0, places) && !Doomed(s, env, k, k)
    requires FiresAt(s, env, k) && s.list[k].id != DELETED
    requires MarkedBy(s0, s1, env(k).actions) && s1.pos - s0.pos == |s1.list| - |s0.list|
    requires |s2.list| == |s1.list| && s2.pos == s1.pos + 1
    requires s1.pos < |s1.list| && s2.list[s1.pos].birth == s1.list[s1.pos].birth
    requires s2.list[s1.pos].id == if env(k).outcome.NoMore? then DELETED else s1.list[s1.pos].id
    requires forall i :: 0 <= i < |s1.list| && i != s1.pos ==> s2.list[i] == s1.list[i]
    ensures Marks(s, env, k + 1, s2, places + [k])
  {
    hide Doomed, FiresAt;
    DoomedNext(s, env, k, k);
    assert s0.list[s0.pos + k - k].birth == s.list[k].birth;
    var m := |s1.list| - |s0.list|;
    forall i | 0 <= i < |s0.list| && i != s0.pos
      ensures s2.list[m + i].birth == s0.list[i].birth
      ensures s2.list[m + i].id == DELETED <==>
                s0.list[i].id == DELETED || (FiresAt(s, env, k) && Delete(s0.list[i].birth) in env(k).actions)
    {
      assert s2.list[m + i] == s1.list[m + i];
    }
    assert s1.list[m + s0.pos].birth == s0.list[s0.pos].birth;
    KeepMarks(s, env, k, s0, places, s2);
  }

  lemma PassByMarks(s: State, env: nat -> Visit, k: nat, s0: State, places: seq<nat>)
    requires s.pos == 0 && k < |s.list| && Marks(s, env, k, s0, places) && !Doomed(s, env, k, k)
    requires !FiresAt(s, env, k) && s.list[k].id != DELETED
    ensures Marks(s, env, k + 1, s0.(pos := s0.pos + 1), places + [k])
  {
    hide Doomed, FiresAt;
    DoomedNext(s, env, k, k);
    assert s0.list[s0.pos + k - k].birth == s.list[k].birth;
    KeepMarks(s, env, k, s0, places, s0.(pos := s0.pos + 1));
  }

  lemma MarksNext(s: State, env: nat -> Visit, k: nat, places: seq<nat>)
    requires Inv(s) && s.pos == 0 && k < |s.list| && Marks(s, env, k, Steps(s, env, k), places)
    ensures Marks(s, env, k + 1, Steps(s, env, k + 1), places + if MarkedAt(s, env, k) then [] else [k])
  {
    hide Inv, Marks, Step, ActAll, Due, Grown, Doomed, Reached;
    assert places + [] == places;
    StepsNext(s, env, k);
    StepsExact(s, env, k);
    var s1, v := Steps(s, env, k), env(k);
    ReachedTodo(s, k, s1, Kept(s, env, k));
    MarkedWhenVisited(s, env, k, places);
    if MarkedAt(s, env, k) {
      DropsIt(s1, v);
      DropMarks(s, env, k, s1, places, Step(s1, v));
    } else if FiresAt(s, env, k) {
      StepsKeep(s, env, k);
      var s0 := s1.(log := s1.log + [Fired(s1.list[s1.pos].birth)]);
      FiredKeeps(s1, s1.pos);
      ActionsMark(s0, v.actions);
      SameMarked(s1, s0, ActAll(s0, v.actions), v.actions);
      CallGrows(s1, v);
      Settled(s1, v);
      CallMarks(s, env, k, s1, places, ActAll(s0, v.actions), Step(s1, v));
    } else {
      StepPassesBy(s1, v);
      PassByMarks(s, env, k, s1, places);
    }
  }

  lemma DropsIt(s: State, v: Visit)
    requires s.pos < |s.list| && s.list[s.pos].id == DELETED
    ensures Step(s, v).pos == s.pos && Step(s, v).list == s.list[..s.pos] + s.list[s.pos + 1..]
  {
  }

  lemma SameMarked(s: State, s0: State, s1: State, actions: seq<Action>)
    requires MarkedBy(s0, s1, actions) && s0.list == s.list
    ensures MarkedBy(s, s1, actions)
  {
  }

  lemma {:induction false} StepsMark(s: State, env: nat -> Visit, k: nat)
    requires Inv(s) && s.pos == 0 && k <= |s.list|
    ensures Marks(s, env, k, Steps(s, env, k), Survivors(s, env, k))
  {
    hide Inv, Marks, Step, MarkedAt, FiresAt;
    if k == 0 {
      NoMarks(s, env);
    } else {
      StepsMark(s, env, k - 1);
      MarksNext(s, env, k - 1, Survivors(s, env, k - 1));
    }
  }

  lemma NoMarks(s: State, env: nat -> Visit)
    requires s.pos == 0
    ensures Marks(s, env, 0, s, [])
  {
  }

  /**
   In a pass a timer is skipped and finalised if and only if it was marked before, or the callback of a timer visited
   earlier in the pass was called and deleted it. One that is kept is marked afterwards if and only if its own callback
   was called and asked for no more, or some callback called in the pass deleted it.
   */
  lemma PassDeletions(s: State, now: int, env: nat -> Visit)
    requires Inv(s) && s.pos == 0
    ensures var s', u := Pass(s, now, env), Unskewed(s, now);
            var n, places := |Creations(u, env, |u.list|)|, Survivors(u, env, |u.list|);
            && |u.list| == |s.list| && |s'.list| == n + |places|
            && (forall k :: 0 <= k < |s.list| ==>
                  (k !in places <==>
                    || s.list[k].id == DELETED
                    || exists j :: 0 <= j < k && FiresAt(u, env, j) && Delete(s.list[k].birth) in env(j).actions))
            && (forall i :: 0 <= i < |places| ==>
                  && places[i] < |s.list|
                  && (s'.list[n + i].id == DELETED <==>
                       || (FiresAt(u, env, places[i]) && env(places[i]).outcome.NoMore?)
                       || exists j :: 0 <= j < |s.list| && FiresAt(u, env, j)
                            && Delete(s.list[places[i]].birth) in env(j).actions))
  {
    hide Inv, Steps, Marks, MarkedAt, FiresAt, Survivors, Creations;
    var u := Unskewed(s, now);
    Repaired(s, now);
    SilentKeeps(s, u);
    PassDeadlines(s, now, env);
    var s', n, places := Pass(s, now, env), |Creations(u, env, |u.list|)|, Survivors(u, env, |u.list|);
    PassEnds(s, now, env);
    SurvivorsOrdered(u, env, |u.list|);
    forall k | 0 <= k < |s.list|
      ensures k !in places <==>
                || s.list[k].id == DELETED
                || exists j :: 0 <= j < k && FiresAt(u, env, j) && Delete(s.list[k].birth) in env(j).actions
    {
      StepsMark(u, env, k);
      MarkedWhenVisited(u, env, k, Survivors(u, env, k));
      assert u.list[k].birth == s.list[k].birth && u.list[k].id == s.list[k].id;
    }
    StepsMark(u, env, |u.list|);
    forall i | 0 <= i < |places|
      ensures s'.list[n + i].id == DELETED <==>
                || (FiresAt(u, env, places[i]) && env(places[i]).outcome.NoMore?)
                || exists j :: 0 <= j < |s.list| && FiresAt(u, env, j)
                     && Delete(s.list[places[i]].birth) in env(j).actions
    {
      MarksEnd(u, env, Steps(u, env, |u.list|), places, i);
      assert u.list[places[i]].birth == s.list[places[i]].birth;
    }
  }

  lemma MarksEnd(s: State, env: nat -> Visit, s': State, places: seq<nat>, i: nat)
    requires s.pos == 0 && Marks(s, env, |s.list|, s', places) && i < |places|
    ensures places[i] < |s.list| && s'.pos == |s'.list|
    ensures s'.list[|s'.list| - |places| + i].id == DELETED <==> GivenUp(s, env, |s.list|, places[i])
  {
    hide GivenUp, Doomed;
  }
}
