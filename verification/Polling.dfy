/** What the poll timeout of src/ae.c is worth: which timers it waits for, and what the pass after it does. */
module Polling {
  import opened Timers
  import opened TimerTheorems

  /** The timers that are not marked deleted. */
  function Unmarked(list: seq<Timer>): seq<Timer> {
    if list == [] then []
    else
      Unmarked(list[..|list| - 1]) + if list[|list| - 1].id == DELETED then [] else [list[|list| - 1]]
  }

  lemma {:induction false} UnmarkedHolds(list: seq<Timer>)
    ensures forall t :: t in Unmarked(list) <==> t in list && t.id != DELETED
  {
    if list != [] {
      UnmarkedHolds(list[..|list| - 1]);
      assert list == list[..|list| - 1] + [list[|list| - 1]];
    }
  }

  /** The earliest deadline of all timers, marked or not, is no later than that of the unmarked ones. */
  lemma EarliestOfUnmarked(list: seq<Timer>)
    requires Unmarked(list) != []
    ensures list != [] && EarliestTotal(list) <= EarliestTotal(Unmarked(list))
    ensures exists t :: t in list && t.id != DELETED && t.when.Total() == EarliestTotal(Unmarked(list))
    ensures forall t :: t in list && t.id != DELETED ==> EarliestTotal(Unmarked(list)) <= t.when.Total()
    ensures exists t :: t in list && t.when.Total() == EarliestTotal(list)
    ensures forall t :: t in list ==> EarliestTotal(list) <= t.when.Total()
  {
    UnmarkedHolds(list);
    EarliestIsLeast(list);
    EarliestIsLeast(Unmarked(list));
    var u := Unmarked(list);
    var i :| 0 <= i < |u| && u[i].when.Total() == EarliestTotal(u);
    assert u[i] in u;
    var j :| 0 <= j < |list| && list[j].when.Total() == EarliestTotal(list);
    assert list[j] in list;
  }

  /**
   Deleted timers keep counting until they are unlinked. The timeout is that of the unmarked timers exactly when there
   is no timer at all, or some unmarked timer is due already, or some unmarked timer is no later than every marked one;
   otherwise the poll wakes up too early, or wakes up with nothing to wait for.
   */
  lemma TimeoutExact(list: seq<Timer>, now: Reading)
    ensures Timeout(list, now) == Timeout(Unmarked(list), now) <==>
              || list == []
              || exists t :: t in list && t.id != DELETED
                   && (Due(now, t.when)
                       || forall d :: d in list && d.id == DELETED ==> t.when.Total() <= d.when.Total())
    ensures Unmarked(list) != [] ==> Timeout(list, now) <= Timeout(Unmarked(list), now)
  {
    UnmarkedHolds(list);
    forall t: Timer ensures Due(now, t.when) <==> t.when.Total() <= now.Total() {
      LexicographicIsTotal(now, t.when);
    }
    if Unmarked(list) == [] {
      assert forall t :: t in list && t.id != DELETED ==> t in Unmarked(list);
    } else {
      EarliestOfUnmarked(list);
    }
  }

  /** A deleted timer that is due first cuts the sleep short. */
  lemma DeletedTimerShortensSleep()
    ensures var list := [Timer(DELETED, 1, Instant(1, 0)), Timer(0, 0, Instant(5, 0))];
            Timeout(list, Instant(0, 0)) == 1000 && Timeout(Unmarked(list), Instant(0, 0)) == 5000
  {
    var list := [Timer(DELETED, 1, Instant(1, 0)), Timer(0, 0, Instant(5, 0))];
    assert list[..1] == [list[0]] && list[..1][..0] == [];
    assert Unmarked(list[..1]) == [];
    assert Unmarked(list) == [list[1]];
    assert EarliestTotal(list[..1]) == 1000;
  }

  // ---------- after the sleep ----------

  lemma {:induction false} VisitedIsSeen(s: State, env: nat -> Visit, k: nat, n: nat)
    requires s.pos == 0 && k < n <= |s.list|
    ensures FiresAt(s, env, k) ==> s.list[k].birth in Called(s, env, n)
    ensures MarkedAt(s, env, k) ==> s.list[k].birth in Dropped(s, env, n)
  {
    hide Steps, Due;
    if k < n - 1 {
      VisitedIsSeen(s, env, k, n - 1);
    }
  }

  /**
   If the poll sleeps its whole timeout, or longer, a timer with the earliest deadline is called by the pass that
   follows, or is finalised by it because it was deleted; a clock set back does not prevent that.
   */
  lemma FullSleepRunsEarliest(s: State, poll: Reading, now: int, env: nat -> Visit, k: nat)
    requires s.pos == 0 && k < |s.list| && s.list[k].when.Total() == EarliestTotal(s.list)
    requires env(k).now.Total() >= poll.Total() + Timeout(s.list, poll)
    requires now < s.lastTime ==> env(k).now.sec > 0
    ensures var s', u, b := Pass(s, now, env), Unskewed(s, now), s.list[k].birth;
            && FiredIn(s'.log) == FiredIn(s.log) + Called(u, env, |u.list|)
            && FinalisedIn(s'.log) == FinalisedIn(s.log) + Dropped(u, env, |u.list|)
            && (b in Called(u, env, |u.list|) || b in Dropped(u, env, |u.list|))
  {
    hide Steps, Called, Dropped, Kept, Pass, FiredIn, FinalisedIn;
    var u := Unskewed(s, now);
    PassExact(s, now, env);
    LexicographicIsTotal(env(k).now, s.list[k].when);
    assert u.list[k].birth == s.list[k].birth;
    assert FiresAt(u, env, k) || MarkedAt(u, env, k);
    VisitedIsSeen(u, env, k, |u.list|);
  }

  /** A sleep shorter than the timeout, under a clock that was not set back, ends before any timer is due. */
  lemma ShortSleepRunsNone(s: State, poll: Reading, now: int, env: nat -> Visit, k: nat)
    requires s.pos == 0 && k < |s.list| && now >= s.lastTime
    requires poll.Total() <= env(k).now.Total() < poll.Total() + Timeout(s.list, poll)
    ensures !FiresAt(Unskewed(s, now), env, k)
  {
    EarliestIsLeast(s.list);
    LexicographicIsTotal(env(k).now, s.list[k].when);
    assert Unskewed(s, now).list[k] == s.list[k];
  }
}
