// How a run ends: the first final write or sweep that reaches it decides, whoever
// else tries later.
module Endings {
  import opened Model
  import opened Sql
  import opened Lifecycle
  import S = Safety

  // Action a would end run r if nothing had ended it before: a final write for it,
  // or a sweep that finds it overdue.
  predicate WouldEnd(s: State, a: Action, r: RunId) {
    && r in s.t.runs
    && (|| (a.SetStatus? && a.run == r && a.job == s.t.runs[r].job && Terminal(a.status))
        || (a.Reset? && Hung(s.t.runs[r], s.now, a.procSec, a.schedSec)))
  }

  // Action i is the first of these.
  ghost predicate First(states: seq<State>, actions: seq<Action>, i: nat, r: RunId)
    requires |states| == |actions| + 1
  {
    && i < |actions| && WouldEnd(states[i], actions[i], r)
    && forall k | 0 <= k < i :: !WouldEnd(states[k], actions[k], r)
  }

  lemma SetMatches(s: State, a: Action, s': State, r: RunId)
    requires Inv(s) && Next(s, a, s') && r in s.t.runs && r in s'.t.runs
    ensures Active(s.t.runs[r].status) ==>
              if WouldEnd(s, a, r) then s'.t.runs[r].status == if a.SetStatus? then a.status else Error
              else Active(s'.t.runs[r].status)
    ensures !Active(s.t.runs[r].status) ==> s'.t.runs[r] == s.t.runs[r]
  {
    hide Inv, SchedulesEvolve, MemoryEvolves;
    InvStep(s, a, s');
    assert RowEvolves(s.t.runs[r], s'.t.runs[r], s.now);
    if a.Reset? { ResetRow(s, a, s', r); }
    else if a.SetStatus? { SetRow(s, a, s', r); }
    else { assert s'.t.runs[r] == s.t.runs[r]; }
  }

  lemma ResetRow(s: State, a: Action, s': State, r: RunId)
    requires Next(s, a, s') && a.Reset? && r in s.t.runs
    ensures r in s'.t.runs && s'.t.runs[r] ==
              if Hung(s.t.runs[r], s.now, a.procSec, a.schedSec)
              then s.t.runs[r].(status := Error, endedAt := Some(s.now))
              else s.t.runs[r]
  {
  }

  lemma SetRow(s: State, a: Action, s': State, r: RunId)
    requires Next(s, a, s') && a.SetStatus? && r in s.t.runs
    ensures r in s'.t.runs && s'.t.runs[r] ==
              if a.run == r && SetRunMatches(s.t, a.status, r, a.job) then Restamped(s.t.runs[r], a.status, s.now)
              else s.t.runs[r]
  {
  }

  // A run that appears now was there at no earlier time.
  lemma NeverBefore(states: seq<State>, actions: seq<Action>, n: nat, k: nat, r: RunId)
    requires Behaviour(states, actions) && k <= n < |actions|
    requires r !in states[n].t.runs && r in states[n + 1].t.runs
    ensures r !in states[k].t.runs
  {
    hide Next, Inv;
    if r in states[k].t.runs {
      S.StagesOnlyAdvance(states, actions, k, n, r);
      S.GoneForever(states, actions, n, n + 1, r);
      assert false;
    }
  }

  lemma AbsentCannotEnd(s: State, a: Action, r: RunId)
    requires r !in s.t.runs
    ensures !WouldEnd(s, a, r)
  {
  }

  lemma EndsBy(s: State, a: Action, r: RunId)
    requires WouldEnd(s, a, r)
    ensures a.Reset? || (a.SetStatus? && (a.status == Idle || a.status == Error))
  {
  }

  lemma NewIsActive(s: State, a: Action, s': State, r: RunId)
    requires Inv(s) && Next(s, a, s') && r !in s.t.runs && r in s'.t.runs
    ensures Active(s'.t.runs[r].status)
  {
    hide Next, Inv, SchedulesEvolve, MemoryEvolves;
    InvStep(s, a, s');
  }

  lemma NotDisabled(s: State, r: RunId)
    requires Inv(s) && r in s.t.runs
    ensures Active(s.t.runs[r].status) || s.t.runs[r].status == Idle || s.t.runs[r].status == Error
  {
    assert Stamps(s.t.runs[r], s.now);
  }

  // The first thing that would end r makes it idle.
  ghost predicate FirstIsIdle(states: seq<State>, actions: seq<Action>, n: nat, r: RunId)
    requires |states| == |actions| + 1 && n <= |actions|
  {
    exists i: nat | i < n :: First(states, actions, i, r) && actions[i].SetStatus? && actions[i].status == Idle
  }

  ghost predicate FirstIsError(states: seq<State>, actions: seq<Action>, n: nat, r: RunId)
    requires |states| == |actions| + 1 && n <= |actions|
  {
    exists i: nat | i < n ::
      First(states, actions, i, r) && (actions[i].Reset? || (actions[i].SetStatus? && actions[i].status == Error))
  }

  lemma FirstNow(states: seq<State>, actions: seq<Action>, n: nat, r: RunId)
    requires |states| == |actions| + 1 && n < |actions|
    requires forall k | 0 <= k < n :: !WouldEnd(states[k], actions[k], r)
    ensures FirstIsIdle(states, actions, n + 1, r) <==>
              WouldEnd(states[n], actions[n], r) && actions[n].SetStatus? && actions[n].status == Idle
    ensures FirstIsError(states, actions, n + 1, r) <==>
              WouldEnd(states[n], actions[n], r)
              && (actions[n].Reset? || (actions[n].SetStatus? && actions[n].status == Error))
  {
    hide WouldEnd;
    if WouldEnd(states[n], actions[n], r) { assert First(states, actions, n, r); }
  }

  lemma FirstBefore(states: seq<State>, actions: seq<Action>, n: nat, k: nat, r: RunId)
    requires |states| == |actions| + 1 && k < n < |actions| && WouldEnd(states[k], actions[k], r)
    ensures FirstIsIdle(states, actions, n + 1, r) <==> FirstIsIdle(states, actions, n, r)
    ensures FirstIsError(states, actions, n + 1, r) <==> FirstIsError(states, actions, n, r)
  {
    hide WouldEnd;
    assert !First(states, actions, n, r);
  }

  // A run is active exactly while nothing that would end it has happened; it is
  // idle if and only if the first such thing is a write of idle, and failed if and
  // only if it is a write of error or a sweep.
  lemma {:induction false} FirstDecides(states: seq<State>, actions: seq<Action>, n: nat, r: RunId)
    requires Behaviour(states, actions) && n <= |actions| && r in states[n].t.runs
    ensures Active(states[n].t.runs[r].status) <==> forall k | 0 <= k < n :: !WouldEnd(states[k], actions[k], r)
    ensures states[n].t.runs[r].status == Idle <==> FirstIsIdle(states, actions, n, r)
    ensures states[n].t.runs[r].status == Error <==> FirstIsError(states, actions, n, r)
  {
    hide Next, Inv, WouldEnd, FirstIsIdle, FirstIsError;
    InvAlways(states, actions, n);
    if n == 0 { return; }
    var s, a, s' := states[n - 1], actions[n - 1], states[n];
    NotDisabled(s', r);
    InvAlways(states, actions, n - 1);
    if r !in s.t.runs {
      NewIsActive(s, a, s', r);
      forall k | 0 <= k < n ensures !WouldEnd(states[k], actions[k], r) {
        NeverBefore(states, actions, n - 1, k, r);
        AbsentCannotEnd(states[k], actions[k], r);
      }
      FirstNow(states, actions, n - 1, r);
    } else {
      FirstDecides(states, actions, n - 1, r);
      SetMatches(s, a, s', r);
      if Active(s.t.runs[r].status) {
        FirstNow(states, actions, n - 1, r);
        if WouldEnd(s, a, r) { EndsBy(s, a, r); }
      } else {
        var k :| 0 <= k < n - 1 && WouldEnd(states[k], actions[k], r);
        FirstBefore(states, actions, n - 1, k, r);
      }
    }
  }
}
