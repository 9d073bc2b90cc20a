// What a step of the whole pipeline does to each part of the world, and that
// messages, handlers and claims keep referring to runs that exist or existed.
module Pipeline {
  import opened Model
  import opened Sql
  import L = Lifecycle
  import opened Worker
  import opened Protocol

  // ------------------------------------------------------------------ database

  // Known runs keep their row or advance it; unknown runs may appear.
  ghost predicate RunsForward(s: L.State, s': L.State) {
    && s.used <= s'.used && (forall r | r in s'.t.runs :: r in s'.used)
    && (forall r | r in s.used && r in s'.t.runs ::
          && r in s.t.runs
          && (|| s'.t.runs[r] == s.t.runs[r]
              || (Active(s.t.runs[r].status) && Rank(s'.t.runs[r].status) > Rank(s.t.runs[r].status))))
  }

  lemma EvolveForward(s: L.State, a: L.Action, s': L.State)
    requires L.RunsEvolve(s, a, s') && L.MemoryEvolves(s, a, s')
    ensures RunsForward(s, s')
  {
    forall r | r in s.used && r in s'.t.runs
      ensures r in s.t.runs
      ensures s'.t.runs[r] == s.t.runs[r]
           || (Active(s.t.runs[r].status) && Rank(s'.t.runs[r].status) > Rank(s.t.runs[r].status))
    {
      if r in s.t.runs { assert L.RowEvolves(s.t.runs[r], s'.t.runs[r], s.now); }
    }
  }

  lemma ActionForward(s: L.State, a: L.Action, s': L.State)
    requires L.Inv(s) && L.Next(s, a, s')
    ensures L.Inv(s') && RunsForward(s, s')
  {
    hide L.Next, L.Inv, L.RunsEvolve, L.SchedulesEvolve, L.MemoryEvolves, RunsForward;
    L.InvStep(s, a, s');
    EvolveForward(s, a, s');
  }

  lemma DbForward(c: Config, w: World, s: Step, w': World)
    requires L.Inv(w.db) && NextWorld(c, w, s, w')
    ensures L.Inv(w'.db) && RunsForward(w.db, w'.db)
    ensures DbAction(w, s).None? ==> w'.db == w.db
    ensures DbAction(w, s).Some? ==> L.Next(w.db, DbAction(w, s).value, w'.db)
  {
    var a := DbAction(w, s);
    if a.Some? { ActionForward(w.db, a.value, w'.db); }
  }

  lemma StatusWritten(c: Config, w: World, s: Step, w': World)
    requires NextWorld(c, w, s, w') && s.Act? && s.e.SetRunStatus? && s.took
    ensures SetRunMatches(w.db.t, s.e.status, w.handlers[s.h].run, w.handlers[s.h].job)
    ensures w.handlers[s.h].run in w'.db.t.runs && w'.db.t.runs[w.handlers[s.h].run].status == s.e.status
  {
  }

  lemma OnlyHandlersWrite(c: Config, w: World, s: Step, w': World)
    requires NextWorld(c, w, s, w')
    ensures DbAction(w, s).Some? && DbAction(w, s).value.SetStatus? ==>
              && s.Act? && s.h in w.handlers && s.e.SetRunStatus?
              && DbAction(w, s).value == L.SetStatus(s.e.status, w.handlers[s.h].run, w.handlers[s.h].job)
  {
    hide L.Apply, Next;
  }

  // Fetching, delivering and idle only ever come from a worker's write.
  lemma StatusIsWritten(d: L.State, a: L.Action, d': L.State, r: RunId, status: Status)
    requires L.Inv(d) && L.Next(d, a, d') && status != Scheduled && status != Error
    requires r in d'.t.runs && d'.t.runs[r].status == status && !(r in d.t.runs && d.t.runs[r].status == status)
    ensures a.SetStatus? && a.run == r && a.status == status
  {
    hide L.Inv, L.Next, L.SchedulesEvolve, L.MemoryEvolves;
    L.InvStep(d, a, d');
    if r in d.t.runs { assert L.RowEvolves(d.t.runs[r], d'.t.runs[r], d.now); }
    if a.Reset? { ResetOnlyEnds(d, a, d', r); }
  }

  lemma ResetOnlyEnds(d: L.State, a: L.Action, d': L.State, r: RunId)
    requires L.Next(d, a, d') && a.Reset? && r in d'.t.runs
    ensures r in d.t.runs && (d'.t.runs[r] == d.t.runs[r] || d'.t.runs[r].status.Error?)
  {
  }

  lemma OkMeansTaken(c: Config, w: World, s: Step, w': World)
    requires NextWorld(c, w, s, w') && s.Act? && (s.e.SetRunStatus? || s.e.Publish?) && s.e.ok
    ensures s.took
  {
  }

  lemma NewRunsArePicked(c: Config, w: World, s: Step, w': World, r: RunId)
    requires L.Inv(w.db) && NextWorld(c, w, s, w') && r in w'.db.t.runs && r !in w.db.t.runs
    ensures s.Claim? && exists i | 0 <= i < |s.a.picks| :: s.a.picks[i].run == r
  {
    hide L.Inv, L.Next, L.Apply, L.RunsEvolve, L.SchedulesEvolve, L.MemoryEvolves;
    DbForward(c, w, s, w');
    var a := DbAction(w, s).value;
    L.InvStep(w.db, a, w'.db);
    L.NewRunIsPicked(w.db, a, w'.db, r);
  }

  // ---------------------------------------------------------------- references

  ghost predicate HandlerOk(c: Config, w: World, hd: Handler) {
    && hd.msg in w.messages
    && var m := w.messages[hd.msg];
       && m.run == hd.run && m.job == hd.job && m.stage == hd.local.given.stage
       && m.body == hd.local.given.input && hd.local.given.wellFormed
       && LocalInv(PolicyOf(c, m.stage), hd.local)
  }

  ghost predicate RefsOk(c: Config, w: World) {
    && (forall m | m in w.messages :: w.messages[m].run in w.db.used)
    && (forall p | p in w.pending :: p.run in w.db.used)
    && (forall h | h in w.handlers :: HandlerOk(c, w, w.handlers[h]))
  }

  // Messages keep what identifies them; new ones come from the two publishers.
  ghost predicate MessagesEvolve(w: World, s: Step, w': World) {
    && (forall m | m in w.messages ::
          && m in w'.messages
          && w'.messages[m] == w.messages[m].(delivered := w'.messages[m].delivered, live := w'.messages[m].live)
          && (w'.messages[m].live ==> w.messages[m].live))
    && (forall m | m in w'.messages && m !in w.messages ::
          || (s.PublishFetch? && s.stored && m == s.msg
              && w'.messages[m] == Message(Fetch, s.pick.job, s.pick.run, "", 0, true))
          || (s.Act? && s.e.Publish? && s.took && m == s.newMsg && s.h in w.handlers
              && w'.messages[m] == Message(Delivery, w.handlers[s.h].job, w.handlers[s.h].run, s.e.body, 0, true)))
  }

  ghost predicate HandlersEvolve(c: Config, w: World, s: Step, w': World) {
    && (forall h | h in w.handlers ::
          && h in w'.handlers
          && if s.Act? && s.h == h then
               var p := PolicyOf(c, w.handlers[h].local.given.stage);
               && Next(p, w.handlers[h].local, s.e).Some?
               && w'.handlers[h] == w.handlers[h].(local := Next(p, w.handlers[h].local, s.e).value)
             else w'.handlers[h] == w.handlers[h])
    && (forall h | h in w'.handlers && h !in w.handlers ::
          && s.Deliver? && s.h == h && s.msg in w.messages
          && var m := w.messages[s.msg];
             w'.handlers[h] == Handler(s.msg, m.job, m.run, DeliveredLocal(c, m, s.metadata, s.start)))
  }

  lemma MessagesStep(c: Config, w: World, s: Step, w': World)
    requires NextWorld(c, w, s, w')
    ensures MessagesEvolve(w, s, w')
  {
    hide L.Apply, L.Enabled, Next, DeliveredLocal, ActedLog;
  }

  lemma HandlersStep(c: Config, w: World, s: Step, w': World)
    requires NextWorld(c, w, s, w')
    ensures HandlersEvolve(c, w, s, w')
  {
    hide L.Apply, L.Enabled, Next, DeliveredLocal, ActedLog, ActedMessages;
  }

  lemma PartsEvolve(c: Config, w: World, s: Step, w': World)
    requires NextWorld(c, w, s, w')
    ensures MessagesEvolve(w, s, w') && HandlersEvolve(c, w, s, w')
  {
    hide NextWorld, MessagesEvolve, HandlersEvolve;
    MessagesStep(c, w, s, w');
    HandlersStep(c, w, s, w');
  }

  lemma RefsStep(c: Config, w: World, s: Step, w': World)
    requires L.Inv(w.db) && RefsOk(c, w) && NextWorld(c, w, s, w')
    ensures RefsOk(c, w')
  {
    DbForward(c, w, s, w');
    PartsEvolve(c, w, s, w');
    PendingKnown(c, w, s, w');
    forall h | h in w'.handlers ensures HandlerOk(c, w', w'.handlers[h]) {
      HandlerStaysOk(c, w, s, w', h);
    }
    forall m | m in w'.messages ensures w'.messages[m].run in w'.db.used {
      if m !in w.messages && s.Act? { assert HandlerOk(c, w, w.handlers[s.h]); }
    }
  }

  lemma PendingKnown(c: Config, w: World, s: Step, w': World)
    requires L.Inv(w.db) && RefsOk(c, w) && NextWorld(c, w, s, w')
    ensures forall p | p in w'.pending :: p.run in w'.db.used
  {
    DbForward(c, w, s, w');
    if s.Claim? {
      ClaimAllRuns(w.db.t, w.db.now, s.a.picks);
    }
  }

  lemma HandlerStaysOk(c: Config, w: World, s: Step, w': World, h: HandlerId)
    requires RefsOk(c, w) && MessagesEvolve(w, s, w') && HandlersEvolve(c, w, s, w') && h in w'.handlers
    ensures HandlerOk(c, w', w'.handlers[h])
  {
    hide Next;
    if h in w.handlers {
      assert HandlerOk(c, w, w.handlers[h]);
      if s.Act? && s.h == h {
        LocalInvStep(PolicyOf(c, w.handlers[h].local.given.stage), w.handlers[h].local, s.e);
      }
    } else {
      var m := w.messages[s.msg];
      var l := DeliveredLocal(c, m, s.metadata, s.start);
      LocalInvAlways(PolicyOf(c, m.stage), l, []);
    }
  }

  lemma {:induction false} RefsAlways(c: Config, worlds: seq<World>, steps: seq<Step>, n: nat)
    requires Behaviour(c, worlds, steps) && n <= |steps|
    ensures L.Inv(worlds[n].db) && RefsOk(c, worlds[n])
  {
    hide NextWorld;
    if n > 0 {
      hide RefsOk, L.Inv;
      RefsAlways(c, worlds, steps, n - 1);
      DbForward(c, worlds[n - 1], steps[n - 1], worlds[n]);
      RefsStep(c, worlds[n - 1], steps[n - 1], worlds[n]);
    }
  }

  // ----------------------------------------------------------------------- log

  // The log only grows: by the event of a handler, if one acted, then by losses.
  ghost predicate LogEvolves(w: World, s: Step, w': World) {
    var n := |w.log|;
    && n <= |w'.log| && w'.log[..n] == w.log
    && (s.Act? ==>
          && s.h in w.handlers && n < |w'.log|
          && w'.log[n] == Did(s.h, w.handlers[s.h].local.given.stage, w.handlers[s.h].run, s.e))
    && (forall i | n + (if s.Act? then 1 else 0) <= i < |w'.log| :: w'.log[i].Lost?)
  }

  lemma LogStep(c: Config, w: World, s: Step, w': World)
    requires NextWorld(c, w, s, w')
    ensures LogEvolves(w, s, w')
  {
    hide L.Apply, L.Enabled, Next;
    assert w.log <= w'.log;
  }
}
