// One tick of the scheduler: claim a batch, then publish every claimed run from its
// own goroutine, at most `maxPushers` of them at a time. The poller keeps the world
// of Protocol beside it as a ghost, and is proved to move it by steps of Protocol,
// between which all other processes take any steps of theirs.
module Scheduling {
  import opened Model
  import opened Sql
  import L = Lifecycle
  import W = Statements
  import opened Database
  import opened Protocol

  ghost predicate Path(c: Config, worlds: seq<World>, steps: seq<Step>) {
    && |worlds| == |steps| + 1
    && forall i {:trigger steps[i]} | 0 <= i < |steps| :: NextWorld(c, worlds[i], steps[i], worlds[i + 1])
  }

  lemma PathGrows(c: Config, worlds: seq<World>, steps: seq<Step>, s: Step, w: World)
    requires Path(c, worlds, steps) && NextWorld(c, worlds[|steps|], s, w)
    ensures Path(c, worlds + [w], steps + [s])
  {
    hide NextWorld;
    var longer, more := worlds + [w], steps + [s];
    forall i | 0 <= i < |more| ensures NextWorld(c, longer[i], more[i], longer[i + 1]) {
      if i < |steps| { assert NextWorld(c, worlds[i], steps[i], worlds[i + 1]); }
    }
  }

  lemma FreshMessage(messages: map<MsgId, Message>) returns (m: MsgId)
    ensures m !in messages
  {
    var bound: nat := 0;
    var rest := messages.Keys;
    while rest != {}
      invariant forall k | k in messages && k !in rest :: k.n < bound
      decreases |rest|
    {
      var k :| k in rest;
      if k.n >= bound { bound := k.n + 1; }
      rest := rest - {k};
    }
    m := MsgId(bound);
  }

  function AsSet(picks: seq<Pick>): (s: set<Pick>)
    ensures picks == [] ==> s == {}
  {
    set p | p in picks
  }

  lemma OneMore(runs: seq<Pick>, i: nat)
    requires i < |runs| && forall j, k | 0 <= j < k < |runs| :: runs[j] != runs[k]
    ensures runs[i] !in AsSet(runs[..i])
    ensures AsSet(runs[..i + 1]) == AsSet(runs[..i]) + {runs[i]}
  {
    assert runs[..i + 1] == runs[..i] + [runs[i]];
  }

  lemma InSet(runs: seq<Pick>, i: nat)
    requires i < |runs|
    ensures runs[i] in AsSet(runs)
  {
  }

  // The bookkeeping of one more start: x joins, and `more` of those running leave.
  lemma OneMoreStarted(first: set<Pick>, started: set<Pick>, tried: set<Pick>, more: set<Pick>, x: Pick)
    requires x !in first + started && tried <= first + started && more <= first + started - tried
    ensures tried !! more && tried + more <= first + (started + {x})
    ensures first + started - tried - more + {x} == first + (started + {x}) - (tried + more)
  {
  }

  // And of one more end.
  lemma OneMoreEnded(first: set<Pick>, held: set<Pick>, tried: set<Pick>, done: set<Pick>, one: set<Pick>)
    requires done <= first && one <= first - done
    ensures done + one <= first && first - done - one == first - (done + one)
    ensures held - done - one == held - (done + one) && tried + done + one == tried + (done + one)
  {
  }

  // ----------------------------------------------------- claims are taken once

  ghost predicate Known(w: World) {
    && (forall p | p in w.pending :: p.run in w.db.used)
    && (forall r | r in w.db.t.runs :: r in w.db.used)
  }

  // The steps by which a claim leaves the hands of its scheduler.
  predicate Takes(s: Step) {
    s.PublishFetch? || s.CrashScheduler?
  }

  // No claim was taken twice, and none that was taken is pending again.
  ghost predicate TakenOnce(w: World, steps: seq<Step>) {
    && (forall i | 0 <= i < |steps| && Takes(steps[i]) ::
          steps[i].pick !in w.pending && steps[i].pick.run in w.db.used)
    && (forall i, k | 0 <= i < k < |steps| && Takes(steps[i]) && Takes(steps[k]) :: steps[i].pick != steps[k].pick)
  }

  // Claims are only added for runs never used before.
  lemma PendingGrows(c: Config, w: World, s: Step)
    requires Known(w) && Enabled(c, w, s)
    ensures
      var w' := Apply(c, w, s);
      && w.db.used <= w'.db.used && Known(w')
      && (forall p | p in w'.pending && p !in w.pending :: p.run !in w.db.used)
      && (forall p | p in w.pending && p !in w'.pending :: Takes(s) && s.pick == p)
      && (Takes(s) ==> s.pick in w.pending && s.pick !in w'.pending)
  {
    hide L.Effect;
    if s.Claim? {
      PicksAreKnown(c, w, s);
    }
  }

  lemma PicksAreKnown(c: Config, w: World, s: Step)
    requires Known(w) && Enabled(c, w, s) && s.Claim?
    ensures s.a.Claim? && forall i | 0 <= i < |s.a.picks| ::
              s.a.picks[i].run !in w.db.used && s.a.picks[i].run in L.Apply(w.db, s.a).used
  {
    ClaimAllRuns(w.db.t, w.db.now, s.a.picks);
    var d := L.Apply(w.db, s.a);
    assert d.t == ClaimAll(w.db.t, w.db.now, s.a.picks) && d.used == w.db.used + d.t.runs.Keys;
    forall i | 0 <= i < |s.a.picks| ensures s.a.picks[i].run !in w.db.used && s.a.picks[i].run in d.used {
      assert s.a.picks[i].run in d.t.runs;
    }
  }

  lemma PendingIsKnown(w: World, p: Pick)
    requires Known(w) && p in w.pending
    ensures p.run in w.db.used
  {
  }

  lemma TakenOnceStep(c: Config, w: World, s: Step, steps: seq<Step>)
    requires Known(w) && Enabled(c, w, s) && TakenOnce(w, steps)
    ensures Known(Apply(c, w, s)) && TakenOnce(Apply(c, w, s), steps + [s])
  {
    hide Enabled, Apply, Known;
    PendingGrows(c, w, s);
    if Takes(s) { PendingIsKnown(w, s.pick); }
    var more := steps + [s];
    assert forall i | 0 <= i < |steps| :: more[i] == steps[i];
  }

  // Exactly one step took this claim, and it was an attempt to publish it.
  ghost predicate TriedOnce(steps: seq<Step>, p: Pick) {
    exists i | 0 <= i < |steps| ::
      steps[i].PublishFetch? && steps[i].pick == p
      && forall k | 0 <= k < |steps| && Takes(steps[k]) && steps[k].pick == p :: k == i
  }

  lemma TriedOnceStays(w: World, steps: seq<Step>, s: Step, p: Pick)
    requires TakenOnce(w, steps + [s]) && TriedOnce(steps, p)
    ensures TriedOnce(steps + [s], p)
  {
    var i :| 0 <= i < |steps| && steps[i].PublishFetch? && steps[i].pick == p;
    TriedHere(w, steps + [s], i);
  }

  lemma TriedHere(w: World, steps: seq<Step>, i: nat)
    requires TakenOnce(w, steps) && i < |steps| && steps[i].PublishFetch?
    ensures TriedOnce(steps, steps[i].pick)
  {
  }

  // ------------------------------------------------------------------- steps

  lemma PublishStep(c: Config, w: World, pick: Pick, m: MsgId, stored: bool)
    requires pick in w.pending && m !in w.messages
    ensures
      var s := PublishFetch(pick, m, stored);
      Enabled(c, w, s) && Apply(c, w, s).pending == w.pending - {pick}
  {
  }

  lemma CrashStep(c: Config, w: World, pick: Pick)
    requires pick in w.pending
    ensures
      var s := CrashScheduler(pick);
      && Enabled(c, w, s) && Apply(c, w, s).pending == w.pending - {pick}
      && Apply(c, w, s).log == w.log + [Lost(pick.run, SchedulerCrashed)]
  {
  }

  lemma ClaimStep(c: Config, w: World, batch: nat, locked: set<JobId>, picks: seq<Pick>, replied: bool)
    requires ValidPicks(w.db.t, w.db.now, batch, locked, picks)
    requires forall i | 0 <= i < |picks| :: picks[i].run !in w.db.used
    ensures
      var a := L.Claim(batch, locked, picks);
      var s := Step.Claim(a, replied);
      && Enabled(c, w, s)
      && Apply(c, w, s).db.t == L.Effect(w.db.t, w.db.now, a) && Apply(c, w, s).db.now == w.db.now
      && Apply(c, w, s).pending == if replied then w.pending + AsSet(picks) else w.pending
  {
  }

  class Poller {
    const db: Db
    const maxPushers: nat
    ghost const config: Config
    var running: set<Pick>      // goroutines that hold a token of the semaphore
    ghost var held: set<Pick>   // claims of this scheduler: running, or still to start
    ghost var tried: set<Pick>  // claims that it has tried to publish
    ghost var world: World
    ghost var worlds: seq<World>
    ghost var steps: seq<Step>

    ghost predicate Valid()
      reads this
    {
      && Path(config, worlds, steps) && worlds[|steps|] == world && Known(world) && TakenOnce(world, steps)
      && 1 <= maxPushers && |running| <= maxPushers && running <= held <= world.pending
      && (forall p | p in tried :: TriedOnce(steps, p) && p !in world.pending && p.run in world.db.used)
    }

    // The tables are those of the world at this moment.
    ghost predicate Synced()
      reads this, db
    {
      world.db.t == db.State() && world.db.now == db.now
    }

    // A scheduler that starts in any world.
    constructor (db: Db, maxPushers: nat, ghost config: Config, ghost world: World)
      requires 1 <= maxPushers && world.db.t == db.State() && world.db.now == db.now && Known(world)
      ensures Valid() && Synced() && this.db == db && this.maxPushers == maxPushers && this.config == config
      ensures this.world == world && running == {} && held == {} && tried == {} && steps == []
    {
      this.db, this.maxPushers, this.config := db, maxPushers, config;
      this.world, worlds, steps, running, held, tried := world, [world], [], {}, {}, {};
    }

    ghost predicate Consistent()
      reads this
    {
      && Path(config, worlds, steps) && worlds[|steps|] == world && Known(world) && TakenOnce(world, steps)
      && (forall p | p in tried :: TriedOnce(steps, p) && p !in world.pending && p.run in world.db.used)
    }

    ghost method Perform(s: Step)
      requires Consistent() && Enabled(config, world, s)
      modifies `world, `worlds, `steps
      ensures Consistent() && world == Apply(config, old(world), s) && steps == old(steps) + [s]
      ensures old(world).db.used <= world.db.used
      ensures forall p | p in old(world).pending && !(Takes(s) && s.pick == p) :: p in world.pending
    {
      hide Enabled, Apply, Known, TakenOnce, TriedOnce;
      var w := Apply(config, world, s);
      assert NextWorld(config, world, s, w);
      PathGrows(config, worlds, steps, s, w);
      PendingGrows(config, world, s);
      TakenOnceStep(config, world, s, steps);
      forall p | p in tried ensures TriedOnce(steps + [s], p) && p !in w.pending && p.run in w.db.used {
        TriedOnceStays(w, steps, s, p);
      }
      world, worlds, steps := w, worlds + [w], steps + [s];
    }

    // Any number of steps of all other processes, which publish or lose only claims
    // of their own; the tables move on as well.
    method Others()
      requires Valid()
      modifies db, `world, `worlds, `steps
      ensures Valid() && old(steps) <= steps
    {
      hide Enabled, Apply, Path, Known, TakenOnce, TriedOnce;
      db.Others();
      ghost var count: int := *;
      ghost var i := 0;
      while i < count
        invariant Valid() && old(steps) <= steps
      {
        ghost var s: Step := *;
        if Enabled(config, world, s) && !(Takes(s) && s.pick in held) { Perform(s); }
        i := i + 1;
      }
    }

    // Some running goroutine ends: one publish attempt, whose error is only logged,
    // and the token is released.
    method PublishJobIdToChannel() returns (ghost done: set<Pick>)
      requires Valid() && running != {}
      modifies db, `running, `held, `tried, `world, `worlds, `steps
      ensures Valid() && old(steps) <= steps && done <= old(running) && |done| == 1
      ensures running == old(running) - done && held == old(held) - done && tried == old(tried) + done
    {
      hide Enabled, Apply, Path, Known, TakenOnce, TriedOnce;
      Others();
      var run :| run in running;
      var stored: bool := *;
      ghost var m := FreshMessage(world.messages);
      PublishStep(config, world, run, m, stored);
      PendingIsKnown(world, run);
      Perform(PublishFetch(run, m, stored));
      TriedHere(world, steps, |steps| - 1);
      running, held, tried, done := running - {run}, held - {run}, tried + {run}, {run};
    }

    // Blocks while all tokens are taken: so many goroutines end first.
    method Acquire() returns (ghost done: set<Pick>)
      requires Valid()
      modifies db, `running, `held, `tried, `world, `worlds, `steps
      ensures Valid() && |running| < maxPushers && old(steps) <= steps && done <= old(running)
      ensures running == old(running) - done && held == old(held) - done && tried == old(tried) + done
    {
      assert 1 <= maxPushers;
      hide Valid, Path, Known, TakenOnce, TriedOnce;
      Others();
      done := {};
      while |running| >= maxPushers
        invariant Valid() && old(steps) <= steps && done <= old(running)
        invariant running == old(running) - done && held == old(held) - done && tried == old(tried) + done
        decreases |running|
      {
        ghost var one := PublishJobIdToChannel();
        OneMoreEnded(old(running), old(held), old(tried), done, one);
        done := done + one;
      }
    }

    // One goroutine more.
    method Start(run: Pick) returns (ghost done: set<Pick>)
      requires Valid() && run in held && run !in running
      modifies db, `running, `held, `tried, `world, `worlds, `steps
      ensures Valid() && old(steps) <= steps && done <= old(running)
      ensures running == old(running) - done + {run} && held == old(held) - done && tried == old(tried) + done
    {
      hide Path, Known, TakenOnce, TriedOnce;
      done := Acquire();
      assert run in held && run !in running;
      running := running + {run};
    }

    // The loop over the claimed runs.
    method StartAll(runs: seq<Pick>) returns (ghost done: set<Pick>)
      requires Valid() && held == running + AsSet(runs) && running !! AsSet(runs)
      requires forall i, k | 0 <= i < k < |runs| :: runs[i] != runs[k]
      modifies db, `running, `held, `tried, `world, `worlds, `steps
      ensures Valid() && old(steps) <= steps && done <= old(held)
      ensures running == held == old(held) - done && tried == old(tried) + done
    {
      hide Valid, Path, Known, TakenOnce, TriedOnce, AsSet;
      done := {};
      assert runs[..0] == [];
      ghost var started: set<Pick> := {};
      for i := 0 to |runs|
        invariant Valid() && old(steps) <= steps && started == AsSet(runs[..i])
        invariant done <= old(running) + started && running == old(running) + started - done
        invariant held == old(held) - done && tried == old(tried) + done
      {
        OneMore(runs, i);
        InSet(runs, i);
        ghost var more := Start(runs[i]);
        OneMoreStarted(old(running), started, done, more, runs[i]);
        done := done + more;
        started := started + {runs[i]};
      }
      assert runs[..|runs|] == runs;
    }

    // A claim yields no runs if it fails, or if only its reply is lost.
    method ClaimNextJobs(batch: nat, locked: set<JobId>, ids: seq<RunId>)
      returns (runs: seq<Pick>, ghost items: seq<Pick>, ghost reached: bool)
      requires Valid() && Synced() && |ids| == batch && forall i, k | 0 <= i < k < |ids| :: ids[i] != ids[k]
      requires forall i | 0 <= i < |ids| :: ids[i] !in world.db.used
      modifies db, `held, `world, `worlds, `steps
      ensures Valid() && Synced() && (runs == items || runs == []) && (db.reliable ==> reached && runs == items)
      ensures !reached ==> runs == [] && steps == old(steps) && db.State() == old(db.State())
      ensures reached ==>
                && ValidPicks(old(db.State()), old(db.now), batch, locked, items)
                && db.State() == L.Effect(old(db.State()), old(db.now), L.Claim(batch, locked, items))
                && exists replied :: steps == old(steps) + [Step.Claim(L.Claim(batch, locked, items), replied)]
                                     && runs == if replied then items else []
      ensures held == old(held) + AsSet(runs) && AsSet(runs) !! old(held)
      ensures forall i, k | 0 <= i < k < |runs| :: runs[i] != runs[k]
    {
      hide Enabled, Apply, Path, L.Effect, TakenOnce, TriedOnce, W.ClaimedRows, W.InsertedRuns;
      var sent: bool, answered: bool := *, *;
      if db.reliable { sent, answered := true, true; }
      runs, items, reached := [], [], sent;
      if sent {
        var rows := db.ClaimNextJobs(batch, locked, ids);
        items := rows;
        ClaimStep(config, world, batch, locked, items, answered);
        Perform(Step.Claim(L.Claim(batch, locked, items), answered));
        if answered {
          runs := rows;
          held := held + AsSet(runs);
        }
      }
    }

    // Every claimed run is handed to exactly one goroutine, and from there is either
    // still running or was tried, whatever all other processes do meanwhile. That a
    // tried claim was tried by exactly one step is part of Valid.
    method Tick(batch: nat, locked: set<JobId>, ids: seq<RunId>)
      returns (runs: seq<Pick>, ghost items: seq<Pick>, ghost reached: bool, ghost done: set<Pick>)
      requires Valid() && Synced() && held == running
      requires |ids| == batch && forall i, k | 0 <= i < k < |ids| :: ids[i] != ids[k]
      requires forall i | 0 <= i < |ids| :: ids[i] !in world.db.used
      modifies this, db
      ensures Valid() && held == running && (db.reliable ==> reached && runs == items)
      ensures !reached ==> runs == [] && old(steps) <= steps
      ensures reached ==>
                && ValidPicks(old(db.State()), old(db.now), batch, locked, items)
                && exists replied ::
                     && runs == (if replied then items else [])
                     && old(steps) + [Step.Claim(L.Claim(batch, locked, items), replied)] <= steps
      ensures tried == old(tried) + done && done <= old(running) + AsSet(runs)
      ensures running == old(running) + AsSet(runs) - done && AsSet(runs) !! old(running)
      ensures forall p | p in tried :: TriedOnce(steps, p)
    {
      hide L.Effect, ValidPicks, Path, Known, TakenOnce, TriedOnce, AsSet;
      runs, items, reached := ClaimNextJobs(batch, locked, ids);
      done := StartAll(runs);
    }

    // The process ends: every claim it still holds is lost.
    method Crash()
      requires Valid()
      modifies `running, `held, `world, `worlds, `steps
      ensures Valid() && running == {} && held == {} && old(steps) <= steps && |steps| == |old(steps)| + |old(held)|
      ensures forall i | |old(steps)| <= i < |steps| :: steps[i].CrashScheduler? && steps[i].pick in old(held)
      ensures forall p | p in old(held) :: Lost(p.run, SchedulerCrashed) in world.log
    {
      hide Enabled, Apply, Path, Known, TakenOnce, TriedOnce;
      running := {};
      while held != {}
        invariant Valid() && held <= old(held) && old(steps) <= steps
        invariant |steps| == |old(steps)| + |old(held)| - |held|
        invariant forall i | |old(steps)| <= i < |steps| :: steps[i].CrashScheduler? && steps[i].pick in old(held)
        invariant forall p | p in old(held) - held :: Lost(p.run, SchedulerCrashed) in world.log
        decreases |held|
      {
        ghost var p :| p in held;
        CrashStep(config, world, p);
        Perform(CrashScheduler(p));
        held := held - {p};
      }
    }
  }
}
