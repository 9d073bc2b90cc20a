// The pipeline refines the database machine: whatever queues, workers and
// failures do, the database states that a behaviour visits form a behaviour of
// Lifecycle, so every theorem about Lifecycle holds for the whole system.
module Refinement {
  import opened Model
  import L = Lifecycle
  import S = Safety
  import opened Protocol

  // The database actions of the first n steps.
  ghost function DbActions(worlds: seq<World>, steps: seq<Step>, n: nat): seq<L.Action>
    requires n <= |steps| && n <= |worlds|
  {
    if n == 0 then []
    else
      var a := DbAction(worlds[n - 1], steps[n - 1]);
      DbActions(worlds, steps, n - 1) + if a.Some? then [a.value] else []
  }

  // Their states.
  ghost function DbStates(worlds: seq<World>, steps: seq<Step>, n: nat): seq<L.State>
    requires n <= |steps| && n < |worlds|
  {
    if n == 0 then [worlds[0].db]
    else
      DbStates(worlds, steps, n - 1) + if DbAction(worlds[n - 1], steps[n - 1]).Some? then [worlds[n].db] else []
  }

  lemma DbStep(c: Config, w: World, s: Step, w': World)
    requires NextWorld(c, w, s, w')
    ensures DbAction(w, s).None? ==> w'.db == w.db
    ensures DbAction(w, s).Some? ==> L.Next(w.db, DbAction(w, s).value, w'.db)
  {
    hide L.Effect;
  }

  lemma {:induction false} PipelineRefinesDatabase(c: Config, worlds: seq<World>, steps: seq<Step>, n: nat)
    requires Behaviour(c, worlds, steps) && n <= |steps|
    ensures L.Behaviour(DbStates(worlds, steps, n), DbActions(worlds, steps, n))
    ensures DbStates(worlds, steps, n)[|DbActions(worlds, steps, n)|] == worlds[n].db
  {
    hide NextWorld, L.Next, DbAction;
    if n > 0 {
      PipelineRefinesDatabase(c, worlds, steps, n - 1);
      DbStep(c, worlds[n - 1], steps[n - 1], worlds[n]);
      var a := DbAction(worlds[n - 1], steps[n - 1]);
      if a.Some? {
        L.BehaviourGrows(DbStates(worlds, steps, n - 1), DbActions(worlds, steps, n - 1), a.value, worlds[n].db);
      }
    }
  }

  // Two of the database theorems, read off for the whole system.
  lemma PipelineIsSafe(c: Config, worlds: seq<World>, steps: seq<Step>, n: nat, j: JobId)
    requires Behaviour(c, worlds, steps) && n <= |steps|
    ensures |ActiveRunsOf(worlds[n].db.t, j)| <= 1
    ensures j in worlds[n].db.t.schedules ==>
              |RunsOf(worlds[n].db.t, j)| ==
                worlds[n].db.t.schedules[j].doneRuns + |L.Swept(worlds[n].db, j)| + |ActiveRunsOf(worlds[n].db.t, j)|
  {
    hide L.Behaviour, NextWorld;
    PipelineRefinesDatabase(c, worlds, steps, n);
    var states, actions := DbStates(worlds, steps, n), DbActions(worlds, steps, n);
    S.MutualExclusion(states, actions, |actions|, j);
    if j in worlds[n].db.t.schedules { S.Conservation(states, actions, |actions|, j); }
  }
}
