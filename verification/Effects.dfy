// Bounded effects: however often messages are redelivered and however many workers
// race, a run passes each gate at most once, and so causes a bounded number of
// HTTP requests and of publications.
module Effects {
  import opened Model
  import L = Lifecycle
  import opened Retry
  import opened Worker
  import opened Protocol
  import opened Pipeline

  // What is counted in the log: passing a gate, making an HTTP request, trying to
  // publish.
  datatype Tally = GatePass | HttpRequest | Publication

  predicate Counts(t: Tally, stage: Stage, e: Event) {
    match t
    case GatePass => e == SetRunStatus(GateStatus(stage), true)
    case HttpRequest => e.Send?
    case Publication => e.Publish?
  }

  function Count(log: seq<Entry>, t: Tally, stage: Stage, run: RunId): nat {
    if log == [] then 0
    else
      var x := log[|log| - 1];
      Count(log[..|log| - 1], t, stage, run)
      + if x.Did? && x.stage == stage && x.run == run && Counts(t, stage, x.e) then 1 else 0
  }

  lemma {:induction false} LossesDoNotCount(log: seq<Entry>, n: nat, t: Tally, stage: Stage, run: RunId)
    requires n <= |log| && forall i | n <= i < |log| :: log[i].Lost?
    ensures Count(log, t, stage, run) == Count(log[..n], t, stage, run)
  {
    if n == |log| {
      assert log[..n] == log;
    } else {
      var front := log[..|log| - 1];
      LossesDoNotCount(front, n, t, stage, run);
      assert front[..n] == log[..n];
    }
  }

  // Only an event of a handler moves a tally, and then by at most one.
  lemma CountStep(w: World, s: Step, w': World, t: Tally, stage: Stage, run: RunId)
    requires LogEvolves(w, s, w')
    ensures Count(w'.log, t, stage, run) == Count(w.log, t, stage, run) +
      if s.Act? && w.handlers[s.h].local.given.stage == stage && w.handlers[s.h].run == run
          && Counts(t, stage, s.e) then 1 else 0
  {
    var n := |w.log|;
    if s.Act? {
      LossesDoNotCount(w'.log, n + 1, t, stage, run);
      assert w'.log[..n + 1][..n] == w.log;
    } else {
      LossesDoNotCount(w'.log, n, t, stage, run);
    }
  }

  // ---------------------------------------------------------------------- gates

  // Handler h has passed the gate of its stage for this run.
  predicate Gated(w: World, h: HandlerId, stage: Stage, run: RunId) {
    && h in w.handlers && w.handlers[h].run == run
    && w.handlers[h].local.given.stage == stage && !w.handlers[h].local.needStatus
  }

  predicate PastGate(w: World, stage: Stage, run: RunId) {
    run in w.db.t.runs ==> Rank(w.db.t.runs[run].status) >= Rank(GateStatus(stage))
  }

  ghost predicate GatesOk(w: World) {
    && (forall h, stage, run | Gated(w, h, stage, run) :: PastGate(w, stage, run))
    && (forall h, g, stage, run | Gated(w, h, stage, run) && Gated(w, g, stage, run) :: h == g)
  }

  function TallyOf(l: Local, t: Tally): nat {
    match t
    case GatePass => 1
    case HttpRequest => l.sends
    case Publication => l.publishes
  }

  // What one event of a handler adds to each tally.
  lemma LocalTally(p: Policy, l: Local, e: Event, t: Tally)
    requires LocalInv(p, l) && Next(p, l, e).Some?
    ensures
      var m := Next(p, l, e).value;
      && (l.needStatus && !m.needStatus <==> Counts(GatePass, l.given.stage, e))
      && (!l.needStatus ==>
            && !m.needStatus
            && TallyOf(m, t) == TallyOf(l, t) + if Counts(t, l.given.stage, e) then 1 else 0)
      && (l.needStatus && m.needStatus ==> !Counts(t, l.given.stage, e))
      && (l.needStatus && !m.needStatus ==> TallyOf(m, t) == if Counts(t, l.given.stage, e) then 1 else 0)
  {
    hide FitDelay, Proposed, PcAfter;
  }

  lemma NewlyGated(c: Config, w: World, s: Step, w': World, h: HandlerId, stage: Stage, run: RunId)
    requires RefsOk(c, w) && NextWorld(c, w, s, w') && Gated(w', h, stage, run) && !Gated(w, h, stage, run)
    ensures s.Act? && s.h == h && h in w.handlers && w.handlers[h].run == run
        && w.handlers[h].local.given.stage == stage
    ensures s.e == SetRunStatus(GateStatus(stage), true) && w.handlers[h].local.needStatus
    ensures run in w.db.t.runs && Rank(w.db.t.runs[run].status) < Rank(GateStatus(stage)) && PastGate(w', stage, run)
  {
    hide Next, L.Apply, LocalInv, NextWorld;
    PartsEvolve(c, w, s, w');
    var hd := w.handlers[h];
    assert HandlerOk(c, w, hd);
    var p := PolicyOf(c, hd.local.given.stage);
    LocalTally(p, hd.local, s.e, GatePass);
    LocalInvStep(p, hd.local, s.e);
    OkMeansTaken(c, w, s, w');
    StatusWritten(c, w, s, w');
  }

  lemma GatesStep(c: Config, w: World, s: Step, w': World)
    requires L.Inv(w.db) && RefsOk(c, w) && GatesOk(w) && NextWorld(c, w, s, w')
    ensures GatesOk(w')
  {
    hide L.Inv, NextWorld, LocalInv, L.Next;
    DbForward(c, w, s, w');
    forall h, stage, run | Gated(w', h, stage, run)
      ensures PastGate(w', stage, run)
      ensures !Gated(w, h, stage, run) ==>
                run in w.db.t.runs && Rank(w.db.t.runs[run].status) < Rank(GateStatus(stage)) && s.Act? && s.h == h
    {
      if Gated(w, h, stage, run) {
        assert HandlerOk(c, w, w.handlers[h]);
        assert PastGate(w, stage, run) && run in w.db.used;
      } else {
        NewlyGated(c, w, s, w', h, stage, run);
      }
    }
    forall h, g, stage, run | Gated(w', h, stage, run) && Gated(w', g, stage, run) ensures h == g {
      if Gated(w, h, stage, run) { assert PastGate(w, stage, run); }
      if Gated(w, g, stage, run) { assert PastGate(w, stage, run); }
    }
  }

  // -------------------------------------------------------------------- tallies

  // Everything a run has caused at a stage was caused by the one handler behind
  // the gate.
  ghost predicate TallyOk(w: World, t: Tally, stage: Stage, run: RunId) {
    && (forall h | Gated(w, h, stage, run) :: Count(w.log, t, stage, run) == TallyOf(w.handlers[h].local, t))
    && ((forall h :: !Gated(w, h, stage, run)) ==> Count(w.log, t, stage, run) == 0)
  }

  ghost predicate TalliesOk(w: World) {
    forall t, stage, run :: TallyOk(w, t, stage, run)
  }

  lemma NoneGatedBefore(c: Config, w: World, s: Step, w': World, h: HandlerId, stage: Stage, run: RunId)
    requires RefsOk(c, w) && GatesOk(w) && NextWorld(c, w, s, w')
    requires Gated(w', h, stage, run) && !Gated(w, h, stage, run)
    ensures forall g :: !Gated(w, g, stage, run)
  {
    hide NextWorld, LocalInv;
    NewlyGated(c, w, s, w', h, stage, run);
    assert !PastGate(w, stage, run);
  }

  // The acting handler's own tally.
  lemma OwnTally(c: Config, w: World, s: Step, w': World, t: Tally, stage: Stage, run: RunId)
    requires RefsOk(c, w) && GatesOk(w) && NextWorld(c, w, s, w') && s.Act? && s.h in w.handlers
    requires TallyOk(w, t, stage, run) && HandlersEvolve(c, w, s, w') && LogEvolves(w, s, w')
    ensures Gated(w', s.h, stage, run) ==> Count(w'.log, t, stage, run) == TallyOf(w'.handlers[s.h].local, t)
    ensures !Gated(w', s.h, stage, run) ==>
        !Gated(w, s.h, stage, run) && Count(w'.log, t, stage, run) == Count(w.log, t, stage, run)
  {
    hide LocalInv, NextWorld, Next, LogEvolves, GatesOk;
    CountStep(w, s, w', t, stage, run);
    var hd := w.handlers[s.h];
    assert HandlerOk(c, w, hd);
    var p := PolicyOf(c, hd.local.given.stage);
    LocalTally(p, hd.local, s.e, t);
    LocalInvStep(p, hd.local, s.e);
    if Gated(w', s.h, stage, run) && !Gated(w, s.h, stage, run) {
      NoneGatedBefore(c, w, s, w', s.h, stage, run);
    }
  }

  lemma TallyActs(c: Config, w: World, s: Step, w': World, t: Tally, stage: Stage, run: RunId)
    requires RefsOk(c, w) && GatesOk(w) && GatesOk(w') && NextWorld(c, w, s, w') && s.Act? && s.h in w.handlers
    requires TallyOk(w, t, stage, run) && HandlersEvolve(c, w, s, w') && LogEvolves(w, s, w')
    ensures TallyOk(w', t, stage, run)
  {
    hide RefsOk, NextWorld, Next, LogEvolves, PastGate;
    OwnTally(c, w, s, w', t, stage, run);
    assert forall g | g != s.h :: Gated(w', g, stage, run) == Gated(w, g, stage, run);
  }

  lemma TallyRests(c: Config, w: World, s: Step, w': World, t: Tally, stage: Stage, run: RunId)
    requires RefsOk(c, w) && !s.Act?
    requires TallyOk(w, t, stage, run) && HandlersEvolve(c, w, s, w') && LogEvolves(w, s, w')
    ensures TallyOk(w', t, stage, run)
  {
    hide LocalInv, Next, LogEvolves;
    CountStep(w, s, w', t, stage, run);
    assert forall g :: Gated(w', g, stage, run) == Gated(w, g, stage, run);
  }

  // Delivery messages of a run come from its publications.
  function DeliveryMessages(w: World, run: RunId): set<MsgId> {
    set m | m in w.messages && w.messages[m].stage.Delivery? && w.messages[m].run == run
  }

  ghost predicate MessagesCounted(w: World) {
    forall run :: |DeliveryMessages(w, run)| <= Count(w.log, Publication, Fetch, run)
  }

  lemma FetchersPublish(p: Policy, l: Local, e: Event)
    requires LocalInv(p, l) && Next(p, l, e).Some? && e.Publish?
    ensures l.given.stage.Fetch?
  {
    hide FitDelay, Proposed, PcAfter;
  }

  lemma NewDelivery(c: Config, w: World, s: Step, w': World, m: MsgId)
    requires RefsOk(c, w) && MessagesEvolve(w, s, w') && HandlersEvolve(c, w, s, w')
    requires m in w'.messages && m !in w.messages && w'.messages[m].stage.Delivery?
    ensures s.Act? && s.e.Publish? && m == s.newMsg && s.h in w.handlers
    ensures w.handlers[s.h].local.given.stage.Fetch? && w.handlers[s.h].run == w'.messages[m].run
  {
    hide LocalInv, Next;
    var hd := w.handlers[s.h];
    assert HandlerOk(c, w, hd);
    FetchersPublish(PolicyOf(c, hd.local.given.stage), hd.local, s.e);
  }

  lemma MessagesCountedStep(c: Config, w: World, s: Step, w': World)
    requires RefsOk(c, w) && MessagesCounted(w)
    requires MessagesEvolve(w, s, w') && HandlersEvolve(c, w, s, w') && LogEvolves(w, s, w')
    ensures MessagesCounted(w')
  {
    hide RefsOk, HandlersEvolve, LogEvolves, Count, MessagesEvolve;
    forall run ensures |DeliveryMessages(w', run)| <= Count(w'.log, Publication, Fetch, run) {
      CountStep(w, s, w', Publication, Fetch, run);
      var before, after := DeliveryMessages(w, run), DeliveryMessages(w', run);
      DeliveriesStay(w, s, w', run);
      var added := after - before;
      assert after == before + added;
      forall m | m in added ensures s.Act? && m == s.newMsg {
        NewDelivery(c, w, s, w', m);
      }
      if added != {} {
        var m :| m in added;
        NewDelivery(c, w, s, w', m);
        assert added == {m};
      }
    }
  }

  lemma DeliveriesStay(w: World, s: Step, w': World, run: RunId)
    requires MessagesEvolve(w, s, w')
    ensures DeliveryMessages(w, run) <= DeliveryMessages(w', run)
    ensures forall m | m in w.messages && m in DeliveryMessages(w', run) :: m in DeliveryMessages(w, run)
  {
  }

  ghost predicate EffectsInv(c: Config, w: World) {
    L.Inv(w.db) && RefsOk(c, w) && GatesOk(w) && TalliesOk(w) && MessagesCounted(w)
  }

  lemma EffectsStep(c: Config, w: World, s: Step, w': World)
    requires EffectsInv(c, w) && NextWorld(c, w, s, w')
    ensures EffectsInv(c, w')
  {
    hide L.Inv, RefsOk, GatesOk, NextWorld, TallyOk, MessagesCounted;
    DbForward(c, w, s, w');
    RefsStep(c, w, s, w');
    GatesStep(c, w, s, w');
    PartsEvolve(c, w, s, w');
    LogStep(c, w, s, w');
    MessagesCountedStep(c, w, s, w');
    forall t, stage, run ensures TallyOk(w', t, stage, run) {
      assert TallyOk(w, t, stage, run);
      if s.Act? { TallyActs(c, w, s, w', t, stage, run); } else { TallyRests(c, w, s, w', t, stage, run); }
    }
  }

  lemma {:induction false} EffectsAlways(c: Config, worlds: seq<World>, steps: seq<Step>, n: nat)
    requires Behaviour(c, worlds, steps) && n <= |steps|
    ensures EffectsInv(c, worlds[n])
  {
    hide NextWorld;
    if n > 0 {
      EffectsAlways(c, worlds, steps, n - 1);
      EffectsStep(c, worlds[n - 1], steps[n - 1], worlds[n]);
    }
  }

  function Max(x: int, y: int): int {
    if x >= y then x else y
  }

  lemma StageBound(c: Config, w: World, stage: Stage, run: RunId)
    requires EffectsInv(c, w)
    ensures Count(w.log, GatePass, stage, run) <= 1
    ensures Count(w.log, HttpRequest, stage, run) <= Max(0, PolicyOf(c, stage).maxAttempts)
    ensures Count(w.log, Publication, stage, run) <= Count(w.log, HttpRequest, stage, run)
    ensures stage.Delivery? ==> Count(w.log, Publication, stage, run) == 0
    ensures 0 !in PolicyOf(c, stage).retryOn ==> Count(w.log, Publication, stage, run) <= 1
  {
    hide Count, L.Inv, OutcomeInv;
    assert TallyOk(w, GatePass, stage, run) && TallyOk(w, HttpRequest, stage, run);
    assert TallyOk(w, Publication, stage, run);
    if h :| Gated(w, h, stage, run) {
      assert HandlerOk(c, w, w.handlers[h]);
    }
  }

  // Over all deliveries of all messages of a run, by any number of workers.
  lemma EffectBound(c: Config, worlds: seq<World>, steps: seq<Step>, n: nat, stage: Stage, run: RunId)
    requires Behaviour(c, worlds, steps) && n <= |steps|
    ensures Count(worlds[n].log, GatePass, stage, run) <= 1
    ensures Count(worlds[n].log, HttpRequest, stage, run) <= Max(0, PolicyOf(c, stage).maxAttempts)
    ensures Count(worlds[n].log, Publication, stage, run) <= Count(worlds[n].log, HttpRequest, stage, run)
    ensures stage.Delivery? ==> Count(worlds[n].log, Publication, stage, run) == 0
    ensures 0 !in PolicyOf(c, stage).retryOn ==> Count(worlds[n].log, Publication, stage, run) <= 1
    ensures |DeliveryMessages(worlds[n], run)| <= Count(worlds[n].log, Publication, Fetch, run)
  {
    hide NextWorld, Count;
    EffectsAlways(c, worlds, steps, n);
    hide EffectsInv;
    StageBound(c, worlds[n], stage, run);
  }
}
