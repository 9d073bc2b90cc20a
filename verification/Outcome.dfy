// What an idle run means end to end: its source answered acceptably, exactly that
// answer was sent to its target, and the target answered acceptably too.
module Outcome {
  import opened Model
  import L = Lifecycle
  import opened Retry
  import opened Worker
  import opened Protocol
  import opened Pipeline
  import O = Order

  // Entry k is a request to the target made by handler h.
  predicate SentBy(log: seq<Entry>, k: nat, h: HandlerId, run: RunId) {
    k < |log| && log[k].Did? && log[k].h == h && log[k].stage.Delivery? && log[k].run == run && log[k].e.Send?
  }

  // Entry i is the non-retryable response of the target to the handler that sent
  // entry k.
  ghost predicate DeliveredAt(c: Config, log: seq<Entry>, k: nat, i: nat, run: RunId) {
    && k < i < |log|
    && log[i].Did? && log[i].stage.Delivery? && log[i].run == run
    && log[i].e.Reply? && !log[i].e.failed && log[i].e.code !in c.delivery.retryOn
    && SentBy(log, k, log[i].h, run)
  }

  ghost predicate Delivered(c: Config, log: seq<Entry>, run: RunId) {
    exists k: nat, i: nat :: DeliveredAt(c, log, k, i, run)
  }

  lemma DeliveredLonger(c: Config, log: seq<Entry>, longer: seq<Entry>, run: RunId)
    requires log <= longer && Delivered(c, log, run)
    ensures Delivered(c, longer, run)
  {
    var k: nat, i: nat :| DeliveredAt(c, log, k, i, run);
    assert DeliveredAt(c, longer, k, i, run);
  }

  ghost predicate Reached(c: Config, log: seq<Entry>, h: HandlerId, hd: Handler) {
    hd.local.given.stage.Delivery? ==>
      && (hd.local.pc.Waiting? ==> exists k: nat :: SentBy(log, k, h, hd.run))
      && (hd.local.pc.Replied? ==> Delivered(c, log, hd.run))
  }

  ghost predicate OutcomeOk(c: Config, w: World) {
    && (forall h | h in w.handlers :: Reached(c, w.log, h, w.handlers[h]))
    && (forall r | r in w.db.t.runs && w.db.t.runs[r].status.Idle? :: Delivered(c, w.log, r))
  }

  lemma DeliveryOrder(p: Policy, l: Local, e: Event)
    requires LocalInv(p, l) && Next(p, l, e).Some?
    ensures var m := Next(p, l, e).value;
      && m.given == l.given
      && (m.pc.Waiting? ==> e.Send?)
      && (m.pc.Replied? ==> l.pc.Waiting? && e.Reply? && !e.failed && e.code !in p.retryOn)
      && (e.SetRunStatus? && e.status == Idle ==> l.pc.Replied? && l.given.stage.Delivery?)
  {
    hide FitDelay, Proposed;
  }

  lemma ActorReaches(c: Config, w: World, s: Step, w': World)
    requires RefsOk(c, w) && HandlersEvolve(c, w, s, w') && LogEvolves(w, s, w')
    requires s.Act? && s.h in w.handlers && Reached(c, w.log, s.h, w.handlers[s.h])
    ensures Reached(c, w'.log, s.h, w'.handlers[s.h])
    ensures s.e.SetRunStatus? && s.e.status == Idle ==> Delivered(c, w.log, w.handlers[s.h].run)
  {
    hide LocalInv, Next;
    var hd, n := w.handlers[s.h], |w.log|;
    assert HandlerOk(c, w, hd);
    DeliveryOrder(PolicyOf(c, hd.local.given.stage), hd.local, s.e);
    var hd' := w'.handlers[s.h];
    if hd.local.given.stage.Delivery? {
      if hd'.local.pc.Waiting? { assert SentBy(w'.log, n, s.h, hd.run); }
      if hd'.local.pc.Replied? {
        var k: nat :| SentBy(w.log, k, s.h, hd.run);
        assert w'.log[k] == w'.log[..n][k];
        assert DeliveredAt(c, w'.log, k, n, hd.run);
      }
    }
  }

  lemma OthersReached(c: Config, w: World, s: Step, w': World, h: HandlerId)
    requires OutcomeOk(c, w) && HandlersEvolve(c, w, s, w') && w.log <= w'.log
    requires h in w'.handlers && !(s.Act? && s.h == h)
    ensures Reached(c, w'.log, h, w'.handlers[h])
  {
    hide Next;
    if h in w.handlers && w.handlers[h].local.given.stage.Delivery? {
      var hd := w.handlers[h];
      assert Reached(c, w.log, h, hd);
      if hd.local.pc.Waiting? {
        var k: nat :| SentBy(w.log, k, h, hd.run);
        assert SentBy(w'.log, k, h, hd.run);
      }
      if hd.local.pc.Replied? { DeliveredLonger(c, w.log, w'.log, hd.run); }
    }
  }

  lemma IdleIsDelivered(c: Config, w: World, s: Step, w': World, r: RunId)
    requires L.Inv(w.db) && RefsOk(c, w) && OutcomeOk(c, w) && NextWorld(c, w, s, w')
    requires HandlersEvolve(c, w, s, w') && LogEvolves(w, s, w')
    requires r in w'.db.t.runs && w'.db.t.runs[r].status.Idle?
    ensures Delivered(c, w'.log, r)
  {
    hide L.Inv, RefsOk, NextWorld, HandlersEvolve, Delivered, Reached, L.Next, DbAction;
    assert w.log <= w'.log;
    if !(r in w.db.t.runs && w.db.t.runs[r].status.Idle?) {
      DbForward(c, w, s, w');
      StatusIsWritten(w.db, DbAction(w, s).value, w'.db, r, Idle);
      OnlyHandlersWrite(c, w, s, w');
      ActorReaches(c, w, s, w');
    }
    DeliveredLonger(c, w.log, w'.log, r);
  }

  lemma OutcomeStep(c: Config, w: World, s: Step, w': World)
    requires L.Inv(w.db) && RefsOk(c, w) && OutcomeOk(c, w) && NextWorld(c, w, s, w')
    ensures OutcomeOk(c, w')
  {
    hide L.Inv, RefsOk, NextWorld, HandlersEvolve, MessagesEvolve, LogEvolves, Delivered, Reached;
    PartsEvolve(c, w, s, w');
    LogStep(c, w, s, w');
    assert w.log <= w'.log by { LogIsPrefix(w, s, w'); }
    forall h | h in w'.handlers ensures Reached(c, w'.log, h, w'.handlers[h]) {
      if s.Act? && s.h == h {
        ActorIsKnown(w, s, w');
        ActorReaches(c, w, s, w');
      } else {
        OthersReached(c, w, s, w', h);
      }
    }
    forall r | r in w'.db.t.runs && w'.db.t.runs[r].status.Idle? ensures Delivered(c, w'.log, r) {
      IdleIsDelivered(c, w, s, w', r);
    }
  }

  lemma LogIsPrefix(w: World, s: Step, w': World)
    requires LogEvolves(w, s, w')
    ensures w.log <= w'.log
  {
  }

  lemma ActorIsKnown(w: World, s: Step, w': World)
    requires LogEvolves(w, s, w') && s.Act?
    ensures s.h in w.handlers
  {
  }

  lemma {:induction false} OutcomeAlways(c: Config, worlds: seq<World>, steps: seq<Step>, n: nat)
    requires Behaviour(c, worlds, steps) && n <= |steps|
    ensures OutcomeOk(c, worlds[n])
  {
    hide NextWorld;
    if n > 0 {
      hide OutcomeOk, RefsOk, L.Inv;
      OutcomeAlways(c, worlds, steps, n - 1);
      O.OrderAlways(c, worlds, steps, n - 1);
      OutcomeStep(c, worlds[n - 1], steps[n - 1], worlds[n]);
    }
  }

  // A run that is idle was fetched and delivered: entries i < k of its log are an
  // acceptable source response and its schema check, entry q the request to the
  // target with the very same body, and entry r the acceptable response to it.
  lemma IdleMeansDelivered(c: Config, worlds: seq<World>, steps: seq<Step>, n: nat, run: RunId)
    returns (i: nat, k: nat, q: nat, r: nat)
    requires Behaviour(c, worlds, steps) && n <= |steps|
    requires run in worlds[n].db.t.runs && worlds[n].db.t.runs[run].status.Idle?
    ensures i < k < q < r < |worlds[n].log|
    ensures DeliveredAt(c, worlds[n].log, q, r, run)
    ensures O.Accepted(c, worlds[n].log, i, k, run, worlds[n].log[q].e.request.body)
  {
    hide NextWorld;
    OutcomeAlways(c, worlds, steps, n);
    var log := worlds[n].log;
    q, r :| DeliveredAt(c, log, q, r, run);
    O.StageOrder(c, worlds, steps, n, q, run, log[q].e.request.body);
    i, k :| k < q && O.Accepted(c, log, i, k, run, log[q].e.request.body);
  }

  // ------------------------------------------------------------ the converse

  // A deliverer's write of idle that took effect.
  predicate WritesIdle(w: World, s: Step, run: RunId) {
    && s.Act? && s.took && s.e.SetRunStatus? && s.e.status == Idle
    && s.h in w.handlers && w.handlers[s.h].run == run
  }

  lemma WriteMakesIdle(c: Config, w: World, s: Step, w': World, run: RunId)
    requires L.Inv(w.db) && NextWorld(c, w, s, w') && WritesIdle(w, s, run)
    ensures run in w'.db.used && run in w'.db.t.runs && w'.db.t.runs[run].status == Idle
  {
    hide L.Inv, NextWorld, L.Next;
    StatusWritten(c, w, s, w');
    DbForward(c, w, s, w');
  }

  lemma IdleIsWrittenOrKept(c: Config, w: World, s: Step, w': World, run: RunId)
    requires L.Inv(w.db) && NextWorld(c, w, s, w') && run in w'.db.t.runs && w'.db.t.runs[run].status == Idle
    ensures WritesIdle(w, s, run) || (run in w.db.t.runs && w.db.t.runs[run].status == Idle)
  {
    hide L.Inv, NextWorld, L.Next;
    if !(run in w.db.t.runs && w.db.t.runs[run].status == Idle) {
      DbForward(c, w, s, w');
      StatusIsWritten(w.db, DbAction(w, s).value, w'.db, run, Idle);
      OnlyHandlersWrite(c, w, s, w');
    }
  }

  ghost predicate IdleWritten(worlds: seq<World>, steps: seq<Step>, n: nat, run: RunId)
    requires n <= |steps| && n <= |worlds|
  {
    exists i: nat | i < n :: WritesIdle(worlds[i], steps[i], run)
  }

  // A run is idle if and only if a deliverer's write of idle took effect; the guard
  // lets it do so only before any error write and any sweep that ends the run. That
  // its target answered acceptably is not enough.
  lemma {:induction false} IdleExactly(c: Config, worlds: seq<World>, steps: seq<Step>, n: nat, run: RunId)
    requires Behaviour(c, worlds, steps) && n <= |steps|
    ensures IdleWritten(worlds, steps, n, run) ==> run in worlds[n].db.used
    ensures run in worlds[n].db.t.runs ==>
              (worlds[n].db.t.runs[run].status == Idle <==> IdleWritten(worlds, steps, n, run))
  {
    hide NextWorld, WritesIdle, L.Inv, RefsOk, O.OrderInv;
    if n > 0 {
      var w, s, w' := worlds[n - 1], steps[n - 1], worlds[n];
      IdleExactly(c, worlds, steps, n - 1, run);
      O.OrderAlways(c, worlds, steps, n - 1);
      DbForward(c, w, s, w');
      if WritesIdle(w, s, run) { WriteMakesIdle(c, w, s, w', run); }
      if run in w'.db.t.runs && w'.db.t.runs[run].status == Idle { IdleIsWrittenOrKept(c, w, s, w', run); }
      assert IdleWritten(worlds, steps, n, run) <==> IdleWritten(worlds, steps, n - 1, run) || WritesIdle(w, s, run);
    } else {
      assert worlds[0].db.t.runs == map[];
    }
  }
}
