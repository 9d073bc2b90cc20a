// A behaviour of the whole pipeline that delivers a run and then fails it: the ack
// of the fetch message is lost, its redelivery cannot pass the gate again, and the
// error write for it arrives before the deliverer's write of idle.
module LostAck {
  import opened Model
  import opened Sql
  import L = Lifecycle
  import opened Worker
  import opened Protocol
  import O = Outcome
  import Scenarios

  ghost predicate Reached(c: Config, worlds: seq<World>, steps: seq<Step>, w: World) {
    Behaviour(c, worlds, steps) && worlds[|steps|] == w
  }

  lemma Continue(c: Config, worlds: seq<World>, steps: seq<Step>, w: World, s: Step)
    returns (longer: seq<World>, more: seq<Step>, w': World)
    requires Reached(c, worlds, steps, w) && Enabled(c, w, s)
    ensures Reached(c, longer, more, w') && w' == Apply(c, w, s) && longer == worlds + [w'] && more == steps + [s]
  {
    hide Enabled, Apply;
    w' := Apply(c, w, s);
    longer, more := worlds + [w'], steps + [s];
    assert NextWorld(c, w, s, w');
    forall i | 0 <= i < |more| ensures NextWorld(c, longer[i], more[i], longer[i + 1]) {
      if i < |steps| { assert NextWorld(c, worlds[i], steps[i], worlds[i + 1]); }
    }
  }

  // The tables hold run r of job j in this status, and both configurations of j.
  ghost predicate Shows(d: L.State, j: JobId, r: RunId, status: Status) {
    && r in d.t.runs && d.t.runs[r].job == j && d.t.runs[r].status == status
    && ConfigKey(j, Fetcher) in d.t.configs && ConfigKey(j, Deliverer) in d.t.configs
  }

  lemma Writable(d: L.State, j: JobId, r: RunId, status: Status, next: Status)
    requires Shows(d, j, r, status) && MayReplace(next, status)
    ensures SetRunMatches(d.t, next, r, j) && Shows(L.Apply(d, L.SetStatus(next, r, j)), j, r, next)
  {
  }

  // Handler h takes an event that leaves tables and messages alone.
  ghost function Moved(w: World, h: HandlerId, e: Event, l: Local): World
    requires h in w.handlers
  {
    var hd := w.handlers[h];
    w.(handlers := w.handlers[h := hd.(local := l)], log := w.log + [Did(h, hd.local.given.stage, hd.run, e)])
  }

  predicate Plain(e: Event) {
    !e.Publish? && !e.Answer?
  }

  lemma ActPlain(c: Config, w: World, h: HandlerId, e: Event, l: Local)
    requires h in w.handlers && Plain(e) && (e.SetRunStatus? ==> !e.ok)
    requires e.GetConfig? && e.ok ==>
               var k := ConfigKey(w.handlers[h].job, e.kind);
               k in w.db.t.configs && e.config == w.db.t.configs[k]
    requires Next(PolicyOf(c, w.handlers[h].local.given.stage), w.handlers[h].local, e) == Some(l)
    ensures
      var s := Act(h, e, false, MsgId(0));
      Enabled(c, w, s) && Apply(c, w, s) == Moved(w, h, e, l)
  {
    hide Next;
  }

  lemma ActWrite(c: Config, w: World, h: HandlerId, status: Status, before: Status, l: Local)
    requires h in w.handlers && Shows(w.db, w.handlers[h].job, w.handlers[h].run, before) && MayReplace(status, before)
    requires
      var l0 := w.handlers[h].local;
      Next(PolicyOf(c, l0.given.stage), l0, SetRunStatus(status, true)) == Some(l)
    ensures
      var s := Act(h, SetRunStatus(status, true), true, MsgId(0));
      && Enabled(c, w, s)
      && Apply(c, w, s) ==
         Moved(w, h, SetRunStatus(status, true), l).(
           db := L.Apply(w.db, L.SetStatus(status, w.handlers[h].run, w.handlers[h].job)))
      && Shows(Apply(c, w, s).db, w.handlers[h].job, w.handlers[h].run, status)
  {
    hide Next, L.Apply;
    Writable(w.db, w.handlers[h].job, w.handlers[h].run, before, status);
  }

  lemma ActPublish(c: Config, w: World, h: HandlerId, body: Json, m: MsgId, l: Local)
    requires h in w.handlers && m !in w.messages
    requires Next(PolicyOf(c, w.handlers[h].local.given.stage), w.handlers[h].local, Publish(body, true)) == Some(l)
    ensures
      var s, hd := Act(h, Publish(body, true), true, m), w.handlers[h];
      && Enabled(c, w, s)
      && Apply(c, w, s) ==
         Moved(w, h, Publish(body, true), l).(
           messages := w.messages[m := Message(Delivery, hd.job, hd.run, body, 0, true)])
  {
    hide Next;
  }

  lemma DeliverTo(c: Config, w: World, m: MsgId, h: HandlerId, start: Time)
    requires m in w.messages && w.messages[m].live && h !in w.handlers
    requires MaxDeliver(c, w.messages[m].stage) <= 0 || w.messages[m].delivered < MaxDeliver(c, w.messages[m].stage)
    ensures
      var s, x := Deliver(m, h, true, start), w.messages[m];
      && Enabled(c, w, s)
      && Apply(c, w, s) ==
         w.(messages := w.messages[m := x.(delivered := x.delivered + 1)],
            handlers := w.handlers[h := Handler(m, x.job, x.run, DeliveredLocal(c, x, true, start))])
  {
  }

  predicate AtStart(c: Config, hd: Handler, stage: Stage) {
    && hd.local.given.stage == stage && hd.local.given.wellFormed && hd.local.pc == Top && hd.local.needStatus
    && hd.local.attempt == 0
  }

  // Before the gate of its stage a run has this status.
  function Before(stage: Stage): Status {
    if stage.Fetch? then Scheduled else Fetching
  }

  // What a handler holds after the gate, the configuration, the request and an
  // acceptable response.
  function Answered(l: Local, config: IOConfig, code: int, body: Json): Local {
    l.(pc := Replied(config, code, body), needStatus := false, sends := l.sends + 1)
  }

  // One handler goes from its start to an acceptable response.
  lemma ToResponse(
    c: Config, worlds: seq<World>, steps: seq<Step>, w: World, h: HandlerId, stage: Stage, code: int, body: Json)
    returns (longer: seq<World>, more: seq<Step>, w': World, config: IOConfig)
    requires Reached(c, worlds, steps, w) && h in w.handlers && AtStart(c, w.handlers[h], stage)
    requires Shows(w.db, w.handlers[h].job, w.handlers[h].run, Before(stage)) && code !in PolicyOf(c, stage).retryOn
    ensures Reached(c, longer, more, w') && w'.messages == w.messages && w'.pending == w.pending
    ensures w'.handlers == w.handlers[h := w.handlers[h].(local := Answered(w.handlers[h].local, config, code, body))]
    ensures Shows(w'.db, w.handlers[h].job, w.handlers[h].run, GateStatus(stage))
    ensures |w'.log| == |w.log| + 4 && w.log <= w'.log && w'.log[|w.log| + 2].Did? && w'.log[|w.log| + 2].e.Send?
    ensures w'.log[|w.log| + 2] == Did(h, stage, w.handlers[h].run, w'.log[|w.log| + 2].e)
    ensures w'.log[|w.log| + 3] == Did(h, stage, w.handlers[h].run, Reply(false, code, body))
  {
    hide Behaviour, Enabled, Apply, L.Apply;
    var hd := w.handlers[h];
    var l0 := hd.local;
    var l1 := l0.(pc := Configuring, needStatus := false);
    ActWrite(c, w, h, GateStatus(stage), Before(stage), l1);
    longer, more, w' := Continue(c, worlds, steps, w, Act(h, SetRunStatus(GateStatus(stage), true), true, MsgId(0)));
    config := w'.db.t.configs[ConfigKey(hd.job, ConfigKind(stage))];
    var l2 := l1.(pc := Configured(config));
    var read := GetConfig(ConfigKind(stage), true, config);
    ActPlain(c, w', h, read, l2);
    longer, more, w' := Continue(c, longer, more, w', Act(h, read, false, MsgId(0)));
    var sent := RequestOf(l0.given, config);
    var l3 := l2.(pc := Waiting(config), sends := l2.sends + 1);
    ActPlain(c, w', h, Send(sent), l3);
    longer, more, w' := Continue(c, longer, more, w', Act(h, Send(sent), false, MsgId(0)));
    ActPlain(c, w', h, Reply(false, code, body), Answered(l0, config, code, body));
    longer, more, w' := Continue(c, longer, more, w', Act(h, Reply(false, code, body), false, MsgId(0)));
  }

  // A job is created and its first run claimed and published.
  lemma Published(c: Config, start: Time, j: JobId, spec: JobSpec, r: RunId, m: MsgId)
    returns (worlds: seq<World>, steps: seq<Step>, w: World)
    requires spec.repeatSec >= 0 && spec.targetRuns >= 0 && spec.nextRunAt <= start
    ensures Reached(c, worlds, steps, w) && Shows(w.db, j, r, Scheduled)
    ensures w.messages == map[m := Message(Fetch, j, r, "", 0, true)] && w.handlers == map[] && w.log == []
  {
    hide L.Apply, Behaviour, Next;
    worlds, steps, w := [Initial(start)], [], Initial(start);
    assert Reached(c, worlds, steps, w) by { Started(c, start); }
    Scenarios.CreateFirst(start, j, spec);
    worlds, steps, w := Continue(c, worlds, steps, w, Database(L.Create(j, spec)));
    CreateShows(start, j, spec);
    var x := Schedule(true, spec.repeatSec, 0, spec.targetRuns, None, Some(spec.nextRunAt), start, start);
    Scenarios.IsEligible(w.db, j, x, map[]);
    Scenarios.ClaimOnly(w.db, j, x, map[], r);
    var claim := L.Claim(1, {}, [Pick(j, r)]);
    ClaimShows(w.db, j, x, r);
    worlds, steps, w := Continue(c, worlds, steps, w, Step.Claim(claim, true));
    assert Pick(j, r) in w.pending;
    worlds, steps, w := Continue(c, worlds, steps, w, PublishFetch(Pick(j, r), m, true));
  }

  lemma Started(c: Config, start: Time)
    ensures Behaviour(c, [Initial(start)], [])
  {
  }

  lemma CreateShows(start: Time, j: JobId, spec: JobSpec)
    requires spec.repeatSec >= 0
    ensures
      var d := L.Apply(L.Initial(start), L.Create(j, spec));
      ConfigKey(j, Fetcher) in d.t.configs && ConfigKey(j, Deliverer) in d.t.configs
  {
  }

  lemma ClaimShows(d: L.State, j: JobId, x: Schedule, r: RunId)
    requires Scenarios.Holds(d, j, x, map[]) && Eligible(d.t, d.now, j) && r !in d.used
    requires ConfigKey(j, Fetcher) in d.t.configs && ConfigKey(j, Deliverer) in d.t.configs
    requires L.Enabled(d, L.Claim(1, {}, [Pick(j, r)]))
    ensures Shows(L.Apply(d, L.Claim(1, {}, [Pick(j, r)])), j, r, Scheduled)
  {
    Scenarios.ClaimOnly(d, j, x, map[], r);
  }

  // The first delivery of the fetch message: everything but its ack.
  lemma Fetched(
    c: Config, worlds: seq<World>, steps: seq<Step>, w: World, m: MsgId, h: HandlerId, next: MsgId,
    j: JobId, r: RunId, start: Time, code: int, body: Json)
    returns (longer: seq<World>, more: seq<Step>, w': World)
    requires Reached(c, worlds, steps, w) && Shows(w.db, j, r, Scheduled) && w.handlers == map[] && next != m
    requires w.messages == map[m := Message(Fetch, j, r, "", 0, true)]
    requires c.fetch.maxAttempts >= 1 && code !in c.fetch.retryOn
    ensures Reached(c, longer, more, w') && Shows(w'.db, j, r, Fetching) && w'.handlers.Keys == {h}
    ensures w'.messages ==
              map[m := Message(Fetch, j, r, "", 1, true), next := Message(Delivery, j, r, body, 0, true)]
  {
    hide Behaviour, Enabled, Apply, L.Apply;
    DeliverTo(c, w, m, h, start);
    longer, more, w' := Continue(c, worlds, steps, w, Deliver(m, h, true, start));
    var config: IOConfig;
    longer, more, w', config := ToResponse(c, longer, more, w', h, Fetch, code, body);
    var l := w'.handlers[h].local.(pc := Checked(code, body));
    var checked := SchemaCheck(config.jsonSchema, body, true);
    ActPlain(c, w', h, checked, l);
    longer, more, w' := Continue(c, longer, more, w', Act(h, checked, false, MsgId(0)));
    var l' := l.(pc := Returned(NoError), publishes := 1, emitted := true);
    ActPublish(c, w', h, body, next, l');
    longer, more, w' := Continue(c, longer, more, w', Act(h, Publish(body, true), true, next));
  }

  // The fetch message comes again: the gate rejects it, and its error is written.
  lemma FailOnRedelivery(
    c: Config, worlds: seq<World>, steps: seq<Step>, w: World, m: MsgId, h: HandlerId, j: JobId, r: RunId, start: Time)
    returns (longer: seq<World>, more: seq<Step>, w': World)
    requires Reached(c, worlds, steps, w) && Shows(w.db, j, r, Delivering) && h !in w.handlers
    requires m in w.messages && w.messages[m] == Message(Fetch, j, r, "", 1, true)
    requires c.fetch.maxAttempts >= 1 && 0 !in c.fetch.retryOn && (c.maxFetchDeliver <= 0 || c.maxFetchDeliver >= 2)
    ensures Reached(c, longer, more, w') && Shows(w'.db, j, r, Error) && w.log <= w'.log
  {
    hide Behaviour, Enabled, Apply, L.Apply;
    DeliverTo(c, w, m, h, start);
    longer, more, w' := Continue(c, worlds, steps, w, Deliver(m, h, true, start));
    var l := w'.handlers[h].local.(pc := Returned(Term));
    ActPlain(c, w', h, SetRunStatus(Fetching, false), l);
    longer, more, w' := Continue(c, longer, more, w', Act(h, SetRunStatus(Fetching, false), false, MsgId(0)));
    ActWrite(c, w', h, Error, Delivering, l.(pc := ErrorHandled(true)));
    longer, more, w' := Continue(c, longer, more, w', Act(h, SetRunStatus(Error, true), true, MsgId(0)));
  }

  // For every configuration that can fetch twice, and whose statuses include one
  // that both stages accept: the target of run r answers acceptably, and r ends
  // failed.
  lemma DeliveredThenFailed(c: Config, start: Time, j: JobId, spec: JobSpec, r: RunId, code: int, body: Json)
    returns (worlds: seq<World>, steps: seq<Step>)
    requires spec.repeatSec >= 0 && spec.targetRuns >= 0 && spec.nextRunAt <= start
    requires c.fetch.maxAttempts >= 1 && c.delivery.maxAttempts >= 1
    requires code !in c.fetch.retryOn && code !in c.delivery.retryOn && 0 !in c.fetch.retryOn
    requires c.maxFetchDeliver <= 0 || c.maxFetchDeliver >= 2
    ensures Behaviour(c, worlds, steps) && O.Delivered(c, worlds[|steps|].log, r)
    ensures r in worlds[|steps|].db.t.runs && worlds[|steps|].db.t.runs[r].status == Error
  {
    hide Behaviour, Enabled, Apply, L.Apply;
    var m1, m2, h1, h2, h3 := MsgId(1), MsgId(2), HandlerId(1), HandlerId(2), HandlerId(3);
    var w: World;
    worlds, steps, w := Published(c, start, j, spec, r, m1);
    worlds, steps, w := Fetched(c, worlds, steps, w, m1, h1, m2, j, r, start, code, body);
    DeliverTo(c, w, m2, h2, start);
    worlds, steps, w := Continue(c, worlds, steps, w, Deliver(m2, h2, true, start));
    ghost var n := |w.log|;
    var config: IOConfig;
    worlds, steps, w, config := ToResponse(c, worlds, steps, w, h2, Delivery, code, body);
    assert O.DeliveredAt(c, w.log, n + 2, n + 3, r);
    ghost var log := w.log;
    worlds, steps, w := FailOnRedelivery(c, worlds, steps, w, m1, h3, j, r, start);
    O.DeliveredLonger(c, log, w.log, r);
  }
}
