// Stage order over whole runs of the pipeline: a target is called only after the
// source of the same run answered acceptably, and with exactly that answer.
module Order {
  import opened Model
  import L = Lifecycle
  import opened Retry
  import opened Worker
  import opened Protocol
  import opened Pipeline

  // Entry i is a non-retryable source response with this body, for this run.
  predicate SawReply(c: Config, log: seq<Entry>, i: nat, h: HandlerId, run: RunId, body: Json) {
    && i < |log| && log[i].Did? && log[i].h == h && log[i].stage.Fetch? && log[i].run == run
    && log[i].e.Reply? && !log[i].e.failed && log[i].e.code !in c.fetch.retryOn && log[i].e.body == body
  }

  // Entry i is such a response, and entry k says that the schema accepted it.
  ghost predicate Accepted(c: Config, log: seq<Entry>, i: nat, k: nat, run: RunId, body: Json) {
    && i < k < |log|
    && log[k].Did? && log[k].stage.Fetch? && log[k].run == run
    && log[k].e.SchemaCheck? && log[k].e.ok && log[k].e.body == body
    && SawReply(c, log, i, log[k].h, run, body)
  }

  ghost predicate SourceAccepted(c: Config, log: seq<Entry>, run: RunId, body: Json) {
    exists i, k :: Accepted(c, log, i, k, run, body)
  }

  predicate Requested(log: seq<Entry>, k: nat, run: RunId, body: Json) {
    k < |log| && log[k].Did? && log[k].stage.Delivery? && log[k].run == run
    && log[k].e.Send? && log[k].e.request.body == body
  }

  lemma AcceptedLonger(c: Config, log: seq<Entry>, longer: seq<Entry>, run: RunId, body: Json)
    requires log <= longer && SourceAccepted(c, log, run, body)
    ensures SourceAccepted(c, longer, run, body)
  {
    var i, k :| Accepted(c, log, i, k, run, body);
    assert Accepted(c, longer, i, k, run, body);
  }

  // What a handler knows about the source, by the point it has reached.
  ghost predicate Informed(c: Config, log: seq<Entry>, h: HandlerId, hd: Handler) {
    && (hd.local.pc.Replied? && hd.local.given.stage.Fetch? ==>
        exists i :: SawReply(c, log, i, h, hd.run, hd.local.pc.body))
    && (hd.local.pc.Checked? ==> SourceAccepted(c, log, hd.run, hd.local.pc.body))
    && (hd.local.given.stage.Delivery? ==> SourceAccepted(c, log, hd.run, hd.local.given.input))
  }

  ghost predicate OrderInv(c: Config, w: World) {
    && (forall m | m in w.messages && w.messages[m].stage.Delivery? ::
          SourceAccepted(c, w.log, w.messages[m].run, w.messages[m].body))
    && (forall h | h in w.handlers :: Informed(c, w.log, h, w.handlers[h]))
    && (forall k: nat, run, body | Requested(w.log, k, run, body) :: SourceAccepted(c, w.log[..k], run, body))
  }

  lemma InformedLonger(c: Config, log: seq<Entry>, longer: seq<Entry>, h: HandlerId, hd: Handler)
    requires log <= longer && Informed(c, log, h, hd)
    ensures Informed(c, longer, h, hd)
  {
    if hd.local.pc.Replied? && hd.local.given.stage.Fetch? {
      var i :| SawReply(c, log, i, h, hd.run, hd.local.pc.body);
      assert SawReply(c, longer, i, h, hd.run, hd.local.pc.body);
    }
    if hd.local.pc.Checked? { AcceptedLonger(c, log, longer, hd.run, hd.local.pc.body); }
    if hd.local.given.stage.Delivery? { AcceptedLonger(c, log, longer, hd.run, hd.local.given.input); }
  }

  // How the points of an attempt are reached, and what may be sent or published.
  lemma AttemptOrder(p: Policy, l: Local, e: Event)
    requires LocalInv(p, l) && Next(p, l, e).Some?
    ensures var m := Next(p, l, e).value;
      && m.given == l.given
      && (m.pc.Replied? ==> e.Reply? && !e.failed && e.code !in p.retryOn && e.body == m.pc.body)
      && (m.pc.Checked? ==>
            && l.pc.Replied? && l.given.stage.Fetch? && e.SchemaCheck? && e.ok && e.body == l.pc.body == m.pc.body)
      && (e.Publish? ==> l.pc.Checked? && e.body == l.pc.body)
      && (e.Send? && l.given.stage.Delivery? ==> e.request.body == l.given.input)
  {
    hide FitDelay, Proposed;
  }

  lemma ActorStaysInformed(c: Config, w: World, s: Step, w': World)
    requires RefsOk(c, w) && HandlersEvolve(c, w, s, w') && LogEvolves(w, s, w')
    requires s.Act? && s.h in w.handlers && Informed(c, w.log, s.h, w.handlers[s.h])
    ensures Informed(c, w'.log, s.h, w'.handlers[s.h])
  {
    hide LocalInv, Next;
    var hd, n := w.handlers[s.h], |w.log|;
    assert HandlerOk(c, w, hd);
    AttemptOrder(PolicyOf(c, hd.local.given.stage), hd.local, s.e);
    var hd' := w'.handlers[s.h];
    assert w.log <= w'.log;
    if hd'.local.pc.Replied? && hd.local.given.stage.Fetch? {
      assert SawReply(c, w'.log, n, s.h, hd.run, hd'.local.pc.body);
    }
    if hd'.local.pc.Checked? {
      var i :| SawReply(c, w.log, i, s.h, hd.run, hd.local.pc.body);
      assert Accepted(c, w'.log, i, n, hd.run, hd'.local.pc.body);
    }
    if hd.local.given.stage.Delivery? { AcceptedLonger(c, w.log, w'.log, hd.run, hd.local.given.input); }
  }

  lemma HandlersStayInformed(c: Config, w: World, s: Step, w': World, h: HandlerId)
    requires RefsOk(c, w) && OrderInv(c, w) && HandlersEvolve(c, w, s, w') && LogEvolves(w, s, w') && h in w'.handlers
    ensures Informed(c, w'.log, h, w'.handlers[h])
  {
    hide LocalInv, Next, Informed, Requested;
    assert w.log <= w'.log;
    if h !in w.handlers {
      FreshIsInformed(c, w, s, w', h);
    } else if s.Act? && s.h == h {
      ActorStaysInformed(c, w, s, w');
    } else {
      InformedLonger(c, w.log, w'.log, h, w.handlers[h]);
    }
  }

  lemma FreshIsInformed(c: Config, w: World, s: Step, w': World, h: HandlerId)
    requires OrderInv(c, w) && HandlersEvolve(c, w, s, w') && LogEvolves(w, s, w') && h in w'.handlers
        && h !in w.handlers
    ensures Informed(c, w'.log, h, w'.handlers[h])
  {
    hide Next;
    var m := w.messages[s.msg];
    assert w.log <= w'.log;
    if m.stage.Delivery? { AcceptedLonger(c, w.log, w'.log, m.run, m.body); }
  }

  lemma MessagesStayAccepted(c: Config, w: World, s: Step, w': World)
    requires RefsOk(c, w) && OrderInv(c, w)
    requires MessagesEvolve(w, s, w') && HandlersEvolve(c, w, s, w') && LogEvolves(w, s, w')
    ensures forall m | m in w'.messages && w'.messages[m].stage.Delivery? ::
              SourceAccepted(c, w'.log, w'.messages[m].run, w'.messages[m].body)
  {
    hide LocalInv, Next, Requested, SourceAccepted;
    assert w.log <= w'.log;
    forall m | m in w'.messages && w'.messages[m].stage.Delivery?
      ensures SourceAccepted(c, w'.log, w'.messages[m].run, w'.messages[m].body)
    {
      if m !in w.messages {
        var hd := w.handlers[s.h];
        assert HandlerOk(c, w, hd) && Informed(c, w.log, s.h, hd);
        AttemptOrder(PolicyOf(c, hd.local.given.stage), hd.local, s.e);
      }
      AcceptedLonger(c, w.log, w'.log, w'.messages[m].run, w'.messages[m].body);
    }
  }

  lemma RequestsStayJustified(c: Config, w: World, s: Step, w': World, k: nat, run: RunId, body: Json)
    requires RefsOk(c, w) && OrderInv(c, w) && HandlersEvolve(c, w, s, w') && LogEvolves(w, s, w')
    requires Requested(w'.log, k, run, body)
    ensures SourceAccepted(c, w'.log[..k], run, body)
  {
    hide LocalInv, Next, SourceAccepted;
    if k < |w.log| {
      assert w'.log[..k] == w.log[..k] && w'.log[k] == w.log[k];
      assert Requested(w.log, k, run, body);
    } else {
      var hd := w.handlers[s.h];
      assert HandlerOk(c, w, hd) && Informed(c, w.log, s.h, hd);
      AttemptOrder(PolicyOf(c, hd.local.given.stage), hd.local, s.e);
    }
  }

  lemma OrderStep(c: Config, w: World, s: Step, w': World)
    requires L.Inv(w.db) && RefsOk(c, w) && OrderInv(c, w) && NextWorld(c, w, s, w')
    ensures OrderInv(c, w')
  {
    hide L.Inv, RefsOk, NextWorld, HandlersEvolve, MessagesEvolve, LogEvolves, Informed, SourceAccepted;
    PartsEvolve(c, w, s, w');
    LogStep(c, w, s, w');
    MessagesStayAccepted(c, w, s, w');
    forall h | h in w'.handlers ensures Informed(c, w'.log, h, w'.handlers[h]) {
      HandlersStayInformed(c, w, s, w', h);
    }
    forall k: nat, run, body | Requested(w'.log, k, run, body) ensures SourceAccepted(c, w'.log[..k], run, body) {
      RequestsStayJustified(c, w, s, w', k, run, body);
    }
  }

  lemma {:induction false} OrderAlways(c: Config, worlds: seq<World>, steps: seq<Step>, n: nat)
    requires Behaviour(c, worlds, steps) && n <= |steps|
    ensures L.Inv(worlds[n].db) && RefsOk(c, worlds[n]) && OrderInv(c, worlds[n])
  {
    hide NextWorld;
    if n > 0 {
      hide OrderInv, RefsOk, L.Inv;
      OrderAlways(c, worlds, steps, n - 1);
      DbForward(c, worlds[n - 1], steps[n - 1], worlds[n]);
      RefsStep(c, worlds[n - 1], steps[n - 1], worlds[n]);
      OrderStep(c, worlds[n - 1], steps[n - 1], worlds[n]);
    }
  }

  // Entry q of the log is a request to the target with this body. Then, earlier,
  // one fetch handler of the same run saw a non-retryable source response with the
  // same body (entry i) and the schema accepted it (entry k).
  lemma StageOrder(c: Config, worlds: seq<World>, steps: seq<Step>, n: nat, q: nat, run: RunId, body: Json)
    requires Behaviour(c, worlds, steps) && n <= |steps| && Requested(worlds[n].log, q, run, body)
    ensures exists i: nat, k: nat :: k < q && Accepted(c, worlds[n].log, i, k, run, body)
  {
    hide NextWorld, RefsOk, L.Inv;
    OrderAlways(c, worlds, steps, n);
    var log := worlds[n].log;
    var i, k :| Accepted(c, log[..q], i, k, run, body);
    assert Accepted(c, log, i, k, run, body);
  }
}
