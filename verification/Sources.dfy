// What requests are made: exactly those that the configuration of the job in the
// tables asks for, as the handler read it just before.
module Sources {
  import opened Model
  import L = Lifecycle
  import opened Retry
  import opened Worker
  import opened Protocol
  import opened Pipeline
  import A = Attempts

  // Step i is the event by which handler h read this configuration of its job from
  // the tables: the fetcher the one of the source, the deliverer that of the target.
  ghost predicate ReadAt(worlds: seq<World>, steps: seq<Step>, i: nat, h: HandlerId, stage: Stage, config: IOConfig)
    requires |worlds| == |steps| + 1
  {
    && i < |steps| && steps[i].Act? && steps[i].h == h && h in worlds[i].handlers
    && steps[i].e.GetConfig? && steps[i].e.ok && steps[i].e.config == config
    && var key := ConfigKey(worlds[i].handlers[h].job, if stage.Fetch? then Fetcher else Deliverer);
       key in worlds[i].db.t.configs && worlds[i].db.t.configs[key] == config
  }

  // It is the last thing that h did before step n.
  ghost predicate JustRead(
    worlds: seq<World>, steps: seq<Step>, i: nat, n: nat, h: HandlerId, stage: Stage, config: IOConfig)
    requires |worlds| == |steps| + 1 && n <= |steps|
  {
    && i < n && ReadAt(worlds, steps, i, h, stage, config)
    && forall k | i < k < n :: !(steps[k].Act? && steps[k].h == h)
  }

  lemma BecomesConfigured(p: Policy, l: Local, e: Event)
    requires Next(p, l, e).Some?
    ensures Next(p, l, e).value.given == l.given
    ensures Next(p, l, e).value.pc.Configured? ==>
              && e.GetConfig? && e.ok && e.config == Next(p, l, e).value.pc.config
              && e.kind == if l.given.stage.Fetch? then Fetcher else Deliverer
    ensures e.Send? ==> l.pc.Configured? && A.AsConfigured(l.given, l.pc.config, e.request)
  {
    hide FitDelay, Proposed;
  }

  lemma ReadsTables(c: Config, w: World, s: Step, w': World)
    requires NextWorld(c, w, s, w') && s.Act? && s.e.GetConfig? && s.e.ok
    ensures s.h in w.handlers
    ensures
      var key := ConfigKey(w.handlers[s.h].job, s.e.kind);
      key in w.db.t.configs && w.db.t.configs[key] == s.e.config
  {
    hide Next, L.Apply;
  }

  lemma {:induction false} ConfiguredHasRead(c: Config, worlds: seq<World>, steps: seq<Step>, n: nat, h: HandlerId)
    returns (i: nat)
    requires Behaviour(c, worlds, steps) && n <= |steps|
    requires h in worlds[n].handlers && worlds[n].handlers[h].local.pc.Configured?
    ensures
      var l := worlds[n].handlers[h].local;
      JustRead(worlds, steps, i, n, h, l.given.stage, l.pc.config)
  {
    hide NextWorld, Next;
    var w, s, w' := worlds[n - 1], steps[n - 1], worlds[n];
    PartsEvolve(c, w, s, w');
    if s.Act? && s.h == h {
      BecomesConfigured(PolicyOf(c, w.handlers[h].local.given.stage), w.handlers[h].local, s.e);
      ReadsTables(c, w, s, w');
      i := n - 1;
    } else {
      i := ConfiguredHasRead(c, worlds, steps, n - 1, h);
    }
  }

  // Step n is a request of handler h. Just before, h read the configuration of its
  // stage for the job of its run from the tables, and the request has that verb, that
  // URL and those headers; a source gets the configured payload, or an empty body if
  // there is none, and a target the body of the message.
  lemma RequestsAreConfigured(c: Config, worlds: seq<World>, steps: seq<Step>, n: nat)
    returns (i: nat, config: IOConfig)
    requires Behaviour(c, worlds, steps) && n < |steps| && steps[n].Act? && steps[n].e.Send?
    ensures steps[n].h in worlds[n].handlers && worlds[n].handlers[steps[n].h].msg in worlds[n].messages
    ensures
      var hd, r := worlds[n].handlers[steps[n].h], steps[n].e.request;
      var m := worlds[n].messages[hd.msg];
      && JustRead(worlds, steps, i, n, steps[n].h, m.stage, config)
      && r.verb == config.verb && r.targetUrl == config.targetUrl && r.headers == config.headers
      && (m.stage.Delivery? ==> r.body == m.body)
      && (m.stage.Fetch? && config.payload.Some? ==> r.body == config.payload.value)
      && (m.stage.Fetch? && config.payload.None? ==> r.body == "")
  {
    hide NextWorld, Next;
    assert NextWorld(c, worlds[n], steps[n], worlds[n + 1]);
    PartsEvolve(c, worlds[n], steps[n], worlds[n + 1]);
    LogStep(c, worlds[n], steps[n], worlds[n + 1]);
    var h := steps[n].h;
    RefsAlways(c, worlds, steps, n);
    var hd := worlds[n].handlers[h];
    assert HandlerOk(c, worlds[n], hd);
    BecomesConfigured(PolicyOf(c, hd.local.given.stage), hd.local, steps[n].e);
    i := ConfiguredHasRead(c, worlds, steps, n, h);
    config := hd.local.pc.config;
  }
}
