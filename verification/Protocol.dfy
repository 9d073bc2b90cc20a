// The whole pipeline: the database, the two queues, the claims that schedulers
// still hold, and any number of handlers, each an automaton of Worker. Handlers
// of the same message may overlap, and any call may fail before or after taking
// effect.
module Protocol {
  import opened Model
  import opened Sql
  import L = Lifecycle
  import opened Retry
  import opened Worker

  datatype MsgId = MsgId(n: nat)
  datatype HandlerId = HandlerId(n: nat)

  datatype Message = Message(stage: Stage, job: JobId, run: RunId, body: Json, delivered: nat, live: bool)
  datatype Handler = Handler(msg: MsgId, job: JobId, run: RunId, local: Local)

  // The events by which the pipeline may lose sight of a run.
  datatype Cause = ClaimReplyLost | SchedulerCrashed | FetchPublishFailed | DeliveryLimit | FinalTerm

  datatype Entry =
    | Did(h: HandlerId, stage: Stage, run: RunId, e: Event)
    | Lost(run: RunId, cause: Cause)

  // The retry policy of each service, and what the two consumers are configured with.
  datatype Config = Config(
    fetch: Policy, delivery: Policy,
    maxFetchDeliver: int, maxDeliveryDeliver: int, fetchTime: Time, deliveryTime: Time)

  datatype World = World(
    db: L.State,
    messages: map<MsgId, Message>,
    handlers: map<HandlerId, Handler>,
    pending: set<Pick>, // claimed, held by a scheduler, not yet published
    log: seq<Entry>)

  datatype Step =
    | Database(a: L.Action)
    | Claim(a: L.Action, replied: bool)
    | PublishFetch(pick: Pick, msg: MsgId, stored: bool)
    | CrashScheduler(pick: Pick)
    | Deliver(msg: MsgId, h: HandlerId, metadata: bool, start: Time)
    | Act(h: HandlerId, e: Event, took: bool, newMsg: MsgId)
    | Drop(msg: MsgId)

  function PolicyOf(c: Config, stage: Stage): Policy {
    if stage.Fetch? then c.fetch else c.delivery
  }

  function MaxDeliver(c: Config, stage: Stage): int {
    if stage.Fetch? then c.maxFetchDeliver else c.maxDeliveryDeliver
  }

  function MaxProcessingTime(c: Config, stage: Stage): Time {
    if stage.Fetch? then c.fetchTime else c.deliveryTime
  }

  // `took`: the call had its effect on the server; ok: the caller was told so.
  predicate Possible(w: World, hd: Handler, e: Event, took: bool, newMsg: MsgId) {
    match e
    case SetRunStatus(status, ok) =>
      (ok ==> took) && (took ==> SetRunMatches(w.db.t, status, hd.run, hd.job))
    case GetConfig(kind, ok, config) =>
      var k := ConfigKey(hd.job, kind);
      ok ==> k in w.db.t.configs && config == w.db.t.configs[k]
    case Publish(_, ok) => (ok ==> took) && (took ==> newMsg !in w.messages)
    case _ => true
  }

  ghost predicate Enabled(c: Config, w: World, s: Step) {
    match s
    case Database(a) => !a.Claim? && !a.SetStatus? && L.Enabled(w.db, a)
    case Claim(a, _) => a.Claim? && L.Enabled(w.db, a)
    case PublishFetch(pick, msg, stored) => pick in w.pending && msg !in w.messages
    case CrashScheduler(pick) => pick in w.pending
    case Deliver(msg, h, _, _) =>
      && msg in w.messages && w.messages[msg].live && h !in w.handlers
      && (MaxDeliver(c, w.messages[msg].stage) <= 0 || w.messages[msg].delivered < MaxDeliver(c, w.messages[msg].stage))
    case Act(h, e, took, newMsg) =>
      && h in w.handlers
      && Next(PolicyOf(c, w.handlers[h].local.given.stage), w.handlers[h].local, e).Some?
      && Possible(w, w.handlers[h], e, took, newMsg)
    case Drop(msg) =>
      && msg in w.messages && w.messages[msg].live
      && 0 < MaxDeliver(c, w.messages[msg].stage) <= w.messages[msg].delivered
  }

  // The database action that a step performs, if any.
  ghost function DbAction(w: World, s: Step): Option<L.Action> {
    match s
    case Database(a) => Some(a)
    case Claim(a, _) => Some(a)
    case Act(h, e, took, _) =>
      if h in w.handlers && e.SetRunStatus? && took
      then Some(L.SetStatus(e.status, w.handlers[h].run, w.handlers[h].job)) else None
    case _ => None
  }

  function DeliveredLocal(c: Config, m: Message, metadata: bool, start: Time): Local {
    var attempt := if metadata then m.delivered + 1 else 0;
    var isFinal := 0 < MaxDeliver(c, m.stage) <= attempt;
    Start(PolicyOf(c, m.stage), Given(m.stage, true, m.body, isFinal, start + MaxProcessingTime(c, m.stage)), start)
  }

  function ActedMessages(w: World, hd: Handler, e: Event, took: bool, newMsg: MsgId): map<MsgId, Message> {
    if e.Publish? && took then w.messages[newMsg := Message(Delivery, hd.job, hd.run, e.body, 0, true)]
    else if e.Answer? && took && e.answer != NakMsg && hd.msg in w.messages then
      w.messages[hd.msg := w.messages[hd.msg].(live := false)]
    else w.messages
  }

  function ActedLog(w: World, h: HandlerId, hd: Handler, e: Event, took: bool): seq<Entry> {
    w.log + [Did(h, hd.local.given.stage, hd.run, e)]
          + if e == Event.Answer(TermMsg) && took && hd.local.pc != ErrorHandled(true) then [Lost(hd.run, FinalTerm)]
            else []
  }

  ghost function Apply(c: Config, w: World, s: Step): World
    requires Enabled(c, w, s)
  {
    var a := DbAction(w, s);
    var w1 := if a.Some? then w.(db := L.Apply(w.db, a.value)) else w;
    match s
    case Database(_) => w1
    case Claim(a, replied) =>
      if replied then w1.(pending := w.pending + set p | p in a.picks)
      else w1.(log := w.log + seq(|a.picks|, i requires 0 <= i < |a.picks| => Lost(a.picks[i].run, ClaimReplyLost)))
    case PublishFetch(pick, msg, stored) =>
      var w2 := w1.(pending := w.pending - {pick});
      if stored then w2.(messages := w.messages[msg := Message(Fetch, pick.job, pick.run, "", 0, true)])
      else w2.(log := w.log + [Lost(pick.run, FetchPublishFailed)])
    case CrashScheduler(pick) =>
      w1.(pending := w.pending - {pick}, log := w.log + [Lost(pick.run, SchedulerCrashed)])
    case Deliver(msg, h, metadata, start) =>
      var m := w.messages[msg];
      w1.(messages := w.messages[msg := m.(delivered := m.delivered + 1)],
          handlers := w.handlers[h := Handler(msg, m.job, m.run, DeliveredLocal(c, m, metadata, start))])
    case Act(h, e, took, newMsg) =>
      var hd := w.handlers[h];
      w1.(handlers := w.handlers[h := hd.(local := Next(PolicyOf(c, hd.local.given.stage), hd.local, e).value)],
          messages := ActedMessages(w, hd, e, took, newMsg),
          log := ActedLog(w, h, hd, e, took))
    case Drop(msg) =>
      w1.(messages := w.messages[msg := w.messages[msg].(live := false)],
          log := w.log + [Lost(w.messages[msg].run, DeliveryLimit)])
  }

  ghost predicate NextWorld(c: Config, w: World, s: Step, w': World) {
    Enabled(c, w, s) && w' == Apply(c, w, s)
  }

  function Initial(start: Time): World {
    World(L.Initial(start), map[], map[], {}, [])
  }

  ghost predicate Behaviour(c: Config, worlds: seq<World>, steps: seq<Step>) {
    && |worlds| == |steps| + 1
    && worlds[0] == Initial(worlds[0].db.now)
    && forall i {:trigger steps[i]} | 0 <= i < |steps| :: NextWorld(c, worlds[i], steps[i], worlds[i + 1])
  }
}
