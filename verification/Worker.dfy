// How one delivery of one message is processed, as an automaton over the events
// that the outside world can see. The handler methods of Handlers are proved to
// produce only event sequences that it accepts, and Protocol lets any number of
// such automata race over the database and the queue.
module Worker {
  import opened Model
  import opened Retry

  datatype Stage = Fetch | Delivery

  // Cancelled: the parent context ended. The last two are the errors built at
  // the end of the retry loop.
  datatype Err = NoError | Nak | Term | Cancelled | HttpStatusError | RetriesExceeded

  datatype Answer = AckMsg | NakMsg | TermMsg

  // An HTTP request; its headers are those that the column decodes to.
  datatype Request = Request(verb: string, targetUrl: string, headers: Option<Json>, body: Json)

  datatype Event =
    | BadHeaders                                      // job-id or run-id does not parse
    | SetRunStatus(status: Status, ok: bool)
    | GetConfig(kind: Kind, ok: bool, config: IOConfig)
    | BadConfigHeaders                                // the headers column does not decode
    | Send(request: Request)
    | Reply(failed: bool, code: int, body: Json)
    | SchemaCheck(schema: Option<Json>, body: Json, ok: bool)
    | Publish(body: Json, ok: bool)
    | OutOfBudget(at: Time)
    | Plan(at: Time, planned: Time)                   // decided at `at` to sleep for `planned`
    | Wake(at: Time)
    | Cancel
    | Answer(answer: Answer)

  datatype Pc =
    | Top                                             // head of the retry loop
    | Configuring
    | Configured(config: IOConfig)
    | Waiting(config: IOConfig)
    | Replied(config: IOConfig, code: int, body: Json)
    | Checked(code: int, body: Json)
    | Retrying(err: Err)
    | Sleeping(wakeAt: Time)
    | Returned(err: Err)                              // the pipeline returned to the consumer
    | ErrorHandled(ok: bool)
    | Done(answer: Answer, wroteError: bool)

  // What is fixed for the whole processing: the message and its deadline.
  datatype Given = Given(stage: Stage, wellFormed: bool, input: Json, isFinal: bool, deadline: Time)

  datatype Local = Local(
    given: Given, pc: Pc, attempt: nat, needStatus: bool, delay: Time, clock: Time,
    sends: nat, publishes: nat, emitted: bool)

  const ACK_SAFETY_GAP: Time := 10 * SECOND

  // fitRetryDelay, with the time left until the deadline.
  function FitDelay(delay: Time, left: Time): Option<Time> {
    var remaining := left - ACK_SAFETY_GAP;
    if remaining <= 0 then None
    else if delay > remaining then Some(remaining)
    else Some(delay)
  }

  function GateStatus(stage: Stage): Status {
    if stage.Fetch? then Fetching else Delivering
  }

  function ConfigKind(stage: Stage): Kind {
    if stage.Fetch? then Fetcher else Deliverer
  }

  function Start(p: Policy, given: Given, now: Time): Local {
    Local(given, if p.maxAttempts <= 0 then Returned(RetriesExceeded) else Top, 0, true, p.baseDelay, now, 0, 0, false)
  }

  // Where the loop goes once Handle has returned err and code.
  function PcAfter(p: Policy, attempt: nat, err: Err, code: int): Pc {
    if code !in p.retryOn then Returned(err)
    else if attempt == p.maxAttempts - 1 then Returned(if err == NoError then HttpStatusError else err)
    else Retrying(err)
  }

  function After(p: Policy, l: Local, err: Err, code: int): Local {
    l.(pc := PcAfter(p, l.attempt, err, code))
  }

  // The delay proposed before attempt + 1, given the current delay variable.
  function Proposed(p: Policy, attempt: nat, delay: Time): Time {
    if Exponential(p) then Backoff(attempt, p.baseDelay, p.maxDelay) else delay
  }

  function AtTop(p: Policy, l: Local, e: Event): Option<Local> {
    if e.Cancel? then Some(l.(pc := Returned(Cancelled)))
    else if e.BadHeaders? && !l.given.wellFormed then Some(After(p, l, Term, 0))
    else if e.SetRunStatus? && l.given.wellFormed && l.needStatus && e.status == GateStatus(l.given.stage) then
      Some(if e.ok then l.(pc := Configuring, needStatus := false) else After(p, l, Term, 0))
    else if e.GetConfig? && !l.needStatus then AtConfiguring(p, l, e)
    else None
  }

  function AtConfiguring(p: Policy, l: Local, e: Event): Option<Local> {
    if e.GetConfig? && e.kind == ConfigKind(l.given.stage) then
      Some(if e.ok then l.(pc := Configured(e.config)) else After(p, l, Nak, 0))
    else None
  }

  // A JSON column that is NULL reads as empty.
  function Column(c: Option<Json>): Json {
    if c.Some? then c.value else ""
  }

  // The fetcher sends the configured payload, the deliverer the message.
  function RequestOf(given: Given, config: IOConfig): Request {
    Request(config.verb, config.targetUrl, config.headers,
            if given.stage.Fetch? then Column(config.payload) else given.input)
  }

  function AtConfigured(p: Policy, l: Local, e: Event): Option<Local>
    requires l.pc.Configured?
  {
    if e.BadConfigHeaders? && Column(l.pc.config.headers) != "" then Some(After(p, l, Term, 0))
    else if e.Send? && e.request == RequestOf(l.given, l.pc.config) then
      Some(l.(pc := Waiting(l.pc.config), sends := l.sends + 1))
    else None
  }

  function AtWaiting(p: Policy, l: Local, e: Event): Option<Local>
    requires l.pc.Waiting?
  {
    if !e.Reply? then None
    else if e.failed || e.code in p.retryOn then Some(After(p, l, Nak, e.code))
    else Some(l.(pc := Replied(l.pc.config, e.code, e.body)))
  }

  // The fetcher checks the schema and publishes; the deliverer marks the run idle.
  function AtReplied(p: Policy, l: Local, e: Event): Option<Local>
    requires l.pc.Replied?
  {
    if l.given.stage.Fetch? && e.SchemaCheck? && e.schema == l.pc.config.jsonSchema && e.body == l.pc.body
       && (Column(e.schema) == "" ==> e.ok) then
      Some(if e.ok then l.(pc := Checked(l.pc.code, l.pc.body)) else After(p, l, Term, 0))
    else if l.given.stage.Delivery? && e.SetRunStatus? && e.status == Idle then
      Some(if e.ok then After(p, l.(emitted := true), NoError, l.pc.code) else After(p, l, Term, 0))
    else None
  }

  function AtChecked(p: Policy, l: Local, e: Event): Option<Local>
    requires l.pc.Checked?
  {
    if !e.Publish? || e.body != l.pc.body then None
    else
      var m := l.(publishes := l.publishes + 1, emitted := e.ok);
      Some(if e.ok then After(p, m, NoError, l.pc.code) else After(p, m, Nak, 0))
  }

  function AtRetrying(p: Policy, l: Local, e: Event): Option<Local>
    requires l.pc.Retrying?
  {
    if e.OutOfBudget? && e.at >= l.clock
        && FitDelay(Proposed(p, l.attempt, l.delay), l.given.deadline - e.at).None? then
      Some(l.(pc := Returned(l.pc.err), clock := e.at))
    else if e.Plan? && e.at >= l.clock
        && FitDelay(Proposed(p, l.attempt, l.delay), l.given.deadline - e.at) == Some(e.planned) then
      Some(l.(pc := Sleeping(e.at + e.planned), delay := e.planned, clock := e.at))
    else None
  }

  function AtSleeping(l: Local, e: Event): Option<Local>
    requires l.pc.Sleeping?
  {
    if e.Cancel? then Some(l.(pc := Returned(Cancelled)))
    else if e.Wake? && e.at >= l.pc.wakeAt && e.at >= l.clock then
      Some(l.(pc := Top, attempt := l.attempt + 1, clock := e.at))
    else None
  }

  // The consumer: ack a success, call the error handler for a Term error or on
  // the final delivery, and nak everything else.
  function AtReturned(l: Local, e: Event): Option<Local>
    requires l.pc.Returned?
  {
    if l.pc.err == NoError then
      if e == Answer(AckMsg) then Some(l.(pc := Done(AckMsg, false))) else None
    else if l.pc.err != Term && !l.given.isFinal then
      if e == Answer(NakMsg) then Some(l.(pc := Done(NakMsg, false))) else None
    else if l.given.wellFormed && e.SetRunStatus? && e.status == Error then Some(l.(pc := ErrorHandled(e.ok)))
    else if !l.given.wellFormed && e.BadHeaders? then Some(l.(pc := ErrorHandled(false)))
    else None
  }

  function AtErrorHandled(l: Local, e: Event): Option<Local>
    requires l.pc.ErrorHandled?
  {
    var answer := if l.pc.ok || l.given.isFinal then TermMsg else NakMsg;
    if e == Answer(answer) then Some(l.(pc := Done(answer, l.pc.ok))) else None
  }

  function Next(p: Policy, l: Local, e: Event): Option<Local> {
    match l.pc
    case Top => AtTop(p, l, e)
    case Configuring => AtConfiguring(p, l, e)
    case Configured(_) => AtConfigured(p, l, e)
    case Waiting(_) => AtWaiting(p, l, e)
    case Replied(_, _, _) => AtReplied(p, l, e)
    case Checked(_, _) => AtChecked(p, l, e)
    case Retrying(_) => AtRetrying(p, l, e)
    case Sleeping(_) => AtSleeping(l, e)
    case Returned(_) => AtReturned(l, e)
    case ErrorHandled(_) => AtErrorHandled(l, e)
    case Done(_, _) => None
  }

  // The state reached from l by a sequence of events, if all are accepted.
  function Accepts(p: Policy, l: Local, events: seq<Event>): Option<Local> {
    if events == [] then Some(l)
    else
      var before := Accepts(p, l, events[..|events| - 1]);
      if before.None? then None else Next(p, before.value, events[|events| - 1])
  }

  predicate IsStart(p: Policy, l: Local) {
    l == Start(p, l.given, l.clock)
  }

  // The write that ends the error handler successfully happened.
  predicate WroteError(l: Local) {
    l.pc == ErrorHandled(true) || (l.pc.Done? && l.pc.wroteError)
  }

  // ------------------------------------------------------------ what holds in it

  predicate Idling(pc: Pc) {
    pc.Top? || pc.Configuring? || pc.Configured?
  }

  // The loop counters: one request per attempt, and only behind the gate.
  predicate CountersInv(p: Policy, l: Local) {
    && (p.maxAttempts > 0 ==> l.attempt < p.maxAttempts)
    && (p.maxAttempts <= 0 ==> l.sends == 0 && (l.pc == Returned(RetriesExceeded) || l.pc.ErrorHandled? || l.pc.Done?))
    && (l.pc.Retrying? || l.pc.Sleeping? ==> l.attempt < p.maxAttempts - 1)
    && l.sends <= l.attempt + (if Idling(l.pc) || p.maxAttempts <= 0 then 0 else 1)
    && (l.needStatus ==> l.sends == 0)
    && (l.pc.Configuring? || l.pc.Configured? || l.pc.Waiting? || l.pc.Replied? || l.pc.Checked? ==> !l.needStatus)
    && (!l.given.wellFormed ==> l.needStatus)
  }

  // Publishing: never by a deliverer, at most once per request; and at most once
  // in all unless the pseudo status 0 counts as retryable.
  predicate PublishInv(p: Policy, l: Local) {
    && l.publishes <= l.sends
    && (l.pc.Waiting? || l.pc.Replied? || l.pc.Checked? ==> l.publishes < l.sends)
    && (l.pc.Checked? ==> l.given.stage.Fetch?)
    && (l.given.stage.Delivery? ==> l.publishes == 0)
    && (0 !in p.retryOn ==> l.publishes <= 1)
    && (0 !in p.retryOn && l.publishes == 1 ==> l.pc.Returned? || l.pc.ErrorHandled? || l.pc.Done?)
  }

  // What the final result and the answer mean.
  predicate OutcomeInv(p: Policy, l: Local) {
    && (l.pc.Replied? ==> l.pc.code !in p.retryOn)
    && (l.pc.Checked? ==> l.pc.code !in p.retryOn)
    && (l.emitted <==> l.pc == Returned(NoError) || (l.pc.Done? && l.pc.answer == AckMsg))
    && (l.emitted && l.given.stage.Fetch? ==> l.publishes > 0)
    && (l.pc.Returned? ==> l.pc.err != HttpStatusError && (l.pc.err == RetriesExceeded <==> p.maxAttempts <= 0))
    && (l.pc.Retrying? ==> l.pc.err == Nak || (l.pc.err == Term && 0 in p.retryOn))
    && (l.pc.Done? && l.pc.answer == TermMsg ==> l.given.isFinal || l.pc.wroteError)
    && (l.pc.Done? && l.pc.wroteError ==> l.pc.answer == TermMsg)
  }

  predicate LocalInv(p: Policy, l: Local) {
    CountersInv(p, l) && PublishInv(p, l) && OutcomeInv(p, l)
  }

  // An attempt runs from the head of the loop to the result of Handle.
  predicate InAttempt(pc: Pc) {
    Idling(pc) || pc.Waiting? || pc.Replied? || pc.Checked?
  }

  lemma CountersInAttempt(p: Policy, l: Local, e: Event)
    requires InAttempt(l.pc) && CountersInv(p, l) && Next(p, l, e).Some?
    ensures CountersInv(p, Next(p, l, e).value)
  {
    hide FitDelay, Proposed;
  }

  lemma CountersLater(p: Policy, l: Local, e: Event)
    requires !InAttempt(l.pc) && CountersInv(p, l) && Next(p, l, e).Some?
    ensures CountersInv(p, Next(p, l, e).value)
  {
    hide FitDelay, Proposed;
  }

  lemma PublishInAttempt(p: Policy, l: Local, e: Event)
    requires InAttempt(l.pc) && PublishInv(p, l) && OutcomeInv(p, l) && Next(p, l, e).Some?
    ensures PublishInv(p, Next(p, l, e).value)
  {
    hide FitDelay, Proposed;
  }

  lemma PublishLater(p: Policy, l: Local, e: Event)
    requires !InAttempt(l.pc) && PublishInv(p, l) && OutcomeInv(p, l) && Next(p, l, e).Some?
    ensures PublishInv(p, Next(p, l, e).value)
  {
    hide FitDelay, Proposed;
  }

  lemma OutcomeInAttempt(p: Policy, l: Local, e: Event)
    requires InAttempt(l.pc) && CountersInv(p, l) && OutcomeInv(p, l) && Next(p, l, e).Some?
    ensures OutcomeInv(p, Next(p, l, e).value)
  {
    hide FitDelay, Proposed;
  }

  lemma OutcomeLater(p: Policy, l: Local, e: Event)
    requires !InAttempt(l.pc) && CountersInv(p, l) && OutcomeInv(p, l) && Next(p, l, e).Some?
    ensures OutcomeInv(p, Next(p, l, e).value)
  {
    hide FitDelay, Proposed;
  }

  lemma GivenStep(p: Policy, l: Local, e: Event)
    requires Next(p, l, e).Some?
    ensures Next(p, l, e).value.given == l.given
  {
    hide FitDelay, Proposed;
  }

  lemma LocalInvStep(p: Policy, l: Local, e: Event)
    requires LocalInv(p, l) && Next(p, l, e).Some?
    ensures LocalInv(p, Next(p, l, e).value) && Next(p, l, e).value.given == l.given
  {
    hide Next, CountersInv, PublishInv, OutcomeInv;
    GivenStep(p, l, e);
    if InAttempt(l.pc) {
      CountersInAttempt(p, l, e);
      PublishInAttempt(p, l, e);
      OutcomeInAttempt(p, l, e);
    } else {
      CountersLater(p, l, e);
      PublishLater(p, l, e);
      OutcomeLater(p, l, e);
    }
  }

  lemma {:induction false} LocalInvAlways(p: Policy, l: Local, events: seq<Event>)
    requires IsStart(p, l) && Accepts(p, l, events).Some?
    ensures LocalInv(p, Accepts(p, l, events).value) && Accepts(p, l, events).value.given == l.given
  {
    hide Next;
    if events != [] {
      var front := events[..|events| - 1];
      LocalInvAlways(p, l, front);
      LocalInvStep(p, Accepts(p, l, front).value, events[|events| - 1]);
    }
  }

  lemma AcceptsPrefix(p: Policy, l: Local, events: seq<Event>, n: nat)
    requires Accepts(p, l, events).Some? && n <= |events|
    ensures Accepts(p, l, events[..n]).Some?
    decreases |events|
  {
    if n == |events| {
      assert events[..n] == events;
    } else {
      var front := events[..|events| - 1];
      AcceptsPrefix(p, l, front, n);
      assert front[..n] == events[..n];
    }
  }
}
