// The handlers of the fetcher and the deliverer, their shared retry loop, and
// the consumer callback, as methods over one delivery of one message. Calls to
// the database, HTTP and the queue have arbitrary outcomes and take arbitrary
// time. Each call is only permitted where the automaton of Worker accepts every
// outcome it may have, so every method here is proved to follow that automaton.
module Handlers {
  import opened Model
  import opened Retry
  import opened Worker
  import opened RetryLoop
  import A = Attempts

  class Session {
    const policy: Policy
    const stage: Stage
    const data: Json
    const headersParse: bool
    var now: Time
    ghost const first: Local
    ghost var events: seq<Event>
    ghost var local: Local

    ghost predicate Valid()
      reads this
    {
      && IsStart(policy, first) && Accepts(policy, first, events) == Some(local)
      && first.given.stage == stage && first.given.input == data && first.given.wellFormed == headersParse
      && LocalInv(policy, local) && local.given == first.given && local.clock <= now
    }

    ghost predicate Allows(e: Event)
      reads this
    {
      Next(policy, local, e).Some? && Next(policy, local, e).value.clock <= now
    }

    // Exactly e happened since the old state.
    twostate predicate Did(e: Event)
      requires old(Allows(e))
      reads this
    {
      events == old(events) + [e] && local == Next(policy, old(local), e).value && old(now) <= now
    }

    constructor (policy: Policy, stage: Stage, headersParse: bool, data: Json, isFinal: bool, now: Time, budget: Time)
      ensures Valid() && this.policy == policy && this.stage == stage && this.now == now && events == []
      ensures first == local == Start(policy, Given(stage, headersParse, data, isFinal, now + budget), now)
    {
      this.policy, this.stage, this.headersParse, this.data, this.now := policy, stage, headersParse, data, now;
      var l := Start(policy, Given(stage, headersParse, data, isFinal, now + budget), now);
      first, local, events := l, l, [];
      new;
      LocalInvAlways(policy, first, []);
    }

    method Elapse(least: Time)
      requires least >= 0
      modifies `now
      ensures now >= old(now) + least
    {
      var late: int := *;
      now := now + least + (if late > 0 then late else 0);
    }

    method Observe(ghost e: Event)
      requires Valid() && Allows(e)
      modifies this
      ensures Valid() && Did(e)
    {
      hide Next, Accepts, LocalInv, IsStart;
      Extend(policy, first, events, e);
      LocalInvStep(policy, local, e);
      events := events + [e];
      local := Next(policy, local, e).value;
      Elapse(0);
    }

    method RejectHeaders()
      requires Valid() && Allows(BadHeaders)
      modifies this
      ensures Valid() && Did(BadHeaders)
    {
      Observe(BadHeaders);
    }

    method SetJobRunStatus(status: Status) returns (ok: bool)
      requires Valid() && Allows(SetRunStatus(status, true)) && Allows(SetRunStatus(status, false))
      modifies this
      ensures Valid() && Did(SetRunStatus(status, ok))
    {
      ok := *;
      Observe(SetRunStatus(status, ok));
    }

    method GetConfig(kind: Kind) returns (config: Option<IOConfig>)
      requires Valid() && (forall ok, config :: Allows(Event.GetConfig(kind, ok, config)))
      modifies this
      ensures Valid() && Did(Event.GetConfig(kind, config.Some?, Coalesce(config, NO_CONFIG)))
    {
      config := *;
      Observe(Event.GetConfig(kind, config.Some?, Coalesce(config, NO_CONFIG)));
    }

    // Absent headers decode to an empty map; anything else may be malformed.
    method DecodeHeaders(headers: Option<Json>) returns (ok: bool)
      requires Valid() && local.pc.Configured? && headers == local.pc.config.headers
      modifies this
      ensures Valid()
      ensures if ok then unchanged(this) else old(Allows(BadConfigHeaders)) && Did(BadConfigHeaders)
      ensures headers.None? || |headers.value| == 0 ==> ok
    {
      ok := *;
      if headers.None? || |headers.value| == 0 { ok := true; }
      if !ok { Observe(BadConfigHeaders); }
    }

    method Do(request: Request) returns (failed: bool, code: int, response: Json)
      requires Valid() && local.pc.Configured? && Allows(Send(request))
      modifies this
      ensures Valid() && old(now) <= now
      ensures events == old(events) + [Send(request)] + [Reply(failed, code, response)]
      ensures local == Next(policy, Next(policy, old(local), Send(request)).value, Reply(failed, code, response)).value
    {
      Observe(Send(request));
      failed, code, response := *, *, *;
      Observe(Reply(failed, code, response));
    }

    // An empty schema accepts every body.
    method CheckSchema(schema: Option<Json>, body: Json) returns (ok: bool)
      requires Valid() && local.pc.Replied? && local.given.stage.Fetch?
      requires schema == local.pc.config.jsonSchema && body == local.pc.body
      modifies this
      ensures Valid() && old(Allows(SchemaCheck(schema, body, ok))) && Did(SchemaCheck(schema, body, ok))
      ensures schema.None? || |schema.value| == 0 ==> ok
    {
      ok := *;
      if schema.None? || |schema.value| == 0 { ok := true; }
      Observe(SchemaCheck(schema, body, ok));
    }

    method PublishDeliver(body: Json) returns (ok: bool)
      requires Valid() && Allows(Publish(body, true)) && Allows(Publish(body, false))
      modifies this
      ensures Valid() && Did(Publish(body, ok))
    {
      ok := *;
      Observe(Publish(body, ok));
    }

    method ContextDone() returns (done: bool)
      requires Valid() && local.pc.Top?
      modifies this
      ensures Valid()
      ensures if done then local.pc == Returned(Cancelled) else unchanged(this)
    {
      done := *;
      if done { Observe(Cancel); }
    }

    // The delay that fits before the deadline now, from the present delay variable.
    ghost function Fitting(): Option<Time>
      reads this
    {
      FitDelay(Proposed(policy, local.attempt, local.delay), local.given.deadline - now)
    }

    method GiveUp()
      requires Valid() && local.pc.Retrying? && Fitting().None?
      modifies this
      ensures Valid() && local.pc == Returned(old(local.pc.err))
    {
      Observe(OutOfBudget(now));
    }

    // Sleeps for at least d, unless the context ends first.
    method SleepFor(d: Time) returns (completed: bool)
      requires Valid() && local.pc.Retrying? && Fitting() == Some(d)
      modifies this
      ensures Valid()
      ensures completed ==>
        local == old(local).(pc := Top, attempt := old(local).attempt + 1, delay := d, clock := local.clock)
      ensures !completed ==> local.pc == Returned(Cancelled)
    {
      var at := now;
      Observe(Plan(at, d));
      assert local.pc == Sleeping(at + d) && local.clock == at;
      completed := *;
      if completed {
        Elapse(if d > 0 then d else 0);
        Observe(Wake(now));
      } else {
        Observe(Cancel);
      }
    }

    method Respond(answer: Answer)
      requires Valid() && Allows(Event.Answer(answer))
      modifies this
      ensures Valid() && Did(Event.Answer(answer))
    {
      Observe(Event.Answer(answer));
    }
  }

  method InSlice(slice: seq<int>, elem: int) returns (found: bool)
    ensures found <==> elem in slice
  {
    for i := 0 to |slice|
      invariant elem !in slice[..i]
    {
      if slice[i] == elem {
        return true;
      }
    }
    return false;
  }

  // What Handle leaves untouched of the loop around it.
  predicate SameLoop(l: Local, m: Local) {
    m.attempt == l.attempt && m.delay == l.delay && m.clock == l.clock
  }

  // The result of Handle is what its last event means.
  predicate Reports(p: Policy, events: seq<Event>, err: Err, code: int) {
    && events != []
    && match A.VerdictOf(p, events[|events| - 1])
       case GoesOn => false
       case Succeeds => err == NoError && code !in p.retryOn
       case Ends(e, c) => err == e && code == c
  }

  // The last part of the fetcher's Handle, once the source has answered acceptably.
  method FinishFetch(s: Session, schema: Option<Json>, status: int, body: Json) returns (err: Err, code: int)
    requires s.Valid() && s.local.pc.Replied? && s.stage.Fetch? && status !in s.policy.retryOn
    requires schema == s.local.pc.config.jsonSchema && status == s.local.pc.code && body == s.local.pc.body
    modifies s
    ensures s.Valid() && SameLoop(old(s.local), s.local) && s.local.needStatus == old(s.local.needStatus)
    ensures s.local.pc == PcAfter(s.policy, s.local.attempt, err, code) && Reports(s.policy, s.events, err, code)
  {
    hide LocalInv, Accepts, IsStart, PcAfter, AtRetrying, AtSleeping, AtReturned, AtErrorHandled;
    var accepted := s.CheckSchema(schema, body);
    if !accepted {
      return Term, 0;
    }
    var published := s.PublishDeliver(body);
    if !published {
      return Nak, 0;
    }
    return NoError, status;
  }

  method FetcherHandle(s: Session, needStatus: bool) returns (err: Err, code: int, stillNeeded: bool)
    requires s.Valid() && s.local.pc.Top? && s.stage.Fetch? && needStatus == s.local.needStatus
    modifies s
    ensures s.Valid() && SameLoop(old(s.local), s.local)
    ensures s.local.pc == PcAfter(s.policy, s.local.attempt, err, code) && s.local.needStatus == stillNeeded
    ensures Reports(s.policy, s.events, err, code)
  {
    hide LocalInv, Accepts, IsStart, PcAfter, AtRetrying, AtSleeping, AtReturned, AtErrorHandled;
    stillNeeded := needStatus;
    if !s.headersParse {
      s.RejectHeaders();
      return Term, 0, stillNeeded;
    }
    if needStatus {
      var claimed := s.SetJobRunStatus(Fetching);
      if !claimed {
        return Term, 0, stillNeeded;
      }
    }
    stillNeeded := false;
    var config := s.GetConfig(Fetcher);
    if config.None? {
      return Nak, 0, stillNeeded;
    }
    var decoded := s.DecodeHeaders(config.value.headers);
    if !decoded {
      return Term, 0, stillNeeded;
    }
    var payload := if config.value.payload.Some? then config.value.payload.value else "";
    var request := Request(config.value.verb, config.value.targetUrl, config.value.headers, payload);
    var failed, status, body := s.Do(request);
    if failed {
      return Nak, status, stillNeeded;
    }
    var retryable := InSlice(s.policy.retryOn, status);
    if retryable {
      return Nak, status, stillNeeded;
    }
    err, code := FinishFetch(s, config.value.jsonSchema, status, body);
  }

  method DelivererHandle(s: Session, needStatus: bool) returns (err: Err, code: int, stillNeeded: bool)
    requires s.Valid() && s.local.pc.Top? && s.stage.Delivery? && needStatus == s.local.needStatus
    modifies s
    ensures s.Valid() && SameLoop(old(s.local), s.local)
    ensures s.local.pc == PcAfter(s.policy, s.local.attempt, err, code) && s.local.needStatus == stillNeeded
    ensures Reports(s.policy, s.events, err, code)
  {
    hide LocalInv, Accepts, IsStart, PcAfter, AtRetrying, AtSleeping, AtReturned, AtErrorHandled;
    stillNeeded := needStatus;
    if !s.headersParse {
      s.RejectHeaders();
      return Term, 0, stillNeeded;
    }
    if needStatus {
      var claimed := s.SetJobRunStatus(Delivering);
      if !claimed {
        return Term, 0, stillNeeded;
      }
    }
    stillNeeded := false;
    var config := s.GetConfig(Deliverer);
    if config.None? {
      return Nak, 0, stillNeeded;
    }
    var decoded := s.DecodeHeaders(config.value.headers);
    if !decoded {
      return Term, 0, stillNeeded;
    }
    var request := Request(config.value.verb, config.value.targetUrl, config.value.headers, s.data);
    var failed, status, _ := s.Do(request);
    if failed {
      return Nak, status, stillNeeded;
    }
    var retryable := InSlice(s.policy.retryOn, status);
    if retryable {
      return Nak, status, stillNeeded;
    }
    var finished := s.SetJobRunStatus(Idle);
    if !finished {
      return Term, 0, stillNeeded;
    }
    return NoError, status, stillNeeded;
  }

  lemma PipelineConcludes(s: Session)
    requires s.Valid() && s.local.pc.Returned?
    ensures A.Concludes(s.policy, s.events, s.local.pc.err)
  {
    A.ResultExactly(s.policy, s.first, s.events);
  }

  // The retry loop; the two services contain the same loop around their Handle.
  method PipelineHandler(s: Session, maxTimeCompleting: Time) returns (err: Err)
    requires s.Valid() && s.events == [] && s.now + maxTimeCompleting == s.first.given.deadline
        && s.now == s.first.clock
    modifies s
    ensures s.Valid() && s.local.pc == Returned(err)
    ensures err == RetriesExceeded <==> s.policy.maxAttempts <= 0
    ensures err != HttpStatusError
    ensures err == NoError ==> s.local.emitted
    ensures A.Concludes(s.policy, s.events, err)
  {
    hide Next, FitDelay, Backoff, CountersInv, PublishInv, A.Concludes;
    var needNotifyDb, delay, deadline := true, s.policy.baseDelay, s.now + maxTimeCompleting;
    var attempt := 0;
    while attempt < s.policy.maxAttempts
      invariant s.Valid() && attempt >= 0 && (s.policy.maxAttempts > 0 ==> attempt < s.policy.maxAttempts)
      invariant s.local.pc == if s.policy.maxAttempts > 0 then Top else Returned(RetriesExceeded)
      invariant s.local.attempt == attempt && s.local.delay == delay && s.local.needStatus == needNotifyDb
      invariant deadline == s.first.given.deadline
    {
      var done := s.ContextDone();
      if done {
        PipelineConcludes(s);
        return Cancelled;
      }
      var code: int;
      if s.stage.Fetch? {
        err, code, needNotifyDb := FetcherHandle(s, needNotifyDb);
      } else {
        err, code, needNotifyDb := DelivererHandle(s, needNotifyDb);
      }
      var isHttpError := InSlice(s.policy.retryOn, code);
      if !isHttpError {
        PipelineConcludes(s);
        return;
      }
      if attempt == s.policy.maxAttempts - 1 {
        if err == NoError {
          PipelineConcludes(s);
          return HttpStatusError;
        }
        PipelineConcludes(s);
        return;
      }
      if Exponential(s.policy) {
        delay := BackoffDuration(attempt, s.policy.baseDelay, s.policy.maxDelay);
      }
      var fitted := FitDelay(delay, deadline - s.now);
      if fitted.None? {
        s.GiveUp();
        PipelineConcludes(s);
        return;
      }
      delay := fitted.value;
      var slept := s.SleepFor(delay);
      if !slept {
        PipelineConcludes(s);
        return Cancelled;
      }
      attempt := attempt + 1;
    }
    PipelineConcludes(s);
    return RetriesExceeded;
  }

  // ErrorHandler of the fetcher and HandleError of the deliverer.
  method ErrorHandler(s: Session) returns (ok: bool)
    requires s.Valid() && s.local.pc.Returned? && s.local.pc.err != NoError
    requires s.local.pc.err == Term || s.local.given.isFinal
    modifies s
    ensures s.Valid() && s.local.pc == ErrorHandled(ok)
  {
    if !s.headersParse {
      s.RejectHeaders();
      return false;
    }
    ok := s.SetJobRunStatus(Error);
  }

  lemma AnswerBelongs(s: Session)
    requires s.Valid() && s.local.pc.Done?
    ensures exists n, err | 0 <= n <= |s.events| ::
              && A.Concludes(s.policy, s.events[..n], err)
              && A.Answers(s.first.given, err, s.events[n..], s.local.pc.answer)
  {
    var n, err := A.AnsweredExactly(s.policy, s.first, s.events);
    A.ResultExactly(s.policy, s.first, s.events[..n]);
  }

  // The callback of the consumer, for the given delivery attempt (0 when the
  // metadata of the message cannot be read).
  method ConsumeMessage(s: Session, maxDeliver: int, deliveryAttempt: nat, maxProcessingTime: Time)
    returns (answer: Answer)
    requires s.Valid() && s.events == [] && s.now + maxProcessingTime == s.first.given.deadline
        && s.now == s.first.clock
    requires s.first.given.isFinal <==> maxDeliver > 0 && deliveryAttempt >= maxDeliver
    modifies s
    ensures s.Valid() && s.local.pc.Done? && s.local.pc.answer == answer
    ensures answer == AckMsg <==> s.local.emitted
    ensures answer == TermMsg ==> WroteError(s.local) || (maxDeliver > 0 && deliveryAttempt >= maxDeliver)
    ensures exists n, err | 0 <= n <= |s.events| ::
              A.Concludes(s.policy, s.events[..n], err) && A.Answers(s.first.given, err, s.events[n..], answer)
  {
    hide Accepts, IsStart, A.Concludes, A.Answers;
    var err := PipelineHandler(s, maxProcessingTime);
    if err == NoError {
      answer := AckMsg;
    } else {
      var maxDeliverReached := maxDeliver > 0 && deliveryAttempt >= maxDeliver;
      if err == Term || maxDeliverReached {
        var written := ErrorHandler(s);
        if written || maxDeliverReached {
          answer := TermMsg;
        } else {
          answer := NakMsg;
        }
      } else {
        answer := NakMsg;
      }
    }
    s.Respond(answer);
    AnswerBelongs(s);
  }
}
