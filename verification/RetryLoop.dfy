// What every accepted event sequence of one delivery satisfies, whatever the
// handlers meet and however late timers fire.
module RetryLoop {
  import opened Model
  import opened Retry
  import opened Worker

  function Sends(events: seq<Event>): nat {
    if events == [] then 0
    else Sends(events[..|events| - 1]) + if events[|events| - 1].Send? then 1 else 0
  }

  function Plans(events: seq<Event>): nat {
    if events == [] then 0
    else Plans(events[..|events| - 1]) + if events[|events| - 1].Plan? then 1 else 0
  }

  function PlannedSleep(events: seq<Event>): Time {
    if events == [] then 0
    else
      var e := events[|events| - 1];
      PlannedSleep(events[..|events| - 1]) + if e.Plan? then e.planned else 0
  }

  lemma Extend(p: Policy, l: Local, events: seq<Event>, e: Event)
    requires Accepts(p, l, events).Some?
    ensures Accepts(p, l, events + [e]) == Next(p, Accepts(p, l, events).value, e)
  {
    assert (events + [e])[..|events|] == events;
  }

  lemma SendCounts(p: Policy, l: Local, e: Event)
    requires Next(p, l, e).Some?
    ensures Next(p, l, e).value.sends == l.sends + if e.Send? then 1 else 0
  {
    hide FitDelay, Proposed, PcAfter;
  }

  lemma {:induction false} SendsCounted(p: Policy, l: Local, events: seq<Event>)
    requires IsStart(p, l) && Accepts(p, l, events).Some?
    ensures Accepts(p, l, events).value.sends == Sends(events)
  {
    hide Next;
    if events != [] {
      var front := events[..|events| - 1];
      SendsCounted(p, l, front);
      SendCounts(p, Accepts(p, l, front).value, events[|events| - 1]);
    }
  }

  // One delivery makes at most MaxAttempts requests, and none if its headers do
  // not parse.
  lemma RequestsBounded(p: Policy, l: Local, events: seq<Event>)
    requires IsStart(p, l) && Accepts(p, l, events).Some?
    ensures Sends(events) <= if p.maxAttempts > 0 && l.given.wellFormed then p.maxAttempts else 0
  {
    SendsCounted(p, l, events);
    LocalInvAlways(p, l, events);
  }

  // ------------------------------------------------------------------- results

  lemma OnlyRetryableRetries(p: Policy, l: Local, e: Event)
    requires LocalInv(p, l) && Next(p, l, e).Some? && Next(p, l, e).value.pc.Retrying?
    ensures if e.Reply? then e.code in p.retryOn else 0 in p.retryOn
  {
    hide FitDelay, Proposed;
  }

  lemma SleepsWhileRetrying(p: Policy, l: Local, e: Event)
    requires Next(p, l, e).Some? && (e.Plan? || e.OutOfBudget?)
    ensures l.pc.Retrying?
  {
    hide FitDelay, Proposed, PcAfter;
  }

  lemma {:induction false} RetriesFollowRetryable(p: Policy, l: Local, events: seq<Event>, i: nat)
    requires IsStart(p, l) && Accepts(p, l, events).Some?
    requires i < |events| && (events[i].Plan? || events[i].OutOfBudget?)
    ensures i > 0 && if events[i - 1].Reply? then events[i - 1].code in p.retryOn else 0 in p.retryOn
  {
    hide Next, LocalInv, PcAfter;
    var front := events[..|events| - 1];
    if i < |front| {
      RetriesFollowRetryable(p, l, front, i);
    } else {
      SleepsWhileRetrying(p, Accepts(p, l, front).value, events[i]);
      assert front != [];
      var first := front[..|front| - 1];
      LocalInvAlways(p, l, first);
      OnlyRetryableRetries(p, Accepts(p, l, first).value, front[|front| - 1]);
    }
  }

  lemma EmissionEnds(p: Policy, l: Local, e: Event)
    requires LocalInv(p, l) && Next(p, l, e).Some? && Next(p, l, e).value.pc == Returned(NoError)
    ensures if l.given.stage.Fetch? then e.Publish? && e.ok else e == SetRunStatus(Idle, true)
  {
    hide FitDelay, Proposed;
  }

  // A nil result: the last event is the successful effect of the last attempt
  // (the publish, or the write of idle), and a further attempt was only ever made
  // after a status that counts as retryable; without an HTTP status that is 0.
  lemma NilResult(p: Policy, l: Local, events: seq<Event>)
    requires IsStart(p, l) && Accepts(p, l, events).Some? && Accepts(p, l, events).value.pc == Returned(NoError)
    ensures events != []
    ensures
      var e := events[|events| - 1];
      if l.given.stage.Fetch? then e.Publish? && e.ok else e == SetRunStatus(Idle, true)
    ensures forall i | 0 <= i < |events| && events[i].Plan? ::
              i > 0 && if events[i - 1].Reply? then events[i - 1].code in p.retryOn else 0 in p.retryOn
  {
    hide Next, LocalInv, PcAfter;
    var front := events[..|events| - 1];
    LocalInvAlways(p, l, front);
    EmissionEnds(p, Accepts(p, l, front).value, events[|events| - 1]);
    forall i | 0 <= i < |events| && events[i].Plan?
      ensures i > 0 && if events[i - 1].Reply? then events[i - 1].code in p.retryOn else 0 in p.retryOn
    {
      RetriesFollowRetryable(p, l, events, i);
    }
  }

  // The two errors built at the end of the loop: a nil error with a retryable
  // status never gets there, and the closing error means that no attempt was
  // allowed at all.
  lemma ErrorResults(p: Policy, l: Local, events: seq<Event>)
    requires IsStart(p, l) && Accepts(p, l, events).Some? && Accepts(p, l, events).value.pc.Returned?
    ensures Accepts(p, l, events).value.pc != Returned(HttpStatusError)
    ensures Accepts(p, l, events).value.pc == Returned(RetriesExceeded) <==> p.maxAttempts <= 0
  {
    hide Next, CountersInv, PublishInv;
    LocalInvAlways(p, l, events);
  }

  lemma ExhaustedResult(p: Policy, l: Local, e: Event)
    requires LocalInv(p, l) && Next(p, l, e).Some? && e.OutOfBudget?
    ensures l.pc.Retrying? && Next(p, l, e).value.pc == Returned(l.pc.err)
    ensures l.pc.err == Nak || (l.pc.err == Term && 0 in p.retryOn)
    ensures p.maxAttempts > 1
  {
    hide FitDelay, Proposed;
  }

  // A well-formed message with time to process it ended with an exhausted budget;
  // the result is `err`.
  ghost predicate Exhausts(p: Policy, given: Given, now: Time, events: seq<Event>, err: Err) {
    && given.wellFormed && given.deadline > now
    && events != [] && events[|events| - 1].OutOfBudget?
    && Accepts(p, Start(p, given, now), events).Some?
    && Accepts(p, Start(p, given, now), events).value.pc == Returned(err)
  }

  // A gate write that fails counts as retryable, and the first attempt takes until
  // ten seconds before the deadline.
  lemma ExhaustWithTerm(p: Policy, given: Given, now: Time) returns (events: seq<Event>)
    requires p.maxAttempts >= 2 && 0 in p.retryOn && given.wellFormed && given.deadline > now
    ensures Exhausts(p, given, now, events, Term)
  {
    var start := Start(p, given, now);
    var gate, late := SetRunStatus(GateStatus(given.stage), false), OutOfBudget(given.deadline);
    Extend(p, start, [], gate);
    assert [] + [gate] == [gate];
    Extend(p, start, [gate], late);
    events := [gate] + [late];
  }

  // Running out of time always asks for redelivery, exactly when 0 is not a
  // retryable status or only one attempt is allowed: otherwise, for every message
  // and every processing time, a failed gate write may be retried and then ends the
  // message.
  lemma ExhaustionExact(p: Policy)
    ensures (forall given, now, events, err | Exhausts(p, given, now, events, err) :: err == Nak)
       <==> (0 !in p.retryOn || p.maxAttempts <= 1)
  {
    if 0 in p.retryOn && p.maxAttempts >= 2 {
      var given := Given(Fetch, true, "", false, 1);
      var events := ExhaustWithTerm(p, given, 0);
      assert Exhausts(p, given, 0, events, Term);
    } else {
      hide Next, LocalInv, PcAfter;
      forall given, now, events, err | Exhausts(p, given, now, events, err) ensures err == Nak {
        var front := events[..|events| - 1];
        LocalInvAlways(p, Start(p, given, now), front);
        var m := Accepts(p, Start(p, given, now), front).value;
        ExhaustedResult(p, m, events[|events| - 1]);
      }
    }
  }

  // ---------------------------------------------------------------- time budget

  predicate Running(pc: Pc) {
    InAttempt(pc) || pc.Retrying? || pc.Sleeping?
  }

  function Limit(l: Local): Time {
    l.given.deadline - ACK_SAFETY_GAP
  }

  // The time up to which a running handler has worked or planned to sleep.
  function Horizon(l: Local): Time {
    if l.pc.Sleeping? && l.pc.wakeAt > l.clock then l.pc.wakeAt else l.clock
  }

  lemma PlanStep(p: Policy, l: Local, e: Event)
    requires Next(p, l, e).Some?
    ensures
      var m := Next(p, l, e).value;
      && (Running(m.pc) ==> Running(l.pc) && Horizon(l) <= Horizon(m))
      && (e.Plan? ==>
            && l.pc.Retrying? && Running(m.pc)
            && Horizon(l) + e.planned <= Horizon(m) <= Limit(l)
            && Horizon(l) < Limit(l)
            && e.at + e.planned <= Limit(l)
            && (e.planned == Proposed(p, l.attempt, l.delay) || Horizon(m) >= Limit(l)))
  {
    hide Proposed;
  }

  // Every wake-up is planned for no later than ten seconds before the deadline,
  // and all planned sleeps together fit into the budget less those ten seconds.
  lemma {:induction false} SleepsFitBudget(p: Policy, l: Local, events: seq<Event>)
    requires IsStart(p, l) && Accepts(p, l, events).Some?
    ensures forall i | 0 <= i < |events| && events[i].Plan? :: events[i].at + events[i].planned <= Limit(l)
    ensures PlannedSleep(events) <= if Limit(l) > l.clock then Limit(l) - l.clock else 0
    ensures
      var m := Accepts(p, l, events).value;
      m.given == l.given && (Running(m.pc) ==> l.clock + PlannedSleep(events) <= Horizon(m))
  {
    hide Next;
    if events != [] {
      var front := events[..|events| - 1];
      SleepsFitBudget(p, l, front);
      LocalInvAlways(p, l, events);
      PlanStep(p, Accepts(p, l, front).value, events[|events| - 1]);
    }
  }

  // The delay asked for after the given attempt, ignoring the deadline.
  function Nominal(p: Policy, attempt: nat): Time {
    if Exponential(p) then Backoff(attempt, p.baseDelay, p.maxDelay) else p.baseDelay
  }

  predicate PlannedNominally(p: Policy, events: seq<Event>, i: nat)
    requires i < |events|
  {
    events[i].Plan? ==> events[i].planned == Nominal(p, Plans(events[..i]))
  }

  lemma LoopVariables(p: Policy, l: Local, e: Event)
    requires Next(p, l, e).Some? && Running(Next(p, l, e).value.pc)
    ensures
      var m := Next(p, l, e).value;
      && m.attempt + (if m.pc.Sleeping? then 1 else 0) == l.attempt + (if l.pc.Sleeping? || e.Plan? then 1 else 0)
      && m.delay == if e.Plan? then e.planned else l.delay
  {
    hide Proposed;
  }

  // While there is time left, no sleep so far was cut short.
  lemma {:induction false} NominalWhileTimeLeft(p: Policy, l: Local, events: seq<Event>)
    requires IsStart(p, l) && Accepts(p, l, events).Some? && Running(Accepts(p, l, events).value.pc)
    ensures
      var m := Accepts(p, l, events).value;
      m.attempt + (if m.pc.Sleeping? then 1 else 0) == Plans(events)
    ensures
      var m := Accepts(p, l, events).value;
      Horizon(m) < Limit(m) ==>
        (!Exponential(p) ==> m.delay == p.baseDelay) && forall i | 0 <= i < |events| :: PlannedNominally(p, events, i)
  {
    hide Next;
    if events != [] {
      var last := |events| - 1;
      var front := events[..last];
      var before, m := Accepts(p, l, front).value, Accepts(p, l, events).value;
      PlanStep(p, before, events[last]);
      LocalInvAlways(p, l, front);
      LocalInvAlways(p, l, events);
      NominalWhileTimeLeft(p, l, front);
      LoopVariables(p, before, events[last]);
      if Horizon(m) < Limit(m) {
        forall i | 0 <= i < |events| ensures PlannedNominally(p, events, i) {
          if i < last {
            assert front[..i] == events[..i];
            assert PlannedNominally(p, front, i);
          }
        }
      }
    }
  }

  // A sleep cut short by the deadline is the last one: any sleep followed by
  // another one had the full length of the backoff.
  lemma EarlierSleepsAreNominal(p: Policy, l: Local, events: seq<Event>, i: nat, k: nat)
    requires IsStart(p, l) && Accepts(p, l, events).Some?
    requires i < k < |events| && events[i].Plan? && events[k].Plan?
    ensures events[i].planned == Nominal(p, Plans(events[..i]))
  {
    AcceptsPrefix(p, l, events, k + 1);
    var upTo, before := events[..k + 1], events[..k];
    assert upTo[..|upTo| - 1] == before;
    var m := Accepts(p, l, before).value;
    PlanStep(p, m, events[k]);
    NominalWhileTimeLeft(p, l, before);
    assert PlannedNominally(p, before, i) && before[..i] == events[..i];
  }

  // ------------------------------------------------------------ single publishing

  predicate HttpStatus(code: int) {
    100 <= code <= 599
  }

  // A response that came back carries an HTTP status.
  predicate Realistic(events: seq<Event>) {
    forall i | 0 <= i < |events| && events[i].Reply? && !events[i].failed :: HttpStatus(events[i].code)
  }

  // Some response would not be retried.
  predicate Accepting(p: Policy) {
    exists code | 100 <= code <= 599 :: HttpStatus(code) && code !in p.retryOn
  }

  predicate SawAcceptable(p: Policy, events: seq<Event>) {
    exists i | 0 <= i < |events| :: events[i].Reply? && !events[i].failed && events[i].code !in p.retryOn
  }

  lemma AcceptableStep(p: Policy, l: Local, e: Event)
    requires Next(p, l, e).Some?
    ensures
      var m := Next(p, l, e).value;
      m.pc.Replied? || m.pc.Checked? || m.publishes > 0 ==>
        l.pc.Replied? || l.pc.Checked? || l.publishes > 0 || (e.Reply? && !e.failed && e.code !in p.retryOn)
  {
    hide FitDelay, Proposed;
  }

  // A publish needs a response that is not retryable.
  lemma {:induction false} PublishNeedsResponse(p: Policy, l: Local, events: seq<Event>)
    requires IsStart(p, l) && Accepts(p, l, events).Some?
    ensures
      var m := Accepts(p, l, events).value;
      m.pc.Replied? || m.pc.Checked? || m.publishes > 0 ==> SawAcceptable(p, events)
  {
    hide Next, PcAfter;
    if events != [] {
      var last := |events| - 1;
      PublishNeedsResponse(p, l, events[..last]);
      AcceptableStep(p, Accepts(p, l, events[..last]).value, events[last]);
      if SawAcceptable(p, events[..last]) {
        var i :| 0 <= i < last && events[..last][i].Reply? && !events[..last][i].failed
            && events[..last][i].code !in p.retryOn;
        assert events[i] == events[..last][i];
      }
    }
  }

  // One attempt of a fetcher up to a publish with the given outcome.
  lemma PublishingAttempt(p: Policy, start: Local, events: seq<Event>, code: int, ok: bool)
    returns (longer: seq<Event>)
    requires Accepts(p, start, events).Some? && code !in p.retryOn && HttpStatus(code) && Realistic(events)
    requires
      var m := Accepts(p, start, events).value;
      m.pc.Top? && m.given.stage.Fetch? && m.given.wellFormed
    ensures
      var m := Accepts(p, start, events).value;
      var pc := if ok then PcAfter(p, m.attempt, NoError, code) else PcAfter(p, m.attempt, Nak, 0);
      Accepts(p, start, longer) ==
        Some(m.(pc := pc, needStatus := false, sends := m.sends + 1, publishes := m.publishes + 1, emitted := ok))
    ensures Realistic(longer)
  {
    hide FitDelay, Proposed, AtRetrying, AtSleeping, AtReturned, AtErrorHandled;
    var config := IOConfig(None, None, None, "", "");
    var steps := [GetConfig(Fetcher, true, config), Send(Request("", "", None, "")), Reply(false, code, ""),
                  SchemaCheck(None, "", true), Publish("", ok)];
    longer := events;
    var l := Accepts(p, start, events).value;
    if l.needStatus {
      Extend(p, start, longer, SetRunStatus(Fetching, true));
      longer := longer + [SetRunStatus(Fetching, true)];
      l := l.(pc := Configuring, needStatus := false);
    }
    for i := 0 to |steps|
      invariant Accepts(p, start, longer) == Some(l) && Realistic(longer)
      invariant l.given == Accepts(p, start, events).value.given
      invariant var m := Accepts(p, start, events).value;
        l == m.(pc := if i == 0 then l.pc else if i == 1 then Configured(config) else if i == 2 then Waiting(config)
                      else if i == 3 then Replied(config, code, "") else if i == 4 then Checked(code, "")
                      else if ok then PcAfter(p, m.attempt, NoError, code) else PcAfter(p, m.attempt, Nak, 0),
                needStatus := false, sends := m.sends + (if i >= 2 then 1 else 0),
                publishes := m.publishes + (if i >= 5 then 1 else 0), emitted := if i >= 5 then ok else m.emitted)
      invariant i == 0 ==> l.pc.Top? || l.pc.Configuring?
    {
      Extend(p, start, longer, steps[i]);
      longer := longer + [steps[i]];
      l := Next(p, l, steps[i]).value;
    }
  }

  // A fetch whose first publish is reported as failed, and whose second attempt
  // publishes again.
  lemma PublishTwice(p: Policy, code: int) returns (given: Given, events: seq<Event>)
    requires p.maxAttempts >= 2 && 0 in p.retryOn && HttpStatus(code) && code !in p.retryOn
    ensures given.wellFormed && given.deadline > 0 && Realistic(events)
    ensures Accepts(p, Start(p, given, 0), events).Some? && Accepts(p, Start(p, given, 0), events).value.publishes == 2
  {
    given := Given(Fetch, true, "", false, ACK_SAFETY_GAP + 1);
    var start := Start(p, given, 0);
    var planned := FitDelay(Proposed(p, 0, p.baseDelay), given.deadline).value;
    var wake := if planned > 0 then planned else 0;
    events := PublishingAttempt(p, start, [], code, false);
    Extend(p, start, events, Plan(0, planned));
    events := events + [Plan(0, planned)];
    Extend(p, start, events, Wake(wake));
    events := events + [Wake(wake)];
    events := PublishingAttempt(p, start, events, code, true);
  }

  // A delivery publishes at most once on every event sequence exactly when 0 is not
  // a retryable status, or only one attempt is allowed, or every HTTP status is
  // retryable so that nothing is ever published.
  lemma SinglePublishExact(p: Policy)
    ensures (forall given, now, events | Realistic(events) && Accepts(p, Start(p, given, now), events).Some? ::
               Accepts(p, Start(p, given, now), events).value.publishes <= 1)
       <==> (0 !in p.retryOn || p.maxAttempts <= 1 || !Accepting(p))
  {
    if 0 in p.retryOn && p.maxAttempts >= 2 && Accepting(p) {
      var code :| HttpStatus(code) && code !in p.retryOn;
      var given, events := PublishTwice(p, code);
      assert Accepts(p, Start(p, given, 0), events).value.publishes == 2;
    } else {
      hide Next, PcAfter, OutcomeInv;
      forall given, now, events | Realistic(events) && Accepts(p, Start(p, given, now), events).Some?
        ensures Accepts(p, Start(p, given, now), events).value.publishes <= 1
      {
        LocalInvAlways(p, Start(p, given, now), events);
        if !Accepting(p) {
          PublishNeedsResponse(p, Start(p, given, now), events);
          assert !SawAcceptable(p, events);
        }
      }
    }
  }
}
