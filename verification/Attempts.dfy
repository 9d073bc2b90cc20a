// The processing of one delivery in terms of its events alone: which event may
// follow which, where each outcome leads, how long the loop goes on, and what the
// message is answered. Nothing here is stated through the transitions of Worker.
module Attempts {
  import opened Model
  import opened Retry
  import opened Worker
  import opened RetryLoop

  // ------------------------------------------------------- order in an attempt

  predicate GatePassed(stage: Stage, events: seq<Event>) {
    if stage.Fetch? then SetRunStatus(Fetching, true) in events else SetRunStatus(Delivering, true) in events
  }

  predicate IsGate(stage: Stage, e: Event) {
    e.SetRunStatus? && e.status == if stage.Fetch? then Fetching else Delivering
  }

  predicate Asks(stage: Stage, e: Event) {
    e.GetConfig? && e.kind == if stage.Fetch? then Fetcher else Deliverer
  }

  predicate Blank(c: Option<Json>) {
    c.None? || c.value == ""
  }

  // The request that a configuration asks for: the fetcher sends its payload, the
  // deliverer the message.
  predicate AsConfigured(given: Given, c: IOConfig, r: Request) {
    && r.verb == c.verb && r.targetUrl == c.targetUrl && r.headers == c.headers
    && match given.stage
       case Fetch => (c.payload.Some? ==> r.body == c.payload.value) && (c.payload.None? ==> r.body == "")
       case Delivery => r.body == given.input
  }

  // What may happen next while an attempt goes on, from the events so far.
  predicate MayFollow(given: Given, events: seq<Event>, e: Event) {
    var n := |events|;
    if n == 0 || events[n - 1].Wake? then
      || e.Cancel?
      || (e.BadHeaders? && !given.wellFormed)
      || (IsGate(given.stage, e) && given.wellFormed && !GatePassed(given.stage, events))
      || (Asks(given.stage, e) && GatePassed(given.stage, events))
    else
      match events[n - 1]
      case SetRunStatus(_, ok) => ok && Asks(given.stage, e)
      case GetConfig(_, ok, c) =>
        ok && ((e.BadConfigHeaders? && !Blank(c.headers)) || (e.Send? && AsConfigured(given, c, e.request)))
      case Send(_) => e.Reply?
      case Reply(_, _, body) =>
        if given.stage.Delivery? then e.SetRunStatus? && e.status == Idle
        else
          && e.SchemaCheck? && e.body == body
          && n >= 3 && events[n - 3].GetConfig? && e.schema == events[n - 3].config.jsonSchema
          && (Blank(e.schema) ==> e.ok)
      case SchemaCheck(_, body, ok) => ok && e.Publish? && e.body == body
      case _ => false
  }

  // How the point reached shows in the last events.
  predicate Point(l: Local, events: seq<Event>) {
    var n := |events|;
    match l.pc
    case Top => n == 0 || events[n - 1].Wake?
    case Configuring => n > 0 && IsGate(l.given.stage, events[n - 1]) && events[n - 1].ok
    case Configured(c) => n > 0 && events[n - 1].GetConfig? && events[n - 1].ok && events[n - 1].config == c
    case Waiting(c) => n > 1 && events[n - 1].Send? && events[n - 2].GetConfig? && events[n - 2].config == c
    case Replied(c, code, body) =>
      && n > 2 && events[n - 1].Reply? && events[n - 1].body == body && events[n - 1].code == code
      && events[n - 3].GetConfig? && events[n - 3].config == c
    case Checked(_, body) => n > 0 && events[n - 1].SchemaCheck? && events[n - 1].ok && events[n - 1].body == body
    case _ => true
  }

  predicate Context(l: Local, events: seq<Event>) {
    (l.needStatus <==> !GatePassed(l.given.stage, events)) && Point(l, events)
  }

  lemma PointStep(p: Policy, l: Local, events: seq<Event>, e: Event)
    requires Point(l, events) && Next(p, l, e).Some?
    ensures Point(Next(p, l, e).value, events + [e])
  {
    hide FitDelay, Proposed, GatePassed;
  }

  lemma GateStep(p: Policy, l: Local, e: Event)
    requires LocalInv(p, l) && Next(p, l, e).Some?
    ensures
      var m := Next(p, l, e).value;
      && m.given == l.given
      && (m.needStatus <==> l.needStatus && !(IsGate(l.given.stage, e) && e.ok))
  {
    hide FitDelay, Proposed, PublishInv, OutcomeInv;
  }

  lemma ContextStep(p: Policy, l: Local, events: seq<Event>, e: Event)
    requires LocalInv(p, l) && Context(l, events) && Next(p, l, e).Some?
    ensures Context(Next(p, l, e).value, events + [e])
  {
    hide Next, LocalInv, Point;
    PointStep(p, l, events, e);
    GateStep(p, l, e);
    assert forall x :: x in events + [e] <==> x in events || x == e;
  }

  lemma {:induction false} ContextAlways(p: Policy, l: Local, events: seq<Event>)
    requires IsStart(p, l) && Accepts(p, l, events).Some?
    ensures LocalInv(p, Accepts(p, l, events).value) && Accepts(p, l, events).value.given == l.given
    ensures Context(Accepts(p, l, events).value, events)
  {
    hide Next, LocalInv;
    LocalInvAlways(p, l, events);
    if events != [] {
      var front := events[..|events| - 1];
      ContextAlways(p, l, front);
      hide Context;
      ContextStep(p, Accepts(p, l, front).value, front, events[|events| - 1]);
      assert front + [events[|events| - 1]] == events;
    }
  }

  // While an attempt goes on, exactly these events may follow.
  lemma OrderExactly(p: Policy, l: Local, events: seq<Event>, e: Event)
    requires IsStart(p, l) && Accepts(p, l, events).Some? && InAttempt(Accepts(p, l, events).value.pc)
    ensures Accepts(p, l, events + [e]).Some? <==> MayFollow(l.given, events, e)
  {
    ContextAlways(p, l, events);
    Extend(p, l, events, e);
    hide Accepts, IsStart, FitDelay, Proposed, PcAfter;
  }

  // ------------------------------------------------------------- its outcome

  // What an event means for the attempt: it goes on, succeeds, or ends with an error
  // and a status, 0 where there is no HTTP status.
  datatype Verdict = GoesOn | Succeeds | Ends(err: Err, code: int)

  function VerdictOf(p: Policy, e: Event): Verdict {
    match e
    case BadHeaders => Ends(Term, 0)
    case SetRunStatus(status, ok) => if !ok then Ends(Term, 0) else if status == Idle then Succeeds else GoesOn
    case GetConfig(_, ok, _) => if ok then GoesOn else Ends(Nak, 0)
    case BadConfigHeaders => Ends(Term, 0)
    case Send(_) => GoesOn
    case Reply(failed, code, _) => if failed || code in p.retryOn then Ends(Nak, code) else GoesOn
    case SchemaCheck(_, _, ok) => if ok then GoesOn else Ends(Term, 0)
    case Publish(_, ok) => if ok then Succeeds else Ends(Nak, 0)
    case _ => Ends(Cancelled, 0)
  }

  lemma AttemptsAreCounted(p: Policy, l: Local, events: seq<Event>)
    requires IsStart(p, l) && Accepts(p, l, events).Some? && Running(Accepts(p, l, events).value.pc)
    ensures
      var m := Accepts(p, l, events).value;
      m.attempt == (if m.pc.Sleeping? then Plans(events) - 1 else Plans(events)) && Plans(events) < p.maxAttempts
  {
    NominalWhileTimeLeft(p, l, events);
    LocalInvAlways(p, l, events);
  }

  lemma EndsStep(p: Policy, l: Local, e: Event)
    requires LocalInv(p, l) && InAttempt(l.pc) && Next(p, l, e).Some? && !e.Cancel?
    ensures
      var m := Next(p, l, e).value;
      match VerdictOf(p, e)
      case GoesOn => InAttempt(m.pc)
      case Succeeds => m.pc == Returned(NoError)
      case Ends(err, code) =>
        m.pc == if code in p.retryOn && l.attempt + 1 < p.maxAttempts then Retrying(err) else Returned(err)
  {
    hide FitDelay, Proposed;
  }

  // An attempt that ends is followed by another exactly if its status is retryable
  // and fewer than MaxAttempts have been made; otherwise its result is returned.
  lemma AttemptEnds(p: Policy, l: Local, events: seq<Event>, e: Event)
    requires IsStart(p, l) && Accepts(p, l, events).Some? && InAttempt(Accepts(p, l, events).value.pc)
    requires Accepts(p, l, events + [e]).Some? && !e.Cancel?
    ensures
      var pc := Accepts(p, l, events + [e]).value.pc;
      match VerdictOf(p, e)
      case GoesOn => InAttempt(pc)
      case Succeeds => pc == Returned(NoError)
      case Ends(err, code) =>
        pc == if code in p.retryOn && Plans(events) + 1 < p.maxAttempts then Retrying(err) else Returned(err)
  {
    hide Next, VerdictOf, LocalInv;
    LocalInvAlways(p, l, events);
    AttemptsAreCounted(p, l, events);
    Extend(p, l, events, e);
    EndsStep(p, Accepts(p, l, events).value, e);
  }

  lemma SleepFollowsPlan(p: Policy, l: Local, e: Event)
    requires Next(p, l, e).Some? && Next(p, l, e).value.pc.Sleeping?
    ensures e.Plan? && Next(p, l, e).value.pc.wakeAt == e.at + e.planned && Next(p, l, e).value.clock == e.at
  {
    hide FitDelay, Proposed;
  }

  lemma LastOfSleep(p: Policy, l: Local, events: seq<Event>)
    requires IsStart(p, l) && Accepts(p, l, events).Some? && events != []
    ensures
      var m, e := Accepts(p, l, events).value, events[|events| - 1];
      m.pc.Sleeping? ==> e.Plan? && m.pc.wakeAt == e.at + e.planned && m.clock == e.at
  {
    hide Next;
    if Accepts(p, l, events).value.pc.Sleeping? {
      SleepFollowsPlan(p, Accepts(p, l, events[..|events| - 1]).value, events[|events| - 1]);
    }
  }

  lemma CancelStep(p: Policy, l: Local)
    requires Next(p, l, Cancel).Some?
    ensures (l.pc.Top? || l.pc.Sleeping?) && Next(p, l, Cancel).value.pc == Returned(Cancelled)
  {
    hide FitDelay, Proposed;
  }

  // A context that ends is noticed between attempts, and is the result.
  lemma CancelReturns(p: Policy, l: Local, events: seq<Event>)
    requires IsStart(p, l) && Accepts(p, l, events).Some? && Accepts(p, l, events + [Cancel]).Some?
    ensures Accepts(p, l, events + [Cancel]).value.pc == Returned(Cancelled)
    ensures events == [] || events[|events| - 1].Wake? || events[|events| - 1].Plan?
  {
    hide Next;
    ContextAlways(p, l, events);
    Extend(p, l, events, Cancel);
    CancelStep(p, Accepts(p, l, events).value);
    if events != [] { LastOfSleep(p, l, events); }
  }

  // ------------------------------------------------------------------ retrying

  // The delay that the policy asks for after so many earlier ones.
  function Wanted(p: Policy, earlier: nat): Time {
    if p.backoff == "exponential" then Backoff(earlier, p.baseDelay, p.maxDelay) else p.baseDelay
  }

  // The time that may still be slept, keeping ten seconds for the answer.
  function Left(given: Given, at: Time): Time {
    given.deadline - at - 10_000_000_000
  }

  // After a retryable end with attempts left, looking at the clock decides alone: if
  // time is left, exactly one sleep may be planned, of the wanted delay or what is
  // left if that is less; if not, the loop gives up with the error at hand.
  lemma RetryExactly(p: Policy, l: Local, events: seq<Event>, e: Event)
    requires IsStart(p, l) && Accepts(p, l, events).Some? && Accepts(p, l, events).value.pc.Retrying?
    ensures
      var m := Accepts(p, l, events).value;
      Accepts(p, l, events + [e]).Some? <==>
        && (e.Plan? || e.OutOfBudget?) && e.at >= m.clock
        && (e.OutOfBudget? <==> Left(l.given, e.at) <= 0)
        && (e.Plan? ==> e.planned == Min(Wanted(p, Plans(events)), Left(l.given, e.at)))
    ensures Accepts(p, l, events + [e]).Some? && e.OutOfBudget? ==>
              Accepts(p, l, events + [e]).value.pc == Returned(Accepts(p, l, events).value.pc.err)
    ensures Accepts(p, l, events + [e]).Some? && e.Plan? ==> Accepts(p, l, events + [e]).value.pc.Sleeping?
  {
    LocalInvAlways(p, l, events);
    AttemptsAreCounted(p, l, events);
    NominalWhileTimeLeft(p, l, events);
    Extend(p, l, events, e);
    hide Accepts, IsStart, LocalInv, Backoff, Plans;
  }

  // A planned sleep ends with its full length, or late, or with the context; then
  // the next attempt begins, past the gate if that was passed.
  lemma SleepExactly(p: Policy, l: Local, events: seq<Event>, plan: Event, e: Event)
    requires IsStart(p, l) && plan.Plan? && Accepts(p, l, events + [plan]).Some?
    ensures Accepts(p, l, events + [plan] + [e]).Some? <==>
              e.Cancel? || (e.Wake? && e.at >= plan.at && e.at >= plan.at + plan.planned)
    ensures e.Wake? && Accepts(p, l, events + [plan] + [e]).Some? ==>
              Accepts(p, l, events + [plan] + [e]).value.pc == Top
  {
    var more := events + [plan];
    assert more[..|more| - 1] == events && more[|more| - 1] == plan;
    PlanSleeps(p, Accepts(p, l, events).value, plan);
    Extend(p, l, more, e);
    hide Accepts;
  }

  lemma PlanSleeps(p: Policy, l: Local, e: Event)
    requires e.Plan? && Next(p, l, e).Some?
    ensures Next(p, l, e).value.pc == Sleeping(e.at + e.planned) && Next(p, l, e).value.clock == e.at
  {
    hide FitDelay, Proposed;
  }

  // If the loop returns after a retryable end, and neither the context nor the time
  // ran out, then it has made all its attempts.
  lemma AllAttemptsMade(p: Policy, l: Local, events: seq<Event>, e: Event)
    requires IsStart(p, l) && Accepts(p, l, events).Some? && InAttempt(Accepts(p, l, events).value.pc)
    requires !e.Cancel? && Accepts(p, l, events + [e]).Some? && Accepts(p, l, events + [e]).value.pc.Returned?
    requires VerdictOf(p, e).Ends? && VerdictOf(p, e).code in p.retryOn
    ensures Plans(events) + 1 == p.maxAttempts
  {
    hide Next, VerdictOf;
    AttemptEnds(p, l, events, e);
    AttemptsAreCounted(p, l, events);
  }

  lemma ReturnStep(p: Policy, l: Local, e: Event)
    requires Next(p, l, e).Some? && (Next(p, l, e).value.pc.Returned? || Next(p, l, e).value.pc.Retrying?)
    ensures InAttempt(l.pc) || (l.pc.Retrying? && e.OutOfBudget? && Next(p, l, e).value.pc == Returned(l.pc.err))
            || (l.pc.Sleeping? && e.Cancel?)
  {
    hide FitDelay, Proposed;
  }

  // The loop is deciding about a retry only right after a retryable end.
  lemma RetryingSince(p: Policy, l: Local, events: seq<Event>)
    requires IsStart(p, l) && Accepts(p, l, events).Some? && Accepts(p, l, events).value.pc.Retrying?
    ensures events != [] && !events[|events| - 1].Cancel? && VerdictOf(p, events[|events| - 1]).Ends?
    ensures VerdictOf(p, events[|events| - 1]).err == Accepts(p, l, events).value.pc.err
    ensures VerdictOf(p, events[|events| - 1]).code in p.retryOn
  {
    hide Next;
    var last := |events| - 1;
    var front := events[..last];
    assert front + [events[last]] == events;
    ReturnStep(p, Accepts(p, l, front).value, events[last]);
    if events[last].Cancel? {
      CancelReturns(p, l, front);
    } else {
      AttemptEnds(p, l, front, events[last]);
    }
  }

  // Why the pipeline returned err: no attempt was allowed; the context ended; the
  // time ran out after a retryable end with this error; the last attempt succeeded;
  // or it ended with this error, which is not retryable or used up all attempts.
  predicate Concludes(p: Policy, events: seq<Event>, err: Err) {
    var n := |events|;
    if n == 0 then p.maxAttempts <= 0 && err == RetriesExceeded
    else if events[n - 1].Cancel? then err == Cancelled
    else if events[n - 1].OutOfBudget? then
      n > 1 && VerdictOf(p, events[n - 2]).Ends? && VerdictOf(p, events[n - 2]).err == err
      && VerdictOf(p, events[n - 2]).code in p.retryOn
    else
      match VerdictOf(p, events[n - 1])
      case GoesOn => false
      case Succeeds => err == NoError
      case Ends(e, code) => err == e && (code !in p.retryOn || Plans(events) + 1 == p.maxAttempts)
  }

  lemma ResultExactly(p: Policy, l: Local, events: seq<Event>)
    requires IsStart(p, l) && Accepts(p, l, events).Some? && Accepts(p, l, events).value.pc.Returned?
    ensures Concludes(p, events, Accepts(p, l, events).value.pc.err)
  {
    hide Next, VerdictOf;
    if events != [] {
      var last := |events| - 1;
      var front := events[..last];
      var m := Accepts(p, l, front).value;
      assert front + [events[last]] == events;
      ReturnStep(p, m, events[last]);
      if events[last].Cancel? {
        CancelReturns(p, l, front);
      } else if m.pc.Retrying? {
        RetryingSince(p, l, front);
      } else {
        OutOfAttempt(p, m, events[last]);
        AttemptEnds(p, l, front, events[last]);
        AttemptsAreCounted(p, l, front);
      }
    }
  }

  lemma OutOfAttempt(p: Policy, l: Local, e: Event)
    requires InAttempt(l.pc) && Next(p, l, e).Some?
    ensures !e.OutOfBudget? && !e.Plan?
  {
    hide FitDelay, Proposed;
  }

  // ----------------------------------------------------------------- answering

  // What follows the result of the pipeline: a success is acked; a terminal error,
  // or any error on the last delivery, goes to the error handler, and is then
  // terminated if its write succeeded or the delivery is the last; everything else
  // asks for redelivery.
  predicate Answers(given: Given, err: Err, tail: seq<Event>, answer: Answer) {
    if err == NoError then tail == [Event.Answer(AckMsg)] && answer == AckMsg
    else if err == Term || given.isFinal then
      && |tail| == 2 && tail[1] == Event.Answer(answer)
      && (if given.wellFormed then tail[0].SetRunStatus? && tail[0].status == Error else tail[0] == BadHeaders)
      && answer == if given.isFinal || (given.wellFormed && tail[0].ok) then TermMsg else NakMsg
    else tail == [Event.Answer(NakMsg)] && answer == NakMsg
  }

  lemma ReturnedExactly(p: Policy, l: Local, e: Event)
    requires l.pc.Returned?
    ensures Next(p, l, e).Some? <==>
              if l.pc.err == NoError then e == Event.Answer(AckMsg)
              else if l.pc.err == Term || l.given.isFinal then
                if l.given.wellFormed then e.SetRunStatus? && e.status == Error else e == BadHeaders
              else e == Event.Answer(NakMsg)
    ensures Next(p, l, e).Some? ==>
              Next(p, l, e).value.pc ==
                if e.Answer? then Done(e.answer, false)
                else ErrorHandled(l.given.wellFormed && e.ok)
    ensures Next(p, l, e).Some? ==> Next(p, l, e).value.given == l.given
  {
  }

  lemma DoneStep(p: Policy, l: Local, e: Event)
    requires Next(p, l, e).Some? && (l.pc.Returned? || l.pc.ErrorHandled? || Next(p, l, e).value.pc.Done?
                                     || Next(p, l, e).value.pc.ErrorHandled?)
    ensures l.pc.Returned? || l.pc.ErrorHandled?
    ensures Next(p, l, e).value.pc.ErrorHandled? ==> l.pc.Returned?
    ensures l.pc.ErrorHandled? ==>
              && e == Event.Answer(if l.pc.ok || l.given.isFinal then TermMsg else NakMsg)
              && Next(p, l, e).value.pc == Done(e.answer, l.pc.ok)
  {
    hide FitDelay, Proposed;
  }

  // Every completed processing is a pipeline that returned some error, followed by
  // exactly the answer that belongs to it.
  lemma AnsweredExactly(p: Policy, l: Local, events: seq<Event>) returns (n: nat, err: Err)
    requires IsStart(p, l) && Accepts(p, l, events).Some? && Accepts(p, l, events).value.pc.Done?
    ensures n <= |events| && Accepts(p, l, events[..n]).Some? && Accepts(p, l, events[..n]).value.pc == Returned(err)
    ensures Answers(l.given, err, events[n..], Accepts(p, l, events).value.pc.answer)
  {
    hide Next, LocalInv;
    LocalInvAlways(p, l, events);
    NotDoneAtStart(p, l);
    var last := |events| - 1;
    var front := events[..last];
    LocalInvAlways(p, l, front);
    var m := Accepts(p, l, front).value;
    DoneStep(p, m, events[last]);
    if m.pc.Returned? {
      ReturnedExactly(p, m, events[last]);
      n, err := last, m.pc.err;
      assert events[n..] == [events[last]];
    } else {
      NotDoneAtStart(p, l);
      var front2 := front[..last - 1];
      LocalInvAlways(p, l, front2);
      var m2 := Accepts(p, l, front2).value;
      DoneStep(p, m2, front[last - 1]);
      ReturnedExactly(p, m2, front[last - 1]);
      n, err := last - 1, m2.pc.err;
      assert events[..n] == front2 && events[n..] == [front[last - 1], events[last]];
    }
  }

  lemma NotDoneAtStart(p: Policy, l: Local)
    requires IsStart(p, l)
    ensures Accepts(p, l, []) == Some(l) && !l.pc.Done? && !l.pc.ErrorHandled?
  {
  }
}
