// What a call of a handler may come to, and what the log of a world records: exactly
// the events of its handlers, and exactly the losses, each with its cause.
module Records {
  import opened Model
  import L = Lifecycle
  import W = Statements
  import opened Retry
  import opened Worker
  import opened Protocol

  // What a call may come to, wherever the handler may make it: it may always fail
  // without effect, whatever it was to do; a write may also take effect and still be
  // reported as failed; and it is reported as done only if it took effect.
  lemma CallsMayFail(c: Config, w: World, h: HandlerId, e: Event, took: bool, m: MsgId)
    requires h in w.handlers && Next(PolicyOf(c, w.handlers[h].local.given.stage), w.handlers[h].local, e).Some?
    ensures
      var hd := w.handlers[h];
      Enabled(c, w, Act(h, e, took, m)) <==>
        match e
        case SetRunStatus(status, ok) =>
          (!ok && !took) || (took && hd.run in w.db.t.runs && w.db.t.runs[hd.run].job == hd.job
                             && W.Follows(status, w.db.t.runs[hd.run].status))
        case GetConfig(kind, ok, config) =>
          ok ==> ConfigKey(hd.job, kind) in w.db.t.configs && w.db.t.configs[ConfigKey(hd.job, kind)] == config
        case Publish(_, ok) => (!ok && !took) || (took && m !in w.messages)
        case _ => true
  {
    hide Next;
  }

  // In world w, step s is this event of handler h.
  predicate IsEvent(w: World, s: Step, h: HandlerId, stage: Stage, run: RunId, e: Event) {
    && s.Act? && s.h == h && s.e == e && h in w.handlers
    && w.handlers[h].run == run && w.handlers[h].local.given.stage == stage
  }

  // Step s loses this run: a claim whose reply is lost; a scheduler that ends while
  // it holds the claim; a fetch message that is not stored; a message that has been
  // delivered as often as allowed; a last delivery that is terminated although its
  // error could not be written.
  ghost predicate Loses(c: Config, w: World, s: Step, run: RunId, cause: Cause) {
    match cause
    case ClaimReplyLost =>
      s.Claim? && !s.replied && s.a.Claim? && exists i | 0 <= i < |s.a.picks| :: s.a.picks[i].run == run
    case SchedulerCrashed => s.CrashScheduler? && s.pick.run == run
    case FetchPublishFailed => s.PublishFetch? && !s.stored && s.pick.run == run
    case DeliveryLimit =>
      && s.Drop? && s.msg in w.messages && w.messages[s.msg].run == run
      && 0 < (if w.messages[s.msg].stage.Fetch? then c.maxFetchDeliver else c.maxDeliveryDeliver)
           <= w.messages[s.msg].delivered
    case FinalTerm =>
      && s.Act? && s.took && s.e == Event.Answer(TermMsg) && s.h in w.handlers && w.handlers[s.h].run == run
      && w.handlers[s.h].local.given.isFinal && w.handlers[s.h].local.pc == ErrorHandled(false)
  }

  ghost predicate Causes(c: Config, w: World, s: Step, entry: Entry) {
    match entry
    case Did(h, stage, run, e) => IsEvent(w, s, h, stage, run, e)
    case Lost(run, cause) => Loses(c, w, s, run, cause)
  }

  lemma TermStep(p: Policy, l: Local)
    requires Next(p, l, Event.Answer(TermMsg)).Some?
    ensures l.pc.ErrorHandled? && (l.pc.ok || l.given.isFinal)
  {
    hide FitDelay, Proposed;
  }

  lemma RecordStep(c: Config, w: World, s: Step, w': World, entry: Entry)
    requires NextWorld(c, w, s, w')
    ensures entry in w'.log <==> entry in w.log || Causes(c, w, s, entry)
  {
    hide L.Apply, L.Enabled, Next;
    if s.Act? && s.e == Event.Answer(TermMsg) {
      TermStep(PolicyOf(c, w.handlers[s.h].local.given.stage), w.handlers[s.h].local);
    }
    if s.Claim? && !s.replied {
      var lost := seq(|s.a.picks|, i requires 0 <= i < |s.a.picks| => Lost(s.a.picks[i].run, ClaimReplyLost));
      assert w'.log == w.log + lost;
      forall i | 0 <= i < |s.a.picks| ensures Lost(s.a.picks[i].run, ClaimReplyLost) in lost {
        assert lost[i] in lost;
      }
    }
  }

  // An entry is in the log if and only if some earlier step was that event or that
  // loss.
  lemma {:induction false} LogExactly(c: Config, worlds: seq<World>, steps: seq<Step>, n: nat, entry: Entry)
    requires Behaviour(c, worlds, steps) && n <= |steps|
    ensures entry in worlds[n].log <==> exists i | 0 <= i < n :: Causes(c, worlds[i], steps[i], entry)
  {
    hide NextWorld, Causes;
    if n > 0 {
      LogExactly(c, worlds, steps, n - 1, entry);
      RecordStep(c, worlds[n - 1], steps[n - 1], worlds[n], entry);
    }
  }
}
