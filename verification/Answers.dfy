// What the answers to messages mean, and that no run is silently lost: an active
// run always has a claim or a live message that will move it, unless one of the
// named loss events hit it.
module Answers {
  import opened Model
  import L = Lifecycle
  import opened Retry
  import opened Worker
  import opened Protocol
  import opened Pipeline
  import opened Effects

  // A run that still exists has this status.
  predicate Now(w: World, run: RunId, status: Status) {
    run in w.db.t.runs ==> w.db.t.runs[run].status == status
  }

  predicate Settled(w: World, run: RunId) {
    run in w.db.t.runs ==> !Active(w.db.t.runs[run].status)
  }

  predicate IsFor(w: World, m: MsgId, stage: Stage, run: RunId) {
    m in w.messages && w.messages[m].stage == stage && w.messages[m].run == run
  }

  ghost predicate HasMessage(w: World, stage: Stage, run: RunId) {
    exists m :: IsFor(w, m, stage, run)
  }

  ghost predicate HasLiveMessage(w: World, stage: Stage, run: RunId) {
    exists m :: IsFor(w, m, stage, run) && w.messages[m].live
  }

  ghost predicate HasClaim(w: World, run: RunId) {
    exists p | p in w.pending :: p.run == run
  }

  ghost predicate LostRun(log: seq<Entry>, run: RunId) {
    exists i | 0 <= i < |log| :: log[i].Lost? && log[i].run == run
  }

  // ------------------------------------------------------------------ truthful

  // What a handler has been told is so.
  ghost predicate Truthful(w: World, hd: Handler) {
    && (hd.local.emitted && hd.local.given.stage.Fetch? ==> HasMessage(w, Delivery, hd.run))
    && (hd.local.emitted && hd.local.given.stage.Delivery? ==> Now(w, hd.run, Idle))
    && (WroteError(hd.local) ==> Now(w, hd.run, Error))
  }

  // A run with a delivery message is past the fetch gate; one in the status of a
  // stage has a message of that stage.
  ghost predicate StagesMatch(w: World) {
    && (forall m, run | IsFor(w, m, Delivery, run) :: PastGate(w, Fetch, run))
    && (forall r, stage | r in w.db.t.runs && w.db.t.runs[r].status == GateStatus(stage) :: HasMessage(w, stage, r))
  }

  ghost predicate AnswerInv(w: World) {
    (forall h | h in w.handlers :: Truthful(w, w.handlers[h])) && StagesMatch(w)
  }

  // What one event of a handler tells about the move from l to m.
  predicate Explains(l: Local, e: Event, m: Local) {
    && m.given == l.given
    && (m.emitted ==> l.emitted || (l.given.stage.Fetch? && e.Publish? && e.ok)
                      || (l.given.stage.Delivery? && e == SetRunStatus(Idle, true)))
    && (WroteError(m) ==> WroteError(l) || e == SetRunStatus(Error, true))
    && (e == Event.Answer(AckMsg) ==> l.emitted)
    && (e == Event.Answer(TermMsg) && l.pc == ErrorHandled(true) ==> WroteError(l))
    && (e.Publish? ==> l.given.stage.Fetch? && !l.needStatus)
    && (e.SetRunStatus? && Active(e.status) ==> e.status == GateStatus(l.given.stage))
  }

  lemma AnswerEvents(p: Policy, l: Local, e: Event)
    requires LocalInv(p, l) && Next(p, l, e).Some?
    ensures Explains(l, e, Next(p, l, e).value)
  {
    hide FitDelay, Proposed;
  }

  lemma HandlerEvents(c: Config, w: World, s: Step)
    requires RefsOk(c, w) && s.Act? && s.h in w.handlers
    requires Next(PolicyOf(c, w.handlers[s.h].local.given.stage), w.handlers[s.h].local, s.e).Some?
    ensures
      var l := w.handlers[s.h].local;
      Explains(l, s.e, Next(PolicyOf(c, l.given.stage), l, s.e).value)
  {
    hide Next, LocalInv, Explains;
    var hd := w.handlers[s.h];
    assert HandlerOk(c, w, hd);
    AnswerEvents(PolicyOf(c, hd.local.given.stage), hd.local, s.e);
  }

  lemma MessagesStay(w: World, s: Step, w': World, stage: Stage, run: RunId)
    requires MessagesEvolve(w, s, w') && HasMessage(w, stage, run)
    ensures HasMessage(w', stage, run)
  {
    var m :| IsFor(w, m, stage, run);
    assert IsFor(w', m, stage, run);
  }

  lemma MessageExists(w: World, m: MsgId, stage: Stage, run: RunId)
    requires IsFor(w, m, stage, run)
    ensures HasMessage(w, stage, run)
  {
  }

  lemma PublishedIsThere(c: Config, w: World, s: Step, w': World)
    requires NextWorld(c, w, s, w')
    ensures s.Act? && s.e.Publish? && s.took ==> s.h in w.handlers && IsFor(w', s.newMsg, Delivery, w.handlers[s.h].run)
    ensures s.PublishFetch? && s.stored ==> IsFor(w', s.msg, Fetch, s.pick.run)
  {
    hide L.Apply, L.Enabled, Next;
  }

  lemma ActorStaysTruthful(c: Config, w: World, s: Step, w': World)
    requires L.Inv(w.db) && RefsOk(c, w) && AnswerInv(w) && NextWorld(c, w, s, w')
    requires RunsForward(w.db, w'.db) && MessagesEvolve(w, s, w') && HandlersEvolve(c, w, s, w')
    requires s.Act? && s.h in w.handlers
    ensures Truthful(w', w'.handlers[s.h])
  {
    hide L.Inv, NextWorld, Next, LocalInv, WroteError, HasMessage, StagesMatch, MessagesEvolve;
    var hd := w.handlers[s.h];
    assert HandlerOk(c, w, hd) && Truthful(w, hd);
    assert hd.run in w.db.used;
    HandlerEvents(c, w, s);
    PublishedIsThere(c, w, s, w');
    if s.e.SetRunStatus? && s.e.ok {
      OkMeansTaken(c, w, s, w');
      StatusWritten(c, w, s, w');
    }
    if s.e.Publish? && s.e.ok { OkMeansTaken(c, w, s, w'); }
    if HasMessage(w, Delivery, hd.run) { MessagesStay(w, s, w', Delivery, hd.run); }
    if s.e.Publish? && s.e.ok { MessageExists(w', s.newMsg, Delivery, hd.run); }
  }

  lemma OthersStayTruthful(c: Config, w: World, s: Step, w': World, h: HandlerId)
    requires RefsOk(c, w) && AnswerInv(w)
    requires RunsForward(w.db, w'.db) && MessagesEvolve(w, s, w') && HandlersEvolve(c, w, s, w')
    requires h in w'.handlers && !(s.Act? && s.h == h)
    ensures Truthful(w', w'.handlers[h])
  {
    hide Next, LocalInv, HasMessage, StagesMatch, MessagesEvolve;
    if h in w.handlers {
      var hd := w.handlers[h];
      assert HandlerOk(c, w, hd) && Truthful(w, hd) && hd.run in w.db.used;
      if HasMessage(w, Delivery, hd.run) { MessagesStay(w, s, w', Delivery, hd.run); }
    }
  }

  lemma StageHasMessage(c: Config, w: World, s: Step, w': World, r: RunId, stage: Stage)
    requires L.Inv(w.db) && RefsOk(c, w) && StagesMatch(w) && NextWorld(c, w, s, w')
    requires MessagesEvolve(w, s, w') && HandlersEvolve(c, w, s, w')
    requires r in w'.db.t.runs && w'.db.t.runs[r].status == GateStatus(stage)
    ensures HasMessage(w', stage, r)
  {
    hide L.Inv, NextWorld, L.Next, Next, LocalInv, MessagesEvolve, WroteError, L.Apply;
    DbForward(c, w, s, w');
    var a := DbAction(w, s);
    if r in w.db.t.runs && w.db.t.runs[r].status == GateStatus(stage) {
      MessagesStay(w, s, w', stage, r);
    } else {
      StatusIsWritten(w.db, a.value, w'.db, r, GateStatus(stage));
      OnlyHandlersWrite(c, w, s, w');
      var hd := w.handlers[s.h];
      HandlerEvents(c, w, s);
      assert HandlerOk(c, w, hd);
      assert IsFor(w, hd.msg, stage, r);
      MessagesStay(w, s, w', stage, r);
    }
  }

  lemma AnswerStep(c: Config, w: World, s: Step, w': World)
    requires EffectsInv(c, w) && AnswerInv(w) && NextWorld(c, w, s, w')
    ensures AnswerInv(w')
  {
    hide L.Inv, RefsOk, NextWorld, Next, MessagesEvolve, HandlersEvolve, Truthful, RunsForward, TalliesOk, GatesOk;
    DbForward(c, w, s, w');
    PartsEvolve(c, w, s, w');
    forall h | h in w'.handlers ensures Truthful(w', w'.handlers[h]) {
      if s.Act? && s.h == h {
        LogStep(c, w, s, w');
        ActorStaysTruthful(c, w, s, w');
      } else {
        OthersStayTruthful(c, w, s, w', h);
      }
    }
    forall r, stage | r in w'.db.t.runs && w'.db.t.runs[r].status == GateStatus(stage)
      ensures HasMessage(w', stage, r)
    {
      StageHasMessage(c, w, s, w', r, stage);
    }
    forall m, run | IsFor(w', m, Delivery, run) ensures PastGate(w', Fetch, run) {
      DeliveryIsPastGate(c, w, s, w', m, run);
    }
  }

  lemma DeliveryIsPastGate(c: Config, w: World, s: Step, w': World, m: MsgId, run: RunId)
    requires EffectsInv(c, w) && StagesMatch(w) && RunsForward(w.db, w'.db)
    requires MessagesEvolve(w, s, w') && HandlersEvolve(c, w, s, w') && IsFor(w', m, Delivery, run)
    ensures PastGate(w', Fetch, run)
  {
    hide L.Inv, Next, LocalInv, TalliesOk, WroteError;
    if m in w.messages {
      assert IsFor(w, m, Delivery, run) && run in w.db.used;
    } else {
      HandlerEvents(c, w, s);
      assert HandlerOk(c, w, w.handlers[s.h]);
      assert Gated(w, s.h, Fetch, run);
      assert PastGate(w, Fetch, run) && run in w.db.used;
    }
  }

  // ---------------------------------------------------------------- no silent loss

  // An active run was published or still is to be; a message is given up only for
  // a run that is settled or has moved on to its next message.
  ghost predicate LossInv(w: World) {
    && (forall r | r in w.db.t.runs && Active(w.db.t.runs[r].status) ::
          HasClaim(w, r) || LostRun(w.log, r) || HasMessage(w, Fetch, r))
    && (forall m | m in w.messages && !w.messages[m].live :: Discharged(w, w.messages[m].stage, w.messages[m].run))
  }

  ghost predicate Discharged(w: World, stage: Stage, run: RunId) {
    || Settled(w, run) || LostRun(w.log, run)
    || (stage.Fetch? && HasMessage(w, Delivery, run))
  }

  // What a step does to claims, dead messages and recorded losses.
  ghost predicate LossesRecorded(w: World, s: Step, w': World) {
    && (forall run | LostRun(w.log, run) :: LostRun(w'.log, run))
    && (forall p | p in w.pending && p !in w'.pending ::
          (s.PublishFetch? || s.CrashScheduler?) && s.pick == p
          && (LostRun(w'.log, p.run) || (s.PublishFetch? && s.stored)))
    && (s.Claim? && s.a.Claim? ==> forall i | 0 <= i < |s.a.picks| ::
          s.a.picks[i] in w'.pending || LostRun(w'.log, s.a.picks[i].run))
    && (forall m | m in w.messages && m in w'.messages && w.messages[m].live && !w'.messages[m].live ::
        GivenUp(w, s, w', m))
  }

  // Why a step ends the life of message m.
  ghost predicate GivenUp(w: World, s: Step, w': World, m: MsgId)
    requires m in w.messages
  {
    || (s.Drop? && LostRun(w'.log, w.messages[m].run))
    || (s.Act? && s.h in w.handlers && w.handlers[s.h].msg == m
        && (|| s.e == Event.Answer(AckMsg)
            || (s.e == Event.Answer(TermMsg)
                && (w.handlers[s.h].local.pc == ErrorHandled(true) || LostRun(w'.log, w.handlers[s.h].run)))))
  }

  lemma LostLonger(log: seq<Entry>, longer: seq<Entry>, run: RunId)
    requires log <= longer && LostRun(log, run)
    ensures LostRun(longer, run)
  {
    var i :| 0 <= i < |log| && log[i].Lost? && log[i].run == run;
    assert longer[i] == log[i];
  }

  lemma LostAtEnd(log: seq<Entry>, run: RunId, i: nat)
    requires i < |log| && log[i].Lost? && log[i].run == run
    ensures LostRun(log, run)
  {
  }

  lemma ClaimLosses(c: Config, w: World, s: Step, w': World)
    requires NextWorld(c, w, s, w') && s.Claim?
    ensures forall i | 0 <= i < |s.a.picks| :: s.a.picks[i] in w'.pending || LostRun(w'.log, s.a.picks[i].run)
  {
    hide L.Apply, L.Enabled, LostRun;
    if !s.replied {
      forall i | 0 <= i < |s.a.picks| ensures LostRun(w'.log, s.a.picks[i].run) {
        LostAtEnd(w'.log, s.a.picks[i].run, |w.log| + i);
      }
    }
  }

  lemma PendingLosses(c: Config, w: World, s: Step, w': World)
    requires NextWorld(c, w, s, w')
    ensures forall p | p in w.pending && p !in w'.pending ::
          (s.PublishFetch? || s.CrashScheduler?) && s.pick == p
          && (LostRun(w'.log, p.run) || (s.PublishFetch? && s.stored))
  {
    hide L.Apply, L.Enabled, LostRun, Next;
    if s.CrashScheduler? || (s.PublishFetch? && !s.stored) {
      LostAtEnd(w'.log, s.pick.run, |w.log|);
    }
  }

  lemma MessageLosses(c: Config, w: World, s: Step, w': World, m: MsgId)
    requires NextWorld(c, w, s, w') && m in w.messages && m in w'.messages && w.messages[m].live && !w'.messages[m].live
    ensures GivenUp(w, s, w', m)
  {
    hide L.Apply, L.Enabled, LostRun, Next;
    if s.Drop? {
      LostAtEnd(w'.log, w.messages[m].run, |w.log|);
    } else if s.Act? && s.e == Event.Answer(TermMsg) && w.handlers[s.h].local.pc != ErrorHandled(true) && s.took {
      LostAtEnd(w'.log, w.handlers[s.h].run, |w.log| + 1);
    }
  }

  lemma LossesStep(c: Config, w: World, s: Step, w': World)
    requires NextWorld(c, w, s, w') && LogEvolves(w, s, w')
    ensures LossesRecorded(w, s, w')
  {
    hide NextWorld, LostRun;
    assert w.log <= w'.log;
    forall run | LostRun(w.log, run) ensures LostRun(w'.log, run) { LostLonger(w.log, w'.log, run); }
    PendingLosses(c, w, s, w');
    if s.Claim? { ClaimLosses(c, w, s, w'); }
    forall m | m in w.messages && m in w'.messages && w.messages[m].live && !w'.messages[m].live
      ensures GivenUp(w, s, w', m)
    {
      MessageLosses(c, w, s, w', m);
    }
  }

  lemma SettledStays(w: World, w': World, run: RunId)
    requires RunsForward(w.db, w'.db) && run in w.db.used && Settled(w, run)
    ensures Settled(w', run)
  {
  }

  lemma ActiveStaysCovered(c: Config, w: World, s: Step, w': World, r: RunId)
    requires L.Inv(w.db) && RefsOk(c, w) && LossInv(w) && NextWorld(c, w, s, w') && RunsForward(w.db, w'.db)
    requires MessagesEvolve(w, s, w') && LossesRecorded(w, s, w')
    requires r in w'.db.t.runs && Active(w'.db.t.runs[r].status)
    ensures HasClaim(w', r) || LostRun(w'.log, r) || HasMessage(w', Fetch, r)
  {
    hide L.Inv, NextWorld, RefsOk, LostRun, HasMessage, MessagesEvolve, Discharged;
    if r in w.db.t.runs {
      assert r in w.db.used by { KnownRuns(w, r); }
      assert Active(w.db.t.runs[r].status);
      if HasMessage(w, Fetch, r) { MessagesStay(w, s, w', Fetch, r); }
      if HasClaim(w, r) {
        var p :| p in w.pending && p.run == r;
        if p !in w'.pending && s.PublishFetch? && s.stored {
          PublishedIsThere(c, w, s, w');
          MessageExists(w', s.msg, Fetch, r);
        }
      }
    } else {
      NewRunsArePicked(c, w, s, w', r);
      ClaimIsClaim(c, w, s, w');
      var i :| 0 <= i < |s.a.picks| && s.a.picks[i].run == r;
    }
  }

  lemma KnownRuns(w: World, r: RunId)
    requires L.Inv(w.db) && r in w.db.t.runs
    ensures r in w.db.used
  {
  }

  lemma ClaimIsClaim(c: Config, w: World, s: Step, w': World)
    requires NextWorld(c, w, s, w') && s.Claim?
    ensures s.a.Claim?
  {
  }

  lemma DeadStayDischarged(c: Config, w: World, s: Step, w': World, m: MsgId)
    requires RefsOk(c, w) && AnswerInv(w) && LossInv(w) && RunsForward(w.db, w'.db)
    requires MessagesEvolve(w, s, w') && HandlersEvolve(c, w, s, w') && LossesRecorded(w, s, w')
    requires m in w'.messages && !w'.messages[m].live
    ensures Discharged(w', w'.messages[m].stage, w'.messages[m].run)
  {
    hide LostRun, HasMessage, LocalInv, Next, StagesMatch;
    assert m in w.messages && w.messages[m].run in w.db.used;
    var stage, run := w.messages[m].stage, w.messages[m].run;
    if !w.messages[m].live {
      assert Discharged(w, stage, run);
    } else if s.Act? {
      var hd := w.handlers[s.h];
      assert HandlerOk(c, w, hd) && Truthful(w, hd);
      HandlerEvents(c, w, s);
      assert Discharged(w, stage, run) || LostRun(w'.log, run);
    }
    if Settled(w, run) { SettledStays(w, w', run); }
    if HasMessage(w, Delivery, run) { MessagesStay(w, s, w', Delivery, run); }
  }

  lemma LossStep(c: Config, w: World, s: Step, w': World)
    requires EffectsInv(c, w) && AnswerInv(w) && LossInv(w) && NextWorld(c, w, s, w')
    ensures LossInv(w')
  {
    hide L.Inv, RefsOk, AnswerInv, NextWorld, Next, MessagesEvolve, HandlersEvolve, RunsForward, TalliesOk, GatesOk,
      HasClaim, HasMessage, LostRun, Discharged, LossesRecorded, LogEvolves;
    DbForward(c, w, s, w');
    PartsEvolve(c, w, s, w');
    LogStep(c, w, s, w');
    LossesStep(c, w, s, w');
    forall r | r in w'.db.t.runs && Active(w'.db.t.runs[r].status)
      ensures HasClaim(w', r) || LostRun(w'.log, r) || HasMessage(w', Fetch, r)
    {
      ActiveStaysCovered(c, w, s, w', r);
    }
    forall m | m in w'.messages && !w'.messages[m].live
      ensures Discharged(w', w'.messages[m].stage, w'.messages[m].run)
    {
      DeadStayDischarged(c, w, s, w', m);
    }
  }

  // ------------------------------------------------------------- main theorems

  ghost predicate PipelineInv(c: Config, w: World) {
    EffectsInv(c, w) && AnswerInv(w) && LossInv(w)
  }

  lemma {:induction false} PipelineAlways(c: Config, worlds: seq<World>, steps: seq<Step>, n: nat)
    requires Behaviour(c, worlds, steps) && n <= |steps|
    ensures PipelineInv(c, worlds[n])
  {
    hide NextWorld;
    if n > 0 {
      hide EffectsInv, AnswerInv, LossInv;
      PipelineAlways(c, worlds, steps, n - 1);
      EffectsStep(c, worlds[n - 1], steps[n - 1], worlds[n]);
      AnswerStep(c, worlds[n - 1], steps[n - 1], worlds[n]);
      LossStep(c, worlds[n - 1], steps[n - 1], worlds[n]);
    }
  }

  // An active run that no loss event hit still has what will move it: a claim its
  // scheduler holds, or a live message of the stage that its status calls for.
  lemma NoSilentLoss(c: Config, worlds: seq<World>, steps: seq<Step>, n: nat, run: RunId)
    requires Behaviour(c, worlds, steps) && n <= |steps|
    requires run in worlds[n].db.t.runs && !LostRun(worlds[n].log, run)
    ensures match worlds[n].db.t.runs[run].status
      case Scheduled => HasClaim(worlds[n], run) || HasLiveMessage(worlds[n], Fetch, run)
      case Fetching => HasLiveMessage(worlds[n], Fetch, run) || HasLiveMessage(worlds[n], Delivery, run)
      case Delivering => HasLiveMessage(worlds[n], Delivery, run)
      case _ => true
  {
    hide NextWorld, EffectsInv;
    PipelineAlways(c, worlds, steps, n);
    var w := worlds[n];
    var status := w.db.t.runs[run].status;
    if Active(status) {
      if !status.Scheduled? { assert HasMessage(w, if status.Fetching? then Fetch else Delivery, run); }
      if HasMessage(w, Delivery, run) {
        var m :| IsFor(w, m, Delivery, run);
        assert PastGate(w, Fetch, run) && w.messages[m].live;
      } else if HasMessage(w, Fetch, run) {
        var m :| IsFor(w, m, Fetch, run);
        assert w.messages[m].live;
      }
    }
  }

  // A handler that has answered never changes again.
  lemma {:induction false} AnsweredStays(c: Config, worlds: seq<World>, steps: seq<Step>, n: nat, k: nat, h: HandlerId)
    requires Behaviour(c, worlds, steps) && n <= k <= |steps|
    requires h in worlds[n].handlers && worlds[n].handlers[h].local.pc.Done?
    ensures h in worlds[k].handlers && worlds[k].handlers[h] == worlds[n].handlers[h]
    decreases k
  {
    hide NextWorld;
    if k > n {
      AnsweredStays(c, worlds, steps, n, k - 1, h);
      PartsEvolve(c, worlds[k - 1], steps[k - 1], worlds[k]);
    }
  }

  // Once a handler has answered, what the answer says holds then and ever after:
  // fetch ack: the delivery message of the run was published; delivery ack: the
  // run is idle; term on a delivery that is not the last: the run failed.
  lemma AnswerSoundness(c: Config, worlds: seq<World>, steps: seq<Step>, n: nat, k: nat, h: HandlerId)
    requires Behaviour(c, worlds, steps) && n <= k <= |steps|
    requires h in worlds[n].handlers && worlds[n].handlers[h].local.pc.Done?
    ensures
      var hd := worlds[n].handlers[h];
      match hd.local.pc.answer
      case AckMsg =>
        if hd.local.given.stage.Fetch? then HasMessage(worlds[k], Delivery, hd.run) else Now(worlds[k], hd.run, Idle)
      case TermMsg => hd.local.given.isFinal || Now(worlds[k], hd.run, Error)
      case NakMsg => true
  {
    hide NextWorld, GatesOk, TalliesOk, LossInv, L.Inv, HasMessage;
    PipelineAlways(c, worlds, steps, k);
    AnsweredStays(c, worlds, steps, n, k, h);
    var w := worlds[k];
    assert HandlerOk(c, w, w.handlers[h]) && Truthful(w, w.handlers[h]);
  }
}
