// How often a message is delivered: which delivery is the last, and that an answer
// that arrives ends them.
module Deliveries {
  import opened Model
  import L = Lifecycle
  import opened Worker
  import opened Protocol
  import opened Pipeline

  // The deliveries of message m among the first n steps.
  function Count(steps: seq<Step>, n: nat, m: MsgId): nat
    requires n <= |steps|
  {
    if n == 0 then 0
    else Count(steps, n - 1, m) + if steps[n - 1].Deliver? && steps[n - 1].msg == m then 1 else 0
  }

  lemma DeliveredStep(c: Config, w: World, s: Step, w': World, m: MsgId)
    requires NextWorld(c, w, s, w') && m in w'.messages
    ensures m in w.messages ==>
              w'.messages[m].delivered == w.messages[m].delivered + if s.Deliver? && s.msg == m then 1 else 0
    ensures m !in w.messages ==> w'.messages[m].delivered == 0 && !(s.Deliver? && s.msg == m)
  {
    hide L.Apply, L.Enabled, Next;
  }

  lemma OnlyKnownDelivered(c: Config, w: World, s: Step, w': World, m: MsgId)
    requires NextWorld(c, w, s, w') && s.Deliver? && s.msg == m
    ensures m in w.messages && m in w'.messages
  {
  }

  lemma {:induction false} DeliveredIsCounted(c: Config, worlds: seq<World>, steps: seq<Step>, n: nat, m: MsgId)
    requires Behaviour(c, worlds, steps) && n <= |steps|
    ensures m in worlds[n].messages ==> worlds[n].messages[m].delivered == Count(steps, n, m)
    ensures m !in worlds[n].messages ==> Count(steps, n, m) == 0
  {
    hide NextWorld;
    if n > 0 {
      var w, s, w' := worlds[n - 1], steps[n - 1], worlds[n];
      DeliveredIsCounted(c, worlds, steps, n - 1, m);
      PartsEvolve(c, w, s, w');
      if s.Deliver? && s.msg == m { OnlyKnownDelivered(c, w, s, w', m); }
      if m in w'.messages { DeliveredStep(c, w, s, w', m); }
    }
  }

  lemma StartOfDelivery(c: Config, w: World, s: Step, w': World)
    requires NextWorld(c, w, s, w') && s.Deliver?
    ensures s.msg in w.messages && s.h in w'.handlers && s.h !in w.handlers
    ensures
      var m, hd := w.messages[s.msg], w'.handlers[s.h];
      var max := if m.stage.Fetch? then c.maxFetchDeliver else c.maxDeliveryDeliver;
      && hd.msg == s.msg && hd.job == m.job && hd.run == m.run
      && hd.local.given.stage == m.stage && hd.local.given.input == m.body && hd.local.given.wellFormed
      && hd.local.given.deadline == s.start + (if m.stage.Fetch? then c.fetchTime else c.deliveryTime)
      && (hd.local.given.isFinal <==> s.metadata && 0 < max <= m.delivered + 1)
      && hd.local.needStatus && hd.local.clock == s.start && hd.local.sends == 0
  {
  }

  // The handler that step n starts knows its message, has the time of its stage, and
  // treats the delivery as the last exactly if it can read the metadata and the
  // message has by now been delivered as often as allowed.
  lemma LastDeliveryExactly(c: Config, worlds: seq<World>, steps: seq<Step>, n: nat)
    requires Behaviour(c, worlds, steps) && n < |steps| && steps[n].Deliver?
    ensures steps[n].msg in worlds[n].messages && steps[n].h in worlds[n + 1].handlers
    ensures
      var m, hd := worlds[n].messages[steps[n].msg], worlds[n + 1].handlers[steps[n].h];
      var max := if m.stage.Fetch? then c.maxFetchDeliver else c.maxDeliveryDeliver;
      && hd.job == m.job && hd.run == m.run && hd.local.given.input == m.body
      && hd.local.given.deadline == steps[n].start + (if m.stage.Fetch? then c.fetchTime else c.deliveryTime)
      && (hd.local.given.isFinal <==> steps[n].metadata && 0 < max <= Count(steps, n + 1, steps[n].msg))
  {
    assert NextWorld(c, worlds[n], steps[n], worlds[n + 1]);
    hide NextWorld;
    StartOfDelivery(c, worlds[n], steps[n], worlds[n + 1]);
    DeliveredIsCounted(c, worlds, steps, n, steps[n].msg);
  }

  // An answer that reaches the queue and does not ask for redelivery.
  predicate Settles(w: World, s: Step, m: MsgId) {
    && s.Act? && s.took && s.e.Answer? && (s.e.answer == AckMsg || s.e.answer == TermMsg)
    && s.h in w.handlers && w.handlers[s.h].msg == m
  }

  lemma AnswerEffect(c: Config, w: World, s: Step, w': World, m: MsgId)
    requires NextWorld(c, w, s, w') && m in w.messages
    ensures m in w'.messages
    ensures Settles(w, s, m) ==> !w'.messages[m].live
    ensures !w.messages[m].live ==> !w'.messages[m].live
    ensures w.messages[m].live && !Settles(w, s, m) && !(s.Drop? && s.msg == m) ==> w'.messages[m].live
    ensures s.Deliver? && s.msg == m ==> w.messages[m].live
  {
    hide L.Apply, L.Enabled, Next;
  }

  lemma {:induction false} DeadStays(c: Config, worlds: seq<World>, steps: seq<Step>, i: nat, n: nat, m: MsgId)
    requires Behaviour(c, worlds, steps) && i <= n <= |steps| && m in worlds[i].messages && !worlds[i].messages[m].live
    ensures m in worlds[n].messages && !worlds[n].messages[m].live
  {
    hide NextWorld;
    if i < n {
      DeadStays(c, worlds, steps, i, n - 1, m);
      AnswerEffect(c, worlds[n - 1], steps[n - 1], worlds[n], m);
    }
  }

  // Once an ack or a term has arrived, the message is never delivered again.
  lemma SettledIsNotRedelivered(c: Config, worlds: seq<World>, steps: seq<Step>, i: nat, n: nat, m: MsgId)
    requires Behaviour(c, worlds, steps) && i < n < |steps|
    requires m in worlds[i].messages && Settles(worlds[i], steps[i], m)
    ensures !(steps[n].Deliver? && steps[n].msg == m)
  {
    hide NextWorld;
    AnswerEffect(c, worlds[i], steps[i], worlds[i + 1], m);
    DeadStays(c, worlds, steps, i + 1, n, m);
    AnswerEffect(c, worlds[n], steps[n], worlds[n + 1], m);
  }

  // Until then, and unless it is dropped at its limit, it may always come again.
  lemma UnsettledMayComeAgain(
    c: Config, worlds: seq<World>, steps: seq<Step>, i: nat, n: nat,
    m: MsgId, h: HandlerId, metadata: bool, start: Time)
    requires Behaviour(c, worlds, steps) && i <= n <= |steps| && m in worlds[i].messages && worlds[i].messages[m].live
    requires forall k | i <= k < n :: !Settles(worlds[k], steps[k], m) && !(steps[k].Drop? && steps[k].msg == m)
    requires h !in worlds[n].handlers
    ensures m in worlds[n].messages && worlds[n].messages[m].live
    ensures
      var max := if worlds[n].messages[m].stage.Fetch? then c.maxFetchDeliver else c.maxDeliveryDeliver;
      max <= 0 || Count(steps, n, m) < max <==> Enabled(c, worlds[n], Deliver(m, h, metadata, start))
  {
    hide NextWorld, Settles;
    StaysLive(c, worlds, steps, i, n, m);
    DeliveredIsCounted(c, worlds, steps, n, m);
  }

  lemma {:induction false} StaysLive(c: Config, worlds: seq<World>, steps: seq<Step>, i: nat, n: nat, m: MsgId)
    requires Behaviour(c, worlds, steps) && i <= n <= |steps| && m in worlds[i].messages && worlds[i].messages[m].live
    requires forall k | i <= k < n :: !Settles(worlds[k], steps[k], m) && !(steps[k].Drop? && steps[k].msg == m)
    ensures m in worlds[n].messages && worlds[n].messages[m].live
  {
    hide NextWorld, Settles;
    if i < n {
      StaysLive(c, worlds, steps, i, n - 1, m);
      AnswerEffect(c, worlds[n - 1], steps[n - 1], worlds[n], m);
    }
  }
}
