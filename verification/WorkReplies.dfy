/** Which works reply: exactly those that were not cancelled. */
module WorkReplies {
  import opened WorkProtocol
  import opened WorkEffects
  import opened WorkInvariant
  import opened WorkSteps
  import opened Server
  import opened WorkTheorems
  import S = Search

  // ------------------------------------------------------------ one thread

  /** Past the point where replies are sent, a work has replied or was cancelled and
      not both; before it, neither. */
  predicate Settled(t: Thread)
  {
    && (t.phase == Handling || t.phase == Aborting ==> t.kind != Work)
    && (t.kind == Work ==> if AfterSending(t.phase) then t.sent != t.cancelled else !t.sent && !t.cancelled)
    && (t.kind != Work ==> !t.sent)
  }

  ghost predicate AllSettled(c: Client)
  {
    forall u: nat :: u < |c.threads| ==> Settled(c.threads[u])
  }

  ghost function Repliers(replies: seq<Reply>): (s: set<nat>)
  {
    set r | r in replies :: r.uid
  }

  ghost predicate SentReplied(c: Client)
  {
    forall u: nat :: u < |c.threads| && c.threads[u].sent ==> u in Repliers(c.replies)
  }

  lemma SettledActed(t: Thread, a: Action)
    requires !OfClient(a) && CanAct(t, a) && Settled(t) && ThreadOk(t)
    ensures Settled(Acted(t, a)) && (Acted(t, a).sent ==> t.sent || a.Send?)
  {
    hide S.Enabled, S.Next, S.JobOk, S.Inv, AllStopped;
  }

  /** A step keeps a thread settled, and counts it as having replied only if it had or
      if this is its reply. */
  lemma SettledAfter(c: Client, count: int, a: Action, u: nat)
    requires Inv(c) && Enabled(c, a) && u < |c.threads| && Settled(c.threads[u])
    ensures u < |Apply(c, count, a).threads| && Settled(Apply(c, count, a).threads[u])
    ensures Apply(c, count, a).threads[u].sent ==> c.threads[u].sent || a == Send(u)
  {
    hide Inv, ThreadOk, Enabled, Apply, Acted, CanAct, Victim;
    SeenFrom(c, count, a, u);
    ThreadIsOk(c, u);
    if !OfClient(a) && Actor(c, a) == u { SettledActed(c.threads[u], a); }
  }

  lemma SettledCreated(c: Client, count: int, a: Action, u: nat)
    requires Enabled(c, a) && |c.threads| <= u < |Apply(c, count, a).threads|
    ensures var t := Apply(c, count, a).threads[u]; Settled(t) && !t.sent
  {
    hide Enabled, Apply, Victim, S.Initial, S.JobOk;
    SeenNew(c, count, a, u);
  }

  lemma RepliersStay(before: seq<Reply>, after: seq<Reply>)
    requires |before| <= |after| && after[..|before|] == before
    ensures Repliers(before) <= Repliers(after)
  {
    forall u | u in Repliers(before) ensures u in Repliers(after) {
      var r :| r in before && r.uid == u;
      assert r in after[..|before|];
    }
  }

  lemma SettledStep(c: Client, count: int, a: Action)
    requires Inv(c) && Enabled(c, a) && AllSettled(c) && SentReplied(c)
    ensures AllSettled(Apply(c, count, a)) && SentReplied(Apply(c, count, a))
  {
    hide Inv, Apply, Enabled, Settled, Repliers;
    var c' := Apply(c, count, a);
    ReplyEffect(c, count, a);
    assert c.replies[..|c.replies|] == c.replies;
    RepliersStay(c.replies, c'.replies);
    forall u: nat | u < |c'.threads|
      ensures Settled(c'.threads[u]) && (c'.threads[u].sent ==> u in Repliers(c'.replies))
    {
      if u < |c.threads| {
        SettledAfter(c, count, a, u);
        if a == Send(u) { InRepliers(c'.replies, |c.replies|); }
      } else {
        SettledCreated(c, count, a, u);
      }
    }
  }

  lemma InRepliers(replies: seq<Reply>, k: nat)
    requires k < |replies|
    ensures replies[k].uid in Repliers(replies)
  {
  }

  // ------------------------------------------------------------ all runs

  ghost predicate SysSettled(sys: System)
  {
    forall i: nat :: i < |sys.clients| ==> AllSettled(sys.clients[i]) && SentReplied(sys.clients[i])
  }

  lemma {:induction false} RunSettled(sys: System, events: seq<Event>)
    requires SysInv(sys) && SysSettled(sys) && IsRun(sys, events)
    ensures SysSettled(After(sys, events))
    decreases |events|
  {
    hide Inv, AllSettled, SentReplied, LiveWorks, Apply, Enabled;
    if events != [] {
      var e := events[0];
      HappenInv(sys, e);
      if e.Act? {
        assert Inv(sys.clients[e.c]);
        SettledStep(sys.clients[e.c], sys.count, e.a);
      } else {
        NewClientSettled();
      }
      RunSettled(Happen(sys, e), events[1..]);
    }
  }

  lemma NewClientSettled()
    ensures AllSettled(InitialClient()) && SentReplied(InitialClient())
  {
  }

  lemma EmptyInv()
    ensures SysInv(EMPTY)
  {
    assert LiveWorks(EMPTY.clients) == {};
  }

  lemma ReachableSettled(sys: System, i: nat)
    requires Reachable(sys) && i < |sys.clients|
    ensures Inv(sys.clients[i]) && AllSettled(sys.clients[i]) && SentReplied(sys.clients[i])
  {
    hide SysInv, Inv, AllSettled, SentReplied, IsRun, After;
    ClientInv(sys, i);
    var events :| IsRun(EMPTY, events) && After(EMPTY, events) == sys;
    EmptyInv();
    RunSettled(EMPTY, events);
  }

  /** A work that has left the queue has replied if and only if it was not cancelled. */
  lemma RepliesIffNotCancelled(sys: System, i: nat, u: nat)
    requires Reachable(sys) && i < |sys.clients| && u in sys.clients[i].popped
    ensures u < |sys.clients[i].threads|
    ensures u in Repliers(sys.clients[i].replies) <==> !sys.clients[i].threads[u].cancelled
  {
    hide Reachable, Inv, S.Inv;
    ReachableSettled(sys, i);
    var c := sys.clients[i];
    PoppedIsPast(c, u);
    assert Settled(c.threads[u]);
    if u in Repliers(c.replies) { ReplierSent(c, u); }
  }

  lemma ReplierSent(c: Client, u: nat)
    requires Inv(c) && u in Repliers(c.replies)
    ensures u < |c.threads| && c.threads[u].sent
  {
    hide ThreadsOk, OwnedOk, QueueOk, HeadsOk, HistoryOk, PermitsOk;
    var r :| r in c.replies && r.uid == u;
  }

  /** Those who popped are not in the queue any more, so they are past their reply. */
  lemma PoppedIsPast(c: Client, u: nat)
    requires Inv(c) && AllSettled(c) && u in c.popped
    ensures u < |c.threads| && c.threads[u].kind == Work && AfterSending(c.threads[u].phase)
  {
    hide ThreadsOk, OwnedOk, HeadsOk, RepliesOk, PermitsOk;
    assert u in c.admitted;
    GoneFromQueue(c.popped, c.queued, u);
    NotQueuedIsPast(c.threads[u]);
  }

  lemma GoneFromQueue(popped: seq<nat>, queued: seq<nat>, u: nat)
    requires Increasing(popped + queued) && u in popped
    ensures u !in queued
  {
    var k :| 0 <= k < |popped| && popped[k] == u;
    var s := popped + queued;
    forall l | 0 <= l < |queued| ensures u < queued[l] {
      assert s[k] == u && s[|popped| + l] == queued[l];
    }
  }

  lemma NotQueuedIsPast(t: Thread)
    requires t.kind == Work && !Queued(t) && Settled(t)
    ensures AfterSending(t.phase)
  {
  }
}
