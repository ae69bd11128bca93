/** The batch threads of a WORK: all are made before it replies, and none of them outlives
    its search. */
module WorkBatches {
  import opened WorkProtocol
  import opened WorkEffects
  import opened WorkInvariant
  import opened WorkSteps
  import opened Server
  import opened WorkTheorems
  import opened WorkReplies
  import S = Search

  predicate PastJoin(p: Phase)
  {
    p == CleanupTurn || p == Popping || p == Resetting || p == Wrapping || p == Exiting || p == Dead
  }

  predicate AllMade(s: S.State)
  {
    s.made == |s.batches|
  }

  predicate Gathered(t: Thread)
  {
    && (t.kind == Work && PastJoin(t.phase) ==> AllStopped(t.search))
    && (t.phase == AwaitingTurn || t.phase == Sending || t.phase == Sent || t.sent ==> AllMade(t.search))
  }

  ghost predicate AllGathered(c: Client)
  {
    forall u: nat :: u < |c.threads| ==> Gathered(c.threads[u])
  }

  lemma SameSearch(t: Thread, a: Action)
    requires !OfClient(a) && CanAct(t, a) && !a.SearchStep?
    ensures var s, s' := t.search, Acted(t, a).search;
            (AllMade(s) <==> AllMade(s')) && (AllStopped(s) <==> AllStopped(s'))
  {
    hide S.Enabled, S.JobOk;
  }

  lemma MadeStays(t: Thread, step: S.Step)
    requires ThreadOk(t) && S.Enabled(t.search, step) && AllMade(t.search)
    ensures AllMade(S.Next(t.job, t.search, step))
  {
    hide S.BatchOk, S.SolutionOk;
  }

  lemma SearchGathered(t: Thread, a: Action)
    requires a.SearchStep? && CanAct(t, a) && Gathered(t) && ThreadOk(t)
    ensures Gathered(Acted(t, a))
  {
    hide S.BatchOk, S.SolutionOk, AllStopped, AllMade, S.Enabled, S.Next;
    if AllMade(t.search) { MadeStays(t, a.step); }
  }

  lemma GatheredActed(t: Thread, a: Action)
    requires !OfClient(a) && CanAct(t, a) && Gathered(t) && Settled(t) && ThreadOk(t)
    ensures Gathered(Acted(t, a))
  {
    hide S.Inv, AllStopped;
    if a.SearchStep? {
      SearchGathered(t, a);
    } else {
      SameSearch(t, a);
    }
  }

  lemma GatheredStep(c: Client, count: int, a: Action)
    requires Inv(c) && AllSettled(c) && AllGathered(c) && Enabled(c, a)
    ensures AllGathered(Apply(c, count, a))
  {
    hide Inv, ThreadOk, Enabled, Apply, Acted, CanAct, Victim, Gathered, Settled;
    var c' := Apply(c, count, a);
    forall u: nat | u < |c'.threads| ensures Gathered(c'.threads[u]) {
      if u < |c.threads| {
        SeenFrom(c, count, a, u);
        ThreadIsOk(c, u);
        if !OfClient(a) && Actor(c, a) == u { GatheredActed(c.threads[u], a); }
        AskedGathered(c.threads[u]);
      } else {
        SeenNew(c, count, a, u);
        NewGathered(c, count, a);
      }
    }
  }

  lemma AskedGathered(t: Thread)
    ensures Gathered(t.(request := true)) <==> Gathered(t)
  {
    hide AllStopped, AllMade;
  }

  lemma NewGathered(c: Client, count: int, a: Action)
    requires Enabled(c, a)
    ensures forall t :: t in Created(c, count, a) ==> Gathered(t)
  {
    hide AllStopped, AllMade, S.Initial;
  }

  // ------------------------------------------------------------ all runs

  ghost predicate SysGathered(sys: System)
  {
    forall i: nat :: i < |sys.clients| ==> AllSettled(sys.clients[i]) && SentReplied(sys.clients[i]) && AllGathered(sys.clients[i])
  }

  lemma {:induction false} RunGathered(sys: System, events: seq<Event>)
    requires SysInv(sys) && SysGathered(sys) && IsRun(sys, events)
    ensures SysGathered(After(sys, events))
    decreases |events|
  {
    hide Inv, AllSettled, SentReplied, AllGathered, LiveWorks, Apply, Enabled;
    if events != [] {
      var e := events[0];
      HappenInv(sys, e);
      if e.Act? {
        assert Inv(sys.clients[e.c]);
        SettledStep(sys.clients[e.c], sys.count, e.a);
        GatheredStep(sys.clients[e.c], sys.count, e.a);
      } else {
        NewClientSettled();
        NewClientGathered();
      }
      RunGathered(Happen(sys, e), events[1..]);
    }
  }

  lemma NewClientGathered()
    ensures AllGathered(InitialClient())
  {
  }

  lemma ReachableGathered(sys: System, i: nat)
    requires Reachable(sys) && i < |sys.clients|
    ensures AllGathered(sys.clients[i])
  {
    hide SysInv, AllSettled, SentReplied, AllGathered, IsRun, After;
    var events :| IsRun(EMPTY, events) && After(EMPTY, events) == sys;
    EmptyInv();
    RunGathered(EMPTY, events);
  }

  /** In every reachable state, once a WORK waits in its cleanup for its id at the head, or
      is further on, every batch thread that it made has ended; and a WORK whose permit was
      posted, or whose reply is out, had made all its batches. */
  lemma NoBatchOutlivesWork(sys: System, i: nat, u: nat)
    requires Reachable(sys) && i < |sys.clients| && u < |sys.clients[i].threads|
    ensures var t := sys.clients[i].threads[u];
            && (t.kind == Work && (t.phase == CleanupTurn || t.phase == Popping || t.phase == Resetting
                                   || t.phase == Wrapping || t.phase == Exiting || t.phase == Dead) ==>
                  forall k :: 0 <= k < t.search.made && k < |t.search.batches| ==> t.search.batches[k].pc == S.Stopped)
            && (t.phase == AwaitingTurn || t.phase == Sending || t.phase == Sent || t.sent ==>
                  t.search.made == |t.search.batches|)
  {
    hide Reachable;
    ReachableGathered(sys, i);
    assert Gathered(sys.clients[i].threads[u]);
  }
}
