/** The thread ids that the client thread and an ABRT pass to pthread_cancel and
    pthread_join. Using the id of a thread that was never created or has been joined is
    undefined; this says who may do so and when. */
module WorkHandles {
  import opened Containers
  import opened Slots
  import opened WorkProtocol
  import opened WorkEffects
  import opened WorkInvariant
  import opened Server
  import opened WorkTheorems
  import opened WorkReplies
  import S = Search

  /** The pool entry of the slot names a thread that was created and not joined. */
  ghost predicate Usable(c: Client, slot: nat)
  {
    Occupant(c, slot).Some? && c.threads[Occupant(c, slot).value].phase != Pending && Occupant(c, slot).value !in c.joined
  }

  // ------------------------------------------------------------ what every action keeps

  /** The client thread has joined what was in the slot: it holds the cleared slot for its
      next command, or it has passed the slot after the end of the connection. */
  predicate Cleared(pc: Pc, slot: nat)
  {
    || ((pc.Ready? || pc.Spawning?) && pc.slot == slot)
    || ((pc.Closing? || pc.ClosingJoin?) && slot < pc.slot)
    || pc.Closed?
  }

  ghost predicate JoinedEnded(c: Client)
  {
    forall u: nat :: u in c.joined ==> In(c, u, Dead)
  }

  ghost predicate JoinedCleared(c: Client)
  {
    forall s: nat :: s < |c.pool| && c.pool[s].Some? && c.pool[s].value in c.joined ==> Cleared(c.pc, s)
  }

  /** A cleared slot that the client holds was joined, if it ever had an occupant. */
  ghost predicate HeldJoined(c: Client)
  {
    (c.pc.Ready? || c.pc.Spawning?) && Occupant(c, c.pc.slot).Some? ==> Occupant(c, c.pc.slot).value in c.joined
  }

  ghost predicate InPool(c: Client, t: Thread)
  {
    t.phase != Pending ==> t.slot < |c.pool| && c.pool[t.slot].Some?
  }

  ghost predicate CreatedInPool(c: Client)
  {
    forall u: nat :: u < |c.threads| ==> InPool(c, c.threads[u])
  }

  /** A flag that is up has a thread behind it, except in the slot that the client holds. */
  ghost predicate FlagInPool(c: Client)
  {
    && (forall s: nat :: s < |c.flags| && s < |c.pool| && c.flags[s] == 1 && c.pool[s] == None ==>
          HoldsSlot(c.pc) && c.pc.slot == s)
    && (c.pc.ClosingJoin? ==> c.pc.slot < |c.pool| && c.pool[c.pc.slot].Some?)
  }

  ghost predicate HandlesOk(c: Client)
  {
    JoinedEnded(c) && JoinedCleared(c) && HeldJoined(c) && CreatedInPool(c) && FlagInPool(c)
  }

  lemma DeadStays(c: Client, count: int, a: Action, u: nat)
    requires Enabled(c, a) && In(c, u, Dead)
    ensures In(Apply(c, count, a), u, Dead)
  {
    hide Enabled, Apply, Acted, CanAct, Victim;
    SeenFrom(c, count, a, u);
    if !OfClient(a) && Actor(c, a) == u { DeadDoesNotAct(c.threads[u], a); }
  }

  lemma DeadDoesNotAct(t: Thread, a: Action)
    requires !OfClient(a) && CanAct(t, a)
    ensures t.phase != Dead
  {
    hide S.Enabled, AllStopped;
  }

  lemma JoinedEndedAfter(c: Client, count: int, a: Action)
    requires Inv(c) && JoinedEnded(c) && Enabled(c, a)
    ensures JoinedEnded(Apply(c, count, a))
  {
    hide Inv, Apply;
    var c' := Apply(c, count, a);
    ClientPartsEffect(c, count, a);
    forall u: nat | u in c'.joined ensures In(c', u, Dead) {
      assert In(c, u, Dead) by { hide ClientCan; JoinsTheDead(c, a, u); }
      DeadStays(c, count, a, u);
    }
  }

  /** Whoever is joined by an action has ended. */
  lemma JoinsTheDead(c: Client, a: Action, u: nat)
    requires Enabled(c, a) && JoinedEnded(c)
    requires u in if a.JoinOld? || a.CloseJoin? then JoinedWith(c, c.pc.slot) else c.joined
    ensures In(c, u, Dead)
  {
  }

  lemma JoinedClearedAfter(c: Client, count: int, a: Action)
    requires Inv(c) && JoinedEnded(c) && JoinedCleared(c) && Enabled(c, a)
    ensures JoinedCleared(Apply(c, count, a))
  {
    hide ThreadsOk, OwnedOk, QueueOk, HeadsOk, HistoryOk, RepliesOk, PermitsOk, Apply, ThreadsAfter, FirstFree, AllStopped, S.Enabled;
    ClientPartsEffect(c, count, a);
    hide PcAfter;
    var c' := Apply(c, count, a);
    forall s: nat | s < |c'.pool| && c'.pool[s].Some? && c'.pool[s].value in c'.joined ensures Cleared(c'.pc, s) {
      StillCleared(c, a, s);
    }
  }

  lemma StillCleared(c: Client, a: Action, s: nat)
    requires Inv(c) && Enabled(c, a) && JoinedEnded(c) && JoinedCleared(c) && s < |c.pool|
    requires var o := if a.Spawn? then c.pool[c.pc.slot := Some(c.pc.uid)][s] else c.pool[s];
             o.Some? && o.value in if a.JoinOld? || a.CloseJoin? then JoinedWith(c, c.pc.slot) else c.joined
    ensures Cleared(PcAfter(c, a), s)
  {
    hide ThreadsOk, QueueOk, HeadsOk, HistoryOk, RepliesOk, PermitsOk, FirstFree, AllStopped, S.Enabled;
  }

  lemma HeldJoinedAfter(c: Client, count: int, a: Action)
    requires Inv(c) && HeldJoined(c) && Enabled(c, a)
    ensures HeldJoined(Apply(c, count, a))
  {
    hide Core, PermitsOk, Apply, FirstFree, AllStopped, S.Enabled, Victim;
    ClientPartsEffect(c, count, a);
    var c' := Apply(c, count, a);
    if (c'.pc.Ready? || c'.pc.Spawning?) && Occupant(c', c'.pc.slot).Some? { PoolIsOld(c, c'.pc.slot); }
  }

  lemma PoolIsOld(c: Client, slot: nat)
    requires Inv(c) && slot < |c.pool| && c.pool[slot].Some?
    ensures Occupant(c, slot) == c.pool[slot]
  {
    hide ThreadsOk, QueueOk, HeadsOk, HistoryOk, RepliesOk, PermitsOk;
  }

  lemma CreatedInPoolAfter(c: Client, count: int, a: Action)
    requires Inv(c) && CreatedInPool(c) && Enabled(c, a)
    ensures CreatedInPool(Apply(c, count, a))
  {
    hide Inv, Enabled, Apply, InPool;
    var c' := Apply(c, count, a);
    forall u: nat | u < |c'.threads| ensures InPool(c', c'.threads[u]) {
      if u < |c.threads| { InPoolAfter(c, count, a, u); } else { NewIsPending(c, count, a, u); }
    }
  }

  lemma NewIsPending(c: Client, count: int, a: Action, u: nat)
    requires Enabled(c, a) && |c.threads| <= u < |Apply(c, count, a).threads|
    ensures InPool(Apply(c, count, a), Apply(c, count, a).threads[u])
  {
    hide Apply, Victim, S.Initial, S.JobOk;
    SeenNew(c, count, a, u);
  }

  lemma InPoolAfter(c: Client, count: int, a: Action, u: nat)
    requires Inv(c) && Enabled(c, a) && u < |c.threads| && InPool(c, c.threads[u])
    ensures u < |Apply(c, count, a).threads| && InPool(Apply(c, count, a), Apply(c, count, a).threads[u])
  {
    hide Inv, Enabled, Apply, Acted, CanAct, Victim, FlagsAfter, PcAfter;
    SeenFrom(c, count, a, u);
    ClientPartsEffect(c, count, a);
    if !OfClient(a) && Actor(c, a) == u { StaysInSlot(c.threads[u], a); }
    if a.Spawn? { SpawnsHere(c); }
  }

  lemma StaysInSlot(t: Thread, a: Action)
    requires !OfClient(a) && CanAct(t, a)
    ensures Acted(t, a).slot == t.slot && (t.phase == Pending ==> a.Spawn?)
  {
    hide S.Enabled, S.Next, S.JobOk, AllStopped;
  }

  lemma SpawnsHere(c: Client)
    requires Inv(c) && Enabled(c, Spawn)
    ensures c.pc.Spawning? && c.pc.slot < |c.pool| && c.pc.uid < |c.threads| && c.threads[c.pc.uid].slot == c.pc.slot
  {
    hide ThreadsOk, QueueOk, HeadsOk, HistoryOk, RepliesOk, PermitsOk;
  }

  lemma FlagInPoolAfter(c: Client, count: int, a: Action)
    requires Inv(c) && FlagInPool(c) && Enabled(c, a)
    ensures FlagInPool(Apply(c, count, a))
  {
    hide ThreadsOk, OwnedOk, QueueOk, HeadsOk, HistoryOk, RepliesOk, PermitsOk, Apply, ThreadsAfter, AllStopped, S.Enabled;
    ClientPartsEffect(c, count, a);
  }

  lemma HandlesStep(c: Client, count: int, a: Action)
    requires Inv(c) && HandlesOk(c) && Enabled(c, a)
    ensures HandlesOk(Apply(c, count, a))
  {
    hide Inv, Enabled, Apply, JoinedEnded, JoinedCleared, HeldJoined, CreatedInPool, FlagInPool;
    JoinedEndedAfter(c, count, a);
    JoinedClearedAfter(c, count, a);
    HeldJoinedAfter(c, count, a);
    CreatedInPoolAfter(c, count, a);
    FlagInPoolAfter(c, count, a);
  }

  // ------------------------------------------------------------ all runs

  ghost predicate SysHandles(sys: System)
  {
    forall i: nat :: i < |sys.clients| ==> HandlesOk(sys.clients[i])
  }

  lemma {:induction false} RunHandles(sys: System, events: seq<Event>)
    requires SysInv(sys) && SysHandles(sys) && IsRun(sys, events)
    ensures SysHandles(After(sys, events))
    decreases |events|
  {
    hide Inv, HandlesOk, LiveWorks, Apply, Enabled;
    if events != [] {
      var e := events[0];
      HappenInv(sys, e);
      if e.Act? {
        assert Inv(sys.clients[e.c]);
        HandlesStep(sys.clients[e.c], sys.count, e.a);
      } else {
        NewClientHandles();
      }
      RunHandles(Happen(sys, e), events[1..]);
    }
  }

  lemma NewClientHandles()
    ensures HandlesOk(InitialClient())
  {
  }

  lemma ReachableHandles(sys: System, i: nat)
    requires Reachable(sys) && i < |sys.clients|
    ensures Inv(sys.clients[i]) && HandlesOk(sys.clients[i])
  {
    hide SysInv, Inv, HandlesOk, IsRun, After;
    ClientInv(sys, i);
    var events :| IsRun(EMPTY, events) && After(EMPTY, events) == sys;
    EmptyInv();
    RunHandles(EMPTY, events);
  }

  /** The client thread never uses a wrong id. Before a command it cancels and joins only
      if the slot had an occupant; after the end of the connection it does so without
      that test. Each time the id names a thread that was created and not joined; so
      nobody is joined twice. */
  lemma ClientUsesLiveIds(sys: System, i: nat, a: Action)
    requires Reachable(sys) && i < |sys.clients| && Enabled(sys.clients[i], a)
    ensures var c := sys.clients[i];
            && (a.CancelOld? || a.JoinOld? ==> c.pc.slot < |c.pool| && (c.pool[c.pc.slot] == None || Usable(c, c.pc.slot)))
            && (a.CloseSlot? && c.pc.slot < |c.flags| && c.flags[c.pc.slot] == 1 ==> Usable(c, c.pc.slot))
            && (a.CloseJoin? ==> Usable(c, c.pc.slot))
  {
    hide Reachable, ThreadsOk, QueueOk, HeadsOk, HistoryOk, RepliesOk, PermitsOk, FirstFree;
    ReachableHandles(sys, i);
  }

  // ------------------------------------------------------------ ABRT

  /** What the pool entry of a queued work's slot is: the work itself, or, while the
      work's thread is still to be created, nobody alive. */
  lemma QueuedInPool(c: Client, k: nat)
    requires Inv(c) && k < |c.queue|
    ensures k < |c.queued| && c.queued[k] < |c.threads| && c.queue[k] < |c.pool|
    ensures c.threads[c.queued[k]].phase != Pending ==> c.pool[c.queue[k]] == Some(c.queued[k])
    ensures c.threads[c.queued[k]].phase == Pending ==> Joinable(c, c.queue[k])
  {
    hide ThreadsOk, HeadsOk, HistoryOk, RepliesOk, PermitsOk;
    assert Owned(c, c.queued[k]);
  }

  /** ABRT may. For a queue entry it uses the id of a thread that was created and not
      joined if and only if the thread of that work exists; otherwise the id is null, if
      no command was ever started in the slot, or that of a thread that was joined. */
  lemma AbortUsesLiveIdIff(sys: System, i: nat, u: nat, k: nat)
    requires Reachable(sys) && i < |sys.clients| && Enabled(sys.clients[i], AbortOne(u, k))
    ensures var c := sys.clients[i];
            && k < |c.queued| && c.queued[k] < |c.threads| && c.queue[k] < |c.pool|
            && (Usable(c, c.queue[k]) <==> c.threads[c.queued[k]].phase != Pending)
            && (c.pool[c.queue[k]] == None <==>
                  forall v: nat :: v < |c.threads| && c.threads[v].slot == c.queue[k] ==> c.threads[v].phase == Pending)
            && (c.pool[c.queue[k]].Some? && c.threads[c.queued[k]].phase == Pending ==> c.pool[c.queue[k]].value in c.joined)
  {
    hide Reachable, Inv, HandlesOk;
    ReachableHandles(sys, i);
    QueuedInPool(sys.clients[i], k);
    IdOfEntry(sys.clients[i], k);
  }

  lemma IdOfEntry(c: Client, k: nat)
    requires Inv(c) && HandlesOk(c) && k < |c.queue| && k < |c.queued| && c.queued[k] < |c.threads| && c.queue[k] < |c.pool|
    requires c.threads[c.queued[k]].phase != Pending ==> c.pool[c.queue[k]] == Some(c.queued[k])
    ensures Usable(c, c.queue[k]) <==> c.threads[c.queued[k]].phase != Pending
    ensures c.pool[c.queue[k]] == None <==>
              forall v: nat :: v < |c.threads| && c.threads[v].slot == c.queue[k] ==> c.threads[v].phase == Pending
    ensures c.pool[c.queue[k]].Some? && c.threads[c.queued[k]].phase == Pending ==> c.pool[c.queue[k]].value in c.joined
  {
    hide ThreadsOk, HeadsOk, HistoryOk, RepliesOk, PermitsOk;
    assert Owned(c, c.queued[k]);
    var s := c.queue[k];
    forall v: nat | v < |c.threads| && c.threads[v].slot == s && c.pool[s] == None ensures c.threads[v].phase == Pending {
      assert InPool(c, c.threads[v]);
    }
    if c.pool[s].Some? { assert c.threads[c.pool[s].value].slot == s; }
  }

  /** ABRT names its victims by slot, and slots are reused; still, where its call is
      defined, it asks the work that the entry stands for to end and no other thread. */
  lemma AbortReachesItsWork(sys: System, i: nat, u: nat, k: nat)
    requires Reachable(sys) && i < |sys.clients| && Enabled(sys.clients[i], AbortOne(u, k))
    ensures var c := sys.clients[i]; var c' := Apply(c, sys.count, AbortOne(u, k));
            && k < |c.queued| && c.queued[k] < |c.threads| && |c'.threads| == |c.threads|
            && (Usable(c, c.queue[k]) ==> c' == Set(c, c.queued[k], c.threads[c.queued[k]].(request := true)))
            && (!Usable(c, c.queue[k]) ==>
                  c.threads[c.queued[k]].phase == Pending
                  && forall v: nat :: v < |c.threads| && c.threads[v].phase != Dead ==> c'.threads[v] == c.threads[v])
  {
    hide Reachable, Inv, HandlesOk;
    var c := sys.clients[i];
    AbortUsesLiveIdIff(sys, i, u, k);
    ReachableHandles(sys, i);
    QueuedInPool(c, k);
    assert Asked(c.threads, Victim(c, AbortOne(u, k))) + [] == Asked(c.threads, Victim(c, AbortOne(u, k)));
  }
}
