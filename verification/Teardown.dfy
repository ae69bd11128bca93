/** Where the server is at rest: what is left of a client there, when the end of a
    connection gets through, and which threads it leaves behind. */
module Teardown {
  import opened Slots
  import opened WorkProtocol
  import opened WorkEffects
  import opened WorkInvariant
  import opened WorkSteps
  import opened Server
  import opened WorkTheorems
  import opened WorkReplies
  import opened WorkProgress
  import opened WorkHandles
  import opened WorkEnding
  import opened DoubleReset
  import S = Search

  // ------------------------------------------------------------ at rest

  lemma NothingGoesOn(sys: System, i: nat, a: Action)
    requires AtRest(sys) && i < |sys.clients| && GoesOn(Act(i, a))
    ensures !Enabled(sys.clients[i], a)
  {
    hide Enabled;
    assert !CanHappen(sys, Act(i, a));
  }

  lemma NoProgress(sys: System, i: nat)
    requires AtRest(sys) && i < |sys.clients|
    ensures !CanProgress(sys.clients[i])
  {
    hide AtRest, CanProgress;
    if CanProgress(sys.clients[i]) { ProgressGoesOn(sys, i); }
  }

  /** Where a work waits: for a permit, for a result, or for its turn. */
  predicate IsWait(p: Phase)
  {
    p == Waiting || p == Searching || p == AwaitingTurn || p == CleanupTurn
  }

  predicate Waits(t: Thread)
  {
    t.kind == Work && IsWait(t.phase)
  }

  /** The next action of a thread that never has to wait. */
  function Onward(p: Phase, u: nat): (a: Action)
    ensures GoesOn(Act(0, a))
  {
    match p
    case Starting => Start(u)
    case Sending => Send(u)
    case Sent => BeginCleanup(u)
    case Popping => Pop(u)
    case Resetting => ResetFlag(u)
    case Wrapping => ResetAgain(u)
    case Exiting => Exit(u)
    case _ => Return(u)
  }

  lemma OnwardCan(c: Client, u: nat)
    requires u < |c.threads| && c.threads[u].slot < |c.flags|
    requires var p := c.threads[u].phase; p != Pending && p != JoiningBatches && p != Dead && !IsWait(p)
    ensures Enabled(c, Onward(c.threads[u].phase, u))
  {
    hide S.Enabled, AllStopped, HeadIs;
  }

  lemma IdleThread(sys: System, i: nat, u: nat)
    requires AtRest(sys) && i < |sys.clients| && Inv(sys.clients[i]) && u < |sys.clients[i].threads|
    ensures sys.clients[i].threads[u].phase == Dead || Waits(sys.clients[i].threads[u])
  {
    hide AtRest, Core, PermitsOk, S.Inv, Enabled, CanProgress;
    var c := sys.clients[i];
    var p := c.threads[u].phase;
    ThreadIsOk(c, u);
    NoProgress(sys, i);
    SlotsAreOk(c);
    if p == Pending {
      PendingSpawns(c, u);
    } else if p == JoiningBatches {
      QueuedIsListed(c, u);
      JoiningCanProgress(c, u);
    } else if p != Dead && !IsWait(p) {
      OnwardCan(c, u);
      NothingGoesOn(sys, i, Onward(p, u));
    }
  }

  /** At rest, a client that is not held up has no thread left, an empty queue and all
      permits that were not lost, and its client thread waits for a command or has ended. */
  lemma RestIsClean(sys: System, i: nat)
    requires Reachable(sys) && AtRest(sys) && i < |sys.clients| && !HeldUp(sys.clients[i])
    ensures var c := sys.clients[i];
            && (forall u: nat :: u < |c.threads| ==> c.threads[u].phase == Dead)
            && c.queue == [] && c.permits + |LeakedUids(c)| == PERMITS
            && (c.pc == Idle || c.pc.Ready? || c.pc.Closed?)
  {
    hide Reachable, AtRest, HeldUp, Inv, HandlesOk;
    var c := sys.clients[i];
    RestMeansDone(sys, i);
    ReachableHandles(sys, i);
    forall u: nat | u < |c.threads| ensures c.threads[u].phase == Dead {
      IdleThread(sys, i, u);
      if Waits(c.threads[u]) { WaiterIsQueued(c, u); }
    }
    PermitAccounting(c);
    assert SearchingUids(c) == {};
    IdleClient(sys, i);
  }

  lemma WaiterIsQueued(c: Client, u: nat)
    requires Inv(c) && u < |c.threads| && Waits(c.threads[u])
    ensures c.queue != []
  {
    hide ThreadsOk, OwnedOk, HeadsOk, HistoryOk, RepliesOk, PermitsOk;
  }

  lemma IdleClient(sys: System, i: nat)
    requires AtRest(sys) && i < |sys.clients| && Inv(sys.clients[i]) && HandlesOk(sys.clients[i])
    requires forall u: nat :: u < |sys.clients[i].threads| ==> sys.clients[i].threads[u].phase == Dead
    ensures var pc := sys.clients[i].pc; pc == Idle || pc.Ready? || pc.Closed?
  {
    hide AtRest, ThreadsOk, QueueOk, HeadsOk, HistoryOk, RepliesOk, PermitsOk, JoinedEnded, JoinedCleared, HeldJoined, CreatedInPool;
    match sys.clients[i].pc
    case Acquired(_) => NothingGoesOn(sys, i, CancelOld);
    case Joining(_) => NothingGoesOn(sys, i, JoinOld);
    case Spawning(_, _) => NothingGoesOn(sys, i, Spawn);
    case Closing(_) => NothingGoesOn(sys, i, CloseSlot);
    case ClosingJoin(_) => NothingGoesOn(sys, i, CloseJoin);
    case _ =>
  }

  /** The end of a connection gets through, unless the client is held up. */
  lemma ConnectionEnds(sys: System, i: nat)
    requires Reachable(sys) && AtRest(sys) && i < |sys.clients|
    requires var pc := sys.clients[i].pc; pc.Closing? || pc.ClosingJoin? || pc.Closed?
    ensures sys.clients[i].pc.Closed? || HeldUp(sys.clients[i])
  {
    hide Reachable, AtRest, HeldUp, LeakedUids;
    if !HeldUp(sys.clients[i]) { RestIsClean(sys, i); }
  }

  /** If no client is held up, no work is counted any more: the server can admit as many
      as in the beginning. */
  lemma RestCountsNobody(sys: System)
    requires Reachable(sys) && AtRest(sys)
    requires forall i: nat :: i < |sys.clients| ==> !HeldUp(sys.clients[i])
    ensures sys.count == 0
  {
    hide Reachable, AtRest, HeldUp, LeakedUids;
    WorkCountIsExact(sys);
    forall i: nat | i < |sys.clients| ensures CountedUids(sys.clients[i]) == {} {
      RestIsClean(sys, i);
    }
    NobodyCounted(sys.clients);
  }

  lemma NobodyCounted(clients: seq<Client>)
    requires forall i: nat :: i < |clients| ==> CountedUids(clients[i]) == {}
    ensures LiveWorks(clients) == {}
  {
    hide CountedUids;
  }

  // ------------------------------------------------------------ who is left

  /** The end of the connection has passed the slot. */
  predicate Passed(pc: Pc, slot: nat)
  {
    ((pc.Closing? || pc.ClosingJoin?) && slot < pc.slot) || pc.Closed?
  }

  ghost predicate PassedIdle(c: Client)
  {
    forall u: nat :: u < |c.threads| && Passed(c.pc, c.threads[u].slot) ==> !Busy(c.threads[u])
  }

  /** A slot that is passed now was passed before, or its flag is down, or its thread has
      ended. */
  lemma PassesWhen(c: Client, a: Action, slot: nat)
    requires Enabled(c, a) && slot < |c.flags| && Passed(PcAfter(c, a), slot)
    ensures !c.pc.Spawning? && (Passed(c.pc, slot) || c.flags[slot] != 1 || Joinable(c, slot))
  {
    hide FirstFree, AllStopped, S.Enabled, HeadIs, Joinable;
  }

  lemma PassesNobodyBusy(c: Client, a: Action, u: nat)
    requires Inv(c) && Flagged(c) && PassedIdle(c) && Enabled(c, a) && u < |c.threads|
    requires Passed(PcAfter(c, a), c.threads[u].slot)
    ensures !Busy(c.threads[u])
  {
    hide ThreadsOk, QueueOk, HeadsOk, HistoryOk, RepliesOk, PermitsOk, Enabled, PcAfter, OldIsPast, S.Inv;
    ThreadIsOk(c, u);
    PassesWhen(c, a, c.threads[u].slot);
    assert Owned(c, u);
  }

  lemma PassedIdleAfter(c: Client, count: int, a: Action)
    requires Inv(c) && Flagged(c) && PassedIdle(c) && Enabled(c, a)
    ensures PassedIdle(Apply(c, count, a))
  {
    hide Inv, Flagged, Enabled, Apply, Acted, CanAct, Victim, Busy, Passed;
    var c' := Apply(c, count, a);
    ClientPartsEffect(c, count, a);
    forall u: nat | u < |c'.threads| && Passed(c'.pc, c'.threads[u].slot) ensures !Busy(c'.threads[u]) {
      if u < |c.threads| {
        SeenFrom(c, count, a, u);
        if !OfClient(a) && Actor(c, a) == u { BusyActed(c.threads[u], a); }
        PassesNobodyBusy(c, a, u);
        StillIdle(c, a, u);
      } else {
        NewThreadHere(c, count, a, u);
        NoneNewInPassed(c, a, c'.threads[u].slot);
      }
    }
  }

  lemma StillIdle(c: Client, a: Action, u: nat)
    requires Enabled(c, a) && u < |c.threads| && !Busy(c.threads[u])
    requires !OfClient(a) && Actor(c, a) == u ==> CanAct(c.threads[u], a) && (Busy(Acted(c.threads[u], a)) ==> Busy(c.threads[u]))
    ensures !Busy(ThreadAfter(c, a, u))
  {
    hide Enabled, Acted, CanAct, Victim;
  }

  lemma NoneNewInPassed(c: Client, a: Action, slot: nat)
    requires Enabled(c, a) && (a.WorkCommand? || a.OtherCommand?)
    ensures !Passed(PcAfter(c, a), slot)
  {
  }

  /** A run in which client i takes no slot in the window. ABRT and hangup are allowed. */
  ghost predicate WindowFree(sys: System, events: seq<Event>, i: nat)
    requires IsRun(sys, events)
    decreases |events|
  {
    events == []
    || ((events[0] == Act(i, Acquire) ==> !InWindow(sys.clients[i])) && WindowFree(Happen(sys, events[0]), events[1..], i))
  }

  ghost predicate Truthful(sys: System, i: nat)
  {
    i < |sys.clients| ==> Flagged(sys.clients[i]) && PassedIdle(sys.clients[i])
  }

  lemma {:induction false} WindowFreeIsTruthful(sys: System, events: seq<Event>, i: nat)
    requires SysInv(sys) && IsRun(sys, events) && WindowFree(sys, events, i) && Truthful(sys, i)
    ensures Truthful(After(sys, events), i)
    decreases |events|
  {
    hide Inv, Flagged, PassedIdle, InWindow, LiveWorks, Enabled, Apply;
    if events != [] {
      var e := events[0];
      HappenInv(sys, e);
      if e.Act? && e.c == i {
        assert Inv(sys.clients[i]);
        FlaggedIff(sys.clients[i], sys.count, e.a);
        PassedIdleAfter(sys.clients[i], sys.count, e.a);
      }
      if e == Connect { NewClientIsTruthful(); }
      WindowFreeIsTruthful(Happen(sys, e), events[1..], i);
    }
  }

  lemma NewClientIsTruthful()
    ensures Flagged(InitialClient()) && PassedIdle(InitialClient())
  {
  }

  /** If the client never took a slot in the window, the end of its connection leaves no
      thread inside a handler: each has ended or is past its handler, the queue is empty,
      and every admitted work has replied if and only if it was not cancelled. */
  lemma ClosedLeavesNobodyBusy(events: seq<Event>, i: nat, u: nat)
    requires IsRun(EMPTY, events) && WindowFree(EMPTY, events, i) && i < |After(EMPTY, events).clients|
    requires After(EMPTY, events).clients[i].pc.Closed?
    ensures var c := After(EMPTY, events).clients[i];
            && (u < |c.threads| ==> var p := c.threads[u].phase; p == Wrapping || p == Exiting || p == Dead)
            && c.queue == []
            && (u in c.admitted ==> u < |c.threads| && (u in Repliers(c.replies) <==> !c.threads[u].cancelled))
  {
    hide IsRun, After, WindowFree, SysInv, Inv, Flagged, Repliers;
    EmptyInv();
    WindowFreeIsTruthful(EMPTY, events, i);
    var sys := After(EMPTY, events);
    assert Reachable(sys);
    ClientInv(sys, i);
    var c := sys.clients[i];
    NobodyQueued(c);
    RepliesFollowAdmission(sys, i);
    assert c.popped + [] == c.popped;
    if u in c.admitted { RepliesIffNotCancelled(sys, i, u); }
  }

  lemma NobodyQueued(c: Client)
    requires Inv(c) && PassedIdle(c) && c.pc.Closed?
    ensures c.queue == []
  {
    hide Inv;
    if c.queue != [] { HeadFacts(c); }
  }
}
