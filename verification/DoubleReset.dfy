/** A WORK that ends normally resets its slot flag twice, in work_handler_cleanup and
    again in handler_wrapper. When a flag can be trusted all the same: exactly as long as
    the client never takes a slot whose old occupant is between its two resets. */
module DoubleReset {
  import opened Slots
  import opened WorkProtocol
  import opened WorkEffects
  import opened WorkInvariant
  import opened Server
  import opened WorkHandles
  import S = Search

  // ------------------------------------------------------------ flags that tell the truth

  /** In a handler, or before its first flag reset. */
  predicate Busy(t: Thread)
  {
    t.phase != Wrapping && t.phase != Exiting && t.phase != Dead
  }

  /** Done with the flag. */
  predicate PastReset(t: Thread)
  {
    t.phase == Exiting || t.phase == Dead
  }

  predicate IsFlagged(c: Client, slot: nat)
  {
    slot < |c.flags| && c.flags[slot] == 1
  }

  ghost predicate BusyFlagged(c: Client)
  {
    forall u: nat :: u < |c.threads| && Busy(c.threads[u]) ==> IsFlagged(c, c.threads[u].slot)
  }

  /** The old occupant of the slot that the client has taken, if there is one, will not
      touch the flag any more. */
  predicate OldIsPast(c: Client)
  {
    (c.pc.Acquired? || c.pc.Joining?) && Occupant(c, c.pc.slot).Some? ==> PastReset(c.threads[Occupant(c, c.pc.slot).value])
  }

  /** Every slot in use is flagged. */
  ghost predicate Flagged(c: Client)
  {
    BusyFlagged(c) && (HoldsSlot(c.pc) ==> IsFlagged(c, c.pc.slot)) && OldIsPast(c)
  }

  /** The slot that Acquire would take has an occupant between its two resets. */
  predicate InWindow(c: Client)
  {
    FirstFree(c.flags) != -1
    && Occupant(c, FirstFree(c.flags)).Some? && c.threads[Occupant(c, FirstFree(c.flags)).value].phase == Wrapping
  }

  lemma BusyActed(t: Thread, a: Action)
    requires !OfClient(a) && CanAct(t, a)
    ensures Acted(t, a).slot == t.slot
    ensures Busy(Acted(t, a)) ==> Busy(t) && !a.ResetFlag? && !a.ResetAgain?
    ensures PastReset(t) ==> PastReset(Acted(t, a))
    ensures a.ResetFlag? || a.ResetAgain? ==> !PastReset(t)
  {
    hide S.Enabled, S.Next, S.JobOk, AllStopped;
  }

  predicate Resets(a: Action)
  {
    a.ResetFlag? || a.ResetAgain?
  }

  /** A thread that resets a flag has its slot to itself: the client does not hold it,
      and no other busy thread is in it. */
  lemma ResetterAlone(c: Client, a: Action)
    requires Inv(c) && Flagged(c) && Enabled(c, a) && Resets(a)
    ensures a.u < |c.threads| && !PastReset(c.threads[a.u])
    ensures HoldsSlot(c.pc) ==> c.pc.slot != c.threads[a.u].slot
    ensures forall v: nat :: v < |c.threads| && v != a.u && Busy(c.threads[v]) ==> c.threads[v].slot != c.threads[a.u].slot
  {
    hide ThreadsOk, QueueOk, HeadsOk, HistoryOk, RepliesOk, PermitsOk, AllStopped, HeadIs, S.Enabled, FirstFree;
    var u := a.u;
    assert Owned(c, u);
    forall v: nat | v < |c.threads| && v != u && Busy(c.threads[v]) ensures c.threads[v].slot != c.threads[u].slot {
      if c.threads[v].slot == c.threads[u].slot { SlotIsExclusive(c, u, v); }
    }
  }

  /** A flag stays up unless a thread of its slot resets it. */
  lemma FlagStays(c: Client, count: int, a: Action, slot: nat)
    requires Enabled(c, a) && IsFlagged(c, slot)
    requires Resets(a) ==> a.u < |c.threads| && c.threads[a.u].slot != slot
    ensures IsFlagged(Apply(c, count, a), slot)
  {
    hide Apply, Victim, FirstFree, AllStopped, HeadIs, Joinable, S.Enabled;
    ClientPartsEffect(c, count, a);
  }

  lemma OldBusyFlagged(c: Client, count: int, a: Action, u: nat)
    requires Inv(c) && Flagged(c) && Enabled(c, a) && u < |c.threads|
    ensures u < |Apply(c, count, a).threads|
    ensures var t := Apply(c, count, a).threads[u]; Busy(t) ==> IsFlagged(Apply(c, count, a), t.slot)
  {
    hide Inv, Enabled, Apply, Acted, CanAct, Victim, IsFlagged, OldIsPast;
    SeenFrom(c, count, a, u);
    if !OfClient(a) && Actor(c, a) == u { BusyActed(c.threads[u], a); }
    if Resets(a) { ResetterAlone(c, a); }
    if Busy(Apply(c, count, a).threads[u]) { FlagStays(c, count, a, c.threads[u].slot); }
  }

  lemma BusyFlaggedAfter(c: Client, count: int, a: Action)
    requires Inv(c) && Flagged(c) && Enabled(c, a)
    ensures BusyFlagged(Apply(c, count, a))
  {
    hide Inv, Enabled, Apply, Busy, IsFlagged;
    var c' := Apply(c, count, a);
    forall u: nat | u < |c'.threads| && Busy(c'.threads[u]) ensures IsFlagged(c', c'.threads[u].slot) {
      if u < |c.threads| {
        OldBusyFlagged(c, count, a, u);
      } else {
        NewThreadHere(c, count, a, u);
        FlagStays(c, count, a, c.pc.slot);
      }
    }
  }

  lemma NewThreadHere(c: Client, count: int, a: Action, u: nat)
    requires Enabled(c, a) && |c.threads| <= u < |Apply(c, count, a).threads|
    ensures (a.WorkCommand? || a.OtherCommand?) && c.pc.Ready?
    ensures Apply(c, count, a).threads[u].slot == c.pc.slot && Apply(c, count, a).threads[u].phase == Pending
  {
    hide Apply, Victim, S.Initial, S.JobOk;
    SeenNew(c, count, a, u);
  }

  lemma HeldFlaggedAfter(c: Client, count: int, a: Action)
    requires Inv(c) && Flagged(c) && Enabled(c, a)
    ensures var c' := Apply(c, count, a); HoldsSlot(c'.pc) ==> IsFlagged(c', c'.pc.slot)
  {
    hide Inv, Apply, Victim, BusyFlagged, OldIsPast, Joinable, AllStopped, HeadIs, S.Enabled;
    ClientPartsEffect(c, count, a);
    if Resets(a) { ResetterAlone(c, a); }
  }

  /** What the client finds in the slot that it takes: if flags told the truth, nobody
      busy. */
  lemma TakenSlot(c: Client, count: int)
    requires Inv(c) && Flagged(c) && Enabled(c, Acquire)
    ensures OldIsPast(Apply(c, count, Acquire)) <==> !InWindow(c)
  {
    hide ThreadsOk, QueueOk, HeadsOk, HistoryOk, RepliesOk, PermitsOk;
    var s := FirstFree(c.flags);
    assert c.flags[s] == 0;
  }

  lemma OldStaysPast(c: Client, count: int, a: Action)
    requires Inv(c) && Flagged(c) && Enabled(c, a) && a != Acquire
    ensures OldIsPast(Apply(c, count, a))
  {
    hide Inv, Apply, Acted, CanAct, BusyFlagged, IsFlagged, AllStopped, HeadIs, Joinable, S.Enabled;
    var c' := Apply(c, count, a);
    ClientPartsEffect(c, count, a);
    if (c'.pc.Acquired? || c'.pc.Joining?) && Occupant(c, c'.pc.slot).Some? {
      var v := Occupant(c, c'.pc.slot).value;
      SeenFrom(c, count, a, v);
      if !OfClient(a) && Actor(c, a) == v { BusyActed(c.threads[v], a); }
    }
    if (c'.pc.Acquired? || c'.pc.Joining?) && Occupant(c', c'.pc.slot).Some? { PoolIsOld(c, c'.pc.slot); }
  }

  /** From a state in which every slot in use is flagged, an action leads to another
      such state if and only if it does not take a slot in the window. */
  lemma FlaggedIff(c: Client, count: int, a: Action)
    requires Inv(c) && Flagged(c) && Enabled(c, a)
    ensures Flagged(Apply(c, count, a)) <==> !(a == Acquire && InWindow(c))
  {
    hide Inv, Enabled, Apply, BusyFlagged, OldIsPast, IsFlagged, InWindow;
    BusyFlaggedAfter(c, count, a);
    HeldFlaggedAfter(c, count, a);
    if a == Acquire { TakenSlot(c, count); } else { OldStaysPast(c, count, a); }
  }

  // ------------------------------------------------------------ inside the window

  /** The client has taken a slot whose flag is down, or will be: the old occupant has
      its second reset before it. */
  predicate Racing(c: Client)
  {
    && (c.pc.Acquired? || c.pc.Joining? || c.pc.Ready?) && c.pc.slot < |c.flags|
    && (c.flags[c.pc.slot] == 0
        || (Occupant(c, c.pc.slot).Some? && c.threads[Occupant(c, c.pc.slot).value].phase == Wrapping))
  }

  predicate Commands(a: Action)
  {
    a.WorkCommand? || a.OtherCommand?
  }

  lemma RaceBegins(c: Client, count: int)
    requires Enabled(c, Acquire) && InWindow(c)
    ensures Racing(Apply(c, count, Acquire)) && Apply(c, count, Acquire).pc.slot == FirstFree(c.flags)
  {
  }

  lemma WrapperNext(t: Thread, a: Action)
    requires !OfClient(a) && CanAct(t, a) && t.phase == Wrapping
    ensures a.ResetAgain? || Acted(t, a).phase == Wrapping
  {
    hide S.Enabled, S.Next, S.JobOk, AllStopped;
  }

  lemma FlagStaysDown(c: Client, count: int, a: Action, slot: nat)
    requires Enabled(c, a) && slot < |c.flags| && c.flags[slot] == 0 && a != Acquire
    ensures slot < |Apply(c, count, a).flags| && Apply(c, count, a).flags[slot] == 0
  {
    hide Apply, Victim, FirstFree, AllStopped, HeadIs, Joinable, S.Enabled;
    ClientPartsEffect(c, count, a);
  }

  /** The client goes on to Ready, and the flag is down at the latest when it gets there. */
  lemma RaceGoesOn(c: Client, count: int, a: Action)
    requires Inv(c) && Racing(c) && Enabled(c, a) && !Commands(a)
    ensures Racing(Apply(c, count, a)) && Apply(c, count, a).pc.slot == c.pc.slot
  {
    hide Inv, Apply, Acted, CanAct, AllStopped, HeadIs, Joinable, S.Enabled, FirstFree;
    var c', slot := Apply(c, count, a), c.pc.slot;
    ClientPartsEffect(c, count, a);
    if c.flags[slot] == 0 {
      FlagStaysDown(c, count, a, slot);
    } else {
      var v := Occupant(c, slot).value;
      SeenFrom(c, count, a, v);
      OccupantsSlot(c, slot);
      if !OfClient(a) && Actor(c, a) == v { WrapperNext(c.threads[v], a); }
    }
  }

  lemma OccupantsSlot(c: Client, slot: nat)
    requires Inv(c) && Occupant(c, slot).Some?
    ensures c.threads[Occupant(c, slot).value].slot == slot
  {
    hide ThreadsOk, QueueOk, HeadsOk, HistoryOk, RepliesOk, PermitsOk;
  }

  lemma RaceIsLost(c: Client)
    requires Inv(c) && Racing(c) && c.pc.Ready?
    ensures c.pc.slot < |c.flags| && c.flags[c.pc.slot] == 0
  {
    hide ThreadsOk, QueueOk, HeadsOk, HistoryOk, RepliesOk, PermitsOk;
  }

  lemma {:induction false} RaceGoesOnForever(sys: System, events: seq<Event>, i: nat)
    requires SysInv(sys) && IsRun(sys, events) && i < |sys.clients| && Racing(sys.clients[i])
    requires forall e :: e in events && e.Act? && e.c == i ==> !Commands(e.a)
    ensures var sys' := After(sys, events);
            && SysInv(sys') && i < |sys'.clients| && Racing(sys'.clients[i])
            && sys'.clients[i].pc.slot == sys.clients[i].pc.slot
    decreases |events|
  {
    hide Inv, Racing, LiveWorks, Enabled, Apply;
    assert Inv(sys.clients[i]);
    if events != [] {
      var e := events[0];
      HappenInv(sys, e);
      RacingHolds(sys.clients[i]);
      if e.Act? && e.c == i { RaceGoesOn(sys.clients[i], sys.count, e.a); }
      RacingHolds(Happen(sys, e).clients[i]);
      RaceGoesOnForever(Happen(sys, e), events[1..], i);
    } else {
      RacingHolds(sys.clients[i]);
    }
  }

  lemma RacingHolds(c: Client)
    requires Racing(c)
    ensures HoldsSlot(c.pc) && c.pc.slot < |c.flags|
  {
  }

  lemma UnflaggedStart(c: Client, count: int, a: Action)
    requires Enabled(c, a) && Commands(a) && c.pc.slot < |c.flags| && c.flags[c.pc.slot] == 0
    ensures var c', u := Apply(c, count, a), |c.threads|;
            u < |c'.threads| && Busy(c'.threads[u]) && c'.threads[u].slot == c.pc.slot && !IsFlagged(c', c.pc.slot)
  {
    hide S.Initial, S.JobOk;
  }

  /** The client takes a slot in the window; whatever all threads do until its next
      command starts, that command is busy in a slot that is flagged free. */
  lemma WindowStartsUnflagged(sys: System, events: seq<Event>, i: nat, a: Action)
    requires SysInv(sys) && i < |sys.clients| && Enabled(sys.clients[i], Acquire) && InWindow(sys.clients[i])
    requires IsRun(Happen(sys, Act(i, Acquire)), events)
    requires forall e :: e in events && e.Act? && e.c == i ==> !Commands(e.a)
    requires var sys' := After(Happen(sys, Act(i, Acquire)), events);
             i < |sys'.clients| && Enabled(sys'.clients[i], a) && Commands(a)
    ensures var sys' := After(Happen(sys, Act(i, Acquire)), events);
            var c, u, slot := Apply(sys'.clients[i], sys'.count, a), |sys'.clients[i].threads|, FirstFree(sys.clients[i].flags);
            u < |c.threads| && Busy(c.threads[u]) && c.threads[u].slot == slot && !IsFlagged(c, slot)
  {
    hide Inv, LiveWorks, Racing, InWindow, Enabled, Apply, Busy, IsFlagged, IsRun, After;
    var e := Act(i, Acquire);
    HappenInv(sys, e);
    RaceBegins(sys.clients[i], sys.count);
    RaceGoesOnForever(Happen(sys, e), events, i);
    var d := After(Happen(sys, e), events).clients[i];
    CommandIsReady(d, a);
    RaceIsLost(d);
    UnflaggedStart(d, After(Happen(sys, e), events).count, a);
  }

  lemma CommandIsReady(c: Client, a: Action)
    requires Enabled(c, a) && Commands(a)
    ensures c.pc.Ready?
  {
  }
}
