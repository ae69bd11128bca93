/** Runs in which a client gets no ABRT, does not hang up, and takes no slot between the
    two flag resets of its old occupant: there every work replies. */
module GentleRuns {
  import opened Slots
  import opened WorkProtocol
  import opened WorkEffects
  import opened WorkInvariant
  import opened WorkSteps
  import opened Server
  import opened WorkTheorems
  import opened WorkReplies
  import opened WorkProgress
  import opened WorkEnding
  import opened WorkRuns
  import opened DoubleReset
  import S = Search

  // ------------------------------------------------------------ who asks a work to end

  /** While every slot in use is flagged, only an ABRT or the end of the connection asks
      a thread to end that is not past its last reset. */
  lemma OnlyAbortAsks(c: Client, count: int, a: Action, u: nat)
    requires Inv(c) && Flagged(c) && Enabled(c, a) && u < |c.threads| && !PastReset(c.threads[u])
    requires u < |Apply(c, count, a).threads| && Apply(c, count, a).threads[u].request && !c.threads[u].request
    ensures a.AbortOne? || a.CloseSlot?
  {
    hide Inv, Apply, Acted, CanAct, BusyFlagged, IsFlagged, AllStopped, HeadIs, Joinable, S.Enabled, FirstFree;
    SeenFrom(c, count, a, u);
    if !OfClient(a) && Actor(c, a) == u { ActedAsksNobody(c.threads[u], a); }
  }

  lemma ActedAsksNobody(t: Thread, a: Action)
    requires !OfClient(a) && CanAct(t, a)
    ensures Acted(t, a).request == t.request
    ensures Acted(t, a).cancelled ==> t.cancelled || (t.request && !PastReset(t))
    ensures Acted(t, a).kind == t.kind && (PastReset(t) ==> PastReset(Acted(t, a)))
  {
    hide S.Enabled, S.Next, S.JobOk, AllStopped;
  }

  /** No work was cancelled, and none that is not past its last reset was asked to end. */
  ghost predicate Unharmed(c: Client)
  {
    forall u: nat :: u < |c.threads| ==> !c.threads[u].cancelled && (PastReset(c.threads[u]) || !c.threads[u].request)
  }

  /** No ABRT, no end of the connection, and no slot taken in the window. */
  predicate Gentle(c: Client, a: Action)
  {
    !a.AbortOne? && !a.CloseSlot? && !(a == Acquire && InWindow(c))
  }

  lemma UnharmedAfter(c: Client, count: int, a: Action)
    requires Inv(c) && Flagged(c) && Unharmed(c) && Enabled(c, a) && Gentle(c, a)
    ensures Unharmed(Apply(c, count, a))
  {
    hide Inv, Flagged, Enabled, Apply, Acted, CanAct, Victim, InWindow;
    var c' := Apply(c, count, a);
    forall u: nat | u < |c'.threads|
      ensures !c'.threads[u].cancelled && (PastReset(c'.threads[u]) || !c'.threads[u].request)
    {
      if u < |c.threads| {
        SeenFrom(c, count, a, u);
        if !OfClient(a) && Actor(c, a) == u { ActedAsksNobody(c.threads[u], a); }
        if c'.threads[u].request && !c.threads[u].request && !PastReset(c.threads[u]) { OnlyAbortAsks(c, count, a, u); }
      } else {
        NewThreadIsFree(c, count, a, u);
      }
    }
  }

  lemma NewThreadIsFree(c: Client, count: int, a: Action, u: nat)
    requires Enabled(c, a) && |c.threads| <= u < |Apply(c, count, a).threads|
    ensures !Apply(c, count, a).threads[u].cancelled && !Apply(c, count, a).threads[u].request
  {
    hide Apply, Victim, S.Initial, S.JobOk;
    SeenNew(c, count, a, u);
  }

  // ------------------------------------------------------------ all runs

  /** A run in which client i takes no slot in the window, gets no ABRT and stays. */
  ghost predicate GentleRun(sys: System, events: seq<Event>, i: nat)
    requires IsRun(sys, events)
    decreases |events|
  {
    events == []
    || ((events[0].Act? && events[0].c == i ==> Gentle(sys.clients[i], events[0].a))
        && GentleRun(Happen(sys, events[0]), events[1..], i))
  }

  /** Client i, if it is there, is flagged and unharmed. */
  ghost predicate Well(sys: System, i: nat)
  {
    i < |sys.clients| ==> Flagged(sys.clients[i]) && Unharmed(sys.clients[i])
  }

  lemma {:induction false} GentleRunIsWell(sys: System, events: seq<Event>, i: nat)
    requires SysInv(sys) && IsRun(sys, events) && GentleRun(sys, events, i) && Well(sys, i)
    ensures Well(After(sys, events), i)
    decreases |events|
  {
    hide Inv, Flagged, Unharmed, Gentle, LiveWorks, Enabled, Apply;
    if events != [] {
      var e := events[0];
      HappenInv(sys, e);
      if e.Act? && e.c == i { WellAfter(sys.clients[i], sys.count, e.a); }
      if e == Connect { NewClientIsWell(); }
      GentleRunIsWell(Happen(sys, e), events[1..], i);
    }
  }

  lemma WellAfter(c: Client, count: int, a: Action)
    requires Inv(c) && Flagged(c) && Unharmed(c) && Enabled(c, a) && Gentle(c, a)
    ensures Flagged(Apply(c, count, a)) && Unharmed(Apply(c, count, a))
  {
    hide Inv, Flagged, Unharmed, Enabled, Apply, InWindow;
    FlaggedIff(c, count, a);
    UnharmedAfter(c, count, a);
  }

  lemma NewClientIsWell()
    ensures Flagged(InitialClient()) && Unharmed(InitialClient())
  {
  }

  /** Without ABRT, without the end of the connection, and without a slot taken in the
      window, every slot in use is flagged, no work is cancelled, and every work that
      has left the queue has replied. */
  lemma GentleWorksReply(events: seq<Event>, i: nat, u: nat)
    requires IsRun(EMPTY, events) && GentleRun(EMPTY, events, i) && i < |After(EMPTY, events).clients|
    ensures var c := After(EMPTY, events).clients[i];
            && Flagged(c) && Unharmed(c)
            && (u in c.popped ==> u in Repliers(c.replies))
  {
    hide IsRun, After, GentleRun, SysInv, Flagged, Repliers;
    EmptyInv();
    GentleRunIsWell(EMPTY, events, i);
    var sys := After(EMPTY, events);
    assert Reachable(sys);
    if u in sys.clients[i].popped { RepliesIffNotCancelled(sys, i, u); }
  }

  // ------------------------------------------------------------ every work is answered

  lemma NothingLost(c: Client)
    requires Inv(c) && Unharmed(c)
    ensures LeakedUids(c) == {}
  {
    hide Inv, S.Inv;
    forall u: nat | u < |c.threads| ensures !c.threads[u].leaked { ThreadIsOk(c, u); }
  }

  /** In such a run, when nothing goes on any more and no work has searched in vain, every
      work that was ever admitted has replied. */
  lemma GentleRestAnswers(events: seq<Event>, i: nat, u: nat)
    requires IsRun(EMPTY, events) && GentleRun(EMPTY, events, i) && i < |After(EMPTY, events).clients|
    requires AtRest(After(EMPTY, events)) && !SomeExhausted(After(EMPTY, events).clients[i])
    requires u in After(EMPTY, events).clients[i].admitted
    ensures u in Repliers(After(EMPTY, events).clients[i].replies)
  {
    hide IsRun, After, GentleRun, Flagged, Repliers, AtRest, SomeExhausted, Inv;
    var sys := After(EMPTY, events);
    GentleWorksReply(events, i, u);
    assert Reachable(sys);
    ClientInv(sys, i);
    NothingLost(sys.clients[i]);
    EveryWorkAnswered(sys, i, u);
  }

  /** The client has not hung up. */
  predicate Connected(pc: Pc)
  {
    !pc.Closing? && !pc.ClosingJoin? && !pc.Closed?
  }

  lemma ConnectedStays(c: Client, count: int, a: Action)
    requires Enabled(c, a) && GoesOn(Act(0, a)) && Connected(c.pc)
    ensures Gentle(c, a) && Connected(Apply(c, count, a).pc) && Apply(c, count, a).admitted == c.admitted
  {
    hide S.Enabled, AllStopped, HeadIs, Joinable, FirstFree, Victim, ThreadsAfter, FlagsAfter;
  }

  /** What goes on by itself is gentle and admits nobody. */
  lemma {:induction false} GoingOnIsGentle(sys: System, events: seq<Event>, i: nat)
    requires IsRun(sys, events) && AllGoOn(events) && i < |sys.clients| && Connected(sys.clients[i].pc)
    ensures GentleRun(sys, events, i) && i < |After(sys, events).clients|
    ensures After(sys, events).clients[i].admitted == sys.clients[i].admitted
    decreases |events|
  {
    hide Enabled, Apply, Gentle, Connected;
    if events != [] {
      var e := events[0];
      assert GoesOn(e);
      if e.c == i { ConnectedStays(sys.clients[i], sys.count, e.a); }
      assert AllGoOn(events[1..]);
      GoingOnIsGentle(Happen(sys, e), events[1..], i);
    }
  }

  lemma {:induction false} GentleConcat(sys: System, e: seq<Event>, f: seq<Event>, i: nat)
    requires IsRun(sys, e) && IsRun(After(sys, e), f) && GentleRun(sys, e, i) && GentleRun(After(sys, e), f, i)
    ensures IsRun(sys, e + f) && GentleRun(sys, e + f, i)
    decreases |e|
  {
    hide Happen, CanHappen, Gentle;
    RunConcat(sys, e, f);
    if e == [] {
      assert e + f == f;
    } else {
      GentleConcat(Happen(sys, e[0]), e[1..], f, i);
      assert (e + f)[1..] == e[1..] + f && (e + f)[0] == e[0];
    }
  }

  /** So after every such run of a connected client the server, left to itself, gets to
      the point where all its admitted works have replied or one has searched in vain. */
  lemma GentleWorksAreAnswered(events: seq<Event>, i: nat) returns (more: seq<Event>)
    requires IsRun(EMPTY, events) && GentleRun(EMPTY, events, i) && i < |After(EMPTY, events).clients|
    requires Connected(After(EMPTY, events).clients[i].pc)
    ensures AllGoOn(more) && IsRun(EMPTY, events + more) && i < |After(EMPTY, events + more).clients|
    ensures var c, c' := After(EMPTY, events).clients[i], After(EMPTY, events + more).clients[i];
            && c'.admitted == c.admitted
            && (SomeExhausted(c') || forall u: nat :: u in c'.admitted ==> u in Repliers(c'.replies))
  {
    hide IsRun, After, GentleRun, SysInv, Repliers, AtRest, SomeExhausted, Connected, AllGoOn;
    var sys := After(EMPTY, events);
    EmptyInv();
    RunInv(EMPTY, events);
    more := RestIsReached(sys);
    GoingOnIsGentle(sys, more, i);
    RunConcat(EMPTY, events, more);
    GentleConcat(EMPTY, events, more, i);
    var c' := After(EMPTY, events + more).clients[i];
    if !SomeExhausted(c') {
      forall u: nat | u in c'.admitted ensures u in Repliers(c'.replies) {
        GentleRestAnswers(events + more, i, u);
      }
    }
  }
}
