/** What a request to end does to a WORK: until it sees its turn it can always be carried
    out, and then the work never replies. */
module WorkAborts {
  import opened WorkProtocol
  import opened WorkEffects
  import opened WorkInvariant
  import opened WorkSteps
  import opened Server
  import opened WorkTheorems
  import opened WorkReplies
  import opened WorkEnding
  import opened WorkRuns
  import S = Search

  /** Before its turn a WORK has not yet been created, has not yet enabled cancellation,
      waits for a permit, searches, or waits for its own id at the head. */
  predicate BeforeTurn(p: Phase)
  {
    p == Pending || p == Starting || p == Waiting || p == Searching || p == AwaitingTurn
  }

  // ------------------------------------------------------------ cancelled for good

  /** The work was cancelled; `kept` says that it had given its permit back. */
  ghost predicate Ended(c: Client, u: nat, kept: bool)
  {
    u < |c.threads| && c.threads[u].kind == Work && c.threads[u].cancelled && (kept ==> !c.threads[u].leaked)
  }

  lemma EndedActed(t: Thread, a: Action)
    requires !OfClient(a) && CanAct(t, a) && ThreadOk(t) && t.cancelled
    ensures Acted(t, a).cancelled && Acted(t, a).leaked == t.leaked && Acted(t, a).kind == t.kind
  {
    hide S.Enabled, S.Next, S.JobOk, S.Inv, AllStopped;
  }

  lemma EndedStep(c: Client, count: int, a: Action, u: nat, kept: bool)
    requires Inv(c) && Enabled(c, a) && Ended(c, u, kept)
    ensures Ended(Apply(c, count, a), u, kept)
  {
    hide Inv, ThreadOk, Enabled, Apply, Acted, CanAct, Victim;
    SeenFrom(c, count, a, u);
    ThreadIsOk(c, u);
    if !OfClient(a) && Actor(c, a) == u { EndedActed(c.threads[u], a); }
  }

  ghost predicate EndedIn(sys: System, i: nat, u: nat, kept: bool)
  {
    i < |sys.clients| && Ended(sys.clients[i], u, kept)
  }

  lemma {:induction false} EndedForever(sys: System, events: seq<Event>, i: nat, u: nat, kept: bool)
    requires SysInv(sys) && IsRun(sys, events) && EndedIn(sys, i, u, kept)
    ensures EndedIn(After(sys, events), i, u, kept)
    decreases |events|
  {
    hide Inv, Ended, LiveWorks, Enabled, Apply;
    if events != [] {
      var e := events[0];
      HappenInv(sys, e);
      assert Inv(sys.clients[i]);
      if e.Act? && e.c == i { EndedStep(sys.clients[i], sys.count, e.a, u, kept); }
      EndedForever(Happen(sys, e), events[1..], i, u, kept);
    }
  }

  /** A cancelled work is not among those who replied. */
  lemma EndedIsSilent(sys: System, i: nat, u: nat, kept: bool)
    requires Reachable(sys) && EndedIn(sys, i, u, kept)
    ensures u !in Repliers(sys.clients[i].replies)
  {
    hide Reachable, Inv, S.Inv;
    ReachableSettled(sys, i);
    var c := sys.clients[i];
    assert Settled(c.threads[u]);
    ThreadIsOk(c, u);
    if u in Repliers(c.replies) { ReplierSent(c, u); }
  }

  // ------------------------------------------------------------ the run to the cancellation

  /** What a work that was asked to end does next on its own. */
  function NextOf(p: Phase, u: nat): (a: Action)
  {
    match p
    case Pending => Spawn
    case Starting => Start(u)
    case _ => Cancel(u)
  }

  lemma NextCan(c: Client, u: nat)
    requires Inv(c) && u < |c.threads| && c.threads[u].kind == Work && c.threads[u].request && BeforeTurn(c.threads[u].phase)
    ensures var a := NextOf(c.threads[u].phase, u);
            Enabled(c, a) && !OfClient(a) && Actor(c, a) == u
  {
    hide ThreadsOk, QueueOk, HeadsOk, HistoryOk, RepliesOk, PermitsOk;
    assert Owned(c, u);
    ThreadIsOk(c, u);
  }

  lemma NextActed(t: Thread, u: nat)
    requires t.kind == Work && t.request && BeforeTurn(t.phase) && CanAct(t, NextOf(t.phase, u)) && ThreadOk(t)
    ensures !OfClient(NextOf(t.phase, u))
    ensures var t' := Acted(t, NextOf(t.phase, u));
            && t'.kind == Work && t'.request
            && (if t.phase == Pending || t.phase == Starting then BeforeTurn(t'.phase) && PhaseRank(t'.phase) < PhaseRank(t.phase)
                else t'.cancelled && (t.phase == AwaitingTurn ==> !t'.leaked))
  {
    hide S.Inv, S.Enabled, AllStopped;
  }

  /** One step of the server that brings the work nearer to its end. */
  lemma NextHappens(sys: System, i: nat, u: nat) returns (e: Event)
    requires SysInv(sys) && i < |sys.clients| && u < |sys.clients[i].threads|
    requires var t := sys.clients[i].threads[u]; t.kind == Work && t.request && BeforeTurn(t.phase)
    ensures GoesOn(e) && CanHappen(sys, e) && SysInv(Happen(sys, e))
    ensures i < |Happen(sys, e).clients| && u < |Happen(sys, e).clients[i].threads|
    ensures var t, t' := sys.clients[i].threads[u], Happen(sys, e).clients[i].threads[u];
            if t.phase == Pending || t.phase == Starting then
              t'.kind == Work && t'.request && BeforeTurn(t'.phase) && PhaseRank(t'.phase) < PhaseRank(t.phase)
            else
              e == Act(i, Cancel(u)) && EndedIn(Happen(sys, e), i, u, t.phase == AwaitingTurn)
  {
    hide Inv, LiveWorks, Enabled, Apply, Acted, CanAct, Victim, BeforeTurn;
    var c := sys.clients[i];
    assert Inv(c);
    var a := NextOf(c.threads[u].phase, u);
    e := Act(i, a);
    NextCan(c, u);
    HappenInv(sys, e);
    SeenFrom(c, sys.count, a, u);
    ThreadIsOk(c, u);
    NextActed(c.threads[u], u);
  }

  lemma {:induction false} RunToEnd(sys: System, i: nat, u: nat) returns (events: seq<Event>)
    requires SysInv(sys) && i < |sys.clients| && u < |sys.clients[i].threads|
    requires var t := sys.clients[i].threads[u]; t.kind == Work && t.request && BeforeTurn(t.phase)
    ensures AllGoOn(events) && IsRun(sys, events)
    ensures EndedIn(After(sys, events), i, u, sys.clients[i].threads[u].phase == AwaitingTurn)
    decreases PhaseRank(sys.clients[i].threads[u].phase)
  {
    hide SysInv, Happen, CanHappen, BeforeTurn, EndedIn, GoesOn;
    var e := NextHappens(sys, i, u);
    var p := sys.clients[i].threads[u].phase;
    var rest: seq<Event> := [];
    if p == Pending || p == Starting {
      rest := RunToEnd(Happen(sys, e), i, u);
      EndedAnyway(After(Happen(sys, e), rest), i, u, Happen(sys, e).clients[i].threads[u].phase == AwaitingTurn);
    }
    events := [e] + rest;
    assert events[1..] == rest;
  }

  lemma EndedAnyway(sys: System, i: nat, u: nat, kept: bool)
    requires EndedIn(sys, i, u, kept)
    ensures EndedIn(sys, i, u, false)
  {
  }

  /** The work is cancelled and not among those who replied, nor has it kept a permit
      that it had given back. */
  ghost predicate Silenced(sys: System, i: nat, u: nat, kept: bool)
  {
    && i < |sys.clients| && u < |sys.clients[i].threads|
    && sys.clients[i].threads[u].cancelled
    && u !in Repliers(sys.clients[i].replies)
    && (kept ==> u !in LeakedUids(sys.clients[i]))
  }

  lemma SilencedForever(sys: System, events: seq<Event>, i: nat, u: nat, kept: bool)
    requires Reachable(sys) && IsRun(sys, events) && EndedIn(sys, i, u, kept)
    ensures Silenced(After(sys, events), i, u, kept)
  {
    hide Reachable, SysInv, IsRun, After, Repliers;
    ReachableInv(sys);
    EndedForever(sys, events, i, u, kept);
    StillReachable(sys, events);
    EndedIsSilent(After(sys, events), i, u, kept);
  }

  lemma StillReachable(sys: System, events: seq<Event>)
    requires Reachable(sys) && IsRun(sys, events)
    ensures Reachable(After(sys, events))
  {
    hide IsRun, After;
    var e :| IsRun(EMPTY, e) && After(EMPTY, e) == sys;
    RunConcat(EMPTY, e, events);
  }

  /** From every reachable state, a WORK that was asked to end and has not seen its turn
      can still be ended by the server alone, whatever it is doing: it is cancelled, and
      neither then nor in any later state has it replied. If it waited for its turn, past
      its sem_post, no permit is lost with it. */
  lemma RequestCanEnd(sys: System, i: nat, u: nat) returns (events: seq<Event>)
    requires Reachable(sys) && i < |sys.clients| && u < |sys.clients[i].threads|
    requires sys.clients[i].threads[u].kind == Work && sys.clients[i].threads[u].request
    requires var p := sys.clients[i].threads[u].phase;
             p == Pending || p == Starting || p == Waiting || p == Searching || p == AwaitingTurn
    ensures AllGoOn(events) && IsRun(sys, events)
    ensures var kept := sys.clients[i].threads[u].phase == AwaitingTurn;
            forall later :: IsRun(After(sys, events), later) ==> Silenced(After(After(sys, events), later), i, u, kept)
  {
    hide Reachable, SysInv, IsRun, After, AllGoOn, EndedIn, Silenced;
    ReachableInv(sys);
    events := RunToEnd(sys, i, u);
    StillReachable(sys, events);
    var sys', kept := After(sys, events), sys.clients[i].threads[u].phase == AwaitingTurn;
    forall later | IsRun(sys', later) ensures Silenced(After(sys', later), i, u, kept) {
      SilencedForever(sys', later, i, u, kept);
    }
  }

  /** A request takes effect in exactly three phases. */
  lemma CancelIff(c: Client, u: nat)
    ensures Enabled(c, Cancel(u)) <==>
              && u < |c.threads| && c.threads[u].request
              && (c.threads[u].phase == Waiting || c.threads[u].phase == Searching || c.threads[u].phase == AwaitingTurn)
  {
  }

  /** The other handlers enable cancellation first thing: asked to end, such a command can
      end wherever it is in its handler, and leaves its flag raised. */
  lemma OthersDieIff(c: Client, count: int, u: nat)
    ensures Enabled(c, Die(u)) <==>
              && u < |c.threads| && c.threads[u].request
              && (c.threads[u].phase == Handling || c.threads[u].phase == Aborting)
    ensures Enabled(c, Die(u)) ==>
              var c' := Apply(c, count, Die(u)); In(c', u, Dead) && c'.flags == c.flags && c'.queue == c.queue
  {
  }

  // ------------------------------------------------------------ too late

  /** The work has seen its turn: it is about to reply, or it has replied. */
  ghost predicate TurnSeen(c: Client, u: nat)
  {
    && u < |c.threads| && c.threads[u].kind == Work && !c.threads[u].cancelled
    && (c.threads[u].phase == Sending || c.threads[u].sent)
  }

  lemma TurnSeenActed(t: Thread, a: Action)
    requires !OfClient(a) && CanAct(t, a) && ThreadOk(t) && t.kind == Work && !t.cancelled && (t.phase == Sending || t.sent)
    ensures var t' := Acted(t, a); t'.kind == Work && !t'.cancelled && (t'.phase == Sending || t'.sent)
  {
    hide S.Enabled, S.Next, S.JobOk, S.Inv, AllStopped;
  }

  lemma TurnSeenStep(c: Client, count: int, a: Action, u: nat)
    requires Inv(c) && Enabled(c, a) && TurnSeen(c, u)
    ensures TurnSeen(Apply(c, count, a), u)
  {
    hide Inv, ThreadOk, Enabled, Apply, Acted, CanAct, Victim;
    SeenFrom(c, count, a, u);
    ThreadIsOk(c, u);
    if !OfClient(a) && Actor(c, a) == u { TurnSeenActed(c.threads[u], a); }
  }

  /** A work that has seen its turn replies, whoever asks it to end: in every later state
      it has not been cancelled, and it has replied or is still about to. */
  lemma TurnIsFinal(sys: System, events: seq<Event>, i: nat, u: nat)
    requires Reachable(sys) && IsRun(sys, events) && i < |sys.clients|
    requires u < |sys.clients[i].threads| && sys.clients[i].threads[u].phase == Sending
    ensures var sys' := After(sys, events);
            && i < |sys'.clients| && u < |sys'.clients[i].threads| && !sys'.clients[i].threads[u].cancelled
            && (sys'.clients[i].threads[u].phase == Sending || u in Repliers(sys'.clients[i].replies))
  {
    hide Reachable, SysInv, IsRun, After, TurnSeen, AllSettled, SentReplied, Inv, Repliers;
    ReachableInv(sys);
    SendingHasSeen(sys, i, u);
    TurnSeenForever(sys, events, i, u);
    StillReachable(sys, events);
    ReachableSettled(After(sys, events), i);
    HasReplied(After(sys, events).clients[i], u);
  }

  lemma HasReplied(c: Client, u: nat)
    requires TurnSeen(c, u) && SentReplied(c)
    ensures u < |c.threads| && !c.threads[u].cancelled && (c.threads[u].phase == Sending || u in Repliers(c.replies))
  {
    hide Repliers;
  }

  lemma SendingHasSeen(sys: System, i: nat, u: nat)
    requires SysInv(sys) && i < |sys.clients| && In(sys.clients[i], u, Sending)
    ensures TurnSeen(sys.clients[i], u)
  {
    hide Inv, S.Inv, LiveWorks;
    assert Inv(sys.clients[i]);
    ThreadIsOk(sys.clients[i], u);
  }

  lemma {:induction false} TurnSeenForever(sys: System, events: seq<Event>, i: nat, u: nat)
    requires SysInv(sys) && IsRun(sys, events) && i < |sys.clients| && TurnSeen(sys.clients[i], u)
    ensures i < |After(sys, events).clients| && TurnSeen(After(sys, events).clients[i], u)
    decreases |events|
  {
    hide Inv, TurnSeen, LiveWorks, Enabled, Apply;
    if events != [] {
      var e := events[0];
      HappenInv(sys, e);
      assert Inv(sys.clients[i]);
      if e.Act? && e.c == i { TurnSeenStep(sys.clients[i], sys.count, e.a, u); }
      TurnSeenForever(Happen(sys, e), events[1..], i, u);
    }
  }
}
