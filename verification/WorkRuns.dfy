/** Runs of the server that are written out step by step, to show that the states they
    end in can be reached. All of them have one client. */
module WorkRuns {
  import opened Containers
  import opened Slots
  import opened WorkProtocol
  import opened Server
  import S = Search

  // ------------------------------------------------------------ runs put together

  /** An ABRT at work, or the end of the connection. */
  predicate Disturbs(e: Event)
  {
    e.Act? && (e.a.AbortOne? || e.a.Hangup? || e.a.CloseSlot?)
  }

  predicate Undisturbed(events: seq<Event>)
  {
    forall i :: 0 <= i < |events| ==> !Disturbs(events[i])
  }

  /** A run leads from one state to the other; if `calm`, without ABRT or hangup. */
  ghost predicate Leads(sys: System, sys': System, calm: bool)
  {
    exists events :: IsRun(sys, events) && After(sys, events) == sys' && (calm ==> Undisturbed(events))
  }

  lemma {:induction false} RunConcat(sys: System, e: seq<Event>, f: seq<Event>)
    requires IsRun(sys, e) && IsRun(After(sys, e), f)
    ensures IsRun(sys, e + f) && After(sys, e + f) == After(After(sys, e), f)
    decreases |e|
  {
    hide Happen, CanHappen;
    if e == [] {
      assert e + f == f;
    } else {
      RunConcat(Happen(sys, e[0]), e[1..], f);
      assert (e + f)[1..] == e[1..] + f;
    }
  }

  lemma LeadsOn(a: System, b: System, c: System, calm: bool)
    requires Leads(a, b, calm) && Leads(b, c, calm)
    ensures Leads(a, c, calm)
  {
    hide IsRun, After;
    var e :| IsRun(a, e) && After(a, e) == b && (calm ==> Undisturbed(e));
    var f :| IsRun(b, f) && After(b, f) == c && (calm ==> Undisturbed(f));
    RunConcat(a, e, f);
  }

  lemma LeadsReach(sys: System, sys': System, calm: bool)
    requires Reachable(sys) && Leads(sys, sys', calm)
    ensures Reachable(sys')
  {
    hide IsRun, After;
    var e :| IsRun(EMPTY, e) && After(EMPTY, e) == sys;
    var f :| IsRun(sys, f) && After(sys, f) == sys' && (calm ==> Undisturbed(f));
    RunConcat(EMPTY, e, f);
  }

  // ------------------------------------------------------------ one client

  ghost function Alone(c: Client, count: int): (sys: System)
  {
    System([c], count)
  }

  /** One action of the only client. */
  lemma Act1(c: Client, count: int, a: Action, c': Client, count': int, calm: bool)
    requires Enabled(c, a) && c' == Apply(c, count, a) && count' == CountAfter(c, count, a)
    requires calm ==> !Disturbs(Act(0, a))
    ensures Leads(Alone(c, count), Alone(c', count'), calm)
  {
    hide Enabled, Apply, CountAfter;
    var sys, e := Alone(c, count), Act(0, a);
    assert CanHappen(sys, e) && Happen(sys, e) == Alone(c', count');
    SingleRun(sys, e);
    assert Undisturbed([e]) || !calm;
  }

  lemma SingleRun(sys: System, e: Event)
    requires CanHappen(sys, e)
    ensures IsRun(sys, [e]) && After(sys, [e]) == Happen(sys, e)
  {
    hide Happen, CanHappen;
    var sys' := Happen(sys, e);
    assert [e][1..] == [];
    assert IsRun(sys', []) && After(sys', []) == sys';
  }

  /** The action after a run. */
  lemma ThenAct(sys: System, c: Client, count: int, a: Action, c': Client, count': int, calm: bool)
    requires Leads(sys, Alone(c, count), calm)
    requires Enabled(c, a) && c' == Apply(c, count, a) && count' == CountAfter(c, count, a)
    requires calm ==> !Disturbs(Act(0, a))
    ensures Leads(sys, Alone(c', count'), calm)
  {
    hide Leads, Enabled, Apply, CountAfter;
    Act1(c, count, a, c', count', calm);
    LeadsOn(sys, Alone(c, count), Alone(c', count'), calm);
  }

  lemma FirstConnect()
    ensures Leads(EMPTY, Alone(InitialClient(), 0), true) && Reachable(Alone(InitialClient(), 0))
  {
    SingleRun(EMPTY, Connect);
    assert Happen(EMPTY, Connect) == Alone(InitialClient(), 0);
    assert Undisturbed([Connect]);
  }

  /** The flags of the slots from lo up to but excluding hi are up. */
  function Flags(lo: nat, hi: nat): (s: seq<int>)
  {
    seq(SLOTS, i requires 0 <= i < SLOTS => if lo <= i < hi then 1 else 0)
  }

  /** Slots 0 to n - 1 hold threads 0 to n - 1. */
  function Pool(n: nat): (s: seq<Option<nat>>)
  {
    seq(SLOTS, i requires 0 <= i < SLOTS => if i < n then Some(i) else None)
  }

  // ------------------------------------------------------------ taking a slot

  /** Slot s is the next to be taken, and its old occupant, if any, has ended. */
  ghost predicate Next(c: Client, s: nat)
  {
    c.pc == Idle && s < |c.flags| && s < |c.pool| && FirstFree(c.flags) == s && Joinable(c, s)
  }

  ghost function Opened(c: Client, s: nat): (c': Client)
    requires s < |c.flags|
  {
    Request(c, s).(pc := Ready(s), flags := c.flags[s := 1], joined := JoinedWith(c, s))
  }

  lemma OpenSlot(c: Client, count: int, s: nat, calm: bool)
    requires Next(c, s)
    ensures Leads(Alone(c, count), Alone(Opened(c, s), count), calm)
  {
    hide Leads, Enabled, Apply;
    var c1 := c.(pc := Acquired(s), flags := c.flags[s := 1]);
    var c2 := Request(c1, s).(pc := Joining(s));
    Acquires(c, count, s, calm);
    AsksOld(c1, count, s, calm);
    JoinsOld(c2, count, s, calm);
    LeadsOn(Alone(c, count), Alone(c1, count), Alone(c2, count), calm);
    LeadsOn(Alone(c, count), Alone(c2, count), Alone(Opened(c, s), count), calm);
  }

  lemma Acquires(c: Client, count: int, s: nat, calm: bool)
    requires c.pc == Idle && s < |c.flags| && FirstFree(c.flags) == s
    ensures Leads(Alone(c, count), Alone(c.(pc := Acquired(s), flags := c.flags[s := 1]), count), calm)
  {
    hide Leads;
    assert c.threads + [] == c.threads;
    Act1(c, count, Acquire, c.(pc := Acquired(s), flags := c.flags[s := 1]), count, calm);
  }

  lemma AsksOld(c: Client, count: int, s: nat, calm: bool)
    requires c.pc == Acquired(s)
    ensures Leads(Alone(c, count), Alone(Request(c, s).(pc := Joining(s)), count), calm)
  {
    hide Leads;
    assert Asked(c.threads, Occupant(c, s)) + [] == Request(c, s).threads;
    Act1(c, count, CancelOld, Request(c, s).(pc := Joining(s)), count, calm);
  }

  lemma JoinsOld(c: Client, count: int, s: nat, calm: bool)
    requires c.pc == Joining(s) && Joinable(c, s)
    ensures Leads(Alone(c, count), Alone(c.(pc := Ready(s), joined := JoinedWith(c, s)), count), calm)
  {
    hide Leads;
    assert c.threads + [] == c.threads;
    Act1(c, count, JoinOld, c.(pc := Ready(s), joined := JoinedWith(c, s)), count, calm);
  }

  /** A WORK in slot s, admitted, its thread still to be created. */
  ghost function Admitted(c: Client, s: nat, job: S.Job): (c': Client)
    requires S.JobOk(job)
  {
    var u := |c.threads|;
    c.(pc := Spawning(s, u), threads := c.threads + [NewThread(s, Work, job)],
       queue := c.queue + [s], queued := c.queued + [u], admitted := c.admitted + [u])
  }

  lemma Admit(c: Client, count: int, s: nat, job: S.Job, calm: bool)
    requires c.pc == Ready(s) && count < LIMIT && S.JobOk(job)
    ensures Leads(Alone(c, count), Alone(Admitted(c, s, job), count + 1), calm)
  {
    hide Leads, S.Initial;
    Act1(c, count, WorkCommand(job), Admitted(c, s, job), count + 1, calm);
  }

  /** The thread that the client is about to create runs its handler. */
  ghost function Spawned(c: Client, t: Thread, phase: Phase): (c': Client)
    requires c.pc.Spawning? && c.pc.slot < |c.pool| && c.pc.uid < |c.threads|
  {
    c.(pc := Idle, pool := c.pool[c.pc.slot := Some(c.pc.uid)], threads := c.threads[c.pc.uid := t.(phase := phase)])
  }

  lemma StartWork(c: Client, count: int, calm: bool)
    requires c.pc.Spawning? && c.pc.slot < |c.pool| && In(c, c.pc.uid, Pending) && c.threads[c.pc.uid].kind == Work
    ensures Leads(Alone(c, count), Alone(Spawned(c, c.threads[c.pc.uid], Waiting), count), calm)
  {
    hide Leads;
    var u, t := c.pc.uid, c.threads[c.pc.uid];
    var c1 := Spawned(c, t, Starting);
    Act1(c, count, Spawn, c1, count, calm);
    assert c1.threads[u := t.(phase := Waiting)] == c.threads[u := t.(phase := Waiting)];
    ThenAct(Alone(c, count), c1, count, Start(u), Spawned(c, t, Waiting), count, calm);
  }

  /** A new WORK in slot s that waits for a permit. */
  ghost function WithWaiter(c: Client, s: nat, job: S.Job): (c': Client)
    requires s < |c.flags| && s < |c.pool| && S.JobOk(job)
  {
    var u := |c.threads|;
    c.(flags := c.flags[s := 1], pool := c.pool[s := Some(u)], joined := JoinedWith(c, s),
       threads := Request(c, s).threads + [NewThread(s, Work, job).(phase := Waiting)],
       queue := c.queue + [s], queued := c.queued + [u], admitted := c.admitted + [u])
  }

  lemma BringUp(c: Client, count: int, s: nat, job: S.Job, calm: bool)
    requires Next(c, s) && count < LIMIT && S.JobOk(job)
    ensures Leads(Alone(c, count), Alone(WithWaiter(c, s, job), count + 1), calm)
  {
    hide Leads, Enabled, Apply, S.Initial, S.JobOk, Joinable, FirstFree;
    var c1 := Opened(c, s);
    var c2 := Admitted(c1, s, job);
    var c3 := Spawned(c2, c2.threads[|c.threads|], Waiting);
    OpenSlot(c, count, s, calm);
    Admit(c1, count, s, job, calm);
    StartWork(c2, count + 1, calm);
    assert c3.threads == WithWaiter(c, s, job).threads;
    LeadsOn(Alone(c, count), Alone(c1, count), Alone(c2, count + 1), calm);
    LeadsOn(Alone(c, count), Alone(c2, count + 1), Alone(c3, count + 1), calm);
  }

  /** A command other than WORK in slot s, inside its handler. */
  ghost function WithCommand(c: Client, s: nat, kind: Kind): (c': Client)
    requires s < |c.pool|
  {
    c.(pc := Idle, pool := c.pool[s := Some(|c.threads|)],
       threads := c.threads + [NewThread(s, kind, NO_JOB).(phase := PhaseOfKind(kind))])
  }

  lemma StartCommand(c: Client, count: int, s: nat, kind: Kind, calm: bool)
    requires c.pc == Ready(s) && s < |c.pool| && kind != Work
    ensures Leads(Alone(c, count), Alone(WithCommand(c, s, kind), count), calm)
  {
    hide Leads, S.Initial;
    var u, t := |c.threads|, NewThread(s, kind, NO_JOB);
    var c1 := c.(threads := c.threads + [t], pc := Spawning(s, u));
    Act1(c, count, OtherCommand(kind), c1, count, calm);
    assert c1.threads[u := t.(phase := PhaseOfKind(kind))] == WithCommand(c, s, kind).threads;
    ThenAct(Alone(c, count), c1, count, Spawn, WithCommand(c, s, kind), count, calm);
  }

  /** The client after thread u moved on to the phase with its flag down. */
  ghost function Ending(c: Client, u: nat, phase: Phase): (c': Client)
    requires u < |c.threads| && c.threads[u].slot < |c.flags|
  {
    Move(c, u, phase).(flags := c.flags[c.threads[u].slot := 0])
  }

  lemma WrapUp(c: Client, count: int, u: nat, calm: bool)
    requires In(c, u, Wrapping) && c.threads[u].slot < |c.flags|
    ensures Leads(Alone(c, count), Alone(Ending(c, u, Dead), count), calm)
  {
    hide Leads, Enabled, Apply;
    var c1 := Ending(c, u, Exiting);
    ResetsAgain(c, count, u, calm);
    Exits(c1, count, u, calm);
    assert Move(c1, u, Dead).threads == Ending(c, u, Dead).threads;
    LeadsOn(Alone(c, count), Alone(c1, count), Alone(Ending(c, u, Dead), count), calm);
  }

  lemma ResetsAgain(c: Client, count: int, u: nat, calm: bool)
    requires In(c, u, Wrapping) && c.threads[u].slot < |c.flags|
    ensures Leads(Alone(c, count), Alone(Ending(c, u, Exiting), count), calm)
  {
    hide Leads;
    Act1(c, count, ResetAgain(u), Ending(c, u, Exiting), count, calm);
  }

  lemma Exits(c: Client, count: int, u: nat, calm: bool)
    requires In(c, u, Exiting)
    ensures Leads(Alone(c, count), Alone(Move(c, u, Dead), count), calm)
  {
    hide Leads;
    Act1(c, count, Exit(u), Move(c, u, Dead), count, calm);
  }

  /** The handler returns, its flag is reset, and the thread ends. */
  lemma EndCommand(c: Client, count: int, u: nat, calm: bool)
    requires In(c, u, Handling) || In(c, u, Aborting)
    requires c.threads[u].slot < |c.flags|
    ensures Leads(Alone(c, count), Alone(Ending(c, u, Dead), count), calm)
  {
    hide Leads, Enabled, Apply;
    var c1 := Move(c, u, Wrapping);
    Returns(c, count, u, calm);
    WrapUp(c1, count, u, calm);
    assert Ending(c1, u, Dead).threads == Ending(c, u, Dead).threads;
    LeadsOn(Alone(c, count), Alone(c1, count), Alone(Ending(c, u, Dead), count), calm);
  }

  lemma Returns(c: Client, count: int, u: nat, calm: bool)
    requires In(c, u, Handling) || In(c, u, Aborting)
    ensures Leads(Alone(c, count), Alone(Move(c, u, Wrapping), count), calm)
  {
    hide Leads;
    Act1(c, count, Return(u), Move(c, u, Wrapping), count, calm);
  }

  /** A waiting work gets a permit. */
  lemma GetPermit(c: Client, count: int, u: nat, calm: bool)
    requires In(c, u, Waiting) && c.permits > 0
    ensures Leads(Alone(c, count), Alone(Move(c, u, Searching).(permits := c.permits - 1), count), calm)
  {
    hide Leads;
    Act1(c, count, TakePermit(u), Move(c, u, Searching).(permits := c.permits - 1), count, calm);
  }

  /** One step of the batch threads of a searching work. */
  lemma Searches(c: Client, count: int, u: nat, step: S.Step, search: S.State, calm: bool)
    requires In(c, u, Searching) && c.threads[u].kind == Work && S.JobOk(c.threads[u].job)
    requires var t := c.threads[u];
             |t.search.batches| == t.job.threads && S.Enabled(t.search, step) && step != S.Cancel
             && search == S.Next(t.job, t.search, step)
    ensures Leads(Alone(c, count), Alone(Set(c, u, c.threads[u].(search := search)), count), calm)
  {
    hide Leads, S.Next, S.Enabled;
    Act1(c, count, SearchStep(u, step), Set(c, u, c.threads[u].(search := search)), count, calm);
  }

  // ------------------------------------------------------------ leaving the queue

  ghost function Popped(c: Client, u: nat): (c': Client)
    requires u < |c.threads| && c.queue != [] && c.queued != []
  {
    Move(c, u, Resetting).(queue := c.queue[1..], queued := c.queued[1..], popped := c.popped + [u])
  }

  /** A work that cleans up and is at the head leaves the queue. */
  lemma LeaveQueue(c: Client, count: int, u: nat, calm: bool)
    requires In(c, u, CleanupTurn) && HeadIs(c, u) && c.queued != []
    ensures Leads(Alone(c, count), Alone(Popped(c, u), count), calm)
  {
    hide Leads, Enabled, Apply;
    var c1 := Move(c, u, Popping);
    SeesCleanupTurn(c, count, u, calm);
    Pops(c1, count, u, calm);
    assert Popped(c1, u).threads == Popped(c, u).threads;
    LeadsOn(Alone(c, count), Alone(c1, count), Alone(Popped(c, u), count), calm);
  }

  lemma SeesCleanupTurn(c: Client, count: int, u: nat, calm: bool)
    requires In(c, u, CleanupTurn) && HeadIs(c, u)
    ensures Leads(Alone(c, count), Alone(Move(c, u, Popping), count), calm)
  {
    hide Leads;
    Act1(c, count, SeeCleanupTurn(u), Move(c, u, Popping), count, calm);
  }

  lemma Pops(c: Client, count: int, u: nat, calm: bool)
    requires In(c, u, Popping) && c.queue != [] && c.queued != []
    ensures Leads(Alone(c, count), Alone(Popped(c, u), count), calm)
  {
    hide Leads;
    Act1(c, count, Pop(u), Popped(c, u), count, calm);
  }

  /** The flag reset of the cleanup, after which a cancelled work ends. */
  lemma ResetOnce(c: Client, count: int, u: nat, calm: bool)
    requires In(c, u, Resetting) && c.threads[u].slot < |c.flags|
    ensures var phase := if c.threads[u].cancelled then Dead else Wrapping;
            Leads(Alone(c, count), Alone(Ending(c, u, phase), count), calm)
  {
    hide Leads;
    var phase := if c.threads[u].cancelled then Dead else Wrapping;
    Act1(c, count, ResetFlag(u), Ending(c, u, phase), count, calm);
  }

  // ------------------------------------------------------------ an ABRT that misses

  /** An ABRT at work in slot 0. */
  ghost function OneAbort(): (c: Client)
  {
    WithCommand(Opened(InitialClient(), 0), 0, Abort)
  }

  lemma OneAbortReached()
    ensures Reachable(Alone(OneAbort(), 0))
  {
    hide Leads, Reachable, NewThread, Enabled, Apply;
    var c0, c1 := InitialClient(), Opened(InitialClient(), 0);
    FirstConnect();
    FirstFreeIs(c0.flags, 0);
    OpenSlot(c0, 0, 0, true);
    LeadsReach(Alone(c0, 0), Alone(c1, 0), true);
    StartCommand(c1, 0, 0, Abort, true);
    LeadsReach(Alone(c1, 0), Alone(OneAbort(), 0), true);
  }

  lemma OneAbortIs()
    ensures var c := OneAbort();
            && c.pc == Idle && c.flags == Flags(0, 1) && c.pool == Pool(1) && |c.threads| == 1 && c.joined == {}
            && In(c, 0, Aborting) && c.threads[0].slot == 0 && c.queue == [] && c.queued == [] && c.permits == 3
  {
    hide S.Initial;
    assert OneAbort().flags == Flags(0, 1) && OneAbort().pool == Pool(1);
  }

  /** An ABRT finds a WORK in the queue whose thread is not yet created, in a slot that
      no command used before: it calls pthread_cancel for a null id. */
  lemma AbortUsesNull(job: S.Job) returns (c: Client)
    requires S.JobOk(job)
    ensures Reachable(Alone(c, 1)) && Enabled(c, AbortOne(0, 0)) && c.queue == [1] && 1 < |c.pool| && c.pool[1] == None
  {
    hide Leads, Reachable, OneAbort, Enabled, Apply;
    OneAbortReached();
    OneAbortIs();
    var c0 := OneAbort();
    c := NextPending(c0, job);
    FirstFreeIs(c0.flags, 1);
    LeadsReach(Alone(c0, 0), Alone(c, 1), true);
    AbortCan(c);
  }

  lemma AbortCan(c: Client)
    requires In(c, 0, Aborting) && c.queue != []
    ensures Enabled(c, AbortOne(0, 0))
  {
  }

  /** From a client with only slot 0 in use, a WORK in slot 1 is admitted, but its thread
      not yet created. */
  lemma NextPending(c: Client, job: S.Job) returns (d: Client)
    requires c.pc == Idle && c.flags == Flags(0, 1) && c.queue == [] && c.queued == [] && Joinable(c, 1) && S.JobOk(job)
    ensures Leads(Alone(c, 0), Alone(d, 1), true)
    ensures d == Admitted(Opened(c, 1), 1, job)
  {
    hide Leads, Enabled, Apply, S.Initial, S.JobOk;
    FirstFreeIs(c.flags, 1);
    OpenSlot(c, 0, 1, true);
    Admit(Opened(c, 1), 0, 1, job, true);
    d := Admitted(Opened(c, 1), 1, job);
    LeadsOn(Alone(c, 0), Alone(Opened(c, 1), 0), Alone(d, 1), true);
  }

  /** The same client after a command in slot 1 has come and gone. */
  ghost function UsedSlot(): (c: Client)
  {
    OneAbortIs();
    Ending(WithCommand(Opened(OneAbort(), 1), 1, Other), 1, Dead)
  }

  lemma UsedSlotReached()
    ensures Reachable(Alone(UsedSlot(), 0))
  {
    hide Leads, Reachable, OneAbort, Enabled, Apply, S.Initial;
    OneAbortReached();
    OneAbortIs();
    var c0 := OneAbort();
    var c1 := Opened(c0, 1);
    var c2 := WithCommand(c1, 1, Other);
    FirstFreeIs(c0.flags, 1);
    OpenSlot(c0, 0, 1, true);
    LeadsReach(Alone(c0, 0), Alone(c1, 0), true);
    StartCommand(c1, 0, 1, Other, true);
    LeadsReach(Alone(c1, 0), Alone(c2, 0), true);
    EndCommand(c2, 0, 1, true);
    LeadsReach(Alone(c2, 0), Alone(UsedSlot(), 0), true);
  }

  lemma UsedSlotIs()
    ensures var c := UsedSlot();
            && c.pc == Idle && c.flags == Flags(0, 1) && c.pool == Pool(2) && |c.threads| == 2 && c.joined == {}
            && In(c, 0, Aborting) && In(c, 1, Dead) && c.queue == [] && c.queued == [] && c.permits == 3
  {
    hide OneAbort, S.Initial;
    OneAbortIs();
    assert UsedSlot().flags == Flags(0, 1) && UsedSlot().pool == Pool(2);
  }

  /** In a slot that was used before the id is that of a joined thread. In a state that
      can be reached the whole loop of an ABRT, over a queue that holds one WORK, uses
      this id and no other; if nothing comes of that, the WORK goes on to search. */
  lemma AbortMissesWork(job: S.Job) returns (c: Client, d: Client)
    requires S.JobOk(job)
    ensures Reachable(Alone(c, 1)) && In(c, 0, Aborting) && c.queue == [1] && c.queued == [2] && In(c, 2, Pending)
    ensures 1 < |c.pool| && c.pool[1] == Some(1) && In(c, 1, Dead) && 1 in c.joined
    ensures Enabled(c, AbortOne(0, 0)) && Apply(c, 1, AbortOne(0, 0)) == c
    ensures Leads(Alone(c, 1), Alone(d, 1), true) && In(d, 2, Searching) && !d.threads[2].request && d.queued == [2]
  {
    hide Leads, Reachable, UsedSlot, S.Initial, Enabled, Apply;
    UsedSlotReached();
    UsedSlotIs();
    var c0 := UsedSlot();
    c := NextPending(c0, job);
    LeadsReach(Alone(c0, 0), Alone(c, 1), true);
    AbortCan(c);
    NothingNew(c);
    StartWork(c, 1, true);
    var e := Spawned(c, c.threads[2], Waiting);
    GetPermit(e, 1, 2, true);
    d := Move(e, 2, Searching).(permits := e.permits - 1);
    LeadsOn(Alone(c, 1), Alone(e, 1), Alone(d, 1), true);
  }

  lemma NothingNew(c: Client)
    requires In(c, 0, Aborting) && c.queue == [1] && Occupant(c, 1).Some? && c.threads[Occupant(c, 1).value].request
    ensures Enabled(c, AbortOne(0, 0)) && Apply(c, 1, AbortOne(0, 0)) == c
  {
    assert Apply(c, 1, AbortOne(0, 0)).threads == c.threads;
  }
}
