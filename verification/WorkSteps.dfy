/** The proof that every action of the WORK protocol keeps the invariant, one group of
    actions at a time. */
module WorkSteps {
  import opened Slots
  import opened Containers
  import opened WorkProtocol
  import opened WorkInvariant
  import S = Search

  // ------------------------------------------------------------ changing one thread

  /** t may replace thread u: same slot and kind, no change of queue membership, and
      at the head only if it was or is first in the queue. */
  ghost predicate Benign(c: Client, u: nat, t: Thread)
    requires u < |c.threads|
  {
    var o := c.threads[u];
    && ThreadOk(t)
    && t.slot == o.slot && t.kind == o.kind && t.sent == o.sent
    && (t.phase == Pending <==> o.phase == Pending)
    && (o.phase == Dead ==> t.phase == Dead)
    && (Queued(t) <==> Queued(o))
    && (AtHead(t) ==> AtHead(o) || (c.queued != [] && c.queued[0] == u))
    && (o.sent ==> t.search.solution == o.search.solution)
  }

  lemma SetKeepsThreads(c: Client, u: nat, t: Thread)
    requires ThreadsOk(c) && u < |c.threads| && ThreadOk(t)
    ensures ThreadsOk(Set(c, u, t))
  {
    hide ThreadOk;
  }

  lemma SetKeepsOwned(c: Client, u: nat, t: Thread)
    requires OwnedOk(c) && u < |c.threads| && Benign(c, u, t)
    ensures OwnedOk(Set(c, u, t))
  {
    hide ThreadOk, Queued, AtHead;
    var c' := Set(c, u, t);
    forall v: nat | v < |c'.threads| ensures Owned(c', v) {
      assert Owned(c, v);
    }
  }

  lemma SetKeepsQueue(c: Client, u: nat, t: Thread)
    requires QueueOk(c) && HeadsOk(c) && HistoryOk(c) && RepliesOk(c) && u < |c.threads| && Benign(c, u, t)
    ensures var c' := Set(c, u, t); QueueOk(c') && HeadsOk(c') && HistoryOk(c') && RepliesOk(c')
  {
    hide ThreadOk, Queued, AtHead;
  }

  lemma SetKeepsCore(c: Client, u: nat, t: Thread)
    requires Core(c) && u < |c.threads| && Benign(c, u, t)
    ensures Core(Set(c, u, t))
  {
    hide ThreadsOk, OwnedOk, QueueOk, HeadsOk, HistoryOk, RepliesOk, ThreadOk, Queued, AtHead;
    SetKeepsThreads(c, u, t);
    SetKeepsOwned(c, u, t);
    SetKeepsQueue(c, u, t);
  }

  /** Flags and permits do not matter to the core of the invariant. */
  lemma FlagsAndPermits(c: Client, flags: seq<int>, permits: nat)
    requires Core(c) && |flags| == SLOTS
    ensures Core(c.(flags := flags, permits := permits))
  {
    hide ThreadOk, Queued, AtHead;
    var c' := c.(flags := flags, permits := permits);
    forall v: nat | v < |c'.threads| ensures Owned(c', v) {
      assert Owned(c, v);
    }
  }

  /** Nor does a client step that neither holds a cleared slot before nor after, nor the
      record of who was joined. */
  lemma PcOnly(c: Client, pc: Pc, joined: set<nat>)
    requires Core(c) && !c.pc.Spawning?
    requires pc.Acquired? || pc.Joining? || pc.Ready? ==> pc.slot < SLOTS
    requires pc.Ready? ==> Joinable(c, pc.slot)
    requires !pc.Spawning?
    ensures Core(c.(pc := pc, joined := joined))
  {
    hide ThreadOk, Queued, AtHead;
    var c' := c.(pc := pc, joined := joined);
    forall v: nat | v < |c'.threads| ensures Owned(c', v) {
      assert Owned(c, v);
    }
  }

  // ------------------------------------------------------------ permits

  lemma HoldersSame(c: Client, u: nat, t: Thread)
    requires u < |c.threads| && (Holds(t) <==> Holds(c.threads[u]))
    ensures Holders(Set(c, u, t)) == Holders(c)
  {
    hide Holds;
  }

  lemma HoldersGain(c: Client, u: nat, t: Thread)
    requires u < |c.threads| && Holds(t) && !Holds(c.threads[u])
    ensures |Holders(Set(c, u, t))| == |Holders(c)| + 1
  {
    hide Holds;
    assert Holders(Set(c, u, t)) == Holders(c) + {u};
  }

  lemma HoldersLose(c: Client, u: nat, t: Thread)
    requires u < |c.threads| && !Holds(t) && Holds(c.threads[u])
    ensures |Holders(Set(c, u, t))| == |Holders(c)| - 1
  {
    hide Holds;
    assert Holders(Set(c, u, t)) == Holders(c) - {u};
  }

  /** A benign change that touches no permit. */
  lemma SetKeeps(c: Client, u: nat, t: Thread)
    requires Inv(c) && u < |c.threads| && Benign(c, u, t) && (Holds(t) <==> Holds(c.threads[u]))
    ensures Inv(Set(c, u, t))
  {
    hide Core, Benign, Holds, Holders;
    SetKeepsCore(c, u, t);
    HoldersSame(c, u, t);
  }

  // ------------------------------------------------------------ steps of one thread

  lemma RequestKeeps(c: Client, slot: nat)
    requires Inv(c)
    ensures Inv(Request(c, slot))
  {
    hide S.Inv;
    if slot < |c.pool| && c.pool[slot].Some? && c.pool[slot].value < |c.threads| {
      var u := c.pool[slot].value;
      SetKeeps(c, u, c.threads[u].(request := true));
    }
  }

  /** Actions that only move a thread on to its next phase. */
  predicate PlainMove(a: Action)
  {
    a.Return? || a.Die? || a.Start? || a.SeeTurn? || a.JoinBatches? || a.SeeCleanupTurn? || a.Exit?
  }

  /** The phase changes that plain moves make. */
  predicate PlainChange(p: Phase, q: Phase)
  {
    || ((p == Handling || p == Aborting) && (q == Wrapping || q == Dead))
    || (p == Starting && q == Waiting)
    || (p == AwaitingTurn && q == Sending)
    || (p == JoiningBatches && q == CleanupTurn)
    || (p == CleanupTurn && q == Popping)
    || (p == Exiting && q == Dead)
  }

  lemma PlainMoveIs(c: Client, count: int, a: Action)
    requires Enabled(c, a) && PlainMove(a)
    ensures a.u < |c.threads| && Apply(c, count, a) == Move(c, a.u, Acted(c.threads[a.u], a).phase)
  {
    hide S.Enabled, S.Next, AllStopped;
  }

  lemma PlainMoveChanges(c: Client, a: Action)
    requires Enabled(c, a) && PlainMove(a)
    ensures var p := Acted(c.threads[a.u], a).phase;
            PlainChange(c.threads[a.u].phase, p) && (p == Sending || p == Popping ==> HeadIs(c, a.u))
  {
    hide S.Enabled, S.Next, AllStopped, HeadIs;
  }

  lemma PlainMoveBenign(c: Client, u: nat, p: Phase)
    requires u < |c.threads| && ThreadOk(c.threads[u]) && PlainChange(c.threads[u].phase, p)
    requires p == Sending || p == Popping ==> c.queued != [] && c.queued[0] == u
    ensures Benign(c, u, c.threads[u].(phase := p))
    ensures Holds(c.threads[u].(phase := p)) <==> Holds(c.threads[u])
  {
    hide S.Inv;
  }

  lemma PlainMoveKeeps(c: Client, count: int, a: Action)
    requires Inv(c) && Enabled(c, a) && PlainMove(a)
    ensures Inv(Apply(c, count, a))
  {
    hide Core, PermitsOk, Benign, Holds, ThreadOk, Enabled, Apply;
    PlainMoveIs(c, count, a);
    PlainMoveChanges(c, a);
    ThreadIsOk(c, a.u);
    var p := Apply(c, count, a).threads[a.u].phase;
    if p == Sending || p == Popping { HeadIsMine(c, a.u); }
    PlainMoveBenign(c, a.u, p);
    SetKeeps(c, a.u, c.threads[a.u].(phase := p));
  }

  lemma SearchStepKeeps(c: Client, count: int, a: Action)
    requires Inv(c) && Enabled(c, a) && a.SearchStep?
    ensures Inv(Apply(c, count, a))
  {
    hide Inv;
    assert ThreadOk(c.threads[a.u]) by { ThreadIsOk(c, a.u); }
    var t := c.threads[a.u];
    SearchStillOk(t, a.step);
    SetKeeps(c, a.u, t.(search := S.Next(t.job, t.search, a.step)));
  }

  lemma ThreadIsOk(c: Client, u: nat)
    requires Inv(c) && u < |c.threads|
    ensures ThreadOk(c.threads[u])
  {
    hide ThreadOk, OwnedOk, QueueOk, HeadsOk, HistoryOk, RepliesOk, Holders;
  }

  lemma SearchStillOk(t: Thread, step: S.Step)
    requires ThreadOk(t) && SearchEnabled(t, step)
    ensures |t.search.batches| == t.job.threads && S.JobOk(t.job)
    ensures ThreadOk(t.(search := S.Next(t.job, t.search, step)))
    ensures t.search.solution != 0 ==> S.Next(t.job, t.search, step).solution == t.search.solution
  {
    hide S.BatchOk, S.SolutionOk;
    S.NextInv(t.job, t.search, step);
    S.SolutionIsKept(t.job, t.search, step);
  }

  /** The cleanup sets the cancelled flag of the search. */
  lemma CleanupStillOk(t: Thread)
    requires ThreadOk(t) && WorkPhase(t.phase)
    ensures S.Inv(t.job, EnterCleanup(t).search)
  {
    hide S.BatchOk, S.SolutionOk;
    S.NextInv(t.job, t.search, S.Cancel);
  }

  lemma CleanupKeeps(c: Client, count: int, a: Action)
    requires Inv(c) && Enabled(c, a) && (a.BeginCleanup? || a.Cancel?)
    ensures Inv(Apply(c, count, a))
  {
    hide Inv, S.Inv, S.JobOk;
    ThreadIsOk(c, a.u);
    CleanupStillOk(c.threads[a.u]);
    SetKeeps(c, a.u, Apply(c, count, a).threads[a.u]);
  }

  lemma PermitKeeps(c: Client, count: int, a: Action)
    requires Inv(c) && Enabled(c, a) && (a.TakePermit? || a.PostPermit?)
    ensures Inv(Apply(c, count, a))
  {
    hide Core, S.Inv, Holders;
    ThreadIsOk(c, a.u);
    var t := c.threads[a.u].(phase := if a.TakePermit? then Searching else AwaitingTurn);
    SetKeepsCore(c, a.u, t);
    CoreSlots(c);
    FlagsAndPermits(Set(c, a.u, t), c.flags, if a.TakePermit? then c.permits - 1 else c.permits + 1);
    if a.TakePermit? { HoldersGain(c, a.u, t); } else { HoldersLose(c, a.u, t); }
    HoldersFrame(Set(c, a.u, t), Apply(c, count, a));
  }

  lemma CoreSlots(c: Client)
    requires Core(c)
    ensures |c.flags| == SLOTS && |c.pool| == SLOTS
  {
  }

  lemma HoldersFrame(c: Client, c': Client)
    requires c'.threads == c.threads
    ensures Holders(c') == Holders(c)
  {
  }

  lemma ResetKeeps(c: Client, count: int, a: Action)
    requires Inv(c) && Enabled(c, a) && (a.ResetFlag? || a.ResetAgain?)
    ensures Inv(Apply(c, count, a))
  {
    hide Core, S.Inv, Holders, PermitsOk, Enabled, Apply;
    ResetIs(c, count, a);
    ThreadIsOk(c, a.u);
    CoreSlots(c);
    var o := c.threads[a.u];
    var t := o.(phase := if a.ResetAgain? then Exiting else if o.cancelled then Dead else Wrapping);
    SetKeeps(c, a.u, t);
    FlagsKeep(Set(c, a.u, t), c.flags[t.slot := 0]);
  }

  lemma ResetIs(c: Client, count: int, a: Action)
    requires Enabled(c, a) && (a.ResetFlag? || a.ResetAgain?)
    ensures In(c, a.u, if a.ResetFlag? then Resetting else Wrapping)
    ensures var o := c.threads[a.u];
            var p := if a.ResetAgain? then Exiting else if o.cancelled then Dead else Wrapping;
            o.slot < |c.flags| && Apply(c, count, a) == Move(c, a.u, p).(flags := c.flags[o.slot := 0])
  {
  }

  lemma FlagsKeep(c: Client, flags: seq<int>)
    requires Inv(c) && |flags| == SLOTS
    ensures Inv(c.(flags := flags))
  {
    hide Core, Holders;
    FlagsAndPermits(c, flags, c.permits);
    HoldersFrame(c, c.(flags := flags));
  }

  // ------------------------------------------------------------ reply and pop

  /** A sending work is first in the queue. */
  lemma FirstInQueue(c: Client, u: nat)
    requires Core(c) && u < |c.threads| && AtHead(c.threads[u])
    ensures c.queued != [] && c.queued[0] == u && c.queue != []
  {
    hide ThreadsOk, OwnedOk, HistoryOk, RepliesOk;
  }

  lemma SendKeepsQueue(c: Client, u: nat, t: Thread, nonce: nat)
    requires QueueOk(c) && HeadsOk(c) && HistoryOk(c) && u < |c.threads|
    requires c.queued != [] && c.queued[0] == u
    requires Queued(c.threads[u]) && Queued(t) && t.slot == c.threads[u].slot && t.kind == c.threads[u].kind
    ensures var c' := Set(c, u, t).(replies := c.replies + [Reply(u, nonce)]); QueueOk(c') && HeadsOk(c') && HistoryOk(c')
  {
    hide Queued, AtHead;
  }

  lemma SendKeepsReplies(c: Client, u: nat, t: Thread)
    requires QueueOk(c) && HistoryOk(c) && RepliesOk(c) && u < |c.threads|
    requires c.queued != [] && c.queued[0] == u && !c.threads[u].sent && t.sent
    requires t.search == c.threads[u].search
    ensures RepliesOk(Set(c, u, t).(replies := c.replies + [Reply(u, t.search.solution)]))
  {
    hide Queued;
    assert c.queued[0] in c.admitted by {
      assert c.admitted[|c.popped|] == c.queued[0];
    }
  }

  lemma RepliesDoNotMatter(c: Client, replies: seq<Reply>)
    requires OwnedOk(c)
    ensures OwnedOk(c.(replies := replies))
  {
    var c' := c.(replies := replies);
    forall v: nat | v < |c'.threads| ensures Owned(c', v) {
      assert Owned(c, v);
    }
  }

  lemma SendKeeps(c: Client, count: int, a: Action)
    requires Inv(c) && Enabled(c, a) && a.Send?
    ensures Inv(Apply(c, count, a))
  {
    hide S.Inv, SlotsOk, OwnedOk, QueueOk, HeadsOk, HistoryOk, RepliesOk, Holders;
    var u := a.u;
    ThreadIsOk(c, u);
    FirstInQueue(c, u);
    var t := c.threads[u].(phase := Sent, sent := true);
    SetKeepsThreads(c, u, t);
    SendKeepsOwned(c, u, t);
    SendKeepsQueue(c, u, t, t.search.solution);
    SendKeepsReplies(c, u, t);
    SendKeepsSlots(c, count, a);
    HoldersSame(c, u, t);
    HoldersFrame(Set(c, u, t), Apply(c, count, a));
  }

  lemma SendKeepsSlots(c: Client, count: int, a: Action)
    requires SlotsOk(c) && Enabled(c, a) && a.Send?
    ensures SlotsOk(Apply(c, count, a))
  {
  }

  lemma SendKeepsOwned(c: Client, u: nat, t: Thread)
    requires OwnedOk(c) && u < |c.threads| && c.threads[u].phase == Sending && t.phase == Sent && t.slot == c.threads[u].slot
    ensures OwnedOk(Set(c, u, t).(replies := c.replies + [Reply(u, t.search.solution)]))
  {
    var c' := Set(c, u, t);
    forall v: nat | v < |c'.threads| ensures Owned(c', v) {
      assert Owned(c, v);
    }
    RepliesDoNotMatter(c', c.replies + [Reply(u, t.search.solution)]);
  }

  /** What `rm_tid` leaves, given that the caller is first. */
  ghost function Popped(c: Client, u: nat, t: Thread): (c': Client)
    requires u < |c.threads| && c.queue != [] && c.queued != []
  {
    Set(c, u, t).(queue := c.queue[1..], queued := c.queued[1..], popped := c.popped + [u])
  }

  lemma QueuedIncreasing(c: Client)
    requires HistoryOk(c)
    ensures Increasing(c.queued)
  {
    forall i, j | 0 <= i < j < |c.queued| ensures c.queued[i] < c.queued[j] {
      assert c.queued[i] == c.admitted[|c.popped| + i] && c.queued[j] == c.admitted[|c.popped| + j];
    }
  }

  lemma PopKeepsQueue(c: Client, u: nat, t: Thread)
    requires QueueOk(c) && HeadsOk(c) && HistoryOk(c) && u < |c.threads| && c.queue != []
    requires c.queued != [] && c.queued[0] == u && !Queued(t) && t.slot == c.threads[u].slot
    ensures QueueOk(Popped(c, u, t)) && HeadsOk(Popped(c, u, t))
  {
    hide Queued;
    QueuedIncreasing(c);
    var c' := Popped(c, u, t);
    forall k | 0 <= k < |c'.queued|
      ensures c'.queued[k] < |c'.threads| && Queued(c'.threads[c'.queued[k]]) && c'.threads[c'.queued[k]].slot == c'.queue[k]
    {
      assert c'.queued[k] == c.queued[k + 1] && c.queued[0] < c.queued[k + 1];
    }
    forall v: nat | v < |c'.threads| && Queued(c'.threads[v]) ensures v in c'.queued {
      assert v in c.queued && v != c.queued[0];
    }
  }

  lemma PopKeepsHistory(c: Client, u: nat, t: Thread)
    requires HistoryOk(c) && RepliesOk(c) && u < |c.threads| && c.queue != []
    requires c.queued != [] && c.queued[0] == u
    requires t.kind == c.threads[u].kind && t.sent == c.threads[u].sent && t.search == c.threads[u].search
    ensures HistoryOk(Popped(c, u, t)) && RepliesOk(Popped(c, u, t))
  {
    QueuedIncreasing(c);
    assert c.popped + c.queued == (c.popped + [u]) + c.queued[1..];
  }

  lemma PopKeepsOwned(c: Client, u: nat, t: Thread)
    requires OwnedOk(c) && u < |c.threads| && c.queue != [] && c.queued != []
    requires c.threads[u].phase == Popping && t.phase == Resetting && t.slot == c.threads[u].slot
    ensures OwnedOk(Popped(c, u, t))
  {
    var c' := Popped(c, u, t);
    forall v: nat | v < |c'.threads| ensures Owned(c', v) {
      assert Owned(c, v);
    }
  }

  lemma PopKeeps(c: Client, count: int, a: Action)
    requires Inv(c) && Enabled(c, a) && a.Pop?
    ensures Inv(Apply(c, count, a))
  {
    hide S.Inv, OwnedOk, QueueOk, HeadsOk, HistoryOk, RepliesOk, Holders;
    var u := a.u;
    ThreadIsOk(c, u);
    FirstInQueue(c, u);
    var t := c.threads[u].(phase := Resetting);
    assert Apply(c, count, a) == Popped(c, u, t);
    SetKeepsThreads(c, u, t);
    PopKeepsOwned(c, u, t);
    PopKeepsQueue(c, u, t);
    PopKeepsHistory(c, u, t);
    HoldersSame(c, u, t);
    HoldersFrame(Set(c, u, t), Popped(c, u, t));
  }

  // ------------------------------------------------------------ the client thread

  lemma PcKeeps(c: Client, pc: Pc, joined: set<nat>)
    requires Inv(c) && !c.pc.Spawning? && !pc.Spawning?
    requires pc.Acquired? || pc.Joining? || pc.Ready? ==> pc.slot < SLOTS
    requires pc.Ready? ==> Joinable(c, pc.slot)
    ensures Inv(c.(pc := pc, joined := joined))
  {
    hide Core, Holders;
    PcOnly(c, pc, joined);
    HoldersFrame(c, c.(pc := pc, joined := joined));
  }

  /** Steps of the client thread that start no command. */
  predicate ClientMove(a: Action)
  {
    a.Acquire? || a.CancelOld? || a.JoinOld? || a.Hangup? || a.CloseSlot? || a.CloseJoin?
  }

  /** A client step that asks somebody to end is a request followed by a step. */
  lemma AskingStep(c: Client, count: int, a: Action, slot: nat)
    requires Enabled(c, a) && (a.CancelOld? || a.CloseSlot? || a.AbortOne?) && Victim(c, a) == Occupant(c, slot)
    ensures Apply(c, count, a) == Request(c, slot).(pc := PcAfter(c, a), joined := c.joined)
  {
    hide FirstFree, Taken;
    assert Apply(c, count, a).threads == Asked(c.threads, Victim(c, a)) + [];
  }

  /** Any other leaves the threads alone. */
  lemma PlainStep(c: Client, count: int, a: Action)
    requires Enabled(c, a) && ClientMove(a) && Victim(c, a) == None
    ensures Apply(c, count, a) == c.(flags := FlagsAfter(c, a)).(pc := PcAfter(c, a), joined := Apply(c, count, a).joined)
  {
    hide FirstFree, Taken;
    assert Apply(c, count, a).threads == c.threads + [];
  }

  lemma ClientMoveKeeps(c: Client, count: int, a: Action)
    requires Inv(c) && Enabled(c, a) && ClientMove(a)
    ensures Inv(Apply(c, count, a))
  {
    hide Core, PermitsOk, Apply;
    SlotsAreOk(c);
    if Victim(c, a).Some? {
      AskingStep(c, count, a, c.pc.slot);
      RequestKeeps(c, c.pc.slot);
      PcKeeps(Request(c, c.pc.slot), PcAfter(c, a), c.joined);
    } else {
      PlainStep(c, count, a);
      FlagsKeep(c, FlagsAfter(c, a));
      PcKeeps(c.(flags := FlagsAfter(c, a)), PcAfter(c, a), Apply(c, count, a).joined);
    }
  }

  lemma SlotsAreOk(c: Client)
    requires Inv(c)
    ensures SlotsOk(c)
  {
  }

  /** With the client at Ready no thread is pending and the slot has no live thread. */
  lemma AddKeepsOwned(c: Client, kind: Kind, job: S.Job)
    requires OwnedOk(c) && c.pc.Ready? && S.JobOk(job)
    ensures OwnedOk(Add(c, c.pc.slot, kind, job))
  {
    hide S.Initial;
    var c' := Add(c, c.pc.slot, kind, job);
    forall v: nat | v < |c'.threads| ensures Owned(c', v) {
      if v < |c.threads| { assert Owned(c, v); }
    }
  }

  lemma AddKeepsThreads(c: Client, kind: Kind, job: S.Job)
    requires ThreadsOk(c) && c.pc.Ready? && c.pc.slot < SLOTS && S.JobOk(job)
    ensures ThreadsOk(Add(c, c.pc.slot, kind, job))
  {
    hide S.Inv;
    S.InitialInv(job);
    var c' := Add(c, c.pc.slot, kind, job);
    assert ThreadOk(c'.threads[|c.threads|]);
  }

  lemma AddKeepsQueue(c: Client, kind: Kind, job: S.Job)
    requires QueueOk(c) && HeadsOk(c) && HistoryOk(c) && RepliesOk(c) && c.pc.Ready? && S.JobOk(job) && kind != Work
    ensures var c' := Add(c, c.pc.slot, kind, job); QueueOk(c') && HeadsOk(c') && HistoryOk(c') && RepliesOk(c')
  {
    hide S.Initial;
  }

  ghost function Admitted(c: Client, job: S.Job): (c': Client)
    requires c.pc.Ready? && S.JobOk(job)
  {
    Add(c, c.pc.slot, Work, job).(queue := c.queue + [c.pc.slot], queued := c.queued + [|c.threads|],
                                  admitted := c.admitted + [|c.threads|])
  }

  lemma AdmitKeepsQueue(c: Client, job: S.Job)
    requires QueueOk(c) && HeadsOk(c) && c.pc.Ready? && S.JobOk(job)
    ensures QueueOk(Admitted(c, job)) && HeadsOk(Admitted(c, job))
  {
    hide S.Initial;
    var c' := Admitted(c, job);
    assert c'.queued[|c.queued|] == |c.threads|;
  }

  lemma AdmitKeepsHistory(c: Client, job: S.Job)
    requires QueueOk(c) && HistoryOk(c) && RepliesOk(c) && c.pc.Ready? && S.JobOk(job)
    ensures HistoryOk(Admitted(c, job)) && RepliesOk(Admitted(c, job))
  {
    hide S.Initial, Queued;
    assert c.admitted + [|c.threads|] == c.popped + (c.queued + [|c.threads|]);
  }

  lemma HoldersAdd(c: Client, c': Client, t: Thread)
    requires c'.threads == c.threads + [t] && !Holds(t)
    ensures Holders(c') == Holders(c)
  {
  }

  lemma AdmitKeepsOwned(c: Client, job: S.Job)
    requires OwnedOk(c) && c.pc.Ready? && S.JobOk(job)
    ensures OwnedOk(Admitted(c, job))
  {
    hide S.Initial;
    AddKeepsOwned(c, Work, job);
    var d, c' := Add(c, c.pc.slot, Work, job), Admitted(c, job);
    forall v: nat | v < |c'.threads| ensures Owned(c', v) {
      assert Owned(d, v);
    }
  }

  lemma CommandKeeps(c: Client, count: int, a: Action)
    requires Inv(c) && Enabled(c, a) && (a.WorkCommand? || a.OtherCommand?)
    ensures Inv(Apply(c, count, a))
  {
    hide ThreadsOk, OwnedOk, QueueOk, HeadsOk, HistoryOk, RepliesOk, Holders, S.Initial;
    if a.WorkCommand? && count < LIMIT {
      AdmitKeepsOwned(c, a.job);
      AddKeepsThreads(c, Work, a.job);
      ThreadsFrame(Add(c, c.pc.slot, Work, a.job), Admitted(c, a.job));
      AdmitKeepsQueue(c, a.job);
      AdmitKeepsHistory(c, a.job);
      HoldersAdd(c, Admitted(c, a.job), NewThread(c.pc.slot, Work, a.job));
    } else {
      var kind := if a.WorkCommand? then Other else a.kind;
      AddKeepsOwned(c, kind, NO_JOB);
      AddKeepsThreads(c, kind, NO_JOB);
      AddKeepsQueue(c, kind, NO_JOB);
      HoldersAdd(c, Add(c, c.pc.slot, kind, NO_JOB), NewThread(c.pc.slot, kind, NO_JOB));
    }
  }

  lemma ThreadsFrame(c: Client, c': Client)
    requires ThreadsOk(c) && c'.threads == c.threads
    ensures ThreadsOk(c')
  {
    hide ThreadOk;
  }

  lemma SpawnKeepsOwned(c: Client, t: Thread)
    requires OwnedOk(c) && c.pc.Spawning? && c.pc.slot < |c.pool| && c.pc.uid < |c.threads|
    requires t.slot == c.threads[c.pc.uid].slot && t.phase != Pending
    ensures OwnedOk(Set(c, c.pc.uid, t).(pool := c.pool[c.pc.slot := Some(c.pc.uid)], pc := Idle))
  {
    var c' := Set(c, c.pc.uid, t).(pool := c.pool[c.pc.slot := Some(c.pc.uid)], pc := Idle);
    forall v: nat | v < |c'.threads| ensures Owned(c', v) {
      assert Owned(c, v);
    }
  }

  lemma SpawnKeepsQueue(c: Client, u: nat, t: Thread, c': Client)
    requires QueueOk(c) && HeadsOk(c) && HistoryOk(c) && RepliesOk(c) && u < |c.threads|
    requires t.slot == c.threads[u].slot && t.kind == c.threads[u].kind && t.sent == c.threads[u].sent
    requires t.search == c.threads[u].search && (Queued(t) <==> Queued(c.threads[u])) && !AtHead(t)
    requires c' == Set(c, u, t).(pool := c'.pool, pc := c'.pc)
    ensures QueueOk(c') && HeadsOk(c') && HistoryOk(c') && RepliesOk(c')
  {
    hide Queued, AtHead;
  }

  lemma SpawnKeeps(c: Client, count: int)
    requires Inv(c) && Enabled(c, Spawn)
    ensures Inv(Apply(c, count, Spawn))
  {
    hide S.Inv, OwnedOk, QueueOk, HeadsOk, HistoryOk, RepliesOk, Holders;
    var u := c.pc.uid;
    ThreadIsOk(c, u);
    var t := c.threads[u].(phase := PhaseOfKind(c.threads[u].kind));
    var c' := Apply(c, count, Spawn);
    assert c' == Set(c, u, t).(pool := c.pool[c.pc.slot := Some(u)], pc := Idle);
    SetKeepsThreads(c, u, t);
    ThreadsFrame(Set(c, u, t), c');
    SpawnKeepsOwned(c, t);
    SpawnKeepsQueue(c, u, t, c');
    HoldersSame(c, u, t);
    HoldersFrame(Set(c, u, t), c');
  }

  lemma AbortKeeps(c: Client, count: int, a: Action)
    requires Inv(c) && Enabled(c, a) && a.AbortOne?
    ensures Inv(Apply(c, count, a))
  {
    hide Inv, Request, Apply, Occupant;
    AskingStep(c, count, a, c.queue[a.k]);
    RequestKeeps(c, c.queue[a.k]);
    RequestKeepsPc(c, c.queue[a.k]);
  }

  lemma RequestKeepsPc(c: Client, slot: nat)
    ensures Request(c, slot).(pc := c.pc, joined := c.joined) == Request(c, slot)
  {
  }

  // ------------------------------------------------------------ all actions

  /** Every action of every thread of the client keeps the invariant. */
  lemma StepInv(c: Client, count: int, a: Action)
    requires Inv(c) && Enabled(c, a)
    ensures Inv(Apply(c, count, a))
  {
    hide Inv;
    if PlainMove(a) { PlainMoveKeeps(c, count, a); }
    else if ClientMove(a) { ClientMoveKeeps(c, count, a); }
    else if a.SearchStep? { SearchStepKeeps(c, count, a); }
    else if a.BeginCleanup? || a.Cancel? { CleanupKeeps(c, count, a); }
    else if a.TakePermit? || a.PostPermit? { PermitKeeps(c, count, a); }
    else if a.ResetFlag? || a.ResetAgain? { ResetKeeps(c, count, a); }
    else if a.Send? { SendKeeps(c, count, a); }
    else if a.Pop? { PopKeeps(c, count, a); }
    else if a.Spawn? { SpawnKeeps(c, count); }
    else if a.AbortOne? { AbortKeeps(c, count, a); }
    else { CommandKeeps(c, count, a); }
  }

  lemma InitialInv()
    ensures Inv(InitialClient())
  {
    assert Holders(InitialClient()) == {};
  }
}
