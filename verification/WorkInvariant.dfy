/** What every action of the WORK protocol keeps. */
module WorkInvariant {
  import opened Containers
  import opened WorkProtocol
  import S = Search

  // ------------------------------------------------------------ one thread

  /** Phases of work_handler, from the creation of its thread to its last flag reset. */
  predicate WorkPhase(p: Phase)
  {
    p == Starting || p == Waiting || p == Searching || p == AwaitingTurn || p == Sending || p == Sent
    || p == JoiningBatches || p == CleanupTurn || p == Popping || p == Resetting
  }

  /** An admitted WORK that has not popped its id. */
  predicate Queued(t: Thread)
  {
    t.kind == Work && (t.phase == Pending || (WorkPhase(t.phase) && t.phase != Resetting))
  }

  /** A WORK that has seen its own id at the head and not popped it yet. */
  predicate AtHead(t: Thread)
  {
    Queued(t) && (t.phase == Sending || t.phase == Sent || t.phase == Popping || t.sent)
  }

  /** An admitted WORK whose cleanup has not begun. */
  predicate Counted(t: Thread)
  {
    Queued(t) && t.phase != JoiningBatches && t.phase != CleanupTurn && t.phase != Popping
  }

  /** A WORK between sem_wait and sem_post, or cancelled there. */
  predicate Holds(t: Thread)
  {
    t.phase == Searching || t.leaked
  }

  predicate AfterSending(p: Phase)
  {
    p == Sent || p == JoiningBatches || p == CleanupTurn || p == Popping || p == Resetting
    || p == Wrapping || p == Exiting || p == Dead
  }

  ghost predicate ThreadOk(t: Thread)
  {
    && t.slot < SLOTS
    && S.Inv(t.job, t.search)
    && (WorkPhase(t.phase) ==> t.kind == Work)
    && (t.phase == AwaitingTurn || t.phase == Sending || t.phase == Sent || t.sent ==> t.search.solution != 0)
    && (t.sent ==> AfterSending(t.phase) && t.kind == Work)
    && (t.phase == Sent ==> t.sent)
    && (t.leaked ==> t.cancelled)
    && (t.cancelled || t.search.cancelled ==> AfterSending(t.phase) && t.phase != Sent)
  }

  // ------------------------------------------------------------ the client

  /** The client thread has taken a slot for its next command. */
  predicate HoldsSlot(pc: Pc)
  {
    pc.Acquired? || pc.Joining? || pc.Ready? || pc.Spawning?
  }

  ghost predicate SlotsOk(c: Client)
  {
    |c.flags| == SLOTS && |c.pool| == SLOTS && (HoldsSlot(c.pc) ==> c.pc.slot < SLOTS)
  }

  ghost predicate ThreadsOk(c: Client)
  {
    forall u: nat :: u < |c.threads| ==> ThreadOk(c.threads[u])
  }

  /** The pool entry of a slot, if any, is a thread of that slot that was created. */
  ghost predicate PoolOk(c: Client)
  {
    forall s: nat :: s < |c.pool| && c.pool[s].Some? ==>
      && c.pool[s].value < |c.threads|
      && c.threads[c.pool[s].value].slot == s
      && c.threads[c.pool[s].value].phase != Pending
  }

  /** A thread that has not ended is the one its slot's pool entry names, or the one
      that the client is about to create. */
  ghost predicate Owned(c: Client, u: nat)
    requires u < |c.threads|
  {
    var t := c.threads[u];
    t.phase != Dead ==>
      if t.phase == Pending then c.pc == Spawning(t.slot, u)
      else t.slot < |c.pool| && c.pool[t.slot] == Some(u)
  }

  /** While the client holds a cleared slot, its old occupant has ended. */
  ghost predicate SlotClear(c: Client)
  {
    (c.pc.Ready? || c.pc.Spawning? ==> Joinable(c, c.pc.slot))
    && (c.pc.Spawning? ==> In(c, c.pc.uid, Pending) && c.threads[c.pc.uid].slot == c.pc.slot)
  }

  ghost predicate OwnedOk(c: Client)
  {
    SlotClear(c) && PoolOk(c) && forall u: nat :: u < |c.threads| ==> Owned(c, u)
  }

  predicate Increasing(s: seq<nat>)
  {
    forall i, j :: 0 <= i < j < |s| ==> s[i] < s[j]
  }

  /** The queue holds exactly the slots of the admitted works that have not popped
      themselves, in the order of admission. */
  ghost predicate QueueOk(c: Client)
  {
    && |c.queue| == |c.queued|
    && (forall k :: 0 <= k < |c.queued| ==>
          && c.queued[k] < |c.threads|
          && Queued(c.threads[c.queued[k]])
          && c.threads[c.queued[k]].slot == c.queue[k])
    && (forall u: nat :: u < |c.threads| && Queued(c.threads[u]) ==> u in c.queued)
  }

  ghost predicate HeadsOk(c: Client)
  {
    forall u: nat :: u < |c.threads| && AtHead(c.threads[u]) ==> c.queued != [] && c.queued[0] == u
  }

  /** Those admitted are those who popped followed by those still queued. */
  ghost predicate HistoryOk(c: Client)
  {
    && c.admitted == c.popped + c.queued
    && Increasing(c.admitted)
    && (forall i :: 0 <= i < |c.admitted| ==> c.admitted[i] < |c.threads| && c.threads[c.admitted[i]].kind == Work)
  }

  /** Replies carry the result of an admitted work that has sent and is not behind the
      head of the queue, in the order of admission. */
  ghost predicate RepliesOk(c: Client)
  {
    && (forall i, j :: 0 <= i < j < |c.replies| ==> c.replies[i].uid < c.replies[j].uid)
    && (forall i :: 0 <= i < |c.replies| ==>
          && c.replies[i].uid < |c.threads|
          && c.replies[i].uid in c.admitted
          && c.threads[c.replies[i].uid].sent
          && c.threads[c.replies[i].uid].search.solution == c.replies[i].nonce
          && (c.queued != [] ==> c.replies[i].uid <= c.queued[0]))
  }

  ghost predicate Core(c: Client)
  {
    SlotsOk(c) && ThreadsOk(c) && OwnedOk(c) && QueueOk(c) && HeadsOk(c) && HistoryOk(c) && RepliesOk(c)
  }

  ghost function Holders(c: Client): (s: set<nat>)
  {
    set u: nat | u < |c.threads| && Holds(c.threads[u])
  }

  /** Permits are in the semaphore, with a searching work, or lost with one that was
      cancelled while searching. */
  ghost predicate PermitsOk(c: Client)
  {
    c.permits + |Holders(c)| == PERMITS
  }

  ghost predicate Inv(c: Client)
  {
    Core(c) && PermitsOk(c)
  }

  // ------------------------------------------------------------ first consequences

  /** Two threads of one slot that have not ended are the same thread. */
  lemma SlotIsExclusive(c: Client, u: nat, v: nat)
    requires OwnedOk(c) && u < |c.threads| && v < |c.threads|
    requires c.threads[u].slot == c.threads[v].slot && c.threads[u].phase != Dead && c.threads[v].phase != Dead
    ensures u == v
  {
    assert Owned(c, u) && Owned(c, v);
  }

  /** Seeing the own slot number at the head means being at the head. */
  lemma HeadIsMine(c: Client, u: nat)
    requires Core(c) && u < |c.threads| && c.threads[u].phase != Dead && HeadIs(c, u)
    ensures c.queued != [] && c.queued[0] == u
  {
    hide S.Inv;
    SlotIsExclusive(c, u, c.queued[0]);
  }
}
