/** The WORK protocol of one client as a transition system: the client thread of
    handler.c, its command threads, and the life of a WORK command in work_handler.c.
    Each action is one critical section or one other atomic step of the code. */
module WorkProtocol {
  import opened Containers
  import opened Slots
  import S = Search

  const SLOTS: nat := 20   // CLIENT_THREAD_COUNT
  const PERMITS: nat := 3  // CONCURRENT_WORK_COUNT
  const LIMIT: nat := 10   // GLOBAL_WORK_LIMIT

  datatype Kind = Work | Abort | Other

  datatype Phase =
    | Pending         // arguments ready, pthread_create still to come
    | Handling        // inside a handler other than work_handler and abrt_handler
    | Aborting        // inside abrt_handler
    | Starting        // work_handler, cancellation still disabled
    | Waiting         // until sem_wait returns
    | Searching       // between sem_wait and sem_post
    | AwaitingTurn    // sem_post done, until the own id is seen at the head
    | Sending         // cancellation disabled, reply not yet sent
    | Sent            // reply sent, cleanup not begun
    | JoiningBatches  // cleanup: work count lowered, batch threads being joined
    | CleanupTurn     // cleanup: until the own id is seen at the head
    | Popping         // cleanup: own id seen, rm_tid still to come
    | Resetting       // cleanup: before its reset_flag
    | Wrapping        // back in handler_wrapper, before its reset_flag
    | Exiting         // flag reset for the last time, thread not yet ended
    | Dead

  /** A command thread; `search` is the search of a WORK. `cancelled` records that a
      cancellation was delivered, `leaked` that this happened between sem_wait and
      sem_post, `sent` that the reply went out. */
  datatype Thread = Thread(slot: nat, kind: Kind, phase: Phase, request: bool,
                           cancelled: bool, leaked: bool, sent: bool, job: S.Job, search: S.State)

  /** Where the client thread is: no command, slot taken, waiting for the old occupant,
      slot clear, about to create the thread; or going through the slots after the
      connection ended. */
  datatype Pc =
    | Idle
    | Acquired(slot: nat)
    | Joining(slot: nat)
    | Ready(slot: nat)
    | Spawning(slot: nat, uid: nat)
    | Closing(slot: nat)
    | ClosingJoin(slot: nat)
    | Closed

  /** A reply on the wire: which thread sent it and the nonce it carries. */
  datatype Reply = Reply(uid: nat, nonce: nat)

  /** `threads` holds every command thread ever started, oldest first; `pool` is the
      thread id array, `queue` the queue of slot numbers, `permits` the semaphore.
      The rest is history: whose entries the queue holds, who was admitted, who called
      rm_tid, which replies went out, and which threads the client thread has joined. */
  datatype Client = Client(pc: Pc, flags: seq<int>, pool: seq<Option<nat>>, threads: seq<Thread>,
                           queue: seq<nat>, permits: nat,
                           queued: seq<nat>, admitted: seq<nat>, popped: seq<nat>, replies: seq<Reply>,
                           joined: set<nat>)

  datatype Action =
    | Acquire | CancelOld | JoinOld | WorkCommand(job: S.Job) | OtherCommand(kind: Kind) | Spawn
    | Hangup | CloseSlot | CloseJoin
    | AbortOne(u: nat, k: nat) | Return(u: nat) | Die(u: nat)
    | Start(u: nat) | TakePermit(u: nat) | SearchStep(u: nat, step: S.Step) | PostPermit(u: nat)
    | SeeTurn(u: nat) | Send(u: nat) | BeginCleanup(u: nat) | Cancel(u: nat)
    | JoinBatches(u: nat) | SeeCleanupTurn(u: nat) | Pop(u: nat) | ResetFlag(u: nat) | ResetAgain(u: nat) | Exit(u: nat)

  const NO_JOB: S.Job := S.Job(_ => false, 0, 1)

  ghost function InitialClient(): (c: Client)
  {
    Client(Idle, seq(SLOTS, _ => 0), seq(SLOTS, _ => None), [], [], PERMITS, [], [], [], [], {})
  }

  ghost function NewThread(slot: nat, kind: Kind, job: S.Job): (t: Thread)
    requires S.JobOk(job)
  {
    Thread(slot, kind, Pending, false, false, false, false, job, S.Initial(job))
  }

  // ------------------------------------------------------------ guards

  predicate In(c: Client, u: nat, phase: Phase)
  {
    u < |c.threads| && c.threads[u].phase == phase
  }

  /** The thread that the pool holds for a slot, if there is one. */
  function Occupant(c: Client, slot: nat): (o: Option<nat>)
    ensures o.Some? ==> o.value < |c.threads|
  {
    if slot < |c.pool| && c.pool[slot].Some? && c.pool[slot].value < |c.threads| then c.pool[slot] else None
  }

  /** `pthread_join` on the pool entry of a slot returns: nobody there, or ended. */
  predicate Joinable(c: Client, slot: nat)
  {
    slot < |c.pool| && (c.pool[slot] == None || In(c, c.pool[slot].value, Dead))
  }

  /** `get_tid` returns this thread's slot number. */
  predicate HeadIs(c: Client, u: nat)
    requires u < |c.threads|
  {
    c.queue != [] && c.queue[0] == c.threads[u].slot
  }

  /** Where a cancellation request takes effect: between work_handler.c:93 and 176. */
  predicate Cancellable(phase: Phase)
  {
    phase == Waiting || phase == Searching || phase == AwaitingTurn
  }

  /** The batch threads of a WORK exist from the first pthread_create until they are
      joined; only the searching worker makes new ones, and only the cleanup sets the
      cancelled flag. */
  predicate SearchEnabled(t: Thread, step: S.Step)
  {
    && t.kind == Work && S.Enabled(t.search, step) && step != S.Cancel
    && (t.phase == Searching
        || (step != S.Make && (t.phase == AwaitingTurn || t.phase == Sending || t.phase == Sent || t.phase == JoiningBatches)))
  }

  predicate AllStopped(s: S.State)
  {
    forall i :: 0 <= i < s.made && i < |s.batches| ==> s.batches[i].pc == S.Stopped
  }

  /** The actions of the client thread, and the request that an ABRT makes. */
  predicate OfClient(a: Action)
  {
    a.Acquire? || a.CancelOld? || a.JoinOld? || a.WorkCommand? || a.OtherCommand? || a.Hangup? || a.CloseSlot?
    || a.CloseJoin? || a.AbortOne?
  }

  predicate ClientCan(c: Client, a: Action)
    requires OfClient(a)
  {
    match a
    case Acquire => c.pc == Idle && FirstFree(c.flags) != -1
    case CancelOld => c.pc.Acquired?
    case JoinOld => c.pc.Joining? && Joinable(c, c.pc.slot)
    case WorkCommand(job) => c.pc.Ready? && S.RangeOk(job.n, job.threads)
    case OtherCommand(kind) => c.pc.Ready? && kind != Work
    case Hangup => c.pc == Idle
    case CloseSlot => c.pc.Closing?
    case CloseJoin => c.pc.ClosingJoin? && Joinable(c, c.pc.slot)
    case AbortOne(u, k) => In(c, u, Aborting) && k < |c.queue|
  }

  /** The command thread that takes the action; for Spawn the one it creates. */
  function Actor(c: Client, a: Action): (u: nat)
    requires !OfClient(a)
  {
    if a.Spawn? then (if c.pc.Spawning? then c.pc.uid else 0) else a.u
  }

  /** The part of the guard that is about the acting thread. */
  predicate CanAct(t: Thread, a: Action)
    requires !OfClient(a)
  {
    match a
    case Spawn => t.phase == Pending
    case Return(_) => t.phase == Handling || t.phase == Aborting
    case Die(_) => (t.phase == Handling || t.phase == Aborting) && t.request
    case Start(_) => t.phase == Starting
    case TakePermit(_) => t.phase == Waiting
    case SearchStep(_, step) => SearchEnabled(t, step)
    case PostPermit(_) => t.phase == Searching && t.search.made == |t.search.batches| && t.search.solution != 0
    case SeeTurn(_) => t.phase == AwaitingTurn
    case Send(_) => t.phase == Sending
    case BeginCleanup(_) => t.phase == Sent
    case Cancel(_) => t.request && Cancellable(t.phase)
    case JoinBatches(_) => t.phase == JoiningBatches && AllStopped(t.search)
    case SeeCleanupTurn(_) => t.phase == CleanupTurn
    case Pop(_) => t.phase == Popping
    case ResetFlag(_) => t.phase == Resetting
    case ResetAgain(_) => t.phase == Wrapping
    case Exit(_) => t.phase == Exiting
  }

  /** The rest of it: what the acting thread finds around it. */
  predicate MayAct(c: Client, a: Action)
    requires !OfClient(a) && Actor(c, a) < |c.threads|
  {
    match a
    case Spawn => c.pc.Spawning? && c.pc.slot < |c.pool|
    case TakePermit(_) => c.permits > 0
    case SeeTurn(u) => HeadIs(c, u)
    case SeeCleanupTurn(u) => HeadIs(c, u)
    case ResetFlag(u) => c.threads[u].slot < |c.flags|
    case ResetAgain(u) => c.threads[u].slot < |c.flags|
    case _ => true
  }

  /** The client can take this action. */
  predicate Enabled(c: Client, a: Action)
  {
    if OfClient(a) then ClientCan(c, a)
    else Actor(c, a) < |c.threads| && CanAct(c.threads[Actor(c, a)], a) && MayAct(c, a)
  }

  // ------------------------------------------------------------ effects on threads

  /** work_handler.c:15-23: the count is lowered and the batch threads are told. */
  function EnterCleanup(t: Thread): (t': Thread)
  {
    t.(phase := JoiningBatches, search := t.search.(cancelled := true))
  }

  function PhaseOfKind(kind: Kind): (p: Phase)
  {
    match kind case Work => Starting case Abort => Aborting case Other => Handling
  }

  /** The acting thread afterwards. */
  ghost function Acted(t: Thread, a: Action): (t': Thread)
    requires !OfClient(a) && CanAct(t, a)
  {
    match a
    case Spawn => t.(phase := PhaseOfKind(t.kind))
    case Return(_) => t.(phase := Wrapping)
    case Die(_) => t.(phase := Dead)
    case Start(_) => t.(phase := Waiting)
    case TakePermit(_) => t.(phase := Searching)
    case SearchStep(_, step) =>
      if S.JobOk(t.job) && |t.search.batches| == t.job.threads
      then t.(search := S.Next(t.job, t.search, step)) else t
    case PostPermit(_) => t.(phase := AwaitingTurn)
    case SeeTurn(_) => t.(phase := Sending)
    case Send(_) => t.(phase := Sent, sent := true)
    case BeginCleanup(_) => EnterCleanup(t)
    case Cancel(_) => EnterCleanup(t).(cancelled := true, leaked := t.phase == Searching)
    case JoinBatches(_) => t.(phase := CleanupTurn)
    case SeeCleanupTurn(_) => t.(phase := Popping)
    case Pop(_) => t.(phase := Resetting)
    case ResetFlag(_) => t.(phase := if t.cancelled then Dead else Wrapping)
    case ResetAgain(_) => t.(phase := Exiting)
    case Exit(_) => t.(phase := Dead)
  }

  /** The thread that the action calls `pthread_cancel` for. */
  function Victim(c: Client, a: Action): (o: Option<nat>)
    requires Enabled(c, a)
    ensures o.Some? ==> o.value < |c.threads|
  {
    match a
    case CancelOld => Occupant(c, c.pc.slot)
    case CloseSlot => if c.pc.slot < |c.flags| && c.flags[c.pc.slot] == 1 then Occupant(c, c.pc.slot) else None
    case AbortOne(_, k) => Occupant(c, c.queue[k])
    case _ => None
  }

  function Asked(threads: seq<Thread>, victim: Option<nat>): (r: seq<Thread>)
    requires victim.Some? ==> victim.value < |threads|
    ensures |r| == |threads|
  {
    if victim.Some? then threads[victim.value := threads[victim.value].(request := true)] else threads
  }

  /** The threads that the action adds: none or one, still to be created. */
  ghost function Created(c: Client, count: int, a: Action): (r: seq<Thread>)
    requires Enabled(c, a)
    ensures |r| <= 1
  {
    match a
    case WorkCommand(job) => [if count < LIMIT then NewThread(c.pc.slot, Work, job) else NewThread(c.pc.slot, Other, NO_JOB)]
    case OtherCommand(kind) => [NewThread(c.pc.slot, kind, NO_JOB)]
    case _ => []
  }

  ghost function ThreadsAfter(c: Client, count: int, a: Action): (threads: seq<Thread>)
    requires Enabled(c, a)
  {
    if OfClient(a) then Asked(c.threads, Victim(c, a)) + Created(c, count, a)
    else c.threads[Actor(c, a) := Acted(c.threads[Actor(c, a)], a)]
  }

  // ------------------------------------------------------------ effects on the client

  function FlagsAfter(c: Client, a: Action): (flags: seq<int>)
    requires Enabled(c, a)
  {
    match a
    case Acquire => Taken(c.flags)
    case ResetFlag(u) => c.flags[c.threads[u].slot := 0]
    case ResetAgain(u) => c.flags[c.threads[u].slot := 0]
    case _ => c.flags
  }

  function PcAfter(c: Client, a: Action): (pc: Pc)
    requires Enabled(c, a)
  {
    match a
    case Acquire => Acquired(FirstFree(c.flags))
    case CancelOld => Joining(c.pc.slot)
    case JoinOld => Ready(c.pc.slot)
    case WorkCommand(_) => Spawning(c.pc.slot, |c.threads|)
    case OtherCommand(_) => Spawning(c.pc.slot, |c.threads|)
    case Spawn => Idle
    case Hangup => Closing(0)
    case CloseSlot =>
      if c.pc.slot >= |c.flags| then Closed
      else if c.flags[c.pc.slot] == 1 then ClosingJoin(c.pc.slot) else Closing(c.pc.slot + 1)
    case CloseJoin => Closing(c.pc.slot + 1)
    case _ => c.pc
  }

  function JoinedWith(c: Client, slot: nat): (joined: set<nat>)
  {
    if Occupant(c, slot).Some? then c.joined + {Occupant(c, slot).value} else c.joined
  }

  /** The parts that many actions touch, and then those that only one or two do. */
  ghost function Apply(c: Client, count: int, a: Action): (c': Client)
    requires Enabled(c, a)
  {
    var d := c.(pc := PcAfter(c, a), flags := FlagsAfter(c, a), threads := ThreadsAfter(c, count, a));
    match a
    case JoinOld => d.(joined := JoinedWith(c, c.pc.slot))
    case CloseJoin => d.(joined := JoinedWith(c, c.pc.slot))
    case WorkCommand(_) =>
      if count < LIMIT then
        d.(queue := c.queue + [c.pc.slot], queued := c.queued + [|c.threads|], admitted := c.admitted + [|c.threads|])
      else d
    case Spawn => d.(pool := c.pool[c.pc.slot := Some(c.pc.uid)])
    case TakePermit(_) => d.(permits := c.permits - 1)
    case PostPermit(_) => d.(permits := c.permits + 1)
    case Send(u) => d.(replies := c.replies + [Reply(u, c.threads[u].search.solution)])
    case Pop(u) =>
      d.(queue := if c.queue == [] then [] else c.queue[1..],
         queued := if c.queued == [] then [] else c.queued[1..], popped := c.popped + [u])
    case _ => d
  }

  /** The global work count after the action: raised on admission, lowered by the
      cleanup of an admitted WORK. */
  function CountAfter(c: Client, count: int, a: Action): (count': int)
  {
    match a
    case WorkCommand(_) => if count < LIMIT then count + 1 else count
    case BeginCleanup(_) => count - 1
    case Cancel(_) => count - 1
    case _ => count
  }

  // ------------------------------------------------------------ single changes

  function Set(c: Client, u: nat, t: Thread): (c': Client)
    requires u < |c.threads|
  {
    c.(threads := c.threads[u := t])
  }

  function Move(c: Client, u: nat, phase: Phase): (c': Client)
    requires u < |c.threads|
  {
    Set(c, u, c.threads[u].(phase := phase))
  }

  /** `pthread_cancel` on the thread that the pool holds for a slot. */
  function Request(c: Client, slot: nat): (c': Client)
  {
    c.(threads := Asked(c.threads, Occupant(c, slot)))
  }

  /** A new thread record in the slot that the client holds. */
  ghost function Add(c: Client, slot: nat, kind: Kind, job: S.Job): (c': Client)
    requires S.JobOk(job)
  {
    c.(threads := c.threads + [NewThread(slot, kind, job)], pc := Spawning(slot, |c.threads|))
  }
}
