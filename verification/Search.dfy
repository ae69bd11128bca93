/** The nonce search of one piece of work: the range split and the batch threads of
    work_handler.c, as a transition system over every interleaving. */
module Search {
  import opened Bits

  const MAX64: nat := 0xffff_ffff_ffff_ffff
  const TWO_64: nat := 0x1_0000_0000_0000_0000

  // ------------------------------------------------------------ range split

  /** n is a 64-bit value and at least one batch is asked for. */
  predicate RangeOk(n: nat, threads: nat)
  {
    n <= MAX64 && threads >= 1
  }

  function Chunk(n: nat, threads: nat): (c: nat)
    requires RangeOk(n, threads)
  {
    (MAX64 - n) / threads
  }

  function Start(n: nat, threads: nat, i: nat): (s: nat)
    requires RangeOk(n, threads)
  {
    n + i * Chunk(n, threads)
  }

  function End(n: nat, threads: nat, i: nat): (e: nat)
    requires RangeOk(n, threads)
  {
    if i == threads - 1 then MAX64 else n + (i + 1) * Chunk(n, threads)
  }

  /** No start or end is beyond the 64-bit range, so none of them wraps. */
  lemma RangeBound(n: nat, threads: nat, i: nat)
    requires RangeOk(n, threads) && i <= threads
    ensures n + i * Chunk(n, threads) <= MAX64
  {
    var c := Chunk(n, threads);
    var q, r := Divide(MAX64 - n, threads);
    DivModUnique(MAX64 - n, threads, q, r);
    if i < threads { MulLower(i, threads, c); }
    assert c * threads == threads * c;
  }

  /** The intervals follow one another without gap or overlap from n to 2^64 - 1. */
  lemma RangesTile(n: nat, threads: nat, i: nat)
    requires RangeOk(n, threads) && i < threads
    ensures Start(n, threads, 0) == n && End(n, threads, threads - 1) == MAX64
    ensures n <= Start(n, threads, i) <= End(n, threads, i) <= MAX64
    ensures i + 1 < threads ==> End(n, threads, i) == Start(n, threads, i + 1)
  {
    RangeBound(n, threads, i);
    RangeBound(n, threads, i + 1);
    var c := Chunk(n, threads);
    assert (i + 1) * c == i * c + c;
  }

  /** All intervals have the same length, but for the last, which takes the remainder. */
  lemma RangesAreEven(n: nat, threads: nat, i: nat)
    requires RangeOk(n, threads) && i < threads
    ensures var size := End(n, threads, i) - Start(n, threads, i);
            if i < threads - 1 then size == Chunk(n, threads) else Chunk(n, threads) <= size < Chunk(n, threads) + threads
  {
    var c := Chunk(n, threads);
    var q, r := Divide(MAX64 - n, threads);
    DivModUnique(MAX64 - n, threads, q, r);
    assert (i + 1) * c == i * c + c;
    assert c * threads == threads * c;
  }

  lemma {:induction false} RangesOrdered(n: nat, threads: nat, i: nat, j: nat)
    requires RangeOk(n, threads) && i < j < threads
    ensures End(n, threads, i) <= Start(n, threads, j)
    decreases j
  {
    RangesTile(n, threads, i);
    if j > i + 1 {
      RangesOrdered(n, threads, i, j - 1);
      RangesTile(n, threads, j - 1);
    }
  }

  ghost predicate InRange(n: nat, threads: nat, i: nat, x: nat)
    requires RangeOk(n, threads)
  {
    Start(n, threads, i) <= x < End(n, threads, i)
  }

  /** The interval that x falls into, searched from interval i on. */
  function Owner(n: nat, threads: nat, x: nat, i: nat): (k: nat)
    requires RangeOk(n, threads) && i < threads
    decreases threads - i
  {
    if i == threads - 1 || x < End(n, threads, i) then i else Owner(n, threads, x, i + 1)
  }

  lemma {:induction false} OwnerInRange(n: nat, threads: nat, x: nat, i: nat)
    requires RangeOk(n, threads) && i < threads && Start(n, threads, i) <= x < MAX64
    ensures i <= Owner(n, threads, x, i) < threads && InRange(n, threads, Owner(n, threads, x, i), x)
    decreases threads - i
  {
    RangesTile(n, threads, i);
    if i < threads - 1 && x >= End(n, threads, i) {
      OwnerInRange(n, threads, x, i + 1);
    }
  }

  /** Every nonce from n up to but excluding 2^64 - 1 is in exactly one interval, and
      no interval holds any other. */
  lemma RangesPartition(n: nat, threads: nat, x: nat)
    requires RangeOk(n, threads)
    ensures n <= x < MAX64 <==> exists i: nat :: i < threads && InRange(n, threads, i, x)
    ensures forall i: nat, j: nat :: i < j < threads ==> !(InRange(n, threads, i, x) && InRange(n, threads, j, x))
  {
    if n <= x < MAX64 {
      RangesTile(n, threads, 0);
      OwnerInRange(n, threads, x, 0);
    }
    forall i: nat | i < threads ensures InRange(n, threads, i, x) ==> n <= x < MAX64 {
      RangesTile(n, threads, i);
    }
    forall i: nat, j: nat | i < j < threads ensures !(InRange(n, threads, i, x) && InRange(n, threads, j, x)) {
      RangesOrdered(n, threads, i, j);
    }
  }

  /** The loop at work_handler.c:131-144 with its 64-bit arithmetic. */
  method AssignRanges(n: nat, threads: nat) returns (starts: seq<nat>, ends: seq<nat>)
    requires RangeOk(n, threads)
    ensures |starts| == threads && |ends| == threads
    ensures forall i :: 0 <= i < threads ==> starts[i] == Start(n, threads, i) && ends[i] == End(n, threads, i)
  {
    var chunk := (MAX64 - n) / threads;
    starts, ends := [], [];
    for i := 0 to threads
      invariant |starts| == i && |ends| == i
      invariant forall k :: 0 <= k < i ==> starts[k] == Start(n, threads, k) && ends[k] == End(n, threads, k)
    {
      RangeBound(n, threads, i);
      RangeBound(n, threads, i + 1);
      starts := starts + [(n + i * chunk) % TWO_64];
      if i == threads - 1 {
        ends := ends + [MAX64];
      } else {
        ends := ends + [(n + (i + 1) * chunk) % TWO_64];
      }
    }
  }

  // ------------------------------------------------------------ batch threads

  /** A piece of work: which nonces is_valid_soln accepts, the first nonce to try, and
      the number of batch threads. */
  datatype Job = Job(accepts: nat -> bool, n: nat, threads: nat)

  ghost predicate JobOk(job: Job)
  {
    RangeOk(job.n, job.threads)
  }

  /** Where a batch thread is in work_btch: before the loop test, past it with a nonce
      to try, holding an accepted nonce, or finished. */
  datatype BatchPc = NotMade | Checking | Testing | Found | Stopped

  datatype Batch = Batch(pc: BatchPc, trying: nat)

  /** `solution` is the shared result, 0 while there is none; `writer` records the
      batch that set it; `cancelled` is the flag that the cleanup sets. */
  datatype State = State(batches: seq<Batch>, made: nat, solution: nat, cancelled: bool, writer: nat)

  /** The steps of the batch threads, of the worker that makes them, and of the
      cleanup that cancels them. */
  datatype Step = Make | Check(i: nat) | Test(i: nat) | Write(i: nat) | Kill(i: nat) | Cancel

  ghost function Initial(job: Job): (s: State)
    requires JobOk(job)
  {
    State(seq(job.threads, i requires 0 <= i < job.threads => Batch(NotMade, Start(job.n, job.threads, i))),
          0, 0, false, 0)
  }

  predicate Enabled(s: State, step: Step)
  {
    match step
    case Make => s.made < |s.batches|
    case Check(i) => i < |s.batches| && s.batches[i].pc == Checking
    case Test(i) => i < |s.batches| && s.batches[i].pc == Testing
    case Write(i) => i < |s.batches| && s.batches[i].pc == Found
    case Kill(i) => i < |s.batches| && s.batches[i].pc == Testing && s.cancelled
    case Cancel => true
  }

  function SetBatch(s: State, i: nat, b: Batch): (s': State)
    requires i < |s.batches|
  {
    s.(batches := s.batches[i := b])
  }

  ghost function Next(job: Job, s: State, step: Step): (s': State)
    requires JobOk(job) && |s.batches| == job.threads && Enabled(s, step)
  {
    match step
    case Make => SetBatch(s, s.made, s.batches[s.made].(pc := Checking)).(made := s.made + 1)
    case Check(i) =>
      var b := s.batches[i];
      if s.solution != 0 || s.cancelled || b.trying >= End(job.n, job.threads, i)
      then SetBatch(s, i, b.(pc := Stopped))
      else SetBatch(s, i, b.(pc := Testing))
    case Test(i) =>
      var b := s.batches[i];
      if job.accepts(b.trying) then SetBatch(s, i, b.(pc := Found))
      else SetBatch(s, i, Batch(Checking, b.trying + 1))
    case Write(i) =>
      var b := s.batches[i];
      var s' := SetBatch(s, i, b.(pc := Stopped));
      if s.solution == 0 && b.trying != 0 then s'.(solution := b.trying, writer := i) else s'
    case Kill(i) => SetBatch(s, i, s.batches[i].(pc := Stopped))
    case Cancel => s.(cancelled := true)
  }

  // ------------------------------------------------------------ invariant

  /** Batch i has refused everything before the nonce it is at. */
  ghost predicate BatchOk(job: Job, s: State, i: nat)
    requires JobOk(job) && i < |s.batches|
  {
    var b, lo, hi := s.batches[i], Start(job.n, job.threads, i), End(job.n, job.threads, i);
    && lo <= b.trying <= hi
    && (forall x: nat :: lo <= x < b.trying ==> !job.accepts(x))
    && (b.pc == NotMade ==> b.trying == lo)
    && (b.pc == NotMade <==> i >= s.made)
    && (b.pc == Testing || b.pc == Found ==> b.trying < hi)
    && (b.pc == Found ==> job.accepts(b.trying))
    && (b.pc == Stopped && s.solution == 0 && !s.cancelled ==>
          b.trying == hi || (b.trying == 0 && b.trying < hi && job.accepts(0)))
  }

  /** A solution that has been set was accepted, and is where its writer stopped. */
  ghost predicate SolutionOk(job: Job, s: State)
    requires JobOk(job)
  {
    s.solution != 0 ==>
      && s.writer < |s.batches|
      && job.accepts(s.solution)
      && InRange(job.n, job.threads, s.writer, s.solution)
      && s.batches[s.writer] == Batch(Stopped, s.solution)
  }

  ghost predicate Inv(job: Job, s: State)
  {
    && JobOk(job)
    && |s.batches| == job.threads
    && s.made <= job.threads
    && (forall i: nat :: i < |s.batches| ==> BatchOk(job, s, i))
    && SolutionOk(job, s)
  }

  lemma InitialInv(job: Job)
    requires JobOk(job)
    ensures Inv(job, Initial(job))
  {
    var s := Initial(job);
    forall i: nat | i < |s.batches| ensures BatchOk(job, s, i) {
      RangesTile(job.n, job.threads, i);
    }
  }

  lemma BatchStepOk(job: Job, s: State, step: Step, i: nat)
    requires Inv(job, s) && Enabled(s, step) && i < |s.batches|
    ensures BatchOk(job, Next(job, s, step), i)
  {
    hide Start, End;
    assert BatchOk(job, s, i);
    RangesTile(job.n, job.threads, i);
  }

  lemma SolutionStepOk(job: Job, s: State, step: Step)
    requires Inv(job, s) && Enabled(s, step)
    ensures SolutionOk(job, Next(job, s, step))
  {
    hide Start, End;
    if step.Write? { assert BatchOk(job, s, step.i); }
    if step == Make { assert BatchOk(job, s, s.made); }
  }

  /** Every step of every thread keeps the invariant. */
  lemma NextInv(job: Job, s: State, step: Step)
    requires Inv(job, s) && Enabled(s, step)
    ensures Inv(job, Next(job, s, step))
  {
    hide BatchOk, SolutionOk;
    var s' := Next(job, s, step);
    forall i: nat | i < |s'.batches| ensures BatchOk(job, s', i) {
      BatchStepOk(job, s, step, i);
    }
    SolutionStepOk(job, s, step);
  }

  // ------------------------------------------------------------ runs

  /** The state after a sequence of steps, each taken by any thread that can. */
  ghost predicate IsRun(job: Job, s: State, steps: seq<Step>)
    requires JobOk(job) && |s.batches| == job.threads
    decreases |steps|
  {
    steps == [] || (Enabled(s, steps[0]) && IsRun(job, Next(job, s, steps[0]), steps[1..]))
  }

  ghost function After(job: Job, s: State, steps: seq<Step>): (s': State)
    requires JobOk(job) && |s.batches| == job.threads && IsRun(job, s, steps)
    ensures |s'.batches| == job.threads
    decreases |steps|
  {
    if steps == [] then s else After(job, Next(job, s, steps[0]), steps[1..])
  }

  lemma SolutionIsKept(job: Job, s: State, step: Step)
    requires JobOk(job) && |s.batches| == job.threads && Enabled(s, step)
    ensures s.solution != 0 ==> Next(job, s, step).solution == s.solution && Next(job, s, step).writer == s.writer
  {
  }

  /** In every run the solution is set at most once, and once set it is accepted, in
      the asked-for range, and the least accepted nonce of its writer's interval. */
  lemma {:induction false} WriteOnce(job: Job, s: State, steps: seq<Step>)
    requires Inv(job, s) && IsRun(job, s, steps)
    ensures var s' := After(job, s, steps);
            && Inv(job, s')
            && (s.solution != 0 ==> s'.solution == s.solution)
            && (s'.solution != 0 ==>
                  && job.accepts(s'.solution)
                  && job.n <= s'.solution < MAX64
                  && s'.writer < job.threads && InRange(job.n, job.threads, s'.writer, s'.solution)
                  && forall x: nat :: InRange(job.n, job.threads, s'.writer, x) && job.accepts(x) ==> s'.solution <= x)
    decreases |steps|
  {
    if steps == [] {
      if s.solution != 0 {
        assert BatchOk(job, s, s.writer);
        RangesTile(job.n, job.threads, s.writer);
      }
    } else {
      NextInv(job, s, steps[0]);
      SolutionIsKept(job, s, steps[0]);
      WriteOnce(job, Next(job, s, steps[0]), steps[1..]);
    }
  }

  /** All batch threads were made and have finished without a result. */
  ghost predicate Exhausted(s: State)
  {
    && s.made == |s.batches|
    && s.solution == 0
    && (forall i: nat :: i < |s.batches| ==> s.batches[i].pc == Stopped)
  }

  /** One of the intervals holds both x and y. */
  ghost predicate SameRange(job: Job, x: nat, y: nat)
    requires JobOk(job)
  {
    exists i: nat :: i < job.threads && InRange(job.n, job.threads, i, x) && InRange(job.n, job.threads, i, y)
  }

  /** A search that ends without a result and without being cancelled has refused every
      nonce of its range, except in one interval: the one that starts at 0, if 0 is
      accepted. That batch stops there, and its result 0 reads as no result. */
  lemma ExhaustedMeansNone(job: Job, s: State, x: nat)
    requires Inv(job, s) && Exhausted(s) && !s.cancelled && job.n <= x < MAX64
    ensures job.accepts(x) ==> job.n == 0 && job.accepts(0) && SameRange(job, 0, x)
  {
    hide Start, End;
    RangesPartition(job.n, job.threads, x);
    var i: nat :| i < job.threads && InRange(job.n, job.threads, i, x);
    assert BatchOk(job, s, i);
    RangesTile(job.n, job.threads, i);
    if job.accepts(x) { assert InRange(job.n, job.threads, i, 0); }
  }

  /** A search with one batch that accepts its first nonce. */
  ghost predicate FirstTry(job: Job)
  {
    job.threads == 1 && job.n < MAX64 && job.accepts(job.n)
  }

  function OneBatch(pc: BatchPc, made: nat, trying: nat, solution: nat): (s: State)
  {
    State([Batch(pc, trying)], made, solution, false, 0)
  }

  lemma FirstTrySteps(job: Job)
    requires FirstTry(job)
    ensures Initial(job) == OneBatch(NotMade, 0, job.n, 0)
    ensures Next(job, OneBatch(NotMade, 0, job.n, 0), Make) == OneBatch(Checking, 1, job.n, 0)
    ensures Next(job, OneBatch(Checking, 1, job.n, 0), Check(0)) == OneBatch(Testing, 1, job.n, 0)
    ensures Next(job, OneBatch(Testing, 1, job.n, 0), Test(0)) == OneBatch(Found, 1, job.n, 0)
    ensures Next(job, OneBatch(Found, 1, job.n, 0), Write(0)) == OneBatch(Stopped, 1, job.n, job.n)
  {
    assert Initial(job).batches == [Batch(NotMade, job.n)];
  }

  lemma FirstTryRun(job: Job)
    requires FirstTry(job)
    ensures var s, steps := Initial(job), [Make, Check(0), Test(0), Write(0)];
            IsRun(job, s, steps) && After(job, s, steps) == OneBatch(Stopped, 1, job.n, job.n)
  {
    hide Next, Initial, IsRun, After;
    FirstTrySteps(job);
    assert [Write(0)] + [] == [Write(0)] && [Test(0)] + [Write(0)] == [Test(0), Write(0)];
    assert [Check(0)] + [Test(0), Write(0)] == [Check(0), Test(0), Write(0)];
    assert [Make] + [Check(0), Test(0), Write(0)] == [Make, Check(0), Test(0), Write(0)];
    EmptyRun(job, OneBatch(Stopped, 1, job.n, job.n));
    RunCons(job, OneBatch(Found, 1, job.n, 0), Write(0), []);
    RunCons(job, OneBatch(Testing, 1, job.n, 0), Test(0), [Write(0)]);
    RunCons(job, OneBatch(Checking, 1, job.n, 0), Check(0), [Test(0), Write(0)]);
    RunCons(job, OneBatch(NotMade, 0, job.n, 0), Make, [Check(0), Test(0), Write(0)]);
  }

  /** In that interval everything else is missed. With one batch that starts at 0 and 0
      accepted, the batch stops there, nothing is reported, and no other nonce is tried,
      whichever of them are accepted. */
  lemma ZeroHidesTheRest(job: Job)
    requires FirstTry(job) && job.n == 0
    ensures var s, steps := Initial(job), [Make, Check(0), Test(0), Write(0)];
            && IsRun(job, s, steps) && Exhausted(After(job, s, steps)) && !After(job, s, steps).cancelled
            && After(job, s, steps).batches == [Batch(Stopped, 0)]
            && forall x: nat :: x < MAX64 ==> SameRange(job, 0, x)
  {
    hide Next, Initial, IsRun, After;
    FirstTryRun(job);
    forall x: nat | x < MAX64 ensures SameRange(job, 0, x) {
      assert InRange(job.n, job.threads, 0, 0) && InRange(job.n, job.threads, 0, x);
    }
  }

  lemma EmptyRun(job: Job, s: State)
    requires JobOk(job) && |s.batches| == job.threads
    ensures IsRun(job, s, []) && After(job, s, []) == s
  {
  }

  lemma RunCons(job: Job, s: State, step: Step, rest: seq<Step>)
    requires JobOk(job) && |s.batches| == job.threads && Enabled(s, step) && IsRun(job, Next(job, s, step), rest)
    ensures IsRun(job, s, [step] + rest) && After(job, s, [step] + rest) == After(job, Next(job, s, step), rest)
  {
    assert ([step] + rest)[1..] == rest;
  }

  // ------------------------------------------------------------ being told to stop

  /** There is a result, or the search was cancelled. */
  predicate Told(s: State)
  {
    s.solution != 0 || s.cancelled
  }

  /** The nonces before this one are the only ones that batch i can still refuse. */
  function Last(b: Batch): (x: nat)
  {
    b.trying + if b.pc == Testing then 1 else 0
  }

  lemma ToldStep(job: Job, s: State, step: Step, i: nat)
    requires JobOk(job) && |s.batches| == job.threads && Enabled(s, step) && Told(s) && i < |s.batches|
    ensures var s' := Next(job, s, step);
            |s'.batches| == job.threads && Told(s') && Last(s'.batches[i]) <= Last(s.batches[i])
  {
    hide End, Start;
  }

  lemma {:induction false} ToldIsKept(job: Job, s: State, steps: seq<Step>, last: nat, i: nat)
    requires JobOk(job) && |s.batches| == job.threads && IsRun(job, s, steps) && i < |s.batches|
    requires Told(s) && Last(s.batches[i]) <= last
    ensures After(job, s, steps).batches[i].trying <= last
    decreases |steps|
  {
    hide Next, Enabled;
    if steps != [] {
      ToldStep(job, s, steps[0], i);
      ToldIsKept(job, Next(job, s, steps[0]), steps[1..], last, i);
    }
  }

  /** Once a search has a result, or was cancelled, every batch tries the nonce it is at,
      if that, and no other. */
  lemma ToldBatchesStop(job: Job, s: State, steps: seq<Step>, i: nat)
    requires JobOk(job) && |s.batches| == job.threads && IsRun(job, s, steps) && i < |s.batches|
    requires s.solution != 0 || s.cancelled
    ensures var b, b' := s.batches[i], After(job, s, steps).batches[i];
            b'.trying <= b.trying + (if b.pc == Testing then 1 else 0)
  {
    hide IsRun, After;
    ToldIsKept(job, s, steps, Last(s.batches[i]), i);
  }

  /** The one step that ends a batch of a cancelled search. */
  function LastStep(b: Batch, i: nat): (step: Step)
  {
    match b.pc
    case Testing => Kill(i)
    case Found => Write(i)
    case _ => Check(i)
  }

  predicate StoppedFrom(s: State, k: nat)
  {
    forall i: nat :: k <= i < s.made && i < |s.batches| ==> s.batches[i].pc == Stopped
  }

  lemma LastStepStops(job: Job, s: State, k: nat)
    requires Inv(job, s) && s.cancelled && k < s.made && s.batches[k].pc != Stopped && StoppedFrom(s, k + 1)
    ensures var step := LastStep(s.batches[k], k);
            && Enabled(s, step) && Inv(job, Next(job, s, step))
            && Next(job, s, step).cancelled && Next(job, s, step).made == s.made && StoppedFrom(Next(job, s, step), k)
  {
    assert BatchOk(job, s, k);
    NextInv(job, s, LastStep(s.batches[k], k));
  }

  /** After its cancellation a search can be brought to an end without testing a single
      nonce more, in at most one step for each batch. */
  lemma {:induction false} CancelledEndsUntested(job: Job, s: State, k: nat) returns (steps: seq<Step>)
    requires Inv(job, s) && s.cancelled && k <= s.made && StoppedFrom(s, k)
    ensures IsRun(job, s, steps) && |steps| <= k
    ensures forall j :: 0 <= j < |steps| ==> !steps[j].Test? && !steps[j].Make? && !steps[j].Cancel?
    ensures StoppedFrom(After(job, s, steps), 0) && After(job, s, steps).made == s.made
    decreases k
  {
    hide BatchOk, SolutionOk, Enabled, Next;
    if k == 0 {
      steps := [];
    } else if s.batches[k - 1].pc == Stopped {
      steps := CancelledEndsUntested(job, s, k - 1);
    } else {
      var step := LastStep(s.batches[k - 1], k - 1);
      LastStepStops(job, s, k - 1);
      var rest := CancelledEndsUntested(job, Next(job, s, step), k - 1);
      steps := [step] + rest;
      assert steps[1..] == rest;
    }
  }

  // ------------------------------------------------------------ termination

  function PcWeight(pc: BatchPc): (w: nat)
  {
    match pc case NotMade => 4 case Checking => 3 case Testing => 2 case Found => 1 case Stopped => 0
  }

  /** Four steps for every nonce still to try, and what is left of the current one. */
  ghost function Weight(job: Job, s: State, i: nat): (w: int)
    requires JobOk(job) && i < |s.batches|
  {
    4 * (End(job.n, job.threads, i) - s.batches[i].trying) + PcWeight(s.batches[i].pc)
  }

  ghost function TotalWeight(job: Job, s: State, k: nat): (w: int)
    requires JobOk(job) && k <= |s.batches|
  {
    if k == 0 then 0 else TotalWeight(job, s, k - 1) + Weight(job, s, k - 1)
  }

  lemma {:induction false} WeightOthers(job: Job, s: State, s': State, i: nat, k: nat)
    requires JobOk(job) && |s.batches| == |s'.batches| && i < |s.batches| && k <= |s.batches|
    requires forall j: nat :: j < |s.batches| && j != i ==> s'.batches[j] == s.batches[j]
    ensures TotalWeight(job, s', k) - TotalWeight(job, s, k)
         == if i < k then Weight(job, s', i) - Weight(job, s, i) else 0
  {
    if k > 0 { WeightOthers(job, s, s', i, k - 1); }
  }

  /** Every step of a batch thread, and making one, lowers the total weight. */
  lemma StepLowersWeight(job: Job, s: State, step: Step)
    requires Inv(job, s) && Enabled(s, step) && step != Cancel
    ensures TotalWeight(job, Next(job, s, step), job.threads) < TotalWeight(job, s, job.threads)
  {
    hide End, Start, TotalWeight;
    var i := if step == Make then s.made else step.i;
    assert BatchOk(job, s, i);
    WeightOthers(job, s, Next(job, s, step), i, job.threads);
  }

  lemma {:induction false} WeightNotNegative(job: Job, s: State, k: nat)
    requires Inv(job, s) && k <= job.threads
    ensures TotalWeight(job, s, k) >= 0
  {
    if k > 0 {
      assert BatchOk(job, s, k - 1);
      WeightNotNegative(job, s, k - 1);
    }
  }

  /** Every run of batch steps ends: it is no longer than the initial total weight. */
  lemma {:induction false} RunsAreBounded(job: Job, s: State, steps: seq<Step>)
    requires Inv(job, s) && IsRun(job, s, steps) && Cancel !in steps
    ensures |steps| <= TotalWeight(job, s, job.threads)
    decreases |steps|
  {
    if steps == [] {
      WeightNotNegative(job, s, job.threads);
    } else {
      NextInv(job, s, steps[0]);
      StepLowersWeight(job, s, steps[0]);
      RunsAreBounded(job, Next(job, s, steps[0]), steps[1..]);
    }
  }

  /** A batch thread that has not finished can always take its next step. */
  lemma BatchCanStep(job: Job, s: State, i: nat) returns (step: Step)
    requires Inv(job, s) && i < s.made && s.batches[i].pc != Stopped
    ensures step != Make && step != Cancel && Enabled(s, step)
  {
    assert BatchOk(job, s, i);
    step := match s.batches[i].pc
      case Testing => Test(i)
      case Found => Write(i)
      case _ => Check(i);
  }
}
