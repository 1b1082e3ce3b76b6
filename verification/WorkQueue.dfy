/**
  The durable work queues (server/db.ts, server/worker.ts, server/magnet-worker.ts,
  server/release-worker.ts, server/retry.ts, server/postgres-schema.ts).

  The five tables share one protocol. A worker reads a queued row, claims it with a conditional
  update, and later writes the outcome by id alone, from the attempt count it read before. A row
  that runs too long is queued again under it, so late workers and new ones overlap.
 */
module WorkQueue {
  import opened Options

  const MAX_JOB_ATTEMPTS := 3
  const STALLED_MS := 10 * 60000

  /** `retryDelayMs`; `jitter` is its random part. */
  function RetryDelayMs(attempt: nat, jitter: nat): nat { (if attempt == 1 then 30000 else 2 * 60000) + jitter }

  datatype Status = Queued | Running | Completed | Failed

  datatype Job = Job(key: nat, status: Status, priority: int, attempts: nat, requestedAt: nat, startedAt: nat,
      retryAfter: Option<nat>)

  predicate Active(j: Job) { j.status == Queued || j.status == Running }

  /** The unique index on the generated active column: no other row of the key may be active. */
  predicate KeyFree(jobs: map<nat, Job>, key: nat, except: nat) {
    forall id :: id in jobs && id != except && jobs[id].key == key ==> !Active(jobs[id])
  }

  /** What a worker read when it picked a row. */
  datatype Held = Held(id: nat, attempts: nat, claimed: bool)

  datatype State = State(jobs: map<nat, Job>, nextId: nat, workers: map<nat, Held>)

  // --- Statements ---

  function Insert(s: State, key: nat, priority: int, now: nat): State {
    if KeyFree(s.jobs, key, s.nextId)
    then s.(jobs := s.jobs[s.nextId := Job(key, Queued, priority, 0, now, 0, None)], nextId := s.nextId + 1)
    else s.(nextId := s.nextId + 1)
  }

  function Promote(s: State, id: nat, priority: int): State {
    if id in s.jobs && s.jobs[id].status == Queued && s.jobs[id].priority < priority
    then s.(jobs := s.jobs[id := s.jobs[id].(priority := priority)])
    else s
  }

  /** UPDATE … WHERE id = ?, refused as a whole when it would break the unique index. */
  function Write(s: State, id: nat, job: Job): State {
    if Active(job) && !KeyFree(s.jobs, job.key, id) then s else s.(jobs := s.jobs[id := job])
  }

  function Claim(s: State, w: nat, now: nat): State
    requires w in s.workers
  {
    var h := s.workers[w];
    if h.id in s.jobs && s.jobs[h.id].status == Queued
    then s.(jobs := s.jobs[h.id := s.jobs[h.id].(status := Running, startedAt := now, retryAfter := None)],
           workers := s.workers[w := h.(claimed := true)])
    else s.(workers := s.workers - {w})
  }

  function Complete(s: State, w: nat): State
    requires w in s.workers
  {
    var id := s.workers[w].id;
    (if id in s.jobs then Write(s, id, s.jobs[id].(status := Completed, retryAfter := None))
        else s).(workers := s.workers - {w})
  }

  function FailJob(s: State, w: nat, retryable: bool, now: nat, jitter: nat): State
    requires w in s.workers
  {
    var id, attempt := s.workers[w].id, s.workers[w].attempts + 1;
    var retry := attempt < MAX_JOB_ATTEMPTS && retryable;
    var retryAt := now + RetryDelayMs(attempt, jitter);
    (if id !in s.jobs then s
     else if retry then Write(s, id, s.jobs[id].(status := Queued, attempts := attempt, retryAfter := Some(retryAt)))
     else Write(s, id, s.jobs[id].(status := Failed, attempts := attempt,
            retryAfter := None))).(workers := s.workers - {w})
  }

  function Requeued(j: Job, now: nat): Job {
    if j.status == Running && j.startedAt + STALLED_MS < now then j.(status := Queued) else j
  }

  function RecoverStalled(s: State, now: nat): State {
    s.(jobs := map id | id in s.jobs :: Requeued(s.jobs[id], now))
  }

  /** A rule is switched off: waiting rows are finished. */
  function CancelQueued(s: State): State {
    s.(jobs := map id | id in s.jobs ::
        if s.jobs[id].status == Queued then s.jobs[id].(status := Completed) else s.jobs[id])
  }

  /** What the worker's SELECT lists. */
  predicate Ready(j: Job, now: nat) { j.status == Queued && (j.retryAfter.None? || j.retryAfter.value <= now) }

  datatype Step =
    | InsertStep(key: nat, priority: int, now: nat)
    | PromoteStep(id: nat, priority: int)
    | SeeStep(w: nat, id: nat, now: nat)
    | ClaimStep(w: nat, now: nat)
    | ClaimNowStep(w: nat, id: nat, now: nat)
    | CompleteStep(w: nat)
    | FailStep(w: nat, retryable: bool, now: nat, jitter: nat)
    | RecoverStep(now: nat)
    | CancelStep
    | DeleteStep(id: nat)

  predicate Enabled(s: State, step: Step) {
    match step
    case SeeStep(w, id, now) => w !in s.workers && id in s.jobs && Ready(s.jobs[id], now)
    case ClaimNowStep(w, id, now) => w !in s.workers && id in s.jobs && Ready(s.jobs[id], now)
    case ClaimStep(w, _) => w in s.workers && !s.workers[w].claimed
    case CompleteStep(w) => w in s.workers && s.workers[w].claimed
    case FailStep(w, _, _, jitter) => w in s.workers && s.workers[w].claimed && jitter <= 5000
    case _ => true
  }

  function Seen(s: State, w: nat, id: nat): State
    requires id in s.jobs
  {
    s.(workers := s.workers[w := Held(id, s.jobs[id].attempts, false)])
  }

  function Next(s: State, step: Step): State
    requires Enabled(s, step)
  {
    match step
    case InsertStep(key, priority, now) => Insert(s, key, priority, now)
    case PromoteStep(id, priority) => Promote(s, id, priority)
    case SeeStep(w, id, _) => Seen(s, w, id)
    case ClaimStep(w, now) => Claim(s, w, now)
    case ClaimNowStep(w, id, now) => Claim(Seen(s, w, id), w, now)
    case CompleteStep(w) => Complete(s, w)
    case FailStep(w, retryable, now, jitter) => FailJob(s, w, retryable, now, jitter)
    case RecoverStep(now) => RecoverStalled(s, now)
    case CancelStep => CancelQueued(s)
    case DeleteStep(id) => s.(jobs := s.jobs - {id})
  }

  ghost predicate Steps(s: State, run: seq<Step>)
    decreases |run|
  {
    run == [] || (Enabled(s, run[0]) && Steps(Next(s, run[0]), run[1..]))
  }

  function After(s: State, run: seq<Step>): State
    requires Steps(s, run)
    decreases |run|
  {
    if run == [] then s else After(Next(s, run[0]), run[1..])
  }

  function Start(): State { State(map[], 0, map[]) }

  // --- The invariant ---

  ghost predicate UniqueActive(jobs: map<nat, Job>) {
    forall i, j :: i in jobs && j in jobs && i != j && Active(jobs[i]) && Active(jobs[j]) ==> jobs[i].key != jobs[j].key
  }

  predicate AttemptsOk(j: Job) { j.attempts <= MAX_JOB_ATTEMPTS && (Active(j) ==> j.attempts < MAX_JOB_ATTEMPTS) }

  ghost predicate Valid(s: State) {
    && UniqueActive(s.jobs)
    && (forall id :: id in s.jobs ==> id < s.nextId && AttemptsOk(s.jobs[id]))
    && (forall w :: w in s.workers ==> s.workers[w].attempts < MAX_JOB_ATTEMPTS)
  }

  lemma WriteKeeps(s: State, id: nat, job: Job)
    requires Valid(s) && id in s.jobs && job.key == s.jobs[id].key && AttemptsOk(job)
    ensures Valid(Write(s, id, job))
  {
  }

  lemma InsertKeeps(s: State, key: nat, priority: int, now: nat)
    requires Valid(s)
    ensures Valid(Insert(s, key, priority, now))
  {
  }

  lemma PromoteKeeps(s: State, id: nat, priority: int)
    requires Valid(s)
    ensures Valid(Promote(s, id, priority))
  {
  }

  lemma ClaimKeeps(s: State, w: nat, now: nat)
    requires Valid(s) && w in s.workers
    ensures Valid(Claim(s, w, now))
  {
  }

  lemma SeenKeeps(s: State, w: nat, id: nat)
    requires Valid(s) && id in s.jobs && s.jobs[id].status == Queued
    ensures Valid(Seen(s, w, id))
  {
  }

  lemma LeaveKeeps(s: State, w: nat)
    requires Valid(s)
    ensures Valid(s.(workers := s.workers - {w}))
  {
    hide UniqueActive, AttemptsOk;
  }

  lemma OutcomeKeeps(s: State, w: nat, step: Step)
    requires Valid(s) && w in s.workers && (step.CompleteStep? || step.FailStep?) && step.w == w && Enabled(s, step)
    ensures Valid(Next(s, step))
  {
    var id, attempt := s.workers[w].id, s.workers[w].attempts + 1;
    if id in s.jobs {
      var job := s.jobs[id];
      WriteKeeps(s, id, job.(status := Completed, retryAfter := None));
      WriteKeeps(s, id, job.(status := Failed, attempts := attempt, retryAfter := None));
      LeaveKeeps(Write(s, id, job.(status := Completed, retryAfter := None)), w);
      LeaveKeeps(Write(s, id, job.(status := Failed, attempts := attempt, retryAfter := None)), w);
      if step.FailStep? && attempt < MAX_JOB_ATTEMPTS {
        var retryAt := step.now + RetryDelayMs(attempt, step.jitter);
        var retried := job.(status := Queued, attempts := attempt, retryAfter := Some(retryAt));
        WriteKeeps(s, id, retried);
        LeaveKeeps(Write(s, id, retried), w);
      }
    } else {
      LeaveKeeps(s, w);
    }
    hide Valid, Write;
  }

  lemma RecoverKeeps(s: State, now: nat)
    requires Valid(s)
    ensures Valid(RecoverStalled(s, now))
  {
  }

  lemma CancelKeeps(s: State)
    requires Valid(s)
    ensures Valid(CancelQueued(s))
  {
  }

  lemma DeleteKeeps(s: State, id: nat)
    requires Valid(s)
    ensures Valid(s.(jobs := s.jobs - {id}))
  {
  }

  lemma StepKeeps(s: State, step: Step)
    requires Valid(s) && Enabled(s, step)
    ensures Valid(Next(s, step))
  {
    hide Valid, Insert, Promote, Claim, Complete, FailJob, RecoverStalled, CancelQueued;
    match step
    case InsertStep(key, priority, now) => InsertKeeps(s, key, priority, now);
    case PromoteStep(id, priority) => PromoteKeeps(s, id, priority);
    case SeeStep(w, id, _) => SeenKeeps(s, w, id);
    case ClaimStep(w, now) => ClaimKeeps(s, w, now);
    case ClaimNowStep(w, id, now) =>
      SeenKeeps(s, w, id);
      ClaimKeeps(Seen(s, w, id), w, now);
    case CompleteStep(w) => OutcomeKeeps(s, w, step);
    case FailStep(w, _, _, _) => OutcomeKeeps(s, w, step);
    case RecoverStep(now) => RecoverKeeps(s, now);
    case CancelStep => CancelKeeps(s);
    case DeleteStep(id) => DeleteKeeps(s, id);
  }

  lemma {:induction false} RunKeeps(s: State, run: seq<Step>)
    requires Valid(s) && Steps(s, run)
    ensures Valid(After(s, run))
    decreases |run|
  {
    hide Valid, Next, Enabled;
    if run != [] {
      StepKeeps(s, run[0]);
      RunKeeps(Next(s, run[0]), run[1..]);
    }
  }

  /** In every run a key has at most one active row, and no row passes its attempt limits. */
  lemma OneActivePerKey(run: seq<Step>)
    requires Steps(Start(), run)
    ensures var s := After(Start(), run);
      && UniqueActive(s.jobs)
      && (forall id :: id in s.jobs ==> s.jobs[id].attempts <= 3 && (Active(s.jobs[id]) ==> s.jobs[id].attempts <= 2))
  {
    RunKeeps(Start(), run);
  }

  lemma StepRaisesPriority(s: State, step: Step, id: nat)
    requires Enabled(s, step) && id in s.jobs && id < s.nextId
    ensures id < Next(s, step).nextId
    ensures id in Next(s, step).jobs
        ==> s.jobs[id].priority <= Next(s, step).jobs[id].priority && Next(s, step).jobs[id].key == s.jobs[id].key
  {
  }

  lemma StepNeverRevivesId(s: State, step: Step, id: nat)
    requires Enabled(s, step) && id !in s.jobs && id < s.nextId
    ensures id !in Next(s, step).jobs && id < Next(s, step).nextId
  {
  }

  lemma {:induction false} GoneForGood(s: State, run: seq<Step>, id: nat)
    requires Steps(s, run) && id !in s.jobs && id < s.nextId
    ensures id !in After(s, run).jobs
    decreases |run|
  {
    hide Next, Enabled;
    if run != [] {
      StepNeverRevivesId(s, run[0], id);
      GoneForGood(Next(s, run[0]), run[1..], id);
    }
  }

  /** As long as a row exists its key is fixed and its priority never falls. */
  lemma {:induction false} PriorityNeverFalls(s: State, run: seq<Step>, id: nat)
    requires Steps(s, run) && id in s.jobs && id < s.nextId && id in After(s, run).jobs
    ensures s.jobs[id].priority <= After(s, run).jobs[id].priority && After(s, run).jobs[id].key == s.jobs[id].key
    decreases |run|
  {
    hide Next, Enabled;
    if run != [] {
      var r := Next(s, run[0]);
      StepRaisesPriority(s, run[0], id);
      if id in r.jobs {
        PriorityNeverFalls(r, run[1..], id);
      } else {
        GoneForGood(r, run[1..], id);
      }
    }
  }

  // --- Without overlap, three claims at most ---

  /** No stalled recovery, and no step between reading a row and claiming it. */
  predicate IsPrompt(step: Step) { !step.RecoverStep? && !step.SeeStep? && !step.ClaimStep? }

  predicate Holds(h: Held, j: Job) { j.status == Running && j.attempts == h.attempts }

  /** Every worker owns the running row it claimed and knows its attempts; no two own the same. */
  ghost predicate Owned(s: State) {
    && (forall w :: w in s.workers ==> s.workers[w].claimed && s.workers[w].id < s.nextId)
    && (forall w :: w in s.workers && s.workers[w].id in s.jobs ==> Holds(s.workers[w], s.jobs[s.workers[w].id]))
    && (forall v, w :: v in s.workers && w in s.workers && v != w ==> s.workers[v].id != s.workers[w].id)
  }

  function ClaimsOf(run: seq<Step>, id: nat): nat {
    if run == [] then 0 else (if run[0].ClaimNowStep? && run[0].id == id then 1 else 0) + ClaimsOf(run[1..], id)
  }

  /** How many more times a row may be claimed. */
  function Budget(s: State, id: nat): int {
    if id !in s.jobs then (if id < s.nextId then 0 else MAX_JOB_ATTEMPTS)
    else match s.jobs[id].status
      case Queued => MAX_JOB_ATTEMPTS - s.jobs[id].attempts
      case Running => MAX_JOB_ATTEMPTS - s.jobs[id].attempts - 1
      case Completed => 0
      case Failed => 0
  }

  lemma ClaimOwned(s: State, w: nat, id: nat, now: nat)
    requires Valid(s) && Owned(s) && Enabled(s, ClaimNowStep(w, id, now))
    ensures Owned(Next(s, ClaimNowStep(w, id, now)))
  {
  }

  lemma OutcomeOwned(s: State, w: nat, step: Step)
    requires Valid(s) && Owned(s) && w in s.workers && (step.CompleteStep? || step.FailStep?) && step.w == w
        && Enabled(s, step)
    ensures Owned(Next(s, step))
  {
  }

  lemma PromptOwned(s: State, step: Step)
    requires Valid(s) && Owned(s) && Enabled(s, step) && IsPrompt(step)
    ensures Owned(Next(s, step))
  {
    match step
    case InsertStep(_, _, _) =>
    case PromoteStep(_, _) =>
    case CancelStep =>
    case DeleteStep(_) =>
    case ClaimNowStep(w, id, now) => ClaimOwned(s, w, id, now);
    case CompleteStep(w) => OutcomeOwned(s, w, step);
    case FailStep(w, _, _, _) => OutcomeOwned(s, w, step);
    case _ =>
  }

  lemma PromptSpends(s: State, step: Step, id: nat)
    requires Valid(s) && Owned(s) && Enabled(s, step) && IsPrompt(step)
    ensures Budget(Next(s, step), id) + (if step.ClaimNowStep? && step.id == id then 1 else 0) <= Budget(s, id)
    ensures Budget(s, id) >= 0
  {
  }

  lemma {:induction false} ClaimsWithinBudget(s: State, run: seq<Step>, id: nat)
    requires Valid(s) && Owned(s) && Steps(s, run) && forall i :: 0 <= i < |run| ==> IsPrompt(run[i])
    ensures ClaimsOf(run, id) <= Budget(s, id)
    decreases |run|
  {
    hide Valid, Owned, Next, Enabled, Budget, IsPrompt;
    if run == [] {
      BudgetNat(s, id);
    } else {
      assert IsPrompt(run[0]);
      PromptSpends(s, run[0], id);
      PromptOwned(s, run[0]);
      StepKeeps(s, run[0]);
      ClaimsWithinBudget(Next(s, run[0]), run[1..], id);
    }
  }

  lemma BudgetNat(s: State, id: nat)
    requires Valid(s)
    ensures Budget(s, id) >= 0
  {
  }

  /** A row is tried at most three times in a run without overlapping workers. */
  lemma ThreeAttemptsAtMost(run: seq<Step>, id: nat)
    requires Steps(Start(), run) && forall i :: 0 <= i < |run| ==> IsPrompt(run[i])
    ensures ClaimsOf(run, id) <= 3
  {
    ClaimsWithinBudget(Start(), run, id);
  }

  // --- When a finished row comes back ---

  predicate Finished(s: State, id: nat) { id in s.jobs && !Active(s.jobs[id]) }

  /** The retry branch of a worker that still holds the row, while no other row of its key is active. */
  predicate Revives(s: State, step: Step, id: nat)
    requires Enabled(s, step) && id in s.jobs
  {
    && step.FailStep? && s.workers[step.w].id == id && s.workers[step.w].attempts + 1 < MAX_JOB_ATTEMPTS
         && step.retryable
    && KeyFree(s.jobs, s.jobs[id].key, id)
  }

  /** A step makes a finished row active exactly in that branch. */
  lemma RevivedExactly(s: State, step: Step, id: nat)
    requires Valid(s) && Enabled(s, step) && Finished(s, id)
    ensures id in Next(s, step).jobs && Active(Next(s, step).jobs[id]) <==> Revives(s, step, id)
  {
  }

  /** Without overlap no worker holds a finished row, and no statement changes it. */
  lemma PromptLeavesFinished(s: State, step: Step, id: nat)
    requires Valid(s) && Owned(s) && Enabled(s, step) && IsPrompt(step) && Finished(s, id)
    ensures id in Next(s, step).jobs ==> Next(s, step).jobs[id] == s.jobs[id]
  {
    hide UniqueActive;
  }

  /** In a run without overlapping workers a finished row keeps every column for as long as it exists. */
  lemma {:induction false} FinishedStays(s: State, run: seq<Step>, id: nat)
    requires Valid(s) && Owned(s) && Steps(s, run) && Finished(s, id)
    requires forall i :: 0 <= i < |run| ==> IsPrompt(run[i])
    ensures id in After(s, run).jobs ==> After(s, run).jobs[id] == s.jobs[id]
    decreases |run|
  {
    hide Valid, Owned, Next, Enabled, IsPrompt;
    if run != [] {
      var r := Next(s, run[0]);
      assert IsPrompt(run[0]);
      PromptLeavesFinished(s, run[0], id);
      PromptOwned(s, run[0]);
      StepKeeps(s, run[0]);
      if id in r.jobs {
        FinishedStays(r, run[1..], id);
      } else {
        KnownId(s, run[0], id);
        GoneForGood(r, run[1..], id);
      }
    }
  }

  lemma KnownId(s: State, step: Step, id: nat)
    requires Valid(s) && Enabled(s, step) && id in s.jobs
    ensures id < Next(s, step).nextId
  {
  }

  /**
    With overlap a finished row may come back: its first worker, thought stalled, fails after the second
    completed it.
   */
  lemma LateWorkerRevives(key: nat)
    ensures var finished := [InsertStep(key, 0, 1), ClaimNowStep(7, 0, 1), RecoverStep(600002),
        ClaimNowStep(8, 0, 600003),
        CompleteStep(8)];
      && Steps(Start(), finished) && 0 in After(Start(), finished).jobs
           && After(Start(), finished).jobs[0].status == Completed
      && var late := FailStep(7, true, 600009, 0);
         Enabled(After(Start(), finished), late) && 0 in Next(After(Start(), finished), late).jobs
         && Next(After(Start(), finished), late).jobs[0].status == Queued
  {
    var run := [InsertStep(key, 0, 1), ClaimNowStep(7, 0, 1), RecoverStep(600002), ClaimNowStep(8, 0, 600003),
        CompleteStep(8)];
    var late := Held(0, 0, true);
    var s1 := State(map[0 := Job(key, Queued, 0, 0, 1, 0, None)], 1, map[]);
    var s2 := State(map[0 := Job(key, Running, 0, 0, 1, 1, None)], 1, map[7 := late]);
    var s3 := State(map[0 := Job(key, Queued, 0, 0, 1, 1, None)], 1, map[7 := late]);
    var s4 := State(map[0 := Job(key, Running, 0, 0, 1, 600003, None)], 1, map[7 := late, 8 := late]);
    var s5 := State(map[0 := Job(key, Completed, 0, 0, 1, 600003, None)], 1, map[7 := late]);
    assert Next(Start(), run[0]) == s1;
    assert Next(s1, run[1]) == s2;
    assert Next(s2, run[2]) == s3;
    assert Next(s3, run[3]) == s4;
    assert Next(s4, run[4]) == s5;
    Five(Start(), run, s1, s2, s3, s4, s5);
  }

  lemma Five(s: State, run: seq<Step>, s1: State, s2: State, s3: State, s4: State, s5: State)
    requires |run| == 5
    requires Enabled(s, run[0]) && Next(s, run[0]) == s1 && Enabled(s1, run[1]) && Next(s1, run[1]) == s2
    requires Enabled(s2, run[2]) && Next(s2, run[2]) == s3 && Enabled(s3, run[3]) && Next(s3, run[3]) == s4
    requires Enabled(s4, run[4]) && Next(s4, run[4]) == s5
    ensures Steps(s, run) && After(s, run) == s5
  {
    hide Next, Enabled;
    assert Steps(s5, []) && After(s5, []) == s5;
    assert run[4..] == [run[4]] && run[4..][1..] == [];
    assert Steps(s4, run[4..]) && After(s4, run[4..]) == s5;
    assert run[3..][1..] == run[4..] && run[3..][0] == run[3];
    assert Steps(s3, run[3..]) && After(s3, run[3..]) == s5;
    assert run[2..][1..] == run[3..] && run[2..][0] == run[2];
    assert Steps(s2, run[2..]) && After(s2, run[2..]) == s5;
    assert run[1..][1..] == run[2..] && run[1..][0] == run[1];
    assert Steps(s1, run[1..]) && After(s1, run[1..]) == s5;
  }

  // --- The table and its statements ---

  /** Which waiting row goes first. */
  predicate Sooner(a: Job, i: nat, b: Job, j: nat) {
    a.priority > b.priority || (a.priority == b.priority
        && (a.requestedAt < b.requestedAt || (a.requestedAt == b.requestedAt && i < j)))
  }

  /** The table as one statement finds it. */
  datatype Table = Table(jobs: map<nat, Job>, nextId: nat)

  ghost predicate TableOk(t: Table) { UniqueActive(t.jobs) && forall i :: i in t.jobs ==> i < t.nextId }

  predicate Free(t: Table, key: nat) { KeyFree(t.jobs, key, t.nextId) }

  /** An attempt that settles nothing: its SELECT finds no active row, and its INSERT meets one. */
  predicate Lost(views: nat -> Table, key: nat, attempt: nat) {
    Free(views(2 * attempt), key) && !Free(views(2 * attempt + 1), key)
  }

  function Inserted(t: Table, key: nat, priority: int, now: nat): Table {
    var s := Insert(State(t.jobs, t.nextId, map[]), key, priority, now);
    Table(s.jobs, s.nextId)
  }

  function Raised(t: Table, id: nat,
      priority: int): Table { t.(jobs := Promote(State(t.jobs, 0, map[]), id, priority).jobs) }

  datatype Outcome = Added(id: nat) | Kept(id: nat) | Unsettled

  /** What the loop may end with in its `attempt`th turn, every turn before it being lost. */
  predicate Settles(views: nat -> Table, key: nat, priority: int, now: nat, attempt: nat, outcome: Outcome,
      after: Table)
  {
    var seen, found := views(2 * attempt), views(2 * attempt + 1);
    match outcome
    case Added(id) =>
      Free(seen, key) && Free(found, key) && id == found.nextId && after == Inserted(found, key, priority, now)
    case Kept(id) =>
      id in seen.jobs && seen.jobs[id].key == key && Active(seen.jobs[id])
      && after == if seen.jobs[id].priority < priority then Raised(found, id, priority) else seen
    case Unsettled => attempt == 2 && Lost(views, key, 2) && after == Inserted(found, key, priority, now)
  }

  /** A row that is queued, and not put off until after `now`. */
  predicate DueBy(j: Job, now: nat) { j.status == Queued && !(j.retryAfter.Some? && now < j.retryAfter.value) }

  class JobTable {
    var jobs: map<nat, Job>
    var nextId: nat

    function Model(): Table
      reads this
    {
      Table(jobs, nextId)
    }

    method FindActive(key: nat) returns (found: Option<nat>)
      requires TableOk(Model())
      ensures found.None? <==> Free(Model(), key)
      ensures found.Some? ==> found.value in jobs && jobs[found.value].key == key && Active(jobs[found.value])
    {
      var rest := jobs.Keys;
      while rest != {}
        invariant rest <= jobs.Keys
        invariant forall i :: i in jobs && i !in rest && jobs[i].key == key ==> !Active(jobs[i])
        decreases |rest|
      {
        var i :| i in rest;
        rest := rest - {i};
        if jobs[i].key == key && Active(jobs[i]) { return Some(i); }
      }
      found := None;
    }

    /**
      `queueUnique`. `views` is the table as each of its statements finds it: before every one of them
      other processes may have committed anything. An active row is kept, and promoted while it waits;
      otherwise a row is added; and after three lost attempts the call gives up.
     */
    method QueueUnique(key: nat, priority: int, now: nat, views: nat -> Table) returns (outcome: Outcome, attempt: nat)
      requires forall k :: TableOk(views(k))
      modifies this
      ensures attempt < 3 && forall k :: 0 <= k < attempt ==> Lost(views, key, k)
      ensures Settles(views, key, priority, now, attempt, outcome, Model()) && TableOk(Model())
      ensures views(0) == views(1) ==> attempt == 0 && !outcome.Unsettled?
    {
      hide TableOk, Free, Inserted, Raised;
      attempt := 0;
      while attempt < 3
        invariant attempt <= 3 && forall k :: 0 <= k < attempt ==> Lost(views, key, k)
        invariant views(0) == views(1) ==> attempt == 0
        invariant attempt == 3 ==> Model() == Inserted(views(5), key, priority, now) && TableOk(Model())
      {
        assert TableOk(views(2 * attempt)) && TableOk(views(2 * attempt + 1));
        jobs, nextId := views(2 * attempt).jobs, views(2 * attempt).nextId;
        var existing := FindActive(key);
        if existing.Some? {
          if jobs[existing.value].priority < priority {
            jobs, nextId := views(2 * attempt + 1).jobs, views(2 * attempt + 1).nextId;
            Raise(existing.value, priority);
          }
          return Kept(existing.value), attempt;
        }
        jobs, nextId := views(2 * attempt + 1).jobs, views(2 * attempt + 1).nextId;
        var id := InsertJob(key, priority, now);
        if id.Some? { return Added(id.value), attempt; }
        attempt := attempt + 1;
      }
      outcome, attempt := Unsettled, 2;
    }

    method Raise(id: nat, priority: int)
      requires TableOk(Model())
      modifies this
      ensures Model() == Raised(old(Model()), id, priority) && TableOk(Model())
    {
      if id in jobs && jobs[id].status == Queued && jobs[id].priority < priority {
        jobs := jobs[id := jobs[id].(priority := priority)];
      }
    }

    /** INSERT … ON CONFLICT DO NOTHING RETURNING id. */
    method InsertJob(key: nat, priority: int, now: nat) returns (id: Option<nat>)
      requires TableOk(Model())
      modifies this
      ensures id == if Free(old(Model()), key) then Some(old(nextId)) else None
      ensures Model() == Inserted(old(Model()), key, priority, now) && TableOk(Model())
    {
      id := None;
      if KeyFree(jobs, key, nextId) {
        id := Some(nextId);
        jobs := jobs[nextId := Job(key, Queued, priority, 0, now, 0, None)];
      }
      nextId := nextId + 1;
    }

    /** The worker's SELECT: of the rows that may run now, the first by priority, request time and id. */
    method FindReady(now: nat) returns (found: Option<nat>)
      ensures found.None? ==> forall i :: i in jobs ==> !DueBy(jobs[i], now)
      ensures found.Some? ==> found.value in jobs && DueBy(jobs[found.value], now)
      ensures found.Some? ==>
                forall i :: i in jobs && DueBy(jobs[i], now) ==>
                  && jobs[i].priority <= jobs[found.value].priority
                  && (jobs[i].priority == jobs[found.value].priority ==>
                        && jobs[found.value].requestedAt <= jobs[i].requestedAt
                        && (jobs[found.value].requestedAt == jobs[i].requestedAt ==> found.value <= i))
    {
      found := None;
      var rest := jobs.Keys;
      while rest != {}
        invariant rest <= jobs.Keys
        invariant found.None? ==> forall i :: i in jobs && i !in rest ==> !Ready(jobs[i], now)
        invariant found.Some? ==> found.value in jobs && Ready(jobs[found.value], now)
        invariant found.Some? ==> forall i ::
            i in jobs && i !in rest && i != found.value && Ready(jobs[i], now)
            ==> Sooner(jobs[found.value], found.value, jobs[i], i)
        decreases |rest|
      {
        var i :| i in rest;
        rest := rest - {i};
        if Ready(jobs[i], now) && (found.None? || Sooner(jobs[i], i, jobs[found.value], found.value)) {
          found := Some(i);
        }
      }
    }
  }
}
