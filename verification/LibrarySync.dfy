/**
  The leased library-sync job (server/db.ts, server/library-worker.ts, server/routes/settings.ts,
  server/postgres-schema.ts).

  Every statement that touches the table is one step. What a process read before its statement may be
  long out of date, so any process may issue any statement for any row it could have seen; only the
  WHERE clauses and the unique index on the active marker decide.
 */
module LibrarySync {
  import opened Options

  datatype Status = Queued | Running | Completed | Failed

  datatype Row = Row(status: Status, manual: bool, priority: int, heartbeatAt: nat, progress: nat)

  const LEASE_MS := 5 * 60000

  predicate Active(r: Row) { r.status == Queued || r.status == Running }

  predicate AnyActive(rows: seq<Row>) { exists i :: 0 <= i < |rows| && Active(rows[i]) }

  /** INSERT … ON CONFLICT (active_marker) DO NOTHING. A row's id is its place in the table. */
  function Insert(rows: seq<Row>, manual: bool, priority: int): seq<Row> {
    if AnyActive(rows) then rows else rows + [Row(Queued, manual, priority, 0, 0)]
  }

  /** UPDATE … WHERE id = ? AND status = ?. */
  predicate Hits(rows: seq<Row>, id: nat, status: Status) { id < |rows| && rows[id].status == status }

  function Promote(rows: seq<Row>, id: nat, priority: int): seq<Row> {
    if Hits(rows, id, Queued) && rows[id].priority < priority
        then rows[id := rows[id].(priority := priority, manual := true)] else rows
  }

  function Claim(rows: seq<Row>, id: nat, now: nat): seq<Row> {
    if Hits(rows, id, Queued) then rows[id := rows[id].(status := Running, heartbeatAt := now)] else rows
  }

  function Renew(rows: seq<Row>, id: nat, now: nat): seq<Row> {
    if Hits(rows, id, Running) then rows[id := rows[id].(heartbeatAt := now)] else rows
  }

  function Report(rows: seq<Row>, id: nat, progress: nat): seq<Row> {
    if Hits(rows, id, Running) then rows[id := rows[id].(progress := progress)] else rows
  }

  function Finish(rows: seq<Row>, id: nat, status: Status): seq<Row> {
    if Hits(rows, id, Running) then rows[id := rows[id].(status := status)] else rows
  }

  predicate Stale(r: Row, now: nat) { r.status == Running && r.heartbeatAt + LEASE_MS < now }

  function Recovered(r: Row, now: nat): Row { if Stale(r, now) then r.(status := Failed) else r }

  function Recover(rows: seq<Row>, now: nat): (after: seq<Row>)
    ensures |after| == |rows| && forall i :: 0 <= i < |rows| ==> after[i] == Recovered(rows[i], now)
  {
    seq(|rows|, i requires 0 <= i < |rows| => Recovered(rows[i], now))
  }

  function Cancelled(r: Row): Row { if r.status == Queued then r.(status := Completed) else r }

  function Disable(rows: seq<Row>): (after: seq<Row>)
    ensures |after| == |rows| && forall i :: 0 <= i < |rows| ==> after[i] == Cancelled(rows[i])
  {
    seq(|rows|, i requires 0 <= i < |rows| => Cancelled(rows[i]))
  }

  /**
    `claims`, `notified` and `recovered` are history: the rows in the order of their claims, the rows
    whose worker queued a failure notification, and the rows whose lease was taken away.
   */
  datatype State = State(rows: seq<Row>, claims: seq<nat>, notified: seq<nat>, recovered: set<nat>)

  datatype Step =
    | InsertStep(manual: bool, priority: int)
    | PromoteStep(id: nat, priority: int)
    | ClaimStep(id: nat, now: nat)
    | RenewStep(id: nat, now: nat)
    | ReportStep(id: nat, progress: nat)
    | CompleteStep(id: nat)
    | FailStep(id: nat)
    | RecoverStep(now: nat)
    | DisableStep

  function Next(s: State, step: Step): State {
    match step
    case InsertStep(manual, priority) => s.(rows := Insert(s.rows, manual, priority))
    case PromoteStep(id, priority) => s.(rows := Promote(s.rows, id, priority))
    case ClaimStep(id, now) => s.(rows := Claim(s.rows, id, now), claims := if Hits(s.rows, id, Queued)
        then s.claims + [id] else s.claims)
    case RenewStep(id, now) => s.(rows := Renew(s.rows, id, now))
    case ReportStep(id, progress) => s.(rows := Report(s.rows, id, progress))
    case CompleteStep(id) => s.(rows := Finish(s.rows, id, Completed))
    case FailStep(id) => s.(rows := Finish(s.rows, id, Failed), notified := if Hits(s.rows, id, Running)
        then s.notified + [id] else s.notified)
    case RecoverStep(now) =>
      s.(rows := Recover(s.rows, now), recovered := s.recovered + set i | 0 <= i < |s.rows| && Stale(s.rows[i], now))
    case DisableStep => s.(rows := Disable(s.rows))
  }

  function After(s: State, run: seq<Step>): State
    decreases |run|
  {
    if run == [] then s else After(Next(s, run[0]), run[1..])
  }

  // --- The invariant ---

  predicate OneActive(rows: seq<Row>) {
    forall i, j :: 0 <= i < j < |rows| ==> !(Active(rows[i]) && Active(rows[j]))
  }

  predicate NoRepeats(list: seq<nat>) { forall i, j :: 0 <= i < j < |list| ==> list[i] != list[j] }

  /** A row is claimed once it is no longer waiting, and never again; only its worker's failure is notified. */
  predicate HistoryOk(s: State) {
    && NoRepeats(s.claims) && NoRepeats(s.notified)
    && (forall id :: id in s.claims ==> id < |s.rows| && s.rows[id].status != Queued)
    && (forall id :: 0 <= id < |s.rows| && s.rows[id].status == Running ==> id in s.claims)
    && (forall id ::
         id in s.notified ==> id < |s.rows| && s.rows[id].status == Failed && id !in s.recovered && id in s.claims)
    && (forall id :: id in s.recovered ==> id < |s.rows| && s.rows[id].status == Failed)
  }

  predicate Valid(s: State) { OneActive(s.rows) && HistoryOk(s) }

  /** What a statement may do to a row: a finished row stays as it is, a running one is never queued again. */
  predicate Forward(a: Row, b: Row) {
    && (!Active(a) ==> b == a)
    && (a.status == Running ==> b.status != Queued)
    && (b.status == Queued ==> a.status == Queued)
    && (b.status == Running && a.status == Running ==> b.priority == a.priority)
    && a.priority <= b.priority
  }

  lemma StepMovesForward(s: State, step: Step, id: nat)
    requires id < |s.rows|
    ensures id < |Next(s, step).rows| && Forward(s.rows[id], Next(s, step).rows[id])
  {
  }

  lemma OneActiveKept(s: State, step: Step)
    requires OneActive(s.rows)
    ensures OneActive(Next(s, step).rows)
  {
  }

  lemma HistoryKept(s: State, step: Step)
    requires HistoryOk(s)
    ensures HistoryOk(Next(s, step))
  {
    var r := Next(s, step);
    forall id | 0 <= id < |s.rows| ensures id < |r.rows| && Forward(s.rows[id], r.rows[id]) {
      StepMovesForward(s, step, id);
    }
  }

  lemma {:induction false} RunKeeps(s: State, run: seq<Step>)
    requires Valid(s)
    ensures Valid(After(s, run))
    decreases |run|
  {
    hide Next, OneActive, HistoryOk;
    if run != [] {
      OneActiveKept(s, run[0]);
      HistoryKept(s, run[0]);
      RunKeeps(Next(s, run[0]), run[1..]);
    }
  }

  function Start(): State { State([], [], [], {}) }

  /** In every run at most one row is active, and no row is claimed or notified twice. */
  lemma OneSyncAtATime(run: seq<Step>)
    ensures var s := After(Start(), run);
      && OneActive(s.rows) && NoRepeats(s.claims) && NoRepeats(s.notified)
      && (forall id :: id in s.notified ==> id in s.claims && id !in s.recovered)
  {
    RunKeeps(Start(), run);
  }

  /** A finished row keeps every column for the rest of the run. */
  lemma {:induction false} FinishedForever(s: State, run: seq<Step>, id: nat)
    requires id < |s.rows| && !Active(s.rows[id])
    ensures id < |After(s, run).rows| && After(s, run).rows[id] == s.rows[id]
    decreases |run|
  {
    hide Next;
    if run != [] {
      StepMovesForward(s, run[0], id);
      FinishedForever(Next(s, run[0]), run[1..], id);
    }
  }

  /** Once its lease is taken away, nothing its worker still does can finish the row or notify its failure. */
  lemma RecoveredWorkerIsPowerless(start: seq<Step>, run: seq<Step>, id: nat)
    requires id in After(Start(), start).recovered
    ensures var s, r := After(Start(), start), After(After(Start(), start), run);
            id < |s.rows| && id < |r.rows| && s.rows[id].status == Failed && r.rows[id] == s.rows[id]
                && id !in r.notified
  {
    RunKeeps(Start(), start);
    RunKeeps(After(Start(), start), run);
    StaysRecovered(After(Start(), start), run, id);
    FinishedForever(After(Start(), start), run, id);
  }

  lemma {:induction false} StaysRecovered(s: State, run: seq<Step>, id: nat)
    requires id in s.recovered
    ensures id in After(s, run).recovered
    decreases |run|
  {
    if run != [] {
      StaysRecovered(Next(s, run[0]), run[1..], id);
    }
  }

  /**
    In a run that finds job `id` running with its last heartbeat at `last`: a recovery comes more than a
    lease after the worker's latest heartbeat, before the worker has ended its job.
   */
  predicate Lapses(run: seq<Step>, id: nat, last: nat) {
    run != [] &&
    match run[0]
    case CompleteStep(i) => i != id && Lapses(run[1..], id, last)
    case FailStep(i) => i != id && Lapses(run[1..], id, last)
    case RenewStep(i, now) => Lapses(run[1..], id, if i == id then now else last)
    case RecoverStep(now) => last + 5 * 60000 < now || Lapses(run[1..], id, last)
    case _ => Lapses(run[1..], id, last)
  }

  /** One step of a run that finds the job running and not recovered. */
  lemma LeaseStep(s: State, step: Step, id: nat)
    requires id < |s.rows| && s.rows[id].status == Running && id !in s.recovered
    ensures var r := Next(s, step);
      && id < |r.rows|
      && (step.RecoverStep? && s.rows[id].heartbeatAt + 5 * 60000 < step.now <==> id in r.recovered)
      && (step == CompleteStep(id) || step == FailStep(id) ==> !Active(r.rows[id]))
      && (step != CompleteStep(id) && step != FailStep(id) && id !in r.recovered ==>
            r.rows[id].status == Running
            && r.rows[id].heartbeatAt == if step.RenewStep? && step.id == id then step.now else s.rows[id].heartbeatAt)
  {
  }

  lemma {:induction false} FinishedNotRecovered(s: State, run: seq<Step>, id: nat)
    requires id < |s.rows| && !Active(s.rows[id]) && id !in s.recovered
    ensures id !in After(s, run).recovered
    decreases |run|
  {
    if run != [] {
      StepMovesForward(s, run[0], id);
      FinishedNotRecovered(Next(s, run[0]), run[1..], id);
    }
  }

  /**
    A running job loses its lease in a run exactly when its worker, not done yet, stays silent for more than
    five minutes before some recovery.
   */
  lemma {:induction false} RecoveredExactly(s: State, run: seq<Step>, id: nat)
    requires id < |s.rows| && s.rows[id].status == Running && id !in s.recovered
    ensures id in After(s, run).recovered <==> Lapses(run, id, s.rows[id].heartbeatAt)
    decreases |run|
  {
    hide Next;
    if run != [] {
      var r := Next(s, run[0]);
      LeaseStep(s, run[0], id);
      if id in r.recovered {
        StaysRecovered(r, run[1..], id);
      } else if run[0] == CompleteStep(id) || run[0] == FailStep(id) {
        FinishedNotRecovered(r, run[1..], id);
      } else {
        RecoveredExactly(r, run[1..], id);
      }
    }
  }

  /** Every recovery comes within a lease of the latest heartbeat before it. */
  predicate BeatsInTime(run: seq<Step>, id: nat, last: nat) {
    run == [] ||
    match run[0]
    case RenewStep(i, now) => BeatsInTime(run[1..], id, if i == id then now else last)
    case RecoverStep(now) => now <= last + 5 * 60000 && BeatsInTime(run[1..], id, last)
    case _ => BeatsInTime(run[1..], id, last)
  }

  lemma {:induction false} InTimeNeverLapses(run: seq<Step>, id: nat, last: nat)
    requires BeatsInTime(run, id, last)
    ensures !Lapses(run, id, last)
    decreases |run|
  {
    if run != [] {
      InTimeNeverLapses(run[1..], id,
          match run[0] case RenewStep(i, now) => (if i == id then now else last) case _ => last);
    }
  }

  /** A worker that beats within every five minutes is never recovered, and its job runs until it ends it itself. */
  lemma SteadyWorkerIsKept(s: State, run: seq<Step>, id: nat)
    requires id < |s.rows| && s.rows[id].status == Running && id !in s.recovered
        && BeatsInTime(run, id, s.rows[id].heartbeatAt)
    ensures id !in After(s, run).recovered && id < |After(s, run).rows|
    ensures CompleteStep(id) !in run && FailStep(id) !in run ==> After(s, run).rows[id].status == Running
  {
    InTimeNeverLapses(run, id, s.rows[id].heartbeatAt);
    RecoveredExactly(s, run, id);
    RunsUntilEnded(s, run, id);
  }

  lemma {:induction false} RunsUntilEnded(s: State, run: seq<Step>, id: nat)
    requires id < |s.rows| && s.rows[id].status == Running && id !in s.recovered
        && !Lapses(run, id, s.rows[id].heartbeatAt)
    ensures id < |After(s, run).rows|
    ensures CompleteStep(id) !in run && FailStep(id) !in run ==> After(s, run).rows[id].status == Running
    decreases |run|
  {
    hide Next;
    if run != [] {
      var r := Next(s, run[0]);
      LeaseStep(s, run[0], id);
      if run[0] == CompleteStep(id) || run[0] == FailStep(id) {
        FinishedForever(r, run[1..], id);
      } else {
        RunsUntilEnded(r, run[1..], id);
        assert run == [run[0]] + run[1..];
      }
    }
  }

  // --- From the enqueue and the claim on ---

  /** A claim of a waiting row: the worker has the row, and its lease starts now. */
  lemma ClaimTakesJob(s: State, id: nat, now: nat)
    requires Valid(s) && Hits(s.rows, id, Queued)
    ensures var r := Next(s, ClaimStep(id, now));
      && id < |r.rows| && r.rows[id].status == Running && r.rows[id].heartbeatAt == now
      && id !in r.recovered && r.claims == s.claims + [id]
  {
  }

  /**
    From its claim at `now` on a job is recovered in a run exactly when its worker, not done yet, is silent
    for more than five minutes before some recovery.
   */
  lemma ClaimedRecoveredExactly(s: State, run: seq<Step>, id: nat, now: nat)
    requires Valid(s) && Hits(s.rows, id, Queued)
    ensures id in After(Next(s, ClaimStep(id, now)), run).recovered <==> Lapses(run, id, now)
  {
    ClaimTakesJob(s, id, now);
    RecoveredExactly(Next(s, ClaimStep(id, now)), run, id);
  }

  /** A claimed job whose worker beats within every five minutes runs until the worker ends it. */
  lemma ClaimedJobIsKept(s: State, run: seq<Step>, id: nat, now: nat)
    requires Valid(s) && Hits(s.rows, id, Queued) && BeatsInTime(run, id, now)
    ensures var r := After(Next(s, ClaimStep(id, now)), run);
      && id !in r.recovered && id < |r.rows|
      && (CompleteStep(id) !in run && FailStep(id) !in run ==> r.rows[id].status == Running)
  {
    ClaimTakesJob(s, id, now);
    SteadyWorkerIsKept(Next(s, ClaimStep(id, now)), run, id);
  }

  /** No step of the run starts or ends row `id`, and no recovery or switch-off comes. */
  predicate LeavesStatus(run: seq<Step>, id: nat) {
    forall k :: 0 <= k < |run| ==>
      match run[k]
      case ClaimStep(i, _) => i != id
      case CompleteStep(i) => i != id
      case FailStep(i) => i != id
      case RecoverStep(_) => false
      case DisableStep => false
      case _ => true
  }

  /** The highest priority asked for: by the enqueue, and by each later one that found the row waiting. */
  function Highest(run: seq<Step>, id: nat, priority: int): int {
    if run == [] then priority
    else Highest(run[1..], id,
           if run[0].PromoteStep? && run[0].id == id && run[0].priority > priority then run[0].priority else priority)
  }

  /** What the latest report of the worker of row `id` said. */
  function Latest(run: seq<Step>, id: nat, progress: nat): nat {
    if run == [] then progress
    else Latest(run[1..], id, if run[0].ReportStep? && run[0].id == id then run[0].progress else progress)
  }

  /** A waiting row rises to the highest priority asked for, and counts as manual once it has been raised. */
  lemma {:induction false} WaitsAtHighest(s: State, run: seq<Step>, id: nat)
    requires Hits(s.rows, id, Queued) && LeavesStatus(run, id)
    ensures var r := After(s, run);
      && Hits(r.rows, id, Queued) && r.rows[id].priority == Highest(run, id, s.rows[id].priority)
      && (r.rows[id].manual <==> s.rows[id].manual || r.rows[id].priority != s.rows[id].priority)
    decreases |run|
  {
    if run != [] {
      WaitingStep(s, run[0], id, run);
      hide Next;
      NeverLower(run, id, s.rows[id].priority);
      NeverLower(run[1..], id, Next(s, run[0]).rows[id].priority);
      WaitsAtHighest(Next(s, run[0]), run[1..], id);
    }
  }

  lemma WaitingStep(s: State, step: Step, id: nat, run: seq<Step>)
    requires Hits(s.rows, id, Queued) && run != [] && run[0] == step && LeavesStatus(run, id)
    ensures var r := Next(s, step);
      && Hits(r.rows, id, Queued) && LeavesStatus(run[1..], id)
      && r.rows[id].priority == (if step.PromoteStep? && step.id == id && step.priority > s.rows[id].priority
                                 then step.priority else s.rows[id].priority)
      && (r.rows[id].manual <==> s.rows[id].manual || r.rows[id].priority != s.rows[id].priority)
  {
  }

  lemma {:induction false} NeverLower(run: seq<Step>, id: nat, priority: int)
    ensures Highest(run, id, priority) >= priority
    decreases |run|
  {
    if run != [] {
      NeverLower(run[1..], id,
          if run[0].PromoteStep? && run[0].id == id && run[0].priority > priority then run[0].priority else priority);
    }
  }

  /** A running row shows what its worker reported last. */
  lemma {:induction false} ShowsLatest(s: State, run: seq<Step>, id: nat)
    requires Hits(s.rows, id, Running) && LeavesStatus(run, id)
    ensures Hits(After(s, run).rows, id, Running)
    ensures After(s, run).rows[id].progress == Latest(run, id, s.rows[id].progress)
    decreases |run|
  {
    if run != [] {
      RunningStep(s, run[0], id, run);
      hide Next;
      ShowsLatest(Next(s, run[0]), run[1..], id);
    }
  }

  lemma RunningStep(s: State, step: Step, id: nat, run: seq<Step>)
    requires Hits(s.rows, id, Running) && run != [] && run[0] == step && LeavesStatus(run, id)
    ensures Hits(Next(s, step).rows, id, Running) && LeavesStatus(run[1..], id)
    ensures Next(s, step).rows[id].progress
            == if step.ReportStep? && step.id == id then step.progress else s.rows[id].progress
  {
  }

  /**
    An enqueue leaves one active row. It adds it, waiting and as asked, exactly when there was none, and no
    row that was there changes.
   */
  lemma InsertAddsOne(s: State, manual: bool, priority: int)
    requires Valid(s)
    ensures var r := Next(s, InsertStep(manual, priority));
      && (exists id :: 0 <= id < |r.rows| && Active(r.rows[id]))
      && r.rows[..|s.rows|] == s.rows
      && (|r.rows| > |s.rows| <==> forall id :: 0 <= id < |s.rows| ==> !Active(s.rows[id]))
      && (|r.rows| > |s.rows| ==> |r.rows| == |s.rows| + 1 && r.rows[|s.rows|].status == Queued
                                  && r.rows[|s.rows|].manual == manual && r.rows[|s.rows|].priority == priority)
  {
    var r := Next(s, InsertStep(manual, priority));
    if !AnyActive(s.rows) {
      assert Active(r.rows[|s.rows|]);
    }
  }

  /** Switching the sync off ends the row that waits, and leaves one that runs to its worker. */
  lemma DisableEndsWaiting(s: State, id: nat)
    requires id < |s.rows|
    ensures var r := Next(s, DisableStep);
      && |r.rows| == |s.rows| && r.rows[id].status != Queued
      && (s.rows[id].status == Queued ==> r.rows[id] == s.rows[id].(status := Completed))
      && (s.rows[id].status != Queued ==> r.rows[id] == s.rows[id])
  {
  }

  /** Each worker ends its running row as it says; the failure is notified with the same statement. */
  lemma WorkerEnds(s: State, id: nat)
    requires Hits(s.rows, id, Running)
    ensures Next(s, CompleteStep(id)).rows[id].status == Completed
    ensures Next(s, FailStep(id)).rows[id].status == Failed && id in Next(s, FailStep(id)).notified
  {
    assert (s.notified + [id])[|s.notified|] == id;
  }

  // --- The table and its statements ---

  /** An attempt that settles nothing: its SELECT finds no active job, and its INSERT meets one. */
  predicate Lost(views: nat -> seq<Row>, attempt: nat) {
    !AnyActive(views(2 * attempt)) && AnyActive(views(2 * attempt + 1))
  }

  datatype Outcome = Added(id: nat) | Kept(id: nat) | Unsettled

  /** The newest active row of a table: the one an enqueue finds. */
  predicate IsNewest(rows: seq<Row>, id: nat) { id < |rows| && Active(rows[id]) && forall i ::
      id < i < |rows| ==> !Active(rows[i]) }

  /** What the loop may end with in its `attempt`th turn, every turn before it being lost. */
  predicate Settles(views: nat -> seq<Row>, manual: bool, priority: int, attempt: nat, outcome: Outcome,
      after: seq<Row>)
  {
    var seen, found := views(2 * attempt), views(2 * attempt + 1);
    match outcome
    case Added(id) => !AnyActive(seen) && !AnyActive(found) && id == |found| && after == Insert(found, manual, priority)
    case Kept(id) =>
      IsNewest(seen, id) && after == if seen[id].status == Queued && seen[id].priority < priority
          then Promote(found, id, priority) else seen
    case Unsettled => attempt == 2 && Lost(views, 2) && after == found
  }

  class SyncTable {
    var rows: seq<Row>

    /** The row an enqueue finds active: the newest. */
    method FindActive() returns (found: Option<nat>)
      ensures found.Some? ==> IsNewest(rows, found.value)
      ensures found.None? <==> !AnyActive(rows)
    {
      found := None;
      var i := |rows|;
      while i > 0
        invariant 0 <= i <= |rows|
        invariant forall k :: i <= k < |rows| ==> !Active(rows[k])
      {
        i := i - 1;
        if Active(rows[i]) { return Some(i); }
      }
    }

    /**
      `queueLibrarySyncJob`. `views` is the table as each of its statements finds it: before every one of
      them other processes may have committed anything. An active job is kept, and promoted while it
      waits; otherwise one is added; and after three lost attempts the call gives up.
     */
    method Queue(manual: bool, priority: int, views: nat -> seq<Row>) returns (outcome: Outcome, attempt: nat)
      requires forall k :: OneActive(views(k))
      modifies this
      ensures attempt < 3 && forall k :: 0 <= k < attempt ==> Lost(views, k)
      ensures Settles(views, manual, priority, attempt, outcome, rows) && OneActive(rows)
      ensures views(0) == views(1) ==> attempt == 0 && !outcome.Unsettled?
    {
      hide OneActive, AnyActive;
      attempt := 0;
      while attempt < 3
        invariant attempt <= 3 && forall k :: 0 <= k < attempt ==> Lost(views, k)
        invariant views(0) == views(1) ==> attempt == 0
        invariant attempt == 3 ==> rows == views(5) && OneActive(rows)
      {
        rows := views(2 * attempt);
        var existing := FindActive();
        if existing.Some? {
          var id := existing.value;
          if rows[id].status == Queued && rows[id].priority < priority {
            rows := views(2 * attempt + 1);
            Raise(id, priority);
          }
          return Kept(id), attempt;
        }
        rows := views(2 * attempt + 1);
        var id := InsertJob(manual, priority);
        if id.Some? { return Added(id.value), attempt; }
        attempt := attempt + 1;
      }
      outcome, attempt := Unsettled, 2;
    }

    method Raise(id: nat, priority: int)
      requires OneActive(rows)
      modifies this
      ensures rows == Promote(old(rows), id, priority) && OneActive(rows)
    {
      if id < |rows| && rows[id].status == Queued && rows[id].priority < priority {
        rows := rows[id := rows[id].(priority := priority, manual := true)];
      }
    }

    /** INSERT … ON CONFLICT (active_marker) DO NOTHING RETURNING id. */
    method InsertJob(manual: bool, priority: int) returns (id: Option<nat>)
      requires OneActive(rows)
      modifies this
      ensures id == if AnyActive(old(rows)) then None else Some(|old(rows)|)
      ensures rows == Insert(old(rows), manual, priority) && OneActive(rows)
    {
      if AnyActive(rows) { return None; }
      id := Some(|rows|);
      rows := rows + [Row(Queued, manual, priority, 0, 0)];
    }

    /** A conditional update: the worker goes on only if it changed the row. */
    method TryClaim(id: nat, now: nat) returns (changes: bool)
      modifies this
      ensures rows == Claim(old(rows), id, now) && changes == Hits(old(rows), id, Queued)
    {
      changes := id < |rows| && rows[id].status == Queued;
      if changes { rows := rows[id := rows[id].(status := Running, heartbeatAt := now)]; }
    }

    method TryFinish(id: nat, status: Status) returns (changes: bool)
      requires status == Completed || status == Failed
      modifies this
      ensures rows == Finish(old(rows), id, status) && changes == Hits(old(rows), id, Running)
    {
      changes := id < |rows| && rows[id].status == Running;
      if changes { rows := rows[id := rows[id].(status := status)]; }
    }

    method RecoverStale(now: nat) returns (changes: nat)
      modifies this
      ensures rows == Recover(old(rows), now)
      ensures changes == |set i | 0 <= i < |old(rows)| && Stale(old(rows)[i], now)|
    {
      var before := rows;
      var after := [];
      var hit: set<nat> := {};
      for i := 0 to |before|
        invariant after == Recover(before[..i], now)
        invariant hit == set k | 0 <= k < i && Stale(before[k], now)
      {
        if before[i].status == Running && before[i].heartbeatAt + LEASE_MS < now { hit := hit + {i}; }
        after := after + [Recovered(before[i], now)];
        assert Recover(before[..i + 1], now) == Recover(before[..i], now) + [Recovered(before[i], now)];
      }
      assert before[..|before|] == before;
      rows := after;
      changes := |hit|;
    }
  }
}
