/**
  What the work queues owe a job over whole runs (server/db.ts, server/worker.ts, server/retry.ts): it waits
  out its delay, a worker keeps the row it claimed, a stalled one is given up, and a call leaves one active row.
 */
module WorkQueueRuns {
  import opened Options
  import opened WorkQueue

  // --- A failed attempt ---

  /** The worker owns the row it claimed: it runs, with the attempts the worker read. */
  predicate Works(s: State, w: nat, id: nat) {
    && w in s.workers && s.workers[w].claimed && s.workers[w].id == id
    && id in s.jobs && s.jobs[id].status == Running && s.jobs[id].attempts == s.workers[w].attempts
  }

  /**
    The first two temporary failures put the row off, by half a minute and then by two, and at most five
    seconds more; the third, or a lasting one, fails it. Nothing else of the row changes, and the worker is free.
   */
  lemma FailureRetriesTwice(s: State, w: nat, id: nat, retryable: bool, now: nat, jitter: nat)
    requires Valid(s) && Works(s, w, id) && jitter <= 5000
    ensures var r, j := Next(s, FailStep(w, retryable, now, jitter)), s.jobs[id];
      && w !in r.workers && id in r.jobs && r.jobs[id].attempts == j.attempts + 1
      && r.jobs[id].key == j.key && r.jobs[id].priority == j.priority && r.jobs[id].requestedAt == j.requestedAt
      && (retryable && j.attempts < 2 ==>
            && r.jobs[id].status == Queued && r.jobs[id].retryAfter.Some?
            && var delay := r.jobs[id].retryAfter.value - now;
               if j.attempts == 0 then 30000 <= delay <= 35000 else 120000 <= delay <= 125000)
      && (!(retryable && j.attempts < 2) ==> r.jobs[id].status == Failed && r.jobs[id].retryAfter.None?)
      && forall x :: x != id ==> (x in r.jobs <==> x in s.jobs) && (x in s.jobs ==> r.jobs[x] == s.jobs[x])
  {
  }

  /** A finished attempt closes the row and frees the worker. */
  lemma SuccessCompletes(s: State, w: nat, id: nat)
    requires Valid(s) && Works(s, w, id)
    ensures var r := Next(s, CompleteStep(w));
      && r.jobs == s.jobs[id := s.jobs[id].(status := Completed, retryAfter := None)]
      && w !in r.workers && r.workers.Keys == s.workers.Keys - {w}
  {
  }

  // --- The delay before the next attempt ---

  /** The time of the first claim of the row in a run. */
  function FirstClaim(run: seq<Step>, id: nat): Option<nat> {
    if run == [] then None
    else if run[0].ClaimNowStep? && run[0].id == id then Some(run[0].now)
    else FirstClaim(run[1..], id)
  }

  /** The row is put off until `until`, or will never be claimed again. */
  predicate PutOff(s: State, id: nat, until: nat) {
    && id < s.nextId
    && (id in s.jobs ==> s.jobs[id].status == Completed || s.jobs[id].status == Failed
                         || (s.jobs[id].status == Queued && s.jobs[id].retryAfter == Some(until)))
  }

  lemma PutOffStays(s: State, step: Step, id: nat, until: nat)
    requires Valid(s) && Owned(s) && Enabled(s, step) && IsPrompt(step) && PutOff(s, id, until)
    requires !(step.ClaimNowStep? && step.id == id)
    ensures PutOff(Next(s, step), id, until)
  {
    hide UniqueActive;
  }

  lemma {:induction false} ClaimedWhenDue(s: State, run: seq<Step>, id: nat, until: nat)
    requires Valid(s) && Owned(s) && Steps(s, run) && PutOff(s, id, until)
    requires forall i :: 0 <= i < |run| ==> IsPrompt(run[i])
    ensures FirstClaim(run, id).Some? ==> FirstClaim(run, id).value >= until
    decreases |run|
  {
    hide Valid, Owned, Next, IsPrompt;
    if run != [] {
      assert IsPrompt(run[0]);
      if !(run[0].ClaimNowStep? && run[0].id == id) {
        hide Enabled, PutOff;
        PutOffStays(s, run[0], id, until);
        PromptOwned(s, run[0]);
        StepKeeps(s, run[0]);
        ClaimedWhenDue(Next(s, run[0]), run[1..], id, until);
      }
    }
  }

  /**
    Without overlapping workers a row that failed is not claimed again, in any run, before its delay is over:
    30 seconds after the first failure and two minutes after the second.
   */
  lemma RetryWaits(s: State, w: nat, id: nat, now: nat, jitter: nat, run: seq<Step>)
    requires Valid(s) && Owned(s) && Works(s, w, id) && jitter <= 5000
    requires Steps(Next(s, FailStep(w, true, now, jitter)), run) && forall i :: 0 <= i < |run| ==> IsPrompt(run[i])
    ensures FirstClaim(run, id).Some? ==>
              FirstClaim(run, id).value >= now + if s.jobs[id].attempts == 0 then 30000 else 120000
  {
    var step := FailStep(w, true, now, jitter);
    var r := Next(s, step);
    FailureRetriesTwice(s, w, id, true, now, jitter);
    PromptOwned(s, step);
    StepKeeps(s, step);
    hide Valid, Owned, Next, IsPrompt, Steps;
    var until := if r.jobs[id].retryAfter.Some? then r.jobs[id].retryAfter.value else now + 120000;
    KnownAfter(s, step, id);
    ClaimedWhenDue(r, run, id, until);
  }

  lemma KnownAfter(s: State, step: Step, id: nat)
    requires Valid(s) && Enabled(s, step) && id in s.jobs
    ensures id < Next(s, step).nextId
  {
    KnownId(s, step, id);
  }

  // --- The claim and the ten minutes after it ---

  /** A claim takes a waiting row for one worker, who knows its attempts; nobody else's row changes. */
  lemma ClaimTakesRow(s: State, w: nat, id: nat, now: nat)
    requires Enabled(s, ClaimNowStep(w, id, now))
    ensures var r := Next(s, ClaimNowStep(w, id, now));
      && Works(r, w, id) && r.jobs == s.jobs[id := s.jobs[id].(status := Running, startedAt := now, retryAfter := None)]
      && r.workers.Keys == s.workers.Keys + {w} && forall v :: v in s.workers ==> r.workers[v] == s.workers[v]
  {
  }

  /** Somebody else's statement came first: the worker gives up, and the table stays as it is. */
  lemma LateClaimDoesNothing(s: State, w: nat, now: nat)
    requires Enabled(s, ClaimStep(w, now))
    requires s.workers[w].id !in s.jobs || s.jobs[s.workers[w].id].status != Queued
    ensures Next(s, ClaimStep(w, now)) == s.(workers := s.workers - {w})
  {
  }

  /** Only worker `w` has read the row. */
  predicate SoleWorker(s: State, w: nat, id: nat) {
    w in s.workers && s.workers[w].claimed && s.workers[w].id == id
        && forall v :: v in s.workers && v != w ==> s.workers[v].id != id
  }

  /** Neither its worker nor a deletion ends row `id`, and no recovery comes more than ten minutes after `since`. */
  predicate LeavesRunning(step: Step, w: nat, id: nat, since: nat) {
    match step
    case CompleteStep(v) => v != w
    case FailStep(v, _, _, _) => v != w
    case DeleteStep(i) => i != id
    case RecoverStep(now) => now <= since + 10 * 60000
    case _ => true
  }

  lemma StillRunning(s: State, step: Step, w: nat, id: nat)
    requires Enabled(s, step) && id in s.jobs && s.jobs[id].status == Running && SoleWorker(s, w, id) && id < s.nextId
    requires LeavesRunning(step, w, id, s.jobs[id].startedAt)
    ensures var r := Next(s, step);
            id in r.jobs && r.jobs[id] == s.jobs[id] && SoleWorker(r, w, id) && id < r.nextId
  {
  }

  /** A worker keeps the row it claimed, whatever the others do, until it ends it or ten minutes have passed. */
  lemma {:induction false} ClaimLastsTenMinutes(s: State, w: nat, id: nat, run: seq<Step>)
    requires Steps(s, run) && id in s.jobs && s.jobs[id].status == Running && SoleWorker(s, w, id) && id < s.nextId
    requires forall i :: 0 <= i < |run| ==> LeavesRunning(run[i], w, id, s.jobs[id].startedAt)
    ensures id in After(s, run).jobs && After(s, run).jobs[id] == s.jobs[id] && SoleWorker(After(s, run), w, id)
    decreases |run|
  {
    hide Next, Enabled, LeavesRunning, SoleWorker;
    if run != [] {
      assert LeavesRunning(run[0], w, id, s.jobs[id].startedAt);
      StillRunning(s, run[0], w, id);
      ClaimLastsTenMinutes(Next(s, run[0]), w, id, run[1..]);
    }
  }

  /** From the claim on. */
  lemma ClaimedRowIsKept(s: State, w: nat, id: nat, now: nat, run: seq<Step>)
    requires Valid(s) && Enabled(s, ClaimNowStep(w, id, now)) && Steps(Next(s, ClaimNowStep(w, id, now)), run)
    requires forall v :: v in s.workers ==> s.workers[v].id != id
    requires forall i :: 0 <= i < |run| ==> LeavesRunning(run[i], w, id, now)
    ensures var r := After(Next(s, ClaimNowStep(w, id, now)), run);
            Works(r, w, id) && r.jobs[id].startedAt == now
  {
    var q := Next(s, ClaimNowStep(w, id, now));
    ClaimTakesRow(s, w, id, now);
    assert SoleWorker(q, w, id);
    hide Next, Steps, Enabled, LeavesRunning;
    ClaimLastsTenMinutes(q, w, id, run);
    WorkerStays(q, w, id, run);
  }

  lemma {:induction false} WorkerStays(s: State, w: nat, id: nat, run: seq<Step>)
    requires Steps(s, run) && w in s.workers && s.workers[w].claimed && s.workers[w].id == id
    requires forall i :: 0 <= i < |run| ==> LeavesRunning(run[i], w, id, 0) || run[i].RecoverStep? || run[i].DeleteStep?
    ensures w in After(s, run).workers && After(s, run).workers[w] == s.workers[w]
    decreases |run|
  {
    hide Next, Enabled;
    if run != [] {
      WorkerStep(s, w, run[0]);
      WorkerStays(Next(s, run[0]), w, id, run[1..]);
    }
  }

  lemma WorkerStep(s: State, w: nat, step: Step)
    requires Enabled(s, step) && w in s.workers && s.workers[w].claimed
    requires !(step.CompleteStep? && step.w == w) && !(step.FailStep? && step.w == w)
    ensures w in Next(s, step).workers && Next(s, step).workers[w] == s.workers[w]
  {
  }

  /** No row that runs, or failed, is put off. */
  predicate NotPutOff(s: State) {
    forall id :: id in s.jobs && (s.jobs[id].status == Running || s.jobs[id].status == Failed)
      ==> s.jobs[id].retryAfter.None?
  }

  lemma NotPutOffKept(s: State, step: Step)
    requires NotPutOff(s) && Enabled(s, step)
    ensures NotPutOff(Next(s, step))
  {
  }

  lemma {:induction false} NotPutOffRuns(s: State, run: seq<Step>)
    requires NotPutOff(s) && Steps(s, run)
    ensures NotPutOff(After(s, run))
    decreases |run|
  {
    hide Next, Enabled, NotPutOff;
    if run != [] {
      NotPutOffKept(s, run[0]);
      NotPutOffRuns(Next(s, run[0]), run[1..]);
    }
  }

  /**
    The recovery queues again exactly the rows that have run for more than ten minutes, with their attempts,
    and everyone may pick them at once. No other row changes.
   */
  lemma RecoveryFreesStalled(start: seq<Step>, now: nat, id: nat)
    requires Steps(Start(), start) && id in After(Start(), start).jobs
    ensures var s := After(Start(), start);
            var r, stalled := Next(s, RecoverStep(now)), s.jobs[id].status == Running
                && now - s.jobs[id].startedAt > 600000;
      && r.jobs.Keys == s.jobs.Keys && r.workers == s.workers
      && (stalled ==> r.jobs[id] == s.jobs[id].(status := Queued) && forall later :: Ready(r.jobs[id], later))
      && (!stalled ==> r.jobs[id] == s.jobs[id])
  {
    NotPutOffRuns(Start(), start);
    hide After, Steps;
  }

  /** Switching a rule off finishes the rows that wait and leaves those that run to their workers. */
  lemma CancelEndsWaiting(s: State, id: nat)
    requires id in s.jobs
    ensures var r := Next(s, CancelStep);
      && r.jobs.Keys == s.jobs.Keys && r.workers == s.workers
      && (s.jobs[id].status == Queued ==> r.jobs[id] == s.jobs[id].(status := Completed))
      && (s.jobs[id].status != Queued ==> r.jobs[id] == s.jobs[id])
  {
  }

  lemma DeleteRemoves(s: State, id: nat)
    ensures Next(s, DeleteStep(id)).jobs.Keys == s.jobs.Keys - {id}
    ensures forall x :: x in s.jobs && x != id ==> Next(s, DeleteStep(id)).jobs[x] == s.jobs[x]
  {
  }

  // --- One enqueue ---

  /** The row is active and belongs to the key. */
  predicate ActiveFor(t: Table, key: nat, id: nat) {
    id in t.jobs && t.jobs[id].key == key && (t.jobs[id].status == Queued || t.jobs[id].status == Running)
  }

  /** What one call returns, without naming its statements. */
  lemma EnqueueMeans(views: nat -> Table, key: nat, priority: int, now: nat, attempt: nat, outcome: Outcome,
      after: Table)
    requires (forall k :: TableOk(views(k))) && Settles(views, key, priority, now, attempt, outcome, after)
    ensures var seen, found := views(2 * attempt), views(2 * attempt + 1);
      match outcome
      case Added(id) =>
        && (forall i :: !ActiveFor(found, key, i)) && id == found.nextId < after.nextId && id !in found.jobs
        && after.jobs == found.jobs[id := Job(key, Queued, priority, 0, now, 0, None)]
      case Kept(id) =>
        && ActiveFor(seen, key, id) && (forall i :: ActiveFor(seen, key, i) ==> i == id)
        && (seen.jobs[id].priority >= priority ==> after == seen)
        && (seen.jobs[id].priority < priority ==>
              && after.jobs.Keys == found.jobs.Keys
              && forall i :: i in found.jobs ==>
                   after.jobs[i] == if i == id && found.jobs[i].status == Queued && found.jobs[i].priority < priority
                                    then found.jobs[i].(priority := priority) else found.jobs[i])
      case Unsettled => attempt == 2 && after.jobs == found.jobs && exists i :: ActiveFor(found, key, i)
  {
    var seen, found := views(2 * attempt), views(2 * attempt + 1);
    assert TableOk(seen) && TableOk(found);
    match outcome
    case Added(id) => NoneActive(found, key);
    case Kept(id) =>
    case Unsettled =>
      SomeActive(found, key);
  }

  lemma NoneActive(t: Table, key: nat)
    requires TableOk(t) && Free(t, key)
    ensures (forall i :: !ActiveFor(t, key, i)) && t.nextId !in t.jobs
  {
  }

  lemma SomeActive(t: Table, key: nat)
    requires !Free(t, key)
    ensures exists i :: ActiveFor(t, key, i)
  {
    var i :| i in t.jobs && i != t.nextId && t.jobs[i].key == key && Active(t.jobs[i]);
    assert ActiveFor(t, key, i);
  }

  /** Undisturbed, a call leaves exactly one active row for its key; one that waits has at least the asked priority. */
  lemma EnqueueLeavesOneActive(t: Table, key: nat, priority: int, now: nat, attempt: nat, outcome: Outcome,
      after: Table) returns (id: nat)
    requires TableOk(t) && Settles(_ => t, key, priority, now, attempt, outcome, after) && !outcome.Unsettled?
    ensures ActiveFor(after, key, id) && (forall i :: ActiveFor(after, key, i) ==> i == id)
    ensures after.jobs[id].status == Queued ==> after.jobs[id].priority >= priority
    ensures forall i :: i in t.jobs && i != id ==> i in after.jobs && after.jobs[i] == t.jobs[i]
  {
    EnqueueMeans(_ => t, key, priority, now, attempt, outcome, after);
    hide Settles, TableOk;
    id := outcome.id;
  }
}
