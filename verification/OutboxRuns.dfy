/**
  What the outbox owes a notification over whole runs (server/notifications.ts): it is queued, delivered
  at most as often as attempts allow, never before it is due, and stays delivered.
 */
module OutboxRuns {
  import opened Options
  import opened Outbox

  // --- Queueing ---

  predicate IdsOk(s: State) { forall id :: id in s.rows ==> id < s.nextId }

  lemma IdsKept(s: State, step: Step)
    requires IdsOk(s) && Enabled(s, step)
    ensures IdsOk(Next(s, step))
  {
  }

  lemma {:induction false} IdsRun(s: State, run: seq<Step>)
    requires IdsOk(s) && Steps(s, run)
    ensures IdsOk(After(s, run))
    decreases |run|
  {
    hide IdsOk, Next, Enabled;
    if run != [] {
      IdsKept(s, run[0]);
      IdsRun(Next(s, run[0]), run[1..]);
    }
  }

  /**
    In every run a notification gets a row of its own, due at once, unless it is a failure of which one with
    its key was queued in the last half hour: then nothing is written to the table.
   */
  lemma NotificationGetsRow(run: seq<Step>, key: Option<string>, now: nat)
    requires Steps(Start(), run) && Enabled(After(Start(), run), EnqueueStep(key, now))
    ensures var s := After(Start(), run);
            var r := Next(s, EnqueueStep(key, now));
            if key.Some? && exists i ::
                0 <= i < |s.queued| && s.queued[i].key == key.value && now < s.queued[i].at + 1800000
            then r.rows == s.rows && r.nextId == s.nextId && r.dedupes == s.dedupes
            else s.nextId !in s.rows && r.rows == s.rows[s.nextId := Row(Queued, 0, now, now, 0)]
                 && r.nextId == s.nextId + 1
  {
    IdsRun(Start(), run);
    if key.Some? {
      QueuedExactlyWhenClear(run, key.value, now);
      Written(After(Start(), run), key.value, now);
    }
    hide After, Steps;
  }

  /** The row and the history entry of a failure are written together. */
  lemma Written(s: State, key: string, now: nat)
    ensures var r := Enqueue(s, Some(key), now);
            r.queued == s.queued <==> r.rows == s.rows && r.nextId == s.nextId && r.dedupes == s.dedupes
    ensures var r := Enqueue(s, Some(key), now);
            r.queued != s.queued ==> r.rows == s.rows[s.nextId := Row(Queued, 0, now, now, 0)]
                                     && r.nextId == s.nextId + 1
  {
    assert (s.queued + [Queueing(key, now)])[|s.queued|] == Queueing(key, now);
    assert |s.queued + [Queueing(key, now)]| != |s.queued|;
  }

  /** The clock is where the latest step with a time left it. */
  lemma ClockKeepsUp(s: State, step: Step)
    requires Enabled(s, step)
    ensures s.clock <= Next(s, step).clock
    ensures (step.EnqueueStep? || step.MaintainStep? || step.RecoverStep? || step.ClaimStep? || step.FailStep?)
            ==> Next(s, step).clock == step.now
  {
  }

  /** Maintenance deletes only windows that are over, and finished rows. */
  lemma MaintenanceSpares(s: State, now: nat, aged: set<nat>)
    ensures var r := Maintain(s, now, aged);
      && (forall key :: key in r.dedupes <==> key in s.dedupes && now <= s.dedupes[key])
      && (forall key :: key in r.dedupes ==> r.dedupes[key] == s.dedupes[key])
      && (forall id :: id in r.rows ==> id in s.rows && r.rows[id] == s.rows[id])
      && (forall id :: id in s.rows && id !in r.rows
            ==> id in aged && s.rows[id].status != Queued && s.rows[id].status != Running)
      && (forall id ::
            id in s.rows && id in aged && s.rows[id].status in {Sent, Failed, Skipped} ==> id !in r.rows)
  {
  }

  // --- One delivery ---

  /** The worker holds the row it claimed: it is being delivered, with the attempts the worker read. */
  predicate Delivers(s: State, w: nat, id: nat) {
    && w in s.workers && s.workers[w].claimed && s.workers[w].id == id
    && id in s.rows && s.rows[id].status == Running && s.rows[id].attempts == s.workers[w].attempts
  }

  /** A claim succeeds exactly while the row is queued; a worker that comes too late gives up. */
  lemma ClaimTakesRow(s: State, w: nat, now: nat)
    requires Enabled(s, ClaimStep(w, now))
    ensures var id, r := s.workers[w].id, Next(s, ClaimStep(w, now));
            if id in s.rows && s.rows[id].status == Queued
            then r.rows == s.rows[id := s.rows[id].(status := Running, startedAt := now)]
                 && w in r.workers && r.workers[w] == Held(id, s.workers[w].attempts, true)
            else r.rows == s.rows && w !in r.workers
  {
  }

  /** An attempt ends in one of four ways; only its own row changes, and the worker is free again. */
  lemma DeliveryEnds(s: State, w: nat, id: nat, now: nat)
    requires Delivers(s, w, id) && AttemptsOk(s) && s.clock <= now
    ensures Next(s, SentStep(w)).rows == s.rows[id := s.rows[id].(status := Sent)] && w !in Next(s, SentStep(w)).workers
    ensures Next(s, SkipStep(w)).rows == s.rows[id := s.rows[id].(status := Skipped)]
    ensures var r, n := Next(s, FailStep(w, now)), s.rows[id].attempts + 1;
      && w !in r.workers && id in r.rows && r.rows == s.rows[id := r.rows[id]] && r.rows[id].attempts == n
      && (n < 4 ==> r.rows[id].status == Queued
                    && r.rows[id].nextAttemptAt == now + if n == 1 then 15000 else if n == 2 then 60000 else 240000)
      && (n == 4 ==> r.rows[id].status == Failed)
  {
  }

  /** Nobody picks a row before its time: a quarter, one and four minutes after the first three failures. */
  lemma RetryIsNotDueBefore(s: State, w: nat, id: nat, now: nat, v: nat, later: nat)
    requires Delivers(s, w, id) && AttemptsOk(s) && s.clock <= now
    requires Enabled(Next(s, FailStep(w, now)), SeeStep(v, id, later))
    ensures later >= now + if s.rows[id].attempts == 0 then 15000 else if s.rows[id].attempts == 1 then 60000
        else 240000
  {
    DeliveryEnds(s, w, id, now);
  }

  /** The recovery queues exactly the rows in delivery for more than ten minutes, due at once. */
  lemma RecoveryFreesStalled(s: State, now: nat, id: nat)
    requires Enabled(s, RecoverStep(now)) && id in s.rows
    ensures var r, stalled := Next(s, RecoverStep(now)), s.rows[id].status == Running
        && now - s.rows[id].startedAt > 600000;
      && r.rows.Keys == s.rows.Keys && r.workers == s.workers
      && r.rows[id] == if stalled then s.rows[id].(status := Queued, nextAttemptAt := now) else s.rows[id]
  {
  }

  // --- Delivered for good ---

  /** Without a recovery every worker with a claim delivers a row of its own. */
  ghost predicate Owned(s: State) {
    && (forall w :: w in s.workers && s.workers[w].claimed && s.workers[w].id in s.rows
          ==> s.rows[s.workers[w].id].status == Running)
    && (forall v, w :: v in s.workers && w in s.workers && v != w && s.workers[v].claimed && s.workers[w].claimed
          ==> s.workers[v].id != s.workers[w].id)
    && (forall w :: w in s.workers ==> s.workers[w].id < s.nextId)
    && IdsOk(s)
  }

  /** A claimed row that was deleted has left its id behind for good, so no second claim can name it. */
  lemma OwnedKept(s: State, step: Step)
    requires Owned(s) && ClaimedExist(s) && Enabled(s, step) && !step.RecoverStep?
    ensures Owned(Next(s, step)) && ClaimedExist(Next(s, step))
  {
    match step
    case EnqueueStep(key, now) => EnqueueOwned(s, key, now);
    case MaintainStep(now, aged) => MaintainOwned(s, now, aged);
    case ClaimStep(w, now) => ClaimOwned(s, w, now);
    case SentStep(w) => OutcomeOwned(s, step);
    case SkipStep(w) => OutcomeOwned(s, step);
    case FailStep(w, now) => OutcomeOwned(s, step);
    case SeeStep(_, _, _) =>
  }

  lemma EnqueueOwned(s: State, key: Option<string>, now: nat)
    requires Owned(s) && ClaimedExist(s)
    ensures Owned(Enqueue(s, key, now)) && ClaimedExist(Enqueue(s, key, now))
  {
    hide Admits;
  }

  lemma MaintainOwned(s: State, now: nat, aged: set<nat>)
    requires Owned(s) && ClaimedExist(s)
    ensures Owned(Maintain(s, now, aged)) && ClaimedExist(Maintain(s, now, aged))
  {
  }

  lemma ClaimOwned(s: State, w: nat, now: nat)
    requires Owned(s) && ClaimedExist(s) && w in s.workers
    ensures Owned(Claim(s, w, now)) && ClaimedExist(Claim(s, w, now))
  {
  }

  lemma OutcomeOwned(s: State, step: Step)
    requires Owned(s) && ClaimedExist(s) && Enabled(s, step) && (step.SentStep? || step.SkipStep? || step.FailStep?)
    ensures Owned(Next(s, step)) && ClaimedExist(Next(s, step))
  {
    hide Delay;
  }

  /** Rows in delivery are never deleted. */
  ghost predicate ClaimedExist(s: State) {
    forall w :: w in s.workers && s.workers[w].claimed ==> s.workers[w].id in s.rows
  }

  predicate Over(r: Row) { r.status == Sent || r.status == Failed || r.status == Skipped }

  lemma OverKept(s: State, step: Step, id: nat)
    requires Owned(s) && Enabled(s, step) && !step.RecoverStep? && id in s.rows && Over(s.rows[id])
    ensures id in Next(s, step).rows ==> Next(s, step).rows[id] == s.rows[id]
    ensures id < Next(s, step).nextId
  {
  }

  lemma GoneKept(s: State, step: Step, id: nat)
    requires Enabled(s, step) && id !in s.rows && id < s.nextId
    ensures id !in Next(s, step).rows && id < Next(s, step).nextId
  {
  }

  lemma {:induction false} GoneForGood(s: State, run: seq<Step>, id: nat)
    requires Steps(s, run) && id !in s.rows && id < s.nextId
    ensures id !in After(s, run).rows
    decreases |run|
  {
    hide Next, Enabled;
    if run != [] {
      GoneKept(s, run[0], id);
      GoneForGood(Next(s, run[0]), run[1..], id);
    }
  }

  /** Until a recovery a delivered, skipped or failed notification stays as it is for as long as its row exists. */
  lemma {:induction false} DeliveredStays(s: State, run: seq<Step>, id: nat)
    requires Owned(s) && ClaimedExist(s) && Steps(s, run) && id in s.rows && Over(s.rows[id])
    requires forall i :: 0 <= i < |run| ==> !run[i].RecoverStep?
    ensures id in After(s, run).rows ==> After(s, run).rows[id] == s.rows[id]
    decreases |run|
  {
    hide Owned, ClaimedExist, Next, Enabled;
    if run != [] {
      OwnedKept(s, run[0]);
      OverKept(s, run[0], id);
      if id in Next(s, run[0]).rows {
        DeliveredStays(Next(s, run[0]), run[1..], id);
      } else {
        GoneForGood(Next(s, run[0]), run[1..], id);
      }
    }
  }

  /**
    With recoveries a step queues a finished notification again exactly when a worker that still holds it
    fails early.
   */
  lemma RevivedExactly(s: State, step: Step, id: nat)
    requires Enabled(s, step) && id in s.rows && Over(s.rows[id]) && IdsOk(s)
    ensures id in Next(s, step).rows && !Over(Next(s, step).rows[id])
            <==> step.FailStep? && s.workers[step.w].id == id && s.workers[step.w].attempts + 1 < 4
  {
  }

  lemma NoSteps(s: State)
    ensures Steps(s, []) && After(s, []) == s
  {
  }

  lemma Prepend(s: State, step: Step, rest: seq<Step>, r: State) returns (run: seq<Step>)
    requires Enabled(s, step) && Next(s, step) == r && Steps(r, rest)
    ensures run == [step] + rest && Steps(s, run) && After(s, run) == After(r, rest)
  {
    hide Enabled, Next;
    run := [step] + rest;
    assert run[1..] == rest;
  }

  /**
    And then it is: the first worker, thought stalled, fails after the second has delivered the notification,
    which will be sent once more.
   */
  lemma LateFailureSendsAgain()
    ensures var sent := [EnqueueStep(None, 1), SeeStep(7, 0, 1), ClaimStep(7, 1), RecoverStep(600002),
                         SeeStep(8, 0, 600002), ClaimStep(8, 600002), SentStep(8)];
            var late := FailStep(7, 600003);
      && Steps(Start(), sent) && Enabled(After(Start(), sent), late)
      && 0 in After(Start(), sent).rows && After(Start(), sent).rows[0].status == Sent
      && 0 in Next(After(Start(), sent), late).rows && Next(After(Start(), sent), late).rows[0].status == Queued
  {
    var s1 := State(map[], map[0 := Row(Queued, 0, 1, 1, 0)], 1, map[], 1, []);
    var s2 := s1.(workers := map[7 := Held(0, 0, false)]);
    var s3 := s1.(rows := map[0 := Row(Running, 0, 1, 1, 1)], workers := map[7 := Held(0, 0, true)]);
    var s4 := s3.(rows := map[0 := Row(Queued, 0, 600002, 1, 1)], clock := 600002);
    var s5 := s4.(workers := map[7 := Held(0, 0, true), 8 := Held(0, 0, false)]);
    var s6 := s5.(rows := map[0 := Row(Running, 0, 600002, 1, 600002)],
                  workers := map[7 := Held(0, 0, true), 8 := Held(0, 0, true)]);
    var s7 := s6.(rows := map[0 := Row(Sent, 0, 600002, 1, 600002)], workers := map[7 := Held(0, 0, true)]);
    FirstAttempt(s1, s2, s3, s4);
    SecondAttempt(s4, s5, s6, s7);
    LateFailure(s7);
    hide *;
    NoSteps(s7);
    var r6 := Prepend(s6, SentStep(8), [], s7);
    var r5 := Prepend(s5, ClaimStep(8, 600002), r6, s6);
    var r4 := Prepend(s4, SeeStep(8, 0, 600002), r5, s5);
    var r3 := Prepend(s3, RecoverStep(600002), r4, s4);
    var r2 := Prepend(s2, ClaimStep(7, 1), r3, s3);
    var r1 := Prepend(s1, SeeStep(7, 0, 1), r2, s2);
    var r0 := Prepend(Start(), EnqueueStep(None, 1), r1, s1);
    assert r0 == [EnqueueStep(None, 1), SeeStep(7, 0, 1), ClaimStep(7, 1), RecoverStep(600002),
                  SeeStep(8, 0, 600002), ClaimStep(8, 600002), SentStep(8)];
  }

  lemma FirstAttempt(s1: State, s2: State, s3: State, s4: State)
    requires s1 == State(map[], map[0 := Row(Queued, 0, 1, 1, 0)], 1, map[], 1, [])
    requires s2 == s1.(workers := map[7 := Held(0, 0, false)])
    requires s3 == s1.(rows := map[0 := Row(Running, 0, 1, 1, 1)], workers := map[7 := Held(0, 0, true)])
    requires s4 == s3.(rows := map[0 := Row(Queued, 0, 600002, 1, 1)], clock := 600002)
    ensures Enabled(Start(), EnqueueStep(None, 1)) && Next(Start(), EnqueueStep(None, 1)) == s1
    ensures Enabled(s1, SeeStep(7, 0, 1)) && Next(s1, SeeStep(7, 0, 1)) == s2
    ensures Enabled(s2, ClaimStep(7, 1)) && Next(s2, ClaimStep(7, 1)) == s3
    ensures Enabled(s3, RecoverStep(600002)) && Next(s3, RecoverStep(600002)) == s4
  {
  }

  lemma SecondAttempt(s4: State, s5: State, s6: State, s7: State)
    requires s4 == State(map[], map[0 := Row(Queued, 0, 600002, 1, 1)], 1, map[7 := Held(0, 0, true)], 600002, [])
    requires s5 == s4.(workers := map[7 := Held(0, 0, true), 8 := Held(0, 0, false)])
    requires s6 == s5.(rows := map[0 := Row(Running, 0, 600002, 1, 600002)],
                       workers := map[7 := Held(0, 0, true), 8 := Held(0, 0, true)])
    requires s7 == s6.(rows := map[0 := Row(Sent, 0, 600002, 1, 600002)], workers := map[7 := Held(0, 0, true)])
    ensures Enabled(s4, SeeStep(8, 0, 600002)) && Next(s4, SeeStep(8, 0, 600002)) == s5
    ensures Enabled(s5, ClaimStep(8, 600002)) && Next(s5, ClaimStep(8, 600002)) == s6
    ensures Enabled(s6, SentStep(8)) && Next(s6, SentStep(8)) == s7
  {
  }

  lemma LateFailure(s: State)
    requires s.rows == map[0 := Row(Sent, 0, 600002, 1, 600002)] && s.workers == map[7 := Held(0, 0, true)]
    requires s.clock == 600002
    ensures Enabled(s, FailStep(7, 600003)) && 0 in s.rows && s.rows[0].status == Sent
    ensures 0 in Next(s, FailStep(7, 600003)).rows && Next(s, FailStep(7, 600003)).rows[0].status == Queued
  {
  }
}
