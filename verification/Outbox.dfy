/**
  The notification outbox (server/notifications.ts): the window that drops repeated failures, and
  the delivery attempts with their growing delays.
 */
module Outbox {
  import opened Options

  const DEDUPE_WINDOW_MS := 30 * 60000
  const RETRY_DELAYS_MS: seq<nat> := [15000, 60000, 4 * 60000]
  const MAX_DELIVERY_ATTEMPTS := 4
  const STALLED_MS := 10 * 60000

  datatype Status = Queued | Running | Sent | Failed | Skipped

  datatype Row = Row(status: Status, attempts: nat, nextAttemptAt: nat, createdAt: nat, startedAt: nat)

  /** What a delivery read when it picked its row. */
  datatype Held = Held(id: nat, attempts: nat, claimed: bool)

  /** `queued` is history: the failure notifications that were queued, with their dedupe keys and times. */
  datatype Queueing = Queueing(key: string, at: nat)

  datatype State = State(dedupes: map<string, nat>, rows: map<nat, Row>, nextId: nat, workers: map<nat, Held>,
      clock: nat, queued: seq<Queueing>)

  /** The conditional upsert changes a row only when the window before has passed. */
  predicate Admits(dedupes: map<string, nat>, key: string, now: nat) { key !in dedupes || dedupes[key] <= now }

  /** `enqueueNotification`, for an event that is switched on: a failure carries a dedupe key. */
  function Enqueue(s: State, key: Option<string>, now: nat): State {
    if key.Some? && !Admits(s.dedupes, key.value, now) then s.(clock := now)
    else s.(dedupes := if key.Some? then s.dedupes[key.value := now + DEDUPE_WINDOW_MS] else s.dedupes,
            rows := s.rows[s.nextId := Row(Queued, 0, now, now, 0)], nextId := s.nextId + 1, clock := now,
            queued := if key.Some? then s.queued + [Queueing(key.value, now)] else s.queued)
  }

  /** Hourly maintenance: expired windows and old finished rows go. */
  function Maintain(s: State, now: nat, aged: set<nat>): State {
    s.(dedupes := map key | key in s.dedupes && now <= s.dedupes[key] :: s.dedupes[key],
       rows := map id | id in s.rows && !(id in aged && Finished(s.rows[id])) :: s.rows[id], clock := now)
  }

  predicate Finished(r: Row) { r.status == Sent || r.status == Failed || r.status == Skipped }

  function Recovered(r: Row, now: nat): Row {
    if r.status == Running && r.startedAt + STALLED_MS < now then r.(status := Queued, nextAttemptAt := now) else r
  }

  function Recover(s: State, now: nat): State {
    s.(rows := map id | id in s.rows :: Recovered(s.rows[id], now), clock := now)
  }

  function Claim(s: State, w: nat, now: nat): State
    requires w in s.workers
  {
    var id := s.workers[w].id;
    if id in s.rows && s.rows[id].status == Queued then
      s.(rows := s.rows[id := s.rows[id].(status := Running, startedAt := now)],
          workers := s.workers[w := s.workers[w].(claimed := true)], clock := now)
    else s.(workers := s.workers - {w}, clock := now)
  }

  function Settle(s: State, w: nat, status: Status): State
    requires w in s.workers
  {
    var id := s.workers[w].id;
    s.(rows := if id in s.rows then s.rows[id := s.rows[id].(status := status)] else s.rows, workers := s.workers - {w})
  }

  /** A failed delivery: the attempt is written from what the worker read, by id alone. */
  function FailDelivery(s: State, w: nat, now: nat): State
    requires w in s.workers
  {
    var id, attempt := s.workers[w].id, s.workers[w].attempts + 1;
    var row := if id in s.rows then s.rows[id] else Row(Failed, 0, 0, 0, 0);
    var written := if attempt < MAX_DELIVERY_ATTEMPTS
      then row.(status := Queued, attempts := attempt, nextAttemptAt := now + Delay(attempt))
      else row.(status := Failed, attempts := attempt);
    s.(rows := if id in s.rows then s.rows[id := written] else s.rows, workers := s.workers - {w}, clock := now)
  }

  /** The delay table is read at `attempt - 1`. */
  function Delay(attempt: nat): nat { if 0 < attempt <= |RETRY_DELAYS_MS| then RETRY_DELAYS_MS[attempt - 1] else 0 }

  datatype Step =
    | EnqueueStep(key: Option<string>, now: nat)
    | MaintainStep(now: nat, aged: set<nat>)
    | RecoverStep(now: nat)
    | SeeStep(w: nat, id: nat, now: nat)
    | ClaimStep(w: nat, now: nat)
    | SentStep(w: nat)
    | SkipStep(w: nat)
    | FailStep(w: nat, now: nat)

  /** What the worker's SELECT lists. */
  predicate Due(r: Row, now: nat) { r.status == Queued && r.nextAttemptAt <= now }

  /** Clocks do not run back, whichever process a step runs in. */
  predicate Enabled(s: State, step: Step) {
    match step
    case EnqueueStep(_, now) => s.clock <= now
    case MaintainStep(now, _) => s.clock <= now
    case RecoverStep(now) => s.clock <= now
    case SeeStep(w, id, now) => w !in s.workers && id in s.rows && Due(s.rows[id], now)
    case ClaimStep(w, now) => w in s.workers && !s.workers[w].claimed && s.clock <= now
    case SentStep(w) => w in s.workers && s.workers[w].claimed
    case SkipStep(w) => w in s.workers && s.workers[w].claimed
    case FailStep(w, now) => w in s.workers && s.workers[w].claimed && s.clock <= now
  }

  function Next(s: State, step: Step): State
    requires Enabled(s, step)
  {
    match step
    case EnqueueStep(key, now) => Enqueue(s, key, now)
    case MaintainStep(now, aged) => Maintain(s, now, aged)
    case RecoverStep(now) => Recover(s, now)
    case SeeStep(w, id, _) => s.(workers := s.workers[w := Held(id, s.rows[id].attempts, false)])
    case ClaimStep(w, now) => Claim(s, w, now)
    case SentStep(w) => Settle(s, w, Sent)
    case SkipStep(w) => Settle(s, w, Skipped)
    case FailStep(w, now) => FailDelivery(s, w, now)
  }

  ghost predicate Steps(s: State, run: seq<Step>)
    decreases |run|
  {
    run == [] || (Enabled(s, run[0]) && Steps(Next(s, run[0]), run[1..]))
  }

  function After(s: State, run: seq<Step>): State
    requires Steps(s, run)
    decreases |run|
  {
    if run == [] then s else After(Next(s, run[0]), run[1..])
  }

  function Start(): State { State(map[], map[], 0, map[], 0, []) }

  // --- Invariants ---

  predicate RowOk(r: Row) {
    r.attempts <= MAX_DELIVERY_ATTEMPTS
        && (r.status == Queued || r.status == Running ==> r.attempts < MAX_DELIVERY_ATTEMPTS)
  }

  ghost predicate AttemptsOk(s: State) {
    && (forall id :: id in s.rows ==> RowOk(s.rows[id]))
    && (forall w :: w in s.workers ==> s.workers[w].attempts < MAX_DELIVERY_ATTEMPTS)
  }

  /** The window after a queued failure is over, or its key is still held until then. */
  predicate Guarded(s: State, q: Queueing) {
    q.at + DEDUPE_WINDOW_MS <= s.clock || (q.key in s.dedupes && q.at + DEDUPE_WINDOW_MS <= s.dedupes[q.key])
  }

  predicate Apart(a: Queueing, b: Queueing) { a.key == b.key ==> a.at + DEDUPE_WINDOW_MS <= b.at }

  ghost predicate WindowsOk(s: State) {
    && (forall i :: 0 <= i < |s.queued| ==> Guarded(s, s.queued[i]))
    && (forall i, j :: 0 <= i < j < |s.queued| ==> Apart(s.queued[i], s.queued[j]))
  }

  lemma AttemptsKept(s: State, step: Step)
    requires AttemptsOk(s) && Enabled(s, step)
    ensures AttemptsOk(Next(s, step))
  {
  }

  lemma WindowsKept(s: State, step: Step)
    requires WindowsOk(s) && Enabled(s, step)
    ensures WindowsOk(Next(s, step))
  {
    var r := Next(s, step);
    forall i | 0 <= i < |s.queued| ensures Guarded(r, s.queued[i]) {
      assert Guarded(s, s.queued[i]);
    }
  }

  lemma {:induction false} RunKeeps(s: State, run: seq<Step>)
    requires AttemptsOk(s) && WindowsOk(s) && Steps(s, run)
    ensures AttemptsOk(After(s, run)) && WindowsOk(After(s, run))
    decreases |run|
  {
    hide AttemptsOk, WindowsOk, Next, Enabled;
    if run != [] {
      AttemptsKept(s, run[0]);
      WindowsKept(s, run[0]);
      RunKeeps(Next(s, run[0]), run[1..]);
    }
  }

  /** Two failures with one dedupe key are queued at least half an hour apart, in every run. */
  lemma FailuresAreApart(run: seq<Step>, i: nat, j: nat)
    requires Steps(Start(), run)
    requires i < j < |After(Start(), run).queued|
        && After(Start(), run).queued[i].key == After(Start(), run).queued[j].key
    ensures After(Start(), run).queued[i].at + 30 * 60000 <= After(Start(), run).queued[j].at
  {
    RunKeeps(Start(), run);
    hide After, Steps;
    assert Apart(After(Start(), run).queued[i], After(Start(), run).queued[j]);
  }

  /**
    No attempt count passes four, and a failed delivery that is retried waits the delay its attempt has in
    the table.
   */
  lemma AttemptsAreBounded(run: seq<Step>, id: nat, w: nat, now: nat)
    requires Steps(Start(), run) && id in After(Start(), run).rows
    ensures var s := After(Start(), run);
      && s.rows[id].attempts <= 4
      && (Enabled(s, FailStep(w, now)) && s.workers[w].id == id ==>
            var attempt, r := s.workers[w].attempts + 1, Next(s, FailStep(w, now)).rows[id];
            if attempt == 4 then r.status == Failed
            else r.status == Queued && r.attempts == attempt
                 && r.nextAttemptAt == now + if attempt == 1 then 15000 else if attempt == 2 then 60000 else 240000)
  {
    RunKeeps(Start(), run);
    hide After, Steps;
  }

  /** Every window still held is that of a failure that was queued. */
  ghost predicate Explained(s: State) {
    forall key :: key in s.dedupes ==> Opened(s, key)
  }

  predicate Opened(s: State, key: string)
    requires key in s.dedupes
  {
    exists i :: 0 <= i < |s.queued| && s.queued[i].key == key && s.queued[i].at + DEDUPE_WINDOW_MS == s.dedupes[key]
  }

  lemma ExplainedKept(s: State, step: Step)
    requires Explained(s) && Enabled(s, step)
    ensures Explained(Next(s, step))
  {
    var r := Next(s, step);
    assert s.queued <= r.queued;
    forall key | key in r.dedupes ensures Opened(r, key) {
      if key in s.dedupes && r.dedupes[key] == s.dedupes[key] {
        assert Opened(s, key);
        var i :| 0 <= i < |s.queued| && s.queued[i].key == key && s.queued[i].at + DEDUPE_WINDOW_MS == s.dedupes[key];
        assert r.queued[i] == s.queued[i];
      } else {
        assert r.queued[|s.queued|].key == key;
      }
    }
  }

  lemma {:induction false} RunExplains(s: State, run: seq<Step>)
    requires Explained(s) && Steps(s, run)
    ensures Explained(After(s, run))
    decreases |run|
  {
    hide Explained, Next, Enabled;
    if run != [] {
      ExplainedKept(s, run[0]);
      RunExplains(Next(s, run[0]), run[1..]);
    }
  }

  /** No failure with the key was queued within the last half hour. */
  predicate Clear(queued: seq<Queueing>, key: string, now: nat) {
    forall i :: 0 <= i < |queued| && queued[i].key == key ==> queued[i].at + 30 * 60000 <= now
  }

  /**
    In every run, whatever maintenance deletes, a failure is queued exactly when none with its key was
    queued in the half hour before.
   */
  lemma QueuedExactlyWhenClear(run: seq<Step>, key: string, now: nat)
    requires Steps(Start(), run) && Enabled(After(Start(), run), EnqueueStep(Some(key), now))
    ensures var s := After(Start(), run);
            Next(s, EnqueueStep(Some(key), now)).queued == s.queued + if Clear(s.queued, key, now)
                then [Queueing(key, now)] else []
  {
    RunKeeps(Start(), run);
    RunExplains(Start(), run);
    hide After, Steps;
    var s := After(Start(), run);
    if key in s.dedupes {
      assert Opened(s, key);
    }
    assert forall i :: 0 <= i < |s.queued| ==> Guarded(s, s.queued[i]);
  }

  // --- The tables ---

  predicate Older(a: Row, i: nat, b: Row, j: nat) { a.createdAt < b.createdAt || (a.createdAt == b.createdAt && i < j) }

  class NotificationStore {
    var dedupes: map<string, nat>
    var rows: map<nat, Row>
    var nextId: nat

    /** Enqueues in the caller's transaction: the window first, then the row. */
    method EnqueueNotification(enabled: bool, key: Option<string>, now: nat)
        returns (queued: bool, deduped: bool, id: Option<nat>)
      requires nextId !in rows
      modifies this
      ensures !enabled ==> !queued && !deduped && dedupes == old(dedupes) && rows == old(rows)
      ensures enabled ==>
                && queued == !deduped
                && deduped == (key.Some? && key.value in old(dedupes) && now < old(dedupes)[key.value])
      ensures queued ==> rows == old(rows)[old(nextId) := Row(Queued, 0, now, now, 0)] && nextId == old(nextId) + 1
      ensures enabled ==> var after := Enqueue(State(old(dedupes), old(rows), old(nextId), map[], now, []), key, now);
              dedupes == after.dedupes && rows == after.rows && nextId == after.nextId
      ensures id == if queued then Some(old(nextId)) else None
    {
      queued, deduped, id := false, false, None;
      if !enabled { return; }
      if key.Some? {
        if key.value in dedupes && dedupes[key.value] > now { return false, true, None; }
        dedupes := dedupes[key.value := now + DEDUPE_WINDOW_MS];
      }
      rows := rows[nextId := Row(Queued, 0, now, now, 0)];
      queued, id := true, Some(nextId);
      nextId := nextId + 1;
    }

    /** The worker's SELECT: the oldest queued row that is due. */
    method FindDue(now: nat) returns (found: Option<nat>)
      ensures found.None? ==> forall i :: i in rows ==> rows[i].status != Queued || now < rows[i].nextAttemptAt
      ensures found.Some? ==>
                && found.value in rows && rows[found.value].status == Queued && rows[found.value].nextAttemptAt <= now
                && forall i :: i in rows && rows[i].status == Queued && rows[i].nextAttemptAt <= now ==>
                     && rows[found.value].createdAt <= rows[i].createdAt
                     && (rows[found.value].createdAt == rows[i].createdAt ==> found.value <= i)
    {
      found := None;
      var rest := rows.Keys;
      while rest != {}
        invariant rest <= rows.Keys
        invariant found.None? ==> forall i :: i in rows && i !in rest ==> !Due(rows[i], now)
        invariant found.Some? ==> found.value in rows && Due(rows[found.value], now)
        invariant found.Some? ==> forall i ::
            i in rows && i !in rest && i != found.value && Due(rows[i], now)
            ==> Older(rows[found.value], found.value, rows[i], i)
        decreases |rest|
      {
        var i :| i in rest;
        rest := rest - {i};
        if Due(rows[i], now) && (found.None? || Older(rows[i], i, rows[found.value], found.value)) {
          found := Some(i);
        }
      }
    }
  }
}
