/**
  The completion marker of a download (server/download-worker.ts, server/db.ts,
  server/download-notification.ts).

  An observer reads an unfinished entry, asks the download client, and later writes what it learnt
  together with the claim of the completion. What it read may be stale by then: only the marker in the
  row decides. Entries are independent, so one entry is modelled.
 */
module Downloads {

  datatype Status = QueuedDownload | Added | Waiting | Downloading | Paused | Filtered | Removed | FailedDownload | Done

  /** `notified` is the completion marker of the row. */
  datatype Entry = Entry(status: Status, notified: bool)

  /** `claims` and `resets` are history. */
  datatype State = State(entry: Entry, observers: map<nat, Entry>, claims: nat, resets: nat)

  predicate ShouldEnqueue(previous: Status, next: Status, notified: bool) { next == Done && previous != Done
      && !notified }

  /** The claim: wanted by what the observer read, granted by the row. */
  predicate Claims(s: State, seen: Entry, next: Status) { ShouldEnqueue(seen.status, next, seen.notified)
      && !s.entry.notified }

  /** The row is written only when something changed since it was read; a new status is always a change. */
  predicate Writes(seen: Entry, next: Status, changed: bool) { changed || next != seen.status }

  function Report(s: State, seen: Entry, next: Status, changed: bool): State {
    var status := if Writes(seen, next, changed) then next else s.entry.status;
    if Claims(s, seen, next) then s.(entry := Entry(status, true), claims := s.claims + 1)
    else s.(entry := s.entry.(status := status))
  }

  datatype Step =
    | Observe(o: nat)
    | Write(o: nat, next: Status, changed: bool)
    | Enqueue(keepsStatus: bool)
    | Submit(next: Status)
    | SubmissionFails(next: Status)

  /** The rows an observer reads; completed ones are never read again. */
  predicate Observed(status: Status) { status == Added || status == Waiting || status == Downloading
      || status == Paused }

  predicate Enabled(s: State, step: Step) {
    match step
    case Observe(_) => Observed(s.entry.status)
    case Write(o, _, _) => o in s.observers
    case Enqueue(_) => true
    case Submit(next) => next == Added || next == Waiting || next == Filtered
    case SubmissionFails(next) => next == QueuedDownload || next == FailedDownload || next == Filtered
  }

  /**
    A queued download and a submission clear the marker: a new cycle begins. A download that was filtered
    keeps its status while it is queued.
   */
  function Cleared(s: State, status: Status): State { s.(entry := Entry(status, false), resets := s.resets + 1) }

  function Next(s: State, step: Step): State
    requires Enabled(s, step)
  {
    match step
    case Observe(o) => s.(observers := s.observers[o := s.entry])
    case Write(o, next, changed) => Report(s, s.observers[o], next, changed).(observers := s.observers - {o})
    case Enqueue(keepsStatus) => Cleared(s, if keepsStatus then s.entry.status else QueuedDownload)
    case Submit(next) => Cleared(s, next)
    case SubmissionFails(next) => s.(entry := s.entry.(status := next))
  }

  /**
    A new cycle takes the marker away, whatever the row said: a queued download waits, unless it keeps the
    status it was filtered with, and a submitted one has the status its submission gave. A submission that
    fails changes the status alone. Completed, queued, filtered, removed and failed rows are not read.
   */
  lemma CyclesBegin(s: State, next: Status, o: nat)
    ensures Next(s, Enqueue(false)).entry == Entry(QueuedDownload, false)
    ensures Next(s, Enqueue(true)).entry == Entry(s.entry.status, false)
    ensures Enabled(s, Submit(next)) <==> next in {Added, Waiting, Filtered}
    ensures next in {Added, Waiting, Filtered} ==> Next(s, Submit(next)).entry == Entry(next, false)
    ensures Enabled(s, SubmissionFails(next)) <==> next in {QueuedDownload, FailedDownload, Filtered}
    ensures next in {QueuedDownload, FailedDownload, Filtered} ==>
              Next(s, SubmissionFails(next)).entry == Entry(next, s.entry.notified)
    ensures Enabled(s, Observe(o)) <==> s.entry.status !in {Done, QueuedDownload, Filtered, Removed, FailedDownload}
  {
  }

  ghost predicate Steps(s: State, run: seq<Step>)
    decreases |run|
  {
    run == [] || (Enabled(s, run[0]) && Steps(Next(s, run[0]), run[1..]))
  }

  function After(s: State, run: seq<Step>): State
    requires Steps(s, run)
    decreases |run|
  {
    if run == [] then s else After(Next(s, run[0]), run[1..])
  }

  /** A claim is open only while the marker is set, and the marker is cleared only by a reset. */
  predicate Counted(s: State) { s.claims <= s.resets + (if s.entry.notified then 1 else 0) }

  lemma {:induction false} RunCounts(s: State, run: seq<Step>)
    requires Counted(s) && Steps(s, run)
    ensures Counted(After(s, run))
    decreases |run|
  {
    if run != [] {
      RunCounts(Next(s, run[0]), run[1..]);
    }
  }

  function Start(status: Status): State { State(Entry(status, false), map[], 0, 0) }

  /** Whatever stale observers write, a completion is claimed at most once a cycle. */
  lemma OneClaimPerCycle(status: Status, run: seq<Step>)
    requires Steps(Start(status), run)
    ensures After(Start(status), run).claims <= After(Start(status), run).resets + 1
  {
    RunCounts(Start(status), run);
  }

  /** Between two claims lies a reset: a run without one claims once at most, from any state. */
  lemma {:induction false} NoResetOneClaim(s: State, run: seq<Step>)
    requires Steps(s, run) && forall i :: 0 <= i < |run| ==> !run[i].Enqueue? && !run[i].Submit?
    ensures s.claims <= After(s, run).claims <= s.claims + (if s.entry.notified then 0 else 1)
    ensures s.entry.notified ==> After(s, run).entry.notified
    decreases |run|
  {
    if run != [] {
      NoResetOneClaim(Next(s, run[0]), run[1..]);
    }
  }

  // --- Completions that nobody announces ---

  /**
    Completed, but not marked: as observers do not read completed rows, its notification is lost unless a
    report is under way that still claims it.
   */
  predicate Silent(e: Entry) { e.status == Done && !e.notified }

  /**
    A report leaves a completion silent exactly when it completes an unmarked row on a reading that was
    completed or marked, or leaves one alone.
   */
  lemma SilentExactly(s: State, o: nat, next: Status, changed: bool)
    requires Enabled(s, Write(o, next, changed))
    ensures var seen := s.observers[o];
      Silent(Next(s, Write(o, next, changed)).entry)
      <==> (!s.entry.notified && if Writes(seen, next, changed)
             then next == Done && (seen.status == Done || seen.notified) else s.entry.status == Done)
  {
  }

  /** A reading of a row that was neither finished nor marked. */
  predicate OpenReading(e: Entry) { e.status != Done && !e.notified }

  /** One of the reports rests on an open reading. */
  predicate OpenReport(s: State, run: seq<Step>) {
    exists i :: 0 <= i < |run| && run[i].Write? && run[i].o in s.observers && OpenReading(s.observers[run[i].o])
  }

  lemma OpenReportNext(s: State, run: seq<Step>)
    requires run != [] && run[0].Write? && Enabled(s, run[0]) && Steps(Next(s, run[0]), run[1..])
    requires forall i :: 0 <= i < |run| ==> run[i].Write? && run[i].next == Done
    ensures OpenReport(s, run) <==> OpenReading(s.observers[run[0].o]) || OpenReport(Next(s, run[0]), run[1..])
  {
    var r := Next(s, run[0]);
    hide Steps;
    if i :| 0 <= i < |run| && run[i].o in s.observers && OpenReading(s.observers[run[i].o]) {
      if i > 0 && run[i].o != run[0].o {
        assert run[1..][i - 1] == run[i] && run[i].o in r.observers;
      }
    }
    if i :| 0 <= i < |run[1..]| && run[1..][i].o in r.observers && OpenReading(r.observers[run[1..][i].o]) {
      assert run[i + 1] == run[1..][i];
    }
    assert run[0].o in s.observers;
  }

  /**
    While it stays completed, a silent completion is claimed, and then once, exactly when a report rests on
    an open reading.
   */
  lemma {:induction false} SilentClaimedExactly(s: State, run: seq<Step>)
    requires Silent(s.entry) && Steps(s, run) && forall i :: 0 <= i < |run| ==> run[i].Write? && run[i].next == Done
    ensures After(s, run).claims == s.claims + (if OpenReport(s, run) then 1 else 0)
    ensures Silent(After(s, run).entry) <==> !OpenReport(s, run)
    decreases |run|
  {
    if run != [] {
      var r := Next(s, run[0]);
      OpenReportNext(s, run);
      SilentExactly(s, run[0].o, Done, run[0].changed);
      hide OpenReport;
      if OpenReading(s.observers[run[0].o]) {
        assert r.entry == Entry(Done, true);
        NoResetOneClaim(r, run[1..]);
      } else {
        SilentClaimedExactly(r, run[1..]);
      }
    }
  }

  // --- One observer at a time misses nothing ---

  /** A row that observers read is unmarked, and so is the row while the one observer there is works on it. */
  predicate Lone(s: State) {
    && (Observed(s.entry.status) || |s.observers| > 0 ==> !s.entry.notified)
    && (forall o :: o in s.observers ==> Observed(s.observers[o].status) && !s.observers[o].notified)
    && (forall o, p :: o in s.observers && p in s.observers ==> o == p)
  }

  /** No observer starts beside another. */
  predicate Alone(s: State, step: Step) { step.Observe? ==> s.observers.Keys <= {step.o} }

  ghost predicate AllAlone(s: State, run: seq<Step>)
    requires Steps(s, run)
    decreases |run|
  {
    run == [] || (Alone(s, run[0]) && AllAlone(Next(s, run[0]), run[1..]))
  }

  lemma LoneStep(s: State, step: Step)
    requires Lone(s) && Enabled(s, step) && Alone(s, step)
    ensures Lone(Next(s, step))
    ensures step.Write? && step.next == Done
        ==> Next(s, step).entry == Entry(Done, true) && Next(s, step).claims == s.claims + 1
  {
    var r := Next(s, step);
    match step
    case Write(o, _, _) =>
      assert o in s.observers && |s.observers.Keys| > 0;
      assert r.observers == map[];
    case _ =>
  }

  /**
    Whatever is queued and submitted meanwhile, one observer at a time marks and claims every completion it
    reports.
   */
  lemma {:induction false} OneObserverNeverSilent(s: State, run: seq<Step>, o: nat, changed: bool)
    requires Lone(s) && Steps(s, run) && AllAlone(s, run) && o in After(s, run).observers
    ensures var t := After(s, run); var r := Next(t, Write(o, Done, changed));
            r.entry == Entry(Done, true) && r.claims == t.claims + 1
    decreases |run|
  {
    hide Lone, Next;
    if run == [] {
      LoneStep(s, Write(o, Done, changed));
    } else {
      LoneStep(s, run[0]);
      OneObserverNeverSilent(Next(s, run[0]), run[1..], o, changed);
    }
  }

  /**
    With two observers a completion is lost: the second regresses the announced row, the first reads it
    again, still marked, and reports after the download has been submitted anew.
   */
  lemma OverlapLosesCompletion()
    ensures var run := [Observe(0), Observe(1), Write(0, Done, true), Write(1, Downloading, true), Observe(0),
        Enqueue(false), Submit(Added), Write(0, Done, true)];
      && Steps(Start(Downloading), run)
      && After(Start(Downloading), run).observers == map[] && Silent(After(Start(Downloading), run).entry)
  {
  }

  class EntryRow {
    var status: Status
    var notified: bool

    /** The observer's transaction for one entry. */
    method WriteObservation(seen: Entry, next: Status, changed: bool) returns (claimed: bool)
      modifies this
      ensures claimed == (ShouldEnqueue(seen.status, next, seen.notified) && !old(notified))
      ensures Entry(status, notified)
          == Report(State(Entry(old(status), old(notified)), map[], 0, 0), seen, next, changed).entry
    {
      if changed || next != seen.status { status := next; }
      claimed := false;
      if !ShouldEnqueue(seen.status, next, seen.notified) { return; }
      if !notified {
        notified := true;
        claimed := true;
      }
    }
  }
}
