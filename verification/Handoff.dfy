/**
  From library lookup to magnet search to summary (server/library-worker.ts, server/magnet-worker.ts,
  server/jellyfin-sync.ts, server/notifications.ts, server/capture.ts, server/routes/).

  An entry whose magnet is pending must have a job that will settle it. Each transaction that
  touches an entry or its jobs is one step. A full-scan batch is summarised when none of its entries
  has an active job.
 */
module Handoff {
  import opened Options

  datatype Magnet = Unsearched | Pending | Found | NotFound | FailedMagnet | SkippedMagnet
  datatype Library = Available | Elsewhere

  datatype Entry = Entry(magnet: Magnet, library: Library, batch: Option<nat>)

  datatype Status = Queued | Running | Finished
  datatype Job = Job(entry: nat, status: Status)

  datatype Batch = Scanning | Processing | Completed

  /** The entries of a batch that were pending, and those with an active job, when it was summarised. */
  datatype Summary = Summary(batch: nat, pending: set<nat>, active: set<nat>)

  /**
    `seen` holds what a worker read about the entry of a waiting library job, before its claim, and
    `snapshots` what the worker of a running one had read: library jobs are never recovered, so a
    running one has one worker. Magnet jobs are, so any worker that ever claimed
    one may still write to it: `touched` holds those.
   */
  datatype State = State(entries: map<nat, Entry>, magnets: map<nat, Job>, libraries: map<nat, Job>, releases: map<nat,
      Job>,
                         seen: map<nat, Library>, snapshots: map<nat, Library>, touched: set<nat>, nextId: nat,
                             batches: map<nat, Batch>, summaries: seq<Summary>)

  predicate Active(j: Job) { j.status != Finished }

  predicate HasActive(jobs: map<nat, Job>, e: nat) { exists j :: j in jobs && jobs[j].entry == e && Active(jobs[j]) }

  predicate OnlyActive(jobs: map<nat, Job>, e: nat, except: nat) {
    forall j :: j in jobs && j != except && jobs[j].entry == e ==> !Active(jobs[j])
  }

  // --- Statements ---

  /** `queueUnique` inside a transaction. */
  function Queue(jobs: map<nat, Job>, e: nat, id: nat): map<nat, Job> {
    if HasActive(jobs, e) then jobs else jobs[id := Job(e, Queued)]
  }

  function QueueMagnet(s: State, e: nat): State { s.(magnets := Queue(s.magnets, e, s.nextId), nextId := s.nextId + 1) }

  function SetMagnet(s: State, e: nat, m: Magnet): State {
    if e in s.entries then s.(entries := s.entries[e := s.entries[e].(magnet := m)]) else s
  }

  function SetLibrary(s: State, e: nat, l: Library): State {
    if e in s.entries then s.(entries := s.entries[e := s.entries[e].(library := l)]) else s
  }

  datatype FirstJob = MagnetFirst | LibraryFirst | NoJob

  /** A new entry takes an id, and two more are kept for its jobs. */
  function Entered(s: State, batch: Option<nat>, first: FirstJob): State {
    s.(entries := s.entries[s.nextId := Entry(if first.MagnetFirst? then Pending else Unsearched, Elsewhere, batch)],
        nextId := s.nextId + 3)
  }

  function WithFirstJob(s: State, e: nat, id: nat, first: FirstJob): State {
    match first
    case MagnetFirst => s.(magnets := Queue(s.magnets, e, id))
    case LibraryFirst => s.(libraries := Queue(s.libraries, e, id))
    case NoJob => s
  }

  function WithRelease(s: State, e: nat, id: nat, release: bool): State {
    if release then s.(releases := Queue(s.releases, e, id)) else s
  }

  /** A new entry, with the first job its rules ask for. */
  function AddEntry(s: State, batch: Option<nat>, first: FirstJob, release: bool): State {
    WithFirstJob(WithRelease(Entered(s, batch, first), s.nextId, s.nextId + 2, release), s.nextId, s.nextId + 1, first)
  }

  function FinishLibrary(s: State, j: nat): State
    requires j in s.libraries
  {
    s.(libraries := s.libraries[j := s.libraries[j].(status := Finished)], snapshots := s.snapshots - {j})
  }

  function LibraryMatch(s: State, j: nat, skip: bool): State
    requires j in s.libraries
  {
    var e := s.libraries[j].entry;
    var t := SetLibrary(s, e, Available);
    FinishLibrary(if skip then SetMagnet(t, e, SkippedMagnet) else QueueMagnet(t, e), j)
  }

  /** The entry is handed to the magnet search, unless the worker read it as available. */
  function HandOver(s: State, j: nat): State
    requires j in s.libraries && j in s.snapshots
  {
    var e := s.libraries[j].entry;
    if s.snapshots[j] == Available then s else SetMagnet(SetLibrary(s, e, Elsewhere), e, Pending)
  }

  function LibraryNoMatch(s: State, j: nat): State
    requires j in s.libraries && j in s.snapshots
  {
    var t := HandOver(s, j);
    FinishLibrary(if s.snapshots[j] == Available then t else QueueMagnet(t, s.libraries[j].entry), j)
  }

  function LibraryFail(s: State, j: nat, retry: bool): State
    requires j in s.libraries && j in s.snapshots
  {
    var t := HandOver(s, j);
    if retry then t.(libraries := t.libraries[j := Job(s.libraries[j].entry, Queued)], snapshots := t.snapshots - {j})
    else FinishLibrary(if s.snapshots[j] == Available then t else QueueMagnet(t, s.libraries[j].entry), j)
  }

  function MagnetDone(s: State, j: nat, m: Magnet): State
    requires j in s.magnets
  {
    var e := s.magnets[j].entry;
    SetMagnet(s, e, m).(magnets := s.magnets[j := Job(e, Finished)])
  }

  /** Queued again, unless another job of the entry is active: then the transaction is rolled back. */
  function MagnetRetry(s: State, j: nat): State
    requires j in s.magnets
  {
    var e := s.magnets[j].entry;
    if OnlyActive(s.magnets, e, j) then SetMagnet(s, e, Pending).(magnets := s.magnets[j := Job(e, Queued)]) else s
  }

  function SearchAgain(s: State, e: nat): State { QueueMagnet(SetMagnet(s, e, Pending), e) }

  /** The magnet rule is switched off: waiting jobs are finished and pending entries released. */
  function RuleOff(s: State): State {
    s.(magnets := map j | j in s.magnets ::
        if s.magnets[j].status == Queued then s.magnets[j].(status := Finished) else s.magnets[j],
       entries := map e | e in s.entries ::
           if s.entries[e].magnet == Pending then s.entries[e].(magnet := Unsearched) else s.entries[e])
  }

  /** The full library sync found the entry. */
  function SyncFound(s: State, e: nat, skip: bool): State {
    var t := SetLibrary(s, e, Available);
    if skip && e in s.entries && s.entries[e].magnet != Found then SetMagnet(t, e, SkippedMagnet) else t
  }

  predicate Busy(s: State, e: nat) { HasActive(s.magnets, e) || HasActive(s.libraries, e) || HasActive(s.releases, e) }

  predicate InBatch(s: State, e: nat, b: nat) { e in s.entries && s.entries[e].batch == Some(b) }

  predicate BatchIdle(s: State, b: nat) { forall e :: e in s.entries && InBatch(s, e, b) ==> !Busy(s, e) }

  function PendingIn(s: State, b: nat): set<nat> { set e | e in s.entries && s.entries[e].batch == Some(b)
      && s.entries[e].magnet == Pending }

  /** Each entry of the batch with an active row in `jobs`. */
  function ActiveIn(s: State, jobs: map<nat, Job>, b: nat): set<nat> {
    set j | j in jobs && jobs[j].status != Finished && InBatch(s, jobs[j].entry, b) :: jobs[j].entry
  }

  function AllActiveIn(s: State, b: nat): set<nat> {
    ActiveIn(s, s.releases, b) + ActiveIn(s, s.magnets, b) + ActiveIn(s, s.libraries, b)
  }

  function Summarise(s: State, b: nat): State {
    if b in s.batches && s.batches[b] == Processing && BatchIdle(s, b)
    then s.(batches := s.batches[b := Completed],
            summaries := s.summaries + [Summary(b, PendingIn(s, b), AllActiveIn(s, b))])
    else s
  }

  function SetStatus(jobs: map<nat, Job>, j: nat, status: Status): map<nat, Job>
    requires j in jobs
  {
    jobs[j := jobs[j].(status := status)]
  }

  datatype Step =
    | StartBatch(b: nat)
    | Add(batch: Option<nat>, first: FirstJob, release: bool)
    | Adopt(e: nat, b: nat)
    | Publish(b: nat)
    | Reopen(b: nat)
    | SeeLibrary(j: nat)
    | ClaimLibrary(j: nat)
    | Match(j: nat, skip: bool)
    | NoMatch(j: nat)
    | LookupFails(j: nat, retry: bool)
    | ClaimMagnet(j: nat)
    | RecoverMagnet(j: nat)
    | SearchDone(j: nat, m: Magnet)
    | SearchRetries(j: nat)
    | Again(e: nat)
    | RulesOff
    | Synced(e: nat, skip: bool)
    | Missing(e: nat)
    | Release(j: nat, status: Status)
    | QueueRelease(e: nat)
    | Remove(e: nat)
    | Summarised(b: nat)

  predicate ScanningBatch(s: State, b: nat) { b in s.batches && s.batches[b] == Scanning }

  predicate Enabled(s: State, step: Step) {
    match step
    case StartBatch(b) => b !in s.batches
    case Add(batch, _, _) => batch.Some? ==> batch.value in s.batches
    case Adopt(e, b) => e in s.entries && s.entries[e].batch.None? && b in s.batches
    case Publish(b) => ScanningBatch(s, b)
    case Reopen(b) => b in s.batches
    case SeeLibrary(j) => j in s.libraries && s.libraries[j].status == Queued && s.libraries[j].entry in s.entries
    case ClaimLibrary(j) => j in s.libraries && s.libraries[j].status == Queued && j in s.seen
    case Match(j, _) => j in s.libraries && j in s.snapshots
    case NoMatch(j) => j in s.libraries && j in s.snapshots
    case LookupFails(j, _) => j in s.libraries && j in s.snapshots
    case ClaimMagnet(j) => j in s.magnets && s.magnets[j].status == Queued
    case RecoverMagnet(j) => j in s.magnets && s.magnets[j].status == Running
    case SearchDone(j, m) => j in s.magnets && j in s.touched && m != Pending
    case SearchRetries(j) => j in s.magnets && j in s.touched
    case Again(e) => e in s.entries
    case RulesOff => true
    case Synced(_, _) => true
    case Missing(_) => true
    case Release(j, _) => j in s.releases && Active(s.releases[j])
    case QueueRelease(e) => e in s.entries
    case Remove(_) => true
    case Summarised(_) => true
  }

  function Without(jobs: map<nat, Job>, e: nat): map<nat, Job> { map j | j in jobs && jobs[j].entry != e :: jobs[j] }

  function Next(s: State, step: Step): State
    requires Enabled(s, step)
  {
    match step
    case StartBatch(b) => s.(batches := s.batches[b := Scanning])
    case Add(batch, first, release) => AddEntry(s, batch, first, release)
    case Adopt(e, b) => s.(entries := s.entries[e := s.entries[e].(batch := Some(b))])
    case Publish(b) => s.(batches := s.batches[b := Processing])
    case Reopen(b) => s.(batches := s.batches[b := Scanning])
    case SeeLibrary(j) => s.(seen := s.seen[j := s.entries[s.libraries[j].entry].library])
    case ClaimLibrary(j) =>
      s.(libraries := SetStatus(s.libraries, j, Running), seen := s.seen - {j},
          snapshots := s.snapshots[j := s.seen[j]])
    case Match(j, skip) => LibraryMatch(s, j, skip)
    case NoMatch(j) => LibraryNoMatch(s, j)
    case LookupFails(j, retry) => LibraryFail(s, j, retry)
    case ClaimMagnet(j) => s.(magnets := SetStatus(s.magnets, j, Running), touched := s.touched + {j})
    case RecoverMagnet(j) => s.(magnets := SetStatus(s.magnets, j, Queued))
    case SearchDone(j, m) => MagnetDone(s, j, m)
    case SearchRetries(j) => MagnetRetry(s, j)
    case Again(e) => SearchAgain(s, e)
    case RulesOff => RuleOff(s)
    case Synced(e, skip) => SyncFound(s, e, skip)
    case Missing(e) => SetLibrary(s, e, Elsewhere)
    case Release(j, status) => s.(releases := SetStatus(s.releases, j, status))
    case QueueRelease(e) => s.(releases := Queue(s.releases, e, s.nextId), nextId := s.nextId + 1)
    case Remove(e) => s.(entries := s.entries - {e}, magnets := Without(s.magnets, e),
        libraries := Without(s.libraries, e), releases := Without(s.releases, e))
    case Summarised(b) => Summarise(s, b)
  }

  // --- Invariants ---

  predicate IdsBelow(jobs: map<nat, Job>, nextId: nat) { forall j :: j in jobs ==> j < nextId }

  ghost predicate UniqueActive(jobs: map<nat, Job>) {
    forall i, j ::
        i in jobs && j in jobs && i != j && Active(jobs[i]) && Active(jobs[j]) ==> jobs[i].entry != jobs[j].entry
  }

  /** One active library job an entry, and one worker, with its snapshot, for each running one. */
  ghost predicate Base(s: State) {
    && IdsBelow(s.magnets, s.nextId) && IdsBelow(s.libraries, s.nextId) && IdsBelow(s.releases, s.nextId)
    && UniqueActive(s.libraries)
    && (forall j :: j in s.libraries && j in s.snapshots ==> s.libraries[j].status == Running)
    && (forall j :: j in s.snapshots ==> j < s.nextId)
  }

  predicate Covered(s: State, e: nat) {
    e in s.entries && s.entries[e].magnet == Pending ==> HasActive(s.magnets, e) || HasActive(s.libraries, e)
  }

  /** No entry waits for a magnet that nobody is going to look for. */
  ghost predicate NoneStranded(s: State) { forall e :: Covered(s, e) }

  /** The one way to strand an entry: its last job is a library job whose worker read it as available. */
  predicate Strands(s: State, step: Step)
    requires Enabled(s, step)
  {
    match step
    case NoMatch(j) => LeavesPending(s, j)
    case LookupFails(j, retry) => !retry && LeavesPending(s, j)
    case _ => false
  }

  predicate LeavesPending(s: State, j: nat)
    requires j in s.libraries && j in s.snapshots
  {
    var e := s.libraries[j].entry;
    s.snapshots[j] == Available && e in s.entries && s.entries[e].magnet == Pending && !HasActive(s.magnets, e)
  }

  // --- How the statements treat active jobs ---

  lemma QueueActive(jobs: map<nat, Job>, e: nat, id: nat, x: nat)
    requires id !in jobs
    ensures HasActive(Queue(jobs, e, id), e)
    ensures HasActive(jobs, x) ==> HasActive(Queue(jobs, e, id), x)
    ensures UniqueActive(jobs) ==> UniqueActive(Queue(jobs, e, id))
  {
    var after := Queue(jobs, e, id);
    if !HasActive(jobs, e) {
      assert id in after && after[id].entry == e && Active(after[id]);
    }
    if HasActive(jobs, x) {
      var j :| j in jobs && jobs[j].entry == x && Active(jobs[j]);
      assert j in after && after[j] == jobs[j];
    }
  }

  /** Writing one row of an entry leaves the active jobs of every other entry alone. */
  lemma OtherEntry(jobs: map<nat, Job>, j: nat, job: Job, x: nat)
    requires j in jobs && job.entry == jobs[j].entry
    ensures x != job.entry ==> (HasActive(jobs[j := job], x) <==> HasActive(jobs, x))
    ensures Active(job) && HasActive(jobs, x) ==> HasActive(jobs[j := job], x)
    ensures Active(job) ==> HasActive(jobs[j := job], job.entry)
  {
    var after := jobs[j := job];
    if HasActive(jobs, x) {
      var i :| i in jobs && jobs[i].entry == x && Active(jobs[i]);
      assert i != j ==> after[i] == jobs[i];
      assert i in after;
    }
    if i :| i in after && after[i].entry == x && Active(after[i]) && i != j {
      assert i in jobs && jobs[i] == after[i];
    }
    assert j in after;
  }

  lemma FinishedAlone(jobs: map<nat, Job>, j: nat, job: Job)
    requires j in jobs && UniqueActive(jobs) && Active(jobs[j]) && job.entry == jobs[j].entry && !Active(job)
    ensures !HasActive(jobs[j := job], job.entry)
  {
  }

  lemma WithoutActive(jobs: map<nat, Job>, e: nat, x: nat)
    requires x != e && HasActive(jobs, x)
    ensures HasActive(Without(jobs, e), x)
  {
    var j :| j in jobs && jobs[j].entry == x && Active(jobs[j]);
    assert j in Without(jobs, e);
  }

  // --- Each step, for one entry ---

  lemma AddCovers(s: State, batch: Option<nat>, first: FirstJob, release: bool, x: nat)
    requires Base(s) && Covered(s, x)
    ensures Covered(AddEntry(s, batch, first, release), x)
  {
    hide HasActive, Queue;
    QueueActive(s.magnets, s.nextId, s.nextId + 1, x);
    QueueActive(s.libraries, s.nextId, s.nextId + 1, x);
  }

  lemma MatchCovers(s: State, j: nat, skip: bool, x: nat)
    requires Base(s) && Covered(s, x) && Enabled(s, Match(j, skip))
    ensures Covered(LibraryMatch(s, j, skip), x)
  {
    var e := s.libraries[j].entry;
    QueueActive(s.magnets, e, s.nextId, x);
    hide HasActive, Queue;
    OtherEntry(s.libraries, j, s.libraries[j].(status := Finished), x);
  }

  /** What a lookup without a match writes. */
  lemma NoMatchParts(s: State, j: nat, x: nat)
    requires j in s.libraries && j in s.snapshots
    ensures var r, e := LibraryNoMatch(s, j), s.libraries[j].entry;
      && r.libraries == s.libraries[j := s.libraries[j].(status := Finished)]
      && (r.magnets == s.magnets || r.magnets == Queue(s.magnets, e, s.nextId))
      && (x != e ==> (x in r.entries <==> x in s.entries) && (x in s.entries ==> r.entries[x] == s.entries[x]))
  {
    var t := HandOver(s, j);
    assert t.libraries == s.libraries && t.magnets == s.magnets && t.nextId == s.nextId;
    hide Queue;
  }

  lemma HandOverOthers(s: State, j: nat, x: nat)
    requires Base(s) && Covered(s, x) && j in s.libraries && j in s.snapshots && x != s.libraries[j].entry
    ensures Covered(LibraryNoMatch(s, j), x)
  {
    var e := s.libraries[j].entry;
    QueueActive(s.magnets, e, s.nextId, x);
    OtherEntry(s.libraries, j, s.libraries[j].(status := Finished), x);
    NoMatchParts(s, j, x);
    hide HasActive, Queue, Base, IdsBelow, LibraryNoMatch;
  }

  lemma HandOverOwn(s: State, j: nat)
    requires Base(s) && j in s.libraries && j in s.snapshots && Covered(s, s.libraries[j].entry)
    ensures Covered(LibraryNoMatch(s, j), s.libraries[j].entry) <==> !LeavesPending(s, j)
  {
    var e := s.libraries[j].entry;
    QueueActive(s.magnets, e, s.nextId, e);
    FinishedAlone(s.libraries, j, s.libraries[j].(status := Finished));
    hide HasActive, Queue, UniqueActive, IdsBelow;
  }

  lemma NoMatchCovers(s: State, j: nat, x: nat)
    requires Base(s) && Covered(s, x) && Enabled(s, NoMatch(j))
    ensures Covered(LibraryNoMatch(s, j), x) <==> !(x == s.libraries[j].entry && LeavesPending(s, j))
  {
    hide Base, Covered, LibraryNoMatch, LeavesPending;
    if x == s.libraries[j].entry {
      HandOverOwn(s, j);
    } else {
      HandOverOthers(s, j, x);
    }
  }

  lemma HandOverEntries(s: State, j: nat, x: nat)
    requires j in s.libraries && j in s.snapshots
    ensures HandOver(s, j).magnets == s.magnets && HandOver(s, j).libraries == s.libraries
    ensures x != s.libraries[j].entry ==> (x in HandOver(s, j).entries <==> x in s.entries)
    ensures x != s.libraries[j].entry && x in s.entries ==> HandOver(s, j).entries[x] == s.entries[x]
  {
  }

  lemma RetryCovers(s: State, j: nat, x: nat)
    requires Base(s) && Covered(s, x) && Enabled(s, LookupFails(j, true))
    ensures Covered(LibraryFail(s, j, true), x)
  {
    OtherEntry(s.libraries, j, Job(s.libraries[j].entry, Queued), x);
    HandOverEntries(s, j, x);
    hide HasActive, Base, HandOver;
  }

  lemma FailCovers(s: State, j: nat, retry: bool, x: nat)
    requires Base(s) && Covered(s, x) && Enabled(s, LookupFails(j, retry))
    ensures Covered(LibraryFail(s, j, retry), x) <==> !(!retry && x == s.libraries[j].entry && LeavesPending(s, j))
  {
    if retry {
      RetryCovers(s, j, x);
    } else {
      assert LibraryFail(s, j, false) == LibraryNoMatch(s, j);
      hide Base, Covered, LibraryNoMatch, LibraryFail, LeavesPending;
      NoMatchCovers(s, j, x);
    }
  }

  lemma SearchCovers(s: State, step: Step, x: nat)
    requires Base(s) && Covered(s, x) && Enabled(s, step)
    requires step.SearchDone? || step.SearchRetries? || step.ClaimMagnet? || step.RecoverMagnet?
    ensures Covered(Next(s, step), x)
  {
    var j := step.j;
    var e := s.magnets[j].entry;
    OtherEntry(s.magnets, j, Job(e, Finished), x);
    OtherEntry(s.magnets, j, Job(e, Queued), x);
    OtherEntry(s.magnets, j, Job(e, Running), x);
    hide HasActive;
    assert s.magnets[j].(status := Running) == Job(e, Running) && s.magnets[j].(status := Queued) == Job(e, Queued);
  }

  lemma FreshId(s: State)
    requires Base(s)
    ensures s.nextId !in s.magnets
  {
  }

  lemma ClaimCovers(s: State, j: nat, x: nat)
    requires Covered(s, x) && Enabled(s, ClaimLibrary(j))
    ensures Covered(Next(s, ClaimLibrary(j)), x)
  {
    hide HasActive;
    OtherEntry(s.libraries, j, s.libraries[j].(status := Running), x);
  }

  lemma AgainCovers(s: State, e: nat, x: nat)
    requires Base(s) && Covered(s, x) && Enabled(s, Again(e))
    ensures Covered(Next(s, Again(e)), x)
  {
    FreshId(s);
    hide HasActive, Queue, Base;
    QueueActive(s.magnets, e, s.nextId, x);
  }

  lemma RemoveCovers(s: State, e: nat, x: nat)
    requires Covered(s, x)
    ensures Covered(Next(s, Remove(e)), x)
  {
    hide HasActive, Without;
    if x != e && x in s.entries && s.entries[x].magnet == Pending {
      if HasActive(s.magnets, x) {
        WithoutActive(s.magnets, e, x);
      } else {
        WithoutActive(s.libraries, e, x);
      }
    }
  }

  lemma RulesOffCovers(s: State, x: nat)
    ensures Covered(Next(s, RulesOff), x)
  {
  }

  lemma SyncCovers(s: State, e: nat, skip: bool, x: nat)
    requires Covered(s, x)
    ensures Covered(SyncFound(s, e, skip), x)
  {
    hide HasActive;
  }

  lemma EntryCovers(s: State, step: Step, x: nat)
    requires Covered(s, x) && Enabled(s, step)
    requires step.Missing? || step.Adopt?
    ensures Covered(Next(s, step), x)
  {
    hide HasActive;
  }

  lemma CoveredAfter(s: State, step: Step, x: nat)
    requires Base(s) && Covered(s, x) && Enabled(s, step)
    ensures Covered(Next(s, step), x) || (Strands(s, step) && x == s.libraries[step.j].entry)
    ensures Strands(s, step) && x == s.libraries[step.j].entry ==> !Covered(Next(s, step), x)
  {
    hide Base, Covered, AddEntry, LibraryMatch, LibraryNoMatch, LibraryFail, LeavesPending, HasActive, SyncFound;
    match step
    case Add(batch, first, release) => AddCovers(s, batch, first, release, x);
    case Match(j, skip) => MatchCovers(s, j, skip, x);
    case NoMatch(j) => NoMatchCovers(s, j, x);
    case LookupFails(j, retry) => FailCovers(s, j, retry, x);
    case SearchDone(_, _) => SearchCovers(s, step, x);
    case SearchRetries(_) => SearchCovers(s, step, x);
    case ClaimMagnet(_) => SearchCovers(s, step, x);
    case RecoverMagnet(_) => SearchCovers(s, step, x);
    case ClaimLibrary(j) => ClaimCovers(s, j, x);
    case Again(e) => AgainCovers(s, e, x);
    case RulesOff => RulesOffCovers(s, x);
    case Synced(e, skip) => SyncCovers(s, e, skip, x);
    case Missing(_) => EntryCovers(s, step, x);
    case Remove(e) => RemoveCovers(s, e, x);
    case Adopt(_, _) => EntryCovers(s, step, x);
    case StartBatch(_) => SameJobs(s, step, x);
    case Reopen(_) => SameJobs(s, step, x);
    case SeeLibrary(_) => SameJobs(s, step, x);
    case Publish(_) => SameJobs(s, step, x);
    case Release(_, _) => SameJobs(s, step, x);
    case QueueRelease(_) => SameJobs(s, step, x);
    case Summarised(_) => SameJobs(s, step, x);
  }

  lemma SameJobs(s: State, step: Step, x: nat)
    requires Covered(s, x) && Enabled(s, step)
    requires step.StartBatch? || step.Reopen? || step.SeeLibrary? || step.Publish? || step.Release?
        || step.QueueRelease? || step.Summarised?
    ensures Covered(Next(s, step), x)
  {
    hide HasActive, BatchIdle, Queue;
  }

  /**
    A transaction leaves every entry that waits for a magnet with an active job, except exactly when it
    strands its own.
   */
  lemma HandoffIsAtomic(s: State, step: Step)
    requires Base(s) && NoneStranded(s) && Enabled(s, step)
    ensures NoneStranded(Next(s, step)) <==> !Strands(s, step)
  {
    hide Base, Covered, Next, Strands;
    forall x ensures Covered(Next(s, step), x) || Strands(s, step) {
      assert Covered(s, x);
      CoveredAfter(s, step, x);
    }
    if Strands(s, step) {
      StrandingStep(s, step);
      assert Covered(s, s.libraries[step.j].entry);
      CoveredAfter(s, step, s.libraries[step.j].entry);
    }
  }

  lemma StrandingStep(s: State, step: Step)
    requires Enabled(s, step) && Strands(s, step)
    ensures (step.NoMatch? || step.LookupFails?) && step.j in s.libraries
  {
  }

  // --- The base invariant ---

  lemma QueueBelow(jobs: map<nat, Job>, e: nat, id: nat, nextId: nat)
    requires IdsBelow(jobs, nextId) && id < nextId
    ensures IdsBelow(Queue(jobs, e, id), nextId)
  {
    hide HasActive;
  }

  lemma FinishKeepsBase(s: State, t: State, j: nat)
    requires Base(t) && j in t.libraries
    ensures Base(FinishLibrary(t, j))
  {
  }

  lemma QueueMagnetBase(s: State, e: nat)
    requires Base(s)
    ensures Base(QueueMagnet(s, e))
  {
    QueueBelow(s.magnets, e, s.nextId, s.nextId + 1);
    hide Queue, UniqueActive;
  }

  lemma EntriesOnly(s: State, t: State)
    requires Base(s) && t == s.(entries := t.entries)
    ensures Base(t)
  {
    hide UniqueActive, IdsBelow;
  }

  lemma HandOverBase(s: State, j: nat)
    requires Base(s) && j in s.libraries && j in s.snapshots
    ensures Base(HandOver(s, j)) && HandOver(s, j).libraries == s.libraries && HandOver(s, j).snapshots == s.snapshots
  {
    EntriesOnly(s, HandOver(s, j));
    hide Base;
  }

  lemma RaisedBase(s: State, t: State)
    requires Base(s) && s.nextId <= t.nextId && t == s.(entries := t.entries, nextId := t.nextId)
    ensures Base(t) && s.nextId + 1 !in t.libraries && s.nextId + 1 !in t.snapshots
  {
    hide UniqueActive;
  }

  lemma QueueReleaseBase(s: State, e: nat, id: nat)
    requires Base(s) && id < s.nextId
    ensures Base(s.(releases := Queue(s.releases, e, id)))
  {
    QueueBelow(s.releases, e, id, s.nextId);
    hide Queue, UniqueActive, IdsBelow;
  }

  lemma QueueLibraryBase(s: State, e: nat, id: nat)
    requires Base(s) && id < s.nextId && id !in s.libraries && id !in s.snapshots
    ensures Base(s.(libraries := Queue(s.libraries, e, id)))
  {
    QueueBelow(s.libraries, e, id, s.nextId);
    QueueActive(s.libraries, e, id, e);
    QueuedIsWaiting(s.libraries, e, id, s.snapshots);
    hide Queue, UniqueActive, IdsBelow;
  }

  lemma QueueOneMagnetBase(s: State, e: nat, id: nat)
    requires Base(s) && id < s.nextId
    ensures Base(s.(magnets := Queue(s.magnets, e, id)))
  {
    QueueBelow(s.magnets, e, id, s.nextId);
    hide Queue, UniqueActive, IdsBelow;
  }

  lemma AddBase(s: State, batch: Option<nat>, first: FirstJob, release: bool)
    requires Base(s)
    ensures Base(AddEntry(s, batch, first, release))
  {
    var t := Entered(s, batch, first);
    RaisedBase(s, t);
    hide *;
    ReleaseBase(s, t, release);
    FirstJobBase(s, t, WithRelease(t, s.nextId, s.nextId + 2, release), first);
    AddEntryIs(s, batch, first, release);
  }

  lemma AddEntryIs(s: State, batch: Option<nat>, first: FirstJob, release: bool)
    ensures AddEntry(s, batch, first, release)
            == WithFirstJob(WithRelease(Entered(s, batch, first), s.nextId, s.nextId + 2, release), s.nextId,
                 s.nextId + 1, first)
  {
    hide WithFirstJob, WithRelease, Entered;
  }

  lemma ReleaseBase(s: State, t: State, release: bool)
    requires Base(t) && t.nextId == s.nextId + 3
    ensures var u := WithRelease(t, s.nextId, s.nextId + 2, release);
            Base(u) && u.nextId == t.nextId && u.libraries == t.libraries && u.snapshots == t.snapshots
  {
    hide Base, Queue;
    QueueReleaseBase(t, s.nextId, s.nextId + 2);
  }

  lemma FirstJobBase(s: State, t: State, u: State, first: FirstJob)
    requires Base(u) && u.nextId == s.nextId + 3 && u.libraries == t.libraries && u.snapshots == t.snapshots
    requires s.nextId + 1 !in t.libraries && s.nextId + 1 !in t.snapshots
    ensures Base(WithFirstJob(u, s.nextId, s.nextId + 1, first))
  {
    hide Base, Queue;
    match first
    case MagnetFirst => QueueOneMagnetBase(u, s.nextId, s.nextId + 1);
    case LibraryFirst => QueueLibraryBase(u, s.nextId, s.nextId + 1);
    case NoJob =>
  }

  lemma QueuedIsWaiting(jobs: map<nat, Job>, e: nat, id: nat, snapshots: map<nat, Library>)
    requires forall j :: j in jobs && j in snapshots ==> jobs[j].status == Running
    requires id !in jobs
    ensures id !in snapshots ==> forall j ::
        j in Queue(jobs, e, id) && j in snapshots ==> Queue(jobs, e, id)[j].status == Running
  {
    hide HasActive;
  }

  lemma RowBase(s: State, j: nat, status: Status)
    requires Base(s) && j in s.libraries && status != Finished && Active(s.libraries[j])
    ensures UniqueActive(SetStatus(s.libraries, j, status))
  {
  }

  lemma StepKeepsBase(s: State, step: Step)
    requires Base(s) && Enabled(s, step)
    ensures Base(Next(s, step))
  {
    hide Base, HasActive, AddEntry, BatchIdle, LibraryMatch, LibraryNoMatch, LibraryFail, SearchAgain, SyncFound;
    match step
    case Add(batch, first, release) => AddBase(s, batch, first, release);
    case Match(j, skip) => MatchBase(s, j, skip);
    case NoMatch(j) => NoMatchBase(s, j);
    case LookupFails(j, retry) => FailBase(s, j, retry);
    case Again(e) => AgainBase(s, e);
    case Synced(e, skip) => SyncBase(s, e, skip);
    case Missing(_) => EntriesBase(s, step);
    case Adopt(_, _) => EntriesBase(s, step);
    case ClaimLibrary(j) => ClaimBase(s, j);
    case ClaimMagnet(_) => MagnetsOnly(s, step);
    case RecoverMagnet(_) => MagnetsOnly(s, step);
    case SearchDone(_, _) => MagnetsOnly(s, step);
    case SearchRetries(_) => MagnetsOnly(s, step);
    case RulesOff => MagnetsOnly(s, step);
    case Remove(e) => RemoveBase(s, e);
    case QueueRelease(_) => OthersBase(s, step);
    case Release(_, _) => OthersBase(s, step);
    case StartBatch(_) => OthersBase(s, step);
    case Reopen(_) => OthersBase(s, step);
    case SeeLibrary(_) => OthersBase(s, step);
    case Publish(_) => OthersBase(s, step);
    case Summarised(_) => OthersBase(s, step);
  }

  lemma AgainBase(s: State, e: nat)
    requires Base(s)
    ensures Base(SearchAgain(s, e))
  {
    EntriesOnly(s, SetMagnet(s, e, Pending));
    hide Base;
    QueueMagnetBase(SetMagnet(s, e, Pending), e);
  }

  lemma ClaimBase(s: State, j: nat)
    requires Base(s) && Enabled(s, ClaimLibrary(j))
    ensures Base(Next(s, ClaimLibrary(j)))
  {
    RowBase(s, j, Running);
    hide UniqueActive;
  }

  lemma SyncBase(s: State, e: nat, skip: bool)
    requires Base(s)
    ensures Base(SyncFound(s, e, skip))
  {
    SyncWritesEntries(s, e, skip);
    hide Base, SyncFound;
    EntriesOnly(s, SyncFound(s, e, skip));
  }

  lemma SyncWritesEntries(s: State, e: nat, skip: bool)
    ensures SyncFound(s, e, skip) == s.(entries := SyncFound(s, e, skip).entries)
  {
  }

  lemma EntriesBase(s: State, step: Step)
    requires Base(s) && Enabled(s, step) && (step.Missing? || step.Adopt?)
    ensures Base(Next(s, step))
  {
    hide Base;
    EntriesOnly(s, Next(s, step));
  }

  /** Steps that write neither magnet nor library jobs. */
  lemma OthersBase(s: State, step: Step)
    requires Base(s) && Enabled(s, step)
    requires step.QueueRelease? || step.Release? || step.StartBatch? || step.Reopen? || step.SeeLibrary?
        || step.Publish? || step.Summarised?
    ensures Base(Next(s, step))
  {
    hide UniqueActive, HasActive, BatchIdle, PendingIn, Queue;
    if step.QueueRelease? {
      QueueBelow(s.releases, step.e, s.nextId, s.nextId + 1);
    }
  }

  /** Steps that write magnet jobs and entries leave the library jobs alone. */
  lemma MagnetsOnly(s: State, step: Step)
    requires Base(s) && Enabled(s, step)
    requires step.ClaimMagnet? || step.RecoverMagnet? || step.SearchDone? || step.SearchRetries? || step.RulesOff?
    ensures Base(Next(s, step))
  {
    hide UniqueActive, OnlyActive;
  }

  lemma RemoveBase(s: State, e: nat)
    requires Base(s)
    ensures Base(Next(s, Remove(e)))
  {
  }

  lemma MatchBase(s: State, j: nat, skip: bool)
    requires Base(s) && Enabled(s, Match(j, skip))
    ensures Base(LibraryMatch(s, j, skip))
  {
    var e := s.libraries[j].entry;
    var t := SetLibrary(s, e, Available);
    EntriesOnly(s, t);
    EntriesOnly(t, SetMagnet(t, e, SkippedMagnet));
    QueueMagnetBase(t, e);
    hide Base;
    FinishKeepsBase(s, if skip then SetMagnet(t, e, SkippedMagnet) else QueueMagnet(t, e), j);
  }

  lemma NoMatchBase(s: State, j: nat)
    requires Base(s) && Enabled(s, NoMatch(j))
    ensures Base(LibraryNoMatch(s, j))
  {
    HandOverBase(s, j);
    QueueMagnetBase(HandOver(s, j), s.libraries[j].entry);
    hide Base, HandOver;
    FinishKeepsBase(s, if s.snapshots[j] == Available then HandOver(s, j)
        else QueueMagnet(HandOver(s, j), s.libraries[j].entry), j);
  }

  lemma FailBase(s: State, j: nat, retry: bool)
    requires Base(s) && Enabled(s, LookupFails(j, retry))
    ensures Base(LibraryFail(s, j, retry))
  {
    if retry {
      HandOverBase(s, j);
      var t := HandOver(s, j);
      hide HandOver;
      RequeueBase(t, j);
    } else {
      NoMatchBase(s, j);
      assert LibraryFail(s, j, false) == LibraryNoMatch(s, j);
    }
  }

  lemma RequeueBase(t: State, j: nat)
    requires Base(t) && j in t.libraries && j in t.snapshots
    ensures Base(t.(libraries := t.libraries[j := Job(t.libraries[j].entry, Queued)], snapshots := t.snapshots - {j}))
  {
  }

  // --- Runs ---

  ghost predicate Steps(s: State, run: seq<Step>)
    decreases |run|
  {
    run == [] || (Enabled(s, run[0]) && Steps(Next(s, run[0]), run[1..]))
  }

  function After(s: State, run: seq<Step>): State
    requires Steps(s, run)
    decreases |run|
  {
    if run == [] then s else After(Next(s, run[0]), run[1..])
  }

  /** No step of the run strands an entry. */
  ghost predicate NeverStrands(s: State, run: seq<Step>)
    requires Steps(s, run)
    decreases |run|
  {
    run == [] || (!Strands(s, run[0]) && NeverStrands(Next(s, run[0]), run[1..]))
  }

  /** No summary reported an entry whose magnet was still pending, or that still had an active job. */
  predicate SummariesOk(s: State) {
    forall i :: 0 <= i < |s.summaries| ==> s.summaries[i].pending == {} && s.summaries[i].active == {}
  }

  /** No summary reported an entry that still had an active release, magnet or library job. */
  predicate SummariesIdle(s: State) { forall i :: 0 <= i < |s.summaries| ==> s.summaries[i].active == {} }

  predicate WasSummarised(s: State, b: nat) { exists i :: 0 <= i < |s.summaries| && s.summaries[i].batch == b }

  /** Summarised batches stay completed, and no batch was summarised twice. */
  ghost predicate OnceEach(s: State) {
    && (forall i ::
         0 <= i < |s.summaries| ==> s.summaries[i].batch in s.batches && s.batches[s.summaries[i].batch] == Completed)
    && (forall i, j :: 0 <= i < j < |s.summaries| ==> s.summaries[i].batch != s.summaries[j].batch)
  }

  lemma IdleMeansNonePending(s: State, b: nat)
    requires NoneStranded(s) && BatchIdle(s, b)
    ensures PendingIn(s, b) == {}
  {
    hide HasActive;
    forall e ensures e !in PendingIn(s, b) {
      assert Covered(s, e);
      assert e in s.entries && InBatch(s, e, b) ==> !Busy(s, e);
    }
  }

  /** No row of `jobs` that is queued or running belongs to an entry of the batch. */
  predicate NoneLeft(s: State, jobs: map<nat, Job>, b: nat) {
    forall j ::
      j in jobs && jobs[j].entry in s.entries && s.entries[jobs[j].entry].batch == Some(b) ==>
        jobs[j].status != Queued && jobs[j].status != Running
  }

  lemma NoneLeftFor(s: State, jobs: map<nat, Job>, b: nat)
    ensures NoneLeft(s, jobs, b) <==> forall e ::
        e in s.entries && s.entries[e].batch == Some(b) ==> !HasActive(jobs, e)
    ensures NoneLeft(s, jobs, b) <==> ActiveIn(s, jobs, b) == {}
  {
    if j :| j in jobs && InBatch(s, jobs[j].entry, b) && jobs[j].status != Finished {
      assert HasActive(jobs, jobs[j].entry) && jobs[j].entry in ActiveIn(s, jobs, b);
    }
  }

  lemma IdleMeansNoneLeft(s: State, b: nat)
    ensures BatchIdle(s, b) <==> NoneLeft(s, s.releases, b) && NoneLeft(s, s.magnets, b) && NoneLeft(s, s.libraries, b)
  {
    NoneLeftFor(s, s.releases, b);
    NoneLeftFor(s, s.magnets, b);
    NoneLeftFor(s, s.libraries, b);
    hide HasActive, NoneLeft, ActiveIn;
    if BatchIdle(s, b) {
      forall e | e in s.entries && s.entries[e].batch == Some(b)
        ensures !HasActive(s.releases, e) && !HasActive(s.magnets, e) && !HasActive(s.libraries, e)
      {
        assert InBatch(s, e, b);
        assert !Busy(s, e);
      }
    }
  }

  /**
    The check appends a summary exactly when the batch is processing and no release, magnet or library job
    of its entries is queued or running. It then says which entries are pending and closes the batch;
    otherwise nothing is written.
   */
  lemma SummarisedExactly(s: State, b: nat)
    ensures var r := Next(s, Summarised(b));
      && (r.summaries != s.summaries
          <==> b in s.batches && s.batches[b] == Processing
               && NoneLeft(s, s.releases, b) && NoneLeft(s, s.magnets, b) && NoneLeft(s, s.libraries, b))
      && (r.summaries == s.summaries ==> r == s)
      && (r.summaries != s.summaries ==>
            && r == s.(batches := s.batches[b := Completed], summaries := r.summaries)
            && |r.summaries| == |s.summaries| + 1 && r.summaries[..|s.summaries|] == s.summaries
            && r.summaries[|s.summaries|].batch == b && r.summaries[|s.summaries|].active == {}
            && forall e :: e in r.summaries[|s.summaries|].pending
                 <==> e in s.entries && s.entries[e].batch == Some(b) && s.entries[e].magnet == Pending)
  {
    IdleMeansNoneLeft(s, b);
    NoneLeftFor(s, s.releases, b);
    NoneLeftFor(s, s.magnets, b);
    NoneLeftFor(s, s.libraries, b);
    hide HasActive, NoneLeft, ActiveIn, BatchIdle;
  }

  lemma SummariesStayIdle(s: State, step: Step)
    requires SummariesIdle(s) && Enabled(s, step)
    ensures SummariesIdle(Next(s, step))
  {
    hide NoneLeft, Next, Enabled;
    match step
    case Summarised(b) => SummarisedExactly(s, b);
    case _ => OnlySummariesAppend(s, step);
  }

  /** Whatever else happens, in every run no batch is summarised while one of its entries has an active job. */
  lemma {:induction false} NoActiveJobIsSummarised(s: State, run: seq<Step>)
    requires SummariesIdle(s) && Steps(s, run)
    ensures SummariesIdle(After(s, run))
    decreases |run|
  {
    hide SummariesIdle, Next, Enabled;
    if run != [] {
      SummariesStayIdle(s, run[0]);
      NoActiveJobIsSummarised(Next(s, run[0]), run[1..]);
    }
  }

  lemma SummariesKept(s: State, step: Step)
    requires NoneStranded(s) && SummariesOk(s) && Enabled(s, step)
    ensures SummariesOk(Next(s, step))
  {
    hide HasActive, BatchIdle, PendingIn, NoneStranded, NoneLeft, AllActiveIn;
    match step
    case Summarised(b) =>
      if BatchIdle(s, b) {
        IdleMeansNonePending(s, b);
        SummarisedExactly(s, b);
      }
    case _ => OnlySummariesAppend(s, step);
  }

  lemma OnlySummariesAppend(s: State, step: Step)
    requires Enabled(s, step) && !step.Summarised?
    ensures Next(s, step).summaries == s.summaries
  {
    if !step.StartBatch? && !step.Publish? && !step.Reopen? {
      hide Next, Enabled;
      BatchesUntouched(s, step);
    }
  }

  /** Only the full-scan route can break that: when it reopens a batch that has been summarised. */
  lemma OnceEachStep(s: State, step: Step)
    requires OnceEach(s) && Enabled(s, step)
    ensures OnceEach(Next(s, step)) <==> !(step.Reopen? && WasSummarised(s, step.b))
  {
    if step.Reopen? {
      ReopenStep(s, step.b);
    } else if step.Summarised? {
      SummarisedStep(s, step.b);
    } else if step.StartBatch? || step.Publish? {
      BatchStep(s, step);
    } else {
      hide Next, Enabled;
      BatchesUntouched(s, step);
    }
  }

  lemma ReopenStep(s: State, b: nat)
    requires OnceEach(s) && b in s.batches
    ensures OnceEach(Next(s, Reopen(b))) <==> !WasSummarised(s, b)
  {
    if i :| 0 <= i < |s.summaries| && s.summaries[i].batch == b {
      assert Next(s, Reopen(b)).batches[Next(s, Reopen(b)).summaries[i].batch] == Scanning;
    }
  }

  lemma SummarisedStep(s: State, b: nat)
    requires OnceEach(s)
    ensures OnceEach(Summarise(s, b))
  {
    hide BatchIdle, PendingIn;
  }

  lemma BatchStep(s: State, step: Step)
    requires OnceEach(s) && Enabled(s, step) && (step.StartBatch? || step.Publish?)
    ensures OnceEach(Next(s, step))
  {
  }

  lemma AddTouches(s: State, batch: Option<nat>, first: FirstJob, release: bool)
    ensures AddEntry(s, batch, first, release).batches == s.batches
        && AddEntry(s, batch, first, release).summaries == s.summaries
  {
    hide Queue;
  }

  lemma BatchesUntouched(s: State, step: Step)
    requires Enabled(s, step) && !step.Summarised? && !step.StartBatch? && !step.Reopen? && !step.Publish?
    ensures Next(s, step).batches == s.batches && Next(s, step).summaries == s.summaries
  {
    hide HasActive, Queue, OnlyActive, Without, AddEntry, LibraryMatch, LibraryNoMatch, LibraryFail, MagnetDone,
        MagnetRetry, SearchAgain, SyncFound, RuleOff;
    match step
    case Add(batch, first, release) => AddTouches(s, batch, first, release);
    case Match(j, skip) => MatchTouches(s, j, skip);
    case NoMatch(j) => FailTouches(s, j, false);
    case LookupFails(j, retry) => FailTouches(s, j, retry);
    case SearchDone(j, m) => MagnetTouches(s, j, m);
    case SearchRetries(j) => MagnetTouches(s, j, Found);
    case Again(e) => EntryTouches(s, e, false);
    case Synced(e, skip) => EntryTouches(s, e, skip);
    case RulesOff => EntryTouches(s, 0, false);
    case _ =>
  }

  lemma EntryTouches(s: State, e: nat, skip: bool)
    ensures SearchAgain(s, e).batches == s.batches && SearchAgain(s, e).summaries == s.summaries
    ensures SyncFound(s, e, skip).batches == s.batches && SyncFound(s, e, skip).summaries == s.summaries
    ensures RuleOff(s).batches == s.batches && RuleOff(s).summaries == s.summaries
  {
    hide Queue;
  }

  lemma MatchTouches(s: State, j: nat, skip: bool)
    requires j in s.libraries
    ensures LibraryMatch(s, j, skip).batches == s.batches && LibraryMatch(s, j, skip).summaries == s.summaries
  {
    hide Queue;
  }

  lemma FailTouches(s: State, j: nat, retry: bool)
    requires j in s.libraries && j in s.snapshots
    ensures LibraryNoMatch(s, j).batches == s.batches && LibraryNoMatch(s, j).summaries == s.summaries
    ensures LibraryFail(s, j, retry).batches == s.batches && LibraryFail(s, j, retry).summaries == s.summaries
  {
    hide Queue;
  }

  lemma MagnetTouches(s: State, j: nat, m: Magnet)
    requires j in s.magnets
    ensures MagnetDone(s, j, m).batches == s.batches && MagnetDone(s, j, m).summaries == s.summaries
    ensures MagnetRetry(s, j).batches == s.batches && MagnetRetry(s, j).summaries == s.summaries
  {
    hide OnlyActive;
  }

  /**
    As long as no lookup strands its entry: whoever waits for a magnet has a job, and every summary counts
    only settled entries.
   */
  lemma {:induction false} SummariesAreSettled(s: State, run: seq<Step>)
    requires Base(s) && NoneStranded(s) && SummariesOk(s) && Steps(s, run) && NeverStrands(s, run)
    ensures NoneStranded(After(s, run)) && SummariesOk(After(s, run))
    decreases |run|
  {
    hide Base, NoneStranded, SummariesOk, Next, Enabled, Strands;
    if run != [] {
      HandoffIsAtomic(s, run[0]);
      StepKeepsBase(s, run[0]);
      SummariesKept(s, run[0]);
      SummariesAreSettled(Next(s, run[0]), run[1..]);
    }
  }

  /** No step of the run reopens a batch that has been summarised. */
  ghost predicate NeverReopens(s: State, run: seq<Step>)
    requires Steps(s, run)
    decreases |run|
  {
    run == [] || (!(run[0].Reopen? && WasSummarised(s, run[0].b)) && NeverReopens(Next(s, run[0]), run[1..]))
  }

  /** Unless a summarised batch is reopened, no batch is summarised twice. */
  lemma {:induction false} SummarisedOnce(s: State, run: seq<Step>)
    requires OnceEach(s) && Steps(s, run) && NeverReopens(s, run)
    ensures OnceEach(After(s, run))
    decreases |run|
  {
    hide OnceEach, Next, Enabled, WasSummarised;
    if run != [] {
      OnceEachStep(s, run[0]);
      SummarisedOnce(Next(s, run[0]), run[1..]);
    }
  }

  function Start(): State { State(map[], map[], map[], map[], map[], map[], {}, 0, map[], []) }

  lemma StartIsSettled()
    ensures Base(Start()) && NoneStranded(Start()) && OnceEach(Start())
    ensures SummariesOk(Start()) && SummariesIdle(Start())
  {
  }

  /**
    From the empty tables on: unless a lookup strands its entry no summary finds a pending magnet, and
    unless a summarised batch is reopened none is summarised twice.
   */
  lemma EveryRunIsSettled(run: seq<Step>)
    requires Steps(Start(), run)
    ensures SummariesIdle(After(Start(), run))
    ensures NeverStrands(Start(), run) ==> NoneStranded(After(Start(), run)) && SummariesOk(After(Start(), run))
    ensures NeverReopens(Start(), run) ==> OnceEach(After(Start(), run))
  {
    StartIsSettled();
    hide *;
    NoActiveJobIsSummarised(Start(), run);
    if NeverStrands(Start(), run) {
      SummariesAreSettled(Start(), run);
    }
    if NeverReopens(Start(), run) {
      SummarisedOnce(Start(), run);
    }
  }

  /**
    How an entry is stranded: its lookup fails and will be retried, so its magnet is pending; the full sync
    then finds it without skipping magnets; the retry reads it as available and finds no match.
   */
  lemma StrandedExample()
    ensures var run := [Add(None, LibraryFirst, false), SeeLibrary(1), ClaimLibrary(1), LookupFails(1, true),
        Synced(0, false), SeeLibrary(1), ClaimLibrary(1)];
      && Steps(Start(), run) && Enabled(After(Start(), run), NoMatch(1)) && NoneStranded(After(Start(), run))
      && !NoneStranded(Next(After(Start(), run), NoMatch(1)))
  {
    var s1 := Start().(entries := map[0 := Entry(Unsearched, Elsewhere, None)], libraries := map[1 := Job(0, Queued)],
        nextId := 3);
    var s2 := s1.(seen := map[1 := Elsewhere]);
    var s3 := s1.(libraries := map[1 := Job(0, Running)], snapshots := map[1 := Elsewhere]);
    var s4 := s1.(entries := map[0 := Entry(Pending, Elsewhere, None)]);
    var s5 := s1.(entries := map[0 := Entry(Pending, Available, None)]);
    var s6 := s5.(seen := map[1 := Available]);
    var s7 := s5.(libraries := map[1 := Job(0, Running)], snapshots := map[1 := Available]);
    FirstSteps(s1, s2, s3, s4);
    LastSteps(s4, s5, s6, s7);
    LastStrands(s7);
    hide *;
    NothingLeft(s7);
    var r6 := Prepend(s6, ClaimLibrary(1), [], s7);
    var r5 := Prepend(s5, SeeLibrary(1), r6, s6);
    var r4 := Prepend(s4, Synced(0, false), r5, s5);
    var r3 := Prepend(s3, LookupFails(1, true), r4, s4);
    var r2 := Prepend(s2, ClaimLibrary(1), r3, s3);
    var r1 := Prepend(s1, SeeLibrary(1), r2, s2);
    var r0 := Prepend(Start(), Add(None, LibraryFirst, false), r1, s1);
    assert r0 == [Add(None, LibraryFirst, false), SeeLibrary(1), ClaimLibrary(1), LookupFails(1, true),
        Synced(0, false), SeeLibrary(1), ClaimLibrary(1)];
  }

  lemma FirstSteps(s1: State, s2: State, s3: State, s4: State)
    requires s1 == Start().(entries := map[0 := Entry(Unsearched, Elsewhere, None)],
        libraries := map[1 := Job(0, Queued)], nextId := 3)
    requires s2 == s1.(seen := map[1 := Elsewhere])
    requires s3 == s1.(libraries := map[1 := Job(0, Running)], snapshots := map[1 := Elsewhere])
    requires s4 == s1.(entries := map[0 := Entry(Pending, Elsewhere, None)])
    ensures Enabled(Start(), Add(None, LibraryFirst, false)) && Next(Start(), Add(None, LibraryFirst, false)) == s1
    ensures Enabled(s1, SeeLibrary(1)) && Next(s1, SeeLibrary(1)) == s2
    ensures Enabled(s2, ClaimLibrary(1)) && Next(s2, ClaimLibrary(1)) == s3
    ensures Enabled(s3, LookupFails(1, true)) && Next(s3, LookupFails(1, true)) == s4
  {
  }

  lemma LastSteps(s4: State, s5: State, s6: State, s7: State)
    requires s4.entries == map[0 := Entry(Pending, Elsewhere, None)] && s4.libraries == map[1 := Job(0, Queued)]
    requires s4.seen == map[] && s4.snapshots == map[]
    requires s5 == s4.(entries := map[0 := Entry(Pending, Available, None)])
    requires s6 == s5.(seen := map[1 := Available])
    requires s7 == s5.(libraries := map[1 := Job(0, Running)], snapshots := map[1 := Available])
    ensures Enabled(s4, Synced(0, false)) && Next(s4, Synced(0, false)) == s5
    ensures Enabled(s5, SeeLibrary(1)) && Next(s5, SeeLibrary(1)) == s6
    ensures Enabled(s6, ClaimLibrary(1)) && Next(s6, ClaimLibrary(1)) == s7
  {
  }

  lemma LastStrands(s: State)
    requires s.entries == map[0 := Entry(Pending, Available, None)] && s.libraries == map[1 := Job(0, Running)]
    requires s.snapshots == map[1 := Available] && s.magnets == map[]
    ensures Enabled(s, NoMatch(1)) && NoneStranded(s) && !NoneStranded(Next(s, NoMatch(1)))
  {
    assert 1 in s.libraries && s.libraries[1].entry == 0 && Active(s.libraries[1]);
    var r := Next(s, NoMatch(1));
    assert r.magnets == map[] && r.libraries == map[1 := Job(0, Finished)];
    assert !HasActive(r.libraries, 0) && !HasActive(r.magnets, 0);
    assert !Covered(r, 0);
  }

  lemma NothingLeft(s: State)
    ensures Steps(s, []) && After(s, []) == s
  {
  }

  lemma Prepend(s: State, step: Step, rest: seq<Step>, r: State) returns (run: seq<Step>)
    requires Enabled(s, step) && Next(s, step) == r && Steps(r, rest)
    ensures run == [step] + rest && Steps(s, run) && After(s, run) == After(r, rest)
  {
    hide Enabled, Next;
    run := [step] + rest;
    assert run[1..] == rest;
  }
}
