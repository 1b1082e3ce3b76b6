/**
  What each transaction of the handoff does to its own entry, and that it leaves all others alone
  (server/library-worker.ts, server/magnet-worker.ts, server/release-worker.ts, server/jellyfin-sync.ts,
  server/capture.ts, server/routes/).
 */
module HandoffSteps {
  import opened Options
  import opened Handoff

  // --- Other entries ---

  /** The rows of entry `x` are the same in both tables. */
  ghost predicate SameRows(a: map<nat, Job>, b: map<nat, Job>, x: nat) {
    && (forall j :: j in a && a[j].entry == x ==> j in b && b[j] == a[j])
    && (forall j :: j in b && b[j].entry == x ==> j in a && a[j] == b[j])
  }

  ghost predicate Untouched(s: State, r: State, x: nat) {
    && (x in r.entries <==> x in s.entries) && (x in s.entries ==> r.entries[x] == s.entries[x])
    && SameRows(s.magnets, r.magnets, x) && SameRows(s.libraries, r.libraries, x)
    && SameRows(s.releases, r.releases, x)
  }

  /** The entry a step is about; steps about batches alone are about none. */
  function About(s: State, step: Step): Option<nat>
    requires Enabled(s, step)
  {
    match step
    case StartBatch(_) => None
    case Publish(_) => None
    case Reopen(_) => None
    case Summarised(_) => None
    case RulesOff => None
    case Add(_, _, _) => Some(s.nextId)
    case Adopt(e, _) => Some(e)
    case Again(e) => Some(e)
    case Synced(e, _) => Some(e)
    case Missing(e) => Some(e)
    case QueueRelease(e) => Some(e)
    case Remove(e) => Some(e)
    case SeeLibrary(j) => Some(s.libraries[j].entry)
    case ClaimLibrary(j) => Some(s.libraries[j].entry)
    case Match(j, _) => Some(s.libraries[j].entry)
    case NoMatch(j) => Some(s.libraries[j].entry)
    case LookupFails(j, _) => Some(s.libraries[j].entry)
    case ClaimMagnet(j) => Some(s.magnets[j].entry)
    case RecoverMagnet(j) => Some(s.magnets[j].entry)
    case SearchDone(j, _) => Some(s.magnets[j].entry)
    case SearchRetries(j) => Some(s.magnets[j].entry)
    case Release(j, _) => Some(s.releases[j].entry)
  }

  lemma QueueOthers(jobs: map<nat, Job>, e: nat, id: nat, x: nat)
    requires id !in jobs && x != e
    ensures SameRows(jobs, Queue(jobs, e, id), x)
  {
  }

  lemma RowOthers(jobs: map<nat, Job>, j: nat, job: Job, x: nat)
    requires j in jobs && job.entry == jobs[j].entry && x != job.entry
    ensures SameRows(jobs, jobs[j := job], x)
  {
  }

  lemma WithoutOthers(jobs: map<nat, Job>, e: nat, x: nat)
    requires x != e
    ensures SameRows(jobs, Without(jobs, e), x)
  {
  }

  lemma SameItself(jobs: map<nat, Job>, x: nat)
    ensures SameRows(jobs, jobs, x)
  {
  }

  lemma Transitive(s: State, t: State, r: State, x: nat)
    requires Untouched(s, t, x) && Untouched(t, r, x)
    ensures Untouched(s, r, x)
  {
  }

  /** A statement that writes one part of the state. */
  lemma WritesEntry(s: State, r: State, x: nat)
    requires r == s.(entries := r.entries)
    requires (x in r.entries <==> x in s.entries) && (x in s.entries ==> r.entries[x] == s.entries[x])
    ensures Untouched(s, r, x)
  {
  }

  lemma WritesMagnets(s: State, r: State, x: nat)
    requires r == s.(magnets := r.magnets, nextId := r.nextId, touched := r.touched)
        && SameRows(s.magnets, r.magnets, x)
    ensures Untouched(s, r, x)
  {
  }

  lemma WritesLibraries(s: State, r: State, x: nat)
    requires r == s.(libraries := r.libraries, seen := r.seen, snapshots := r.snapshots)
    requires SameRows(s.libraries, r.libraries, x)
    ensures Untouched(s, r, x)
  {
  }

  lemma WritesReleases(s: State, r: State, x: nat)
    requires r == s.(releases := r.releases, nextId := r.nextId) && SameRows(s.releases, r.releases, x)
    ensures Untouched(s, r, x)
  {
  }

  lemma SetMagnetOthers(s: State, e: nat, m: Magnet, x: nat)
    requires x != e
    ensures Untouched(s, SetMagnet(s, e, m), x)
  {
    hide Untouched;
    WritesEntry(s, SetMagnet(s, e, m), x);
  }

  lemma SetLibraryOthers(s: State, e: nat, l: Library, x: nat)
    requires x != e
    ensures Untouched(s, SetLibrary(s, e, l), x)
  {
    hide Untouched;
    WritesEntry(s, SetLibrary(s, e, l), x);
  }

  lemma QueueMagnetOthers(s: State, e: nat, x: nat)
    requires x != e && s.nextId !in s.magnets
    ensures Untouched(s, QueueMagnet(s, e), x)
  {
    QueueOthers(s.magnets, e, s.nextId, x);
    hide Queue, SameRows, Untouched;
    WritesMagnets(s, QueueMagnet(s, e), x);
  }

  lemma FinishOthers(s: State, j: nat, x: nat)
    requires j in s.libraries && x != s.libraries[j].entry
    ensures Untouched(s, FinishLibrary(s, j), x)
  {
    RowOthers(s.libraries, j, s.libraries[j].(status := Finished), x);
    hide SameRows, Untouched;
    WritesLibraries(s, FinishLibrary(s, j), x);
  }

  /** What the statements before the last one of a lookup leave as it was. */
  lemma SetFrame(s: State, e: nat, m: Magnet, l: Library)
    ensures var t := SetMagnet(s, e, m);
            t.libraries == s.libraries && t.magnets == s.magnets && t.nextId == s.nextId
    ensures var t := SetLibrary(s, e, l);
            t.libraries == s.libraries && t.magnets == s.magnets && t.nextId == s.nextId
  {
  }

  lemma QueueFrame(s: State, e: nat)
    ensures QueueMagnet(s, e).libraries == s.libraries
  {
    hide Queue;
  }

  lemma MatchOthers(s: State, j: nat, skip: bool, x: nat)
    requires Base(s) && Enabled(s, Match(j, skip)) && x != s.libraries[j].entry
    ensures Untouched(s, LibraryMatch(s, j, skip), x)
  {
    var e := s.libraries[j].entry;
    var t := SetLibrary(s, e, Available);
    var u := if skip then SetMagnet(t, e, SkippedMagnet) else QueueMagnet(t, e);
    FreshId(s);
    hide *;
    SetFrame(s, e, SkippedMagnet, Available);
    SetFrame(t, e, SkippedMagnet, Available);
    QueueFrame(t, e);
    SetLibraryOthers(s, e, Available, x);
    SetMagnetOthers(t, e, SkippedMagnet, x);
    QueueMagnetOthers(t, e, x);
    Transitive(s, t, u, x);
    FinishOthers(u, j, x);
    Transitive(s, u, FinishLibrary(u, j), x);
    MatchIs(s, j, skip);
  }

  lemma MatchIs(s: State, j: nat, skip: bool)
    requires j in s.libraries
    ensures var e := s.libraries[j].entry;
            var t := SetLibrary(s, e, Available);
            var u := if skip then SetMagnet(t, e, SkippedMagnet) else QueueMagnet(t, e);
            j in u.libraries && LibraryMatch(s, j, skip) == FinishLibrary(u, j)
  {
    SetFrame(s, s.libraries[j].entry, SkippedMagnet, Available);
    SetFrame(SetLibrary(s, s.libraries[j].entry, Available), s.libraries[j].entry, SkippedMagnet, Available);
    QueueFrame(SetLibrary(s, s.libraries[j].entry, Available), s.libraries[j].entry);
    hide SetLibrary, SetMagnet, QueueMagnet, FinishLibrary;
  }

  lemma HandOverLeaves(s: State, j: nat, x: nat)
    requires j in s.libraries && j in s.snapshots && x != s.libraries[j].entry
    ensures Untouched(s, HandOver(s, j), x)
  {
    HandOverEntries(s, j, x);
    HandOverKeeps(s, j);
    hide HandOver;
    WritesEntry(s, HandOver(s, j), x);
  }

  lemma LookupOthers(s: State, j: nat, retry: bool, x: nat)
    requires Base(s) && Enabled(s, LookupFails(j, retry)) && x != s.libraries[j].entry
    ensures Untouched(s, LibraryFail(s, j, retry), x)
  {
    var e := s.libraries[j].entry;
    var t := HandOver(s, j);
    HandOverLeaves(s, j, x);
    HandOverKeeps(s, j);
    FreshId(s);
    hide HandOver, Untouched, Base;
    QueueMagnetOthers(t, e, x);
    if retry {
      RowOthers(t.libraries, j, Job(e, Queued), x);
      hide SameRows;
      WritesLibraries(t, LibraryFail(s, j, retry), x);
      Transitive(s, t, LibraryFail(s, j, retry), x);
    } else {
      var u := if s.snapshots[j] == Available then t else QueueMagnet(t, e);
      QueueFrame(t, e);
      hide SameRows, Queue, QueueMagnet;
      if s.snapshots[j] != Available {
        Transitive(s, t, u, x);
      }
      FinishOthers(u, j, x);
      Transitive(s, u, FinishLibrary(u, j), x);
    }
  }

  lemma LibraryOthers(s: State, step: Step, x: nat)
    requires Base(s) && Enabled(s, step) && (step.Match? || step.NoMatch? || step.LookupFails?)
    requires x != s.libraries[step.j].entry
    ensures Untouched(s, Next(s, step), x)
  {
    hide Base, Untouched, LibraryMatch, HandOver, Queue;
    match step
    case Match(j, skip) => MatchOthers(s, j, skip, x);
    case NoMatch(j) => LookupOthers(s, j, false, x);
    case LookupFails(j, retry) => LookupOthers(s, j, retry, x);
  }

  lemma HandOverKeeps(s: State, j: nat)
    requires j in s.libraries && j in s.snapshots
    ensures HandOver(s, j) == s.(entries := HandOver(s, j).entries)
  {
  }

  lemma AddOthers(s: State, batch: Option<nat>, first: FirstJob, release: bool, x: nat)
    requires Base(s) && x != s.nextId
    ensures Untouched(s, AddEntry(s, batch, first, release), x)
  {
    hide *;
    var t := Entered(s, batch, first);
    EnteredOthers(s, batch, first, x);
    NoneBelow(s);
    AddEntryIs(s, batch, first, release);
    AddedJobsOthers(t, s.nextId, first, release, x);
    Transitive(s, t, AddEntry(s, batch, first, release), x);
  }

  lemma AddedJobsOthers(t: State, e: nat, first: FirstJob, release: bool, x: nat)
    requires x != e && e + 1 !in t.magnets && e + 1 !in t.libraries && e + 2 !in t.releases
    ensures Untouched(t, WithFirstJob(WithRelease(t, e, e + 2, release), e, e + 1, first), x)
  {
    hide *;
    var u := WithRelease(t, e, e + 2, release);
    QueueOthers(t.magnets, e, e + 1, x);
    QueueOthers(t.libraries, e, e + 1, x);
    QueueOthers(t.releases, e, e + 2, x);
    WithReleaseOthers(t, e, e + 2, release, x);
    WithFirstJobOthers(u, e, e + 1, first, x);
    Transitive(t, u, WithFirstJob(u, e, e + 1, first), x);
  }

  lemma NoneBelow(s: State)
    requires Base(s)
    ensures s.nextId + 1 !in s.magnets && s.nextId + 1 !in s.libraries && s.nextId + 2 !in s.releases
  {
  }

  lemma EnteredOthers(s: State, batch: Option<nat>, first: FirstJob, x: nat)
    requires x != s.nextId
    ensures var t := Entered(s, batch, first);
            Untouched(s, t, x) && t.magnets == s.magnets && t.libraries == s.libraries && t.releases == s.releases
  {
    SameItself(s.magnets, x);
    SameItself(s.libraries, x);
    SameItself(s.releases, x);
    hide SameRows;
  }

  lemma WithReleaseOthers(s: State, e: nat, id: nat, release: bool, x: nat)
    requires SameRows(s.releases, Queue(s.releases, e, id), x)
    ensures var r := WithRelease(s, e, id, release);
            Untouched(s, r, x) && r.magnets == s.magnets && r.libraries == s.libraries
  {
    hide Queue, Untouched, SameRows;
    SameItself(s.releases, x);
    WritesReleases(s, WithRelease(s, e, id, release), x);
  }

  lemma WithFirstJobOthers(s: State, e: nat, id: nat, first: FirstJob, x: nat)
    requires SameRows(s.magnets, Queue(s.magnets, e, id), x) && SameRows(s.libraries, Queue(s.libraries, e, id), x)
    ensures Untouched(s, WithFirstJob(s, e, id, first), x)
  {
    hide Queue, Untouched, SameRows;
    SameItself(s.magnets, x);
    match first
    case MagnetFirst => WritesMagnets(s, WithFirstJob(s, e, id, first), x);
    case LibraryFirst => WritesLibraries(s, WithFirstJob(s, e, id, first), x);
    case NoJob => WritesMagnets(s, WithFirstJob(s, e, id, first), x);
  }

  lemma MagnetOthers(s: State, step: Step, x: nat)
    requires Enabled(s, step)
    requires step.ClaimMagnet? || step.RecoverMagnet? || step.SearchDone? || step.SearchRetries?
    requires x != s.magnets[step.j].entry
    ensures Untouched(s, Next(s, step), x)
  {
    var j, e := step.j, s.magnets[step.j].entry;
    RowOthers(s.magnets, j, Job(e, Finished), x);
    RowOthers(s.magnets, j, Job(e, Queued), x);
    RowOthers(s.magnets, j, Job(e, Running), x);
    SameItself(s.magnets, x);
    assert s.magnets[j].(status := Running) == Job(e, Running) && s.magnets[j].(status := Queued) == Job(e, Queued);
    hide SameRows, OnlyActive, Untouched;
    if step.ClaimMagnet? || step.RecoverMagnet? {
      WritesMagnets(s, Next(s, step), x);
    } else {
      OutcomeOthers(s, e, if step.SearchDone? then step.m else Pending, j, x);
      WritesMagnets(s, s, x);
    }
  }

  lemma OutcomeOthers(s: State, e: nat, m: Magnet, j: nat, x: nat)
    requires x != e
    requires SameRows(s.magnets, s.magnets[j := Job(e, Finished)], x)
    requires SameRows(s.magnets, s.magnets[j := Job(e, Queued)], x)
    ensures Untouched(s, SetMagnet(s, e, m).(magnets := s.magnets[j := Job(e, Finished)]), x)
    ensures Untouched(s, SetMagnet(s, e, m).(magnets := s.magnets[j := Job(e, Queued)]), x)
  {
    var t := SetMagnet(s, e, m);
    SetMagnetOthers(s, e, m, x);
    SetFrame(s, e, m, Available);
    hide SetMagnet, SameRows, Untouched;
    WritesMagnets(t, t.(magnets := s.magnets[j := Job(e, Finished)]), x);
    WritesMagnets(t, t.(magnets := s.magnets[j := Job(e, Queued)]), x);
    Transitive(s, t, t.(magnets := s.magnets[j := Job(e, Finished)]), x);
    Transitive(s, t, t.(magnets := s.magnets[j := Job(e, Queued)]), x);
  }

  lemma AgainOthers(s: State, e: nat, x: nat)
    requires Base(s) && x != e
    ensures Untouched(s, SearchAgain(s, e), x)
  {
    var t := SetMagnet(s, e, Pending);
    FreshId(s);
    SetFrame(s, e, Pending, Available);
    hide Base, Untouched, SetMagnet, QueueMagnet;
    SetMagnetOthers(s, e, Pending, x);
    QueueMagnetOthers(t, e, x);
    Transitive(s, t, QueueMagnet(t, e), x);
  }

  lemma QueueReleaseOthers(s: State, e: nat, x: nat)
    requires Base(s) && x != e && e in s.entries
    ensures Untouched(s, Next(s, QueueRelease(e)), x)
  {
    assert s.nextId !in s.releases;
    QueueOthers(s.releases, e, s.nextId, x);
    hide Queue, SameRows, Untouched, Base;
    WritesReleases(s, Next(s, QueueRelease(e)), x);
  }

  lemma RemoveOthers(s: State, e: nat, x: nat)
    requires x != e
    ensures Untouched(s, Next(s, Remove(e)), x)
  {
    WithoutOthers(s.magnets, e, x);
    WithoutOthers(s.libraries, e, x);
    WithoutOthers(s.releases, e, x);
    hide SameRows, Without;
  }

  lemma SyncOthers(s: State, e: nat, skip: bool, x: nat)
    requires x != e
    ensures Untouched(s, SyncFound(s, e, skip), x)
  {
    SyncWritesEntries(s, e, skip);
    hide Untouched;
    WritesEntry(s, SyncFound(s, e, skip), x);
  }

  lemma RowStepOthers(s: State, step: Step, x: nat)
    requires Enabled(s, step) && About(s, step) != Some(x)
    requires step.Adopt? || step.Missing? || step.SeeLibrary? || step.ClaimLibrary? || step.Release?
    ensures Untouched(s, Next(s, step), x)
  {
    SameItself(s.libraries, x);
    match step {
      case ClaimLibrary(j) => RowOthers(s.libraries, j, s.libraries[j].(status := Running), x);
      case Release(j, status) => RowOthers(s.releases, j, s.releases[j].(status := status), x);
      case SeeLibrary(_) =>
      case Adopt(_, _) =>
      case Missing(_) =>
    }
    hide SameRows, Untouched;
    if step.SeeLibrary? || step.ClaimLibrary? {
      WritesLibraries(s, Next(s, step), x);
    } else if step.Release? {
      WritesReleases(s, Next(s, step), x);
    } else {
      WritesEntry(s, Next(s, step), x);
    }
  }

  lemma EntryOthers(s: State, step: Step, x: nat)
    requires Base(s) && Enabled(s, step) && About(s, step) != Some(x)
    requires step.Again? || step.Synced? || step.QueueRelease? || step.Remove?
    ensures Untouched(s, Next(s, step), x)
  {
    match step
    case Again(e) =>
      hide SearchAgain, Untouched, Base;
      AgainOthers(s, e, x);
    case Synced(e, skip) =>
      hide SyncFound, Untouched, Base;
      SyncOthers(s, e, skip, x);
    case QueueRelease(e) =>
      hide Untouched, Base, Next;
      QueueReleaseOthers(s, e, x);
    case Remove(e) =>
      hide Untouched, Base, Next;
      RemoveOthers(s, e, x);
  }

  /** A transaction touches no entry, and no job, but those of the entry it is about. */
  lemma StepTouchesOne(s: State, step: Step, x: nat)
    requires Base(s) && Enabled(s, step) && !step.RulesOff? && About(s, step) != Some(x)
    ensures Untouched(s, Next(s, step), x)
  {
    if step.Match? || step.NoMatch? || step.LookupFails? {
      hide Untouched, Base, Next;
      LibraryOthers(s, step, x);
    } else if step.Add? {
      hide Untouched, Base, AddEntry;
      AddOthers(s, step.batch, step.first, step.release, x);
    } else if step.ClaimMagnet? || step.RecoverMagnet? || step.SearchDone? || step.SearchRetries? {
      hide Untouched, Base, Next;
      MagnetOthers(s, step, x);
    } else if step.StartBatch? || step.Publish? || step.Reopen? || step.Summarised? {
      BatchOthers(s, step, x);
    } else if step.Adopt? || step.Missing? || step.SeeLibrary? || step.ClaimLibrary? || step.Release? {
      hide Untouched, Base, Next;
      RowStepOthers(s, step, x);
    } else {
      hide Untouched, Base, Next;
      EntryOthers(s, step, x);
    }
  }

  lemma BatchOthers(s: State, step: Step, x: nat)
    requires Enabled(s, step) && (step.StartBatch? || step.Publish? || step.Reopen? || step.Summarised?)
    ensures Untouched(s, Next(s, step), x)
  {
    SameItself(s.magnets, x);
    SameItself(s.libraries, x);
    SameItself(s.releases, x);
    hide SameRows, BatchIdle, PendingIn, AllActiveIn;
  }

  // --- A new entry ---

  predicate EntriesKnown(jobs: map<nat, Job>, nextId: nat) { forall j :: j in jobs ==> jobs[j].entry < nextId }

  /** Every entry, and every entry a job names, has been given its id. */
  predicate Fresh(s: State) {
    && (forall e :: e in s.entries ==> e < s.nextId)
    && EntriesKnown(s.magnets, s.nextId) && EntriesKnown(s.libraries, s.nextId) && EntriesKnown(s.releases, s.nextId)
  }

  lemma KnownQueue(jobs: map<nat, Job>, e: nat, id: nat, nextId: nat, later: nat)
    requires EntriesKnown(jobs, nextId) && nextId <= later && e < later
    ensures EntriesKnown(Queue(jobs, e, id), later) && EntriesKnown(jobs, later)
  {
    hide HasActive;
  }

  lemma KnownRow(jobs: map<nat, Job>, j: nat, job: Job, nextId: nat)
    requires EntriesKnown(jobs, nextId) && j in jobs && job.entry == jobs[j].entry
    ensures EntriesKnown(jobs[j := job], nextId)
  {
  }

  lemma FreshWrites(s: State, r: State)
    requires Fresh(s) && s.nextId <= r.nextId && r.entries.Keys <= s.entries.Keys
    requires EntriesKnown(r.magnets, r.nextId) && EntriesKnown(r.libraries, r.nextId)
        && EntriesKnown(r.releases, r.nextId)
    ensures Fresh(r)
  {
    hide EntriesKnown;
    forall e | e in r.entries ensures e < r.nextId {
      assert e in r.entries.Keys;
    }
  }

  lemma SetMagnetFresh(s: State, e: nat, m: Magnet)
    requires Fresh(s)
    ensures Fresh(SetMagnet(s, e, m))
  {
    hide EntriesKnown;
    FreshWrites(s, SetMagnet(s, e, m));
  }

  lemma SetLibraryFresh(s: State, e: nat, l: Library)
    requires Fresh(s)
    ensures Fresh(SetLibrary(s, e, l))
  {
    hide EntriesKnown;
    FreshWrites(s, SetLibrary(s, e, l));
  }

  lemma SetFresh(s: State, e: nat, m: Magnet, l: Library)
    requires Fresh(s)
    ensures Fresh(SetMagnet(s, e, m)) && Fresh(SetLibrary(s, e, l))
  {
    hide *;
    SetMagnetFresh(s, e, m);
    SetLibraryFresh(s, e, l);
  }

  lemma QueueFresh(s: State, e: nat)
    requires Fresh(s) && e < s.nextId
    ensures Fresh(QueueMagnet(s, e))
  {
    KnownQueue(s.magnets, e, s.nextId, s.nextId, s.nextId + 1);
    KnownQueue(s.libraries, e, s.nextId, s.nextId, s.nextId + 1);
    KnownQueue(s.releases, e, s.nextId, s.nextId, s.nextId + 1);
    hide EntriesKnown, Queue;
    FreshWrites(s, QueueMagnet(s, e));
  }

  lemma FinishFresh(s: State, j: nat)
    requires Fresh(s) && j in s.libraries
    ensures Fresh(FinishLibrary(s, j))
  {
    KnownRow(s.libraries, j, s.libraries[j].(status := Finished), s.nextId);
    hide EntriesKnown;
    FreshWrites(s, FinishLibrary(s, j));
  }

  lemma KnownEntry(s: State, j: nat)
    requires Fresh(s) && j in s.libraries
    ensures s.libraries[j].entry < s.nextId
  {
  }

  lemma FreshMatch(s: State, j: nat, skip: bool)
    requires Fresh(s) && Enabled(s, Match(j, skip))
    ensures Fresh(LibraryMatch(s, j, skip))
  {
    var e := s.libraries[j].entry;
    var t := SetLibrary(s, e, Available);
    KnownEntry(s, j);
    hide *;
    SetFrame(s, e, SkippedMagnet, Available);
    MatchIs(s, j, skip);
    SetFresh(s, e, Found, Available);
    SetFresh(t, e, SkippedMagnet, Available);
    QueueFresh(t, e);
    FinishFresh(if skip then SetMagnet(t, e, SkippedMagnet) else QueueMagnet(t, e), j);
  }

  lemma FreshLookup(s: State, j: nat, retry: bool)
    requires Fresh(s) && Enabled(s, LookupFails(j, retry))
    ensures Fresh(LibraryFail(s, j, retry))
  {
    var e := s.libraries[j].entry;
    var t := HandOver(s, j);
    KnownEntry(s, j);
    HandOverKeeps(s, j);
    HandOverKeys(s, j);
    KnownRow(s.libraries, j, Job(e, Queued), s.nextId);
    assert Fresh(t) by {
      hide EntriesKnown, HandOver;
      FreshWrites(s, t);
    }
    hide HandOver, EntriesKnown;
    if retry {
      FreshWrites(t, LibraryFail(s, j, retry));
    } else {
      QueueFrame(t, e);
      hide Fresh, QueueMagnet;
      QueueFresh(t, e);
      FinishFresh(if s.snapshots[j] == Available then t else QueueMagnet(t, e), j);
    }
  }

  lemma FreshLibrary(s: State, step: Step)
    requires Fresh(s) && Enabled(s, step) && (step.Match? || step.NoMatch? || step.LookupFails?)
    ensures Fresh(Next(s, step))
  {
    hide Fresh, LibraryMatch, HandOver, Queue;
    match step
    case Match(j, skip) => FreshMatch(s, j, skip);
    case NoMatch(j) => FreshLookup(s, j, false);
    case LookupFails(j, retry) => FreshLookup(s, j, retry);
  }

  lemma HandOverKeys(s: State, j: nat)
    requires j in s.libraries && j in s.snapshots
    ensures HandOver(s, j).entries.Keys == s.entries.Keys
  {
  }

  lemma FreshAdd(s: State, batch: Option<nat>, first: FirstJob, release: bool)
    requires Fresh(s)
    ensures Fresh(AddEntry(s, batch, first, release))
  {
    var e, t := s.nextId, Entered(s, batch, first);
    KnownQueue(s.magnets, e, e + 1, e, e + 3);
    KnownQueue(s.libraries, e, e + 1, e, e + 3);
    KnownQueue(s.releases, e, e + 2, e, e + 3);
    EnteredFresh(s, batch, first);
    AddFrame(s, batch, first, release);
    hide EntriesKnown, Queue, AddEntry, Entered, Fresh;
    FreshWrites(t, AddEntry(s, batch, first, release));
  }

  lemma EnteredFresh(s: State, batch: Option<nat>, first: FirstJob)
    requires Fresh(s)
    ensures Fresh(Entered(s, batch, first))
  {
  }

  lemma AddFrame(s: State, batch: Option<nat>, first: FirstJob, release: bool)
    ensures var e, t, r := s.nextId, Entered(s, batch, first), AddEntry(s, batch, first, release);
      && t.nextId == r.nextId == e + 3 && r.entries == t.entries
      && (r.magnets == s.magnets || r.magnets == Queue(s.magnets, e, e + 1))
      && (r.libraries == s.libraries || r.libraries == Queue(s.libraries, e, e + 1))
      && (r.releases == s.releases || r.releases == Queue(s.releases, e, e + 2))
  {
    hide Queue;
  }

  lemma FreshOutcome(s: State, e: nat, m: Magnet, jobs: map<nat, Job>)
    requires Fresh(s) && EntriesKnown(jobs, s.nextId)
    ensures Fresh(SetMagnet(s, e, m).(magnets := jobs))
  {
    SetFresh(s, e, m, Available);
    SetFrame(s, e, m, Available);
    hide EntriesKnown, SetMagnet;
    FreshWrites(SetMagnet(s, e, m), SetMagnet(s, e, m).(magnets := jobs));
  }

  lemma FreshMagnet(s: State, step: Step)
    requires Fresh(s) && Enabled(s, step)
    requires step.ClaimMagnet? || step.RecoverMagnet? || step.SearchDone? || step.SearchRetries?
    ensures Fresh(Next(s, step))
  {
    var j := step.j;
    var e := s.magnets[j].entry;
    KnownRow(s.magnets, j, Job(e, Queued), s.nextId);
    KnownRow(s.magnets, j, Job(e, Running), s.nextId);
    KnownRow(s.magnets, j, Job(e, Finished), s.nextId);
    assert s.magnets[j].(status := Running) == Job(e, Running) && s.magnets[j].(status := Queued) == Job(e, Queued);
    hide EntriesKnown, OnlyActive;
    if step.ClaimMagnet? || step.RecoverMagnet? {
      FreshWrites(s, Next(s, step));
    } else {
      FreshOutcome(s, e, if step.SearchDone? then step.m else Pending, s.magnets[j := Job(e, Finished)]);
      FreshOutcome(s, e, Pending, s.magnets[j := Job(e, Queued)]);
      hide Fresh, SetMagnet;
    }
  }

  lemma FreshRulesOff(s: State)
    requires Fresh(s)
    ensures Fresh(RuleOff(s))
  {
  }

  lemma FreshAgain(s: State, e: nat)
    requires Fresh(s) && e in s.entries
    ensures Fresh(SearchAgain(s, e))
  {
    assert e < s.nextId;
    SetFrame(s, e, Pending, Available);
    SetFresh(s, e, Pending, Available);
    hide Fresh, SetMagnet, QueueMagnet;
    QueueFresh(SetMagnet(s, e, Pending), e);
  }

  lemma FreshRelease(s: State, e: nat)
    requires Fresh(s) && e in s.entries
    ensures Fresh(Next(s, QueueRelease(e)))
  {
    KnownQueue(s.magnets, e, s.nextId, s.nextId, s.nextId + 1);
    KnownQueue(s.libraries, e, s.nextId, s.nextId, s.nextId + 1);
    KnownQueue(s.releases, e, s.nextId, s.nextId, s.nextId + 1);
    hide EntriesKnown, Queue;
    FreshWrites(s, Next(s, QueueRelease(e)));
  }

  lemma FreshSync(s: State, e: nat, skip: bool)
    requires Fresh(s)
    ensures Fresh(SyncFound(s, e, skip)) && Fresh(SetLibrary(s, e, Elsewhere))
  {
    hide Fresh, SetMagnet, SetLibrary;
    SetFresh(s, e, Pending, Available);
    SetFresh(s, e, Pending, Elsewhere);
    SetFresh(SetLibrary(s, e, Available), e, SkippedMagnet, Available);
  }

  lemma FreshOther(s: State, step: Step)
    requires Fresh(s) && Enabled(s, step)
    requires step.StartBatch? || step.Publish? || step.Reopen? || step.Summarised? || step.Adopt? || step.SeeLibrary?
        || step.ClaimLibrary? || step.Release? || step.Remove?
    ensures Fresh(Next(s, step))
  {
    hide BatchIdle, PendingIn, AllActiveIn;
  }

  lemma FreshKept(s: State, step: Step)
    requires Fresh(s) && Enabled(s, step)
    ensures Fresh(Next(s, step))
  {
    hide Fresh, Next;
    if step.Match? || step.NoMatch? || step.LookupFails? {
      FreshLibrary(s, step);
    } else if step.Add? {
      FreshAdd(s, step.batch, step.first, step.release);
      AddIs(s, step);
    } else if step.ClaimMagnet? || step.RecoverMagnet? || step.SearchDone? || step.SearchRetries? {
      FreshMagnet(s, step);
    } else if step.RulesOff? {
      FreshRulesOff(s);
      RulesOffIs(s);
    } else if step.Again? {
      FreshAgain(s, step.e);
      AgainIs(s, step.e);
    } else if step.QueueRelease? {
      FreshRelease(s, step.e);
    } else if step.Synced? || step.Missing? {
      FreshSync(s, step.e, step.Synced? && step.skip);
      SyncIs(s, step);
    } else {
      FreshOther(s, step);
    }
  }

  lemma RulesOffIs(s: State)
    ensures Next(s, RulesOff) == RuleOff(s)
  {
    hide RuleOff;
  }

  lemma AgainIs(s: State, e: nat)
    requires e in s.entries
    ensures Next(s, Again(e)) == SearchAgain(s, e)
  {
    hide SearchAgain;
  }

  lemma SyncIs(s: State, step: Step)
    requires Enabled(s, step) && (step.Synced? || step.Missing?)
    ensures Next(s, step) == if step.Synced? then SyncFound(s, step.e, step.skip) else SetLibrary(s, step.e, Elsewhere)
  {
    hide SyncFound, SetLibrary;
  }

  lemma AddIs(s: State, step: Step)
    requires Enabled(s, step) && step.Add?
    ensures Next(s, step) == AddEntry(s, step.batch, step.first, step.release)
  {
    hide AddEntry;
  }

  lemma {:induction false} FreshRuns(s: State, run: seq<Step>)
    requires Fresh(s) && Steps(s, run)
    ensures Fresh(After(s, run))
    decreases |run|
  {
    hide Fresh, Next, Enabled;
    if run != [] {
      FreshKept(s, run[0]);
      FreshRuns(Next(s, run[0]), run[1..]);
    }
  }

  /** A new row queued for an entry without any is its one active row. */
  lemma QueueOwn(jobs: map<nat, Job>, e: nat, id: nat)
    requires id !in jobs && forall j :: j in jobs ==> jobs[j].entry != e
    ensures !HasActive(jobs, e) && HasActive(Queue(jobs, e, id), e)
  {
    QueueActive(jobs, e, id, e);
  }

  /**
    In every run a new entry gets an id of its own and its batch, waits for a magnet exactly when the magnet
    search comes first, and has an active job of each kind that was asked for and of no other.
   */
  lemma NewEntryIsServed(run: seq<Step>, batch: Option<nat>, first: FirstJob, release: bool)
    requires Steps(Start(), run) && Enabled(After(Start(), run), Add(batch, first, release))
    ensures var s := After(Start(), run);
            var e, r := s.nextId, Next(s, Add(batch, first, release));
      && e !in s.entries && e in r.entries && r.nextId > e
      && r.entries[e].batch == batch && r.entries[e].library == Elsewhere
      && r.entries[e].magnet == (if first == MagnetFirst then Pending else Unsearched)
      && (HasActive(r.magnets, e) <==> first == MagnetFirst)
      && (HasActive(r.libraries, e) <==> first == LibraryFirst)
      && (HasActive(r.releases, e) <==> release)
  {
    var s := After(Start(), run);
    StartIsSettled();
    FreshRuns(Start(), run);
    BaseRuns(Start(), run);
    hide *;
    NewEntryFrom(s, batch, first, release);
  }

  lemma NewEntryFrom(s: State, batch: Option<nat>, first: FirstJob, release: bool)
    requires Base(s) && Fresh(s) && Enabled(s, Add(batch, first, release))
    ensures var e, r := s.nextId, Next(s, Add(batch, first, release));
      && e !in s.entries && e in r.entries && r.nextId > e
      && r.entries[e].batch == batch && r.entries[e].library == Elsewhere
      && r.entries[e].magnet == (if first == MagnetFirst then Pending else Unsearched)
      && (HasActive(r.magnets, e) <==> first == MagnetFirst)
      && (HasActive(r.libraries, e) <==> first == LibraryFirst)
      && (HasActive(r.releases, e) <==> release)
  {
    QueueOwn(s.magnets, s.nextId, s.nextId + 1);
    QueueOwn(s.libraries, s.nextId, s.nextId + 1);
    QueueOwn(s.releases, s.nextId, s.nextId + 2);
    hide HasActive, Queue, Base, Fresh;
  }

  lemma {:induction false} BaseRuns(s: State, run: seq<Step>)
    requires Base(s) && Steps(s, run)
    ensures Base(After(s, run))
    decreases |run|
  {
    hide Base, Next, Enabled;
    if run != [] {
      StepKeepsBase(s, run[0]);
      BaseRuns(Next(s, run[0]), run[1..]);
    }
  }

  // --- The library lookup ---

  /** The claim finds the job waiting, runs it, and takes over what was read about the entry. */
  lemma LibraryClaimTakes(s: State, j: nat)
    requires Enabled(s, ClaimLibrary(j))
    ensures var r := Next(s, ClaimLibrary(j));
      && r.libraries == s.libraries[j := Job(s.libraries[j].entry, Running)]
      && j in r.snapshots && r.snapshots[j] == s.seen[j] && j !in r.seen
  {
  }

  lemma LookingReads(s: State, j: nat)
    requires Enabled(s, SeeLibrary(j))
    ensures j in Next(s, SeeLibrary(j)).seen
    ensures Next(s, SeeLibrary(j)).seen[j] == s.entries[s.libraries[j].entry].library
  {
  }

  /** The lookup is over: its job has ended and no other of the entry is active. */
  predicate LookupOver(r: State, j: nat, e: nat) {
    j in r.libraries && r.libraries[j] == Job(e, Finished) && !HasActive(r.libraries, e) && j !in r.snapshots
  }

  /** Ending the lookup of job `j` writes its row alone. */
  lemma FinishWrites(t: State, j: nat)
    requires UniqueActive(t.libraries) && j in t.libraries && Active(t.libraries[j])
    ensures var r := FinishLibrary(t, j);
            LookupOver(r, j, t.libraries[j].entry) && r.entries == t.entries && r.magnets == t.magnets
  {
    FinishedAlone(t.libraries, j, Job(t.libraries[j].entry, Finished));
    assert t.libraries[j].(status := Finished) == Job(t.libraries[j].entry, Finished);
    hide HasActive, UniqueActive;
  }

  /** Queueing a search writes the magnet jobs alone, and leaves one of the entry active. */
  lemma QueueMagnetWrites(t: State, e: nat)
    requires t.nextId !in t.magnets
    ensures var r := QueueMagnet(t, e);
      && HasActive(r.magnets, e) && r.entries == t.entries && r.libraries == t.libraries && r.snapshots == t.snapshots
  {
    QueueActive(t.magnets, e, t.nextId, e);
    hide HasActive, Queue;
  }

  /** What a library job's worker may rely on. */
  lemma LookupRuns(s: State, j: nat)
    requires Base(s) && j in s.libraries && j in s.snapshots
    ensures UniqueActive(s.libraries) && Active(s.libraries[j]) && s.nextId !in s.magnets
  {
  }

  /** A match makes the entry available, and either skips its magnet or leaves a search for it active. */
  lemma MatchSettles(s: State, j: nat, skip: bool)
    requires Base(s) && Enabled(s, Match(j, skip))
    ensures var e, r := s.libraries[j].entry, Next(s, Match(j, skip));
      && LookupOver(r, j, e)
      && (skip ==> r.magnets == s.magnets) && (!skip ==> HasActive(r.magnets, e))
      && (e in s.entries ==>
            && e in r.entries && r.entries[e].library == Available && r.entries[e].batch == s.entries[e].batch
            && r.entries[e].magnet == if skip then SkippedMagnet else s.entries[e].magnet)
  {
    var e := s.libraries[j].entry;
    var t := SetLibrary(s, e, Available);
    var u := if skip then SetMagnet(t, e, SkippedMagnet) else QueueMagnet(t, e);
    LookupRuns(s, j);
    SetFrame(s, e, SkippedMagnet, Available);
    SetFrame(t, e, SkippedMagnet, Available);
    SetOwn(s, e, SkippedMagnet, Available);
    SetOwn(t, e, SkippedMagnet, Available);
    QueueMagnetWrites(t, e);
    MatchIs(s, j, skip);
    hide HasActive, Base, UniqueActive, SetLibrary, SetMagnet, QueueMagnet, FinishLibrary, LibraryMatch, LookupOver;
    FinishWrites(u, j);
  }

  lemma SetOwn(s: State, e: nat, m: Magnet, l: Library)
    ensures e in s.entries ==> e in SetMagnet(s, e, m).entries && e in SetLibrary(s, e, l).entries
    ensures e in s.entries ==> SetMagnet(s, e, m).entries[e] == s.entries[e].(magnet := m)
    ensures e in s.entries ==> SetLibrary(s, e, l).entries[e] == s.entries[e].(library := l)
  {
  }

  /** What a lookup that found nothing does for its entry, unless its worker had read it as available. */
  predicate HandedOver(s: State, r: State, e: nat) {
    e in s.entries ==> e in r.entries && r.entries[e] == s.entries[e].(library := Elsewhere, magnet := Pending)
  }

  lemma HandOverWrites(s: State, j: nat)
    requires j in s.libraries && j in s.snapshots
    ensures var t := HandOver(s, j);
      && t.libraries == s.libraries && t.magnets == s.magnets && t.snapshots == s.snapshots && t.nextId == s.nextId
      && (s.snapshots[j] == Elsewhere ==> HandedOver(s, t, s.libraries[j].entry))
      && (s.snapshots[j] == Available ==> t.entries == s.entries)
  {
  }

  /** No match: the entry waits for a magnet and has an active search, or, read as available, is left as it is. */
  lemma NoMatchHandsOver(s: State, j: nat)
    requires Base(s) && Enabled(s, NoMatch(j))
    ensures var e, r := s.libraries[j].entry, Next(s, NoMatch(j));
      && LookupOver(r, j, e)
      && (s.snapshots[j] == Elsewhere ==> HandedOver(s, r, e) && HasActive(r.magnets, e))
      && (s.snapshots[j] == Available ==> r.entries == s.entries && r.magnets == s.magnets)
  {
    var e := s.libraries[j].entry;
    var t := HandOver(s, j);
    var u := if s.snapshots[j] == Available then t else QueueMagnet(t, e);
    LookupRuns(s, j);
    HandOverWrites(s, j);
    hide HasActive, Base, UniqueActive, HandOver, QueueMagnet, FinishLibrary, LookupOver;
    QueueMagnetWrites(t, e);
    FinishWrites(u, j);
    assert Next(s, NoMatch(j)) == FinishLibrary(u, j);
  }

  /** A failed lookup does the same; with attempts left its job waits again, and the search is not started yet. */
  lemma FailureHandsOver(s: State, j: nat, retry: bool)
    requires Base(s) && Enabled(s, LookupFails(j, retry))
    ensures var e, r := s.libraries[j].entry, Next(s, LookupFails(j, retry));
      && (s.snapshots[j] == Elsewhere ==> HandedOver(s, r, e))
      && (s.snapshots[j] == Available ==> r.entries == s.entries)
      && (retry ==> r.libraries == s.libraries[j := Job(e, Queued)] && r.magnets == s.magnets && j !in r.snapshots)
      && (!retry ==> LookupOver(r, j, e)
                     && if s.snapshots[j] == Elsewhere then HasActive(r.magnets, e) else r.magnets == s.magnets)
  {
    if retry {
      HandOverWrites(s, j);
      hide HandOver, Base;
    } else {
      NoMatchHandsOver(s, j);
      hide HandOver, Base, QueueMagnet, FinishLibrary, LookupOver, HasActive, HandedOver;
      assert Next(s, LookupFails(j, false)) == Next(s, NoMatch(j));
    }
  }

  // --- The magnet search ---

  /** The outcome is written to the entry and its job ends in one transaction. */
  lemma SearchSettles(s: State, j: nat, m: Magnet)
    requires Enabled(s, SearchDone(j, m))
    ensures var e, r := s.magnets[j].entry, Next(s, SearchDone(j, m));
      && r.magnets == s.magnets[j := Job(e, Finished)]
      && (e in s.entries ==> e in r.entries && r.entries[e] == s.entries[e].(magnet := m))
  {
  }

  /** A retry queues the job and leaves the entry waiting, unless another job of the entry is active. */
  lemma RetryQueuesAgain(s: State, j: nat)
    requires Enabled(s, SearchRetries(j))
    ensures var e, r := s.magnets[j].entry, Next(s, SearchRetries(j));
            var other := exists i ::
                i in s.magnets && i != j && s.magnets[i].entry == e && s.magnets[i].status != Finished;
      && (other ==> r == s)
      && (!other ==> r.magnets == s.magnets[j := Job(e, Queued)]
                     && (e in s.entries ==> e in r.entries && r.entries[e] == s.entries[e].(magnet := Pending)))
  {
  }

  lemma SearchClaimed(s: State, j: nat)
    requires Enabled(s, ClaimMagnet(j))
    ensures Next(s, ClaimMagnet(j)).magnets == s.magnets[j := Job(s.magnets[j].entry, Running)]
    ensures Enabled(Next(s, ClaimMagnet(j)), SearchDone(j, Found)) && Enabled(Next(s, ClaimMagnet(j)), RecoverMagnet(j))
    ensures Next(Next(s, ClaimMagnet(j)), RecoverMagnet(j)).magnets == s.magnets
  {
    assert s.magnets[j] == Job(s.magnets[j].entry, Queued);
  }

  /** Searching again makes the entry wait, with an active job. */
  lemma AgainWaits(s: State, e: nat)
    requires Base(s) && e in s.entries
    ensures var r := Next(s, Again(e));
            e in r.entries && r.entries[e] == s.entries[e].(magnet := Pending) && HasActive(r.magnets, e)
  {
    QueueActive(s.magnets, e, s.nextId, e);
    hide HasActive, Queue, Base;
  }

  /** With the magnet rule off nobody waits for a magnet and no search waits; results and running searches stay. */
  lemma RulesOffReleases(s: State)
    ensures var r := Next(s, RulesOff);
      && r.entries.Keys == s.entries.Keys && r.magnets.Keys == s.magnets.Keys
      && r.libraries == s.libraries && r.releases == s.releases
      && (forall e :: e in s.entries ==>
            r.entries[e] == if s.entries[e].magnet == Pending then s.entries[e].(magnet := Unsearched)
                else s.entries[e])
      && (forall j :: j in s.magnets ==>
            r.magnets[j] == if s.magnets[j].status == Queued then Job(s.magnets[j].entry, Finished) else s.magnets[j])
  {
  }

  // --- Full sync, batches, release jobs, removal ---

  /** The sync marks what it finds as available; a magnet is skipped with it unless one was found. */
  lemma SyncMarks(s: State, e: nat, skip: bool)
    requires e in s.entries
    ensures var r := Next(s, Synced(e, skip));
      && e in r.entries && r.entries[e].library == Available && r.entries[e].batch == s.entries[e].batch
      && r.entries[e].magnet == (if skip && s.entries[e].magnet != Found then SkippedMagnet else s.entries[e].magnet)
  {
    SetOwn(s, e, SkippedMagnet, Available);
    SetOwn(SetLibrary(s, e, Available), e, SkippedMagnet, Available);
    hide SetLibrary, SetMagnet;
  }

  lemma MissingMarks(s: State, e: nat)
    requires e in s.entries
    ensures Next(s, Missing(e)).entries == s.entries[e := s.entries[e].(library := Elsewhere)]
  {
  }

  /** A batch is scanned, then processed; a scan may reopen it, and only entries without a batch are adopted. */
  lemma BatchesMove(s: State, b: nat, e: nat)
    ensures b !in s.batches ==> Next(s, StartBatch(b)) == s.(batches := s.batches[b := Scanning])
    ensures b in s.batches ==> Next(s, Reopen(b)) == s.(batches := s.batches[b := Scanning])
    ensures b in s.batches && s.batches[b] == Scanning
        ==> Next(s, Publish(b)) == s.(batches := s.batches[b := Processing])
    ensures Enabled(s, Adopt(e, b)) ==>
              && s.entries[e].batch == None
              && Next(s, Adopt(e, b)) == s.(entries := s.entries[e := s.entries[e].(batch := Some(b))])
  {
  }

  lemma ReleaseJobMoves(s: State, j: nat, status: Status)
    requires Enabled(s, Release(j, status))
    ensures Next(s, Release(j, status)).releases == s.releases[j := Job(s.releases[j].entry, status)]
  {
  }

  lemma QueuedRelease(s: State, e: nat)
    requires Base(s) && e in s.entries
    ensures HasActive(Next(s, QueueRelease(e)).releases, e)
  {
    QueueActive(s.releases, e, s.nextId, e);
    hide HasActive, Queue, Base;
  }

  /** A removed entry takes all its jobs with it. */
  lemma RemovalTakesJobs(s: State, e: nat)
    ensures var r := Next(s, Remove(e));
      && e !in r.entries
      && (forall j :: j in r.magnets ==> r.magnets[j].entry != e)
      && (forall j :: j in r.libraries ==> r.libraries[j].entry != e)
      && (forall j :: j in r.releases ==> r.releases[j].entry != e)
  {
  }
}
