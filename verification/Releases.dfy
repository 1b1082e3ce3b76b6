/**
  Release-date lookups (server/release-worker.ts, server/routes/archive.ts, server/routes/rules.ts,
  server/capture.ts, server/routes/code-search.ts).

  An entry whose release date is pending must have a job that will settle it. Every transaction sees to
  that but one pair of statements: the backfill of old entries marks an entry and then, separately,
  queues its job. `Handoff` has the same question for magnets.
 */
module Releases {
  import opened Options

  datatype Release = Unsearched | Pending | Settled

  datatype Status = Queued | Running | Finished
  datatype Job = Job(entry: nat, status: Status)

  /**
    `touched` holds the jobs that some worker ever claimed: a recovered one may still be written to.
    `marked` holds the entries a backfill has marked and not queued yet, and `lost` those whose backfill
    died in between; it is history.
   */
  datatype State = State(entries: map<nat, Release>, jobs: map<nat, Job>, touched: set<nat>, marked: set<nat>,
      lost: set<nat>, nextId: nat)

  predicate Active(j: Job) { j.status != Finished }

  predicate HasActive(jobs: map<nat, Job>, e: nat) { exists j :: j in jobs && jobs[j].entry == e && Active(jobs[j]) }

  predicate OnlyActive(jobs: map<nat, Job>, e: nat, except: nat) {
    forall j :: j in jobs && j != except && jobs[j].entry == e ==> !Active(jobs[j])
  }

  /** `queueUnique`. */
  function Queue(s: State, e: nat): State {
    s.(jobs := if HasActive(s.jobs, e) then s.jobs else s.jobs[s.nextId := Job(e, Queued)], nextId := s.nextId + 1)
  }

  function Set(s: State, e: nat, r: Release): State {
    if e in s.entries then s.(entries := s.entries[e := r]) else s
  }

  /** A new entry, and its job in the same transaction. */
  function AddEntry(s: State, wanted: bool): State {
    var e := s.nextId;
    var t := s.(entries := s.entries[e := if wanted then Pending else Unsearched], nextId := s.nextId + 1);
    if wanted then Queue(t, e) else t
  }

  /** The lookup ended: with a date, without one, for good, or because the rule is switched off. */
  function Settle(s: State, j: nat, r: Release): State
    requires j in s.jobs
  {
    var e := s.jobs[j].entry;
    Set(s, e, r).(jobs := s.jobs[j := Job(e, Finished)])
  }

  /** Queued again, unless another job of the entry is active: then the transaction is rolled back. */
  function Retry(s: State, j: nat): State
    requires j in s.jobs
  {
    var e := s.jobs[j].entry;
    if OnlyActive(s.jobs, e, j) then Set(s, e, Pending).(jobs := s.jobs[j := Job(e, Queued)]) else s
  }

  /** The rule is switched off: waiting jobs are finished and pending entries released. */
  function RuleOff(s: State): State {
    s.(jobs := map j | j in s.jobs :: if s.jobs[j].status == Queued then s.jobs[j].(status := Finished) else s.jobs[j],
       entries := map e | e in s.entries :: if s.entries[e] == Pending then Unsearched else s.entries[e])
  }

  function Without(jobs: map<nat, Job>, e: nat): map<nat, Job> { map j | j in jobs && jobs[j].entry != e :: jobs[j] }

  datatype Step =
    | Add(wanted: bool)
    | Again(e: nat)
    | Mark(e: nat)
    | QueueMarked(e: nat)
    | Crash(e: nat)
    | Claim(j: nat)
    | Recover(j: nat)
    | Done(j: nat, r: Release)
    | Retries(j: nat)
    | RulesOff
    | Remove(e: nat)

  predicate Enabled(s: State, step: Step) {
    match step
    case Add(_) => true
    case Again(e) => e in s.entries
    case Mark(e) => e in s.entries && s.entries[e] != Pending
    case QueueMarked(e) => e in s.marked
    case Crash(e) => e in s.marked
    case Claim(j) => j in s.jobs && s.jobs[j].status == Queued
    case Recover(j) => j in s.jobs && s.jobs[j].status == Running
    case Done(j, r) => j in s.jobs && j in s.touched && r != Pending
    case Retries(j) => j in s.jobs && j in s.touched
    case RulesOff => true
    case Remove(_) => true
  }

  function Next(s: State, step: Step): State
    requires Enabled(s, step)
  {
    match step
    case Add(wanted) => AddEntry(s, wanted)
    case Again(e) => Queue(Set(s, e, Pending), e)
    case Mark(e) => s.(entries := s.entries[e := Pending], marked := s.marked + {e})
    case QueueMarked(e) => Queue(s, e).(marked := s.marked - {e})
    case Crash(e) => s.(marked := s.marked - {e}, lost := s.lost + {e})
    case Claim(j) => s.(jobs := s.jobs[j := s.jobs[j].(status := Running)], touched := s.touched + {j})
    case Recover(j) => s.(jobs := s.jobs[j := s.jobs[j].(status := Queued)])
    case Done(j, r) => Settle(s, j, r)
    case Retries(j) => Retry(s, j)
    case RulesOff => RuleOff(s)
    case Remove(e) => s.(entries := s.entries - {e}, jobs := Without(s.jobs, e))
  }

  // --- Who waits has a job ---

  predicate Covered(s: State, e: nat) { e in s.entries && s.entries[e] == Pending ==> HasActive(s.jobs, e) }

  ghost predicate NoneStranded(s: State) { forall e :: Covered(s, e) }

  ghost predicate IdsOk(s: State) {
    && (forall j :: j in s.jobs ==> j < s.nextId)
    && (forall e :: e in s.entries || e in s.marked ==> e < s.nextId)
  }

  lemma QueueCovers(s: State, e: nat, x: nat)
    requires IdsOk(s)
    ensures IdsOk(Queue(s, e)) && HasActive(Queue(s, e).jobs, e)
    ensures HasActive(s.jobs, x) ==> HasActive(Queue(s, e).jobs, x)
  {
    var after := Queue(s, e).jobs;
    if !HasActive(s.jobs, e) {
      assert s.nextId in after && after[s.nextId].entry == e && Active(after[s.nextId]);
    }
    if HasActive(s.jobs, x) {
      var j :| j in s.jobs && s.jobs[j].entry == x && Active(s.jobs[j]);
      assert j in after && after[j] == s.jobs[j];
    }
  }

  /** Writing one job of an entry leaves the active jobs of every other entry alone. */
  lemma OtherEntry(jobs: map<nat, Job>, j: nat, job: Job, x: nat)
    requires j in jobs && job.entry == jobs[j].entry && HasActive(jobs, x)
    ensures x != job.entry || Active(job) ==> HasActive(jobs[j := job], x)
  {
    var after := jobs[j := job];
    var i :| i in jobs && jobs[i].entry == x && Active(jobs[i]);
    assert i != j ==> i in after && after[i] == jobs[i];
    assert j in after;
  }

  lemma JobCovers(s: State, step: Step, x: nat)
    requires Covered(s, x) && Enabled(s, step)
    requires step.Claim? || step.Recover? || step.Done? || step.Retries?
    ensures Covered(Next(s, step), x)
  {
    var j := step.j;
    var e := s.jobs[j].entry;
    if HasActive(s.jobs, x) {
      OtherEntry(s.jobs, j, Job(e, Queued), x);
      OtherEntry(s.jobs, j, Job(e, Running), x);
      OtherEntry(s.jobs, j, Job(e, Finished), x);
    }
    if step.Retries? && OnlyActive(s.jobs, e, j) {
      assert j in Next(s, step).jobs && Next(s, step).jobs[j] == Job(e, Queued);
    }
    hide HasActive, OnlyActive;
  }

  lemma RemoveCovers(s: State, e: nat, x: nat)
    requires Covered(s, x)
    ensures Covered(Next(s, Remove(e)), x)
  {
    if x != e && HasActive(s.jobs, x) {
      var j :| j in s.jobs && s.jobs[j].entry == x && Active(s.jobs[j]);
      assert j in Without(s.jobs, e);
    }
  }

  /**
    The one statement that leaves an entry waiting without a job: the mark of the backfill, on an entry that
    has none.
   */
  predicate Strands(s: State, step: Step)
    requires Enabled(s, step)
  {
    step.Mark? && !HasActive(s.jobs, step.e)
  }

  lemma CoveredAfter(s: State, step: Step, x: nat)
    requires IdsOk(s) && Covered(s, x) && Enabled(s, step)
    ensures Covered(Next(s, step), x) <==> !(Strands(s, step) && x == step.e)
  {
    hide HasActive;
    match step
    case Add(wanted) =>
      var t := s.(entries := s.entries[s.nextId := if wanted then Pending else Unsearched], nextId := s.nextId + 1);
      assert IdsOk(t);
      QueueCovers(t, s.nextId, x);
      hide Queue;
    case Again(e) =>
      QueueCovers(Set(s, e, Pending), e, x);
      hide Queue;
    case QueueMarked(e) =>
      QueueCovers(s, e, x);
      hide Queue;
    case Claim(_) => JobCovers(s, step, x);
    case Recover(_) => JobCovers(s, step, x);
    case Done(_, _) => JobCovers(s, step, x);
    case Retries(_) => JobCovers(s, step, x);
    case Remove(e) => RemoveCovers(s, e, x);
    case Mark(_) =>
    case Crash(_) =>
    case RulesOff =>
  }

  /** A step leaves every waiting entry with a job, except exactly when a backfill marks an entry that has none. */
  lemma ReleaseIsAtomic(s: State, step: Step)
    requires IdsOk(s) && NoneStranded(s) && Enabled(s, step)
    ensures NoneStranded(Next(s, step)) <==> !Strands(s, step)
  {
    hide IdsOk, Covered, Next, HasActive;
    forall x ensures Covered(Next(s, step), x) <==> !(Strands(s, step) && x == step.e) {
      assert Covered(s, x);
      CoveredAfter(s, step, x);
    }
    if Strands(s, step) {
      assert !Covered(Next(s, step), step.e);
    }
  }

  // --- What each transaction does ---

  /** Entry `x` and its jobs are the same in both states. */
  ghost predicate Untouched(s: State, r: State, x: nat) {
    && (x in r.entries <==> x in s.entries) && (x in s.entries ==> r.entries[x] == s.entries[x])
    && (forall j :: j in s.jobs && s.jobs[j].entry == x ==> j in r.jobs && r.jobs[j] == s.jobs[j])
    && (forall j :: j in r.jobs && r.jobs[j].entry == x ==> j in s.jobs && s.jobs[j] == r.jobs[j])
  }

  /** The entry a step is about; switching the rule off is about all. */
  function About(s: State, step: Step): Option<nat>
    requires Enabled(s, step)
  {
    match step
    case Add(_) => Some(s.nextId)
    case Again(e) => Some(e)
    case Mark(e) => Some(e)
    case QueueMarked(e) => Some(e)
    case Crash(e) => Some(e)
    case Remove(e) => Some(e)
    case Claim(j) => Some(s.jobs[j].entry)
    case Recover(j) => Some(s.jobs[j].entry)
    case Done(j, _) => Some(s.jobs[j].entry)
    case Retries(j) => Some(s.jobs[j].entry)
    case RulesOff => None
  }

  /** A transaction touches no entry, and no job, but those of the entry it is about. */
  lemma StepTouchesOne(s: State, step: Step, x: nat)
    requires IdsOk(s) && Enabled(s, step) && !step.RulesOff? && About(s, step) != Some(x)
    ensures Untouched(s, Next(s, step), x)
  {
    hide HasActive, OnlyActive;
  }

  predicate QueuedOrRunning(jobs: map<nat, Job>, e: nat) {
    exists j :: j in jobs && jobs[j].entry == e && (jobs[j].status == Queued || jobs[j].status == Running)
  }

  lemma ActiveMeans(jobs: map<nat, Job>, e: nat)
    ensures HasActive(jobs, e) <==> QueuedOrRunning(jobs, e)
  {
    if j :| j in jobs && jobs[j].entry == e && Active(jobs[j]) {
      assert jobs[j].status == Queued || jobs[j].status == Running;
    }
    if j :| j in jobs && jobs[j].entry == e && (jobs[j].status == Queued || jobs[j].status == Running) {
      assert Active(jobs[j]);
    }
  }

  /** A new entry waits exactly when a date is wanted, and then its job is queued with it. */
  lemma NewEntryIsServed(s: State, wanted: bool)
    requires IdsOk(s)
    ensures var e, r := s.nextId, Next(s, Add(wanted));
      && e !in s.entries && e in r.entries && r.entries[e] == (if wanted then Pending else Unsearched)
      && (wanted ==> QueuedOrRunning(r.jobs, e)) && (!wanted ==> r.jobs == s.jobs) && r.nextId > e
  {
    var t := s.(entries := s.entries[s.nextId := if wanted then Pending else Unsearched], nextId := s.nextId + 1);
    assert IdsOk(t);
    QueueCovers(t, s.nextId, s.nextId);
    ActiveMeans(Next(s, Add(wanted)).jobs, s.nextId);
    hide HasActive, QueuedOrRunning;
  }

  /** Looking again makes the entry wait; the backfill's two statements do the same one after the other. */
  lemma LookingAgain(s: State, e: nat)
    requires IdsOk(s) && e in s.entries
    ensures var r := Next(s, Again(e)); r.entries == s.entries[e := Pending] && QueuedOrRunning(r.jobs, e)
    ensures s.entries[e] != Pending ==>
              var m := Next(s, Mark(e));
              && m == s.(entries := s.entries[e := Pending], marked := s.marked + {e})
              && e in m.marked && QueuedOrRunning(Next(m, QueueMarked(e)).jobs, e)
              && e !in Next(m, QueueMarked(e)).marked && Next(m, QueueMarked(e)).entries == m.entries
              && Next(m, Crash(e)) == s.(entries := m.entries, marked := s.marked - {e}, lost := s.lost + {e})
  {
    var t := Set(s, e, Pending);
    QueueCovers(t, e, e);
    ActiveMeans(Next(s, Again(e)).jobs, e);
    var m := s.(entries := s.entries[e := Pending], marked := s.marked + {e});
    QueueCovers(m, e, e);
    ActiveMeans(Queue(m, e).jobs, e);
    assert (s.marked + {e}) - {e} == s.marked - {e};
    hide HasActive, QueuedOrRunning, Queue;
  }

  /** The outcome is written to the entry and its job ends, together. */
  lemma LookupSettles(s: State, j: nat, r: Release)
    requires Enabled(s, Done(j, r))
    ensures var e, t := s.jobs[j].entry, Next(s, Done(j, r));
      && t.jobs == s.jobs[j := Job(e, Finished)]
      && t.entries == if e in s.entries then s.entries[e := r] else s.entries
  {
  }

  /** A retry queues the job and leaves the entry waiting, unless another job of the entry is active. */
  lemma RetryQueuesAgain(s: State, j: nat)
    requires Enabled(s, Retries(j))
    ensures var e, r := s.jobs[j].entry, Next(s, Retries(j));
            var other := exists i :: i in s.jobs && i != j && s.jobs[i].entry == e && s.jobs[i].status != Finished;
      && (other ==> r == s)
      && (!other ==> r.jobs == s.jobs[j := Job(e, Queued)]
                     && r.entries == if e in s.entries then s.entries[e := Pending] else s.entries)
  {
  }

  /** A claim runs the job; the recovery of one that stalled queues it again, and its worker may still write. */
  lemma ClaimRuns(s: State, j: nat)
    requires Enabled(s, Claim(j))
    ensures var r := Next(s, Claim(j));
      && r.jobs == s.jobs[j := Job(s.jobs[j].entry, Running)] && j in r.touched && r.entries == s.entries
      && Enabled(r, Recover(j)) && Next(r, Recover(j)).jobs == s.jobs && j in Next(r, Recover(j)).touched
  {
    assert s.jobs[j] == Job(s.jobs[j].entry, Queued);
  }

  /** With the rule off nobody waits and no lookup waits; running ones and settled entries stay. */
  lemma RulesOffReleases(s: State)
    ensures var r := Next(s, RulesOff);
      && r.entries.Keys == s.entries.Keys && r.jobs.Keys == s.jobs.Keys
      && (forall e :: e in s.entries ==> r.entries[e] == if s.entries[e] == Pending then Unsearched else s.entries[e])
      && (forall j :: j in s.jobs ==>
            r.jobs[j] == if s.jobs[j].status == Queued then Job(s.jobs[j].entry, Finished) else s.jobs[j])
  {
  }

  lemma RemovalTakesJobs(s: State, e: nat)
    ensures e !in Next(s, Remove(e)).entries
    ensures forall j :: j in Next(s, Remove(e)).jobs ==> Next(s, Remove(e)).jobs[j].entry != e
  {
  }

  // --- How long it lasts ---

  /** Who waits without a job is being backfilled at this moment, or its backfill died between its statements. */
  ghost predicate Accounted(s: State) {
    forall e :: !Covered(s, e) ==> e in s.marked || e in s.lost
  }

  lemma IdsKept(s: State, step: Step)
    requires IdsOk(s) && Enabled(s, step)
    ensures IdsOk(Next(s, step))
  {
    hide HasActive, OnlyActive;
  }

  lemma WaitsOn(s: State, step: Step, e: nat)
    requires IdsOk(s) && Enabled(s, step) && !Covered(Next(s, step), e)
    ensures !Covered(s, e) || (step.Mark? && step.e == e)
    ensures e in s.marked || e in s.lost || (step.Mark? && step.e == e)
        ==> e in Next(s, step).marked || e in Next(s, step).lost
  {
    if Covered(s, e) {
      CoveredAfter(s, step, e);
    }
    if step.QueueMarked? {
      QueueCovers(s, step.e, e);
    }
    hide HasActive, OnlyActive, IdsOk;
  }

  lemma AccountedKept(s: State, step: Step)
    requires IdsOk(s) && Accounted(s) && Enabled(s, step)
    ensures Accounted(Next(s, step))
  {
    hide IdsOk, Covered, Next, Enabled;
    forall e | !Covered(Next(s, step), e) ensures e in Next(s, step).marked || e in Next(s, step).lost {
      WaitsOn(s, step, e);
    }
  }

  ghost predicate Steps(s: State, run: seq<Step>)
    decreases |run|
  {
    run == [] || (Enabled(s, run[0]) && Steps(Next(s, run[0]), run[1..]))
  }

  function After(s: State, run: seq<Step>): State
    requires Steps(s, run)
    decreases |run|
  {
    if run == [] then s else After(Next(s, run[0]), run[1..])
  }

  function Start(): State { State(map[], map[], {}, {}, {}, 0) }

  lemma {:induction false} RunKeeps(s: State, run: seq<Step>)
    requires IdsOk(s) && Accounted(s) && Steps(s, run)
    ensures IdsOk(After(s, run)) && Accounted(After(s, run))
    decreases |run|
  {
    hide IdsOk, Accounted, Next, Enabled;
    if run != [] {
      IdsKept(s, run[0]);
      AccountedKept(s, run[0]);
      RunKeeps(Next(s, run[0]), run[1..]);
    }
  }

  /**
    In every run, whatever late workers write: an entry waits without a job only between the two statements
    of its backfill, or because the backfill died there.
   */
  lemma StrandedOnlyByBackfill(run: seq<Step>, e: nat)
    requires Steps(Start(), run) && e in After(Start(), run).entries && After(Start(), run).entries[e] == Pending
    ensures var s := After(Start(), run); HasActive(s.jobs, e) || e in s.marked || e in s.lost
  {
    RunKeeps(Start(), run);
    hide After, Steps;
    var s := After(Start(), run);
    assert Covered(s, e) || !Covered(s, e);
  }

  /** And then it does: an old entry is marked, and the process dies before it queues the job. */
  lemma BackfillStrands()
    ensures var run := [Add(false), Mark(0), Crash(0)];
      && Steps(Start(), run) && !NoneStranded(After(Start(), run)) && After(Start(), run).marked == {}
  {
    var run := [Add(false), Mark(0), Crash(0)];
    var s1 := State(map[0 := Unsearched], map[], {}, {}, {}, 1);
    var s2 := State(map[0 := Pending], map[], {}, {0}, {}, 1);
    var s3 := State(map[0 := Pending], map[], {}, {}, {0}, 1);
    assert Next(Start(), run[0]) == s1 && Next(s1, run[1]) == s2 && Next(s2, run[2]) == s3;
    assert run[1..][1..] == [Crash(0)] && run[1..][1..][1..] == [];
    assert !HasActive(s3.jobs, 0);
    assert !Covered(s3, 0);
  }
}
