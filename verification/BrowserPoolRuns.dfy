/**
  What every interleaving of the pool's steps keeps (server/browser-pool.ts).
 */
module BrowserPoolRuns {
  import opened Options
  import opened BrowserPool

  predicate Settling(phase: Phase) { phase.Ending? || phase.Recycling? }

  predicate Waits(bag: multiset<Task>, id: nat) { exists t :: t in bag && t.id == id }

  /** Waiting tasks are accepted, not started and not settled, each listed once. */
  ghost predicate BagOk(bag: multiset<Task>, p: Pool) {
    && (forall t :: t in bag ==> bag[t] == 1 && t.id in p.accepted && t.id !in p.running && t.id !in p.settled)
    && (forall t, u :: t in bag && u in bag && t.id == u.id ==> t == u)
  }

  /** A running task is settled exactly when it is past its work; no task is settled twice or lost. */
  ghost predicate TasksOk(p: Pool) {
    && BagOk(multiset(p.queue), p)
    && (forall id :: id in p.running ==> id in p.accepted && (id in p.settled <==> Settling(p.running[id])))
    && (forall i, j :: 0 <= i < j < |p.settled| ==> p.settled[i] != p.settled[j])
    && (forall id :: id in p.settled ==> id in p.accepted)
    && (forall id :: id in p.accepted ==> id in p.settled || id in p.running || Waits(multiset(p.queue), id))
  }

  ghost predicate CountsOk(p: Pool) {
    |p.queue| <= MAX_QUEUED_TASKS && p.active == |ActiveIds(p)| && p.active <= 2
  }

  /** One launch at a time, only without a browser; every browser but the current one has been asked to close. */
  ghost predicate BrowserOk(p: Pool) {
    && (p.launching.Some? ==> p.browser.None?)
    && p.starts == p.ends + (if p.launching.Some? then 1 else 0)
    && (p.browser.Some? ==> p.browser.value.id < p.ends)
    && p.open == (if p.browser.Some? then {p.browser.value.id} else {})
    && (forall id :: id in p.running && p.running[id].Launching? ==> p.launching.Some?)
  }

  /** The pool never recycles a browser while another task is active. */
  ghost predicate LogOk(p: Pool) {
    forall i :: 0 <= i < |p.log| && IsPolicy(p.log[i].reason) ==> !p.log[i].othersActive
  }

  ghost predicate Core(p: Pool) { TasksOk(p) && CountsOk(p) && BrowserOk(p) && LogOk(p) }

  /** A waiting task is never forgotten: an active or recycling task will drain the queue. */
  ghost predicate WakesUp(p: Pool) {
    p.queue != [] ==> p.active > 0 || exists id :: id in p.running && p.running[id].Recycling?
  }

  ghost predicate TimerOk(p: Pool) { p.idleTimer ==> p.active == 0 && p.queue == [] }

  ghost predicate Valid(p: Pool) { Core(p) && WakesUp(p) && TimerOk(p) }

  // --- Parts ---

  /** `close` touches no task; it may be asked for a policy reason only when nothing else is active. */
  lemma CloseKeeps(p: Pool, reason: Reason, self: Option<nat>)
    requires Core(p)
    requires IsPolicy(reason) ==> ActiveIds(p) <= if self.Some? then {self.value} else {}
    ensures Core(CloseNow(p, reason, self))
  {
    var q := CloseNow(p, reason, self);
    assert ActiveIds(q) == ActiveIds(p);
    hide BagOk, Waits;
    assert TasksOk(q);
  }

  /** A change of phase that neither settles nor starts a task. */
  lemma PhaseKeeps(p: Pool, id: nat, phase: Phase)
    requires Core(p) && id in p.running && !Settling(p.running[id]) && !Settling(phase)
    requires phase.Launching? ==> p.launching.Some?
    ensures Core(p.(running := p.running[id := phase]))
  {
    var q := p.(running := p.running[id := phase]);
    assert ActiveIds(q) == ActiveIds(p);
    hide Waits;
  }

  lemma AwaitKeeps(p: Pool, id: nat, proxy: string)
    requires Core(p) && id in p.running && !Settling(p.running[id])
    ensures Core(AwaitBrowser(p, id, proxy))
  {
    if p.browser.Some? {
      hide Core;
      PhaseKeeps(p, id, Holding(p.browser.value.id));
    } else if p.launching.Some? {
      PhaseKeeps(p, id, Launching);
    } else {
      var q := p.(launching := Some(proxy), starts := p.starts + 1);
      LaunchBegins(p, q, proxy);
      PhaseKeeps(q, id, Launching);
    }
  }

  lemma LaunchBegins(p: Pool, q: Pool, proxy: string)
    requires Core(p) && p.browser.None? && p.launching.None?
    requires q == p.(launching := Some(proxy), starts := p.starts + 1)
    ensures Core(q)
  {
    assert ActiveIds(q) == ActiveIds(p);
    hide BagOk, Waits;
    assert TasksOk(q);
  }

  lemma EnsureKeeps(p: Pool, id: nat, w: World)
    requires Core(p) && id in p.running && !Settling(p.running[id])
    ensures Core(EnsureBrowser(p, id, w))
  {
    var reason := RecycleReason(p, w);
    if reason.Some? && p.active > 1 {
      var q := p.(recycle := reason);
      RecycleSet(p, q);
      AwaitKeeps(q, id, w.proxy);
    } else if reason.Some? {
      OnlyActive(p, id);
      CloseKeeps(p, reason.value, Some(id));
    } else {
      AwaitKeeps(p, id, w.proxy);
    }
  }

  lemma RecycleSet(p: Pool, q: Pool)
    requires Core(p) && q == p.(recycle := q.recycle)
    ensures Core(q)
  {
    assert ActiveIds(q) == ActiveIds(p);
    hide BagOk, Waits;
    assert TasksOk(q);
  }

  lemma OnlyActive(p: Pool, id: nat)
    requires CountsOk(p) && p.active <= 1 && id in p.running && !Settling(p.running[id])
    ensures ActiveIds(p) <= {id}
  {
    assert id in ActiveIds(p);
    if x :| x in ActiveIds(p) && x != id {
      assert {x, id} <= ActiveIds(p);
      Subset({x, id}, ActiveIds(p));
    }
  }

  lemma {:induction false} Subset(a: set<nat>, b: set<nat>)
    requires a <= b
    ensures |a| <= |b|
  {
    if a != {} {
      var x :| x in a;
      Subset(a - {x}, b - {x});
    }
  }

  // --- Starting tasks ---

  /** The state in which `run` begins: the head of the sorted queue is active. */
  function Popped(p: Pool, w: World): Pool
    requires p.queue != []
  {
    var sorted := SortTasks(p.queue);
    p.(queue := sorted[1..], active := p.active + 1, running := p.running[sorted[0].id := Closing(w.proxy)])
  }

  lemma PoppedBag(p: Pool, w: World)
    requires p.queue != []
    ensures multiset(Popped(p, w).queue) == multiset(p.queue) - multiset{SortTasks(p.queue)[0]}
    ensures SortTasks(p.queue)[0] in multiset(p.queue) && |Popped(p, w).queue| == |p.queue| - 1
  {
    var sorted := SortTasks(p.queue);
    SortTasksKeeps(p.queue);
    assert sorted == [sorted[0]] + sorted[1..];
  }

  /** The task that starts leaves the bag and joins the running ones. */
  ghost predicate Starts(p: Pool, head: Task, q: Pool) {
    && head in multiset(p.queue) && multiset(q.queue) == multiset(p.queue) - multiset{head}
    && head.id in q.running && q.running[head.id].Closing?
    && q == p.(queue := q.queue, active := p.active + 1, running := p.running[head.id := q.running[head.id]])
  }

  lemma StartsBag(p: Pool, head: Task, q: Pool)
    requires TasksOk(p) && Starts(p, head, q)
    ensures BagOk(multiset(q.queue), q) && head.id !in p.running && head.id in p.accepted && head.id !in p.settled
  {
    var bag, rest := multiset(p.queue), multiset(q.queue);
    forall t | t in rest ensures rest[t] == 1 && t.id !in q.running {
      assert t in bag && bag[head] == 1;
    }
  }

  lemma StartsAccounted(p: Pool, head: Task, q: Pool, id: nat)
    requires TasksOk(p) && Starts(p, head, q) && id in q.accepted
    ensures id in q.settled || id in q.running || Waits(multiset(q.queue), id)
  {
    hide BagOk;
    if Waits(multiset(p.queue), id) && id != head.id {
      var t :| t in multiset(p.queue) && t.id == id;
      assert t in multiset(q.queue);
    }
  }

  lemma StartsTasks(p: Pool, head: Task, q: Pool)
    requires TasksOk(p) && Starts(p, head, q)
    ensures TasksOk(q)
  {
    StartsBag(p, head, q);
    forall id | id in q.accepted ensures id in q.settled || id in q.running || Waits(multiset(q.queue), id) {
      StartsAccounted(p, head, q, id);
    }
    hide BagOk, Waits;
  }

  lemma StartsCounts(p: Pool, head: Task, q: Pool)
    requires Core(p) && Starts(p, head, q) && p.active < 2 && |q.queue| < |p.queue|
    ensures CountsOk(q) && BrowserOk(q) && LogOk(q)
  {
    StartsBag(p, head, q);
    StartsActive(p, head, q);
    hide TasksOk, BagOk, ActiveIds, Starts;
  }

  lemma StartsActive(p: Pool, head: Task, q: Pool)
    requires Starts(p, head, q) && head.id !in p.running
    ensures ActiveIds(q) == ActiveIds(p) + {head.id} && head.id !in ActiveIds(p)
    ensures q == p.(queue := q.queue, active := p.active + 1, running := q.running)
    ensures forall id :: id in q.running && q.running[id].Launching? ==> id in p.running && p.running[id].Launching?
  {
  }

  lemma PoppedKeeps(p: Pool, w: World)
    requires Core(p) && p.queue != [] && p.active < 2
    ensures Core(Popped(p, w))
  {
    PoppedBag(p, w);
    var head := SortTasks(p.queue)[0];
    hide SortTasks;
    StartsTasks(p, head, Popped(p, w));
    StartsCounts(p, head, Popped(p, w));
  }

  lemma {:induction false} DrainAllKeeps(p: Pool, w: World)
    requires Core(p) && WorldOk(w) && !p.idleTimer
    ensures var r := DrainAll(p, w); Core(r) && !r.idleTimer && (r.queue == [] || w.capacity <= r.active)
    decreases |p.queue|
  {
    if p.active < w.capacity && p.queue != [] {
      PoppedKeeps(p, w);
      var sorted, q := SortTasks(p.queue), Popped(p, w);
      hide Core, SortTasks;
      EnsureKeeps(q, sorted[0].id, w);
      var r := EnsureBrowser(q, sorted[0].id, w);
      assert r == StartTask(p.(queue := sorted[1..]), sorted[0], w);
      DrainAllKeeps(r, w);
    }
  }

  lemma DrainKeeps(p: Pool, w: World)
    requires Core(p) && WorldOk(w)
    ensures Valid(Drain(p, w))
  {
    var q := p.(idleTimer := false);
    TimerCleared(p, q);
    hide Core;
    DrainAllKeeps(q, w);
  }

  lemma TimerCleared(p: Pool, q: Pool)
    requires Core(p) && q == p.(idleTimer := q.idleTimer)
    ensures Core(q)
  {
    assert ActiveIds(q) == ActiveIds(p);
    hide BagOk, Waits;
    assert TasksOk(q);
  }

  lemma ScheduleKeeps(p: Pool)
    requires Valid(p)
    ensures Valid(ScheduleIdleClose(p))
  {
    TimerCleared(p, ScheduleIdleClose(p));
    hide Core;
  }

  // --- Each step ---

  lemma UseKeeps(p: Pool, t: Task, w: World)
    requires Valid(p) && t.id !in p.accepted && WorldOk(w)
    ensures Valid(Use(p, t, w))
  {
    if |p.queue| < MAX_QUEUED_TASKS {
      var q := p.(queue := p.queue + [t], accepted := p.accepted + {t.id});
      Enqueued(p, t, q);
      DrainKeeps(q, w);
    }
  }

  lemma Enqueued(p: Pool, t: Task, q: Pool)
    requires Core(p) && t.id !in p.accepted && |p.queue| < MAX_QUEUED_TASKS
    requires q == p.(queue := p.queue + [t], accepted := p.accepted + {t.id})
    ensures Core(q)
  {
    var bag := multiset(p.queue);
    assert multiset(q.queue) == bag + multiset{t};
    assert ActiveIds(q) == ActiveIds(p);
    assert forall u :: u in bag ==> u.id in p.accepted;
    assert bag[t] == 0;
    forall id | id in q.accepted ensures id in q.settled || id in q.running || Waits(multiset(q.queue), id) {
      if Waits(bag, id) {
        var u :| u in bag && u.id == id;
        assert u in multiset(q.queue);
      } else if id == t.id {
        assert t in multiset(q.queue);
      }
    }
  }

  lemma ResumeKeeps(p: Pool, id: nat)
    requires Valid(p)
    ensures Valid(Resume(p, id))
  {
    if id in p.running && p.running[id].Closing? {
      AwaitKeeps(p, id, p.running[id].proxy);
      AwaitWakes(p, id, p.running[id].proxy);
    }
  }

  lemma AwaitWakes(p: Pool, id: nat, proxy: string)
    requires Valid(p) && id in p.running && p.running[id].Closing?
    ensures WakesUp(AwaitBrowser(p, id, proxy)) && TimerOk(AwaitBrowser(p, id, proxy))
  {
    hide Core;
    var q := AwaitBrowser(p, id, proxy);
    if x :| x in p.running && p.running[x].Recycling? {
      assert x in q.running && q.running[x].Recycling?;
    }
  }

  /** Replacing phases one for one, none of them recycling, keeps the promise that the queue is drained. */
  lemma SamePromise(p: Pool, q: Pool)
    requires WakesUp(p) && TimerOk(p) && q.queue == p.queue && q.active == p.active && (q.idleTimer ==> p.idleTimer)
    requires forall id :: id in p.running && p.running[id].Recycling? ==> id in q.running && q.running[id].Recycling?
    ensures WakesUp(q) && TimerOk(q)
  {
    if q.queue != [] && q.active == 0 {
      var id :| id in p.running && p.running[id].Recycling?;
      assert id in q.running && q.running[id].Recycling?;
    }
  }

  lemma LaunchDoneKeeps(p: Pool, ok: bool, w: World)
    requires Valid(p)
    ensures Valid(LaunchDone(p, ok, w))
  {
    if p.launching.Some? {
      var q := LaunchDone(p, ok, w);
      assert ActiveIds(q) == ActiveIds(p);
      SamePromise(p, q);
      hide BagOk, Waits;
      assert BagOk(multiset(q.queue), q) by { BagStays(multiset(p.queue), p, q); }
    }
  }

  lemma BagStays(bag: multiset<Task>, p: Pool, q: Pool)
    requires BagOk(bag, p) && q.accepted == p.accepted && q.running.Keys == p.running.Keys
    requires forall t :: t in bag ==> (t.id in q.settled ==> t.id in p.settled)
    ensures BagOk(bag, q)
  {
    forall t | t in bag ensures t.id !in q.running {
      assert t.id !in p.running.Keys;
    }
  }

  lemma OpenContextKeeps(p: Pool, id: nat)
    requires Valid(p)
    ensures Valid(OpenContext(p, id))
  {
    if id in p.running && p.running[id].Holding? {
      var q := OpenContext(p, id);
      PhaseKeeps(p, id, Working(p.running[id].browser));
      SamePromise(p, q);
    }
  }

  lemma FailKeeps(p: Pool, id: nat, w: World)
    requires Valid(p)
    ensures Valid(Fail(p, id, w))
  {
    if id in p.running && CanFail(p.running[id]) {
      var context := ContextOf(p.running[id]);
      var q := if context.None? || p.browser.None? || !w.connected then CloseNow(p, Failed, Some(id)) else p;
      if q != p {
        CloseKeeps(p, Failed, Some(id));
      }
      PhaseKeeps(q, id, Failing(context));
      hide Core;
      SamePromise(p, Fail(p, id, w));
    }
  }

  /** The one place where a task is settled: it was not before, and it is past its work afterwards. */
  lemma SettleKeeps(p: Pool, id: nat, context: Option<nat>, q: Pool)
    requires Valid(p) && id in p.running && !Settling(p.running[id])
    requires q == p.(navigations := q.navigations, settled := p.settled + [id],
        running := p.running[id := Ending(context)])
    ensures Valid(q) && id !in p.settled
  {
    assert ActiveIds(q) == ActiveIds(p);
    SamePromise(p, q);
    hide Waits;
    assert q.running.Keys == p.running.Keys;
  }

  lemma RejectKeeps(p: Pool, id: nat)
    requires Valid(p)
    ensures Valid(Reject(p, id))
  {
    if id in p.running && p.running[id].Failing? {
      hide Valid;
      SettleKeeps(p, id, p.running[id].context, Reject(p, id));
    }
  }

  lemma SucceedKeeps(p: Pool, id: nat)
    requires Valid(p)
    ensures Valid(Succeed(p, id))
  {
    if id in p.running && p.running[id].Working? {
      hide Valid;
      SettleKeeps(p, id, Some(p.running[id].browser), Succeed(p, id));
    }
  }

  lemma RecyclingKeeps(p: Pool, id: nat, q: Pool)
    requires Core(p) && id in p.running && p.running[id].Ending? && p.active > 0
    requires q == p.(active := p.active - 1, running := p.running[id := Recycling])
    ensures Core(q)
  {
    assert ActiveIds(q) == ActiveIds(p) - {id} && id in ActiveIds(p);
    assert q.running.Keys == p.running.Keys;
    hide Waits;
  }

  lemma LeftKeeps(p: Pool, id: nat, q: Pool)
    requires Core(p) && id in p.running && p.running[id].Recycling?
    requires q == p.(running := p.running - {id})
    ensures Core(q)
  {
    assert ActiveIds(q) == ActiveIds(p);
    hide Waits;
  }

  lemma LeaveKeeps(p: Pool, id: nat, w: World)
    requires Core(p) && id in p.running && p.running[id].Recycling? && WorldOk(w)
    ensures Valid(Leave(p, id, w))
  {
    var q := p.(running := p.running - {id});
    LeftKeeps(p, id, q);
    hide Core, Valid;
    DrainKeeps(q, w);
    ScheduleKeeps(Drain(q, w));
  }

  lemma FinishKeeps(p: Pool, id: nat, w: World)
    requires Valid(p) && WorldOk(w)
    ensures Valid(Finish(p, id, w))
  {
    if id in p.running && p.running[id].Ending? && p.active > 0 {
      var q := p.(active := p.active - 1, running := p.running[id := Recycling]);
      RecyclingKeeps(p, id, q);
      var r := q.(recycle := Due(q, w));
      RecycleSet(q, r);
      if r.active == 0 && r.recycle.Some? {
        NoneActive(r);
        CloseKeeps(r, r.recycle.value, Some(id));
        assert CloseNow(r, r.recycle.value, Some(id)).running[id].Recycling?;
      } else {
        LeaveKeeps(r, id, w);
      }
    }
  }

  lemma NoneActive(p: Pool)
    requires CountsOk(p) && p.active == 0
    ensures ActiveIds(p) == {}
  {
  }

  lemma IdleKeeps(p: Pool)
    requires Valid(p)
    ensures Valid(IdleFires(p))
  {
    if p.idleTimer && p.active == 0 && p.queue == [] {
      NoneActive(p);
      CloseKeeps(p, Idle, None);
    }
  }

  lemma ForcedCloseKeeps(p: Pool, reason: Reason)
    requires Valid(p) && !IsPolicy(reason)
    ensures Valid(CloseNow(p, reason, None))
  {
    CloseKeeps(p, reason, None);
    hide Core;
    SamePromise(p, CloseNow(p, reason, None));
  }

  lemma StepKeeps(p: Pool, step: Step)
    requires Valid(p) && Enabled(p, step)
    ensures Valid(Next(p, step))
  {
    hide Valid;
    match step
    case UseStep(t, w) => UseKeeps(p, t, w);
    case ResumeStep(id) => ResumeKeeps(p, id);
    case LaunchStep(ok, w) => LaunchDoneKeeps(p, ok, w);
    case ContextStep(id) => OpenContextKeeps(p, id);
    case FailStep(id, w) => FailKeeps(p, id, w);
    case RejectStep(id) => RejectKeeps(p, id);
    case SucceedStep(id) => SucceedKeeps(p, id);
    case FinishStep(id, w) => FinishKeeps(p, id, w);
    case RecycledStep(id, w) =>
      if id in p.running && p.running[id].Recycling? {
        ValidCore(p);
        LeaveKeeps(p, id, w);
      }
    case IdleStep => IdleKeeps(p);
    case CrashStep => ForcedCloseKeeps(p, Disconnected);
    case ShutdownStep => ForcedCloseKeeps(p, Shutdown);
  }

  lemma ValidCore(p: Pool)
    requires Valid(p)
    ensures Core(p)
  {
  }

  // --- Runs ---

  function Start(): Pool { Pool(None, 0, 0, [], None, None, false, map[], {}, [], 0, 0, {}, []) }

  function After(p: Pool, run: seq<Step>): Pool
    decreases |run|
  {
    if run == [] then p else After(Next(p, run[0]), run[1..])
  }

  ghost predicate Steps(p: Pool, run: seq<Step>)
    decreases |run|
  {
    run == [] || (Enabled(p, run[0]) && Steps(Next(p, run[0]), run[1..]))
  }

  lemma {:induction false} RunKeeps(p: Pool, run: seq<Step>)
    requires Valid(p) && Steps(p, run)
    ensures Valid(After(p, run))
    decreases |run|
  {
    hide Valid, Next, Enabled;
    if run != [] {
      StepKeeps(p, run[0]);
      RunKeeps(Next(p, run[0]), run[1..]);
    }
  }

  predicate Waiting(p: Pool, id: nat) { exists i :: 0 <= i < |p.queue| && p.queue[i].id == id }
  predicate AtWork(p: Pool, id: nat) { id in p.running && !Settling(p.running[id]) }

  /** In every run: at most two active and 32 waiting, at most one launch, and no recycling beside an active task. */
  lemma PoolIsBounded(run: seq<Step>)
    requires Steps(Start(), run)
    ensures var p := After(Start(), run);
      && p.active == |ActiveIds(p)| <= 2 && |p.queue| <= 32
      && p.ends <= p.starts <= p.ends + 1 && |p.open| <= 1
      && (forall i :: 0 <= i < |p.log| && IsPolicy(p.log[i].reason) ==> !p.log[i].othersActive)
      && (p.queue != [] ==> p.active > 0 || exists id :: id in p.running && p.running[id].Recycling?)
  {
    StartIsValid();
    RunKeeps(Start(), run);
    hide After, Steps;
  }

  lemma StartIsValid()
    ensures Valid(Start())
  {
    assert ActiveIds(Start()) == {};
  }

  /** Every accepted task is in exactly one place: waiting, at work, or settled, and settled only once. */
  lemma EachTaskOnce(run: seq<Step>, id: nat)
    requires Steps(Start(), run) && id in After(Start(), run).accepted
    ensures var p := After(Start(), run);
      && (Waiting(p, id) ==> !AtWork(p, id) && id !in p.settled)
      && (AtWork(p, id) ==> id !in p.settled)
      && (Waiting(p, id) || AtWork(p, id) || id in p.settled)
      && multiset(p.settled)[id] <= 1
  {
    StartIsValid();
    RunKeeps(Start(), run);
    hide After, Steps, CountsOk, BrowserOk, LogOk;
    var p := After(Start(), run);
    OnceInList(p.settled, id);
    if Waiting(p, id) {
      var i :| 0 <= i < |p.queue| && p.queue[i].id == id;
      assert p.queue[i] in multiset(p.queue);
    }
    if Waits(multiset(p.queue), id) {
      var t :| t in multiset(p.queue) && t.id == id;
      var i :| 0 <= i < |p.queue| && p.queue[i] == t;
      assert Waiting(p, id);
    }
  }

  lemma {:induction false} OnceInList(list: seq<nat>, id: nat)
    requires forall i, j :: 0 <= i < j < |list| ==> list[i] != list[j]
    ensures multiset(list)[id] <= 1
  {
    if list != [] {
      var init, last := list[..|list| - 1], list[|list| - 1];
      OnceInList(init, id);
      assert list == init + [last];
      assert last !in init;
    }
  }
}
