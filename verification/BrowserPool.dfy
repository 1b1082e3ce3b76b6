/**
  The pool that shares one Chromium between page tasks (server/browser-pool.ts).

  The source runs on one thread, so what lies between two `await`s is one step. `Pool` is the state
  those steps share, with the phase each running task has reached; the steps are functions on it.
 */
module BrowserPool {
  import opened Options

  const MAX_QUEUED_TASKS := 32
  const PAGE_LIMIT := 50
  const AGE_LIMIT_MS := 30 * 60000

  datatype Task = Task(id: nat, priority: int, requestedAt: nat)

  datatype Reason = Disconnected | ProxyChanged | PageLimit | AgeLimit | Idle | Failed | Shutdown

  /** Reasons the pool finds for itself, as opposed to a broken browser or the end of the process. */
  predicate IsPolicy(r: Reason) { r == ProxyChanged || r == PageLimit || r == AgeLimit || r == Idle }

  datatype Chromium = Chromium(id: nat, proxy: string, openedAt: nat)

  /** Where a running task stands: what it is waiting for, and the browser its context is open on. */
  datatype Phase =
    | Closing(proxy: string)
    | Launching
    | Broken
    | Holding(browser: nat)
    | Working(browser: nat)
    | Failing(context: Option<nat>)
    | Ending(context: Option<nat>)
    | Recycling

  /** One request to close a browser: whether another task was active at that moment, and the pages it had shown. */
  datatype Closed = Closed(reason: Reason, browser: nat, othersActive: bool, pages: nat)

  /**
    `running`, and from `accepted` on, record the tasks and browsers for the statements below:
    launches started and ended, browsers not yet asked to close, and the closes.
   */
  datatype Pool = Pool(
    browser: Option<Chromium>, navigations: nat, active: nat, queue: seq<Task>, launching: Option<string>,
    recycle: Option<Reason>, idleTimer: bool,
    running: map<nat, Phase>, accepted: set<nat>, settled: seq<nat>, starts: nat, ends: nat, open: set<nat>,
        log: seq<Closed>)

  /** What a step reads from outside: the clock, the configured proxy and capacity, and whether the browser answers. */
  datatype World = World(now: nat, proxy: string, capacity: nat, connected: bool)

  predicate WorldOk(w: World) { w.capacity == 1 || w.capacity == 2 }

  function ActiveIds(p: Pool): set<nat> { set id | id in p.running && !p.running[id].Recycling? }

  // --- The queue ---

  predicate Precedes(a: Task, b: Task) {
    a.priority > b.priority || (a.priority == b.priority && a.requestedAt < b.requestedAt)
  }

  /** Stable insertion from the right end. */
  function InsertTask(sorted: seq<Task>, t: Task): (r: seq<Task>)
    ensures |r| == |sorted| + 1
  {
    if sorted == [] || !Precedes(t, sorted[|sorted| - 1]) then sorted + [t]
    else InsertTask(sorted[..|sorted| - 1], t) + [sorted[|sorted| - 1]]
  }

  function SortTasks(queue: seq<Task>): (r: seq<Task>)
    ensures |r| == |queue|
  {
    if queue == [] then [] else InsertTask(SortTasks(queue[..|queue| - 1]), queue[|queue| - 1])
  }

  predicate Sorted(s: seq<Task>) {
    forall i, j :: 0 <= i < j < |s| ==> !Precedes(s[j], s[i])
  }

  lemma PrecedesOrder(a: Task, b: Task, c: Task)
    ensures !Precedes(b, a) && !Precedes(c, b) ==> !Precedes(c, a)
    ensures Precedes(a, b) && !Precedes(c, b) ==> Precedes(a, c)
    ensures !(Precedes(a, b) && Precedes(b, a))
  {
  }

  lemma {:induction false} InsertTaskBag(sorted: seq<Task>, t: Task)
    ensures multiset(InsertTask(sorted, t)) == multiset(sorted) + multiset{t}
  {
    hide Precedes;
    if !(sorted == [] || !Precedes(t, sorted[|sorted| - 1])) {
      InsertTaskBag(sorted[..|sorted| - 1], t);
      assert sorted == sorted[..|sorted| - 1] + [sorted[|sorted| - 1]];
    }
  }

  lemma {:induction false} InsertTaskHead(sorted: seq<Task>, t: Task)
    requires Sorted(sorted)
    ensures InsertTask(sorted, t)[0] == if sorted == [] || Precedes(t, sorted[0]) then t else sorted[0]
  {
    hide Precedes;
    if sorted != [] {
      var n := |sorted| - 1;
      PrecedesOrder(sorted[0], sorted[n], t);
      if Precedes(t, sorted[n]) && n > 0 {
        InsertTaskHead(sorted[..n], t);
      }
    }
  }

  lemma {:induction false} InsertTaskSorted(sorted: seq<Task>, t: Task)
    requires Sorted(sorted)
    ensures Sorted(InsertTask(sorted, t))
  {
    hide Precedes;
    if sorted != [] {
      var n := |sorted| - 1;
      if Precedes(t, sorted[n]) {
        InsertTaskSorted(sorted[..n], t);
        InsertTaskBag(sorted[..n], t);
        PrecedesOrder(t, sorted[n], t);
        var r := InsertTask(sorted[..n], t);
        forall i | 0 <= i < |r| ensures !Precedes(sorted[n], r[i]) {
          assert r[i] in multiset(r);
          assert r[i] == t || r[i] in sorted[..n];
        }
      } else {
        forall i | 0 <= i < n ensures !Precedes(t, sorted[i]) {
          PrecedesOrder(sorted[i], sorted[n], t);
        }
      }
    }
  }

  lemma {:induction false} SortTasksKeeps(queue: seq<Task>)
    ensures Sorted(SortTasks(queue)) && multiset(SortTasks(queue)) == multiset(queue)
  {
    hide Precedes, Sorted;
    if queue != [] {
      var init, last := queue[..|queue| - 1], queue[|queue| - 1];
      SortTasksKeeps(init);
      InsertTaskSorted(SortTasks(init), last);
      InsertTaskBag(SortTasks(init), last);
      assert queue == init + [last];
    } else {
      assert Sorted([]) by { EmptySorted(); }
    }
  }

  lemma EmptySorted()
    ensures Sorted([])
  {
  }

  /** The next task: none has a higher priority, and of those with its priority it asked first. */
  predicate IsNext(queue: seq<Task>, i: nat)
    requires i < |queue|
  {
    && (forall j :: 0 <= j < |queue| ==> !Precedes(queue[j], queue[i]))
    && (forall j :: 0 <= j < i ==> Precedes(queue[i], queue[j]))
  }

  lemma IsNextGrows(queue: seq<Task>, i: nat)
    requires |queue| > 1 && i < |queue| - 1 && IsNext(queue[..|queue| - 1], i)
    ensures var n := |queue| - 1; IsNext(queue, if Precedes(queue[n], queue[i]) then n else i)
  {
    hide Precedes;
    var n := |queue| - 1;
    PrecedesOrder(queue[n], queue[n], queue[n]);
    forall j | 0 <= j < n ensures !Precedes(queue[j], queue[i])
        && (Precedes(queue[n], queue[i]) ==> Precedes(queue[n], queue[j])) {
      assert queue[..n][j] == queue[j];
      PrecedesOrder(queue[n], queue[i], queue[j]);
    }
    forall j | 0 <= j < n && Precedes(queue[n], queue[i]) ensures !Precedes(queue[j], queue[n]) {
      PrecedesOrder(queue[n], queue[j], queue[n]);
    }
    forall j | 0 <= j < i ensures Precedes(queue[i], queue[j]) {
      assert queue[..n][j] == queue[j];
    }
  }

  lemma {:induction false} HeadIsNext(queue: seq<Task>) returns (i: nat)
    requires queue != []
    ensures i < |queue| && queue[i] == SortTasks(queue)[0] && IsNext(queue, i)
  {
    i := 0;
    var n := |queue| - 1;
    if n > 0 {
      hide Precedes, IsNext;
      i := HeadIsNext(queue[..n]);
      SortTasksKeeps(queue[..n]);
      InsertTaskHead(SortTasks(queue[..n]), queue[n]);
      IsNextGrows(queue, i);
      if Precedes(queue[n], queue[i]) {
        i := n;
      }
    } else {
      assert queue[..0] == [] && SortTasks([]) == [];
    }
  }

  // --- The steps ---

  /** The synchronous part of `close`. */
  function CloseNow(p: Pool, reason: Reason, self: Option<nat>): Pool {
    var others := ActiveIds(p) - (if self.Some? then {self.value} else {});
    p.(browser := None, navigations := 0, recycle := None, idleTimer := false,
       open := if p.browser.Some? then p.open - {p.browser.value.id} else p.open,
       log := if p.browser.Some? then p.log + [Closed(reason, p.browser.value.id, others != {}, p.navigations)]
           else p.log)
  }

  function RecycleReason(p: Pool, w: World): Option<Reason> {
    if p.browser.None? then None
    else if !w.connected then Some(Disconnected)
    else if p.browser.value.proxy != w.proxy then Some(ProxyChanged)
    else if p.navigations >= PAGE_LIMIT then Some(PageLimit)
    else if w.now >= p.browser.value.openedAt + AGE_LIMIT_MS then Some(AgeLimit)
    else None
  }

  /** The open browser, or the launch in progress, or a new launch. */
  function AwaitBrowser(p: Pool, id: nat, proxy: string): Pool {
    if p.browser.Some? then p.(running := p.running[id := Holding(p.browser.value.id)])
    else if p.launching.Some? then p.(running := p.running[id := Launching])
    else p.(launching := Some(proxy), starts := p.starts + 1, running := p.running[id := Launching])
  }

  function EnsureBrowser(p: Pool, id: nat, w: World): (r: Pool)
    ensures r.queue == p.queue && r.active == p.active
  {
    var reason := RecycleReason(p, w);
    if reason.Some? && p.active > 1 then AwaitBrowser(p.(recycle := reason), id, w.proxy)
    else if reason.Some? then CloseNow(p, reason.value, Some(id))
    else AwaitBrowser(p, id, w.proxy)
  }

  function StartTask(p: Pool, t: Task, w: World): (r: Pool)
    ensures r.queue == p.queue && r.active == p.active + 1
  {
    EnsureBrowser(p.(active := p.active + 1, running := p.running[t.id := Closing(w.proxy)]), t.id, w)
  }

  function DrainAll(p: Pool, w: World): Pool
    decreases |p.queue|
  {
    if p.active < w.capacity && p.queue != [] then
      var sorted := SortTasks(p.queue);
      DrainAll(StartTask(p.(queue := sorted[1..]), sorted[0], w), w)
    else p
  }

  function Drain(p: Pool, w: World): Pool { DrainAll(p.(idleTimer := false), w) }

  function ScheduleIdleClose(p: Pool): Pool {
    if p.browser.None? || p.active != 0 || p.queue != [] then p else p.(idleTimer := true)
  }

  function Use(p: Pool, t: Task, w: World): Pool {
    if |p.queue| >= MAX_QUEUED_TASKS then p
    else Drain(p.(queue := p.queue + [t], accepted := p.accepted + {t.id}), w)
  }

  function Resume(p: Pool, id: nat): Pool {
    if id in p.running && p.running[id].Closing? then AwaitBrowser(p, id, p.running[id].proxy) else p
  }

  function LaunchedPhase(phase: Phase, browser: Option<nat>): Phase {
    if !phase.Launching? then phase else if browser.Some? then Holding(browser.value) else Broken
  }

  /** The launch ends; every task that waited for it goes on. */
  function LaunchDone(p: Pool, ok: bool, w: World): Pool {
    if p.launching.None? then p
    else
      var b := if ok then Some(p.ends) else None;
      p.(browser := if ok then Some(Chromium(p.ends, p.launching.value, w.now)) else p.browser,
         open := if ok then p.open + {p.ends} else p.open,
         launching := None, ends := p.ends + 1,
         running := map id | id in p.running :: LaunchedPhase(p.running[id], b))
  }

  function OpenContext(p: Pool, id: nat): Pool {
    if id in p.running && p.running[id].Holding? then p.(running := p.running[id := Working(p.running[id].browser)])
        else p
  }

  function ContextOf(phase: Phase): Option<nat> { if phase.Working? then Some(phase.browser) else None }

  predicate CanFail(phase: Phase) { phase.Broken? || phase.Holding? || phase.Working? }

  /** The `catch` part: the browser is rebuilt when no context was opened or it does not answer. */
  function Fail(p: Pool, id: nat, w: World): Pool {
    if !(id in p.running && CanFail(p.running[id])) then p
    else
      var context := ContextOf(p.running[id]);
      var q := if context.None? || p.browser.None? || !w.connected then CloseNow(p, Failed, Some(id)) else p;
      q.(running := p.running[id := Failing(context)])
  }

  function Reject(p: Pool, id: nat): Pool {
    if !(id in p.running && p.running[id].Failing?) then p
    else p.(settled := p.settled + [id], running := p.running[id := Ending(p.running[id].context)])
  }

  function Succeed(p: Pool, id: nat): Pool {
    if !(id in p.running && p.running[id].Working?) then p
    else p.(navigations := p.navigations + 1, settled := p.settled + [id],
           running := p.running[id := Ending(Some(p.running[id].browser))])
  }

  function Due(p: Pool, w: World): Option<Reason> {
    if p.active == 0 && p.recycle.None? && p.browser.Some?
       && (p.navigations >= PAGE_LIMIT || w.now >= p.browser.value.openedAt + AGE_LIMIT_MS)
    then Some(if p.navigations >= PAGE_LIMIT then PageLimit else AgeLimit)
    else p.recycle
  }

  function Leave(p: Pool, id: nat, w: World): Pool {
    ScheduleIdleClose(Drain(p.(running := p.running - {id}), w))
  }

  /** The `finally` part, once the context is closed. */
  function Finish(p: Pool, id: nat, w: World): Pool {
    if !(id in p.running && p.running[id].Ending? && p.active > 0) then p
    else
      var q := p.(active := p.active - 1, running := p.running[id := Recycling]);
      var r := q.(recycle := Due(q, w));
      if r.active == 0 && r.recycle.Some? then CloseNow(r, r.recycle.value, Some(id)) else Leave(r, id, w)
  }

  function AfterRecycle(p: Pool, id: nat, w: World): Pool {
    if id in p.running && p.running[id].Recycling? then Leave(p, id, w) else p
  }

  function IdleFires(p: Pool): Pool {
    if p.idleTimer && p.active == 0 && p.queue == [] then CloseNow(p, Idle, None) else p
  }

  datatype Step =
    | UseStep(t: Task, w: World)
    | ResumeStep(id: nat)
    | LaunchStep(ok: bool, w: World)
    | ContextStep(id: nat)
    | FailStep(id: nat, w: World)
    | RejectStep(id: nat)
    | SucceedStep(id: nat)
    | FinishStep(id: nat, w: World)
    | RecycledStep(id: nat, w: World)
    | IdleStep
    | CrashStep
    | ShutdownStep

  predicate Enabled(p: Pool, step: Step) {
    match step
    case UseStep(t, w) => t.id !in p.accepted && WorldOk(w)
    case LaunchStep(_, w) => WorldOk(w)
    case FailStep(_, w) => WorldOk(w)
    case FinishStep(_, w) => WorldOk(w)
    case RecycledStep(_, w) => WorldOk(w)
    case _ => true
  }

  function Next(p: Pool, step: Step): Pool {
    match step
    case UseStep(t, w) => Use(p, t, w)
    case ResumeStep(id) => Resume(p, id)
    case LaunchStep(ok, w) => LaunchDone(p, ok, w)
    case ContextStep(id) => OpenContext(p, id)
    case FailStep(id, w) => Fail(p, id, w)
    case RejectStep(id) => Reject(p, id)
    case SucceedStep(id) => Succeed(p, id)
    case FinishStep(id, w) => Finish(p, id, w)
    case RecycledStep(id, w) => AfterRecycle(p, id, w)
    case IdleStep => IdleFires(p)
    case CrashStep => CloseNow(p, Disconnected, None)
    case ShutdownStep => CloseNow(p, Shutdown, None)
  }
}
