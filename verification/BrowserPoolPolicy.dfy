/**
  Which browser a task gets and when the pool gives one up (server/browser-pool.ts).
 */
module BrowserPoolPolicy {
  import opened Options
  import opened BrowserPool
  import opened BrowserPoolRuns

  // --- One task ---

  /** The open browser may serve a task that starts in world `w`. */
  predicate Fit(p: Pool, w: World) {
    && p.browser.Some? && w.connected && p.browser.value.proxy == w.proxy
    && p.navigations < 50 && w.now < p.browser.value.openedAt + 30 * 60000
  }

  /**
    A task that starts alone keeps the open browser exactly when it answers, was opened for the proxy that is
    configured now, has shown fewer than 50 pages and is less than 30 minutes old. Otherwise it is closed.
   */
  lemma AloneOnlyOnFitBrowser(p: Pool, id: nat, w: World)
    requires p.active == 1 && id in p.running && p.running[id].Closing?
    ensures var r := EnsureBrowser(p, id, w);
      && id in r.running
      && (r.running[id].Holding? <==> Fit(p, w))
      && (Fit(p, w) ==> r.browser == p.browser && r.running[id].browser == p.browser.value.id && r.log == p.log)
      && (!Fit(p, w) ==> r.browser.None?)
      && (|r.log| > |p.log| <==> p.browser.Some? && !Fit(p, w))
      && (p.browser.None? ==> r.launching.Some? && r.running[id].Launching?)
  {
  }

  /** Beside another task the browser stays, and is marked for recycling exactly when it is no longer fit. */
  lemma SharedBrowserIsMarked(p: Pool, id: nat, w: World)
    requires p.active > 1 && id in p.running && p.running[id].Closing? && p.browser.Some?
    ensures var r := EnsureBrowser(p, id, w);
      && r.browser == p.browser && r.log == p.log && id in r.running
      && r.running[id] == Holding(p.browser.value.id)
      && (Fit(p, w) ==> r.recycle == p.recycle)
      && (!Fit(p, w) ==> r.recycle.Some?)
  {
  }

  /** The task whose unfit browser was closed launches one for the proxy it found, and gets that one. */
  lemma RelaunchUsesProxy(p: Pool, id: nat, w: World, later: World)
    requires p.active == 1 && id in p.running && p.running[id] == Closing(w.proxy)
    requires p.browser.Some? && !Fit(p, w) && p.launching.None?
    ensures var q := Resume(EnsureBrowser(p, id, w), id);
            var r := LaunchDone(q, true, later);
      && q.launching == Some(w.proxy) && q.browser.None? && q.navigations == 0
      && r.browser == Some(Chromium(p.ends, w.proxy, later.now)) && r.launching.None? && r.navigations == 0
      && id in r.running && r.running[id] == Holding(p.ends)
  {
  }

  /** Who waits for a launch gets its browser; when it fails, they fail, and nobody else notices. */
  lemma LaunchServesAll(p: Pool, id: nat, ok: bool, w: World)
    requires p.launching.Some? && id in p.running
    ensures var r := LaunchDone(p, ok, w);
      && r.launching.None? && id in r.running
      && (p.running[id].Launching? ==> r.running[id] == if ok then Holding(p.ends) else Broken)
      && (!p.running[id].Launching? ==> r.running[id] == p.running[id])
      && (ok ==> r.browser == Some(Chromium(p.ends, p.launching.value, w.now)))
      && (!ok ==> r.browser == p.browser)
  {
  }

  /** A failed page takes the browser with it exactly when it had no context or the browser does not answer. */
  lemma PageFailureKeepsBrowser(p: Pool, id: nat, w: World)
    requires id in p.running && CanFail(p.running[id]) && p.browser.Some?
    ensures var r := Fail(p, id, w);
      && (r.browser == p.browser <==> p.running[id].Working? && w.connected)
      && (r.browser != p.browser ==> r.browser.None? && |r.log| == |p.log| + 1 && r.log[|p.log|].reason == Failed)
  {
  }

  /**
    When the last task ends, the browser goes exactly when it was marked, has shown 50 pages or is 30 minutes
    old; otherwise, with nobody waiting, it is kept and its idle time begins.
   */
  lemma LastTaskRecycles(p: Pool, id: nat, w: World)
    requires id in p.running && p.running[id].Ending? && p.active == 1 && p.queue == [] && p.browser.Some?
    ensures var r := Finish(p, id, w);
            var due := p.recycle.Some? || p.navigations >= 50 || w.now >= p.browser.value.openedAt + 30 * 60000;
      && r.active == 0
      && (due ==> r.browser.None? && |r.log| == |p.log| + 1)
      && (!due ==> r.browser == p.browser && r.log == p.log && r.idleTimer && id !in r.running)
  {
  }

  /** A task that ends beside another leaves the browser alone. */
  lemma SharedBrowserStays(p: Pool, id: nat, w: World)
    requires id in p.running && p.running[id].Ending? && p.active > 1 && p.queue == []
    ensures Finish(p, id, w).browser == p.browser && Finish(p, id, w).log == p.log
    ensures Finish(p, id, w).active == p.active - 1
  {
  }

  // --- Who starts ---

  lemma {:induction false} DrainFrame(p: Pool, w: World)
    ensures DrainAll(p, w).queue == [] || w.capacity <= DrainAll(p, w).active
    ensures multiset(DrainAll(p, w).queue) <= multiset(p.queue)
    decreases |p.queue|
  {
    if p.active < w.capacity && p.queue != [] {
      var sorted := SortTasks(p.queue);
      var q := StartTask(p.(queue := sorted[1..]), sorted[0], w);
      PoppedBag(p, w);
      hide SortTasks, EnsureBrowser;
      DrainFrame(q, w);
    }
  }

  /** Nobody who still waits should have started before a task that did. */
  lemma {:induction false} DrainInOrder(p: Pool, w: World, t: Task, u: Task)
    requires multiset(p.queue)[t] > multiset(DrainAll(p, w).queue)[t] && u in multiset(DrainAll(p, w).queue)
    ensures !Precedes(u, t)
    decreases |p.queue|
  {
    if p.active < w.capacity && p.queue != [] {
      var sorted := SortTasks(p.queue);
      var q := StartTask(p.(queue := sorted[1..]), sorted[0], w);
      PoppedBag(p, w);
      DrainFrame(q, w);
      var i := HeadIsNext(p.queue);
      hide SortTasks, EnsureBrowser, Precedes;
      assert multiset(q.queue) == multiset(p.queue) - multiset{sorted[0]};
      if multiset(q.queue)[t] > multiset(DrainAll(q, w).queue)[t] {
        DrainInOrder(q, w, t, u);
      } else {
        assert t == sorted[0];
        assert u in multiset(p.queue);
      }
    }
  }

  /**
    A call is refused exactly when 32 tasks wait. After any other no capacity is left unused while a task
    waits, and no task that still waits had a higher priority, or the same one and an earlier request, than
    one that started.
   */
  lemma UseStartsInOrder(p: Pool, t: Task, w: World)
    ensures var r := Use(p, t, w);
      && (|p.queue| >= 32 ==> r == p)
      && (|p.queue| < 32 ==>
            && t.id in r.accepted && (r.queue == [] || w.capacity <= r.active)
            && forall a, b :: multiset(p.queue + [t])[a] > multiset(r.queue)[a] && b in multiset(r.queue)
                 ==> !Precedes(b, a))
  {
    if |p.queue| < 32 {
      var q := p.(queue := p.queue + [t], accepted := p.accepted + {t.id}, idleTimer := false);
      DrainFrame(q, w);
      DrainAccepts(q, w);
      hide DrainAll, Precedes;
      assert Use(p, t, w) == DrainAll(q, w);
      forall a, b | multiset(q.queue)[a] > multiset(DrainAll(q, w).queue)[a] && b in multiset(DrainAll(q, w).queue)
        ensures !Precedes(b, a)
      {
        DrainInOrder(q, w, a, b);
      }
    }
  }

  lemma {:induction false} DrainAccepts(p: Pool, w: World)
    ensures DrainAll(p, w).accepted == p.accepted
    decreases |p.queue|
  {
    if p.active < w.capacity && p.queue != [] {
      var sorted := SortTasks(p.queue);
      hide SortTasks;
      DrainAccepts(StartTask(p.(queue := sorted[1..]), sorted[0], w), w);
    }
  }

  // --- In every run: proxies ---

  /** The world in which a step may start tasks. */
  function StartsIn(step: Step): Option<World> {
    match step
    case UseStep(_, w) => Some(w)
    case FinishStep(_, w) => Some(w)
    case RecycledStep(_, w) => Some(w)
    case _ => None
  }

  /** Every proxy that was configured when the run may have started a task. */
  function Proxies(run: seq<Step>): set<string> {
    set k | 0 <= k < |run| && StartsIn(run[k]).Some? :: StartsIn(run[k]).value.proxy
  }

  predicate Single(known: set<string>) { forall a, b :: a in known && b in known ==> a == b }

  ghost predicate ProxiesOk(p: Pool, known: set<string>) {
    && (p.launching.Some? ==> p.launching.value in known)
    && (p.browser.Some? ==> p.browser.value.proxy in known)
    && (forall id :: id in p.running && p.running[id].Closing? ==> p.running[id].proxy in known)
    && (Single(known) ==> p.recycle != Some(ProxyChanged))
    && (Single(known) ==> forall i :: 0 <= i < |p.log| ==> p.log[i].reason != ProxyChanged)
  }

  lemma EnsureProxies(p: Pool, id: nat, w: World, known: set<string>)
    requires ProxiesOk(p, known) && w.proxy in known
    ensures ProxiesOk(EnsureBrowser(p, id, w), known)
  {
  }

  lemma CloseProxies(p: Pool, reason: Reason, self: Option<nat>, known: set<string>)
    requires ProxiesOk(p, known) && (Single(known) ==> reason != ProxyChanged)
    ensures ProxiesOk(CloseNow(p, reason, self), known)
  {
    hide ActiveIds;
  }

  lemma {:induction false} DrainProxies(p: Pool, w: World, known: set<string>)
    requires ProxiesOk(p, known) && w.proxy in known
    ensures ProxiesOk(DrainAll(p, w), known)
    decreases |p.queue|
  {
    if p.active < w.capacity && p.queue != [] {
      var sorted := SortTasks(p.queue);
      var q := p.(queue := sorted[1..], active := p.active + 1, running := p.running[sorted[0].id := Closing(w.proxy)]);
      StartProxies(p, sorted[0], q, w, known);
      hide SortTasks, EnsureBrowser, ProxiesOk;
      EnsureProxies(q, sorted[0].id, w, known);
      assert StartTask(p.(queue := sorted[1..]), sorted[0], w) == EnsureBrowser(q, sorted[0].id, w);
      DrainProxies(EnsureBrowser(q, sorted[0].id, w), w, known);
    }
  }

  lemma StartProxies(p: Pool, t: Task, q: Pool, w: World, known: set<string>)
    requires ProxiesOk(p, known) && w.proxy in known
    requires q == p.(queue := q.queue, active := q.active, running := p.running[t.id := Closing(w.proxy)])
    ensures ProxiesOk(q, known)
  {
  }

  lemma LeaveProxies(p: Pool, id: nat, w: World, known: set<string>)
    requires ProxiesOk(p, known) && w.proxy in known
    ensures ProxiesOk(Leave(p, id, w), known)
  {
    var q := p.(running := p.running - {id}, idleTimer := false);
    assert ProxiesOk(q, known);
    DrainProxies(q, w, known);
    var r := DrainAll(q, w);
    hide DrainAll;
    assert Leave(p, id, w) == ScheduleIdleClose(r);
  }

  lemma FinishProxies(p: Pool, id: nat, w: World, known: set<string>)
    requires ProxiesOk(p, known) && w.proxy in known
    ensures ProxiesOk(Finish(p, id, w), known)
  {
    if id in p.running && p.running[id].Ending? && p.active > 0 {
      var q := p.(active := p.active - 1, running := p.running[id := Recycling]);
      var r := q.(recycle := Due(q, w));
      assert ProxiesOk(r, known);
      hide Due, ProxiesOk, Leave, CloseNow;
      if r.active == 0 && r.recycle.Some? {
        RecycleProxies(r, id, known);
      } else {
        LeaveProxies(r, id, w, known);
      }
    }
  }

  lemma RecycleProxies(p: Pool, id: nat, known: set<string>)
    requires ProxiesOk(p, known) && p.recycle.Some?
    ensures ProxiesOk(CloseNow(p, p.recycle.value, Some(id)), known)
  {
    CloseProxies(p, p.recycle.value, Some(id), known);
  }

  lemma PhaseProxies(p: Pool, step: Step, known: set<string>)
    requires ProxiesOk(p, known)
    requires step.ResumeStep? || step.LaunchStep? || step.ContextStep? || step.RejectStep? || step.SucceedStep?
    ensures ProxiesOk(Next(p, step), known)
  {
  }

  lemma FailProxies(p: Pool, id: nat, w: World, known: set<string>)
    requires ProxiesOk(p, known)
    ensures ProxiesOk(Fail(p, id, w), known)
  {
    CloseProxies(p, Failed, Some(id), known);
    hide CloseNow;
  }

  lemma StepProxies(p: Pool, step: Step, known: set<string>)
    requires ProxiesOk(p, known) && (StartsIn(step).Some? ==> StartsIn(step).value.proxy in known)
    ensures ProxiesOk(Next(p, step), known)
  {
    hide Leave, Finish, Fail, CloseNow, DrainAll;
    match step
    case UseStep(t, w) =>
      var q := p.(queue := p.queue + [t], accepted := p.accepted + {t.id}, idleTimer := false);
      DrainProxies(q, w, known);
    case FailStep(id, w) => FailProxies(p, id, w, known);
    case FinishStep(id, w) => FinishProxies(p, id, w, known);
    case RecycledStep(id, w) => LeaveProxies(p, id, w, known);
    case IdleStep => CloseProxies(p, Idle, None, known);
    case CrashStep => CloseProxies(p, Disconnected, None, known);
    case ShutdownStep => CloseProxies(p, Shutdown, None, known);
    case _ =>
      hide ProxiesOk;
      PhaseProxies(p, step, known);
  }

  lemma {:induction false} RunProxies(p: Pool, run: seq<Step>, known: set<string>)
    requires ProxiesOk(p, known) && Proxies(run) <= known
    ensures ProxiesOk(After(p, run), known)
    decreases |run|
  {
    hide ProxiesOk, Next;
    if run != [] {
      FirstProxy(run);
      StepProxies(p, run[0], known);
      RunProxies(Next(p, run[0]), run[1..], known);
    }
  }

  lemma FirstProxy(run: seq<Step>)
    requires run != []
    ensures StartsIn(run[0]).Some? ==> StartsIn(run[0]).value.proxy in Proxies(run)
    ensures Proxies(run[1..]) <= Proxies(run)
  {
    forall x | x in Proxies(run[1..]) ensures x in Proxies(run) {
      var k :| 0 <= k < |run[1..]| && StartsIn(run[1..][k]).Some? && StartsIn(run[1..][k]).value.proxy == x;
      assert run[1..][k] == run[k + 1];
    }
  }

  /**
    In every run a browser is opened for a proxy that was configured when some task started; and while one proxy
    is configured throughout, every browser is opened for that one and none is closed as if it had changed.
   */
  lemma BrowsersUseConfiguredProxies(run: seq<Step>)
    ensures var p := After(Start(), run);
      && (p.browser.Some? ==> p.browser.value.proxy in Proxies(run))
      && (p.launching.Some? ==> p.launching.value in Proxies(run))
      && (Single(Proxies(run)) ==> forall i :: 0 <= i < |p.log| ==> p.log[i].reason != ProxyChanged)
  {
    RunProxies(Start(), run, Proxies(run));
    hide After, Proxies, Single;
  }

  // --- In every run: pages, and the idle pool ---

  /** A page limit is noted, and a browser closed for it, only at 50 pages. */
  predicate PagesOk(p: Pool) {
    && (p.recycle == Some(PageLimit) ==> p.navigations >= 50)
    && (forall i :: 0 <= i < |p.log| && p.log[i].reason == PageLimit ==> p.log[i].pages >= 50)
  }

  ghost predicate LaunchWanted(p: Pool) {
    p.launching.Some? ==> exists id :: id in p.running && p.running[id].Launching?
  }

  /** A browser that nobody uses is not marked and has shown fewer than 50 pages. */
  predicate RestsFit(p: Pool) {
    p.active == 0 ==> p.recycle.None? && (p.browser.Some? ==> p.navigations < 50)
  }

  /** It is on the idle timer, and nobody waits for it. */
  predicate RestsTimed(p: Pool) { p.active == 0 && p.browser.Some? ==> p.queue == [] && p.idleTimer }

  ghost predicate Resting(p: Pool) { PagesOk(p) && LaunchWanted(p) && RestsFit(p) }

  lemma EnsureRests(p: Pool, id: nat, w: World)
    requires Resting(p) && p.active > 0 && id in p.running && p.running[id].Closing?
    ensures Resting(EnsureBrowser(p, id, w))
  {
    hide ActiveIds;
    var r := EnsureBrowser(p, id, w);
    if p.launching.Some? {
      var x :| x in p.running && p.running[x].Launching?;
      assert x in r.running && r.running[x].Launching?;
    } else if r.launching.Some? {
      assert id in r.running && r.running[id].Launching?;
    }
  }

  lemma PoppedRests(p: Pool, w: World)
    requires Resting(p) && Core(p) && p.queue != []
    ensures Resting(Popped(p, w)) && Popped(p, w).active > 0
    ensures var id := SortTasks(p.queue)[0].id; id in Popped(p, w).running && Popped(p, w).running[id].Closing?
  {
    PoppedBag(p, w);
    var head, q := SortTasks(p.queue)[0], Popped(p, w);
    StartsBag(p, head, q);
    hide SortTasks, Core;
    if p.launching.Some? {
      var x :| x in p.running && p.running[x].Launching?;
      assert x in q.running && q.running[x].Launching?;
    }
  }

  lemma NextRests(p: Pool, w: World)
    requires Resting(p) && Core(p) && WorldOk(w) && p.active < w.capacity && p.queue != []
    ensures var sorted := SortTasks(p.queue);
            var r := StartTask(p.(queue := sorted[1..]), sorted[0], w);
            Resting(r) && Core(r)
  {
    PoppedKeeps(p, w);
    PoppedRests(p, w);
    var sorted, q := SortTasks(p.queue), Popped(p, w);
    hide Core, Resting, SortTasks, EnsureBrowser;
    EnsureKeeps(q, sorted[0].id, w);
    EnsureRests(q, sorted[0].id, w);
    assert EnsureBrowser(q, sorted[0].id, w) == StartTask(p.(queue := sorted[1..]), sorted[0], w);
  }

  lemma {:induction false} DrainRests(p: Pool, w: World)
    requires Resting(p) && Core(p) && WorldOk(w)
    ensures var r := DrainAll(p, w);
            Resting(r) && Core(r) && (r.active == 0 ==> r == p && r.queue == [])
    decreases |p.queue|
  {
    hide Core, Resting, SortTasks, EnsureBrowser;
    if p.active < w.capacity && p.queue != [] {
      var sorted := SortTasks(p.queue);
      var r := StartTask(p.(queue := sorted[1..]), sorted[0], w);
      NextRests(p, w);
      DrainRests(r, w);
      DrainStarts(r, w);
    }
  }

  lemma {:induction false} DrainStarts(p: Pool, w: World)
    ensures DrainAll(p, w).active >= p.active
    decreases |p.queue|
  {
    if p.active < w.capacity && p.queue != [] {
      var sorted := SortTasks(p.queue);
      hide SortTasks, EnsureBrowser;
      DrainStarts(StartTask(p.(queue := sorted[1..]), sorted[0], w), w);
    }
  }

  lemma TimerRests(p: Pool, q: Pool)
    requires Resting(p) && q == p.(idleTimer := q.idleTimer)
    ensures Resting(q)
  {
  }

  lemma LeftRests(p: Pool, id: nat, r: Pool)
    requires Resting(p) && id in p.running && p.running[id].Recycling?
    requires r == p.(running := p.running - {id}, idleTimer := false)
    ensures Resting(r)
  {
    if p.launching.Some? {
      var x :| x in p.running && p.running[x].Launching?;
      assert x in r.running && r.running[x].Launching?;
    }
  }

  lemma LeaveRests(p: Pool, id: nat, w: World)
    requires Resting(p) && Core(p) && id in p.running && p.running[id].Recycling? && WorldOk(w)
    ensures Resting(Leave(p, id, w)) && RestsTimed(Leave(p, id, w))
  {
    var q := p.(running := p.running - {id});
    var r := q.(idleTimer := false);
    LeftKeeps(p, id, q);
    TimerCleared(q, r);
    LeftRests(p, id, r);
    hide Core, Resting, DrainAll;
    DrainRests(r, w);
    TimerRests(DrainAll(r, w), Leave(p, id, w));
  }

  lemma UseRests(p: Pool, t: Task, w: World)
    requires Resting(p) && RestsTimed(p) && Core(p) && t.id !in p.accepted && WorldOk(w)
    ensures Resting(Use(p, t, w)) && RestsTimed(Use(p, t, w))
  {
    if |p.queue| < MAX_QUEUED_TASKS {
      var r := p.(queue := p.queue + [t], accepted := p.accepted + {t.id}, idleTimer := false);
      QueuedRests(p, t, r);
      hide Core, Resting, DrainAll;
      DrainRests(r, w);
      assert Use(p, t, w) == DrainAll(r, w);
    }
  }

  lemma QueuedRests(p: Pool, t: Task, r: Pool)
    requires Resting(p) && Core(p) && t.id !in p.accepted && |p.queue| < MAX_QUEUED_TASKS
    requires r == p.(queue := p.queue + [t], accepted := p.accepted + {t.id}, idleTimer := false)
    ensures Resting(r) && Core(r) && r.queue != []
  {
    var q := p.(queue := p.queue + [t], accepted := p.accepted + {t.id});
    QueuedStillRests(p, r);
    hide Core, Resting;
    Enqueued(p, t, q);
    TimerCleared(q, r);
  }

  lemma QueuedStillRests(p: Pool, r: Pool)
    requires Resting(p) && r == p.(queue := r.queue, accepted := r.accepted, idleTimer := r.idleTimer)
    ensures Resting(r)
  {
    if p.launching.Some? {
      var x :| x in p.running && p.running[x].Launching?;
      assert x in r.running && r.running[x].Launching?;
    }
  }

  lemma CloseRests(p: Pool, reason: Reason, self: Option<nat>)
    requires Resting(p) && (reason == PageLimit ==> p.navigations >= 50)
    ensures Resting(CloseNow(p, reason, self)) && RestsTimed(CloseNow(p, reason, self))
  {
    hide ActiveIds;
  }

  /** A task that waits for the launch still waits after a step that only changes other tasks' phases. */
  lemma StillLaunching(p: Pool, q: Pool, id: nat)
    requires LaunchWanted(p) && q.launching == p.launching && q.running.Keys == p.running.Keys
    requires id in p.running && !p.running[id].Launching?
    requires forall x :: x in p.running && x != id ==> q.running[x] == p.running[x]
    ensures LaunchWanted(q)
  {
    if p.launching.Some? {
      var x :| x in p.running && p.running[x].Launching?;
      assert x in q.running && q.running[x].Launching?;
    }
  }

  lemma ActiveSome(p: Pool, id: nat)
    requires CountsOk(p) && id in p.running && !p.running[id].Recycling?
    ensures p.active > 0
  {
    assert id in ActiveIds(p);
  }

  lemma PhaseRests(p: Pool, step: Step)
    requires Resting(p) && RestsTimed(p) && Core(p)
    requires step.ContextStep? || step.RejectStep? || step.SucceedStep?
    ensures Resting(Next(p, step)) && RestsTimed(Next(p, step))
  {
    if step.id in p.running {
      if !p.running[step.id].Recycling? {
        ActiveSome(p, step.id);
      }
      if !p.running[step.id].Launching? {
        StillLaunching(p, Next(p, step), step.id);
      }
    }
    hide LaunchWanted, Core;
  }

  lemma FailRests(p: Pool, id: nat, w: World)
    requires Resting(p) && RestsTimed(p) && Core(p)
    ensures Resting(Fail(p, id, w)) && RestsTimed(Fail(p, id, w))
  {
    if id in p.running && CanFail(p.running[id]) {
      ActiveSome(p, id);
      CloseRests(p, Failed, Some(id));
      StillLaunching(p, Fail(p, id, w), id);
      hide LaunchWanted, Core, ActiveIds;
    }
  }

  lemma ResumeRests(p: Pool, id: nat)
    requires Resting(p) && RestsTimed(p) && Core(p)
    ensures Resting(Resume(p, id)) && RestsTimed(Resume(p, id))
  {
    if id in p.running && p.running[id].Closing? {
      ActiveSome(p, id);
      hide Core;
      var r := Resume(p, id);
      if p.launching.Some? {
        var x :| x in p.running && p.running[x].Launching?;
        assert x in r.running && r.running[x].Launching?;
      } else if r.launching.Some? {
        assert id in r.running && r.running[id].Launching?;
      }
    }
  }

  lemma LaunchRests(p: Pool, ok: bool, w: World)
    requires Resting(p) && RestsTimed(p) && Core(p)
    ensures Resting(LaunchDone(p, ok, w)) && RestsTimed(LaunchDone(p, ok, w))
  {
    if p.launching.Some? {
      var x :| x in p.running && p.running[x].Launching?;
      ActiveSome(p, x);
    }
  }

  lemma FinishRests(p: Pool, id: nat, w: World)
    requires Resting(p) && RestsTimed(p) && Core(p) && WorldOk(w)
    ensures Resting(Finish(p, id, w)) && RestsTimed(Finish(p, id, w))
  {
    if id in p.running && p.running[id].Ending? && p.active > 0 {
      var q := p.(active := p.active - 1, running := p.running[id := Recycling]);
      var r := q.(recycle := Due(q, w));
      MarkedRests(p, id, w, q, r);
      hide Core, LaunchWanted, PagesOk, Resting, RestsTimed, Due, CloseNow, Leave;
      if r.active == 0 && r.recycle.Some? {
        RecycledRests(r, id);
      } else {
        LeaveRests(r, id, w);
      }
    }
  }

  lemma MarkedRests(p: Pool, id: nat, w: World, q: Pool, r: Pool)
    requires Resting(p) && Core(p) && id in p.running && p.running[id].Ending? && p.active > 0
    requires q == p.(active := p.active - 1, running := p.running[id := Recycling]) && r == q.(recycle := Due(q, w))
    ensures Core(r) && PagesOk(r) && LaunchWanted(r)
    ensures (r.active == 0 && r.recycle.Some?) || Resting(r)
  {
    RecyclingKeeps(p, id, q);
    RecycleSet(q, r);
    StillLaunching(p, r, id);
    hide Core, LaunchWanted;
  }

  lemma RecycledRests(p: Pool, id: nat)
    requires PagesOk(p) && LaunchWanted(p) && p.active == 0 && p.recycle.Some?
    ensures var r := CloseNow(p, p.recycle.value, Some(id)); Resting(r) && RestsTimed(r)
  {
    hide ActiveIds;
  }

  lemma StepRests(p: Pool, step: Step)
    requires Valid(p) && Resting(p) && RestsTimed(p) && Enabled(p, step)
    ensures Resting(Next(p, step)) && RestsTimed(Next(p, step))
  {
    ValidCore(p);
    hide Valid, Core, Resting, RestsTimed, CloseNow;
    match step
    case UseStep(t, w) => UseRests(p, t, w);
    case ResumeStep(id) => ResumeRests(p, id);
    case LaunchStep(ok, w) => LaunchRests(p, ok, w);
    case FailStep(id, w) => FailRests(p, id, w);
    case FinishStep(id, w) => FinishRests(p, id, w);
    case RecycledStep(id, w) =>
      if id in p.running && p.running[id].Recycling? {
        LeaveRests(p, id, w);
      }
    case IdleStep => CloseRests(p, Idle, None);
    case CrashStep => CloseRests(p, Disconnected, None);
    case ShutdownStep => CloseRests(p, Shutdown, None);
    case ContextStep(_) => PhaseRests(p, step);
    case RejectStep(_) => PhaseRests(p, step);
    case SucceedStep(_) => PhaseRests(p, step);
  }

  lemma {:induction false} RunRests(p: Pool, run: seq<Step>)
    requires Valid(p) && Resting(p) && RestsTimed(p) && Steps(p, run)
    ensures Resting(After(p, run)) && RestsTimed(After(p, run))
    decreases |run|
  {
    hide Valid, Resting, RestsTimed, Next, Enabled;
    if run != [] {
      StepKeeps(p, run[0]);
      StepRests(p, run[0]);
      RunRests(Next(p, run[0]), run[1..]);
    }
  }

  /**
    In every run: a browser that no task uses has nobody waiting, shown fewer than 50 pages, no recycling due
    and its idle timer set; and no browser was ever closed for its pages before the fiftieth.
   */
  lemma IdleBrowserIsFit(run: seq<Step>)
    requires Steps(Start(), run)
    ensures var p := After(Start(), run);
      && (p.active == 0 && p.browser.Some? ==>
            p.queue == [] && p.idleTimer && p.recycle.None? && p.navigations < 50)
      && (forall i :: 0 <= i < |p.log| && p.log[i].reason == PageLimit ==> p.log[i].pages >= 50)
  {
    StartIsValid();
    RunRests(Start(), run);
    hide After, Steps, LaunchWanted;
  }
}
