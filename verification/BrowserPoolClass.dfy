/**
  The pool object itself (server/browser-pool.ts): each method is the code between two `await`s,
  proved to take the step of the same name.
 */
module BrowserPoolClass {
  import opened Options
  import opened BrowserPool

  class ChromiumPool {
    var browser: Option<Chromium>
    var navigationCount: nat
    var active: nat
    var queue: seq<Task>
    var launching: Option<string>
    var pendingRecycle: Option<Reason>
    var idleTimer: bool

    ghost var running: map<nat, Phase>
    ghost var accepted: set<nat>
    ghost var settled: seq<nat>
    ghost var starts: nat
    ghost var ends: nat
    ghost var open: set<nat>
    ghost var log: seq<Closed>

    ghost function Model(): Pool
      reads this
    {
      Pool(browser, navigationCount, active, queue, launching, pendingRecycle, idleTimer,
           running, accepted, settled, starts, ends, open, log)
    }

    constructor ()
      ensures Model() == Pool(None, 0, 0, [], None, None, false, map[], {}, [], 0, 0, {}, [])
    {
      browser, navigationCount, active, queue := None, 0, 0, [];
      launching, pendingRecycle, idleTimer := None, None, false;
      running, accepted, settled, starts, ends, open, log := map[], {}, [], 0, 0, {}, [];
    }

    method Close(reason: Reason, ghost self: Option<nat>) returns (old_browser: Option<Chromium>)
      modifies this
      ensures Model() == CloseNow(old(Model()), reason, self) && old_browser == old(browser)
    {
      hide ActiveIds;
      ghost var others := ActiveIds(Model()) - (if self.Some? then {self.value} else {});
      ghost var pages := navigationCount;
      idleTimer := false;
      old_browser := browser;
      browser := None;
      navigationCount := 0;
      pendingRecycle := None;
      if old_browser.Some? {
        open := open - {old_browser.value.id};
        log := log + [Closed(reason, old_browser.value.id, others != {}, pages)];
      }
    }

    /** `EnsureBrowser` after its checks: use the browser, join the launch, or start one. */
    method JoinLaunch(id: nat, proxy: string) returns (launches: bool)
      modifies this
      ensures Model() == AwaitBrowser(old(Model()), id, proxy)
      ensures launches == (old(browser).None? && old(launching).None?)
    {
      launches := false;
      if browser.Some? {
        running := running[id := Holding(browser.value.id)];
        return;
      }
      if launching.None? {
        launching := Some(proxy);
        launches := true;
        starts := starts + 1;
      }
      running := running[id := Launching];
    }

    method Ensure(id: nat, w: World) returns (closing: Option<Chromium>)
      modifies this
      ensures Model() == EnsureBrowser(old(Model()), id, w)
      ensures queue == old(queue) && active == old(active)
    {
      closing := None;
      var reason := if browser.None? then None
        else if !w.connected then Some(Disconnected)
        else if browser.value.proxy != w.proxy then Some(ProxyChanged)
        else if navigationCount >= PAGE_LIMIT then Some(PageLimit)
        else if w.now - browser.value.openedAt >= AGE_LIMIT_MS then Some(AgeLimit)
        else None;
      if reason.Some? && active > 1 {
        pendingRecycle := reason;
      } else if reason.Some? {
        closing := Close(reason.value, Some(id));
        return;
      }
      var launches := JoinLaunch(id, w.proxy);
    }

    /** One turn of the drain loop: the first of the sorted queue starts to run. */
    method StartNext(w: World)
      requires queue != []
      modifies this
      ensures var sorted := SortTasks(old(queue));
        Model() == StartTask(old(Model()).(queue := sorted[1..]), sorted[0], w) && queue == sorted[1..]
    {
      hide EnsureBrowser, SortTasks;
      queue := SortTasks(queue);
      var task := queue[0];
      queue := queue[1..];
      active := active + 1;
      running := running[task.id := Closing(w.proxy)];
      var closing := Ensure(task.id, w);
    }

    method DrainQueue(w: World)
      modifies this
      ensures Model() == Drain(old(Model()), w)
    {
      hide StartTask, SortTasks;
      idleTimer := false;
      ghost var start := Model();
      while active < w.capacity && queue != []
        invariant DrainAll(Model(), w) == DrainAll(start, w)
        modifies this
        decreases |queue|
      {
        StartNext(w);
      }
    }

    method UseTask(task: Task, w: World) returns (ok: bool)
      modifies this
      ensures ok == (|old(queue)| < MAX_QUEUED_TASKS) && Model() == Use(old(Model()), task, w)
    {
      if |queue| >= MAX_QUEUED_TASKS { return false; }
      ok := true;
      queue := queue + [task];
      accepted := accepted + {task.id};
      DrainQueue(w);
    }

    method ScheduleIdle()
      modifies `idleTimer
      ensures Model() == ScheduleIdleClose(old(Model()))
    {
      if browser.None? || active != 0 || queue != [] || idleTimer { return; }
      idleTimer := true;
    }

    /** The end of `run`: what follows the closed context. It returns the browser to close, if one is due. */
    method FinishRun(id: nat, w: World) returns (closing: Option<Chromium>)
      requires active > 0 && id in running && running[id].Ending?
      modifies this
      ensures Model() == Finish(old(Model()), id, w)
    {
      hide Due, Leave, CloseNow;
      closing := None;
      active := active - 1;
      running := running[id := Recycling];
      MarkDue(w);
      if active == 0 && pendingRecycle.Some? {
        closing := Close(pendingRecycle.value, Some(id));
        return;
      }
      Depart(id, w);
    }

    method MarkDue(w: World)
      modifies `pendingRecycle
      ensures Model() == old(Model()).(recycle := Due(old(Model()), w))
    {
      if active == 0 && pendingRecycle.None? && browser.Some?
         && (navigationCount >= PAGE_LIMIT || w.now - browser.value.openedAt >= AGE_LIMIT_MS) {
        pendingRecycle := Some(if navigationCount >= PAGE_LIMIT then PageLimit else AgeLimit);
      }
    }

    /** The task is gone: others may start, and an idle browser is given its time. */
    method Depart(id: nat, w: World)
      modifies this
      ensures Model() == Leave(old(Model()), id, w)
    {
      running := running - {id};
      DrainQueue(w);
      ScheduleIdle();
    }

    method IdleTimeout() returns (closing: Option<Chromium>)
      requires idleTimer
      modifies this
      ensures Model() == IdleFires(old(Model()))
    {
      closing := None;
      if active == 0 && queue == [] { closing := Close(Idle, None); }
    }

    /** The `catch` part of `run`. */
    method FailRun(id: nat, contextCreated: bool, w: World) returns (closing: Option<Chromium>)
      requires id in running && CanFail(running[id]) && contextCreated == running[id].Working?
      modifies this
      ensures Model() == Fail(old(Model()), id, w)
    {
      closing := None;
      ghost var context := ContextOf(running[id]);
      var browserConnected := browser.Some? && w.connected;
      if !contextCreated || !browserConnected { closing := Close(Failed, Some(id)); }
      running := running[id := Failing(context)];
    }
  }
}
