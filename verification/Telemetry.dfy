/**
  The telemetry buffers (server/db.ts): success logs and counters are kept in memory and flushed in
  one flight at a time; a flight that fails puts everything it carried back.
 */
module Telemetry {
  import opened Options

  /** What a metric key adds up to: its samples, or the milliseconds they took; both are summed alike. */
  datatype Metric = Metric(key: string, sum: nat)

  function Get(m: map<string, nat>, key: string): nat { if key in m then m[key] else 0 }

  function Add(m: map<string, nat>, key: string, sum: nat): map<string, nat> { m[key := Get(m, key) + sum] }

  /** What a list of metrics holds for a key. */
  function Total(list: seq<Metric>, key: string): nat {
    if list == [] then 0 else (if list[0].key == key then list[0].sum else 0) + Total(list[1..], key)
  }

  function AddAll(m: map<string, nat>, list: seq<Metric>): map<string, nat>
    decreases |list|
  {
    if list == [] then m else AddAll(Add(m, list[0].key, list[0].sum), list[1..])
  }

  lemma GetAdded(m: map<string, nat>, added: string, sum: nat, key: string)
    ensures Get(Add(m, added, sum), key) == Get(m, key) + (if key == added then sum else 0)
  {
  }

  lemma {:induction false} AddAllTotals(m: map<string, nat>, list: seq<Metric>, key: string)
    ensures Get(AddAll(m, list), key) == Get(m, key) + Total(list, key)
    decreases |list|
  {
    hide Get, Add;
    if list != [] {
      GetAdded(m, list[0].key, list[0].sum, key);
      AddAllTotals(Add(m, list[0].key, list[0].sum), list[1..], key);
    }
  }

  /** The values of the buffer, each key once, in some order. */
  predicate Enumerates(list: seq<Metric>, m: map<string, nat>) {
    && (forall i :: 0 <= i < |list| ==> list[i].key in m && m[list[i].key] == list[i].sum)
    && (forall i, j :: 0 <= i < j < |list| ==> list[i].key != list[j].key)
    && (forall key :: key in m ==> Lists(list, key))
  }

  predicate Lists(list: seq<Metric>, key: string) { exists i :: 0 <= i < |list| && list[i].key == key }

  lemma {:induction false} NotListed(list: seq<Metric>, key: string)
    requires !Lists(list, key)
    ensures Total(list, key) == 0
  {
    if list != [] {
      assert list[0].key != key;
      forall i | 0 <= i < |list| - 1 ensures list[1..][i].key != key { assert list[1..][i] == list[i + 1]; }
      NotListed(list[1..], key);
    }
  }

  lemma {:induction false} ListedOnce(list: seq<Metric>, i: nat)
    requires i < |list| && forall a, b :: 0 <= a < b < |list| ==> list[a].key != list[b].key
    ensures Total(list, list[i].key) == list[i].sum
  {
    var rest := list[1..];
    if i == 0 {
      forall k | 0 <= k < |rest| ensures rest[k].key != list[0].key { assert rest[k] == list[k + 1]; }
      NotListed(rest, list[0].key);
    } else {
      forall a, b | 0 <= a < b < |rest|
          ensures rest[a].key != rest[b].key { assert rest[a] == list[a + 1] && rest[b] == list[b + 1]; }
      ListedOnce(rest, i - 1);
    }
  }

  lemma EnumerationTotals(list: seq<Metric>, m: map<string, nat>, key: string)
    requires Enumerates(list, m)
    ensures Total(list, key) == Get(m, key)
  {
    if Lists(list, key) {
      var i :| 0 <= i < |list| && list[i].key == key;
      ListedOnce(list, i);
    } else {
      NotListed(list, key);
    }
  }

  // --- The flight ---

  /** A flush under way: what it took, whether its logs are written, and how many of its metrics are. */
  datatype Flight = Flight(logs: seq<string>, metrics: seq<Metric>, logged: bool, done: nat)

  /** `recorded`, `said` and `failed` are history: all that was ever recorded or logged, and whether a flush failed. */
  datatype State = State(logs: seq<string>, metrics: map<string, nat>, flight: Option<Flight>,
                         written: seq<string>, persisted: map<string, nat>,
                         said: seq<string>, recorded: map<string, nat>, failed: bool)

  datatype Step =
    | Log(line: string)
    | Record(key: string, sum: nat)
    | Take(order: seq<Metric>)
    | WriteLogs
    | WriteMetric
    | Land
    | LogsTrimFails
    | Fail

  predicate Enabled(s: State, step: Step) {
    match step
    case Log(_) => true
    case Record(_, _) => true
    case Take(order) => s.flight.None? && Enumerates(order, s.metrics) && !(s.logs == [] && order == [])
    case WriteLogs => s.flight.Some? && !s.flight.value.logged
    case WriteMetric => s.flight.Some? && s.flight.value.logged && s.flight.value.done < |s.flight.value.metrics|
    case Land => s.flight.Some? && s.flight.value.logged && s.flight.value.done == |s.flight.value.metrics|
    case LogsTrimFails => s.flight.Some? && !s.flight.value.logged
    case Fail => s.flight.Some?
  }

  /** The `catch` block: everything the flight took goes back in front of what came since. */
  function Restored(s: State, f: Flight): State {
    s.(logs := f.logs + s.logs, metrics := AddAll(s.metrics, f.metrics), flight := None, failed := true)
  }

  function Next(s: State, step: Step): State
    requires Enabled(s, step)
  {
    match step
    case Log(line) => s.(logs := s.logs + [line], said := s.said + [line])
    case Record(key, sum) => s.(metrics := Add(s.metrics, key, sum), recorded := Add(s.recorded, key, sum))
    case Take(order) => s.(logs := [], metrics := map[], flight := Some(Flight(s.logs, order, false, 0)))
    case WriteLogs =>
      var f := s.flight.value;
      s.(written := s.written + f.logs, flight := Some(f.(logged := true)))
    case WriteMetric =>
      var f := s.flight.value;
      s.(persisted := Add(s.persisted, f.metrics[f.done].key, f.metrics[f.done].sum),
          flight := Some(f.(done := f.done + 1)))
    case Land => s.(flight := None)
    case LogsTrimFails =>
      var f := s.flight.value;
      Restored(s.(written := s.written + f.logs), f)
    case Fail => Restored(s, s.flight.value)
  }

  // --- Conservation ---

  function InFlight(s: State, key: string): nat {
    if s.flight.Some? && s.flight.value.done <= |s.flight.value.metrics|
        then Total(s.flight.value.metrics[s.flight.value.done..], key) else 0
  }

  function Accounted(s: State, key: string): nat {
    Get(s.persisted, key) + InFlight(s, key) + Get(s.metrics, key)
  }

  function LogsInFlight(s: State): seq<string> { if s.flight.Some? && !s.flight.value.logged then s.flight.value.logs
      else [] }

  predicate FlightOk(s: State) { s.flight.Some? ==> s.flight.value.done <= |s.flight.value.metrics| }

  predicate KeyOk(s: State, key: string) {
    && Get(s.recorded, key) <= Accounted(s, key)
    && (!s.failed ==> Get(s.recorded, key) == Accounted(s, key))
  }

  ghost predicate LogsOk(s: State) {
    && multiset(s.said) <= multiset(s.written) + multiset(LogsInFlight(s)) + multiset(s.logs)
    && (!s.failed ==> s.said == s.written + LogsInFlight(s) + s.logs)
  }

  /**
    Nothing recorded is missing; without a failed flush nothing is counted twice either, and the logs keep
    their order.
   */
  ghost predicate Conserved(s: State) { FlightOk(s) && LogsOk(s) && forall key :: KeyOk(s, key) }

  lemma {:induction false} TotalTail(list: seq<Metric>, i: nat, key: string)
    requires i <= |list|
    ensures Total(list[i..], key) <= Total(list, key)
  {
    if i > 0 {
      TotalTail(list[1..], i - 1, key);
      assert list[1..][i - 1..] == list[i..];
    } else {
      assert list[0..] == list;
    }
  }

  predicate MayFail(step: Step) { step.Fail? || step.LogsTrimFails? }

  function Recorded(step: Step, key: string): nat { if step.Record? && step.key == key then step.sum else 0 }

  lemma TakeAccounts(s: State, order: seq<Metric>, key: string)
    requires Enabled(s, Take(order))
    ensures Accounted(Next(s, Take(order)), key) == Accounted(s, key)
  {
    EnumerationTotals(order, s.metrics, key);
    hide Enumerates, Total;
    assert order[0..] == order;
  }

  lemma WriteAccounts(s: State, key: string)
    requires Enabled(s, WriteMetric)
    ensures Accounted(Next(s, WriteMetric), key) == Accounted(s, key)
  {
    var f := s.flight.value;
    var m := f.metrics[f.done];
    var rest := f.metrics[f.done..];
    assert rest[1..] == f.metrics[f.done + 1..] && rest[0] == m;
    assert Total(rest, key) == (if m.key == key then m.sum else 0) + Total(f.metrics[f.done + 1..], key);
    GetAdded(s.persisted, m.key, m.sum, key);
    hide Total, Get, Add;
  }

  lemma LandAccounts(s: State, key: string)
    requires Enabled(s, Land)
    ensures Accounted(Next(s, Land), key) == Accounted(s, key)
  {
    var f := s.flight.value;
    assert f.metrics[f.done..] == [];
    assert Total([], key) == 0;
  }

  /** How a step changes what is accounted for under a key: only recording adds, and only a failure may add more. */
  lemma AccountedAfter(s: State, step: Step, key: string)
    requires Enabled(s, step) && FlightOk(s)
    ensures var r := Next(s, step);
      && FlightOk(r) && (r.failed <==> s.failed || MayFail(step))
      && (!MayFail(step) ==> Accounted(r, key) == Accounted(s, key) + Recorded(step, key))
      && (MayFail(step) ==> Accounted(s, key) <= Accounted(r, key))
      && Get(r.recorded, key) == Get(s.recorded, key) + Recorded(step, key)
  {
    hide Total, AddAll, Enumerates;
    match step
    case Log(_) =>
    case Record(k, sum) =>
      GetAdded(s.metrics, k, sum, key);
      GetAdded(s.recorded, k, sum, key);
      hide Add, Get;
    case Take(order) => TakeAccounts(s, order, key);
    case WriteLogs =>
    case WriteMetric => WriteAccounts(s, key);
    case Land => LandAccounts(s, key);
    case LogsTrimFails => RestoredAccounts(s.(written := s.written + s.flight.value.logs), key);
    case Fail => RestoredAccounts(s, key);
  }

  lemma RestoredAccounts(s: State, key: string)
    requires s.flight.Some? && s.flight.value.done <= |s.flight.value.metrics|
    ensures Accounted(s, key) <= Accounted(Restored(s, s.flight.value), key)
  {
    var f := s.flight.value;
    AddAllTotals(s.metrics, f.metrics, key);
    TotalTail(f.metrics, f.done, key);
    hide Total, AddAll, Get;
  }

  lemma LogKeepsLogs(s: State, line: string)
    requires LogsOk(s)
    ensures LogsOk(Next(s, Log(line)))
  {
    var r := Next(s, Log(line));
    assert multiset(r.logs) == multiset(s.logs) + multiset{line};
    assert multiset(r.said) == multiset(s.said) + multiset{line};
    hide Add, AddAll;
  }

  lemma WriteKeepsLogs(s: State)
    requires LogsOk(s) && Enabled(s, WriteLogs)
    ensures LogsOk(Next(s, WriteLogs))
  {
    var r := Next(s, WriteLogs);
    assert multiset(r.written) == multiset(s.written) + multiset(s.flight.value.logs);
    assert LogsInFlight(r) == [];
  }

  /** Put back, the logs stand before those that came since; a second copy may already be written. */
  lemma RestoreKeepsLogs(s: State, r: State)
    requires LogsOk(s) && s.flight.Some? && r == Restored(s, s.flight.value)
    ensures LogsOk(r)
  {
    assert multiset(r.logs) == multiset(s.flight.value.logs) + multiset(s.logs);
    assert LogsInFlight(r) == [];
    hide AddAll;
  }

  lemma TrimRestores(s: State, m: State)
    requires Enabled(s, LogsTrimFails) && m == Next(s, WriteLogs)
    ensures Next(s, LogsTrimFails) == Restored(m, m.flight.value)
  {
    hide AddAll;
  }

  lemma LogsKept(s: State, step: Step)
    requires Enabled(s, step) && LogsOk(s)
    ensures LogsOk(Next(s, step))
  {
    hide AddAll, Add, Enumerates, Total, Restored;
    match step
    case Log(line) => LogKeepsLogs(s, line);
    case Record(_, _) =>
    case Take(_) =>
    case WriteLogs => WriteKeepsLogs(s);
    case WriteMetric =>
    case Land =>
    case LogsTrimFails =>
      WriteKeepsLogs(s);
      var m := Next(s, WriteLogs);
      TrimRestores(s, m);
      RestoreKeepsLogs(m, Next(s, step));
    case Fail => RestoreKeepsLogs(s, Next(s, step));
  }

  lemma StepKeeps(s: State, step: Step)
    requires Enabled(s, step) && Conserved(s)
    ensures Conserved(Next(s, step))
  {
    LogsKept(s, step);
    AccountedAfter(s, step, "");
    forall key ensures KeyOk(Next(s, step), key) {
      AccountedAfter(s, step, key);
      hide Accounted, Next, Get, LogsOk, FlightOk;
      assert KeyOk(s, key);
    }
  }

  ghost predicate Steps(s: State, run: seq<Step>)
    decreases |run|
  {
    run == [] || (Enabled(s, run[0]) && Steps(Next(s, run[0]), run[1..]))
  }

  function After(s: State, run: seq<Step>): State
    requires Steps(s, run)
    decreases |run|
  {
    if run == [] then s else After(Next(s, run[0]), run[1..])
  }

  function Start(): State { State([], map[], None, [], map[], [], map[], false) }

  /**
    In every run, whatever fails, the buffers, the flight and the tables together hold all that was recorded
    and logged.
   */
  lemma {:induction false} RunConserves(s: State, run: seq<Step>)
    requires Conserved(s) && Steps(s, run)
    ensures Conserved(After(s, run))
    decreases |run|
  {
    hide Conserved, Next, Enabled;
    if run != [] {
      StepKeeps(s, run[0]);
      RunConserves(Next(s, run[0]), run[1..]);
    }
  }

  lemma {:induction false} FailedOnlyByFailing(s: State, run: seq<Step>)
    requires Steps(s, run) && !s.failed && forall i :: 0 <= i < |run| ==> !run[i].Fail? && !run[i].LogsTrimFails?
    ensures !After(s, run).failed
    decreases |run|
  {
    if run != [] {
      FailedOnlyByFailing(Next(s, run[0]), run[1..]);
    }
  }

  /** What the calls of a run add up to for a key, and the lines they log. */
  function SumOf(run: seq<Step>, key: string): nat {
    if run == [] then 0
    else (if run[0].Record? && run[0].key == key then run[0].sum else 0) + SumOf(run[1..], key)
  }

  function LinesOf(run: seq<Step>): seq<string> {
    if run == [] then [] else (if run[0].Log? then [run[0].line] else []) + LinesOf(run[1..])
  }

  /** The history is that of the calls. */
  lemma {:induction false} HistoryIs(s: State, run: seq<Step>, key: string)
    requires Steps(s, run)
    ensures Get(After(s, run).recorded, key) == Get(s.recorded, key) + SumOf(run, key)
    ensures After(s, run).said == s.said + LinesOf(run)
    decreases |run|
  {
    hide Get, Next, Enabled;
    if run == [] {
      assert s.said + [] == s.said;
    } else {
      var r := Next(s, run[0]);
      HistoryStep(s, run[0], key);
      HistoryIs(r, run[1..], key);
      var line := if run[0].Log? then [run[0].line] else [];
      assert r.said + LinesOf(run[1..]) == s.said + (line + LinesOf(run[1..]));
    }
  }

  lemma HistoryStep(s: State, step: Step, key: string)
    requires Enabled(s, step)
    ensures var r := Next(s, step);
            Get(r.recorded, key)
            == Get(s.recorded, key) + (if step.Record? && step.key == key then step.sum else 0)
            && r.said == s.said + if step.Log? then [step.line] else []
  {
  }

  /**
    A flight ends by landing, with nothing left to do, or by failing: then everything it took is back, the
    logs in front of those that came since and the sums added to the new ones.
   */
  lemma FlightEnds(s: State, key: string)
    requires s.flight.Some?
    ensures Enabled(s, Land) ==> Next(s, Land) == s.(flight := None)
    ensures var f, r := s.flight.value, Next(s, Fail);
            && r.flight.None? && r.logs == f.logs + s.logs
            && Get(r.metrics, key) == Get(s.metrics, key) + Total(f.metrics, key)
  {
    AddAllTotals(s.metrics, s.flight.value.metrics, key);
    hide Get, AddAll, Total;
  }

  /**
    When no flush fails and everything has landed, the tables hold exactly what the calls recorded, and the
    lines they logged, in order.
   */
  lemma AllPersisted(run: seq<Step>, key: string)
    requires Steps(Start(), run) && forall i :: 0 <= i < |run| ==> !run[i].Fail? && !run[i].LogsTrimFails?
    requires var s := After(Start(), run); s.flight.None? && s.logs == [] && key !in s.metrics
    ensures var s := After(Start(), run); Get(s.persisted, key) == SumOf(run, key) && s.written == LinesOf(run)
  {
    StartConserves();
    HistoryIs(Start(), run, key);
    RunConserves(Start(), run);
    FailedOnlyByFailing(Start(), run);
    hide After, Steps;
    var s := After(Start(), run);
    assert KeyOk(s, key);
    assert s.said == s.written + [] + [] == s.written;
    assert s.said == [] + LinesOf(run) == LinesOf(run);
  }

  lemma StartConserves()
    ensures Conserved(Start())
  {
  }

  // --- The buffers ---

  class Buffers {
    var bufferedLogs: seq<string>
    var bufferedMetrics: map<string, nat>

    method RecordMetric(key: string, sum: nat)
      modifies `bufferedMetrics
      ensures bufferedMetrics == Add(old(bufferedMetrics), key, sum)
    {
      if key in bufferedMetrics {
        var current := bufferedMetrics[key];
        bufferedMetrics := bufferedMetrics[key := current + sum];
      } else {
        bufferedMetrics := bufferedMetrics[key := sum];
      }
    }

    /** The start of a flush: both buffers are emptied. */
    method TakeAll() returns (logs: seq<string>, metrics: seq<Metric>)
      modifies this
      ensures logs == old(bufferedLogs) && Enumerates(metrics, old(bufferedMetrics))
      ensures bufferedLogs == [] && bufferedMetrics == map[]
    {
      logs, metrics := bufferedLogs, [];
      var rest := bufferedMetrics.Keys;
      while rest != {}
        invariant rest <= bufferedMetrics.Keys && bufferedMetrics == old(bufferedMetrics)
        invariant forall i ::
            0 <= i < |metrics| ==> metrics[i].key in bufferedMetrics && metrics[i].key !in rest
                                   && bufferedMetrics[metrics[i].key] == metrics[i].sum
        invariant forall i, j :: 0 <= i < j < |metrics| ==> metrics[i].key != metrics[j].key
        invariant forall key :: key in bufferedMetrics && key !in rest ==> Lists(metrics, key)
        decreases |rest|
      {
        var key :| key in rest;
        rest := rest - {key};
        ghost var before := metrics;
        metrics := metrics + [Metric(key, bufferedMetrics[key])];
        ListsMore(before, metrics);
      }
      bufferedLogs, bufferedMetrics := [], map[];
    }

    /** The `catch` block of a flush. */
    method Restore(logs: seq<string>, metrics: seq<Metric>)
      modifies this
      ensures bufferedLogs == logs + old(bufferedLogs) && bufferedMetrics == AddAll(old(bufferedMetrics), metrics)
    {
      bufferedLogs := logs + bufferedLogs;
      for i := 0 to |metrics|
        invariant bufferedLogs == logs + old(bufferedLogs)
        invariant AddAll(bufferedMetrics, metrics[i..]) == AddAll(old(bufferedMetrics), metrics)
      {
        assert metrics[i..][1..] == metrics[i + 1..];
        RecordMetric(metrics[i].key, metrics[i].sum);
      }
    }
  }

  lemma ListsMore(before: seq<Metric>, after: seq<Metric>)
    requires |after| == |before| + 1 && after[..|before|] == before
    ensures forall key :: Lists(before, key) || key == after[|before|].key ==> Lists(after, key)
  {
    forall key | Lists(before, key) ensures Lists(after, key) {
      var i :| 0 <= i < |before| && before[i].key == key;
      assert after[i] == before[i];
    }
  }
}
