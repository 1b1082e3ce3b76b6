/**
  The promise-chain lock of the one-click subscribe (`withCodeSearchSubscriptionLock`,
  server/routes/code-search.ts).

  Every caller leaves its own promise as the tail of its key, waits for the promise it found there,
  works, and resolves its own. A caller and its promise share an id.
 */
module SubscriptionLock {
  import opened Options

  datatype Phase = Awaiting(previous: Option<nat>) | Working | Finished

  datatype Call = Call(key: string, phase: Phase)

  /** `line`, `arrived` and `entered` are history, in order: the unfinished, all that came, all that began to work. */
  datatype Locks = Locks(tails: map<string, nat>, calls: map<nat, Call>, resolved: set<nat>,
                         line: map<string, seq<nat>>, arrived: map<string, seq<nat>>, entered: map<string, seq<nat>>)

  function At(m: map<string, seq<nat>>, key: string): seq<nat> { if key in m then m[key] else [] }

  datatype Step = Arrive(id: nat, key: string) | Enter(id: nat) | Leave(id: nat)

  predicate Enabled(s: Locks, step: Step) {
    match step
    case Arrive(id, _) => id !in s.calls
    case Enter(id) =>
      id in s.calls && s.calls[id].phase.Awaiting?
      && (s.calls[id].phase.previous.None? || s.calls[id].phase.previous.value in s.resolved)
    case Leave(id) => id in s.calls && s.calls[id].phase.Working?
  }

  /** The part before the first `await`. */
  function Arrived(s: Locks, id: nat, key: string): Locks {
    var previous := if key in s.tails then Some(s.tails[key]) else None;
    s.(tails := s.tails[key := id], calls := s.calls[id := Call(key, Awaiting(previous))],
       line := s.line[key := At(s.line, key) + [id]], arrived := s.arrived[key := At(s.arrived, key) + [id]])
  }

  function Entered(s: Locks, id: nat): Locks
    requires id in s.calls
  {
    var key := s.calls[id].key;
    s.(calls := s.calls[id := Call(key, Working)], entered := s.entered[key := At(s.entered, key) + [id]])
  }

  /** The `finally` part: the promise is resolved, and the tail goes only if no one came after. */
  function Left(s: Locks, id: nat): Locks
    requires id in s.calls
  {
    var key := s.calls[id].key;
    var line := At(s.line, key);
    s.(resolved := s.resolved + {id}, calls := s.calls[id := Call(key, Finished)],
       tails := if key in s.tails && s.tails[key] == id then s.tails - {key} else s.tails,
       line := s.line[key := if line != [] then line[1..] else []])
  }

  function Next(s: Locks, step: Step): Locks
    requires Enabled(s, step)
  {
    match step
    case Arrive(id, key) => Arrived(s, id, key)
    case Enter(id) => Entered(s, id)
    case Leave(id) => Left(s, id)
  }

  /** The map of tails as the route handlers change it. */
  class LockTable {
    var tails: map<string, nat>
    var resolved: set<nat>
    ghost var calls: map<nat, Call>
    ghost var line: map<string, seq<nat>>
    ghost var arrived: map<string, seq<nat>>
    ghost var entered: map<string, seq<nat>>

    ghost function Model(): Locks
      reads this
    {
      Locks(tails, calls, resolved, line, arrived, entered)
    }

    /** Up to `await previous`: the caller learns whom to wait for and becomes the tail. */
    method Arrive(key: string, current: nat) returns (previous: Option<nat>)
      modifies this
      ensures Model() == Arrived(old(Model()), current, key) && calls[current].phase == Awaiting(previous)
    {
      previous := if key in tails then Some(tails[key]) else None;
      tails := tails[key := current];
      calls := calls[current := Call(key, Awaiting(previous))];
      line := line[key := At(line, key) + [current]];
      arrived := arrived[key := At(arrived, key) + [current]];
    }

    /** The `finally` block. */
    method Release(key: string, current: nat)
      requires current in calls && calls[current].key == key
      modifies this
      ensures Model() == Left(old(Model()), current)
    {
      resolved := resolved + {current};
      if key in tails && tails[key] == current { tails := tails - {key}; }
      calls := calls[current := Call(key, Finished)];
      line := line[key := if At(line, key) != [] then At(line, key)[1..] else []];
    }
  }

  // --- The chain ---

  /** The callers of a key that have not finished, each waiting for the one before it. */
  ghost predicate Chain(s: Locks, key: string) {
    var line := At(s.line, key);
    && (forall i ::
         0 <= i < |line| ==> line[i] in s.calls && s.calls[line[i]].key == key && !s.calls[line[i]].phase.Finished?)
    && (forall i, j :: 0 <= i < j < |line| ==> line[i] != line[j])
    && (forall i :: 0 < i < |line| ==> s.calls[line[i]].phase == Awaiting(Some(line[i - 1])))
    && (key in s.tails <==> line != [])
    && (line != [] ==> s.tails[key] == line[|line| - 1])
  }

  /** Everyone that came has entered or stands in line, in the order of arrival. */
  ghost predicate InTurn(s: Locks, key: string) {
    var line := At(s.line, key);
    At(s.arrived, key) == At(s.entered, key)
      + if line != [] && line[0] in s.calls && s.calls[line[0]].phase.Working? then line[1..] else line
  }

  ghost predicate Calls(s: Locks) {
    forall id :: id in s.calls ==>
      && (s.calls[id].phase.Finished? <==> id in s.resolved)
      && (!s.calls[id].phase.Finished? ==> id in At(s.line, s.calls[id].key))
  }

  ghost predicate Valid(s: Locks) {
    && (forall key :: Chain(s, key)) && (forall key :: InTurn(s, key)) && Calls(s)
    && (forall id :: id in s.resolved ==> id in s.calls)
  }

  /** Only the head of the line may go on: everyone else waits for a promise that is not resolved. */
  lemma OnlyHeadMoves(s: Locks, id: nat)
    requires Valid(s) && id in s.calls
    requires s.calls[id].phase.Working? || Enabled(s, Enter(id))
    ensures At(s.line, s.calls[id].key) != [] && At(s.line, s.calls[id].key)[0] == id
  {
    var key := s.calls[id].key;
    var line := At(s.line, key);
    assert Chain(s, key);
    assert id in line;
    var i :| 0 <= i < |line| && line[i] == id;
    var before := if i > 0 then line[i - 1] else id;
    assert before !in s.resolved;
  }

  /** A step for one key leaves the chain of every other alone. */
  lemma OtherKey(s: Locks, r: Locks, key: string)
    requires Chain(s, key) && InTurn(s, key)
    requires At(r.line, key) == At(s.line, key) && At(r.arrived, key) == At(s.arrived, key)
        && At(r.entered, key) == At(s.entered, key)
    requires (key in r.tails <==> key in s.tails) && (key in s.tails ==> r.tails[key] == s.tails[key])
    requires forall x :: x in s.calls && s.calls[x].key == key ==> x in r.calls && r.calls[x] == s.calls[x]
    ensures Chain(r, key) && InTurn(r, key)
  {
  }

  lemma ArriveChain(s: Locks, id: nat, key: string)
    requires Chain(s, key) && InTurn(s, key) && id !in s.calls
    ensures Chain(Arrived(s, id, key), key)
  {
    hide InTurn;
    var line, r := At(s.line, key), Arrived(s, id, key);
    assert At(r.line, key) == line + [id];
    forall i | 0 <= i < |line| ensures line[i] != id && r.calls[line[i]] == s.calls[line[i]] {
    }
  }

  lemma ArriveInTurn(s: Locks, id: nat, key: string)
    requires Chain(s, key) && InTurn(s, key) && id !in s.calls
    ensures InTurn(Arrived(s, id, key), key)
  {
    var line, r := At(s.line, key), Arrived(s, id, key);
    assert At(r.line, key) == line + [id];
    if line != [] {
      assert (line + [id])[1..] == line[1..] + [id];
      assert line[0] in s.calls && r.calls[line[0]] == s.calls[line[0]];
    }
    hide Chain;
  }

  lemma ArriveKeeps(s: Locks, id: nat, key: string)
    requires Valid(s) && id !in s.calls
    ensures Valid(Arrived(s, id, key))
  {
    var r := Arrived(s, id, key);
    forall k ensures Chain(r, k) && InTurn(r, k) {
      assert Chain(s, k) && InTurn(s, k);
      hide Chain, InTurn, Calls;
      if k == key {
        ArriveChain(s, id, key);
        ArriveInTurn(s, id, key);
      } else {
        OtherKey(s, r, k);
      }
    }
    hide Chain, InTurn;
    assert At(r.line, key)[|At(s.line, key)|] == id;
  }

  lemma EnterChain(s: Locks, id: nat)
    requires id in s.calls && s.calls[id].phase.Awaiting?
    requires var key := s.calls[id].key;
        Chain(s, key) && InTurn(s, key) && At(s.line, key) != [] && At(s.line, key)[0] == id
    ensures Chain(Entered(s, id), s.calls[id].key)
  {
    hide InTurn;
    var key, r := s.calls[id].key, Entered(s, id);
    var line := At(s.line, key);
    assert At(r.line, key) == line;
    forall i | 0 < i < |line| ensures r.calls[line[i]] == s.calls[line[i]] {
    }
  }

  lemma EnterInTurn(s: Locks, id: nat)
    requires id in s.calls && s.calls[id].phase.Awaiting?
    requires var key := s.calls[id].key; InTurn(s, key) && At(s.line, key) != [] && At(s.line, key)[0] == id
    ensures InTurn(Entered(s, id), s.calls[id].key)
  {
    var line := At(s.line, s.calls[id].key);
    assert [id] + line[1..] == line;
  }

  lemma EnterKeeps(s: Locks, id: nat)
    requires Valid(s) && Enabled(s, Enter(id))
    ensures Valid(Entered(s, id))
  {
    OnlyHeadMoves(s, id);
    var r, key := Entered(s, id), s.calls[id].key;
    forall k ensures Chain(r, k) && InTurn(r, k) {
      assert Chain(s, k) && InTurn(s, k);
      hide Chain, InTurn, Calls;
      if k == key {
        EnterChain(s, id);
        EnterInTurn(s, id);
      } else {
        OtherKey(s, r, k);
      }
    }
    hide Chain, InTurn;
  }

  lemma LeaveChain(s: Locks, id: nat)
    requires id in s.calls && s.calls[id].phase.Working?
    requires var key := s.calls[id].key;
        Chain(s, key) && InTurn(s, key) && At(s.line, key) != [] && At(s.line, key)[0] == id
    ensures Chain(Left(s, id), s.calls[id].key) && InTurn(Left(s, id), s.calls[id].key)
  {
    var key, r := s.calls[id].key, Left(s, id);
    var line, rest := At(s.line, key), At(s.line, key)[1..];
    assert At(r.line, key) == rest;
    forall i | 0 <= i < |rest| ensures rest[i] == line[i + 1] && r.calls[rest[i]] == s.calls[line[i + 1]] {
    }
    assert s.tails[key] == id <==> rest == [];
  }

  lemma LeaveKeeps(s: Locks, id: nat)
    requires Valid(s) && Enabled(s, Leave(id))
    ensures Valid(Left(s, id))
  {
    OnlyHeadMoves(s, id);
    var r, key := Left(s, id), s.calls[id].key;
    forall k ensures Chain(r, k) && InTurn(r, k) {
      assert Chain(s, k) && InTurn(s, k);
      hide Chain, InTurn, Calls;
      if k == key {
        LeaveChain(s, id);
      } else {
        OtherKey(s, r, k);
      }
    }
    hide Chain, InTurn;
    var line := At(s.line, key);
    forall x | x in r.calls && !r.calls[x].phase.Finished? ensures x in At(r.line, r.calls[x].key) {
      if r.calls[x].key == key {
        assert x in line && x != line[0];
        assert line == [line[0]] + line[1..];
      }
    }
  }

  lemma StepKeeps(s: Locks, step: Step)
    requires Valid(s) && Enabled(s, step)
    ensures Valid(Next(s, step))
  {
    hide Valid, Arrived, Entered, Left;
    match step
    case Arrive(id, key) => ArriveKeeps(s, id, key);
    case Enter(id) => EnterKeeps(s, id);
    case Leave(id) => LeaveKeeps(s, id);
  }

  // --- Runs ---

  ghost predicate Steps(s: Locks, run: seq<Step>)
    decreases |run|
  {
    run == [] || (Enabled(s, run[0]) && Steps(Next(s, run[0]), run[1..]))
  }

  function After(s: Locks, run: seq<Step>): Locks
    requires Steps(s, run)
    decreases |run|
  {
    if run == [] then s else After(Next(s, run[0]), run[1..])
  }

  function Start(): Locks { Locks(map[], map[], {}, map[], map[], map[]) }

  lemma {:induction false} RunKeeps(s: Locks, run: seq<Step>)
    requires Valid(s) && Steps(s, run)
    ensures Valid(After(s, run))
    decreases |run|
  {
    hide Valid, Next, Enabled;
    if run != [] {
      StepKeeps(s, run[0]);
      RunKeeps(Next(s, run[0]), run[1..]);
    }
  }

  /** At most one caller of a key is inside its work. */
  lemma MutualExclusion(run: seq<Step>, a: nat, b: nat)
    requires Steps(Start(), run)
    requires var s := After(Start(), run);
      a in s.calls && b in s.calls && s.calls[a].phase.Working? && s.calls[b].phase.Working?
          && s.calls[a].key == s.calls[b].key
    ensures a == b
  {
    RunKeeps(Start(), run);
    hide After, Steps, Valid;
    OnlyHeadMoves(After(Start(), run), a);
    OnlyHeadMoves(After(Start(), run), b);
  }

  /** Callers enter in the order they came. */
  lemma FirstComeFirstServed(run: seq<Step>, key: string)
    requires Steps(Start(), run)
    ensures var s := After(Start(), run); At(s.entered, key) <= At(s.arrived, key)
  {
    RunKeeps(Start(), run);
    hide After, Steps;
    assert InTurn(After(Start(), run), key);
  }

  /** The map holds an entry for a key exactly while some caller of that key has not finished. */
  lemma NoEntryLeftBehind(run: seq<Step>, key: string)
    requires Steps(Start(), run)
    ensures var s := After(Start(), run);
            key in s.tails <==> exists id :: id in s.calls && s.calls[id].key == key && !s.calls[id].phase.Finished?
  {
    RunKeeps(Start(), run);
    hide After, Steps;
    var s := After(Start(), run);
    assert Chain(s, key);
    if key in s.tails {
      var head := At(s.line, key)[0];
      assert head in s.calls && s.calls[head].key == key && !s.calls[head].phase.Finished?;
    }
  }

  /** The chain never breaks: of the callers of a key, one is working or free to enter. */
  lemma NeverStuck(run: seq<Step>, key: string)
    requires Steps(Start(), run) && key in After(Start(), run).tails
    ensures var s := After(Start(), run);
        exists id :: id in s.calls && s.calls[id].key == key && (Enabled(s, Enter(id)) || Enabled(s, Leave(id)))
  {
    RunKeeps(Start(), run);
    HeadsKeep(Start(), run);
    hide After, Steps, InTurn;
    var s := After(Start(), run);
    assert Chain(s, key) && HeadIsFree(s, key);
    var head := At(s.line, key)[0];
    assert head in s.calls && s.calls[head].key == key;
  }

  /** The head of a line waits for nothing unresolved. */
  ghost predicate HeadIsFree(s: Locks, key: string) {
    var line := At(s.line, key);
    line != [] && line[0] in s.calls ==> match s.calls[line[0]].phase
      case Awaiting(previous) => previous.None? || previous.value in s.resolved
      case Working => true
      case Finished => true
  }

  lemma HeadKeeps(s: Locks, step: Step, key: string)
    requires Valid(s) && Enabled(s, step) && HeadIsFree(s, key)
    ensures HeadIsFree(Next(s, step), key)
  {
    assert Chain(s, key);
    hide InTurn, Calls;
    match step
    case Arrive(id, k) => ArriveHead(s, id, k, key);
    case Enter(id) =>
      OnlyHeadMoves(s, id);
    case Leave(id) =>
      OnlyHeadMoves(s, id);
      LeaveHead(s, id, key);
  }

  lemma ArriveHead(s: Locks, id: nat, k: string, key: string)
    requires Chain(s, key) && HeadIsFree(s, key) && id !in s.calls
    ensures HeadIsFree(Arrived(s, id, k), key)
  {
    var line := At(s.line, key);
    assert line != [] ==> (line + [id])[0] == line[0] && line[0] != id;
  }

  lemma LeaveHead(s: Locks, id: nat, key: string)
    requires Chain(s, key) && HeadIsFree(s, key) && id in s.calls
    requires At(s.line, s.calls[id].key) != [] && At(s.line, s.calls[id].key)[0] == id
    ensures HeadIsFree(Left(s, id), key)
  {
    var line := At(s.line, key);
    if s.calls[id].key == key && |line| > 1 {
      assert s.calls[line[1]].phase == Awaiting(Some(line[0]));
      assert line[1..][0] == line[1];
    }
  }

  lemma {:induction false} HeadsKeep(s: Locks, run: seq<Step>)
    requires Valid(s) && Steps(s, run) && forall key :: HeadIsFree(s, key)
    ensures forall key :: HeadIsFree(After(s, run), key)
    decreases |run|
  {
    hide Valid, Next, Enabled, HeadIsFree;
    if run != [] {
      StepKeeps(s, run[0]);
      forall key ensures HeadIsFree(Next(s, run[0]), key) {
        HeadKeeps(s, run[0], key);
      }
      HeadsKeep(Next(s, run[0]), run[1..]);
    }
  }
}
