/**
  Any number of tabs, their messages in flight, and a clock that never runs back (src/live-updates.ts).

  Messages are delivered one at a time in any order; a tab may appear or vanish at any moment.
 */
module LiveTabs {
  import opened Options
  import opened LiveLeader

  datatype Packet = Packet(no: nat, from: nat, to: nat, body: Body)

  datatype State = State(tabs: map<nat, Tab>, net: set<Packet>, posted: nat, now: nat)

  datatype Step =
    | OpenTab(id: nat)
    | CloseTab(id: nat)
    | Focus(id: nat)
    | Show(id: nat)
    | Hide(id: nat)
    | Unload(id: nat)
    | Subscribe(id: nat, topic: nat)
    | Unsubscribe(id: nat, topic: nat)
    | Check(id: nat)
    | Heartbeat(id: nat)
    | ServerEvent(id: nat, topic: nat)
    | Ready(id: nat)
    | ResetUpdates(id: nat)
    | Deliver(p: Packet)
    | Advance(ms: nat)

  /** The tab a step runs in. */
  function Actor(step: Step): Option<nat> {
    match step
    case OpenTab(_) => None
    case CloseTab(_) => None
    case Advance(_) => None
    case Deliver(p) => Some(p.to)
    case Focus(id) => Some(id)
    case Show(id) => Some(id)
    case Hide(id) => Some(id)
    case Unload(id) => Some(id)
    case Subscribe(id, _) => Some(id)
    case Unsubscribe(id, _) => Some(id)
    case Check(id) => Some(id)
    case Heartbeat(id) => Some(id)
    case ServerEvent(id, _) => Some(id)
    case Ready(id) => Some(id)
    case ResetUpdates(id) => Some(id)
  }

  predicate Enabled(s: State, step: Step) {
    && (Actor(step).Some? ==> Actor(step).value in s.tabs)
    && match step
       case OpenTab(id) => id !in s.tabs
       case CloseTab(id) => id in s.tabs
       case Deliver(p) => p in s.net
       case ServerEvent(id, topic) => s.tabs[id].stream.Some? && topic in s.tabs[id].stream.value
       case _ => true
  }

  /** The handler of a step, for the tab it runs in. */
  function Handler(step: Step, id: nat, t: Tab, now: nat): Effect {
    match step
    case Focus(_) => Claimed(id, t, now)
    case Show(_) => Shown(id, t, now)
    case Hide(_) => Resigned(id, t.(visible := false))
    case Unload(_) => Resigned(id, t)
    case Subscribe(_, topic) => Subscribed(id, t, topic, now)
    case Unsubscribe(_, topic) => Effect(Unsubscribed(id, t, topic), None, {})
    case Check(_) => Ensured(id, t, now)
    case Heartbeat(_) => Effect(t, if t.visible && Leads(id, t) then Some(Lease(t.leaseIssuedAt)) else None, {})
    case ServerEvent(_, topic) => Notified(id, t, topic).(post := Some(Event(topic)))
    case Ready(_) => Replayed(id, t)
    case ResetUpdates(_) => Resigned(id, t.(pending := {}))
    case Deliver(p) => Effect(Received(id, t, p.from, p.body, now), None, {})
    case OpenTab(_) => Effect(t, None, {})
    case CloseTab(_) => Effect(t, None, {})
    case Advance(_) => Effect(t, None, {})
  }

  /** A post reaches every other open tab, one packet each. */
  function Packets(s: State, id: nat, post: Option<Body>): set<Packet> {
    if post.None? then {} else set t | t in s.tabs && t != id :: Packet(s.posted, id, t, post.value)
  }

  function Apply(s: State, id: nat, e: Effect): State {
    s.(tabs := s.tabs[id := e.tab], net := s.net + Packets(s, id, e.post), posted := s.posted + 1)
  }

  function Next(s: State, step: Step): State
    requires Enabled(s, step)
  {
    match step
    case OpenTab(id) => s.(tabs := s.tabs[id := Tab(true, None, 0, None, {}, {})])
    case CloseTab(id) => s.(tabs := s.tabs - {id}, net := set p | p in s.net && p.to != id)
    case Advance(ms) => s.(now := s.now + ms)
    case Deliver(p) =>
      var t := s.(net := s.net - {p});
      Apply(t, p.to, Handler(step, p.to, t.tabs[p.to], t.now))
    case _ =>
      var id := Actor(step).value;
      Apply(s, id, Handler(step, id, s.tabs[id], s.now))
  }

  predicate LeadsIn(s: State, id: nat) { id in s.tabs && Leads(id, s.tabs[id]) }

  // --- The invariant ---

  predicate TabBounded(t: Tab, now: nat) {
    && t.leaseIssuedAt <= now && (t.known.Some? ==> t.known.value.issuedAt <= now && 0 < t.known.value.issuedAt)
  }

  ghost predicate TabsOk(s: State) {
    0 < s.now && forall id :: id in s.tabs ==> TabOk(id, s.tabs[id]) && TabBounded(s.tabs[id], s.now)
  }

  ghost predicate NetOk(s: State) {
    forall p :: p in s.net ==> p.from != p.to && p.no < s.posted && (p.body.Lease? ==> p.body.issuedAt <= s.now)
  }

  predicate Carries(p: Packet, a: nat, b: nat, stamp: nat) {
    p.from == a && p.to == b && p.body == Lease(stamp)
  }

  /** A message is on its way from `a` to `b` with the current stamp of `a`, which is at least that of `b`. */
  ghost predicate Told(s: State, a: nat, b: nat)
    requires a in s.tabs && b in s.tabs
  {
    && s.tabs[b].leaseIssuedAt <= s.tabs[a].leaseIssuedAt
    && exists p :: p in s.net && Carries(p, a, b, s.tabs[a].leaseIssuedAt)
  }

  /** Of any two tabs that both believe they lead, one is about to be told. */
  ghost predicate RivalsAreTold(s: State) {
    forall a, b :: LeadsIn(s, a) && LeadsIn(s, b) && a != b ==> Told(s, a, b) || Told(s, b, a)
  }

  ghost predicate Valid(s: State) { TabsOk(s) && NetOk(s) && RivalsAreTold(s) }

  // --- Every step keeps it ---

  /** The handler leaves no new leader: who leads afterwards led before, under the same stamp. */
  predicate NoClaim(id: nat, t: Tab, e: Effect) {
    Leads(id, e.tab) ==> Leads(id, t) && e.tab.leaseIssuedAt == t.leaseIssuedAt
  }

  predicate FreshClaim(id: nat, e: Effect, now: nat) {
    Leads(id, e.tab) && e.tab.leaseIssuedAt == now && e.post == Some(Lease(now))
  }

  lemma HandlerKinds(step: Step, id: nat, t: Tab, now: nat)
    requires TabOk(id, t) && TabBounded(t, now) && 0 < now
    requires step.Deliver? ==> step.p.from != id && (step.p.body.Lease? ==> step.p.body.issuedAt <= now)
    ensures var e := Handler(step, id, t, now);
      && TabOk(id, e.tab) && TabBounded(e.tab, now)
      && (NoClaim(id, t, e) || FreshClaim(id, e, now))
      && (e.post.Some? && e.post.value.Lease? ==> e.post.value.issuedAt <= now)
  {
  }

  lemma ToldStays(s: State, a: nat, b: nat, r: State)
    requires a in s.tabs && b in s.tabs && a in r.tabs && b in r.tabs && Told(s, a, b)
    requires r.tabs[a].leaseIssuedAt == s.tabs[a].leaseIssuedAt && r.tabs[b].leaseIssuedAt == s.tabs[b].leaseIssuedAt
    requires forall p :: p in s.net && p.to == b && p.body.Lease? ==> p in r.net
    ensures Told(r, a, b)
  {
    var p :| p in s.net && Carries(p, a, b, s.tabs[a].leaseIssuedAt);
    assert p in r.net;
  }

  lemma ApplyKeepsPair(s: State, id: nat, e: Effect, a: nat, b: nat)
    requires TabsOk(s) && RivalsAreTold(s) && id in s.tabs && a != b
    requires NoClaim(id, s.tabs[id], e) || FreshClaim(id, e, s.now)
    requires var r := Apply(s, id, e); LeadsIn(r, a) && LeadsIn(r, b)
    ensures var r := Apply(s, id, e); Told(r, a, b) || Told(r, b, a)
  {
    var r := Apply(s, id, e);
    if (a != id && b != id) || NoClaim(id, s.tabs[id], e) {
      if Told(s, a, b) {
        ToldStays(s, a, b, r);
      } else {
        ToldStays(s, b, a, r);
      }
    } else {
      var other := if a == id then b else a;
      assert Carries(Packet(s.posted, id, other, Lease(s.now)), id, other, s.now);
      assert Packet(s.posted, id, other, Lease(s.now)) in Packets(s, id, e.post);
      assert Told(r, id, other);
    }
  }

  lemma ApplyKeeps(s: State, id: nat, e: Effect)
    requires Valid(s) && id in s.tabs
    requires TabOk(id, e.tab) && TabBounded(e.tab, s.now)
    requires NoClaim(id, s.tabs[id], e) || FreshClaim(id, e, s.now)
    requires e.post.Some? && e.post.value.Lease? ==> e.post.value.issuedAt <= s.now
    ensures Valid(Apply(s, id, e))
  {
    hide TabOk, TabBounded, Leads;
    var r := Apply(s, id, e);
    forall a, b | LeadsIn(r, a) && LeadsIn(r, b) && a != b ensures Told(r, a, b) || Told(r, b, a) {
      ApplyKeepsPair(s, id, e, a, b);
    }
    hide Told, RivalsAreTold, NoClaim, FreshClaim;
    assert TabsOk(r);
    assert NetOk(r);
  }

  /** The message that tells a rival makes it follow, so no pair of leaders outlives its message. */
  lemma DeliveredIsNotNeeded(s: State, p: Packet, a: nat, b: nat)
    requires TabsOk(s) && p in s.net && p.to in s.tabs && p.from != p.to && LeadsIn(s, a) && LeadsIn(s, b)
        && Told(s, a, b)
    requires LeadsIn(Next(s, Deliver(p)), a) && LeadsIn(Next(s, Deliver(p)), b) && a != b
    ensures Told(Next(s, Deliver(p)), a, b)
  {
    var r := Next(s, Deliver(p));
    var q :| q in s.net && Carries(q, a, b, s.tabs[a].leaseIssuedAt);
    assert TabOk(b, s.tabs[b]) && TabBounded(s.tabs[b], s.now) && TabOk(a, s.tabs[a]) && TabBounded(s.tabs[a], s.now);
    assert q != p;
    assert q in r.net;
    assert Carries(q, a, b, r.tabs[a].leaseIssuedAt);
  }

  lemma DeliverKeeps(s: State, p: Packet)
    requires Valid(s) && p in s.net && p.to in s.tabs
    ensures Valid(Next(s, Deliver(p)))
  {
    var r, t := Next(s, Deliver(p)), s.tabs[p.to];
    assert TabOk(p.to, t) && TabBounded(t, s.now);
    HandlerKinds(Deliver(p), p.to, t, s.now);
    forall a, b | LeadsIn(r, a) && LeadsIn(r, b) && a != b ensures Told(r, a, b) || Told(r, b, a) {
      assert LeadsIn(s, a) && LeadsIn(s, b);
      if Told(s, a, b) {
        DeliveredIsNotNeeded(s, p, a, b);
      } else {
        DeliveredIsNotNeeded(s, p, b, a);
      }
    }
    hide TabOk, TabBounded, Leads, Received;
  }

  lemma OpenKeeps(s: State, id: nat)
    requires Valid(s) && id !in s.tabs
    ensures Valid(Next(s, OpenTab(id)))
  {
    var r := Next(s, OpenTab(id));
    forall a, b | LeadsIn(r, a) && LeadsIn(r, b) && a != b ensures Told(r, a, b) || Told(r, b, a) {
      assert LeadsIn(s, a) && LeadsIn(s, b);
      if Told(s, a, b) {
        ToldStays(s, a, b, r);
      } else {
        ToldStays(s, b, a, r);
      }
    }
  }

  lemma CloseKeeps(s: State, id: nat)
    requires Valid(s) && id in s.tabs
    ensures Valid(Next(s, CloseTab(id)))
  {
    var r := Next(s, CloseTab(id));
    forall a, b | LeadsIn(r, a) && LeadsIn(r, b) && a != b ensures Told(r, a, b) || Told(r, b, a) {
      assert LeadsIn(s, a) && LeadsIn(s, b);
      if Told(s, a, b) {
        ToldStays(s, a, b, r);
      } else {
        ToldStays(s, b, a, r);
      }
    }
  }

  lemma AdvanceKeeps(s: State, ms: nat)
    requires Valid(s)
    ensures Valid(Next(s, Advance(ms)))
  {
    var r := Next(s, Advance(ms));
    forall a, b | LeadsIn(r, a) && LeadsIn(r, b) && a != b ensures Told(r, a, b) || Told(r, b, a) {
      assert LeadsIn(s, a) && LeadsIn(s, b);
      if Told(s, a, b) {
        ToldStays(s, a, b, r);
      } else {
        ToldStays(s, b, a, r);
      }
    }
  }

  lemma StepKeeps(s: State, step: Step)
    requires Valid(s) && Enabled(s, step)
    ensures Valid(Next(s, step))
  {
    hide Valid, Handler, Apply;
    match step
    case OpenTab(id) => OpenKeeps(s, id);
    case CloseTab(id) => CloseKeeps(s, id);
    case Advance(ms) => AdvanceKeeps(s, ms);
    case Deliver(p) => DeliverKeeps(s, p);
    case _ => TabStepKeeps(s, step);
  }

  lemma TabStepKeeps(s: State, step: Step)
    requires Valid(s) && Enabled(s, step) && Actor(step).Some? && !step.Deliver?
    ensures Valid(Next(s, step))
  {
    var id := Actor(step).value;
    assert TabOk(id, s.tabs[id]) && TabBounded(s.tabs[id], s.now);
    HandlerKinds(step, id, s.tabs[id], s.now);
    var e := Handler(step, id, s.tabs[id], s.now);
    assert Next(s, step) == Apply(s, id, e);
    hide Handler, Apply, TabOk, TabBounded, Enabled, Actor, Next;
    ApplyKeeps(s, id, e);
  }

  // --- Runs ---

  ghost predicate Steps(s: State, run: seq<Step>)
    decreases |run|
  {
    run == [] || (Enabled(s, run[0]) && Steps(Next(s, run[0]), run[1..]))
  }

  function After(s: State, run: seq<Step>): State
    requires Steps(s, run)
    decreases |run|
  {
    if run == [] then s else After(Next(s, run[0]), run[1..])
  }

  function Start(now: nat): State { State(map[], {}, 0, now) }

  lemma {:induction false} RunKeeps(s: State, run: seq<Step>)
    requires Valid(s) && Steps(s, run)
    ensures Valid(After(s, run))
    decreases |run|
  {
    hide Valid, Next, Enabled;
    if run != [] {
      StepKeeps(s, run[0]);
      RunKeeps(Next(s, run[0]), run[1..]);
    }
  }

  /**
    Once no lease is in flight, at most one tab believes it leads; it is visible, and only it may have a
    stream, with its own topics.
   */
  lemma QuietMeansOneLeader(now: nat, run: seq<Step>, a: nat, b: nat)
    requires 0 < now && Steps(Start(now), run)
    requires forall p :: p in After(Start(now), run).net ==> !p.body.Lease?
    ensures var s := After(Start(now), run);
      && (LeadsIn(s, a) && LeadsIn(s, b) ==> a == b && s.tabs[a].visible)
      && (a in s.tabs && s.tabs[a].stream.Some? ==> LeadsIn(s, a) && s.tabs[a].stream == Some(s.tabs[a].wanted))
  {
    RunKeeps(Start(now), run);
    hide After, Steps;
    var s := After(Start(now), run);
    if a in s.tabs {
      assert TabOk(a, s.tabs[a]);
    }
    if LeadsIn(s, a) && LeadsIn(s, b) && a != b {
      NoneTold(s, a, b);
      NoneTold(s, b, a);
      assert false;
    }
  }

  lemma NoneTold(s: State, a: nat, b: nat)
    requires a in s.tabs && b in s.tabs && forall p :: p in s.net ==> !p.body.Lease?
    ensures !Told(s, a, b)
  {
  }

  // --- The newest claim wins ---

  /** Every lease in flight that is not from `a` is older than the one `a` holds. */
  ghost predicate Newest(s: State, a: nat) {
    LeadsIn(s, a) && forall p ::
        p in s.net && p.from != a && p.body.Lease? ==> p.body.issuedAt < s.tabs[a].leaseIssuedAt
  }

  predicate OnlyDeliveries(run: seq<Step>) {
    forall i :: 0 <= i < |run| ==> run[i].Deliver?
  }

  lemma DeliverySparesNewest(s: State, a: nat, p: Packet)
    requires Valid(s) && Newest(s, a) && p in s.net && p.to in s.tabs
    ensures Newest(Next(s, Deliver(p)), a)
  {
    assert TabOk(a, s.tabs[a]) && TabBounded(s.tabs[a], s.now);
  }

  /** If every message is delivered before anyone else claims, the tab with the newest claim is the one leader left. */
  lemma {:induction false} NewestClaimWins(s: State, run: seq<Step>, a: nat, b: nat)
    requires Valid(s) && Steps(s, run) && OnlyDeliveries(run) && Newest(s, a)
    ensures LeadsIn(After(s, run), a)
    ensures (forall p :: p in After(s, run).net ==> !p.body.Lease?) && LeadsIn(After(s, run), b) ==> a == b
    decreases |run|
  {
    hide Valid, Next, Enabled, Newest;
    if run == [] {
      OneLeader(s, a, b);
      hide Steps, After;
      assert LeadsIn(s, a) by { NewestLeads(s, a); }
    } else {
      var p := run[0].p;
      DeliverEnabled(s, p);
      StepKeeps(s, run[0]);
      DeliverySparesNewest(s, a, p);
      NewestClaimWins(Next(s, run[0]), run[1..], a, b);
    }
  }

  lemma NewestLeads(s: State, a: nat)
    requires Newest(s, a)
    ensures LeadsIn(s, a)
  {
  }

  lemma DeliverEnabled(s: State, p: Packet)
    requires Enabled(s, Deliver(p))
    ensures p in s.net && p.to in s.tabs
  {
  }

  lemma OneLeader(s: State, a: nat, b: nat)
    requires Valid(s) && Newest(s, a)
    ensures (forall p :: p in s.net ==> !p.body.Lease?) && LeadsIn(s, b) ==> a == b
  {
    hide Told;
    if (forall p :: p in s.net ==> !p.body.Lease?) && LeadsIn(s, b) && a != b {
      NoneTold(s, a, b);
      NoneTold(s, b, a);
      assert false;
    }
  }

  // --- A silent leader is replaced, and one that is heard is not ---

  /** What a tab knows of a leader was heard no later than now. */
  ghost predicate HeardBefore(s: State) {
    forall id :: id in s.tabs && s.tabs[id].known.Some? ==> s.tabs[id].known.value.seenAt <= s.now
  }

  lemma HandlerHears(step: Step, id: nat, t: Tab, now: nat)
    requires t.known.Some? ==> t.known.value.seenAt <= now
    ensures var e := Handler(step, id, t, now); e.tab.known.Some? ==> e.tab.known.value.seenAt <= now
  {
  }

  lemma StepHears(s: State, step: Step)
    requires HeardBefore(s) && Enabled(s, step)
    ensures HeardBefore(Next(s, step)) && s.now <= Next(s, step).now
  {
    if Actor(step).Some? {
      var id := Actor(step).value;
      HandlerHears(step, id, s.tabs[id], s.now);
    }
    hide Handler;
  }

  /** Whoever the tab follows was last heard by `since`; unless it leads itself. */
  predicate SilentSince(id: nat, t: Tab, since: nat) {
    t.known.None? || Leads(id, t) || t.known.value.seenAt <= since
  }

  predicate DeliversLeaseTo(step: Step, b: nat) { step.Deliver? && step.p.to == b && step.p.body.Lease? }

  lemma HandlerStaysSilent(step: Step, b: nat, t: Tab, now: nat, since: nat)
    requires SilentSince(b, t, since) && !DeliversLeaseTo(step, b) && Actor(step) == Some(b)
    ensures SilentSince(b, Handler(step, b, t, now).tab, since)
  {
  }

  lemma StepStaysSilent(s: State, step: Step, b: nat, since: nat)
    requires Enabled(s, step) && !DeliversLeaseTo(step, b)
    requires b in s.tabs ==> SilentSince(b, s.tabs[b], since)
    ensures b in Next(s, step).tabs ==> SilentSince(b, Next(s, step).tabs[b], since)
  {
    if Actor(step) == Some(b) {
      HandlerStaysSilent(step, b, s.tabs[b], s.now, since);
    }
    hide Handler;
  }

  lemma {:induction false} RunStaysSilent(s: State, run: seq<Step>, b: nat, since: nat)
    requires HeardBefore(s) && Steps(s, run) && (b in s.tabs ==> SilentSince(b, s.tabs[b], since))
    requires forall i :: 0 <= i < |run| ==> !DeliversLeaseTo(run[i], b)
    ensures b in After(s, run).tabs ==> SilentSince(b, After(s, run).tabs[b], since)
    ensures HeardBefore(After(s, run))
    decreases |run|
  {
    hide HeardBefore, SilentSince, Next, Enabled, DeliversLeaseTo;
    if run != [] {
      StepStaysSilent(s, run[0], b, since);
      StepHears(s, run[0]);
      RunStaysSilent(Next(s, run[0]), run[1..], b, since);
    }
  }

  /**
    A tab that shows something, and hears no lease for six seconds, takes over at its next check, whatever
    became of the leader it knew: it opens a stream of its topics, and its lease goes to every other tab.
   */
  lemma SilentLeaderIsReplaced(now: nat, run: seq<Step>, quiet: seq<Step>, b: nat, other: nat)
    requires Steps(Start(now), run) && Steps(After(Start(now), run), quiet)
    requires forall i :: 0 <= i < |quiet| ==> !DeliversLeaseTo(quiet[i], b)
    requires var r := After(After(Start(now), run), quiet);
      && After(Start(now), run).now + 6000 <= r.now
      && b in r.tabs && r.tabs[b].visible && r.tabs[b].wanted != {} && !LeadsIn(r, b)
    ensures var r := After(After(Start(now), run), quiet);
            var after := Next(r, Check(b));
      && LeadsIn(after, b) && after.tabs[b].stream == Some(r.tabs[b].wanted)
      && (other in r.tabs && other != b
          ==> exists p :: p in after.net && p.from == b && p.to == other && p.body == Lease(r.now))
  {
    StartHears(now, run);
    var s := After(Start(now), run);
    assert b in s.tabs ==> SilentSince(b, s.tabs[b], s.now);
    RunStaysSilent(s, quiet, b, s.now);
    hide After, Steps;
    SilentTakesOver(After(s, quiet), b, s.now, other);
  }

  lemma SilentTakesOver(s: State, b: nat, since: nat, other: nat)
    requires b in s.tabs && s.tabs[b].visible && s.tabs[b].wanted != {} && !LeadsIn(s, b)
    requires SilentSince(b, s.tabs[b], since) && since + 6000 <= s.now
    ensures var after := Next(s, Check(b));
      && LeadsIn(after, b) && after.tabs[b].stream == Some(s.tabs[b].wanted)
      && (other in s.tabs && other != b
          ==> exists p :: p in after.net && p.from == b && p.to == other && p.body == Lease(s.now))
  {
    if other in s.tabs && other != b {
      var p := PostedTo(s, b, Lease(s.now), other);
      hide Packets;
    }
  }

  lemma {:induction false} RunHears(s: State, run: seq<Step>)
    requires HeardBefore(s) && Steps(s, run)
    ensures HeardBefore(After(s, run))
    decreases |run|
  {
    hide HeardBefore, Next, Enabled;
    if run != [] {
      StepHears(s, run[0]);
      RunHears(Next(s, run[0]), run[1..]);
    }
  }

  lemma StartHears(now: nat, run: seq<Step>)
    requires Steps(Start(now), run)
    ensures HeardBefore(After(Start(now), run))
  {
    RunHears(Start(now), run);
  }

  /** The tab follows another, and heard of it at `heard` or later. */
  predicate FollowsSince(id: nat, t: Tab, heard: nat) {
    t.known.Some? && !Leads(id, t) && heard <= t.known.value.seenAt
  }

  /** What may end a tab's following before the lease runs out: its own focus, its end, or a release it hears. */
  predicate StopsFollowing(step: Step, b: nat) {
    step == Focus(b) || step == CloseTab(b) || (step.Deliver? && step.p.to == b && step.p.body.Released?)
  }

  lemma HandlerFollows(step: Step, b: nat, t: Tab, now: nat, heard: nat)
    requires FollowsSince(b, t, heard) && now < heard + 6000 && Actor(step) == Some(b) && !StopsFollowing(step, b)
    requires heard <= now && (step.Deliver? ==> step.p.from != b)
    ensures FollowsSince(b, Handler(step, b, t, now).tab, heard)
  {
  }

  lemma StepFollows(s: State, step: Step, b: nat, heard: nat)
    requires Valid(s) && Enabled(s, step) && b in s.tabs && FollowsSince(b, s.tabs[b], heard)
    requires heard <= s.now < heard + 6000 && !StopsFollowing(step, b)
    ensures b in Next(s, step).tabs && FollowsSince(b, Next(s, step).tabs[b], heard)
  {
    if Actor(step) == Some(b) {
      HandlerFollows(step, b, s.tabs[b], s.now, heard);
    }
    hide Handler;
  }

  lemma StepClock(s: State, step: Step)
    requires Enabled(s, step)
    ensures s.now <= Next(s, step).now
  {
    hide Handler;
  }

  lemma {:induction false} RunClock(s: State, run: seq<Step>)
    requires Steps(s, run)
    ensures s.now <= After(s, run).now
    decreases |run|
  {
    hide Next, Enabled;
    if run != [] {
      StepClock(s, run[0]);
      RunClock(Next(s, run[0]), run[1..]);
    }
  }

  lemma {:induction false} RunFollows(s: State, run: seq<Step>, b: nat, heard: nat)
    requires Valid(s) && Steps(s, run) && b in s.tabs && FollowsSince(b, s.tabs[b], heard)
    requires heard <= s.now && After(s, run).now < heard + 6000
    requires forall i :: 0 <= i < |run| ==> !StopsFollowing(run[i], b)
    ensures b in After(s, run).tabs && FollowsSince(b, After(s, run).tabs[b], heard)
    decreases |run|
  {
    hide Valid, Next, Enabled, FollowsSince, StopsFollowing;
    if run != [] {
      RunClock(s, run);
      StepFollows(s, run[0], b, heard);
      StepKeeps(s, run[0]);
      StepClock(s, run[0]);
      RunFollows(Next(s, run[0]), run[1..], b, heard);
    }
  }

  /**
    A lease that a tab accepts keeps it from claiming for six seconds: whatever it checks, shows or
    subscribes to meanwhile, it leads only after a focus of its own or after the leader's release.
   */
  lemma HeardLeaderIsKept(s: State, p: Packet, run: seq<Step>)
    requires Valid(s) && Enabled(s, Deliver(p)) && p.body.Lease? && 0 < p.body.issuedAt
    requires s.tabs[p.to].known.None? || s.tabs[p.to].known.value.issuedAt <= p.body.issuedAt
    requires var r := Next(s, Deliver(p)); Steps(r, run) && After(r, run).now < s.now + 6000
    requires forall i :: 0 <= i < |run| ==> !StopsFollowing(run[i], p.to)
    ensures !LeadsIn(After(Next(s, Deliver(p)), run), p.to)
  {
    var r := Next(s, Deliver(p));
    assert FollowsSince(p.to, r.tabs[p.to], s.now) && r.now == s.now;
    hide Next, Steps, After, Valid, FollowsSince, StopsFollowing;
    assert Valid(r) by { DeliverKeeps(s, p); }
    RunFollows(r, run, p.to, s.now);
    Following(p.to, After(r, run), s.now);
  }

  lemma Following(b: nat, s: State, heard: nat)
    requires b in s.tabs && FollowsSince(b, s.tabs[b], heard)
    ensures !LeadsIn(s, b)
  {
  }

  // --- What a leader tells the others ---

  lemma PostedTo(s: State, id: nat, post: Body, other: nat) returns (p: Packet)
    requires other in s.tabs && other != id
    ensures p == Packet(s.posted, id, other, post) && p in Packets(s, id, Some(post))
  {
    p := Packet(s.posted, id, other, post);
  }

  /**
    A heartbeat of the leader goes to every other tab, and one that knows no newer claim has heard the leader
    at the moment it arrives; a tab that does not lead posts nothing.
   */
  lemma HeartbeatRenews(s: State, id: nat, other: nat) returns (p: Packet)
    requires Valid(s) && id in s.tabs && other in s.tabs && other != id && s.tabs[id].leaseIssuedAt > 0
    ensures !LeadsIn(s, id) ==> Next(s, Heartbeat(id)) == s.(posted := s.posted + 1)
    ensures LeadsIn(s, id) ==>
              var r := Next(s, Heartbeat(id));
              && r.tabs == s.tabs && p in r.net && Enabled(r, Deliver(p))
              && var stamp, known := s.tabs[id].leaseIssuedAt, s.tabs[other].known;
                 (known.Some? ==> known.value.issuedAt <= stamp) ==>
                   Next(r, Deliver(p)).tabs[other].known == Some(Leader(id, stamp, s.now))
  {
    assert TabOk(id, s.tabs[id]);
    p := PostedTo(s, id, Lease(s.tabs[id].leaseIssuedAt), other);
    assert s.tabs[id := s.tabs[id]] == s.tabs;
  }

  /** A tab that is focused while it is on the screen leads, and every other tab is told. */
  lemma FocusTakesOver(s: State, id: nat, other: nat) returns (p: Packet)
    requires id in s.tabs && s.tabs[id].visible && other in s.tabs && other != id
    ensures var r := Next(s, Focus(id)); LeadsIn(r, id) && p in r.net && p.to == other && p.body == Lease(s.now)
  {
    p := PostedTo(s, id, Lease(s.now), other);
  }

  /**
    A leader that is hidden, unloaded or reset tells every other tab. One on the screen with subscriptions,
    that followed it, leads after its next check.
   */
  lemma ReleaseHandsOver(s: State, step: Step, id: nat, other: nat) returns (p: Packet)
    requires LeadsIn(s, id) && other in s.tabs && other != id
    requires step == Hide(id) || step == Unload(id) || step == ResetUpdates(id)
    ensures var r := Next(s, step);
      && !LeadsIn(r, id) && r.tabs[id].stream.None? && p in r.net && Enabled(r, Deliver(p))
      && (step == Hide(id) ==> !r.tabs[id].visible) && (step == ResetUpdates(id) ==> r.tabs[id].pending == {})
      && var q := Next(r, Deliver(p));
         s.tabs[other].visible && s.tabs[other].wanted != {}
         && s.tabs[other].known.Some? && s.tabs[other].known.value.id == id ==>
           Enabled(q, Check(other)) && LeadsIn(Next(q, Check(other)), other)
  {
    p := PostedTo(s, id, Released, other);
  }

  /** A tab that vanishes takes the messages to it along, and tells nobody. */
  lemma VanishesSilently(s: State, id: nat)
    requires id in s.tabs
    ensures var r := Next(s, CloseTab(id));
      && r.tabs == s.tabs - {id} && r.posted == s.posted && r.now == s.now
      && forall p :: p in r.net <==> p in s.net && p.to != id
  {
  }

  /** A new tab knows nobody, the clock goes on, and a message is delivered once. */
  lemma WorldMoves(s: State, id: nat, ms: nat, p: Packet)
    ensures id !in s.tabs ==>
              Next(s, OpenTab(id)) == s.(tabs := s.tabs[id := Tab(true, None, 0, None, {}, {})])
    ensures Next(s, Advance(ms)) == s.(now := s.now + ms)
    ensures Enabled(s, Deliver(p)) ==>
              && p !in Next(s, Deliver(p)).net && Next(s, Deliver(p)).net == s.net - {p}
              && Next(s, Deliver(p)).tabs.Keys == s.tabs.Keys
  {
  }

  // --- Topics wait until their listeners hear of them ---

  /** The topics whose listeners a step calls in a tab. */
  function CalledAt(s: State, step: Step, id: nat): set<nat>
    requires Enabled(s, step)
  {
    if Actor(step) == Some(id) then Handler(step, id, s.tabs[id], s.now).called else {}
  }

  function CalledIn(s: State, run: seq<Step>, id: nat): set<nat>
    requires Steps(s, run)
    decreases |run|
  {
    if run == [] then {} else CalledAt(s, run[0], id) + CalledIn(Next(s, run[0]), run[1..], id)
  }

  /** The steps that throw away what a tab has pending. */
  predicate Forgets(step: Step, id: nat) { step == CloseTab(id) || step == ResetUpdates(id) }

  lemma StepRemembers(s: State, step: Step, id: nat, topic: nat)
    requires Valid(s) && Enabled(s, step) && !Forgets(step, id) && id in s.tabs && topic in s.tabs[id].pending
    ensures id in Next(s, step).tabs && (topic in Next(s, step).tabs[id].pending || topic in CalledAt(s, step, id))
  {
    if Actor(step) == Some(id) {
      var t := s.tabs[id];
      HandlerRemembers(step, id, t, s.now, topic);
      hide Handler;
    }
  }

  lemma HandlerRemembers(step: Step, id: nat, t: Tab, now: nat, topic: nat)
    requires !step.ResetUpdates? && topic in t.pending
    ensures var e := Handler(step, id, t, now); topic in e.tab.pending || topic in e.called
  {
  }

  /** Over any run, a topic that waits in a tab still waits there or its listeners have been called. */
  lemma {:induction false} PendingUntilCalled(s: State, run: seq<Step>, id: nat, topic: nat)
    requires Valid(s) && Steps(s, run) && id in s.tabs && topic in s.tabs[id].pending
    requires forall i :: 0 <= i < |run| ==> !Forgets(run[i], id)
    ensures topic in CalledIn(s, run, id) || (id in After(s, run).tabs && topic in After(s, run).tabs[id].pending)
    decreases |run|
  {
    hide Valid, Next, Enabled, CalledAt, Forgets;
    if run != [] {
      StepKeeps(s, run[0]);
      StepRemembers(s, run[0], id, topic);
      if topic !in CalledAt(s, run[0], id) {
        PendingUntilCalled(Next(s, run[0]), run[1..], id, topic);
      }
    }
  }

  /** A step in which a tab hears of an event, from the server or from another tab. */
  predicate Hears(step: Step, id: nat, topic: nat) {
    step == ServerEvent(id, topic) || (step.Deliver? && step.p.to == id && step.p.body == Event(topic))
  }

  /**
    An event is never dropped: from the step in which a tab hears of it, over any run, its listeners are
    called or its topic waits.
   */
  lemma HeardUntilCalled(s: State, step: Step, run: seq<Step>, id: nat, topic: nat)
    requires Valid(s) && Enabled(s, step) && Hears(step, id, topic) && Steps(Next(s, step), run)
    requires forall i :: 0 <= i < |run| ==> !Forgets(run[i], id)
    ensures var r := Next(s, step);
      topic in CalledAt(s, step, id) || topic in CalledIn(r, run, id)
          || (id in After(r, run).tabs && topic in After(r, run).tabs[id].pending)
  {
    EventsWait(id, s.tabs[id], if step.Deliver? then step.p.from else id, topic, s.now);
    HeardStep(s, step, id, topic);
    StepKeeps(s, step);
    if topic !in CalledAt(s, step, id) {
      hide *;
      PendingUntilCalled(Next(s, step), run, id, topic);
    }
  }

  lemma HeardStep(s: State, step: Step, id: nat, topic: nat)
    requires Enabled(s, step) && Hears(step, id, topic)
    ensures id in s.tabs && id in Next(s, step).tabs
        && Next(s, step).tabs[id] == Handler(step, id, s.tabs[id], s.now).tab
    ensures CalledAt(s, step, id) == Handler(step, id, s.tabs[id], s.now).called
  {
    hide Handler;
  }

  /** An event the leader receives is posted to every other open tab, and its own listeners are called. */
  lemma EventReachesEveryTab(s: State, id: nat, topic: nat, other: nat)
    requires Valid(s) && Enabled(s, ServerEvent(id, topic)) && other in s.tabs && other != id
    ensures topic in CalledAt(s, ServerEvent(id, topic), id)
    ensures exists p :: p in Next(s, ServerEvent(id, topic)).net && p.to == other && p.body == Event(topic)
  {
    assert TabOk(id, s.tabs[id]);
    assert Packet(s.posted, id, other, Event(topic)) in Packets(s, id, Some(Event(topic)));
  }
}
