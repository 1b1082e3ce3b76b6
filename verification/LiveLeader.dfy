/**
  Leader election across browser tabs (src/live-updates.ts).

  Each tab keeps what it believes about the leader and exchanges messages over a broadcast channel.
  `Tab` is the state of one tab and the functions on it are its handlers; `LiveTab` is the same
  state as module variables changed in place; `LiveTabs` lets any number of tabs interleave.
 */
module LiveLeader {
  import opened Options

  const LEASE_MS := 6000

  datatype Leader = Leader(id: nat, issuedAt: nat, seenAt: nat)

  /** `stream` holds the topics of the open event source. */
  datatype Tab = Tab(visible: bool, known: Option<Leader>, leaseIssuedAt: nat, stream: Option<set<nat>>,
      wanted: set<nat>, pending: set<nat>)

  datatype Body = Lease(issuedAt: nat) | Released | Event(topic: nat)

  /** What a handler leaves behind: the tab, the message it posts, and the topics whose listeners it calls. */
  datatype Effect = Effect(tab: Tab, post: Option<Body>, called: set<nat>)

  predicate Leads(id: nat, t: Tab) { t.known.Some? && t.known.value.id == id }

  function Opened(id: nat, t: Tab): Tab {
    t.(stream := if t.visible && Leads(id, t) && t.wanted != {} then Some(t.wanted) else None)
  }

  function Notified(id: nat, t: Tab, topic: nat): Effect {
    if t.visible && Leads(id, t) then Effect(t, None, {topic}) else Effect(t.(pending := t.pending + {topic}), None, {})
  }

  function Replayed(id: nat, t: Tab): Effect {
    var active := t.wanted + t.pending;
    if t.visible && Leads(id, t) then Effect(t.(pending := {}), None, active)
        else Effect(t.(pending := active), None, {})
  }

  function Claimed(id: nat, t: Tab, now: nat): Effect {
    if !t.visible then Effect(t, None, {})
    else Replayed(id, Opened(id, t.(leaseIssuedAt := now,
           known := Some(Leader(id, now, now))))).(post := Some(Lease(now)))
  }

  function Resigned(id: nat, t: Tab): Effect {
    Effect(t.(stream := None, known := if Leads(id, t) then None else t.known), if Leads(id, t) then Some(Released)
        else None, {})
  }

  /** A visible tab with subscriptions takes over when it knows no leader or has not heard one for a lease. */
  predicate MayTakeOver(id: nat, t: Tab, now: nat) {
    && t.visible && t.wanted != {} && !Leads(id, t)
    && (t.known.None? || now >= t.known.value.seenAt + LEASE_MS)
  }

  function Ensured(id: nat, t: Tab, now: nat): Effect {
    if MayTakeOver(id, t, now) then Claimed(id, t, now) else Effect(t, None, {})
  }

  /** A message from another tab. A stamp of zero does not count as one. */
  function Received(id: nat, t: Tab, from: nat, body: Body, now: nat): Tab {
    match body
    case Event(topic) => t.(pending := t.pending + {topic})
    case Released => if t.known.Some? && t.known.value.id == from then t.(known := None) else t
    case Lease(issuedAt) =>
      if issuedAt == 0 || from == id then t
      else if t.known.None? || issuedAt >= t.known.value.issuedAt
             then t.(known := Some(Leader(from, issuedAt, now)), stream := None)
      else t
  }

  /** The first handler's post or the second's; the calls of both. */
  function Then(first: Effect, second: Effect): Effect {
    Effect(second.tab, if first.post.Some? then first.post else second.post, first.called + second.called)
  }

  function Shown(id: nat, t: Tab, now: nat): Effect {
    var e := Ensured(id, t.(visible := true), now);
    Then(e, Replayed(id, e.tab))
  }

  function Subscribed(id: nat, t: Tab, topic: nat, now: nat): Effect {
    var e := Ensured(id, t.(wanted := t.wanted + {topic}), now);
    e.(tab := if Leads(id, e.tab) then Opened(id, e.tab) else e.tab)
  }

  function Unsubscribed(id: nat, t: Tab, topic: nat): Tab {
    var u := t.(wanted := t.wanted - {topic});
    if Leads(id, u) then Opened(id, u) else u
  }

  // --- What each handler keeps ---

  /** A leader is visible and holds its own stamp; the stream is open exactly for a leader with subscriptions. */
  predicate TabOk(id: nat, t: Tab) {
    && (Leads(id, t) ==> t.visible && t.known.value.issuedAt == t.leaseIssuedAt)
    && t.stream == if Leads(id, t) && t.wanted != {} then Some(t.wanted) else None
  }

  /** No topic stops being pending unless its listeners are called. */
  predicate NothingLost(t: Tab, e: Effect) {
    t.pending <= e.tab.pending + e.called
  }

  lemma HandlersKeep(id: nat, t: Tab, from: nat, body: Body, topic: nat, now: nat)
    requires TabOk(id, t)
    ensures TabOk(id, Claimed(id, t, now).tab) && NothingLost(t, Claimed(id, t, now))
    ensures TabOk(id, Shown(id, t, now).tab) && NothingLost(t, Shown(id, t, now))
    ensures TabOk(id, Ensured(id, t, now).tab) && NothingLost(t, Ensured(id, t, now))
    ensures TabOk(id, Resigned(id, t).tab) && NothingLost(t, Resigned(id, t)) && !Leads(id, Resigned(id, t).tab)
    ensures TabOk(id, Subscribed(id, t, topic, now).tab) && NothingLost(t, Subscribed(id, t, topic, now))
    ensures TabOk(id, Unsubscribed(id, t, topic)) && Unsubscribed(id, t, topic).pending == t.pending
    ensures TabOk(id, Replayed(id, t).tab) && NothingLost(t, Replayed(id, t))
    ensures TabOk(id, Notified(id, t, topic).tab) && NothingLost(t, Notified(id, t, topic))
    ensures from != id ==> TabOk(id, Received(id, t, from, body, now))
                           && t.pending <= Received(id, t, from, body, now).pending
  {
  }

  /** An event is never dropped: its listeners are called, or its topic waits to be replayed. */
  lemma EventsWait(id: nat, t: Tab, from: nat, topic: nat, now: nat)
    ensures var e := Notified(id, t, topic); topic in e.called || topic in e.tab.pending
    ensures topic in Received(id, t, from, Event(topic), now).pending
  {
  }

  /** Taking over hands the listeners every topic that waited and every topic subscribed to. */
  lemma TakeoverReplays(id: nat, t: Tab, now: nat)
    requires t.visible
    ensures var e := Claimed(id, t, now);
            Leads(id, e.tab) && e.tab.pending == {} && t.pending + t.wanted == e.called && e.post == Some(Lease(now))
  {
  }

  // --- What each handler does, in full ---

  /** Listeners are called only in a tab that is on the screen and leads. */
  lemma OnlyLeadersCall(id: nat, t: Tab, topic: nat, now: nat)
    ensures forall e ::
              e in {Notified(id, t, topic), Replayed(id, t), Claimed(id, t, now), Ensured(id, t, now),
                    Shown(id, t, now), Subscribed(id, t, topic, now), Resigned(id, t)} && e.called != {}
              ==> e.tab.visible && e.tab.known.Some? && e.tab.known.value.id == id
  {
  }

  /** A visible leader's listeners hear of a topic at once; anyone else keeps it for later. */
  lemma LeadersHearAtOnce(id: nat, t: Tab, topic: nat)
    ensures var e, r := Notified(id, t, topic), Replayed(id, t);
            var leading := t.visible && t.known.Some? && t.known.value.id == id;
      && e.post.None? && r.post.None?
      && (leading ==> e.called == {topic} && e.tab == t)
      && (leading ==> r.called == t.wanted + t.pending && r.tab == t.(pending := {}))
      && (!leading ==> e.called == {} && e.tab == t.(pending := t.pending + {topic}))
      && (!leading ==> r.called == {} && r.tab == t.(pending := t.wanted + t.pending))
  {
  }

  /** A tab that gives up tells the others exactly when it led; otherwise it still knows who leads. */
  lemma ResignsExactly(id: nat, t: Tab)
    ensures var e := Resigned(id, t);
            var led := t.known.Some? && t.known.value.id == id;
      && (e.post == Some(Released) <==> led) && (e.post.None? <==> !led) && e.called == {}
      && e.tab == t.(stream := None, known := e.tab.known)
      && e.tab.known == if led then None else t.known
  {
  }

  /**
    A check takes over exactly when the tab is on the screen, has subscriptions, and knows no leader or
    another one it has not heard for six seconds. Otherwise it does nothing.
   */
  lemma TakesOverExactly(id: nat, t: Tab, now: nat)
    ensures var e := Ensured(id, t, now);
      && (e.post.Some? <==>
          && t.visible && t.wanted != {}
          && (t.known.None? || (t.known.value.id != id && now - t.known.value.seenAt >= 6000)))
      && (e.post.Some? ==>
            && e.post == Some(Lease(now)) && e.tab.known == Some(Leader(id, now, now)) && e.tab.leaseIssuedAt == now
            && e.called == t.wanted + t.pending && e.tab.stream == Some(t.wanted))
      && (e.post.None? ==> e.tab == t && e.called == {})
  {
  }

  /** What a message changes, and that it changes nothing else. */
  lemma MessageMeans(id: nat, t: Tab, from: nat, body: Body, now: nat)
    ensures var r := Received(id, t, from, body, now);
      match body
      case Event(topic) => r == t.(pending := t.pending + {topic})
      case Released =>
        r == if t.known.Some? && t.known.value.id == from then t.(known := None) else t
      case Lease(issuedAt) =>
        if from != id && issuedAt > 0 && (t.known.Some? ==> t.known.value.issuedAt <= issuedAt)
        then r == t.(known := Some(Leader(from, issuedAt, now)), stream := None)
        else r == t
  {
  }

  /** Coming back to the screen: every topic that waited or is subscribed to is called, or waits for the leader. */
  lemma ShownCatchesUp(id: nat, t: Tab, now: nat)
    ensures var e := Shown(id, t, now);
      && e.tab.visible && e.tab.wanted == t.wanted
      && (Leads(id, e.tab) ==> e.called == t.wanted + t.pending && e.tab.pending == {})
      && (!Leads(id, e.tab) ==> e.called == {} && e.tab.pending == t.wanted + t.pending)
      && (!t.visible && t.known.None? && t.wanted != {} ==> Leads(id, e.tab) && e.post == Some(Lease(now)))
  {
  }

  /** Opening the stream opens one exactly in a visible leader with subscriptions, for all of them. */
  lemma OnlyLeadersStream(id: nat, t: Tab)
    ensures var s := Opened(id, t).stream;
      && (s.Some? <==> t.visible && t.known.Some? && t.known.value.id == id && t.wanted != {})
      && (s.Some? ==> s.value == t.wanted)
  {
  }

  /** Subscriptions are what was asked for, and a visible leader's stream carries all of them. */
  lemma SubscriptionsStreamed(id: nat, t: Tab, topic: nat, now: nat)
    ensures var e, u := Subscribed(id, t, topic, now), Unsubscribed(id, t, topic);
      && e.tab.wanted == t.wanted + {topic} && u.wanted == t.wanted - {topic}
      && (t.visible && Leads(id, e.tab) ==> e.tab.stream == Some(t.wanted + {topic}))
      && (t.visible && Leads(id, t) ==> u.stream == if t.wanted == {topic} || t.wanted == {} then None
                                                    else Some(t.wanted - {topic}))
      && (!Leads(id, t) ==> u.stream == t.stream)
  {
    assert t.wanted - {topic} == {} ==> t.wanted == {topic} || t.wanted == {};
  }

  // --- The module variables of one tab ---

  class LiveTab {
    const tabId: nat
    var visible: bool
    var knownLeader: Option<Leader>
    var leaseIssuedAt: nat
    var stream: Option<set<nat>>
    var wanted: set<nat>
    var pendingVisibleTopics: set<nat>

    constructor (id: nat)
      ensures tabId == id && Model() == Tab(false, None, 0, None, {}, {}) && TabOk(tabId, Model())
    {
      tabId, visible, knownLeader, leaseIssuedAt := id, false, None, 0;
      stream, wanted, pendingVisibleTopics := None, {}, {};
    }

    function Model(): Tab
      reads this
    {
      Tab(visible, knownLeader, leaseIssuedAt, stream, wanted, pendingVisibleTopics)
    }

    method Notify(topic: nat) returns (called: set<nat>)
      modifies `pendingVisibleTopics
      ensures var e := Notified(tabId, old(Model()), topic); Model() == e.tab && called == e.called
    {
      called := {};
      if !visible || !Leads(tabId, Model()) {
        pendingVisibleTopics := pendingVisibleTopics + {topic};
        return;
      }
      called := {topic};
    }

    method ReplayVisibleTopics() returns (called: set<nat>)
      modifies `pendingVisibleTopics
      ensures var e := Replayed(tabId, old(Model())); Model() == e.tab && called == e.called
    {
      var active := wanted + pendingVisibleTopics;
      ghost var leading := visible && Leads(tabId, Model());
      pendingVisibleTopics := {};
      called := {};
      var rest := active;
      while rest != {}
        invariant leading == (visible && Leads(tabId, Model()))
        invariant if leading then pendingVisibleTopics == {} && called + rest == active
            else called == {} && pendingVisibleTopics + rest == active
        modifies `pendingVisibleTopics
        decreases rest
      {
        hide Leads;
        var topic :| topic in rest;
        var heard := Notify(topic);
        called := called + heard;
        rest := rest - {topic};
      }
    }

    method OpenStream()
      modifies `stream
      ensures Model() == Opened(tabId, old(Model()))
    {
      stream := None;
      if !visible || !Leads(tabId, Model()) { return; }
      if wanted == {} { return; }
      stream := Some(wanted);
    }

    method ClaimLeadership(now: nat) returns (post: Option<Body>, called: set<nat>)
      modifies `leaseIssuedAt, `knownLeader, `stream, `pendingVisibleTopics
      ensures Effect(Model(), post, called) == Claimed(tabId, old(Model()), now)
    {
      post, called := None, {};
      if !visible { return; }
      leaseIssuedAt := now;
      knownLeader := Some(Leader(tabId, leaseIssuedAt, leaseIssuedAt));
      post := Some(Lease(leaseIssuedAt));
      OpenStream();
      called := ReplayVisibleTopics();
    }

    method ReleaseLeadership() returns (post: Option<Body>)
      modifies `knownLeader, `stream
      ensures Effect(Model(), post, {}) == Resigned(tabId, old(Model()))
    {
      post := if Leads(tabId, Model()) then Some(Released) else None;
      stream := None;
      if Leads(tabId, Model()) { knownLeader := None; }
    }

    method EnsureLeader(now: nat) returns (post: Option<Body>, called: set<nat>)
      modifies `leaseIssuedAt, `knownLeader, `stream, `pendingVisibleTopics
      ensures Effect(Model(), post, called) == Ensured(tabId, old(Model()), now)
    {
      post, called := None, {};
      if !visible || wanted == {} { return; }
      if Leads(tabId, Model()) { return; }
      if knownLeader.None? || now - knownLeader.value.seenAt >= LEASE_MS {
        post, called := ClaimLeadership(now);
      }
    }

    method OnMessage(from: nat, body: Body, now: nat)
      modifies `knownLeader, `stream, `pendingVisibleTopics
      ensures Model() == Received(tabId, old(Model()), from, body, now)
    {
      if body.Event? {
        pendingVisibleTopics := pendingVisibleTopics + {body.topic};
        return;
      }
      if body.Released? && knownLeader.Some? && knownLeader.value.id == from {
        knownLeader := None;
        return;
      }
      if !body.Lease? || body.issuedAt == 0 || from == tabId { return; }
      if knownLeader.None? || body.issuedAt >= knownLeader.value.issuedAt {
        knownLeader := Some(Leader(from, body.issuedAt, now));
        if stream.Some? { stream := None; }
      }
    }

    method OnVisibilityChange(shown: bool, now: nat) returns (post: Option<Body>, called: set<nat>)
      modifies `visible, `leaseIssuedAt, `knownLeader, `stream, `pendingVisibleTopics
      ensures Effect(Model(), post, called)
              == if shown then Shown(tabId, old(Model()), now) else Resigned(tabId, old(Model()).(visible := false))
    {
      visible := shown;
      called := {};
      if visible {
        post, called := EnsureLeader(now);
        var more := ReplayVisibleTopics();
        called := called + more;
      } else {
        post := ReleaseLeadership();
      }
    }

    method SubscribeLive(topic: nat, now: nat) returns (post: Option<Body>, called: set<nat>)
      modifies `wanted, `leaseIssuedAt, `knownLeader, `stream, `pendingVisibleTopics
      ensures Effect(Model(), post, called) == Subscribed(tabId, old(Model()), topic, now)
    {
      wanted := wanted + {topic};
      post, called := EnsureLeader(now);
      if Leads(tabId, Model()) { OpenStream(); }
    }

    method Unsubscribe(topic: nat)
      modifies `wanted, `stream
      ensures Model() == Unsubscribed(tabId, old(Model()), topic)
    {
      wanted := wanted - {topic};
      if Leads(tabId, Model()) { OpenStream(); }
    }
  }
}
