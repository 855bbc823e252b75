/** What WireGuard commands say and when they are handed out (wireguard_service.py). */
module WireGuardPayload {
  import opened WireGuard
  import opened Wrappers

  // ------------------------------------------------------------- what commands say

  /** The command says what the document says: remove, or apply these settings and profiles,
      whose endpoints may have moved on since. */
  ghost predicate Conveys(payload: Payload, d: Document) {
    if d.tombstone then payload == Remove
    else
      && d.server.Some? && payload.Apply? && payload.server.settings == d.server.value.settings
      && (forall p :: p in payload.server.endpoints <==> p in d.server.value.endpoints)
      && (forall p :: p in payload.server.endpoints && p in d.server.value.endpoints ==>
            payload.server.endpoints[p] <= d.server.value.endpoints[p])
  }

  /** The new command makes this one pointless: same router and scope, or no scope, not newer,
      and still to be delivered or acknowledged. */
  predicate Replaced(c: Command, router: string, scope: Scope, revision: int) {
    && c.router == router && (c.scope == scope || c.scope == Unscoped) && c.revision <= revision
    && (c.status == Pending || c.status == Delivered)
  }

  /** With room in the queue exactly the replaced commands go, and the new one comes. */
  lemma QueueKeepsIff(q: Queue, router: string, scope: Scope, revision: int, payload: Payload, id: nat)
    requires |q| < 500
    ensures forall c :: c in Queued(q, router, scope, revision, payload, id) <==>
              c == Command(id, router, scope, revision, payload, Pending, 0, 0)
              || (c in q && !Replaced(c, router, scope, revision))
  {
    hide Replaced, Superseded;
    KeptFacts(q, router, scope, revision);
    KeptIsShorter(q, router, scope, revision);
    forall c ensures Superseded(c, router, scope, revision) <==> Replaced(c, router, scope, revision) {
      ReplacedIff(c, router, scope, revision);
    }
  }

  lemma ReplacedIff(c: Command, router: string, scope: Scope, revision: int)
    ensures Superseded(c, router, scope, revision) <==> Replaced(c, router, scope, revision)
  {
  }

  lemma {:induction false} KeptIsShorter(q: Queue, router: string, scope: Scope, revision: int)
    ensures |Kept(q, router, scope, revision)| <= |q|
  {
    if q != [] {
      KeptIsShorter(q[..|q| - 1], router, scope, revision);
    }
  }

  /** Every active server command of the document's revision says what the document says. */
  ghost predicate PayloadsOk(h: Hub) {
    && (h.document.tombstone ==> h.document.server.None?)
    && (forall c :: c in h.queue && c.scope == ServerScope && c.Active() && c.revision == h.document.revision ==>
          Conveys(c.payload, h.document))
  }

  lemma QueuedSays(h: Hub, router: string, scope: Scope, revision: int, payload: Payload)
    requires HubOk(h)
    ensures var q := Push(h, router, scope, revision, payload).queue;
            && q != [] && q[|q| - 1] == Command(h.nextId, router, scope, revision, payload, Pending, 0, 0)
            && forall c :: c in q ==> c == q[|q| - 1] || c in h.queue
  {
    hide Kept, Superseded, Fenced, Counted, NeverBack, OneActive;
    QueuedFacts(h.queue, router, scope, revision, payload, h.nextId);
    QueuedSurvivors(h.queue, router, scope, revision, payload, h.nextId);
  }

  lemma NewerKeepsPayloads(h: Hub, d: Document, payload: Payload)
    requires HubOk(h) && d.revision == h.document.revision + 1 && Conveys(payload, d)
    requires d.tombstone ==> d.server.None?
    ensures PayloadsOk(Push(h.(document := d), h.router, ServerScope, d.revision, payload))
  {
    hide Queued, Conveys, Counted, NeverBack, OneActive, UniqueIds, IdsBelow;
    NewerDocumentOk(h, d);
    QueuedSays(h.(document := d), h.router, ServerScope, d.revision, payload);
  }

  lemma SameKeepsPayloads(h: Hub, router: string, payload: Payload)
    requires HubOk(h) && PayloadsOk(h) && Conveys(payload, h.document)
    ensures PayloadsOk(Push(h, router, ServerScope, h.document.revision, payload))
  {
    hide Queued, Conveys, HubOk;
    QueuedSays(h, router, ServerScope, h.document.revision, payload);
  }

  lemma EndpointKeepsPayloads(h: Hub, profile: string, endpoint: string, expected: Option<int>)
    requires HubOk(h) && PayloadsOk(h)
    ensures PayloadsOk(Next(h, UpdateEndpoint(profile, endpoint, expected)))
  {
    hide Queued, HubOk;
    if h.document.server.Some? && profile in h.document.server.value.endpoints {
      var server := h.document.server.value;
      var revision := server.endpoints[profile] + 1;
      var d := h.document.(server := Some(server.(endpoints := server.endpoints[profile := revision])));
      NewerDocumentOk(h, d);
      QueuedSays(h.(document := d), h.router, EndpointScope(profile), revision, SetEndpoint(profile, endpoint));
    }
  }

  lemma PollKeepsPayloads(h: Hub, asking: string, now: int, limit: nat)
    requires PayloadsOk(h)
    ensures PayloadsOk(Next(h, Poll(asking, now, limit)))
  {
    hide Fetch, Conveys;
    FetchRows(h.queue, asking, now, limit);
    var q := Fetch(h.queue, asking, now, limit).0;
    forall c | c in q && c.scope == ServerScope && c.Active() && c.revision == h.document.revision
      ensures Conveys(c.payload, h.document)
    {
      var i :| 0 <= i < |q| && q[i] == c;
      assert h.queue[i] in h.queue && h.queue[i].Active();
    }
  }

  lemma AckKeepsPayloads(h: Hub, acks: map<nat, bool>)
    requires PayloadsOk(h)
    ensures PayloadsOk(Next(h, Acknowledge(acks)))
  {
    hide Conveys;
    var q := Ack(h.queue, acks);
    forall c | c in q && c.scope == ServerScope && c.Active() && c.revision == h.document.revision
      ensures Conveys(c.payload, h.document)
    {
      var i :| 0 <= i < |q| && q[i] == c;
      assert h.queue[i] in h.queue;
    }
  }

  lemma NextKeepsPayloads(h: Hub, step: Step)
    requires HubOk(h) && PayloadsOk(h)
    ensures PayloadsOk(Next(h, step))
  {
    hide HubOk, Push, Fetch, Ack, PayloadsOk;
    match step
    case Put(server, expected) =>
      NewerKeepsPayloads(h, Document(h.document.revision + 1, Some(server), false), Apply(server));
    case Delete(expected) =>
      NewerKeepsPayloads(h, Document(h.document.revision + 1, None, true), Remove);
    case UpdateEndpoint(profile, endpoint, expected) => EndpointKeepsPayloads(h, profile, endpoint, expected);
    case Poll(asking, now, limit) => PollKeepsPayloads(h, asking, now, limit);
    case Acknowledge(acks) => AckKeepsPayloads(h, acks);
    case Report(asking, revision) =>
      TombstoneIsEmpty(h);
      if h.document.server.Some? {
        SameKeepsPayloads(h, asking, Apply(h.document.server.value));
      } else if h.document.tombstone {
        SameKeepsPayloads(h, asking, Remove);
      }
  }

  lemma TombstoneIsEmpty(h: Hub)
    requires PayloadsOk(h)
    ensures h.document.tombstone ==> h.document.server.None?
  {
  }

  /** Over every run: an active server command of the document's revision removes exactly when
      the document is a tombstone, and else applies the document's settings. */
  lemma {:induction false} RunKeepsPayloads(router: string, steps: seq<Step>)
    ensures PayloadsOk(Run(NewHub(router), steps))
  {
    hide Next, HubOk, PayloadsOk;
    if steps == [] {
      NewHubSaysNothing(router);
    } else {
      var init := steps[..|steps| - 1];
      RunKeepsPayloads(router, init);
      RunKeepsHub(router, init);
      NextKeepsPayloads(Run(NewHub(router), init), steps[|steps| - 1]);
    }
  }

  lemma NewHubSaysNothing(router: string)
    ensures PayloadsOk(NewHub(router))
  {
  }

  ghost predicate QueuedLast(h: Hub, router: string, scope: Scope, revision: int, payload: Payload) {
    h.queue != [] && var c := h.queue[|h.queue| - 1];
    c.router == router && c.scope == scope && c.revision == revision && c.payload == payload && c.status == Pending
  }

  /** A put or delete that meets its expectation sets the document and queues, last, the
      command that says so. */
  lemma WriteQueuesLast(h: Hub, step: Step)
    requires HubOk(h) && (step.Put? || step.Delete?)
    ensures var h' := Next(h, step); var revision := h.document.revision + 1;
            if step.expected.Some? && step.expected.value != h.document.revision then h' == h
            else if step.Put? then
              && h'.document == Document(revision, Some(step.server), false)
              && QueuedLast(h', h.router, ServerScope, revision, Apply(step.server))
            else
              && h'.document == Document(revision, None, true)
              && QueuedLast(h', h.router, ServerScope, revision, Remove)
  {
    hide Queued, HubOk;
    var revision := h.document.revision + 1;
    match step
    case Put(server, expected) =>
      NewerDocumentOk(h, Document(revision, Some(server), false));
      QueuedSays(h.(document := Document(revision, Some(server), false)), h.router, ServerScope, revision, Apply(server));
    case Delete(expected) =>
      NewerDocumentOk(h, Document(revision, None, true));
      QueuedSays(h.(document := Document(revision, None, true)), h.router, ServerScope, revision, Remove);
  }

  /** An endpoint update that names the profile's present revision moves it on by one and
      queues, last, the new endpoint; any other changes nothing. */
  lemma EndpointQueuesLast(h: Hub, profile: string, endpoint: string, expected: Option<int>)
    requires HubOk(h)
    ensures var h' := Next(h, UpdateEndpoint(profile, endpoint, expected)); var s := h.document.server;
            if s.Some? && profile in s.value.endpoints && expected == Some(s.value.endpoints[profile]) then
              && h'.document
                 == h.document.(server := Some(Server(s.value.settings, s.value.endpoints[profile := expected.value + 1])))
              && QueuedLast(h', h.router, EndpointScope(profile), expected.value + 1, SetEndpoint(profile, endpoint))
            else h' == h
  {
    hide Queued, HubOk;
    var s := h.document.server;
    if s.Some? && profile in s.value.endpoints && expected == Some(s.value.endpoints[profile]) {
      var d := h.document.(server := Some(Server(s.value.settings, s.value.endpoints[profile := expected.value + 1])));
      NewerDocumentOk(h, d);
      QueuedSays(h.(document := d), h.router, EndpointScope(profile), expected.value + 1, SetEndpoint(profile, endpoint));
    }
  }

  /** A report of an older revision queues, last, what the document says for its sender; any
      other changes nothing. */
  lemma ReportQueuesLast(h: Hub, asking: string, revision: int)
    requires HubOk(h) && PayloadsOk(h)
    ensures var h' := Next(h, Report(asking, revision));
            && h'.document == h.document
            && (revision >= h.document.revision || (h.document.server.None? && !h.document.tombstone) ==> h' == h)
            && (revision < h.document.revision && h.document.server.Some? ==>
                  QueuedLast(h', asking, ServerScope, h.document.revision, Apply(h.document.server.value)))
            && (revision < h.document.revision && h.document.tombstone ==>
                  QueuedLast(h', asking, ServerScope, h.document.revision, Remove))
  {
    hide Queued, HubOk;
    if h.document.server.Some? {
      QueuedSays(h, asking, ServerScope, h.document.revision, Apply(h.document.server.value));
    } else {
      QueuedSays(h, asking, ServerScope, h.document.revision, Remove);
    }
  }

  // ---------------------------------------------------------- when they are handed out

  /** The router is owed the command: it never got it, or got it at least fifteen seconds
      ago, fewer than five times, and has not acknowledged it. */
  predicate Owed(c: Command, router: string, now: int) {
    c.router == router
    && (c.status == Pending || (c.status == Delivered && c.deliveredAt + 15 <= now && c.attempts < 5))
  }

  function OwedIn(q: Queue, router: string, now: int): Queue
    decreases |q|
  {
    if q == [] then []
    else (if Owed(q[0], router, now) then [q[0]] else []) + OwedIn(q[1..], router, now)
  }

  /** A poll hands out the commands the router is owed, in queue order, as many as it asks for. */
  lemma {:induction false} FetchHandsOut(q: Queue, router: string, now: int, limit: nat)
    ensures var owed := OwedIn(q, router, now);
            Fetch(q, router, now, limit).1 == if limit < |owed| then owed[..limit] else owed
    decreases |q|
  {
    if q != [] && limit > 0 {
      var take := Owed(q[0], router, now);
      assert take <==> Deliverable(q[0], router, now);
      FetchHandsOut(q[1..], router, now, if take then limit - 1 else limit);
    }
  }

  lemma {:induction false} OwedMembers(q: Queue, router: string, now: int)
    ensures |OwedIn(q, router, now)| <= |q|
    ensures forall c :: c in OwedIn(q, router, now) <==> c in q && Owed(c, router, now)
    decreases |q|
  {
    if q != [] {
      OwedMembers(q[1..], router, now);
      assert forall c :: c in q <==> c == q[0] || c in q[1..];
    }
  }

  /** A put or delete reaches its router at the next poll that asks for enough. */
  lemma WriteIsHandedOut(h: Hub, step: Step, now: int, limit: nat)
    requires HubOk(h) && Succeeds(h, step)
    requires limit >= |Next(h, step).queue|
    ensures var h' := Next(h, step);
            exists c :: c in Next(h', Poll(h.router, now, limit)).log && c !in h.log
                        && c.router == h.router && c.scope == ServerScope && c.revision == h.document.revision + 1
                        && c.payload == if step.Put? then Apply(step.server) else Remove
  {
    hide Queued, Fetch, HubOk, Push;
    var h' := Next(h, step);
    WriteQueuesLast(h, step);
    var c := h'.queue[|h'.queue| - 1];
    FetchHandsOut(h'.queue, h.router, now, limit);
    OwedMembers(h'.queue, h.router, now);
    assert c in h'.queue && Owed(c, h.router, now);
    LogIsOlder(h, c);
    LogStays(h, step);
  }

  lemma LogStays(h: Hub, step: Step)
    requires step.Put? || step.Delete?
    ensures Next(h, step).log == h.log
  {
  }

  lemma LogIsOlder(h: Hub, c: Command)
    requires HubOk(h) && c.scope == ServerScope && c.revision > h.document.revision
    ensures c !in h.log
  {
    hide UniqueIds, OneActive, NeverBack, Counted;
  }

  /** An acknowledgement settles exactly the commands it names, as done or failed. */
  lemma AckSettles(q: Queue, acks: map<nat, bool>)
    ensures |Ack(q, acks)| == |q|
    ensures forall i :: 0 <= i < |q| ==>
              var c, c' := q[i], Ack(q, acks)[i];
              c' == if c.id !in acks then c
                    else Command(c.id, c.router, c.scope, c.revision, c.payload, if acks[c.id] then Done else Failed,
                                 c.attempts, c.deliveredAt)
  {
  }

  /** No queued command with the id is active, and none will be issued. */
  ghost predicate Closed(h: Hub, id: nat) {
    id < h.nextId && forall c :: c in h.queue && c.id == id ==> !c.Active()
  }

  lemma PushKeepsClosed(h: Hub, router: string, scope: Scope, revision: int, payload: Payload, id: nat)
    requires HubOk(h) && Closed(h, id)
    ensures Closed(Push(h, router, scope, revision, payload), id)
  {
    hide Queued, HubOk;
    QueuedSays(h, router, scope, revision, payload);
  }

  lemma NextKeepsClosed(h: Hub, step: Step, id: nat)
    requires HubOk(h) && Closed(h, id)
    ensures Closed(Next(h, step), id) && Times(Next(h, step).log, id) == Times(h.log, id)
  {
    hide HubOk, Push, Fetch, Times;
    match step
    case Put(server, expected) =>
      var d := Document(h.document.revision + 1, Some(server), false);
      NewerDocumentOk(h, d);
      PushKeepsClosed(h.(document := d), h.router, ServerScope, d.revision, Apply(server), id);
      PushLog(h.(document := d), h.router, ServerScope, d.revision, Apply(server));
    case Delete(expected) =>
      var d := Document(h.document.revision + 1, None, true);
      NewerDocumentOk(h, d);
      PushKeepsClosed(h.(document := d), h.router, ServerScope, d.revision, Remove, id);
      PushLog(h.(document := d), h.router, ServerScope, d.revision, Remove);
    case UpdateEndpoint(profile, endpoint, expected) =>
      if h.document.server.Some? && profile in h.document.server.value.endpoints {
        var server := h.document.server.value;
        var revision := server.endpoints[profile] + 1;
        var d := h.document.(server := Some(server.(endpoints := server.endpoints[profile := revision])));
        NewerDocumentOk(h, d);
        PushKeepsClosed(h.(document := d), h.router, EndpointScope(profile), revision, SetEndpoint(profile, endpoint), id);
        PushLog(h.(document := d), h.router, EndpointScope(profile), revision, SetEndpoint(profile, endpoint));
      }
    case Poll(asking, now, limit) => PollKeepsClosed(h, asking, now, limit, id);
    case Acknowledge(acks) => AckKeepsClosed(h, acks, id);
    case Report(asking, revision) =>
      var payload := if h.document.server.Some? then Apply(h.document.server.value) else Remove;
      PushKeepsClosed(h, asking, ServerScope, h.document.revision, payload, id);
      PushLog(h, asking, ServerScope, h.document.revision, payload);
  }

  lemma PushLog(h: Hub, router: string, scope: Scope, revision: int, payload: Payload)
    ensures Push(h, router, scope, revision, payload).log == h.log
  {
  }

  lemma PollKeepsClosed(h: Hub, asking: string, now: int, limit: nat, id: nat)
    requires Closed(h, id)
    ensures var h' := Next(h, Poll(asking, now, limit)); Closed(h', id) && Times(h'.log, id) == Times(h.log, id)
  {
    hide Fetch, Times;
    var (q, selected) := Fetch(h.queue, asking, now, limit);
    FetchRows(h.queue, asking, now, limit);
    forall c | c in q && c.id == id ensures !c.Active() {
      var i :| 0 <= i < |q| && q[i] == c;
      assert h.queue[i] in h.queue;
    }
    TimesConcat(h.log, selected, id);
    forall c | c in selected ensures c.id != id {
      assert c in h.queue && Deliverable(c, asking, now);
    }
    TimesNone(selected, id);
  }

  lemma AckKeepsClosed(h: Hub, acks: map<nat, bool>, id: nat)
    requires Closed(h, id)
    ensures Closed(Next(h, Acknowledge(acks)), id)
  {
    var q := Ack(h.queue, acks);
    forall c | c in q && c.id == id ensures !c.Active() {
      var i :| 0 <= i < |q| && q[i] == c;
      assert h.queue[i] in h.queue;
    }
  }

  /** An acknowledged command is never handed out again, whatever happens later. */
  lemma {:induction false} AcknowledgedStays(h: Hub, acks: map<nat, bool>, id: nat, steps: seq<Step>)
    requires HubOk(h) && id in acks && id < h.nextId
    ensures var h' := Run(Next(h, Acknowledge(acks)), steps);
            HubOk(h') && Closed(h', id) && Times(h'.log, id) == Times(h.log, id)
  {
    hide Next, HubOk, Closed, Times;
    var first := Next(h, Acknowledge(acks));
    if steps == [] {
      NextKeepsHub(h, Acknowledge(acks));
      AckCloses(h, acks, id);
    } else {
      var init := steps[..|steps| - 1];
      AcknowledgedStays(h, acks, id, init);
      NextKeepsHub(Run(first, init), steps[|steps| - 1]);
      NextKeepsClosed(Run(first, init), steps[|steps| - 1], id);
    }
  }

  lemma AckCloses(h: Hub, acks: map<nat, bool>, id: nat)
    requires id in acks && id < h.nextId
    ensures var h' := Next(h, Acknowledge(acks)); Closed(h', id) && h'.log == h.log
  {
  }
}
