/** WireGuard configuration commands fenced by revisions (wireguard_service.py). */
module WireGuard {
  import opened Wrappers

  /** `endpoints` maps each endpoint profile to its revision; `settings` is the rest. */
  datatype Server = Server(settings: string, endpoints: map<string, nat>)

  datatype Document = Document(revision: nat, server: Option<Server>, tombstone: bool)

  datatype Status = Pending | Delivered | Done | Failed

  /** Rows written by older versions have no scope. */
  datatype Scope = ServerScope | EndpointScope(profile: string) | Unscoped

  datatype Payload = Apply(server: Server) | Remove | SetEndpoint(profile: string, endpoint: string)

  datatype Command = Command(id: nat, router: string, scope: Scope, revision: int, payload: Payload,
                             status: Status, attempts: nat, deliveredAt: int)
  {
    predicate Active() { status == Pending || status == Delivered }
    predicate In(r: string, s: Scope) { router == r && scope == s }
  }

  type Queue = seq<Command>

  const MAX_COMMANDS := 500
  const MAX_ATTEMPTS := 5
  const RETRY_AFTER := 15

  // ----------------------------------------------------------------- queueing

  predicate Superseded(c: Command, router: string, scope: Scope, revision: int) {
    (c.In(router, scope) || c.In(router, Unscoped)) && c.revision <= revision && c.Active()
  }

  function Kept(q: Queue, router: string, scope: Scope, revision: int): Queue {
    if q == [] then []
    else
      var rest := Kept(q[..|q| - 1], router, scope, revision);
      if Superseded(q[|q| - 1], router, scope, revision) then rest else rest + [q[|q| - 1]]
  }

  function Newest(q: Queue): Queue {
    if |q| > MAX_COMMANDS then q[|q| - MAX_COMMANDS..] else q
  }

  /** queue(): drop the active commands this one supersedes, append it, keep five hundred. */
  function Queued(q: Queue, router: string, scope: Scope, revision: int, payload: Payload, id: nat): Queue {
    Newest(Kept(q, router, scope, revision) + [Command(id, router, scope, revision, payload, Pending, 0, 0)])
  }

  // ----------------------------------------------------------- delivery and ack

  predicate Deliverable(c: Command, router: string, now: int) {
    c.router == router
    && (c.status == Pending || (c.status == Delivered && now - c.deliveredAt >= RETRY_AFTER && c.attempts < MAX_ATTEMPTS))
  }

  function Deliver(c: Command, now: int): Command {
    c.(status := Delivered, deliveredAt := now, attempts := c.attempts + 1)
  }

  function Fetch(q: Queue, router: string, now: int, limit: nat): (r: (Queue, seq<Command>)) {
    if q == [] || limit == 0 then (q, [])
    else
      var take := Deliverable(q[0], router, now);
      var (rest, selected) := Fetch(q[1..], router, now, if take then limit - 1 else limit);
      if take then ([Deliver(q[0], now)] + rest, [q[0]] + selected) else ([q[0]] + rest, selected)
  }

  function Ack(q: Queue, acks: map<nat, bool>): Queue {
    seq(|q|, i requires 0 <= i < |q| =>
      if q[i].id in acks then q[i].(status := if acks[q[i].id] then Done else Failed) else q[i])
  }

  // --------------------------------------------------------------------- state

  /** `log` is everything handed to routers, oldest first. */
  datatype Hub = Hub(router: string, document: Document, queue: Queue, nextId: nat, log: seq<Command>)

  datatype Step =
    | Put(server: Server, expected: Option<int>)
    | Delete(expected: Option<int>)
    | UpdateEndpoint(profile: string, endpoint: string, expected: Option<int>)
    | Poll(asking: string, now: int, limit: nat)
    | Acknowledge(acks: map<nat, bool>)
    | Report(asking: string, revision: int)

  predicate Conflicts(expected: Option<int>, revision: nat) {
    expected.Some? && expected.value != revision
  }

  function Push(h: Hub, router: string, scope: Scope, revision: int, payload: Payload): Hub {
    h.(queue := Queued(h.queue, router, scope, revision, payload, h.nextId), nextId := h.nextId + 1)
  }

  /** What serving one request does; a refused request changes nothing. */
  function Next(h: Hub, step: Step): Hub {
    match step
    case Put(server, expected) =>
      if Conflicts(expected, h.document.revision) then h
      else
        var revision := h.document.revision + 1;
        Push(h.(document := Document(revision, Some(server), false)), h.router, ServerScope, revision, Apply(server))
    case Delete(expected) =>
      if Conflicts(expected, h.document.revision) then h
      else
        var revision := h.document.revision + 1;
        Push(h.(document := Document(revision, None, true)), h.router, ServerScope, revision, Remove)
    case UpdateEndpoint(profile, endpoint, expected) =>
      if h.document.server.None? || profile !in h.document.server.value.endpoints
         || expected != Some(h.document.server.value.endpoints[profile]) then h
      else
        var server := h.document.server.value;
        var revision := server.endpoints[profile] + 1;
        Push(h.(document := h.document.(server := Some(server.(endpoints := server.endpoints[profile := revision])))),
             h.router, EndpointScope(profile), revision, SetEndpoint(profile, endpoint))
    case Poll(asking, now, limit) =>
      var (queue, selected) := Fetch(h.queue, asking, now, limit);
      h.(queue := queue, log := h.log + selected)
    case Acknowledge(acks) => h.(queue := Ack(h.queue, acks))
    case Report(asking, revision) =>
      if revision >= h.document.revision then h
      else if h.document.server.Some? then Push(h, asking, ServerScope, h.document.revision, Apply(h.document.server.value))
      else if h.document.tombstone then Push(h, asking, ServerScope, h.document.revision, Remove)
      else h
  }

  function Run(h: Hub, steps: seq<Step>): Hub {
    if steps == [] then h else Next(Run(h, steps[..|steps| - 1]), steps[|steps| - 1])
  }

  function NewHub(router: string): Hub {
    Hub(router, Document(0, None, false), [], 0, [])
  }

  // ----------------------------------------------------------------- invariants

  ghost predicate UniqueIds(q: Queue) {
    forall i, j :: 0 <= i < j < |q| ==> q[i].id != q[j].id
  }

  ghost predicate IdsBelow(q: seq<Command>, next: nat) {
    forall c :: c in q ==> c.id < next
  }

  /** At most one active command of the scope for each router. */
  ghost predicate OneActive(q: Queue, scope: Scope) {
    forall i, j :: 0 <= i < j < |q| && q[i].Active() && q[j].Active() && q[i].scope == q[j].scope == scope ==>
      q[i].router != q[j].router
  }

  /** Nothing of server scope is newer than the document, and nothing still active is
      older than something its router was already handed. */
  ghost predicate Fenced(h: Hub) {
    && (forall c :: c in h.queue && c.scope == ServerScope ==> c.revision <= h.document.revision)
    && (forall l :: l in h.log && l.scope == ServerScope ==> l.revision <= h.document.revision)
    && (forall c, l :: c in h.queue && l in h.log && c.Active() && c.scope == l.scope == ServerScope && c.router == l.router ==>
          l.revision <= c.revision)
  }

  /** What each router is handed never steps back. */
  ghost predicate NeverBack(log: seq<Command>) {
    forall i, j :: 0 <= i < j < |log| && log[i].scope == log[j].scope == ServerScope && log[i].router == log[j].router ==>
      log[i].revision <= log[j].revision
  }

  function Times(log: seq<Command>, id: nat): nat {
    if log == [] then 0 else (if log[0].id == id then 1 else 0) + Times(log[1..], id)
  }

  /** Attempts count deliveries, and stop at five. */
  ghost predicate Counted(h: Hub) {
    && (forall c :: c in h.queue ==> Times(h.log, c.id) == c.attempts && c.attempts <= MAX_ATTEMPTS
                                     && (c.status == Pending ==> c.attempts == 0))
    && (forall id :: Times(h.log, id) <= MAX_ATTEMPTS)
  }

  ghost predicate HubOk(h: Hub) {
    && UniqueIds(h.queue) && IdsBelow(h.queue, h.nextId) && IdsBelow(h.log, h.nextId)
    && OneActive(h.queue, ServerScope) && Fenced(h) && NeverBack(h.log) && Counted(h)
  }

  // -------------------------------------------------------------- queueing lemmas

  lemma {:induction false} KeptFacts(q: Queue, router: string, scope: Scope, revision: int)
    ensures forall c :: c in Kept(q, router, scope, revision) <==> c in q && !Superseded(c, router, scope, revision)
    ensures UniqueIds(q) ==> UniqueIds(Kept(q, router, scope, revision))
    ensures forall s :: OneActive(q, s) ==> OneActive(Kept(q, router, scope, revision), s)
  {
    if q != [] {
      var init, c := q[..|q| - 1], q[|q| - 1];
      KeptFacts(init, router, scope, revision);
      KeptStep(init, c, router, scope, revision);
      assert q == init + [c];
    }
  }

  lemma KeptStep(init: Queue, c: Command, router: string, scope: Scope, revision: int)
    requires forall x :: x in Kept(init, router, scope, revision) <==> x in init && !Superseded(x, router, scope, revision)
    requires UniqueIds(init) ==> UniqueIds(Kept(init, router, scope, revision))
    requires forall s :: OneActive(init, s) ==> OneActive(Kept(init, router, scope, revision), s)
    ensures var kept := Kept(init + [c], router, scope, revision);
            && (forall x :: x in kept <==> x in init + [c] && !Superseded(x, router, scope, revision))
            && (UniqueIds(init + [c]) ==> UniqueIds(kept))
            && (forall s :: OneActive(init + [c], s) ==> OneActive(kept, s))
  {
    hide Superseded;
    var rest := Kept(init, router, scope, revision);
    assert (init + [c])[..|init|] == init;
    PrefixFacts(init, c);
    forall i | 0 <= i < |rest| ensures exists k :: 0 <= k < |init| && (init + [c])[k] == rest[i] {
      assert rest[i] in rest;
      var k :| 0 <= k < |init| && init[k] == rest[i];
      assert (init + [c])[k] == rest[i];
    }
  }

  lemma PrefixFacts(init: Queue, c: Command)
    ensures UniqueIds(init + [c]) ==> UniqueIds(init)
    ensures forall s :: OneActive(init + [c], s) ==> OneActive(init, s)
  {
    assert forall k :: 0 <= k < |init| ==> (init + [c])[k] == init[k];
  }

  lemma QueuedFacts(q: Queue, router: string, scope: Scope, revision: int, payload: Payload, id: nat)
    requires UniqueIds(q) && IdsBelow(q, id)
    ensures var q' := Queued(q, router, scope, revision, payload, id);
            && UniqueIds(q') && IdsBelow(q', id + 1)
            && (forall c :: c in q' ==> c == Command(id, router, scope, revision, payload, Pending, 0, 0)
                                        || (c in q && !Superseded(c, router, scope, revision)))
  {
    hide Superseded;
    KeptFacts(q, router, scope, revision);
    var kept := Kept(q, router, scope, revision);
    var full := kept + [Command(id, router, scope, revision, payload, Pending, 0, 0)];
    forall i | 0 <= i < |kept| ensures kept[i].id < id {
      assert kept[i] in kept;
    }
    assert forall c :: c in Newest(full) ==> c in full;
  }

  /** The old commands that are still there after queueing. */
  function Survivors(q: Queue, router: string, scope: Scope, revision: int): Queue {
    var kept := Kept(q, router, scope, revision);
    if |kept| >= MAX_COMMANDS then kept[|kept| - (MAX_COMMANDS - 1)..] else kept
  }

  /** Queueing leaves one active command of its scope if and only if no old command that
      survives it is active and newer: those are not superseded. */
  lemma QueuedOneActiveIff(q: Queue, router: string, scope: Scope, revision: int, payload: Payload, id: nat)
    requires OneActive(q, scope)
    ensures OneActive(Queued(q, router, scope, revision, payload, id), scope)
            <==> forall c :: c in Survivors(q, router, scope, revision) && c.In(router, scope) && c.Active() ==>
                c.revision <= revision
  {
    var kept, survived := Kept(q, router, scope, revision), Survivors(q, router, scope, revision);
    var added := Command(id, router, scope, revision, payload, Pending, 0, 0);
    KeptFacts(q, router, scope, revision);
    SuffixOneActive(kept, |kept| - |survived|, scope);
    assert forall c :: c in survived ==> c in kept;
    QueuedSurvivors(q, router, scope, revision, payload, id);
    AddedOneActive(survived, added, router, scope);
  }

  lemma QueuedSurvivors(q: Queue, router: string, scope: Scope, revision: int, payload: Payload, id: nat)
    ensures Queued(q, router, scope, revision, payload, id)
         == Survivors(q, router, scope, revision) + [Command(id, router, scope, revision, payload, Pending, 0, 0)]
  {
    hide Kept;
  }

  lemma SuffixOneActive(q: Queue, n: nat, scope: Scope)
    requires OneActive(q, scope) && n <= |q|
    ensures OneActive(q[n..], scope)
  {
    forall i, j | 0 <= i < j < |q[n..]| && q[n..][i].Active() && q[n..][j].Active() && q[n..][i].scope == q[n..][j].scope == scope
      ensures q[n..][i].router != q[n..][j].router
    {
      assert q[n..][i] == q[n + i] && q[n..][j] == q[n + j];
    }
  }

  lemma AddedOneActive(q: Queue, added: Command, router: string, scope: Scope)
    requires OneActive(q, scope) && added.In(router, scope) && added.Active()
    ensures OneActive(q + [added], scope) <==> forall c :: c in q ==> !(c.In(router, scope) && c.Active())
  {
    var all := q + [added];
    forall i | 0 <= i < |q| ensures all[i] == q[i] && q[i] in q {
    }
    if c :| c in q && c.In(router, scope) && c.Active() {
      var i :| 0 <= i < |q| && q[i] == c;
      assert all[i].router == all[|q|].router && all[|q|].Active();
    }
  }

  /** ... whatever the queue length, when none is newer; and other scopes are untouched. */
  lemma QueuedOneActive(q: Queue, router: string, scope: Scope, revision: int, payload: Payload, id: nat, s: Scope)
    requires OneActive(q, s)
    requires s == scope ==> forall c :: c in q && c.In(router, scope) && c.Active() ==> c.revision <= revision
    ensures OneActive(Queued(q, router, scope, revision, payload, id), s)
  {
    KeptFacts(q, router, scope, revision);
    var kept := Kept(q, router, scope, revision);
    var full := kept + [Command(id, router, scope, revision, payload, Pending, 0, 0)];
    assert OneActive(full, s) by {
      forall i | 0 <= i < |kept| ensures full[i] == kept[i] && kept[i] in q && !Superseded(kept[i], router, scope, revision) {
        assert kept[i] in kept;
      }
    }
    assert |full| > MAX_COMMANDS ==> forall i :: 0 <= i < MAX_COMMANDS ==> Newest(full)[i] == full[|full| - MAX_COMMANDS + i];
  }

  // -------------------------------------------------------------- delivery lemmas

  /** Row by row: unchanged, or deliverable and now delivered once more. */
  lemma {:induction false} FetchRows(q: Queue, router: string, now: int, limit: nat)
    ensures var (q', selected) := Fetch(q, router, now, limit);
            && |q'| == |q|
            && (forall i :: 0 <= i < |q| ==> q'[i] == q[i] || (Deliverable(q[i], router, now) && q'[i] == Deliver(q[i], now)))
            && (forall c :: c in selected ==> c in q && Deliverable(c, router, now))
  {
    hide Deliverable, Deliver;
    if q != [] && limit > 0 {
      FetchRows(q[1..], router, now, if Deliverable(q[0], router, now) then limit - 1 else limit);
    }
  }

  /** Each row's attempts grow by how often it was selected. */
  lemma {:induction false} FetchCounts(q: Queue, router: string, now: int, limit: nat, id: nat)
    requires UniqueIds(q)
    ensures var (q', selected) := Fetch(q, router, now, limit);
            && |q'| == |q|
            && (forall i :: 0 <= i < |q| && q[i].id == id ==> q'[i].attempts == q[i].attempts + Times(selected, id))
            && ((forall i :: 0 <= i < |q| ==> q[i].id != id) ==> Times(selected, id) == 0)
  {
    FetchRows(q, router, now, limit);
    if q != [] && limit > 0 {
      var take := Deliverable(q[0], router, now);
      var n := if take then limit - 1 else limit;
      FetchCounts(q[1..], router, now, n, id);
      var (rest, tail) := Fetch(q[1..], router, now, n);
      var (q', selected) := Fetch(q, router, now, limit);
      assert take ==> selected[1..] == tail;
      forall i | 0 <= i < |q| && q[i].id == id ensures q'[i].attempts == q[i].attempts + Times(selected, id) {
        if i > 0 {
          assert q[1..][i - 1] == q[i] && q'[i] == rest[i - 1];
          assert q[0].id != id;
        } else {
          forall k | 0 <= k < |q[1..]| ensures q[1..][k].id != id {
            assert q[1..][k] == q[k + 1];
          }
        }
      }
      if forall i :: 0 <= i < |q| ==> q[i].id != id {
        forall k | 0 <= k < |q[1..]| ensures q[1..][k].id != id {
          assert q[1..][k] == q[k + 1];
        }
      }
    }
  }

  /** One poll hands out at most one server command. */
  lemma {:induction false} FetchOneServer(q: Queue, router: string, now: int, limit: nat)
    requires OneActive(q, ServerScope)
    ensures var selected := Fetch(q, router, now, limit).1;
            forall i, j :: 0 <= i < j < |selected| ==> selected[i].scope != ServerScope || selected[j].scope != ServerScope
  {
    if q != [] && limit > 0 {
      var take := Deliverable(q[0], router, now);
      var n := if take then limit - 1 else limit;
      assert forall k :: 0 <= k < |q[1..]| ==> q[1..][k] == q[k + 1];
      FetchOneServer(q[1..], router, now, n);
      FetchRows(q[1..], router, now, n);
      var tail := Fetch(q[1..], router, now, n).1;
      if take && q[0].scope == ServerScope {
        forall c | c in tail ensures c.scope != ServerScope {
          var k :| 0 <= k < |q[1..]| && q[1..][k] == c;
          assert q[k + 1] == c && q[0].Active() && c.Active();
        }
      }
      forall i | 0 <= i < |tail| ensures tail[i] in tail {
      }
    }
  }

  lemma {:induction false} TimesConcat(a: seq<Command>, b: seq<Command>, id: nat)
    ensures Times(a + b, id) == Times(a, id) + Times(b, id)
  {
    if a == [] {
      assert a + b == b;
    } else {
      TimesConcat(a[1..], b, id);
      assert (a + b)[1..] == a[1..] + b;
    }
  }

  lemma {:induction false} TimesNone(log: seq<Command>, id: nat)
    requires forall c :: c in log ==> c.id != id
    ensures Times(log, id) == 0
  {
    if log != [] {
      TimesNone(log[1..], id);
    }
  }

  // ------------------------------------------------------- every step keeps the hub

  lemma PushKeepsHub(h: Hub, router: string, revision: int, payload: Payload, scope: Scope)
    requires HubOk(h)
    requires scope == ServerScope ==> revision == h.document.revision
    ensures HubOk(Push(h, router, scope, revision, payload))
  {
    hide Superseded, Queued, UniqueIds, OneActive, Counted, NeverBack;
    QueuedFacts(h.queue, router, scope, revision, payload, h.nextId);
    QueuedOneActive(h.queue, router, scope, revision, payload, h.nextId, ServerScope);
    PushKeepsCounted(h, router, scope, revision, payload);
  }

  lemma PushKeepsCounted(h: Hub, router: string, scope: Scope, revision: int, payload: Payload)
    requires HubOk(h)
    ensures Counted(Push(h, router, scope, revision, payload))
  {
    hide Superseded, Queued, OneActive, NeverBack, Fenced;
    QueuedFacts(h.queue, router, scope, revision, payload, h.nextId);
    TimesNone(h.log, h.nextId);
  }

  /** A document may move ahead of its commands. */
  lemma NewerDocumentOk(h: Hub, document: Document)
    requires HubOk(h) && h.document.revision <= document.revision
    ensures HubOk(h.(document := document))
  {
    hide UniqueIds, OneActive, NeverBack, Times;
  }

  lemma PollKeepsHub(h: Hub, asking: string, now: int, limit: nat)
    requires HubOk(h)
    ensures HubOk(Next(h, Poll(asking, now, limit)))
  {
    hide Fetch, Deliverable, Counted, Fenced, NeverBack;
    FetchRows(h.queue, asking, now, limit);
    PollKeepsOrder(h, asking, now, limit);
    PollKeepsCounted(h, asking, now, limit);
    PollKeepsRows(h.queue, asking, now, limit, h.nextId);
  }

  lemma PollKeepsRows(q: Queue, asking: string, now: int, limit: nat, next: nat)
    requires UniqueIds(q) && IdsBelow(q, next) && OneActive(q, ServerScope)
    ensures var (q', selected) := Fetch(q, asking, now, limit);
            UniqueIds(q') && IdsBelow(q', next) && IdsBelow(selected, next) && OneActive(q', ServerScope)
  {
    hide Fetch;
    FetchRows(q, asking, now, limit);
    var q' := Fetch(q, asking, now, limit).0;
    forall i | 0 <= i < |q'| ensures q'[i].id == q[i].id < next {
      assert q[i] in q;
    }
    assert forall i :: 0 <= i < |q| ==> (q'[i].Active() <==> q[i].Active());
  }

  lemma PollKeepsCounted(h: Hub, asking: string, now: int, limit: nat)
    requires HubOk(h)
    ensures Counted(Next(h, Poll(asking, now, limit)))
  {
    hide Fetch, Fenced, NeverBack, OneActive, Times;
    var (q', selected) := Fetch(h.queue, asking, now, limit);
    FetchRows(h.queue, asking, now, limit);
    forall id: nat ensures Times(h.log + selected, id) == Times(h.log, id) + Times(selected, id) {
      TimesConcat(h.log, selected, id);
    }
    forall c | c in q'
      ensures Times(h.log + selected, c.id) == c.attempts && c.attempts <= MAX_ATTEMPTS
      ensures c.status == Pending ==> c.attempts == 0
    {
      var i :| 0 <= i < |q'| && q'[i] == c;
      assert h.queue[i] in h.queue;
      FetchCounts(h.queue, asking, now, limit, c.id);
    }
    forall id: nat ensures Times(h.log + selected, id) <= MAX_ATTEMPTS {
      FetchCounts(h.queue, asking, now, limit, id);
      if i :| 0 <= i < |h.queue| && h.queue[i].id == id {
        assert q'[i] in q';
      }
    }
  }

  /** Every row after a poll is a row before it, up to its delivery marks. */
  lemma FetchOrigins(q: Queue, router: string, now: int, limit: nat)
    ensures forall c :: c in Fetch(q, router, now, limit).0 ==>
      exists x :: x in q && x.scope == c.scope && x.revision == c.revision && x.router == c.router && (c.Active() ==> x.Active())
  {
    hide Fetch;
    FetchRows(q, router, now, limit);
    var q' := Fetch(q, router, now, limit).0;
    forall c | c in q'
      ensures exists x ::
              && x in q && x.scope == c.scope && x.revision == c.revision && x.router == c.router
              && (c.Active() ==> x.Active())
    {
      var i :| 0 <= i < |q'| && q'[i] == c;
      assert q[i] in q;
    }
  }

  lemma PollKeepsOrder(h: Hub, asking: string, now: int, limit: nat)
    requires HubOk(h)
    ensures var h' := Next(h, Poll(asking, now, limit)); Fenced(h') && NeverBack(h'.log)
  {
    hide Fetch, Counted, UniqueIds, NeverBack, Deliverable, OneActive, IdsBelow;
    var (q', selected) := Fetch(h.queue, asking, now, limit);
    FetchRows(h.queue, asking, now, limit);
    FetchOneServer(h.queue, asking, now, limit);
    FetchOrigins(h.queue, asking, now, limit);
    OneServerRevision(h.queue, asking, now, selected);
    LogGrows(h, asking, now, selected);
  }

  /** A selected server command is the only active one of its router. */
  lemma OneServerRevision(q: Queue, asking: string, now: int, selected: seq<Command>)
    requires OneActive(q, ServerScope) && forall c :: c in selected ==> c in q && Deliverable(c, asking, now)
    ensures forall l, x :: l in selected && x in q && x.Active() && l.scope == x.scope == ServerScope && l.router == x.router ==>
              l.revision == x.revision
  {
    forall l, x | l in selected && x in q && x.Active() && l.scope == x.scope == ServerScope && l.router == x.router
      ensures l.revision == x.revision
    {
      var i :| 0 <= i < |q| && q[i] == l;
      var j :| 0 <= j < |q| && q[j] == x;
      assert l.Active();
      assert i == j || i < j || j < i;
    }
  }

  lemma LogGrows(h: Hub, asking: string, now: int, selected: seq<Command>)
    requires NeverBack(h.log) && Fenced(h)
    requires forall c :: c in selected ==> c in h.queue && Deliverable(c, asking, now)
    requires forall i, j :: 0 <= i < j < |selected| ==> selected[i].scope != ServerScope || selected[j].scope != ServerScope
    ensures NeverBack(h.log + selected)
  {
    var log := h.log + selected;
    forall i, j | 0 <= i < j < |log| && log[i].scope == log[j].scope == ServerScope && log[i].router == log[j].router
      ensures log[i].revision <= log[j].revision
    {
      if j >= |h.log| {
        assert log[j] == selected[j - |h.log|] && log[j] in selected;
        if i < |h.log| {
          assert log[i] in h.log && log[j].Active();
        }
      }
    }
  }

  lemma AckKeepsRows(q: Queue, acks: map<nat, bool>, next: nat)
    requires UniqueIds(q) && IdsBelow(q, next) && OneActive(q, ServerScope)
    ensures var q' := Ack(q, acks); UniqueIds(q') && IdsBelow(q', next) && OneActive(q', ServerScope)
  {
    var q' := Ack(q, acks);
    forall i | 0 <= i < |q| ensures q'[i].id == q[i].id < next && (q'[i].Active() ==> q[i].Active()) {
      assert q[i] in q;
    }
  }

  predicate Descends(c: Command, x: Command) {
    && x.id == c.id && x.scope == c.scope && x.router == c.router && x.revision == c.revision && x.attempts == c.attempts
    && (c.Active() ==> x.Active()) && (c.status == Pending ==> x.status == Pending)
  }

  /** Every acknowledged row is a row that was there, no more active than before. */
  lemma AckOrigins(q: Queue, acks: map<nat, bool>)
    ensures forall c :: c in Ack(q, acks) ==>
      exists x :: x in q && Descends(c, x)
  {
    var q' := Ack(q, acks);
    forall c | c in q'
      ensures exists x :: x in q && Descends(c, x)
    {
      var i :| 0 <= i < |q'| && q'[i] == c;
      assert q[i] in q;
    }
  }

  lemma AckKeepsHub(h: Hub, acks: map<nat, bool>)
    requires HubOk(h)
    ensures HubOk(h.(queue := Ack(h.queue, acks)))
  {
    hide Times, NeverBack, Ack, UniqueIds, IdsBelow, OneActive;
    AckKeepsRows(h.queue, acks, h.nextId);
    AckOrigins(h.queue, acks);
  }

  lemma NextKeepsHub(h: Hub, step: Step)
    requires HubOk(h)
    ensures HubOk(Next(h, step)) && h.document.revision <= Next(h, step).document.revision
  {
    hide HubOk, Push, Fetch, Ack;
    match step
    case Put(server, expected) =>
      var d := Document(h.document.revision + 1, Some(server), false);
      NewerDocumentOk(h, d);
      PushKeepsHub(h.(document := d), h.router, d.revision, Apply(server), ServerScope);
      PushDocument(h.(document := d), h.router, ServerScope, d.revision, Apply(server));
    case Delete(expected) =>
      var d := Document(h.document.revision + 1, None, true);
      NewerDocumentOk(h, d);
      PushKeepsHub(h.(document := d), h.router, d.revision, Remove, ServerScope);
      PushDocument(h.(document := d), h.router, ServerScope, d.revision, Remove);
    case UpdateEndpoint(profile, endpoint, expected) =>
      EndpointKeepsHub(h, profile, endpoint, expected);
    case Poll(asking, now, limit) => PollKeepsHub(h, asking, now, limit);
    case Acknowledge(acks) => AckKeepsHub(h, acks);
    case Report(asking, revision) =>
      var payload := if h.document.server.Some? then Apply(h.document.server.value) else Remove;
      PushKeepsHub(h, asking, h.document.revision, payload, ServerScope);
      PushDocument(h, asking, ServerScope, h.document.revision, payload);
  }

  lemma PushDocument(h: Hub, router: string, scope: Scope, revision: int, payload: Payload)
    ensures Push(h, router, scope, revision, payload).document == h.document
  {
  }

  lemma EndpointKeepsHub(h: Hub, profile: string, endpoint: string, expected: Option<int>)
    requires HubOk(h)
    ensures var h' := Next(h, UpdateEndpoint(profile, endpoint, expected));
            HubOk(h') && h'.document.revision == h.document.revision
  {
    hide HubOk, Queued;
    if h.document.server.Some? && profile in h.document.server.value.endpoints {
      var server := h.document.server.value;
      var revision := server.endpoints[profile] + 1;
      var d := h.document.(server := Some(server.(endpoints := server.endpoints[profile := revision])));
      NewerDocumentOk(h, d);
      PushKeepsHub(h.(document := d), h.router, revision, SetEndpoint(profile, endpoint), EndpointScope(profile));
    }
  }

  // --------------------------------------------------------------- main theorems

  /** Over every run: one active server command per router, revisions handed to a router
      never step back, and no command is delivered more than five times. */
  lemma {:induction false} RunKeepsHub(router: string, steps: seq<Step>)
    ensures HubOk(Run(NewHub(router), steps))
  {
    hide Next;
    if steps != [] {
      RunKeepsHub(router, steps[..|steps| - 1]);
      NextKeepsHub(Run(NewHub(router), steps[..|steps| - 1]), steps[|steps| - 1]);
    }
  }

  predicate Writes(step: Step) {
    step.Put? || step.Delete?
  }

  /** A put or delete that names the revision it expects succeeds only at that revision. */
  predicate Succeeds(h: Hub, step: Step) {
    Writes(step) && !Conflicts(step.expected, h.document.revision)
  }

  lemma {:induction false} RevisionGrows(h: Hub, steps: seq<Step>, i: nat, j: nat)
    requires HubOk(h) && i <= j <= |steps|
    ensures HubOk(Run(h, steps[..j])) && Run(h, steps[..i]).document.revision <= Run(h, steps[..j]).document.revision
    decreases j
  {
    hide Next, HubOk;
    if j > 0 {
      assert steps[..j][..j - 1] == steps[..j - 1];
      RevisionGrows(h, steps, if i < j then i else j - 1, j - 1);
      NextKeepsHub(Run(h, steps[..j - 1]), steps[j - 1]);
    }
  }

  /** Of two writes expecting the same revision at most one succeeds, however far apart. */
  lemma OneWritePerRevision(h: Hub, steps: seq<Step>, i: nat, j: nat, revision: int)
    requires HubOk(h) && i < j < |steps| && Writes(steps[i]) && Writes(steps[j])
    requires steps[i].expected == steps[j].expected == Some(revision)
    ensures !(Succeeds(Run(h, steps[..i]), steps[i]) && Succeeds(Run(h, steps[..j]), steps[j]))
  {
    hide HubOk, Push;
    var before := Run(h, steps[..i]);
    assert steps[..i + 1][..i] == steps[..i];
    RevisionGrows(h, steps, i + 1, j);
    if Succeeds(before, steps[i]) {
      SuccessAdvances(before, steps[i]);
    }
  }

  lemma SuccessAdvances(h: Hub, step: Step)
    requires Succeeds(h, step)
    ensures Next(h, step).document.revision == h.document.revision + 1
  {
  }

  // ------------------------------------------------------------- endpoint commands

  /** An endpoint update leaves one active command of its profile exactly when no command
      that survives it is active above the profile's next revision. */
  lemma EndpointOneActiveIff(h: Hub, profile: string, endpoint: string)
    requires h.document.server.Some? && profile in h.document.server.value.endpoints
    requires OneActive(h.queue, EndpointScope(profile))
    ensures var revision, scope := h.document.server.value.endpoints[profile], EndpointScope(profile);
            OneActive(Next(h, UpdateEndpoint(profile, endpoint, Some(revision))).queue, scope)
            <==> forall c :: c in Survivors(h.queue, h.router, scope, revision + 1) && c.In(h.router, scope) && c.Active() ==>
                   c.revision <= revision + 1
  {
    hide Queued, Survivors;
    var revision := h.document.server.value.endpoints[profile];
    QueuedOneActiveIff(h.queue, h.router, EndpointScope(profile), revision + 1, SetEndpoint(profile, endpoint), h.nextId);
  }

  /** The guard can fail: a put may carry a lower endpoint revision, and then two endpoint
      commands of one profile are active at once. */
  lemma LoweredEndpointRevision(router: string)
    ensures var high, low := Server("", map["e" := 7]), Server("", map["e" := 0]);
            var steps := [Put(high, None), UpdateEndpoint("e", "a", Some(7)), Put(low, None), UpdateEndpoint("e", "b", Some(0))];
            !OneActive(Run(NewHub(router), steps).queue, EndpointScope("e"))
  {
    hide Kept, Next, Run;
    var high, low := Server("", map["e" := 7]), Server("", map["e" := 0]);
    RunFour(NewHub(router), Put(high, None), UpdateEndpoint("e", "a", Some(7)), Put(low, None),
        UpdateEndpoint("e", "b", Some(0)));
    var c1 := Command(0, router, ServerScope, 1, Apply(high), Pending, 0, 0);
    var c2 := Command(1, router, EndpointScope("e"), 8, SetEndpoint("e", "a"), Pending, 0, 0);
    var c3 := Command(2, router, ServerScope, 2, Apply(low), Pending, 0, 0);
    var c4 := Command(3, router, EndpointScope("e"), 1, SetEndpoint("e", "b"), Pending, 0, 0);
    KeptSmall(c1, c2, c3, router);
    PutQueues(NewHub(router), high, [], c1);
    var h1 := Next(NewHub(router), Put(high, None));
    assert h1.queue == [c1];
    EndpointQueues(h1, "e", "a", 7, [c1], c2);
    var h2 := Next(h1, UpdateEndpoint("e", "a", Some(7)));
    assert h2.queue == [c1, c2];
    PutQueues(h2, low, [c2], c3);
    var h3 := Next(h2, Put(low, None));
    assert h3.queue == [c2, c3];
    EndpointQueues(h3, "e", "b", 0, [c2, c3], c4);
    var q := Next(h3, UpdateEndpoint("e", "b", Some(0))).queue;
    assert q == [c2, c3] + [c4] && q[0] == c2 && q[2] == c4;
  }

  lemma RunFour(h: Hub, a: Step, b: Step, c: Step, d: Step)
    ensures Run(h, [a, b, c, d]) == Next(Next(Next(Next(h, a), b), c), d)
  {
    hide Next;
    assert [a, b, c, d][..3] == [a, b, c] && [a, b, c][..2] == [a, b] && [a, b][..1] == [a] && [a][..0] == [];
    assert Run(h, [a]) == Next(h, a);
    assert Run(h, [a, b]) == Next(Next(h, a), b);
  }

  lemma PutQueues(h: Hub, server: Server, kept: Queue, c: Command)
    requires Kept(h.queue, h.router, ServerScope, h.document.revision + 1) == kept && |kept| < MAX_COMMANDS
    requires c == Command(h.nextId, h.router, ServerScope, h.document.revision + 1, Apply(server), Pending, 0, 0)
    ensures Next(h, Put(server, None))
            == Hub(h.router, Document(h.document.revision + 1, Some(server), false), kept + [c], h.nextId + 1, h.log)
  {
    hide Kept;
  }

  lemma EndpointQueues(h: Hub, profile: string, endpoint: string, revision: nat, kept: Queue, c: Command)
    requires h.document.server.Some? && h.document.server.value.endpoints == map[profile := revision]
    requires Kept(h.queue, h.router, EndpointScope(profile), revision + 1) == kept && |kept| < MAX_COMMANDS
    requires c == Command(h.nextId, h.router, EndpointScope(profile), revision + 1, SetEndpoint(profile, endpoint), Pending, 0, 0)
    ensures var h' := Next(h, UpdateEndpoint(profile, endpoint, Some(revision)));
            && h'.queue == kept + [c] && h'.nextId == h.nextId + 1
            && h'.router == h.router && h'.document.revision == h.document.revision
  {
    hide Kept;
  }

  lemma KeptSmall(c1: Command, c2: Command, c3: Command, router: string)
    requires c1.In(router, ServerScope) && c1.revision == 1 && c1.Active()
    requires c2.In(router, EndpointScope("e")) && c2.revision == 8
    requires c3.In(router, ServerScope)
    ensures Kept([], router, ServerScope, 1) == []
    ensures Kept([c1], router, EndpointScope("e"), 8) == [c1]
    ensures Kept([c1, c2], router, ServerScope, 2) == [c2]
    ensures Kept([c2, c3], router, EndpointScope("e"), 1) == [c2, c3]
  {
    assert [c1, c2][..1] == [c1] && [c2, c3][..1] == [c2] && [c1][..0] == [] && [c2][..0] == [];
    assert Kept([], router, EndpointScope("e"), 8) == [];
    assert Kept([], router, EndpointScope("e"), 1) == [];
    assert Kept([c2], router, EndpointScope("e"), 1) == [c2];
    assert Kept([c1], router, ServerScope, 2) == [];
  }
}
