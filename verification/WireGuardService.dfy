/** The WireGuard document and command rows, updated in place (wireguard_service.py). */
module WireGuardService {
  import opened WireGuard
  import PagedFetch
  import opened Wrappers

  function Due(router: string, now: int): Command -> bool {
    c => Deliverable(c, router, now)
  }

  function Mark(now: int): Command -> Command {
    c => Deliver(c, now)
  }

  lemma {:induction false} FetchIsPaged(q: Queue, router: string, now: int, limit: nat)
    ensures Fetch(q, router, now, limit) == PagedFetch.Fetch(q, Due(router, now), Mark(now), limit)
  {
    hide Deliverable, Deliver;
    if q != [] && limit > 0 {
      FetchIsPaged(q[1..], router, now, if Deliverable(q[0], router, now) then limit - 1 else limit);
    }
  }

  class WireGuardService {
    const router: string
    var document: Document
    var rows: Queue
    var nextId: nat
    ghost var handed: seq<Command>

    ghost function State(): Hub
      reads this
    {
      Hub(router, document, rows, nextId, handed)
    }

    ghost predicate Valid()
      reads this
    {
      HubOk(State())
    }

    constructor (router: string)
      ensures Valid() && State() == NewHub(router)
    {
      this.router := router;
      document, rows, nextId, handed := Document(0, None, false), [], 0, [];
    }

    /** The rows a new command does not supersede. */
    method Unsuperseded(target: string, scope: Scope, revision: int) returns (kept: Queue)
      ensures kept == Kept(rows, target, scope, revision)
    {
      hide Superseded;
      kept := [];
      for i := 0 to |rows|
        invariant kept == Kept(rows[..i], target, scope, revision)
      {
        var c := rows[i];
        assert rows[..i + 1][..i] == rows[..i];
        SupersededMeans(c, target, scope, revision);
        if !(c.router == target && c.scope in {Unscoped, scope} && c.revision <= revision && c.Active()) {
          kept := kept + [c];
        }
      }
      assert rows[..|rows|] == rows;
    }

    /** queue(): a new command replaces the active ones it supersedes. */
    method QueueCommand(target: string, scope: Scope, revision: int, payload: Payload)
      modifies `rows, `nextId
      ensures State() == Push(old(State()), target, scope, revision, payload)
    {
      hide Kept;
      var kept := Unsuperseded(target, scope, revision);
      kept := kept + [Command(nextId, target, scope, revision, payload, Pending, 0, 0)];
      rows := if |kept| > MAX_COMMANDS then kept[|kept| - MAX_COMMANDS..] else kept;
      nextId := nextId + 1;
    }

    method Put(server: Server, expected: Option<int>) returns (ok: bool)
      requires Valid()
      modifies this
      ensures Valid() && State() == Next(old(State()), WireGuard.Put(server, expected))
      ensures ok == Succeeds(old(State()), WireGuard.Put(server, expected))
      ensures ok ==> document == Document(old(document).revision + 1, Some(server), false)
    {
      hide HubOk, Push;
      NextKeepsHub(State(), WireGuard.Put(server, expected));
      if expected.Some? && expected.value != document.revision {
        return false;
      }
      var revision := document.revision + 1;
      document := Document(revision, Some(server), false);
      QueueCommand(router, ServerScope, revision, Apply(server));
      PushDocument(Hub(router, document, old(rows), old(nextId), handed), router, ServerScope, revision, Apply(server));
      ok := true;
    }

    method Delete(expected: Option<int>) returns (ok: bool)
      requires Valid()
      modifies this
      ensures Valid() && State() == Next(old(State()), WireGuard.Delete(expected))
      ensures ok == Succeeds(old(State()), WireGuard.Delete(expected))
    {
      hide HubOk, Push;
      NextKeepsHub(State(), WireGuard.Delete(expected));
      if expected.Some? && expected.value != document.revision {
        return false;
      }
      var revision := document.revision + 1;
      document := Document(revision, None, true);
      QueueCommand(router, ServerScope, revision, Remove);
      ok := true;
    }

    /** The owner of a DDNS or STUN profile publishes its endpoint. */
    method UpdateEndpoint(profile: string, endpoint: string, expected: Option<int>) returns (ok: bool)
      requires Valid()
      modifies this
      ensures Valid() && State() == Next(old(State()), WireGuard.UpdateEndpoint(profile, endpoint, expected))
      ensures ok ==> document.revision == old(document).revision && document.server.Some?
                     && profile in document.server.value.endpoints
                     && expected.Some? && document.server.value.endpoints[profile] == expected.value + 1
    {
      hide HubOk, Push;
      NextKeepsHub(State(), WireGuard.UpdateEndpoint(profile, endpoint, expected));
      if document.server.None? || profile !in document.server.value.endpoints || expected.None?
         || expected.value != document.server.value.endpoints[profile] {
        return false;
      }
      var server := document.server.value;
      var revision := server.endpoints[profile] + 1;
      document := document.(server := Some(server.(endpoints := server.endpoints[profile := revision])));
      QueueCommand(router, EndpointScope(profile), revision, SetEndpoint(profile, endpoint));
      PushDocument(Hub(router, document, old(rows), old(nextId), handed), router, EndpointScope(profile), revision,
          SetEndpoint(profile, endpoint));
      ok := true;
    }

    /** The agent polls: the first deliverable rows are marked delivered in place. */
    method Poll(asking: string, now: int, limit: nat) returns (selected: seq<Command>)
      requires Valid() && limit > 0
      modifies `rows, `handed
      ensures Valid() && State() == Next(old(State()), WireGuard.Poll(asking, now, limit))
      ensures handed == old(handed) + selected
      ensures forall c, l :: c in selected && l in old(handed) && c.scope == l.scope == ServerScope && c.router == l.router ==>
                l.revision <= c.revision
    {
      hide HubOk, Deliver, PagedFetch.SoFar, PagedFetch.Fetch;
      NextKeepsHub(State(), WireGuard.Poll(asking, now, limit));
      var q := rows;
      var due, mark := Due(asking, now), Mark(now);
      PagedFetch.Starts(q, due, mark, limit);
      selected := [];
      var i := 0;
      while i < |q| && |selected| < limit
        invariant 0 <= i <= |q| == |rows| && |selected| <= limit && handed == old(handed)
        invariant rows[i..] == q[i..]
        invariant PagedFetch.SoFar(q, due, mark, limit, i, rows[..i], selected)
      {
        PagedFetch.Advances(q, due, mark, limit, i, rows[..i], selected);
        var c := q[i];
        if c.router == asking
           && (c.status == Pending
               || (c.status == Delivered && now - c.deliveredAt >= RETRY_AFTER && c.attempts < MAX_ATTEMPTS)) {
          assert rows[i := Deliver(c, now)][..i + 1] == rows[..i] + [Deliver(c, now)];
          rows := rows[i := Deliver(c, now)];
          selected := selected + [c];
        } else {
          assert rows[i] == rows[i..][0] == q[i..][0];
          assert rows[..i + 1] == rows[..i] + [q[i]];
        }
        i := i + 1;
      }
      PagedFetch.Ends(q, due, mark, limit, i, rows, selected);
      FetchIsPaged(q, asking, now, limit);
      FetchRows(q, asking, now, limit);
      handed := handed + selected;
      HandedAfter(old(State()), State(), selected);
    }

    method Acknowledge(acks: map<nat, bool>)
      requires Valid()
      modifies `rows
      ensures Valid() && State() == Next(old(State()), WireGuard.Acknowledge(acks))
    {
      hide HubOk;
      NextKeepsHub(State(), WireGuard.Acknowledge(acks));
      ghost var q := rows;
      for i := 0 to |rows|
        invariant |rows| == |q| && handed == old(handed)
        invariant forall k :: 0 <= k < |q| ==> rows[k] == if k < i then Ack(q, acks)[k] else q[k]
      {
        if rows[i].id in acks {
          rows := rows[i := rows[i].(status := if acks[rows[i].id] then Done else Failed)];
        }
      }
      assert rows == Ack(q, acks);
    }

    /** A status report behind the document queues the document again, for its sender. */
    method Report(asking: string, revision: int)
      requires Valid()
      modifies `rows, `nextId
      ensures Valid() && State() == Next(old(State()), WireGuard.Report(asking, revision))
    {
      hide HubOk, Push;
      NextKeepsHub(State(), WireGuard.Report(asking, revision));
      if revision < document.revision {
        if document.server.Some? {
          QueueCommand(asking, ServerScope, document.revision, Apply(document.server.value));
        } else if document.tombstone {
          QueueCommand(asking, ServerScope, document.revision, Remove);
        }
      }
    }
  }

  lemma SupersededMeans(c: Command, router: string, scope: Scope, revision: int)
    ensures Superseded(c, router, scope, revision)
            <==> c.router == router && c.scope in {Unscoped, scope} && c.revision <= revision && c.Active()
  {
  }

  lemma HandedAfter(before: Hub, after: Hub, selected: seq<Command>)
    requires HubOk(before) && HubOk(after) && after.log == before.log + selected
    ensures forall c, l :: c in selected && l in before.log && c.scope == l.scope == ServerScope && c.router == l.router ==>
              l.revision <= c.revision
  {
    hide Counted, Fenced, OneActive, UniqueIds, IdsBelow;
    forall c, l | c in selected && l in before.log && c.scope == l.scope == ServerScope && c.router == l.router
      ensures l.revision <= c.revision
    {
      var i :| 0 <= i < |before.log| && before.log[i] == l;
      var j :| 0 <= j < |selected| && selected[j] == c;
      assert after.log[i] == l && after.log[|before.log| + j] == c;
    }
  }
}
