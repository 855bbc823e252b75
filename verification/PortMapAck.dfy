/** Requests that arrive between a delivery and its acknowledgement: hub.py's queue may
    revive the delivered command, and the acknowledgement finishes whatever it now says. */
module PortMapAck {
  import opened PortMapRules
  import opened PortMapSync
  import opened PortMapConvergence
  import opened PortMapHub

  datatype Request = Request(action: Action, router: string, now: int)

  /** The queue after the requests, whose commands are numbered from `id` on. */
  function QueueEach(q: Queue, requests: seq<Request>, id: nat): Queue {
    if requests == [] then q
    else
      var r := requests[|requests| - 1];
      Enqueue(QueueEach(q, requests[..|requests| - 1], id), r.action, r.router, r.now, id + |requests| - 1)
  }

  /** The request finds the command with this id and puts its own action there. */
  predicate Revives(q: Queue, r: Request, id: nat) {
    var kept := Newest(Expire(q, r.now));
    var i := LastMatch(kept, r.action, r.router);
    i >= 0 && kept[i].id == id
  }

  /** What the command says after the requests, and whether any of them revived it. */
  function Said(q: Queue, requests: seq<Request>, next: nat, c: Command): (r: (Action, bool)) {
    if requests == [] then (c.action, false)
    else
      var init, last := requests[..|requests| - 1], requests[|requests| - 1];
      if Revives(QueueEach(q, init, next), last, c.id) then (last.action, true) else Said(q, init, next, c)
  }

  ghost predicate RevivedIn(q: Queue, requests: seq<Request>, next: nat, id: nat) {
    exists k :: 0 <= k < |requests| && Revives(QueueEach(q, requests[..k], next), requests[k], id)
  }

  lemma {:induction false} SaidIsRevived(q: Queue, requests: seq<Request>, next: nat, c: Command)
    ensures Said(q, requests, next, c).1 <==> RevivedIn(q, requests, next, c.id)
  {
    hide Revives, QueueEach;
    if requests != [] {
      var n := |requests| - 1;
      var init := requests[..n];
      SaidIsRevived(q, init, next, c);
      forall k | 0 <= k < n
        ensures Revives(QueueEach(q, init[..k], next), init[k], c.id)
                <==> Revives(QueueEach(q, requests[..k], next), requests[k], c.id)
      {
        assert init[..k] == requests[..k];
      }
    }
  }

  lemma {:induction false} EachNumbered(q: Queue, requests: seq<Request>, next: nat)
    requires Numbered(q, next)
    ensures Numbered(QueueEach(q, requests, next), next + |requests|)
  {
    hide Numbered, Enqueue;
    if requests != [] {
      var init, r := requests[..|requests| - 1], requests[|requests| - 1];
      EachNumbered(q, init, next);
      EnqueueNumbered(QueueEach(q, init, next), r.action, r.router, r.now, next + |init|);
    }
  }

  /** One request: an older command is revived by it, or is as it was. */
  lemma RevivedOrSame(q: Queue, r: Request, id: nat, c: Command)
    requires Numbered(q, id) && c in Enqueue(q, r.action, r.router, r.now, id) && c.id < id
    ensures if Revives(q, r, c.id)
            then c.action == r.action && c.status == Pending
            else c in q
  {
    hide Expire, LastMatch, Matches;
    var kept := Newest(Expire(q, r.now));
    ExpireNumbered(q, r.now, id);
    ExpireKeeps(q, r.now, r.action, r.router);
    NewestKeeps(Expire(q, r.now), r.action, r.router);
    var i := LastMatch(kept, r.action, r.router);
    var after := Enqueue(q, r.action, r.router, r.now, id);
    var k :| 0 <= k < |after| && after[k] == c;
    if i >= 0 && k != i {
      assert kept[k] == c && kept[k] in kept;
      assert kept[k].id != kept[i].id;
    } else if i < 0 {
      assert kept[k] == c && kept[k] in kept;
    }
  }

  /** Whatever was requested in between: a delivered command still in the queue is as it
      was handed out if and only if no request revived it, and it says what the last
      request that revived it said. */
  lemma {:induction false} DeliveredIffUnrevived(q: Queue, requests: seq<Request>, next: nat, delivered: Command, c: Command)
    requires Numbered(q, next) && delivered in q && delivered.status == Delivered
    requires c in QueueEach(q, requests, next) && c.id == delivered.id
    ensures c == delivered <==> !RevivedIn(q, requests, next, c.id)
    ensures c.action == Said(q, requests, next, delivered).0
  {
    hide Enqueue, Revives, Numbered, RevivedIn;
    SaidIsRevived(q, requests, next, delivered);
    IdBelow(q, next, delivered);
    SaidOf(q, requests, next, delivered, c);
  }

  lemma IdBelow(q: Queue, next: nat, c: Command)
    requires Numbered(q, next) && c in q
    ensures c.id < next
  {
  }

  lemma OnlyOne(q: Queue, next: nat, a: Command, b: Command)
    requires Numbered(q, next) && a in q && b in q && a.id == b.id
    ensures a == b
  {
  }

  lemma {:induction false} SaidOf(q: Queue, requests: seq<Request>, next: nat, delivered: Command, c: Command)
    requires Numbered(q, next) && delivered in q && delivered.status == Delivered && delivered.id < next
    requires c in QueueEach(q, requests, next) && c.id == delivered.id
    ensures c.action == Said(q, requests, next, delivered).0
    ensures if Said(q, requests, next, delivered).1 then c.status == Pending else c == delivered
  {
    hide Enqueue, Revives, Numbered;
    if requests == [] {
      OnlyOne(q, next, c, delivered);
    } else {
      var init, r := requests[..|requests| - 1], requests[|requests| - 1];
      var before := QueueEach(q, init, next);
      EachNumbered(q, init, next);
      RevivedOrSame(before, r, next + |init|, c);
      if !Revives(before, r, c.id) {
        SaidOf(q, init, next, delivered, c);
      }
    }
  }

  /** So the acknowledgement finishes a command with the action its delivery handed out if
      and only if the last request that revived it, if any did, said the same. */
  lemma AcknowledgedIff(q: Queue, requests: seq<Request>, next: nat, delivered: Command, acks: map<nat, bool>, now: int, i: nat)
    requires Numbered(q, next) && delivered in q && delivered.status == Delivered && delivered.id in acks
    requires i < |QueueEach(q, requests, next)| && QueueEach(q, requests, next)[i].id == delivered.id
    ensures var done := Ack(QueueEach(q, requests, next), acks, now)[i];
            && !done.Active() && done.id == delivered.id
            && (done.action == delivered.action <==> Said(q, requests, next, delivered).0 == delivered.action)
  {
    hide QueueEach, Said, Numbered;
    DeliveredIffUnrevived(q, requests, next, delivered, QueueEach(q, requests, next)[i]);
  }

  /** The edit can be lost: an upsert is delivered, the rule is edited, and the first
      delivery is acknowledged. The agent has the old rule and nothing is left to deliver. */
  lemma EditIsLost(r: Rule, edited: Rule, agent: Agent, router: string, now: int, id: nat)
    requires edited.id == r.id && edited != r
    ensures var queued := Enqueue([], UpsertRule(r), router, now, id);
            var (sent, selected) := Fetch(queued, router, now, 1);
            var q := Ack(Enqueue(sent, UpsertRule(edited), router, now, id + 1), OkAcks(selected), now);
            var after := Drain(q, ExecuteAll(agent, selected), router, now).1;
            && |q| == 1 && q[0].action == UpsertRule(edited) && q[0].status == Done
            && r.id in after && after[r.id] == r
  {
    hide Enqueue, Fetch, Drain, Ack, OkAcks;
    var up := Command(id, router, UpsertRule(r), Pending, 0, 0, 0);
    var sent := Deliver(up, now);
    var revived := sent.(action := UpsertRule(edited), status := Pending);
    FirstQueued(UpsertRule(r), router, now, id);
    OneFetched(up, router, now);
    OneRevived(sent, UpsertRule(edited), router, now, id + 1);
    OneAcknowledged(up, revived, agent[r.id := r], router, now);
    assert ExecuteAll(agent, [up]) == agent[r.id := r];
  }

  lemma FirstQueued(a: Action, router: string, now: int, id: nat)
    ensures Enqueue([], a, router, now, id) == [Command(id, router, a, Pending, 0, 0, 0)]
  {
  }

  lemma OneFetched(c: Command, router: string, now: int)
    requires Deliverable(c, router, now)
    ensures Fetch([c], router, now, 1) == ([Deliver(c, now)], [c])
  {
    assert [c][1..] == [] && Fetch([], router, now, 0) == ([], []);
    assert [Deliver(c, now)] + [] == [Deliver(c, now)] && [c] + [] == [c];
  }

  lemma OneRevived(c: Command, a: Action, router: string, now: int, id: nat)
    requires Matches(c, a, router)
    ensures Enqueue([c], a, router, now, id) == [c.(action := a, status := Pending)]
  {
    hide Expire;
    ActiveStay([c], now);
    assert LastMatch([c], a, router) == 0;
  }

  lemma OneAcknowledged(sent: Command, c: Command, agent: Agent, router: string, now: int)
    requires c.id == sent.id
    ensures var q := Ack([c], OkAcks([sent]), now);
            q == [Finish(c, true, now)] && Drain(q, agent, router, now).1 == agent
  {
    assert sent in [sent] && OkAcks([sent]) == map[sent.id := true];
    var done := Finish(c, true, now);
    assert [done][1..] == [] && Drain([], agent, router, now) == ([], agent);
  }

  // ------------------------------------------------------ what is handed out and kept

  /** The router is owed the command: it never got it, or got it at least fifteen seconds
      ago, fewer than five times, and has not acknowledged it. */
  predicate Owed(c: Command, router: string, now: int) {
    c.router == router
    && (c.status == Pending || (c.status == Delivered && c.deliveredAt + 15 <= now && c.attempts < 5))
  }

  function OwedIn(q: Queue, router: string, now: int): Queue
    decreases |q|
  {
    if q == [] then []
    else (if Owed(q[0], router, now) then [q[0]] else []) + OwedIn(q[1..], router, now)
  }

  /** A poll hands out the commands the router is owed, in queue order, as many as it asks for. */
  lemma {:induction false} FetchHandsOut(q: Queue, router: string, now: int, limit: nat)
    ensures var owed := OwedIn(q, router, now);
            Fetch(q, router, now, limit).1 == if limit < |owed| then owed[..limit] else owed
    decreases |q|
  {
    if q != [] && limit > 0 {
      var take := Owed(q[0], router, now);
      assert take <==> Deliverable(q[0], router, now);
      FetchHandsOut(q[1..], router, now, if take then limit - 1 else limit);
    }
  }

  function Marked(c: Command, now: int): Command {
    Command(c.id, c.router, c.action, Delivered, c.attempts + 1, now, c.finishedAt)
  }

  /** ... and marks exactly those as sent now and once more, leaving the rest as it was. */
  lemma {:induction false} FetchMarksIff(q: Queue, router: string, now: int, limit: nat)
    ensures var after := Fetch(q, router, now, limit).0;
            |after| == |q|
            && forall i :: 0 <= i < |q| ==>
                 after[i] == if Owed(q[i], router, now) && |OwedIn(q[..i], router, now)| < limit then Marked(q[i], now) else q[i]
    decreases |q|
  {
    hide Owed, Deliverable;
    if q != [] && limit > 0 {
      var take := Owed(q[0], router, now);
      OwedIsDeliverable(q[0], router, now);
      FetchMarksIff(q[1..], router, now, if take then limit - 1 else limit);
      forall i | 0 < i < |q|
        ensures |OwedIn(q[..i], router, now)| == |OwedIn(q[1..][..i - 1], router, now)| + if take then 1 else 0
      {
        assert q[..i][1..] == q[1..][..i - 1];
      }
      assert forall i :: 0 < i < |q| ==> q[i] == q[1..][i - 1];
    }
  }

  lemma OwedIsDeliverable(c: Command, router: string, now: int)
    ensures Owed(c, router, now) <==> Deliverable(c, router, now)
  {
  }

  /** An acknowledgement settles exactly the commands it names, as done or failed, now. */
  lemma AckSettles(q: Queue, acks: map<nat, bool>, now: int)
    ensures var after := Ack(q, acks, now);
            |after| == |q|
            && forall i :: 0 <= i < |q| ==>
                 var c := q[i];
                 after[i] == if c.id !in acks then c
                             else Command(c.id, c.router, c.action, if acks[c.id] then Done else Failed,
                                          c.attempts, c.deliveredAt, now)
  {
  }

  /** Cleaning drops exactly the commands finished more than a day ago. */
  lemma {:induction false} ExpireDropsIff(q: Queue, now: int)
    ensures forall c :: c in Expire(q, now) <==>
              c in q && (c.status == Pending || c.status == Delivered || now - c.finishedAt <= 86400)
  {
    if q != [] {
      var init, last := q[..|q| - 1], q[|q| - 1];
      ExpireDropsIff(init, now);
      assert q == init + [last];
    }
  }
}
