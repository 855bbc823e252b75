/** Commands between Hub and the relay agent, and status-driven reconciliation
    (hub.py command queue, labrelay_sync_patch.py reconcile). */
module PortMapSync {
  import opened PortMapRules

  // ------------------------------------------------------------------ commands

  datatype Action = UpsertRule(rule: Rule) | StopRule(id: string) | DeleteRule(id: string) {
    function RuleId(): string {
      if UpsertRule? then rule.id else id
    }

    /** Same action name and same rule id: the queue's notion of "the same command". */
    predicate Same(other: Action) {
      RuleId() == other.RuleId()
      && (UpsertRule? <==> other.UpsertRule?) && (StopRule? <==> other.StopRule?)
    }
  }

  datatype Status = Pending | Delivered | Done | Failed

  datatype Command = Command(id: nat, router: string, action: Action, status: Status,
                             attempts: nat, deliveredAt: int, finishedAt: int) {
    predicate Active() { status == Pending || status == Delivered }
  }

  type Queue = seq<Command>

  const MAX_COMMANDS := 500
  const FINISHED_TTL := 86400
  const RETRY_AFTER := 15
  const MAX_ATTEMPTS := 5

  function Expire(q: Queue, now: int): Queue {
    if q == [] then []
    else
      var rest := Expire(q[..|q| - 1], now);
      var c := q[|q| - 1];
      if !c.Active() && now - c.finishedAt > FINISHED_TTL then rest else rest + [c]
  }

  function Newest(q: Queue): Queue {
    if |q| > MAX_COMMANDS then q[|q| - MAX_COMMANDS..] else q
  }

  predicate Matches(c: Command, a: Action, router: string) {
    c.router == router && c.Active() && c.action.Same(a)
  }

  /** Index of the last active command for the same thing, or -1. */
  function LastMatch(q: Queue, a: Action, router: string): (i: int)
    ensures -1 <= i < |q|
  {
    if q == [] then -1
    else if Matches(q[|q| - 1], a, router) then |q| - 1
    else LastMatch(q[..|q| - 1], a, router)
  }

  /** _queue_portmap_command: revive the same active command in place, or append. */
  function Enqueue(q: Queue, a: Action, router: string, now: int, id: nat): Queue {
    var kept := Newest(Expire(q, now));
    var i := LastMatch(kept, a, router);
    if i >= 0 then kept[i := kept[i].(action := a, status := Pending)]
    else kept + [Command(id, router, a, Pending, 0, 0, 0)]
  }

  // ------------------------------------------------------------ delivery and ack

  predicate Deliverable(c: Command, router: string, now: int) {
    c.router == router
    && (c.status == Pending
        || (c.status == Delivered && now - c.deliveredAt >= RETRY_AFTER && c.attempts < MAX_ATTEMPTS))
  }

  function Deliver(c: Command, now: int): Command {
    c.(status := Delivered, deliveredAt := now, attempts := c.attempts + 1)
  }

  /** GET commands: the first `limit` deliverable ones, in queue order. */
  function Fetch(q: Queue, router: string, now: int, limit: nat): (r: (Queue, seq<Command>)) {
    if q == [] || limit == 0 then (q, [])
    else if Deliverable(q[0], router, now) then
      var (rest, selected) := Fetch(q[1..], router, now, limit - 1);
      ([Deliver(q[0], now)] + rest, [q[0]] + selected)
    else
      var (rest, selected) := Fetch(q[1..], router, now, limit);
      ([q[0]] + rest, selected)
  }

  function Finish(c: Command, ok: bool, now: int): Command {
    c.(status := if ok then Done else Failed, finishedAt := now)
  }

  /** POST ack: every command an ack names is finished, whatever its status was. */
  function Ack(q: Queue, acks: map<nat, bool>, now: int): Queue {
    seq(|q|, i requires 0 <= i < |q| => if q[i].id in acks then Finish(q[i], acks[q[i].id], now) else q[i])
  }

  // ------------------------------------------------------------------ the agent

  type Agent = map<string, Rule>

  /** upsert stores the rule, stop switches a known rule off, delete forgets it. */
  function Execute(agent: Agent, a: Action): Agent {
    match a
    case UpsertRule(rule) => agent[rule.id := rule]
    case StopRule(id) => if id in agent then agent[id := agent[id].(enabled := false)] else agent
    case DeleteRule(id) => agent - {id}
  }

  function ExecuteAll(agent: Agent, commands: seq<Command>): Agent
    decreases |commands|
  {
    if commands == [] then agent else ExecuteAll(Execute(agent, commands[0].action), commands[1..])
  }

  function OkAcks(commands: seq<Command>): map<nat, bool> {
    map c | c in commands :: c.id := true
  }

  /** Fetch one page, execute it, acknowledge it. */
  function Page(q: Queue, agent: Agent, router: string, now: int, limit: nat): (r: (Queue, Agent)) {
    var (sent, selected) := Fetch(q, router, now, limit);
    (Ack(sent, OkAcks(selected), now), ExecuteAll(agent, selected))
  }

  /** Everything deliverable, executed and acknowledged in queue order. */
  function Drain(q: Queue, agent: Agent, router: string, now: int): (r: (Queue, Agent)) {
    if q == [] then ([], agent)
    else if Deliverable(q[0], router, now) then
      var (rest, after) := Drain(q[1..], Execute(agent, q[0].action), router, now);
      ([Finish(Deliver(q[0], now), true, now)] + rest, after)
    else
      var (rest, after) := Drain(q[1..], agent, router, now);
      ([q[0]] + rest, after)
  }

  ghost predicate UniqueIds(q: Queue) {
    forall i, j :: 0 <= i < j < |q| ==> q[i].id != q[j].id
  }

  // -------------------------------------------------------------- pages and drain

  lemma {:induction false} FetchIds(q: Queue, router: string, now: int, limit: nat)
    ensures var (sent, selected) := Fetch(q, router, now, limit);
            && |sent| == |q| && (forall i :: 0 <= i < |q| ==> sent[i].id == q[i].id)
            && (forall c :: c in selected ==> c in q)
  {
    if q != [] && limit > 0 {
      FetchIds(q[1..], router, now, if Deliverable(q[0], router, now) then limit - 1 else limit);
      var (sent, selected) := Fetch(q, router, now, limit);
      forall i | 0 <= i < |q| ensures sent[i].id == q[i].id {
        if i > 0 {
          assert q[i] == q[1..][i - 1];
        }
      }
    }
  }

  lemma AckHead(c: Command, rest: Queue, acks: map<nat, bool>, now: int)
    ensures Ack([c] + rest, acks, now) == [if c.id in acks then Finish(c, acks[c.id], now) else c] + Ack(rest, acks, now)
  {
  }

  lemma AckIrrelevant(rest: Queue, acks: map<nat, bool>, id: nat, now: int)
    requires forall i :: 0 <= i < |rest| ==> rest[i].id != id
    ensures Ack(rest, acks[id := true], now) == Ack(rest, acks, now)
  {
  }

  lemma OkAcksHead(c: Command, selected: seq<Command>)
    ensures OkAcks([c] + selected) == OkAcks(selected)[c.id := true]
  {
    assert forall x :: x in [c] + selected <==> x == c || x in selected;
  }

  function Handled(c: Command, router: string, now: int): Command {
    if Deliverable(c, router, now) then Finish(Deliver(c, now), true, now) else c
  }

  /** One page, command by command. */
  lemma PageHead(q: Queue, agent: Agent, router: string, now: int, limit: nat)
    requires UniqueIds(q) && q != [] && limit > 0
    ensures Deliverable(q[0], router, now) ==>
              var (rest, after) := Page(q[1..], Execute(agent, q[0].action), router, now, limit - 1);
              Page(q, agent, router, now, limit) == ([Handled(q[0], router, now)] + rest, after)
    ensures !Deliverable(q[0], router, now) ==>
              var (rest, after) := Page(q[1..], agent, router, now, limit);
              Page(q, agent, router, now, limit) == ([Handled(q[0], router, now)] + rest, after)
  {
    hide Deliverable, Ack, Execute;
    var c, tail := q[0], q[1..];
    var n := if Deliverable(c, router, now) then limit - 1 else limit;
    var (sent, selected) := Fetch(tail, router, now, n);
    SelectedIds(q, router, now, n);
    if Deliverable(c, router, now) {
      OkAcksHead(c, selected);
      AckIrrelevant(sent, OkAcks(selected), c.id, now);
      AckHead(Deliver(c, now), sent, OkAcks([c] + selected), now);
      assert ([c] + selected)[1..] == selected;
    } else {
      AckHead(c, sent, OkAcks(selected), now);
    }
  }

  lemma SelectedIds(q: Queue, router: string, now: int, n: nat)
    requires UniqueIds(q) && q != []
    ensures var (sent, selected) := Fetch(q[1..], router, now, n);
            q[0].id !in OkAcks(selected) && forall i :: 0 <= i < |sent| ==> sent[i].id != q[0].id
  {
    FetchIds(q[1..], router, now, n);
    forall i | 0 <= i < |q[1..]| ensures q[1..][i].id != q[0].id {
      assert q[1..][i] == q[i + 1];
    }
  }

  lemma NothingAcked(q: Queue, now: int)
    ensures Ack(q, map[], now) == q
  {
  }

  lemma EmptyPage(q: Queue, agent: Agent, router: string, now: int, limit: nat)
    requires q == [] || limit == 0
    ensures Page(q, agent, router, now, limit) == (q, agent)
  {
    assert OkAcks([]) == map[];
    NothingAcked(q, now);
  }

  lemma PageIds(q: Queue, agent: Agent, router: string, now: int, limit: nat)
    ensures var q' := Page(q, agent, router, now, limit).0;
            |q'| == |q| && forall i :: 0 <= i < |q| ==> q'[i].id == q[i].id
  {
    FetchIds(q, router, now, limit);
  }

  /** A page handled now changes nothing about what draining the queue now does. */
  lemma {:induction false} PageThenDrain(q: Queue, agent: Agent, router: string, now: int, limit: nat)
    requires UniqueIds(q)
    ensures var (q', agent') := Page(q, agent, router, now, limit);
            UniqueIds(q') && Drain(q', agent', router, now) == Drain(q, agent, router, now)
  {
    hide Execute, Page;
    if q == [] || limit == 0 {
      EmptyPage(q, agent, router, now, limit);
    } else {
      var c := q[0];
      var d := Deliverable(c, router, now);
      var first := if d then Execute(agent, c.action) else agent;
      var n := if d then limit - 1 else limit;
      PageHead(q, agent, router, now, limit);
      PageThenDrain(q[1..], first, router, now, n);
      PageIds(q, agent, router, now, limit);
      var (rest, after) := Page(q[1..], first, router, now, n);
      var (q', agent') := Page(q, agent, router, now, limit);
      assert q'[1..] == rest;
    }
  }

  function Waiting(q: Queue, router: string, now: int): nat {
    if q == [] then 0 else (if Deliverable(q[0], router, now) then 1 else 0) + Waiting(q[1..], router, now)
  }

  lemma {:induction false} PageProgress(q: Queue, agent: Agent, router: string, now: int, limit: nat)
    requires UniqueIds(q) && limit > 0
    ensures var q' := Page(q, agent, router, now, limit).0;
            Waiting(q', router, now) <= Waiting(q, router, now)
            && (Waiting(q, router, now) > 0 ==> Waiting(q', router, now) < Waiting(q, router, now))
  {
    FetchIds(q, router, now, limit);
    if q == [] {
      assert OkAcks([]) == map[];
    } else {
      var c := q[0];
      var d := Deliverable(c, router, now);
      PageHead(q, agent, router, now, limit);
      var first := if d then Execute(agent, c.action) else agent;
      var (rest, after) := Page(q[1..], first, router, now, if d then limit - 1 else limit);
      assert Page(q, agent, router, now, limit).0[1..] == rest;
      if d && limit == 1 {
        assert OkAcks([]) == map[];
        NothingAcked(q[1..], now);
      } else {
        PageProgress(q[1..], first, router, now, if d then limit - 1 else limit);
      }
    }
  }

  lemma {:induction false} NothingWaiting(q: Queue, agent: Agent, router: string, now: int)
    requires Waiting(q, router, now) == 0
    ensures Drain(q, agent, router, now) == (q, agent)
  {
    if q != [] {
      NothingWaiting(q[1..], agent, router, now);
      assert [q[0]] + q[1..] == q;
    }
  }

  lemma {:induction false} WaitingSelected(q: Queue, router: string, now: int, limit: nat)
    requires limit > 0
    ensures Fetch(q, router, now, limit).1 == [] <==> Waiting(q, router, now) == 0
  {
    if q != [] && !Deliverable(q[0], router, now) {
      WaitingSelected(q[1..], router, now, limit);
    }
  }
}
