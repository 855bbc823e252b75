/** Desired-state convergence of the relay agent through status-driven reconciliation
    (labrelay_sync_patch.py reconcile over hub.py's command queue). */
module PortMapConvergence {
  import opened PortMapRules
  import opened PortMapSync
  import opened Wrappers

  // ---------------------------------------------------------------- reconcile

  type Desired = map<string, Rule>

  /** The rules that have an id, by id; of several with one id the last counts. */
  function DesiredOf(rows: seq<Rule>): Desired {
    if rows == [] then map[]
    else
      var m := DesiredOf(rows[..|rows| - 1]);
      var r := rows[|rows| - 1];
      if r.id == "" then m else m[r.id := r]
  }

  ghost predicate Keyed(desired: Desired) {
    forall k :: k in desired ==> desired[k].id == k
  }

  lemma {:induction false} DesiredIsKeyed(rows: seq<Rule>)
    ensures Keyed(DesiredOf(rows))
  {
    if rows != [] {
      DesiredIsKeyed(rows[..|rows| - 1]);
    }
  }

  /** Equal on every key reconcile compares. */
  predicate SameCompared(a: Rule, b: Rule) {
    && a.enabled == b.enabled && a.listenPort == b.listenPort
    && Effective(a.transport) == Effective(b.transport)
    && a.settings == b.settings && a.expiresAt == b.expiresAt && a.leaseSeconds == b.leaseSeconds
  }

  predicate Wrong(desired: Desired, local: Agent, id: string) {
    if id in desired then id !in local || !SameCompared(local[id], desired[id]) else id in local
  }

  function Correction(desired: Desired, id: string): Action {
    if id in desired then UpsertRule(desired[id]) else DeleteRule(id)
  }

  /** The agent has exactly the desired rules, each with every setting as desired. */
  ghost predicate Agrees(desired: Desired, local: Agent) {
    && (forall id :: id in local <==> id in desired)
    && (forall id :: id in local && id in desired ==> SetAlike(local[id], desired[id]))
  }

  /** Setting by setting; a rule that names no transport uses TCP. */
  predicate SetAlike(a: Rule, b: Rule) {
    && a.enabled == b.enabled
    && a.listenPort == b.listenPort
    && (a.transport == Some(UDP) <==> b.transport == Some(UDP))
    && a.settings.mode == b.settings.mode
    && a.settings.targetMode == b.settings.targetMode
    && a.settings.targetIpv4 == b.settings.targetIpv4
    && a.settings.targetIpv6 == b.settings.targetIpv6
    && a.settings.targetIpv6Suffix == b.settings.targetIpv6Suffix
    && a.settings.targetMac == b.settings.targetMac
    && a.settings.targetPort == b.settings.targetPort
    && a.settings.maxConnections == b.settings.maxConnections
    && a.settings.idleTimeoutSec == b.settings.idleTimeoutSec
    && a.expiresAt == b.expiresAt
    && a.leaseSeconds == b.leaseSeconds
  }

  /** A report finds a rule wrong exactly where agent and Hub do not agree on it. */
  lemma WrongIff(desired: Desired, local: Agent, id: string)
    ensures Wrong(desired, local, id)
            <==> (id in local) != (id in desired)
                 || (id in local && id in desired && !SetAlike(local[id], desired[id]))
  {
  }

  lemma AgreesIff(desired: Desired, local: Agent)
    ensures Agrees(desired, local) <==> forall id :: !Wrong(desired, local, id)
  {
    hide Wrong, SetAlike;
    forall id
      ensures Wrong(desired, local, id)
              <==> (id in local) != (id in desired)
                   || (id in local && id in desired && !SetAlike(local[id], desired[id]))
    {
      WrongIff(desired, local, id);
    }
  }

  /** With distinct non-empty ids the desired rules are the stored ones, each under its id. */
  lemma {:induction false} DesiredIs(rows: seq<Rule>)
    requires forall i, j :: 0 <= i < j < |rows| ==> rows[i].id != rows[j].id
    requires forall i :: 0 <= i < |rows| ==> rows[i].id != ""
    ensures forall r :: r in rows ==> r.id in DesiredOf(rows) && DesiredOf(rows)[r.id] == r
    ensures forall id :: id in DesiredOf(rows) ==> DesiredOf(rows)[id] in rows && DesiredOf(rows)[id].id == id
  {
    if rows != [] {
      var init, last := rows[..|rows| - 1], rows[|rows| - 1];
      DesiredIs(init);
      assert rows == init + [last];
    }
  }

  /** What a status report queues: one correction for each wrong rule, in some order. */
  ghost predicate Corrects(acts: seq<Action>, desired: Desired, local: Agent) {
    && (forall i :: 0 <= i < |acts| ==>
        Wrong(desired, local, acts[i].RuleId()) && acts[i] == Correction(desired, acts[i].RuleId()))
    && (forall i, j :: 0 <= i < j < |acts| ==> acts[i].RuleId() != acts[j].RuleId())
    && (forall id :: Wrong(desired, local, id) ==> Correction(desired, id) in acts)
  }

  function QueueAll(q: Queue, acts: seq<Action>, router: string, now: int, id: nat): Queue {
    if acts == [] then q
    else Enqueue(QueueAll(q, acts[..|acts| - 1], router, now, id), acts[|acts| - 1], router, now, id + |acts| - 1)
  }

  // --------------------------------------------------- what a drain leaves behind

  /** Nothing here will ever be delivered again unless it is revived. */
  ghost predicate Quiet(q: Queue, router: string) {
    forall i :: 0 <= i < |q| && q[i].router == router ==>
      q[i].status != Pending && (q[i].status == Delivered ==> q[i].attempts >= MAX_ATTEMPTS)
  }

  /** Every delivered command is due for a retry or used up. */
  ghost predicate NothingInFlight(q: Queue, router: string, now: int) {
    forall i :: 0 <= i < |q| && q[i].router == router && q[i].status == Delivered ==>
      q[i].attempts >= MAX_ATTEMPTS || now - q[i].deliveredAt >= RETRY_AFTER
  }

  lemma {:induction false} DrainQueue(q: Queue, agent: Agent, router: string, now: int)
    ensures var q' := Drain(q, agent, router, now).0;
            |q'| == |q| && forall i :: 0 <= i < |q| ==> q'[i] == Handled(q[i], router, now)
  {
    if q != [] {
      var rest := if Deliverable(q[0], router, now) then Execute(agent, q[0].action) else agent;
      DrainQueue(q[1..], rest, router, now);
    }
  }

  lemma DrainQuiets(q: Queue, agent: Agent, router: string, now: int)
    requires NothingInFlight(q, router, now)
    ensures Quiet(Drain(q, agent, router, now).0, router)
  {
    DrainQueue(q, agent, router, now);
  }

  /** The deliverable commands concern different rules. */
  ghost predicate DistinctTargets(q: Queue, router: string, now: int) {
    forall i, j :: 0 <= i < j < |q| && Deliverable(q[i], router, now) && Deliverable(q[j], router, now) ==>
      q[i].action.RuleId() != q[j].action.RuleId()
  }

  ghost predicate Targets(q: Queue, router: string, now: int, id: string) {
    exists i :: 0 <= i < |q| && Deliverable(q[i], router, now) && q[i].action.RuleId() == id
  }

  lemma {:induction false} DrainUntouched(q: Queue, agent: Agent, router: string, now: int, id: string)
    requires !Targets(q, router, now, id)
    ensures var after := Drain(q, agent, router, now).1;
            (id in after <==> id in agent) && (id in agent ==> after[id] == agent[id])
  {
    if q != [] {
      forall i | 0 <= i < |q[1..]| && Deliverable(q[1..][i], router, now) ensures q[1..][i].action.RuleId() != id {
        assert q[1..][i] == q[i + 1];
      }
      if Deliverable(q[0], router, now) {
        assert q[0].action.RuleId() != id;
        DrainUntouched(q[1..], Execute(agent, q[0].action), router, now, id);
      } else {
        DrainUntouched(q[1..], agent, router, now, id);
      }
    }
  }

  lemma {:induction false} DrainDelivers(q: Queue, agent: Agent, router: string, now: int, k: nat)
    requires k < |q| && Deliverable(q[k], router, now) && DistinctTargets(q, router, now)
    ensures var after := Drain(q, agent, router, now).1;
            match q[k].action
            case UpsertRule(rule) => rule.id in after && after[rule.id] == rule
            case DeleteRule(id) => id !in after
            case StopRule(_) => true
  {
    var first := if Deliverable(q[0], router, now) then Execute(agent, q[0].action) else agent;
    if k == 0 {
      var id := q[0].action.RuleId();
      forall i | 0 <= i < |q[1..]| && Deliverable(q[1..][i], router, now) ensures q[1..][i].action.RuleId() != id {
        assert q[1..][i] == q[i + 1];
      }
      DrainUntouched(q[1..], first, router, now, id);
    } else {
      assert q[1..][k - 1] == q[k];
      forall i, j | 0 <= i < j < |q[1..]| && Deliverable(q[1..][i], router, now) && Deliverable(q[1..][j], router, now)
        ensures q[1..][i].action.RuleId() != q[1..][j].action.RuleId()
      {
        assert q[1..][i] == q[i + 1] && q[1..][j] == q[j + 1];
      }
      DrainDelivers(q[1..], first, router, now, k - 1);
    }
  }

  // --------------------------------------------------------------- queueing one

  ghost predicate NoMatch(q: Queue, a: Action, router: string) {
    forall i :: 0 <= i < |q| ==> !Matches(q[i], a, router)
  }

  /** `a` is pending at k and is the last active command of its kind. */
  ghost predicate PendingAt(q: Queue, a: Action, router: string, k: nat) {
    && k < |q| && q[k].router == router && q[k].status == Pending && q[k].action == a
    && forall j :: k < j < |q| ==> !Matches(q[j], a, router)
  }

  ghost predicate IsPending(q: Queue, a: Action, router: string) {
    exists k :: PendingAt(q, a, router, k)
  }

  lemma {:induction false} LastMatchIs(q: Queue, a: Action, router: string)
    ensures var i := LastMatch(q, a, router);
            && (i >= 0 ==> Matches(q[i], a, router))
            && forall j :: i < j < |q| ==> !Matches(q[j], a, router)
  {
    if q != [] {
      LastMatchIs(q[..|q| - 1], a, router);
    }
  }

  lemma {:induction false} ExpireThins(q: Queue, now: int)
    ensures forall c :: c in Expire(q, now) ==> c in q
    ensures |Expire(q, now)| <= |q|
  {
    if q != [] {
      ExpireThins(q[..|q| - 1], now);
    }
  }

  lemma {:induction false} ExpireKeepsPending(q: Queue, now: int, a: Action, router: string)
    requires IsPending(q, a, router)
    ensures IsPending(Expire(q, now), a, router)
  {
    var init, c := q[..|q| - 1], q[|q| - 1];
    var rest := Expire(init, now);
    var k: nat :| PendingAt(q, a, router, k);
    if k == |q| - 1 {
      assert PendingAt(rest + [c], a, router, |rest|);
    } else {
      assert PendingAt(init, a, router, k);
      ExpireKeepsPending(init, now, a, router);
      var m: nat :| PendingAt(rest, a, router, m);
      assert !Matches(c, a, router);
      assert PendingAt(rest + [c], a, router, m);
    }
  }

  /** What Enqueue's cleaning keeps of the facts about one action. */
  lemma ExpireKeeps(q: Queue, now: int, a: Action, router: string)
    ensures forall c :: c in Expire(q, now) ==> c in q
    ensures |Expire(q, now)| <= |q|
    ensures NoMatch(q, a, router) ==> NoMatch(Expire(q, now), a, router)
    ensures IsPending(q, a, router) ==> IsPending(Expire(q, now), a, router)
  {
    hide IsPending, Matches, Expire;
    ExpireThins(q, now);
    if IsPending(q, a, router) {
      ExpireKeepsPending(q, now, a, router);
    }
    var rest := Expire(q, now);
    forall i | 0 <= i < |rest| && NoMatch(q, a, router) ensures !Matches(rest[i], a, router) {
      assert rest[i] in rest;
    }
  }

  lemma NewestKeeps(q: Queue, a: Action, router: string)
    ensures forall c :: c in Newest(q) ==> c in q
    ensures NoMatch(q, a, router) ==> NoMatch(Newest(q), a, router)
    ensures IsPending(q, a, router) ==> IsPending(Newest(q), a, router) || NoMatch(Newest(q), a, router)
  {
    if |q| > MAX_COMMANDS {
      var cut := |q| - MAX_COMMANDS;
      if IsPending(q, a, router) {
        var k: nat :| PendingAt(q, a, router, k);
        if k >= cut {
          assert PendingAt(Newest(q), a, router, k - cut);
        } else {
          assert NoMatch(Newest(q), a, router);
        }
      }
    }
  }

  /** Queueing leaves the queued action pending and last of its kind. */
  lemma EnqueueQueues(q: Queue, a: Action, router: string, now: int, id: nat)
    ensures IsPending(Enqueue(q, a, router, now, id), a, router)
  {
    var kept := Newest(Expire(q, now));
    LastMatchIs(kept, a, router);
    var i := LastMatch(kept, a, router);
    var q' := Enqueue(q, a, router, now, id);
    if i >= 0 {
      assert PendingAt(q', a, router, i);
    } else {
      assert PendingAt(q', a, router, |kept|);
    }
  }

  /** ... and does to another rule's command nothing but possibly cut it off. */
  lemma EnqueueOther(q: Queue, a: Action, router: string, now: int, id: nat, b: Action)
    requires a.RuleId() != b.RuleId()
    ensures var q' := Enqueue(q, a, router, now, id);
            && (NoMatch(q, b, router) ==> NoMatch(q', b, router))
            && (IsPending(q, b, router) ==> IsPending(q', b, router) || NoMatch(q', b, router))
            && (|q| <= MAX_COMMANDS && IsPending(q, b, router) ==> IsPending(q', b, router))
  {
    hide Expire, LastMatch;
    var expired := Expire(q, now);
    var kept := Newest(expired);
    ExpireKeeps(q, now, b, router);
    NewestKeeps(expired, b, router);
    LastMatchIs(kept, a, router);
    var q' := Enqueue(q, a, router, now, id);
    if IsPending(kept, b, router) {
      var k :| PendingAt(kept, b, router, k);
      assert PendingAt(q', b, router, k);
    }
  }

  /** Every command of this router after queueing: an old one, or the queued action. */
  lemma EnqueueContents(q: Queue, a: Action, router: string, now: int, id: nat)
    ensures var q' := Enqueue(q, a, router, now, id);
            && |q'| <= |q| + 1
            && forall c :: c in q' ==> c in q || (c.router == router && c.status == Pending && c.action == a)
  {
    var kept := Newest(Expire(q, now));
    ExpireKeeps(q, now, a, router);
    NewestKeeps(Expire(q, now), a, router);
    LastMatchIs(kept, a, router);
    var q' := Enqueue(q, a, router, now, id);
    forall c | c in q' ensures c in q || (c.router == router && c.status == Pending && c.action == a) {
      var i :| 0 <= i < |q'| && q'[i] == c;
      assert i < |kept| ==> kept[i] in kept;
    }
  }

  // ------------------------------------------------------------ queueing a report

  /** This router's pending commands carry actions of `acts`, for different rules;
      its delivered ones are used up. */
  ghost predicate OwnWork(q: Queue, acts: seq<Action>, router: string) {
    forall c :: c in q && c.router == router ==>
      (c.status == Pending ==> c.action in acts) && (c.status == Delivered ==> c.attempts >= MAX_ATTEMPTS)
  }

  ghost predicate PendingDistinct(q: Queue, router: string) {
    forall i, j :: 0 <= i < j < |q| && q[i].router == router && q[j].router == router
                   && q[i].status == Pending && q[j].status == Pending ==>
      q[i].action.RuleId() != q[j].action.RuleId()
  }

  ghost predicate DifferentRules(acts: seq<Action>) {
    forall i, j :: 0 <= i < j < |acts| ==> acts[i].RuleId() != acts[j].RuleId()
  }

  lemma {:induction false} ExpireDistinct(q: Queue, now: int, router: string)
    requires PendingDistinct(q, router)
    ensures PendingDistinct(Expire(q, now), router)
  {
    if q != [] {
      var init, c := q[..|q| - 1], q[|q| - 1];
      ExpireDistinct(init, now, router);
      ExpireKeeps(init, now, c.action, router);
      var rest := Expire(init, now);
      forall i | 0 <= i < |rest| && rest[i].router == router && c.router == router
                 && rest[i].status == Pending && c.status == Pending
        ensures rest[i].action.RuleId() != c.action.RuleId()
      {
        assert rest[i] in rest;
        var k :| 0 <= k < |init| && init[k] == rest[i];
        assert q[k] == rest[i];
      }
    }
  }

  lemma EnqueueDistinct(q: Queue, acts: seq<Action>, a: Action, router: string, now: int, id: nat)
    requires PendingDistinct(q, router) && OwnWork(q, acts, router)
    requires forall b :: b in acts ==> b.RuleId() != a.RuleId()
    ensures PendingDistinct(Enqueue(q, a, router, now, id), router)
  {
    hide Matches;
    var kept := Newest(Expire(q, now));
    ExpireDistinct(q, now, router);
    ExpireKeeps(q, now, a, router);
    NewestKeeps(Expire(q, now), a, router);
    forall i | 0 <= i < |kept| && kept[i].router == router && kept[i].status == Pending
      ensures kept[i].action.RuleId() != a.RuleId()
    {
      assert kept[i] in kept;
    }
  }

  lemma EnqueueOwnWork(q: Queue, acts: seq<Action>, a: Action, router: string, now: int, id: nat)
    requires OwnWork(q, acts, router)
    ensures OwnWork(Enqueue(q, a, router, now, id), acts + [a], router)
  {
    hide Enqueue;
    EnqueueContents(q, a, router, now, id);
  }

  /** A report from a quiet queue leaves exactly its own corrections to deliver. */
  lemma {:induction false} QueueAllOwnWork(q: Queue, acts: seq<Action>, router: string, now: int, id: nat)
    requires Quiet(q, router) && DifferentRules(acts)
    ensures OwnWork(QueueAll(q, acts, router, now, id), acts, router)
    ensures PendingDistinct(QueueAll(q, acts, router, now, id), router)
  {
    hide Enqueue;
    if acts != [] {
      var init, a := acts[..|acts| - 1], acts[|acts| - 1];
      QueueAllOwnWork(q, init, router, now, id);
      var before := QueueAll(q, init, router, now, id);
      EnqueueDistinct(before, init, a, router, now, id + |acts| - 1);
      EnqueueOwnWork(before, init, a, router, now, id + |acts| - 1);
      assert init + [a] == acts;
    }
  }

  /** Each correction ends up pending, or truncation has cut every active command of its kind. */
  lemma {:induction false} QueueAllPendingOrLost(q: Queue, acts: seq<Action>, router: string, now: int, id: nat, k: nat)
    requires DifferentRules(acts) && k < |acts|
    ensures var q' := QueueAll(q, acts, router, now, id);
            IsPending(q', acts[k], router) || NoMatch(q', acts[k], router)
  {
    hide Enqueue, IsPending, NoMatch;
    var init, a := acts[..|acts| - 1], acts[|acts| - 1];
    var before := QueueAll(q, init, router, now, id);
    if k == |acts| - 1 {
      EnqueueQueues(before, a, router, now, id + |acts| - 1);
    } else {
      QueueAllPendingOrLost(q, init, router, now, id, k);
      EnqueueOther(before, a, router, now, id + |acts| - 1, acts[k]);
    }
  }

  /** With room in the queue nothing is lost. */
  lemma {:induction false} QueueAllWithRoom(q: Queue, acts: seq<Action>, router: string, now: int, id: nat, k: nat)
    requires DifferentRules(acts) && k < |acts| && |q| + |acts| <= MAX_COMMANDS + 1
    ensures IsPending(QueueAll(q, acts, router, now, id), acts[k], router)
  {
    hide Enqueue, IsPending, NoMatch;
    var init, a := acts[..|acts| - 1], acts[|acts| - 1];
    var before := QueueAll(q, init, router, now, id);
    QueueAllLength(q, init, router, now, id);
    if k == |acts| - 1 {
      EnqueueQueues(before, a, router, now, id + |acts| - 1);
    } else {
      QueueAllWithRoom(q, init, router, now, id, k);
      EnqueueOther(before, a, router, now, id + |acts| - 1, acts[k]);
    }
  }

  lemma {:induction false} QueueAllLength(q: Queue, acts: seq<Action>, router: string, now: int, id: nat)
    ensures |QueueAll(q, acts, router, now, id)| <= |q| + |acts|
  {
    hide Enqueue;
    if acts != [] {
      QueueAllLength(q, acts[..|acts| - 1], router, now, id);
      EnqueueContents(QueueAll(q, acts[..|acts| - 1], router, now, id), acts[|acts| - 1], router, now, id + |acts| - 1);
    }
  }

  // --------------------------------------------- corrections that match nothing

  /** The queue ends with exactly these actions, pending, in order. */
  ghost predicate EndsWithPending(q: Queue, acts: seq<Action>, router: string)
    decreases |acts|
  {
    acts == []
    || (q != [] && PendingOf(q[|q| - 1], acts[|acts| - 1], router)
        && EndsWithPending(q[..|q| - 1], acts[..|acts| - 1], router))
  }

  predicate PendingOf(c: Command, a: Action, router: string) {
    c.router == router && c.status == Pending && c.action == a
  }

  lemma {:induction false} EndsWithPendingAt(q: Queue, acts: seq<Action>, router: string, at: nat)
    requires EndsWithPending(q, acts, router)
    ensures |acts| <= |q| && (|q| - |acts| <= at < |q| ==> PendingOf(q[at], acts[at - (|q| - |acts|)], router))
    decreases |acts|
  {
    if acts != [] {
      EndsWithPendingAt(q[..|q| - 1], acts[..|acts| - 1], router, at);
    }
  }

  lemma {:induction false} ExpireKeepsEnd(q: Queue, now: int, acts: seq<Action>, router: string)
    requires EndsWithPending(q, acts, router)
    ensures EndsWithPending(Expire(q, now), acts, router)
    decreases |acts|
  {
    if acts != [] {
      var init := q[..|q| - 1];
      ExpireKeepsEnd(init, now, acts[..|acts| - 1], router);
      assert (Expire(init, now) + [q[|q| - 1]])[..|Expire(init, now)|] == Expire(init, now);
    }
  }

  lemma {:induction false} CutKeepsEnd(q: Queue, cut: nat, acts: seq<Action>, router: string)
    requires EndsWithPending(q, acts, router) && cut + |acts| <= |q|
    ensures EndsWithPending(q[cut..], acts, router)
    decreases |acts|
  {
    if acts != [] {
      CutKeepsEnd(q[..|q| - 1], cut, acts[..|acts| - 1], router);
      assert q[..|q| - 1][cut..] == q[cut..][..|q| - cut - 1];
    }
  }

  lemma EndsWithOneMore(q: Queue, acts: seq<Action>, c: Command, a: Action, router: string)
    requires EndsWithPending(q, acts, router) && PendingOf(c, a, router)
    ensures EndsWithPending(q + [c], acts + [a], router)
  {
    assert (q + [c])[..|q|] == q && (acts + [a])[..|acts|] == acts;
  }

  lemma AppendKeepsEnd(q: Queue, acts: seq<Action>, a: Action, router: string, now: int, id: nat)
    requires EndsWithPending(q, acts, router) && NoMatch(q, a, router) && |acts| <= MAX_COMMANDS
    ensures EndsWithPending(Enqueue(q, a, router, now, id), acts + [a], router)
  {
    hide Expire, Matches, LastMatch, EndsWithPending;
    var expired := Expire(q, now);
    var kept := Newest(expired);
    ExpireKeepsEnd(q, now, acts, router);
    ExpireKeeps(q, now, a, router);
    NewestKeeps(expired, a, router);
    LastMatchIs(kept, a, router);
    EndsWithPendingAt(expired, acts, router, 0);
    if |expired| > MAX_COMMANDS {
      CutKeepsEnd(expired, |expired| - MAX_COMMANDS, acts, router);
    }
    assert EndsWithPending(kept, acts, router);
    var c := Command(id, router, a, Pending, 0, 0, 0);
    assert Enqueue(q, a, router, now, id) == kept + [c];
    EndsWithOneMore(kept, acts, c, a, router);
  }

  /** The newest actions that are sure to fit. */
  function LastActions(acts: seq<Action>): seq<Action> {
    if |acts| > MAX_COMMANDS then acts[|acts| - MAX_COMMANDS..] else acts
  }

  lemma {:induction false} EndsWithFewer(q: Queue, acts: seq<Action>, router: string, k: nat)
    requires EndsWithPending(q, acts, router) && k <= |acts|
    ensures EndsWithPending(q, acts[k..], router)
    decreases |acts|
  {
    if k < |acts| {
      EndsWithFewer(q[..|q| - 1], acts[..|acts| - 1], router, k);
      assert acts[k..][..|acts| - k - 1] == acts[..|acts| - 1][k..];
    }
  }

  lemma {:induction false} QueueAllAppends(q: Queue, acts: seq<Action>, more: seq<Action>, router: string, now: int, id: nat)
    requires DifferentRules(acts + more)
    requires forall a :: a in acts + more ==> NoMatch(q, a, router)
    ensures EndsWithPending(QueueAll(q, acts, router, now, id), LastActions(acts), router)
    ensures forall a :: a in more ==> NoMatch(QueueAll(q, acts, router, now, id), a, router)
    decreases |acts|
  {
    hide Enqueue, NoMatch, EndsWithPending;
    if acts == [] {
      assert acts + more == more;
      NothingPending(q, router);
    } else {
      var init, a := acts[..|acts| - 1], acts[|acts| - 1];
      assert init + ([a] + more) == acts + more;
      QueueAllAppends(q, init, [a] + more, router, now, id);
      var before := QueueAll(q, init, router, now, id);
      assert a in [a] + more;
      AppendKeepsEnd(before, LastActions(init), a, router, now, id + |acts| - 1);
      var ended := LastActions(init) + [a];
      EndsWithFewer(QueueAll(q, acts, router, now, id), ended, router, |ended| - |LastActions(acts)|);
      assert ended[|ended| - |LastActions(acts)|..] == LastActions(acts);
      forall b | b in more ensures NoMatch(QueueAll(q, acts, router, now, id), b, router) {
        QueuedLater(acts, more, b);
        EnqueueOther(before, a, router, now, id + |acts| - 1, b);
      }
    }
  }

  lemma QueuedLater(acts: seq<Action>, more: seq<Action>, b: Action)
    requires acts != [] && DifferentRules(acts + more) && b in more
    ensures acts[|acts| - 1].RuleId() != b.RuleId() && b in [acts[|acts| - 1]] + more
  {
    var j :| 0 <= j < |more| && more[j] == b;
    assert (acts + more)[|acts| - 1] == acts[|acts| - 1] && (acts + more)[|acts| + j] == b;
    assert ([acts[|acts| - 1]] + more)[j + 1] == b;
  }

  lemma NothingPending(q: Queue, router: string)
    ensures EndsWithPending(q, [], router)
  {
  }

  /** Of corrections without an active command to revive the last five hundred survive,
      even in a full queue. */
  lemma QueueAllFresh(q: Queue, acts: seq<Action>, router: string, now: int, id: nat, k: nat)
    requires DifferentRules(acts) && |acts| - MAX_COMMANDS <= k < |acts|
    requires forall a :: a in acts ==> NoMatch(q, a, router)
    ensures IsPending(QueueAll(q, acts, router, now, id), acts[k], router)
  {
    hide QueueAll, NoMatch, EndsWithPending, IsPending, DifferentRules, LastActions;
    assert acts + [] == acts;
    QueueAllAppends(q, acts, [], router, now, id);
    LastDiffers(acts, k);
    EndPending(QueueAll(q, acts, router, now, id), LastActions(acts), router, k - (|acts| - |LastActions(acts)|));
  }

  lemma LastDiffers(acts: seq<Action>, k: nat)
    requires DifferentRules(acts) && |acts| - MAX_COMMANDS <= k < |acts|
    ensures var last := LastActions(acts); var j := k - (|acts| - |last|);
            0 <= j < |last| && last[j] == acts[k] && forall i :: j < i < |last| ==> last[i].RuleId() != last[j].RuleId()
  {
    hide DifferentRules;
    var last := LastActions(acts);
    var cut := |acts| - |last|;
    assert last[k - cut] == acts[k];
    forall i | k - cut < i < |last| ensures last[i].RuleId() != acts[k].RuleId() {
      assert last[i] == acts[i + cut];
      Differ(acts, k, i + cut);
    }
  }

  lemma Differ(acts: seq<Action>, i: nat, j: nat)
    requires DifferentRules(acts) && i < j < |acts|
    ensures acts[i].RuleId() != acts[j].RuleId()
  {
  }

  /** At the end of the queue each action is pending, and last of its kind. */
  lemma EndPending(q: Queue, acts: seq<Action>, router: string, j: nat)
    requires EndsWithPending(q, acts, router) && j < |acts|
    requires forall i :: j < i < |acts| ==> acts[i].RuleId() != acts[j].RuleId()
    ensures IsPending(q, acts[j], router)
  {
    hide EndsWithPending;
    EndsWithPendingAt(q, acts, router, 0);
    var at: nat := |q| - |acts| + j;
    EndsWithPendingAt(q, acts, router, at);
    forall i: nat | at < i < |q| ensures !Matches(q[i], acts[j], router) {
      EndsWithPendingAt(q, acts, router, i);
    }
    assert PendingAt(q, acts[j], router, at);
  }

  /** Active and recently finished commands are not cleaned away. */
  lemma {:induction false} ActiveStay(q: Queue, now: int)
    requires forall i :: 0 <= i < |q| ==> q[i].Active() || now - q[i].finishedAt <= FINISHED_TTL
    ensures Expire(q, now) == q
  {
    if q != [] {
      ActiveStay(q[..|q| - 1], now);
      assert q[..|q| - 1] + [q[|q| - 1]] == q;
    }
  }
}
