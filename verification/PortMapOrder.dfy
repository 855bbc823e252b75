/** When the command just queued has the last word: what one drain leaves of one rule
    (hub.py's queue revives a command where it stands). */
module PortMapOrder {
  import opened PortMapRules
  import opened PortMapSync
  import opened PortMapConvergence
  import opened Wrappers

  /** The agent's rule with this id after one action. */
  function Applied(held: Option<Rule>, a: Action, id: string): Option<Rule> {
    if a.RuleId() != id then held
    else
      match a
      case UpsertRule(rule) => Some(rule)
      case StopRule(_) => if held.Some? then Some(held.value.(enabled := false)) else None
      case DeleteRule(_) => None
  }

  /** ... and after a drain. */
  function After(held: Option<Rule>, q: Queue, router: string, now: int, id: string): Option<Rule>
    decreases |q|
  {
    if q == [] then held
    else After(if Deliverable(q[0], router, now) then Applied(held, q[0].action, id) else held, q[1..], router, now, id)
  }

  function RuleAt(agent: Agent, id: string): Option<Rule> {
    if id in agent then Some(agent[id]) else None
  }

  /** A command the drain will deliver for this rule. */
  predicate Concerns(c: Command, router: string, now: int, id: string) {
    Deliverable(c, router, now) && c.action.RuleId() == id
  }

  lemma ExecuteRule(agent: Agent, a: Action, id: string)
    ensures RuleAt(Execute(agent, a), id) == Applied(RuleAt(agent, id), a, id)
  {
  }

  lemma {:induction false} DrainRule(q: Queue, agent: Agent, router: string, now: int, id: string)
    ensures RuleAt(Drain(q, agent, router, now).1, id) == After(RuleAt(agent, id), q, router, now, id)
  {
    hide Deliverable, RuleAt, Applied, Execute;
    if q != [] {
      if Deliverable(q[0], router, now) {
        ExecuteRule(agent, q[0].action, id);
        DrainRule(q[1..], Execute(agent, q[0].action), router, now, id);
      } else {
        DrainRule(q[1..], agent, router, now, id);
      }
    }
  }

  lemma {:induction false} AfterSplit(held: Option<Rule>, q: Queue, k: nat, router: string, now: int, id: string)
    requires k <= |q|
    ensures After(held, q, router, now, id) == After(After(held, q[..k], router, now, id), q[k..], router, now, id)
    decreases |q|
  {
    hide Deliverable, Applied;
    if k == 0 {
      assert q[..0] == [] && q[0..] == q;
    } else {
      var next := if Deliverable(q[0], router, now) then Applied(held, q[0].action, id) else held;
      AfterSplit(next, q[1..], k - 1, router, now, id);
      assert q[..k][1..] == q[1..][..k - 1] && q[1..][k - 1..] == q[k..];
    }
  }

  /** What stands behind position k decides what becomes of the command there. */
  lemma AfterFrom(q: Queue, agent: Agent, router: string, now: int, id: string, k: nat)
    requires k < |q| && Concerns(q[k], router, now, id)
    ensures exists held :: RuleAt(Drain(q, agent, router, now).1, id)
              == After(Applied(held, q[k].action, id), q[k + 1..], router, now, id)
  {
    hide Applied, RuleAt;
    DrainRule(q, agent, router, now, id);
    AfterSplit(RuleAt(agent, id), q, k, router, now, id);
    assert q[k..][0] == q[k] && q[k..][1..] == q[k + 1..];
    var held := After(RuleAt(agent, id), q[..k], router, now, id);
    assert After(held, q[k..], router, now, id) == After(Applied(held, q[k].action, id), q[k + 1..], router, now, id);
  }

  lemma TailAt(q: Queue, k: nat, tail: Queue)
    requires k < |q| && tail == q[k + 1..]
    ensures forall j :: k < j < |q| ==> q[j] in tail
    ensures forall c :: c in tail ==> exists j :: k < j < |q| && q[j] == c
  {
    forall j | k < j < |q| ensures q[j] in tail {
      assert tail[j - k - 1] == q[j];
    }
  }

  // ------------------------------------------------------------------- an upsert

  /** Without another upsert the rule, once changed or gone, does not come back. */
  lemma {:induction false} LostStaysLost(held: Option<Rule>, r: Rule, q: Queue, router: string, now: int)
    requires held != Some(r) && (held.Some? ==> held.value == r.(enabled := false))
    requires forall c :: c in q && Concerns(c, router, now, r.id) ==> !c.action.UpsertRule?
    ensures After(held, q, router, now, r.id) != Some(r)
    decreases |q|
  {
    if q != [] {
      assert q[0] in q;
      LostStaysLost(if Deliverable(q[0], router, now) then Applied(held, q[0].action, r.id) else held, r, q[1..], router, now);
    }
  }

  lemma {:induction false} KeptIff(r: Rule, q: Queue, router: string, now: int)
    requires forall c :: c in q && Concerns(c, router, now, r.id) ==> !c.action.UpsertRule?
    ensures After(Some(r), q, router, now, r.id) == Some(r)
            <==> forall c :: c in q && Concerns(c, router, now, r.id) ==> c.action.StopRule? && !r.enabled
    decreases |q|
  {
    if q != [] {
      assert q[0] in q && forall c :: c in q <==> c == q[0] || c in q[1..];
      if Concerns(q[0], router, now, r.id) {
        var held := Applied(Some(r), q[0].action, r.id);
        if held == Some(r) {
          KeptIff(r, q[1..], router, now);
        } else {
          LostStaysLost(held, r, q[1..], router, now);
        }
      } else {
        KeptIff(r, q[1..], router, now);
      }
    }
  }

  /** A queued upsert has the last word if and only if everything deliverable for its rule
      behind it is a stop, and the rule is disabled anyway. */
  lemma UpsertPrevailsIff(q: Queue, agent: Agent, r: Rule, router: string, now: int, k: nat)
    requires PendingAt(q, UpsertRule(r), router, k)
    ensures var after := Drain(q, agent, router, now).1;
            (r.id in after && after[r.id] == r)
            <==> forall j :: k < j < |q| && Concerns(q[j], router, now, r.id) ==> q[j].action.StopRule? && !r.enabled
  {
    hide Drain, After;
    var tail := q[k + 1..];
    TailAt(q, k, tail);
    AfterFrom(q, agent, router, now, r.id, k);
    NoneOfItsKind(q, UpsertRule(r), router, now, k);
    KeptIff(r, tail, router, now);
  }

  /** No deliverable command behind is of the pending one's kind. */
  lemma NoneOfItsKind(q: Queue, a: Action, router: string, now: int, k: nat)
    requires PendingAt(q, a, router, k)
    ensures forall c :: c in q[k + 1..] && Concerns(c, router, now, a.RuleId()) ==> !c.action.Same(a)
  {
    forall c | c in q[k + 1..] && Concerns(c, router, now, a.RuleId()) ensures !c.action.Same(a) {
      var i :| 0 <= i < |q[k + 1..]| && q[k + 1..][i] == c;
      assert !Matches(q[k + 1 + i], a, router);
    }
  }

  // ------------------------------------------------------------------- a delete

  lemma {:induction false} PresentIff(held: Option<Rule>, q: Queue, router: string, now: int, id: string)
    requires forall c :: c in q && Concerns(c, router, now, id) ==> !c.action.DeleteRule?
    ensures After(held, q, router, now, id).Some?
            <==> held.Some? || exists c :: c in q && Concerns(c, router, now, id) && c.action.UpsertRule?
    decreases |q|
  {
    if q != [] {
      assert q[0] in q && forall c :: c in q <==> c == q[0] || c in q[1..];
      PresentIff(if Deliverable(q[0], router, now) then Applied(held, q[0].action, id) else held, q[1..], router, now, id);
    }
  }

  /** A queued delete has the last word if and only if no upsert of its rule is deliverable
      behind it. */
  lemma DeletePrevailsIff(q: Queue, agent: Agent, id: string, router: string, now: int, k: nat)
    requires PendingAt(q, DeleteRule(id), router, k)
    ensures id !in Drain(q, agent, router, now).1
            <==> forall j :: k < j < |q| && Concerns(q[j], router, now, id) ==> !q[j].action.UpsertRule?
  {
    hide Drain, After;
    var tail := q[k + 1..];
    TailAt(q, k, tail);
    AfterFrom(q, agent, router, now, id, k);
    NoneOfItsKind(q, DeleteRule(id), router, now, k);
    PresentIff(None, tail, router, now, id);
  }

  // ------------------------------------------------------------------- a stop

  predicate Running(held: Option<Rule>) {
    held.Some? && held.value.enabled
  }

  predicate StartsLast(q: Queue, j: nat, router: string, now: int, id: string)
    requires j < |q|
  {
    && Concerns(q[j], router, now, id) && q[j].action.UpsertRule? && q[j].action.rule.enabled
    && forall l :: j < l < |q| ==> !Concerns(q[l], router, now, id)
  }

  lemma {:induction false} RunningIff(held: Option<Rule>, q: Queue, router: string, now: int, id: string)
    ensures Running(After(held, q, router, now, id))
            <==> (Running(held) && forall l :: 0 <= l < |q| ==> !Concerns(q[l], router, now, id))
                 || exists j: nat :: j < |q| && StartsLast(q, j, router, now, id)
    decreases |q|
  {
    if q != [] {
      var next := if Deliverable(q[0], router, now) then Applied(held, q[0].action, id) else held;
      var tail := q[1..];
      assert forall l :: 0 <= l < |tail| ==> tail[l] == q[l + 1];
      assert forall l :: 0 < l < |q| ==> q[l] == tail[l - 1];
      RunningIff(next, tail, router, now, id);
      LaterStarts(q, router, now, id);
      if Concerns(q[0], router, now, id) {
        assert Running(next) <==> q[0].action.UpsertRule? && q[0].action.rule.enabled;
        assert StartsLast(q, 0, router, now, id)
          <==> Running(next) && forall l :: 0 <= l < |tail| ==> !Concerns(tail[l], router, now, id);
      }
    }
  }

  /** Starting last behind the head, or at the head. */
  lemma LaterStarts(q: Queue, router: string, now: int, id: string)
    requires q != []
    ensures (exists j: nat :: j < |q| && StartsLast(q, j, router, now, id))
            <==> StartsLast(q, 0, router, now, id) || exists j: nat :: j < |q[1..]| && StartsLast(q[1..], j, router, now, id)
  {
    hide Concerns;
    var tail := q[1..];
    assert forall l :: 0 <= l < |tail| ==> tail[l] == q[l + 1];
    forall j: nat | j < |tail| ensures StartsLast(tail, j, router, now, id) <==> StartsLast(q, j + 1, router, now, id) {
      assert forall l :: j + 1 < l < |q| ==> q[l] == tail[l - 1];
    }
    if j: nat :| j < |q| && StartsLast(q, j, router, now, id) {
      if j > 0 {
        assert StartsLast(tail, j - 1, router, now, id);
      }
    }
    if j: nat :| j < |tail| && StartsLast(tail, j, router, now, id) {
      assert StartsLast(q, j + 1, router, now, id);
    }
  }

  /** A queued stop has the last word unless, and only unless, the last command deliverable
      for its rule stands behind it and starts the rule. */
  lemma StopPrevailsIff(q: Queue, agent: Agent, id: string, router: string, now: int, k: nat)
    requires PendingAt(q, StopRule(id), router, k)
    ensures Running(RuleAt(Drain(q, agent, router, now).1, id))
            <==> exists j: nat :: k < j < |q| && StartsLast(q, j, router, now, id)
  {
    hide Drain, After, RuleAt;
    DrainRule(q, agent, router, now, id);
    RunningIff(RuleAt(agent, id), q, router, now, id);
    assert Concerns(q[k], router, now, id);
  }

  /** Start, stop, start before a poll: the second start revives the first command in front
      of the stop, and the agent ends up stopped. */
  lemma QueueOrderIsNotEnough(r: Rule, agent: Agent, router: string, now: int, id: nat)
    requires r.enabled
    ensures var q1 := Enqueue([], UpsertRule(r), router, now, id);
            var q2 := Enqueue(q1, StopRule(r.id), router, now, id + 1);
            var q3 := Enqueue(q2, UpsertRule(r), router, now, id + 2);
            PendingAt(q3, UpsertRule(r), router, 0) && !Running(RuleAt(Drain(q3, agent, router, now).1, r.id))
  {
    hide Drain, Enqueue;
    var up, stop := Command(id, router, UpsertRule(r), Pending, 0, 0, 0),
        Command(id + 1, router, StopRule(r.id), Pending, 0, 0, 0);
    StartStopStart(r, router, now, id);
    StopPrevailsIff([up, stop], agent, r.id, router, now, 1);
  }

  lemma StartStopStart(r: Rule, router: string, now: int, id: nat)
    ensures var up, stop := Command(id, router, UpsertRule(r), Pending, 0, 0, 0),
            Command(id + 1, router, StopRule(r.id), Pending, 0, 0, 0);
            && Enqueue([], UpsertRule(r), router, now, id) == [up]
            && Enqueue([up], StopRule(r.id), router, now, id + 1) == [up, stop]
            && Enqueue([up, stop], UpsertRule(r), router, now, id + 2) == [up, stop]
  {
    hide Expire;
    var up, stop := Command(id, router, UpsertRule(r), Pending, 0, 0, 0),
        Command(id + 1, router, StopRule(r.id), Pending, 0, 0, 0);
    ActiveStay([], now);
    ActiveStay([up], now);
    ActiveStay([up, stop], now);
    assert [up, stop][..1] == [up] && [up][..0] == [];
    assert LastMatch([up], StopRule(r.id), router) == -1;
    assert LastMatch([up, stop], UpsertRule(r), router) == 0;
  }
}
