/** Rounds of "drain and acknowledge, then report" against fixed desired rules. */
module PortMapRounds {
  import opened PortMapRules
  import opened PortMapSync
  import opened PortMapConvergence

  datatype Link = Link(queue: Queue, agent: Agent)

  /** The agent executes and acknowledges everything deliverable, then reports its rules,
      and the report queues `acts`. */
  ghost predicate Round(before: Link, acts: seq<Action>, after: Link,
                        desired: Desired, router: string, drainAt: int, reportAt: int, id: nat) {
    var (q, agent) := Drain(before.queue, before.agent, router, drainAt);
    && Corrects(acts, desired, agent)
    && after == Link(QueueAll(q, acts, router, reportAt, id), agent)
  }

  /** The state after a report: what is deliverable is that report's corrections. */
  ghost predicate Reported(link: Link, acts: seq<Action>, desired: Desired, router: string) {
    && Corrects(acts, desired, link.agent)
    && OwnWork(link.queue, acts, router) && PendingDistinct(link.queue, router)
    && forall a :: a in acts ==> IsPending(link.queue, a, router) || NoMatch(link.queue, a, router)
  }

  lemma ReportFromQuiet(q: Queue, agent: Agent, acts: seq<Action>, desired: Desired, router: string, now: int, id: nat)
    requires Quiet(q, router) && Corrects(acts, desired, agent)
    ensures Reported(Link(QueueAll(q, acts, router, now, id), agent), acts, desired, router)
  {
    hide QueueAll, IsPending, NoMatch, Quiet;
    QueueAllOwnWork(q, acts, router, now, id);
    forall a | a in acts
      ensures IsPending(QueueAll(q, acts, router, now, id), a, router) || NoMatch(QueueAll(q, acts, router, now, id), a, router)
    {
      var k :| 0 <= k < |acts| && acts[k] == a;
      QueueAllPendingOrLost(q, acts, router, now, id, k);
    }
  }

  lemma ReportedIsDistinct(link: Link, acts: seq<Action>, desired: Desired, router: string, now: int)
    requires Reported(link, acts, desired, router)
    ensures DistinctTargets(link.queue, router, now)
    ensures forall i :: 0 <= i < |link.queue| && Deliverable(link.queue[i], router, now) ==> link.queue[i].action in acts
  {
    hide Corrects, IsPending, NoMatch;
    var q := link.queue;
    forall i | 0 <= i < |q| && Deliverable(q[i], router, now) ensures q[i].status == Pending && q[i].action in acts {
      assert q[i] in q;
    }
  }

  /** Nothing deliverable concerns a rule whose correction is missing from the queue. */
  lemma NotTargeted(link: Link, acts: seq<Action>, desired: Desired, router: string, now: int, id: string)
    requires Reported(link, acts, desired, router)
    requires Wrong(desired, link.agent, id) ==> NoMatch(link.queue, Correction(desired, id), router)
    ensures !Targets(link.queue, router, now, id)
  {
    hide Wrong, IsPending, OwnWork, PendingDistinct, DistinctTargets;
    var q := link.queue;
    ReportedIsDistinct(link, acts, desired, router, now);
    forall i | 0 <= i < |q| && Deliverable(q[i], router, now) ensures q[i].action.RuleId() != id {
      var a := q[i].action;
      var k :| 0 <= k < |acts| && acts[k] == a;
      assert Wrong(desired, link.agent, a.RuleId()) && a == Correction(desired, a.RuleId());
      assert Matches(q[i], a, router);
    }
  }

  /** One rule through one drain: it is still wrong if and only if it was, and its
      correction was cut from the queue. */
  lemma DrainCorrects(link: Link, acts: seq<Action>, desired: Desired, router: string, now: int, id: string)
    requires Reported(link, acts, desired, router) && Keyed(desired)
    ensures Wrong(desired, Drain(link.queue, link.agent, router, now).1, id)
            <==> Wrong(desired, link.agent, id) && NoMatch(link.queue, Correction(desired, id), router)
  {
    hide Drain, DistinctTargets, OwnWork, PendingDistinct;
    var q, a := link.queue, Correction(desired, id);
    if Wrong(desired, link.agent, id) && !NoMatch(q, a, router) {
      assert a in acts && IsPending(q, a, router);
      var k: nat :| PendingAt(q, a, router, k);
      ReportedIsDistinct(link, acts, desired, router, now);
      assert Deliverable(q[k], router, now);
      DrainDelivers(q, link.agent, router, now, k);
    } else {
      NotTargeted(link, acts, desired, router, now, id);
      DrainUntouched(q, link.agent, router, now, id);
    }
  }

  lemma DrainAfterReport(link: Link, acts: seq<Action>, desired: Desired, router: string, now: int)
    requires Reported(link, acts, desired, router)
    ensures var q' := Drain(link.queue, link.agent, router, now).0;
            Quiet(q', router) && forall a :: NoMatch(link.queue, a, router) ==> NoMatch(q', a, router)
  {
    hide Corrects, IsPending, PendingDistinct;
    DrainQueue(link.queue, link.agent, router, now);
    var q, q' := link.queue, Drain(link.queue, link.agent, router, now).0;
    forall i | 0 <= i < |q'| && q'[i].router == router
      ensures q'[i].status != Pending && (q'[i].status == Delivered ==> q'[i].attempts >= MAX_ATTEMPTS)
    {
      assert q[i] in q;
      assert q'[i] == Handled(q[i], router, now);
    }
    forall a | NoMatch(q, a, router) ensures NoMatch(q', a, router) {
      forall i | 0 <= i < |q'| ensures !Matches(q'[i], a, router) {
        assert q'[i] == Handled(q[i], router, now) && !Matches(q[i], a, router);
      }
    }
  }

  /** A round from an in-flight-free state: the reported state, and a quiet queue beneath it. */
  lemma RoundReports(l0: Link, acts: seq<Action>, l1: Link, desired: Desired, router: string, t: int, u: int, id: nat)
    requires Round(l0, acts, l1, desired, router, t, u, id) && NothingInFlight(l0.queue, router, t)
    ensures Reported(l1, acts, desired, router)
  {
    hide Drain, Corrects, QueueAll, Reported, Quiet, NothingInFlight;
    DrainQuiets(l0.queue, l0.agent, router, t);
    ReportFromQuiet(Drain(l0.queue, l0.agent, router, t).0, l1.agent, acts, desired, router, u, id);
  }

  /** After the drain that follows a report, exactly the rules whose correction was cut
      from the queue are still wrong; the next report queues those, and of them at most the
      ones before the last five hundred are cut again. */
  lemma NextRoundLosesFew(l1: Link, acts1: seq<Action>, l2: Link, acts2: seq<Action>,
                              desired: Desired, router: string, t: int, u: int, id: nat)
    requires Reported(l1, acts1, desired, router) && Keyed(desired)
    requires Round(l1, acts2, l2, desired, router, t, u, id)
    ensures Reported(l2, acts2, desired, router)
    ensures forall a :: a in acts2 ==> NoMatch(l1.queue, a, router)
    ensures forall k :: 0 <= k < |acts2| && |acts2| - MAX_COMMANDS <= k ==> IsPending(l2.queue, acts2[k], router)
    ensures forall id :: Wrong(desired, l2.agent, id)
              <==> Wrong(desired, l1.agent, id) && NoMatch(l1.queue, Correction(desired, id), router)
  {
    hide Drain, QueueAll, Reported, Quiet, NoMatch, IsPending, Wrong, Correction;
    DrainAfterReport(l1, acts1, desired, router, t);
    forall id ensures Wrong(desired, l2.agent, id)
              <==> Wrong(desired, l1.agent, id) && NoMatch(l1.queue, Correction(desired, id), router)
    {
      DrainCorrects(l1, acts1, desired, router, t, id);
    }
    var q := Drain(l1.queue, l1.agent, router, t).0;
    ReportFromQuiet(q, l2.agent, acts2, desired, router, u, id);
    forall a | a in acts2 ensures NoMatch(l1.queue, a, router) && NoMatch(q, a, router) {
      var k :| 0 <= k < |acts2| && acts2[k] == a;
    }
    forall k | 0 <= k < |acts2| && |acts2| - MAX_COMMANDS <= k ensures IsPending(l2.queue, acts2[k], router) {
      QueueAllFresh(q, acts2, router, u, id, k);
    }
  }

  lemma PendingIsMatched(q: Queue, a: Action, router: string)
    requires IsPending(q, a, router)
    ensures !NoMatch(q, a, router)
  {
    var k: nat :| PendingAt(q, a, router, k);
    assert Matches(q[k], a, router);
  }

  lemma NothingToCorrect(acts: seq<Action>, desired: Desired, agent: Agent)
    requires Corrects(acts, desired, agent)
    ensures Agrees(desired, agent) <==> acts == []
  {
    hide Wrong, Agrees;
    AgreesIff(desired, agent);
    if acts != [] {
      assert Wrong(desired, agent, acts[0].RuleId());
    }
  }

  /** Every correction of the last report is still queued, so one drain settles the agent. */
  lemma SettledByNextRound(l1: Link, acts1: seq<Action>, l2: Link, acts2: seq<Action>,
                           desired: Desired, router: string, t: int, u: int, id: nat)
    requires Reported(l1, acts1, desired, router) && Keyed(desired)
    requires forall a :: a in acts1 ==> IsPending(l1.queue, a, router)
    requires Round(l1, acts2, l2, desired, router, t, u, id)
    ensures Agrees(desired, l2.agent) && acts2 == [] && Reported(l2, [], desired, router)
  {
    hide Drain, QueueAll, Quiet, NoMatch, IsPending, Wrong, Correction, OwnWork, PendingDistinct;
    NextRoundLosesFew(l1, acts1, l2, acts2, desired, router, t, u, id);
    forall id ensures !Wrong(desired, l2.agent, id) {
      if Wrong(desired, l1.agent, id) {
        assert Correction(desired, id) in acts1;
        PendingIsMatched(l1.queue, Correction(desired, id), router);
      }
    }
    AgreesIff(desired, l2.agent);
    NothingToCorrect(acts2, desired, l2.agent);
  }

  // -------------------------------------------------------------- main theorems

  /** Two rounds are enough exactly when the first report's corrections all stay queued. */
  lemma TwoRoundsIffNothingCut(l0: Link, acts1: seq<Action>, l1: Link, acts2: seq<Action>, l2: Link, desired: Desired,
                               router: string,
                               t1: int, u1: int, n1: nat, t2: int, u2: int, n2: nat)
    requires Keyed(desired) && NothingInFlight(l0.queue, router, t1)
    requires Round(l0, acts1, l1, desired, router, t1, u1, n1)
    requires Round(l1, acts2, l2, desired, router, t2, u2, n2)
    ensures Agrees(desired, l2.agent) && acts2 == []
            <==> forall a :: a in acts1 ==> IsPending(l1.queue, a, router)
  {
    hide Drain, QueueAll, Quiet, NoMatch, IsPending, Wrong, Correction, NothingInFlight, Round, OwnWork, PendingDistinct;
    RoundReports(l0, acts1, l1, desired, router, t1, u1, n1);
    NextRoundLosesFew(l1, acts1, l2, acts2, desired, router, t2, u2, n2);
    if forall a :: a in acts1 ==> IsPending(l1.queue, a, router) {
      SettledByNextRound(l1, acts1, l2, acts2, desired, router, t2, u2, n2);
    } else {
      var a :| a in acts1 && !IsPending(l1.queue, a, router);
      var k :| 0 <= k < |acts1| && acts1[k] == a;
      assert Wrong(desired, l1.agent, a.RuleId()) && a == Correction(desired, a.RuleId());
      assert NoMatch(l1.queue, a, router);
      assert Wrong(desired, l2.agent, a.RuleId());
    }
  }

  /** Two rounds suffice whenever the first report fits: at most 501 commands with it. */
  lemma TwoRoundsWithRoom(l0: Link, acts1: seq<Action>, l1: Link, acts2: seq<Action>, l2: Link, desired: Desired, router: string,
                          t1: int, u1: int, n1: nat, t2: int, u2: int, n2: nat)
    requires Keyed(desired) && NothingInFlight(l0.queue, router, t1)
    requires |l0.queue| + |acts1| <= MAX_COMMANDS + 1
    requires Round(l0, acts1, l1, desired, router, t1, u1, n1)
    requires Round(l1, acts2, l2, desired, router, t2, u2, n2)
    ensures Agrees(desired, l2.agent) && acts2 == []
  {
    hide QueueAll, Quiet, NoMatch, IsPending, Wrong, Correction, NothingInFlight, Enqueue;
    DrainQueue(l0.queue, l0.agent, router, t1);
    var q := Drain(l0.queue, l0.agent, router, t1).0;
    forall a | a in acts1 ensures IsPending(l1.queue, a, router) {
      var k :| 0 <= k < |acts1| && acts1[k] == a;
      QueueAllWithRoom(q, acts1, router, u1, n1, k);
    }
    TwoRoundsIffNothingCut(l0, acts1, l1, acts2, l2, desired, router, t1, u1, n1, t2, u2, n2);
  }

  /** Three rounds suffice, however full the queue is, if the second report itself fits. */
  lemma ThreeRounds(l0: Link, acts1: seq<Action>, l1: Link, acts2: seq<Action>, l2: Link, acts3: seq<Action>, l3: Link,
                    desired: Desired, router: string,
                    t1: int, u1: int, n1: nat, t2: int, u2: int, n2: nat, t3: int, u3: int, n3: nat)
    requires Keyed(desired) && NothingInFlight(l0.queue, router, t1) && |acts2| <= MAX_COMMANDS
    requires Round(l0, acts1, l1, desired, router, t1, u1, n1)
    requires Round(l1, acts2, l2, desired, router, t2, u2, n2)
    requires Round(l2, acts3, l3, desired, router, t3, u3, n3)
    ensures Agrees(desired, l3.agent) && acts3 == [] && Reported(l3, [], desired, router)
  {
    hide Round, Reported, NoMatch, IsPending, Wrong, NothingInFlight;
    RoundReports(l0, acts1, l1, desired, router, t1, u1, n1);
    NextRoundLosesFew(l1, acts1, l2, acts2, desired, router, t2, u2, n2);
    SettledByNextRound(l2, acts2, l3, acts3, desired, router, t3, u3, n3);
  }

  ghost predicate Rounds(links: seq<Link>, acts: seq<seq<Action>>, times: seq<(int, int, nat)>, desired: Desired,
                         router: string) {
    && |links| == |acts| + 1 == |times| + 1
    && forall i :: 0 <= i < |acts| ==> Round(links[i], acts[i], links[i + 1], desired, router, times[i].0, times[i].1, times[i].2)
  }

  function Shed(n: nat): nat {
    if n > MAX_COMMANDS then n - MAX_COMMANDS else 0
  }

  function RuleIds(acts: seq<Action>): set<string> {
    set i | 0 <= i < |acts| :: acts[i].RuleId()
  }

  lemma {:induction false} RuleIdsCount(acts: seq<Action>)
    ensures |RuleIds(acts)| <= |acts|
    ensures DifferentRules(acts) ==> |RuleIds(acts)| == |acts|
  {
    if acts != [] {
      var init, a := acts[..|acts| - 1], acts[|acts| - 1];
      RuleIdsCount(init);
      assert RuleIds(acts) == RuleIds(init) + {a.RuleId()};
    }
  }

  lemma FewerIds(few: set<string>, many: set<string>)
    requires few <= many
    ensures |few| <= |many|
  {
    assert many == few + (many - few);
  }

  /** A report of `acts2` whose last five hundred are pending is followed by one that is
      shorter by as many. */
  lemma ReportShrinks(l2: Link, acts2: seq<Action>, l3: Link, acts3: seq<Action>,
                      desired: Desired, router: string, t: int, u: int, id: nat)
    requires Reported(l2, acts2, desired, router) && Keyed(desired)
    requires forall k :: 0 <= k < |acts2| && |acts2| - MAX_COMMANDS <= k ==> IsPending(l2.queue, acts2[k], router)
    requires Round(l2, acts3, l3, desired, router, t, u, id)
    ensures |acts3| <= Shed(|acts2|)
  {
    hide Drain, QueueAll, Quiet, NoMatch, IsPending, Wrong, Correction, OwnWork, PendingDistinct;
    NextRoundLosesFew(l2, acts2, l3, acts3, desired, router, t, u, id);
    var cut := acts2[..Shed(|acts2|)];
    forall r | r in RuleIds(acts3) ensures r in RuleIds(cut) {
      var i :| 0 <= i < |acts3| && acts3[i].RuleId() == r;
      assert Wrong(desired, l3.agent, r) && NoMatch(l2.queue, Correction(desired, r), router);
      var k :| 0 <= k < |acts2| && acts2[k] == Correction(desired, r);
      if k >= |cut| {
        PendingIsMatched(l2.queue, acts2[k], router);
      }
      CorrectionRule(desired, r);
      assert cut[k].RuleId() == r;
    }
    RuleIdsCount(acts3);
    RuleIdsCount(cut);
    FewerIds(RuleIds(acts3), RuleIds(cut));
  }

  lemma CorrectionRule(desired: Desired, id: string)
    requires Keyed(desired)
    ensures Correction(desired, id).RuleId() == id
  {
  }

  lemma {:induction false} RoundsShrink(links: seq<Link>, acts: seq<seq<Action>>, times: seq<(int, int, nat)>,
                                        desired: Desired, router: string, k: nat)
    requires Keyed(desired) && Rounds(links, acts, times, desired, router) && 1 <= k < |acts|
    requires NothingInFlight(links[0].queue, router, times[0].0)
    ensures Reported(links[k + 1], acts[k], desired, router)
    ensures forall j :: 0 <= j < |acts[k]| && |acts[k]| - MAX_COMMANDS <= j ==> IsPending(links[k + 1].queue, acts[k][j], router)
    ensures |acts[k]| <= |acts[1]| && (|acts[k]| > 0 ==> |acts[k]| + MAX_COMMANDS * (k - 1) <= |acts[1]|)
  {
    hide Round, Reported, NoMatch, IsPending, Wrong, NothingInFlight;
    if k == 1 {
      RoundReports(links[0], acts[0], links[1], desired, router, times[0].0, times[0].1, times[0].2);
      NextRoundLosesFew(links[1], acts[0], links[2], acts[1], desired, router, times[1].0, times[1].1, times[1].2);
    } else {
      RoundsShrink(links, acts, times, desired, router, k - 1);
      var t := times[k];
      assert Round(links[k], acts[k], links[k + 1], desired, router, t.0, t.1, t.2);
      NextRoundLosesFew(links[k], acts[k - 1], links[k + 1], acts[k], desired, router, t.0, t.1, t.2);
      ReportShrinks(links[k], acts[k - 1], links[k + 1], acts[k], desired, router, t.0, t.1, t.2);
    }
  }

  /** For any agent and any queue without commands in flight: from the second report on,
      each round corrects at least five hundred rules or all of them, so the agent agrees
      after a number of rounds fixed by the second report's length. */
  lemma RoundsConverge(links: seq<Link>, acts: seq<seq<Action>>, times: seq<(int, int, nat)>, desired: Desired, router: string)
    requires Keyed(desired) && Rounds(links, acts, times, desired, router) && |acts| >= 3
    requires NothingInFlight(links[0].queue, router, times[0].0)
    requires |acts[1]| <= MAX_COMMANDS * (|acts| - 2)
    ensures acts[|acts| - 1] == [] && Agrees(desired, links[|acts|].agent) && Reported(links[|acts|], [], desired, router)
  {
    hide Round, Reported, NoMatch, IsPending, Wrong, NothingInFlight;
    var n := |acts| - 1;
    RoundsShrink(links, acts, times, desired, router, n);
    ReportedAgrees(links[n + 1], acts[n], desired, router);
  }

  lemma ReportedAgrees(link: Link, acts: seq<Action>, desired: Desired, router: string)
    requires Reported(link, acts, desired, router)
    ensures acts == [] ==> Agrees(desired, link.agent)
  {
    NothingToCorrect(acts, desired, link.agent);
  }

  /** ... and from any queue at all one more: a round later nothing delivered before is in flight. */
  lemma RoundClearsFlight(l0: Link, acts: seq<Action>, l1: Link, desired: Desired, router: string,
                          t: int, u: int, n: nat, next: int)
    requires Round(l0, acts, l1, desired, router, t, u, n)
    requires forall c :: c in l0.queue && c.status == Delivered ==> c.deliveredAt <= t
    requires t + RETRY_AFTER <= next
    ensures NothingInFlight(l1.queue, router, next)
  {
    hide QueueAll, Corrects;
    DrainQueue(l0.queue, l0.agent, router, t);
    var q := Drain(l0.queue, l0.agent, router, t).0;
    forall c | c in q && c.status == Delivered ensures c.deliveredAt <= t {
      var i :| 0 <= i < |q| && q[i] == c;
      assert q[i] == Handled(l0.queue[i], router, t) && l0.queue[i] in l0.queue;
    }
    QueueAllDelivered(q, acts, router, u, n, t);
    forall i | 0 <= i < |l1.queue| && l1.queue[i].router == router && l1.queue[i].status == Delivered
      ensures next - l1.queue[i].deliveredAt >= RETRY_AFTER
    {
      assert l1.queue[i] in l1.queue;
    }
  }

  lemma {:induction false} QueueAllDelivered(q: Queue, acts: seq<Action>, router: string, now: int, id: nat, t: int)
    requires forall c :: c in q && c.status == Delivered ==> c.deliveredAt <= t
    ensures forall c :: c in QueueAll(q, acts, router, now, id) && c.status == Delivered ==> c.deliveredAt <= t
  {
    hide Enqueue;
    if acts != [] {
      var init := acts[..|acts| - 1];
      QueueAllDelivered(q, init, router, now, id, t);
      EnqueueContents(QueueAll(q, init, router, now, id), acts[|acts| - 1], router, now, id + |acts| - 1);
    }
  }

  /** Once settled, later rounds deliver nothing, queue nothing and change nothing. */
  lemma StaysSettled(l1: Link, acts: seq<Action>, l2: Link, desired: Desired, router: string, t: int, u: int, n: nat)
    requires Reported(l1, [], desired, router) && Agrees(desired, l1.agent)
    requires Round(l1, acts, l2, desired, router, t, u, n)
    ensures acts == [] && l2 == l1
  {
    hide Wrong, PendingDistinct;
    forall i | 0 <= i < |l1.queue| ensures !Deliverable(l1.queue[i], router, t) {
      assert l1.queue[i] in l1.queue;
    }
    WaitingNone(l1.queue, router, t);
    NothingWaiting(l1.queue, l1.agent, router, t);
    NothingToCorrect(acts, desired, l1.agent);
  }

  lemma {:induction false} WaitingNone(q: Queue, router: string, now: int)
    requires forall i :: 0 <= i < |q| ==> !Deliverable(q[i], router, now)
    ensures Waiting(q, router, now) == 0
  {
    if q != [] {
      WaitingNone(q[1..], router, now);
    }
  }

  lemma FourRounds(links: seq<Link>, acts: seq<seq<Action>>, times: seq<(int, int, nat)>, desired: Desired, router: string)
    requires |links| == 5 && |acts| == 4 && |times| == 4 && Keyed(desired)
    requires forall c :: c in links[0].queue && c.status == Delivered ==> c.deliveredAt <= times[0].0
    requires times[0].0 + RETRY_AFTER <= times[1].0 && |acts[2]| <= MAX_COMMANDS
    requires forall i :: 0 <= i < 4 ==>
      Round(links[i], acts[i], links[i + 1], desired, router, times[i].0, times[i].1, times[i].2)
    ensures Agrees(desired, links[4].agent) && acts[3] == [] && Reported(links[4], [], desired, router)
  {
    hide Round, Reported, Agrees, NothingInFlight;
    RoundClearsFlight(links[0], acts[0], links[1], desired, router, times[0].0, times[0].1, times[0].2, times[1].0);
    ThreeRounds(links[1], acts[1], links[2], acts[2], links[3], acts[3], links[4], desired, router,
                times[1].0, times[1].1, times[1].2, times[2].0, times[2].1, times[2].2, times[3].0, times[3].1, times[3].2);
  }

  // ------------------------------------------------------------- what does not hold

  /** Five hundred commands: a used-up upsert of `r` at the head, the rest done a moment ago. */
  ghost function FullQueue(r: Rule, router: string, now: int): (q: Queue) {
    seq(MAX_COMMANDS, i requires 0 <= i < MAX_COMMANDS =>
      if i == 0 then Command(0, router, UpsertRule(r), Delivered, MAX_ATTEMPTS, now, 0)
      else Command(i, router, DeleteRule("gone"), Done, 1, now, now))
  }

  /** With the queue full, a correction revived at the head is cut off by the next two: the
      second round leaves that rule wrong, so two rounds are not enough for every queue. */
  lemma FullQueueCutsACorrection(a: Rule, b: Rule, c: Rule, router: string, now: int)
    requires a.id != b.id && b.id != c.id && a.id != c.id
    ensures var desired := map[a.id := a, b.id := b, c.id := c];
            var acts := [UpsertRule(a), UpsertRule(b), UpsertRule(c)];
            var q0 := FullQueue(a, router, now);
            && Corrects(acts, desired, map[])
            && Round(Link(q0, map[]), acts, Link(QueueAll(q0, acts, router, now, 500), map[]), desired, router, now, now, 500)
            && Wrong(desired, Drain(QueueAll(q0, acts, router, now, 500), map[], router, now).1, a.id)
  {
    var desired := map[a.id := a, b.id := b, c.id := c];
    var acts := [UpsertRule(a), UpsertRule(b), UpsertRule(c)];
    var q0 := FullQueue(a, router, now);
    ThreeCorrections(a, b, c);
    WaitingNone(q0, router, now);
    NothingWaiting(q0, map[], router, now);
    var q1 := QueueAll(q0, acts, router, now, 500);
    var l1 := Link(q1, map[]);
    ReportFromQuiet(q0, map[], acts, desired, router, now, 500);
    HeadIsCut(a, b, c, router, now);
    DrainCorrects(l1, acts, desired, router, now, a.id);
  }

  lemma ThreeCorrections(a: Rule, b: Rule, c: Rule)
    requires a.id != b.id && b.id != c.id && a.id != c.id
    ensures Corrects([UpsertRule(a), UpsertRule(b), UpsertRule(c)], map[a.id := a, b.id := b, c.id := c], map[])
    ensures Keyed(map[a.id := a, b.id := b, c.id := c])
  {
    var acts := [UpsertRule(a), UpsertRule(b), UpsertRule(c)];
    var desired := map[a.id := a, b.id := b, c.id := c];
    forall id | Wrong(desired, map[], id) ensures Correction(desired, id) in acts {
      assert acts[0] in acts && acts[1] in acts && acts[2] in acts;
    }
  }

  lemma {:induction false} NoMatchNoIndex(q: Queue, a: Action, router: string)
    requires NoMatch(q, a, router)
    ensures LastMatch(q, a, router) == -1
  {
    LastMatchIs(q, a, router);
  }

  /** Queueing in a queue of active or recently finished commands, nothing of this kind active. */
  lemma EnqueueAppends(q: Queue, a: Action, router: string, now: int, id: nat)
    requires forall i :: 0 <= i < |q| ==> q[i].Active() || now - q[i].finishedAt <= FINISHED_TTL
    requires NoMatch(Newest(q), a, router)
    ensures Enqueue(q, a, router, now, id) == Newest(q) + [Command(id, router, a, Pending, 0, 0, 0)]
  {
    ActiveStay(q, now);
    NoMatchNoIndex(Newest(q), a, router);
  }

  lemma HeadIsRevived(a: Rule, router: string, now: int)
    ensures var q0 := FullQueue(a, router, now);
            Enqueue(q0, UpsertRule(a), router, now, 500) == q0[0 := q0[0].(status := Pending)]
  {
    var q0 := FullQueue(a, router, now);
    ActiveStay(q0, now);
    LastMatchIs(q0, UpsertRule(a), router);
    assert Matches(q0[0], UpsertRule(a), router);
  }

  /** The full queue after the corrections of `a` and `b`: one command too many. */
  ghost function Overfull(a: Rule, b: Rule, router: string, now: int): Queue {
    var q0 := FullQueue(a, router, now);
    q0[0 := q0[0].(status := Pending)] + [Command(501, router, UpsertRule(b), Pending, 0, 0, 0)]
  }

  lemma HeadStaysForNow(a: Rule, b: Rule, router: string, now: int)
    requires a.id != b.id
    ensures QueueAll(FullQueue(a, router, now), [UpsertRule(a), UpsertRule(b)], router, now, 500) == Overfull(a, b, router, now)
  {
    hide Expire, LastMatch, Enqueue;
    var q0 := FullQueue(a, router, now);
    HeadIsRevived(a, router, now);
    EnqueueAppends(q0[0 := q0[0].(status := Pending)], UpsertRule(b), router, now, 501);
    assert [UpsertRule(a), UpsertRule(b)][..1] == [UpsertRule(a)] && [UpsertRule(a)][..0] == [];
    assert QueueAll(q0, [], router, now, 500) == q0;
  }

  lemma HeadIsCut(a: Rule, b: Rule, c: Rule, router: string, now: int)
    requires a.id != b.id && b.id != c.id && a.id != c.id
    ensures NoMatch(QueueAll(FullQueue(a, router, now), [UpsertRule(a), UpsertRule(b), UpsertRule(c)], router, now, 500),
                    UpsertRule(a), router)
  {
    hide Expire, LastMatch, Enqueue;
    var acts := [UpsertRule(a), UpsertRule(b), UpsertRule(c)];
    HeadStaysForNow(a, b, router, now);
    EnqueueAppends(Overfull(a, b, router, now), acts[2], router, now, 502);
    assert acts[..2] == [UpsertRule(a), UpsertRule(b)];
  }
}
