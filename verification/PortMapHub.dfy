/** The port-map state the Hub updates in place: its rule rows and its command queue. */
module PortMapHub {
  import opened PortMapRules
  import opened PortMapSync
  import opened PortMapConvergence
  import PagedFetch
  import opened Wrappers

  // ------------------------------------------------------------- command numbers

  /** Command ids are distinct and were all handed out before `next`. */
  ghost predicate Numbered(q: Queue, next: nat) {
    UniqueIds(q) && forall c :: c in q ==> c.id < next
  }

  lemma {:induction false} ExpireNumbered(q: Queue, now: int, next: nat)
    requires Numbered(q, next)
    ensures Numbered(Expire(q, now), next)
  {
    if q != [] {
      var init, c := q[..|q| - 1], q[|q| - 1];
      assert forall x :: x in init ==> x in q;
      ExpireNumbered(init, now, next);
      ExpireKeeps(init, now, c.action, "");
      var rest := Expire(init, now);
      forall i | 0 <= i < |rest| ensures rest[i].id != c.id {
        assert rest[i] in rest;
        var k :| 0 <= k < |init| && init[k] == rest[i];
        assert q[k] == rest[i];
      }
    }
  }

  lemma EnqueueNumbered(q: Queue, a: Action, router: string, now: int, next: nat)
    requires Numbered(q, next)
    ensures Numbered(Enqueue(q, a, router, now, next), next + 1)
  {
    hide Expire, LastMatch, Matches;
    ExpireNumbered(q, now, next);
    var kept := Newest(Expire(q, now));
    assert Numbered(kept, next) by {
      assert forall c :: c in kept ==> c in Expire(q, now);
    }
    var i := LastMatch(kept, a, router);
    if i >= 0 {
      SameIdsNumbered(kept, kept[i := kept[i].(action := a, status := Pending)], next);
    } else {
      forall k | 0 <= k < |kept| ensures kept[k].id < next {
        assert kept[k] in kept;
      }
    }
  }

  lemma SameIdsNumbered(q: Queue, q': Queue, next: nat)
    requires Numbered(q, next) && |q'| == |q| && forall i :: 0 <= i < |q| ==> q'[i].id == q[i].id
    ensures Numbered(q', next)
  {
    forall c | c in q' ensures c.id < next {
      var i :| 0 <= i < |q'| && q'[i] == c;
      assert q[i] in q;
    }
  }

  // --------------------------------------------------------------- loop helpers

  function Due(router: string, now: int): Command -> bool {
    c => Deliverable(c, router, now)
  }

  function Mark(now: int): Command -> Command {
    c => Deliver(c, now)
  }

  lemma {:induction false} FetchIsPaged(q: Queue, router: string, now: int, limit: nat)
    ensures Fetch(q, router, now, limit) == PagedFetch.Fetch(q, Due(router, now), Mark(now), limit)
  {
    hide Deliverable, Deliver;
    if q != [] && limit > 0 {
      FetchIsPaged(q[1..], router, now, if Deliverable(q[0], router, now) then limit - 1 else limit);
    }
  }

  lemma LastMatchSkips(q: Queue, a: Action, router: string, i: nat)
    requires i < |q| && LastMatch(q, a, router) == LastMatch(q[..i + 1], a, router)
    ensures LastMatch(q, a, router) == if Matches(q[i], a, router) then i else LastMatch(q[..i], a, router)
  {
    assert q[..i + 1][..i] == q[..i];
  }

  /** Corrections queued one after another. */
  lemma QueueAllSnoc(q: Queue, acts: seq<Action>, a: Action, router: string, now: int, id: nat)
    ensures QueueAll(q, acts + [a], router, now, id) == Enqueue(QueueAll(q, acts, router, now, id), a, router, now, id + |acts|)
  {
    hide Enqueue;
    assert (acts + [a])[..|acts|] == acts;
  }

  /** `acts` corrects exactly the wrong rules outside `left`, once each. */
  ghost predicate CorrectsBut(acts: seq<Action>, desired: Desired, local: Agent, left: set<string>) {
    && (forall i :: 0 <= i < |acts| ==>
          Wrong(desired, local, acts[i].RuleId()) && acts[i].RuleId() !in left
              && acts[i] == Correction(desired, acts[i].RuleId()))
    && DifferentRules(acts)
    && (forall id :: Wrong(desired, local, id) && id !in left ==> Correction(desired, id) in acts)
  }

  lemma CorrectsNone(desired: Desired, local: Agent)
    ensures CorrectsBut([], desired, local, desired.Keys + (local.Keys - desired.Keys))
  {
  }

  lemma CorrectsAll(acts: seq<Action>, desired: Desired, local: Agent)
    requires CorrectsBut(acts, desired, local, {})
    ensures Corrects(acts, desired, local)
  {
  }

  lemma CorrectsOneMore(acts: seq<Action>, desired: Desired, local: Agent, left: set<string>, id: string)
    requires Keyed(desired) && CorrectsBut(acts, desired, local, left) && id in left
    ensures Wrong(desired, local, id) ==> CorrectsBut(acts + [Correction(desired, id)], desired, local, left - {id})
    ensures !Wrong(desired, local, id) ==> CorrectsBut(acts, desired, local, left - {id})
  {
    hide Wrong;
    if Wrong(desired, local, id) {
      var more := acts + [Correction(desired, id)];
      forall k | Wrong(desired, local, k) && k !in left - {id} ensures Correction(desired, k) in more {
        assert k == id ==> more[|acts|] == Correction(desired, k);
      }
    }
  }

  class Hub {
    const router: string
    var rules: seq<Rule>
    var commands: Queue
    var nextId: nat

    /** The queue's ids are in order; the store is consistent only while ids are not reused. */
    ghost predicate Valid()
      reads this
    {
      Numbered(commands, nextId)
    }

    constructor (router: string)
      ensures Valid() && StoreOk(rules) && rules == [] && commands == [] && this.router == router
    {
      this.router := router;
      rules, commands, nextId := [], [], 0;
    }

    // --------------------------------------------------------------- the queue

    /** Drop commands finished more than a day ago and keep the newest five hundred. */
    method CleanCommands(now: int)
      modifies `commands
      ensures commands == Newest(Expire(old(commands), now))
    {
      var kept := [];
      for i := 0 to |commands|
        invariant commands == old(commands) && kept == Expire(commands[..i], now)
      {
        assert commands[..i + 1][..i] == commands[..i];
        if commands[i].Active() || now - commands[i].finishedAt <= FINISHED_TTL {
          kept := kept + [commands[i]];
        }
      }
      assert commands[..|commands|] == commands;
      commands := if |kept| > MAX_COMMANDS then kept[|kept| - MAX_COMMANDS..] else kept;
    }

    method QueueCommand(a: Action, now: int)
      modifies `commands, `nextId
      ensures commands == Enqueue(old(commands), a, router, now, old(nextId)) && nextId == old(nextId) + 1
      ensures old(Valid()) ==> Valid()
    {
      hide Numbered, Expire, Newest;
      if Numbered(commands, nextId) {
        EnqueueNumbered(commands, a, router, now, nextId);
      }
      CleanCommands(now);
      var kept := commands;
      nextId := nextId + 1;
      var i := |kept|;
      assert kept[..i] == kept;
      while i > 0
        invariant 0 <= i <= |kept| && commands == kept && nextId == old(nextId) + 1
        invariant LastMatch(kept, a, router) == LastMatch(kept[..i], a, router)
      {
        i := i - 1;
        LastMatchSkips(kept, a, router, i);
        var c := kept[i];
        if c.router == router && c.Active() && c.action.Same(a) {
          commands := kept[i := c.(action := a, status := Pending)];
          return;
        }
      }
      commands := kept + [Command(nextId - 1, router, a, Pending, 0, 0, 0)];
    }

    /** GET /api/router/portmaps/commands */
    method FetchCommands(asking: string, now: int, limit: nat) returns (selected: seq<Command>)
      requires limit > 0
      modifies `commands
      ensures (commands, selected) == Fetch(old(commands), asking, now, limit)
      ensures old(Valid()) ==> Valid()
    {
      hide Numbered, PagedFetch.SoFar, PagedFetch.Fetch;
      var q := commands;
      var due, mark := Due(asking, now), Mark(now);
      PagedFetch.Starts(q, due, mark, limit);
      selected := [];
      var i := 0;
      while i < |q| && |selected| < limit
        invariant 0 <= i <= |q| == |commands| && |selected| <= limit
        invariant commands[i..] == q[i..]
        invariant PagedFetch.SoFar(q, due, mark, limit, i, commands[..i], selected)
      {
        PagedFetch.Advances(q, due, mark, limit, i, commands[..i], selected);
        var c := q[i];
        if c.router == asking
           && (c.status == Pending
               || (c.status == Delivered && now - c.deliveredAt >= RETRY_AFTER && c.attempts < MAX_ATTEMPTS)) {
          assert commands[i := Deliver(c, now)][..i + 1] == commands[..i] + [Deliver(c, now)];
          commands := commands[i := Deliver(c, now)];
          selected := selected + [c];
        } else {
          assert commands[i] == commands[i..][0] == q[i..][0];
          assert commands[..i + 1] == commands[..i] + [q[i]];
        }
        i := i + 1;
      }
      PagedFetch.Ends(q, due, mark, limit, i, commands, selected);
      FetchIsPaged(q, asking, now, limit);
      FetchIds(q, asking, now, limit);
      if Numbered(q, nextId) {
        SameIdsNumbered(q, commands, nextId);
      }
    }

    /** POST /api/router/portmaps/ack */
    method AckCommands(acks: map<nat, bool>, now: int)
      modifies `commands
      ensures commands == Ack(old(commands), acks, now)
      ensures old(Valid()) ==> Valid()
    {
      var q := commands;
      for i := 0 to |q|
        invariant |commands| == |q|
        invariant forall k :: 0 <= k < |q| ==> commands[k] == if k < i then Ack(q, acks, now)[k] else q[k]
      {
        if q[i].id in acks {
          commands := commands[i := Finish(q[i], acks[q[i].id], now)];
        }
      }
      if Numbered(q, nextId) {
        SameIdsNumbered(q, commands, nextId);
      }
    }

    /** The agent fetches, executes and acknowledges pages until one comes back empty:
        page by page, exactly what one pass over everything deliverable does. */
    method DrainByPages(agent: Agent, now: int, limit: nat) returns (after: Agent)
      requires Valid() && limit > 0
      modifies `commands
      ensures (commands, after) == Drain(old(commands), agent, router, now)
      ensures Valid()
    {
      hide Drain, Fetch, Ack, Deliverable, StoreOk, Numbered;
      after := agent;
      var more := true;
      while more
        invariant Valid()
        invariant Drain(commands, after, router, now) == Drain(old(commands), agent, router, now)
        invariant !more ==> Waiting(commands, router, now) == 0
        decreases more, Waiting(commands, router, now)
      {
        ghost var before := commands;
        UniqueNumbers(before, nextId);
        PageThenDrain(before, after, router, now, limit);
        PageProgress(before, after, router, now, limit);
        WaitingSelected(before, router, now, limit);
        var selected := FetchCommands(router, now, limit);
        AckCommands(OkAcks(selected), now);
        after := ExecuteAll(after, selected);
        more := selected != [];
      }
      NothingWaiting(commands, after, router, now);
    }

    // -------------------------------------------------------- operator requests

    /** create: refused, or the rule is stored and its upsert queued. */
    method CreateRule(id: string, request: Request, now: int) returns (ok: bool)
      requires Valid()
      modifies this
      ensures Valid()
      ensures old(StoreOk(rules)) && FindRule(old(rules), id).None? ==> StoreOk(rules)
      ensures var next := Perform(old(rules), Create(id, request));
              && ok == next.Some?
              && (if ok then rules == next.value
                  && commands == Enqueue(old(commands), UpsertRule(Clean(id, request).value), router, now, old(nextId))
                  else rules == old(rules) && commands == old(commands))
    {
      hide StoreOk, Numbered, Enqueue;
      var rule := Clean(id, request);
      if rule.None? || Conflicts(rules, rule.value) {
        return false;
      }
      if StoreOk(rules) {
        CreateNeedsFreshId(rules, id, request);
      }
      rules := SavedRules(rules + [rule.value]);
      QueueCommand(UpsertRule(rule.value), now);
      ok := true;
    }

    /** edit */
    method EditRule(id: string, request: Request, now: int) returns (ok: bool)
      requires Valid()
      modifies this
      ensures Valid() && (old(StoreOk(rules)) ==> StoreOk(rules))
      ensures var next := Perform(old(rules), Edit(id, request));
              && ok == next.Some?
              && (if ok then rules == next.value
                  && commands == Enqueue(old(commands), UpsertRule(Clean(id, request).value), router, now, old(nextId))
                  else rules == old(rules) && commands == old(commands))
    {
      hide StoreOk, Numbered, Enqueue;
      var rule := Clean(id, request);
      if FindRule(rules, id).None? || rule.None? || Conflicts(rules, rule.value) {
        return false;
      }
      if StoreOk(rules) {
        PerformKeepsStore(rules, Edit(id, request));
      }
      rules := SavedRules(Replace(rules, rule.value));
      QueueCommand(UpsertRule(rule.value), now);
      ok := true;
    }

    method DeleteRuleById(id: string, now: int) returns (ok: bool)
      requires Valid()
      modifies this
      ensures Valid() && (old(StoreOk(rules)) ==> StoreOk(rules))
      ensures ok == FindRule(old(rules), id).Some? && FindRule(rules, id).None?
      ensures ok ==> Perform(old(rules), Delete(id)) == Some(rules)
      ensures ok ==> commands == Enqueue(old(commands), DeleteRule(id), router, now, old(nextId))
      ensures !ok ==> rules == old(rules) && commands == old(commands)
    {
      if FindRule(rules, id).None? {
        return false;
      }
      hide StoreOk, Numbered, Enqueue;
      if StoreOk(rules) {
        PerformKeepsStore(rules, Delete(id));
      }
      RemovedIsGone(rules, id);
      rules := SavedRules(Remove(rules, id));
      QueueCommand(DeleteRule(id), now);
      ok := true;
    }

    /** start queues an upsert of the switched-on rule, stop a stop command. */
    method SwitchRule(id: string, on: bool, now: int) returns (ok: bool)
      requires Valid()
      modifies this
      ensures Valid() && (old(StoreOk(rules)) ==> StoreOk(rules))
      ensures var next := Perform(old(rules), if on then Start(id, now) else Stop(id));
              && ok == next.Some?
              && (if ok then rules == next.value else rules == old(rules) && commands == old(commands))
      ensures ok && on ==>
                var started := Started(FindRule(old(rules), id).value, now).value;
                commands == Enqueue(old(commands), UpsertRule(started), router, now, old(nextId))
      ensures ok && !on ==> commands == Enqueue(old(commands), StopRule(id), router, now, old(nextId))
    {
      hide StoreOk, Numbered, Enqueue, SavedRules;
      var found := FindRule(rules, id);
      if found.None? {
        return false;
      }
      var rule := found.value.(enabled := on);
      if on && rule.expiresAt.Some? && rule.expiresAt.value <= now {
        if rule.leaseSeconds <= 0 {
          return false;
        }
        rule := rule.(expiresAt := Some(now + rule.leaseSeconds));
      }
      if StoreOk(rules) {
        PerformKeepsStore(rules, if on then Start(id, now) else Stop(id));
      }
      rules := SavedRules(Replace(rules, rule));
      QueueCommand(if on then UpsertRule(rule) else StopRule(id), now);
      ok := true;
    }

    // ----------------------------------------------------------- status reports

    /** Queued so far by a report: `acts`, from the state (q, id). */
    ghost predicate Queued(acts: seq<Action>, q: Queue, id: nat, now: int)
      reads this
    {
      commands == QueueAll(q, acts, router, now, id) && nextId == id + |acts|
    }

    /** One more correction. */
    method QueueOneMore(a: Action, now: int, ghost acts: seq<Action>, ghost q: Queue, ghost id: nat)
      requires Valid() && Queued(acts, q, id, now)
      modifies `commands, `nextId
      ensures Valid() && Queued(acts + [a], q, id, now)
    {
      hide Enqueue, StoreOk, Numbered;
      QueueAllSnoc(q, acts, a, router, now, id);
      QueueCommand(a, now);
    }

    /** An upsert for each desired rule the agent lacks or has different. */
    method QueueUpserts(desired: Desired, local: Agent, now: int) returns (ghost acts: seq<Action>)
      requires Valid() && Keyed(desired)
      modifies `commands, `nextId
      ensures Valid() && Queued(acts, old(commands), old(nextId), now)
      ensures CorrectsBut(acts, desired, local, local.Keys - desired.Keys)
    {
      hide QueueAll, StoreOk, Numbered, SameCompared, CorrectsBut, Keyed;
      ghost var rest := desired.Keys + (local.Keys - desired.Keys);
      CorrectsNone(desired, local);
      NothingQueued(commands, router, now, nextId);
      acts := [];
      var left := desired.Keys;
      while left != {}
        invariant Valid()
        invariant forall id :: id in rest <==> id in left || (id in local && id !in desired)
        invariant forall id :: id in left ==> id in desired
        invariant CorrectsBut(acts, desired, local, rest)
        invariant Queued(acts, old(commands), old(nextId), now)
        decreases |left|
      {
        var id :| id in left;
        CorrectsOneMore(acts, desired, local, rest, id);
        if id !in local || !SameCompared(local[id], desired[id]) {
          QueueOneMore(UpsertRule(desired[id]), now, acts, old(commands), old(nextId));
          acts := acts + [UpsertRule(desired[id])];
        }
        left, rest := left - {id}, rest - {id};
      }
      assert rest == local.Keys - desired.Keys;
    }

    /** reconcile: the upserts, then a delete for each rule the agent should not have. */
    method Reconcile(local: Agent, now: int) returns (ghost acts: seq<Action>)
      requires Valid()
      modifies `commands, `nextId
      ensures Valid()
      ensures Corrects(acts, DesiredOf(rules), local)
      ensures commands == QueueAll(old(commands), acts, router, now, old(nextId)) && nextId == old(nextId) + |acts|
    {
      hide QueueAll, StoreOk, Numbered, SameCompared, CorrectsBut, Corrects, DesiredOf, Keyed;
      var desired := DesiredOf(rules);
      DesiredIsKeyed(rules);
      acts := QueueUpserts(desired, local, now);
      var left := local.Keys - desired.Keys;
      while left != {}
        invariant left <= local.Keys - desired.Keys && Valid()
        invariant CorrectsBut(acts, desired, local, left)
        invariant Queued(acts, old(commands), old(nextId), now)
        decreases |left|
      {
        var id :| id in left;
        CorrectsOneMore(acts, desired, local, left, id);
        QueueOneMore(DeleteRule(id), now, acts, old(commands), old(nextId));
        acts := acts + [DeleteRule(id)];
        left := left - {id};
      }
      CorrectsAll(acts, desired, local);
    }
  }

  lemma NothingQueued(q: Queue, router: string, now: int, id: nat)
    ensures QueueAll(q, [], router, now, id) == q
  {
  }

  lemma UniqueNumbers(q: Queue, next: nat)
    requires Numbered(q, next)
    ensures UniqueIds(q)
  {
  }

  lemma {:induction false} RemoveLeavesOthers(rows: seq<Rule>, id: string)
    ensures forall r :: r in Remove(rows, id) ==> r.id != id
  {
    if rows != [] {
      RemoveLeavesOthers(rows[..|rows| - 1], id);
    }
  }

  lemma SavedMember(rows: seq<Rule>, i: nat)
    requires i < |SavedRules(rows)|
    ensures SavedRules(rows)[i] in rows
  {
    hide SortRules;
    var last := if |rows| > MAX_RULES then rows[|rows| - MAX_RULES..] else rows;
    SortRulesRows(last);
    MultisetMember(SavedRules(rows), i);
    assert SavedRules(rows)[i] in last;
  }

  lemma RemovedIsGone(rows: seq<Rule>, id: string)
    ensures FindRule(SavedRules(Remove(rows, id)), id).None?
  {
    hide SavedRules;
    var saved := SavedRules(Remove(rows, id));
    RemoveLeavesOthers(rows, id);
    FindRuleAt(saved, id);
    forall i | 0 <= i < |saved| ensures saved[i].id != id {
      SavedMember(Remove(rows, id), i);
    }
  }
}
