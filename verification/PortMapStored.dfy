/** What each accepted request leaves in the stored port-map rules (hub.py). */
module PortMapStored {
  import opened Json
  import opened PortMapRules
  import opened Wrappers

  predicate SameTransport(a: Option<Protocol>, b: Option<Protocol>) {
    a == Some(UDP) <==> b == Some(UDP)
  }

  /** The stored rule says what the request said: switch, port, transport, target, lease, and
      limits where they are in range. */
  predicate Carries(r: Rule, q: Rule) {
    && r.name == q.name && r.enabled == q.enabled && r.notes == q.notes
    && r.listenPort == q.listenPort && r.transport.Some? && SameTransport(r.transport, q.transport)
    && r.settings.mode == q.settings.mode && r.settings.targetPort == q.settings.targetPort
    && r.settings.targetMac == q.settings.targetMac
    && CarriesTarget(r.settings, q.settings)
    && (1 <= q.settings.maxConnections <= 256 ==> r.settings.maxConnections == q.settings.maxConnections)
    && 1 <= r.settings.maxConnections <= 256
    && (30 <= q.settings.idleTimeoutSec <= 3600 ==> r.settings.idleTimeoutSec == q.settings.idleTimeoutSec)
    && 30 <= r.settings.idleTimeoutSec <= 3600
    && r.expiresAt == q.expiresAt
    && (r.expiresAt.None? ==> r.leaseSeconds == 0)
    && (r.expiresAt.Some? && 0 <= q.leaseSeconds <= 604800 ==> r.leaseSeconds == q.leaseSeconds)
  }

  /** The address of the request's kind of target, and no other. */
  predicate CarriesTarget(s: Settings, q: Settings) {
    if q.mode == "6to4" then
      s.targetMode == "ipv4" && s.targetIpv4 == q.targetIpv4 && s.targetIpv6 == "" && s.targetIpv6Suffix == ""
    else if q.targetMode == "ipv6_full" then
      s.targetMode == "ipv6_full" && s.targetIpv6 == q.targetIpv6 && s.targetIpv4 == "" && s.targetIpv6Suffix == ""
    else
      s.targetMode == "ipv6_suffix" && s.targetIpv6Suffix == q.targetIpv6Suffix && s.targetIpv4 == "" && s.targetIpv6 == ""
  }

  /** What a request must say to be accepted at all. */
  predicate WellFormed(q: Request) {
    && q.rule.settings.mode in {"6to4", "6to6"}
    && 20000 <= q.rule.listenPort <= 20020
    && 1 <= q.rule.settings.targetPort <= 65535
    && q.rule.name != "" && q.addressesValid
  }

  /** Another rule already listens on the request's port with its transport. */
  predicate Taken(rows: seq<Rule>, id: string, q: Rule) {
    exists x :: x in rows && x.id != id && x.listenPort == q.listenPort && SameTransport(x.transport, q.transport)
  }

  lemma CleanCarries(id: string, q: Request)
    ensures Clean(id, q).Some? <==> WellFormed(q)
    ensures WellFormed(q) ==> Clean(id, q).value.id == id && Carries(Clean(id, q).value, q.rule)
  {
  }

  lemma ConflictsIff(rows: seq<Rule>, id: string, q: Request)
    requires WellFormed(q)
    ensures Conflicts(rows, Clean(id, q).value) <==> Taken(rows, id, q.rule)
  {
    hide WellFormed;
    CleanCarries(id, q);
    var r := Clean(id, q).value;
    forall x ensures SameChannel(x, r) <==> x.listenPort == q.rule.listenPort && SameTransport(x.transport, q.rule.transport) {
      assert Effective(x.transport) == UDP <==> x.transport == Some(UDP);
      assert Effective(r.transport) == UDP <==> r.transport == Some(UDP);
    }
  }

  /** A create is refused exactly for a malformed request or a taken port; else it adds one
      rule that says what the request said, and loses none. */
  lemma CreateStores(rows: seq<Rule>, id: string, q: Request)
    requires StoreOk(rows)
    ensures var after := Perform(rows, Create(id, q));
            && (after.Some? <==> WellFormed(q) && !Taken(rows, id, q.rule))
            && (after.Some? ==> exists r: Rule :: r.id == id && Carries(r, q.rule)
                                  && multiset(after.value) == multiset(rows) + multiset{r})
  {
    hide Conflicts, WellFormed, Taken, Carries, StoreOk, SavedRules, SameRows;
    CleanCarries(id, q);
    if WellFormed(q) {
      ConflictsIff(rows, id, q);
      AtMostFortyTwo(rows);
      var r := Clean(id, q).value;
      if !Taken(rows, id, q.rule) {
        SavedKeeps(rows + [r]);
        SameRowsMeans(SavedRules(rows + [r]), rows + [r]);
        assert multiset(rows + [r]) == multiset(rows) + multiset{r};
      }
    }
  }

  lemma SameRowsMeans(a: seq<Rule>, b: seq<Rule>)
    requires SameRows(a, b)
    ensures multiset(a) == multiset(b) && forall x :: x in a <==> x in b
  {
    assert forall x :: x in a <==> x in multiset(a);
    assert forall x :: x in b <==> x in multiset(b);
  }

  lemma ReplaceMembers(rows: seq<Rule>, r: Rule)
    requires exists x :: x in rows && x.id == r.id
    ensures forall x :: x in Replace(rows, r) <==> x == r || (x in rows && x.id != r.id)
  {
    var after := Replace(rows, r);
    forall x ensures x in after <==> x == r || (x in rows && x.id != r.id) {
      if x in rows && x.id != r.id {
        var i :| 0 <= i < |rows| && rows[i] == x;
        assert after[i] == x;
      }
      if x == r {
        var y :| y in rows && y.id == r.id;
        var i :| 0 <= i < |rows| && rows[i] == y;
        assert after[i] == r;
      }
      if x in after {
        var i :| 0 <= i < |after| && after[i] == x;
        assert rows[i] in rows;
      }
    }
  }

  lemma ReplaceSaved(rows: seq<Rule>, r: Rule)
    requires StoreOk(rows) && exists x :: x in rows && x.id == r.id
    ensures forall x :: x in SavedRules(Replace(rows, r)) <==> x == r || (x in rows && x.id != r.id)
  {
    hide StoreOk, SavedRules, SameRows;
    AtMostFortyTwo(rows);
    SavedKeeps(Replace(rows, r));
    SameRowsMeans(SavedRules(Replace(rows, r)), Replace(rows, r));
    ReplaceMembers(rows, r);
  }

  ghost predicate Stored(rows: seq<Rule>, id: string) {
    exists x :: x in rows && x.id == id
  }

  lemma FoundIff(rows: seq<Rule>, id: string)
    ensures FindRule(rows, id).Some? <==> Stored(rows, id)
    ensures FindRule(rows, id).Some? ==> FindRule(rows, id).value in rows && FindRule(rows, id).value.id == id
  {
    FindRuleAt(rows, id);
    if x :| x in rows && x.id == id {
      var i :| 0 <= i < |rows| && rows[i] == x;
    }
    if i :| 0 <= i < |rows| && rows[i].id == id {
      assert rows[i] in rows;
    }
  }

  /** An edit is refused exactly for an unknown rule, a malformed request or a taken port;
      else its rule says what the request said, and the others are as they were. */
  lemma EditStores(rows: seq<Rule>, id: string, q: Request)
    requires StoreOk(rows)
    ensures var after := Perform(rows, Edit(id, q));
            && (after.Some? <==> Stored(rows, id) && WellFormed(q) && !Taken(rows, id, q.rule))
            && (after.Some? ==> exists r: Rule :: r.id == id && Carries(r, q.rule)
                                  && forall x :: x in after.value <==> x == r || (x in rows && x.id != id))
  {
    hide Conflicts, WellFormed, Taken, Carries, StoreOk, SavedRules;
    CleanCarries(id, q);
    FoundIff(rows, id);
    if WellFormed(q) {
      ConflictsIff(rows, id, q);
      if Stored(rows, id) && !Taken(rows, id, q.rule) {
        ReplaceSaved(rows, Clean(id, q).value);
      }
    }
  }

  /** A delete removes the rule with the id and nothing else. */
  lemma DeleteStores(rows: seq<Rule>, id: string)
    requires StoreOk(rows)
    ensures var after := Perform(rows, Delete(id));
            && (after.Some? <==> Stored(rows, id))
            && (after.Some? ==> forall x :: x in after.value <==> x in rows && x.id != id)
  {
    hide StoreOk, SavedRules, SameRows;
    FoundIff(rows, id);
    RemoveKeepsStore(rows, id);
    AtMostFortyTwo(Remove(rows, id));
    SavedKeeps(Remove(rows, id));
    SameRowsMeans(SavedRules(Remove(rows, id)), Remove(rows, id));
  }

  /** A start switches the rule on, renews a lease that has run out by its last length, and
      is refused exactly for an unknown rule or one that ran out and knows no length. */
  lemma StartStores(rows: seq<Rule>, id: string, now: int)
    requires StoreOk(rows)
    ensures var after := Perform(rows, Start(id, now));
            && (after.Some? ==> exists r: Rule, s: Rule :: r in rows && r.id == id && SwitchedOn(r, s, now)
                                  && forall x :: x in after.value <==> x == s || (x in rows && x.id != id))
            && (after.None? ==> forall r: Rule :: r in rows && r.id == id ==> RanOut(r, now) && r.leaseSeconds <= 0)
  {
    hide StoreOk, SavedRules;
    FoundIff(rows, id);
    if Stored(rows, id) {
      var r := FindRule(rows, id).value;
      SoleRule(rows, r);
      if Started(r, now).Some? {
        var s := Started(r, now).value;
        assert SwitchedOn(r, s, now);
        ReplaceSaved(rows, s);
      }
    }
  }

  predicate RanOut(r: Rule, now: int) {
    r.expiresAt.Some? && r.expiresAt.value <= now
  }

  predicate SwitchedOn(r: Rule, s: Rule, now: int) {
    && s.enabled && s == r.(enabled := true, expiresAt := s.expiresAt)
    && s.expiresAt == (if RanOut(r, now) then Some(now + r.leaseSeconds) else r.expiresAt)
    && !RanOut(s, now)
  }

  lemma SoleRule(rows: seq<Rule>, r: Rule)
    requires StoreOk(rows) && r in rows
    ensures forall x :: x in rows && x.id == r.id ==> x == r
  {
    forall x | x in rows && x.id == r.id ensures x == r {
      var i :| 0 <= i < |rows| && rows[i] == x;
      var j :| 0 <= j < |rows| && rows[j] == r;
      assert i == j || i < j || j < i;
    }
  }

  /** A stop switches the rule off and changes nothing else. */
  lemma StopStores(rows: seq<Rule>, id: string)
    requires StoreOk(rows)
    ensures var after := Perform(rows, Stop(id));
            && (after.Some? <==> Stored(rows, id))
            && (after.Some? ==> exists r :: r in rows && r.id == id
                                  && forall x :: x in after.value <==> x == r.(enabled := false) || (x in rows && x.id != id))
  {
    hide StoreOk, SavedRules;
    FoundIff(rows, id);
    if Stored(rows, id) {
      var r := FindRule(rows, id).value;
      ReplaceSaved(rows, r.(enabled := false));
    }
  }

  // ------------------------------------------------------------------ the saved order

  /** By port, and for one port by name. */
  predicate NotAfter(a: Rule, b: Rule) {
    a.listenPort < b.listenPort || (a.listenPort == b.listenPort && !TextBefore(b.name, a.name))
  }

  ghost predicate InOrder(rows: seq<Rule>) {
    forall i, j :: 0 <= i < j < |rows| ==> NotAfter(rows[i], rows[j])
  }

  lemma {:induction false} InsertInOrder(rows: seq<Rule>, r: Rule)
    requires InOrder(rows)
    ensures InOrder(InsertRule(rows, r))
  {
    hide NotAfter, Precedes;
    if rows != [] && Precedes(r, rows[|rows| - 1]) {
      var init, last := rows[..|rows| - 1], rows[|rows| - 1];
      InsertInOrder(init, r);
      InsertRuleRows(init, r);
      PrecedesNotAfter(r, last);
      forall x | x in InsertRule(init, r) ensures NotAfter(x, last) {
        assert x in multiset(InsertRule(init, r));
        if x in init {
          var i :| 0 <= i < |init| && init[i] == x;
          assert rows[i] == x;
        }
      }
      LastInOrder(InsertRule(init, r), last);
    } else {
      forall x | x in rows ensures NotAfter(x, r) {
        var i :| 0 <= i < |rows| && rows[i] == x;
        PrecedesNotAfter(r, rows[|rows| - 1]);
        if i < |rows| - 1 {
          NotAfterComposes(x, rows[|rows| - 1], r);
        }
      }
      LastInOrder(rows, r);
    }
  }

  lemma PrecedesNotAfter(a: Rule, b: Rule)
    ensures Precedes(a, b) ==> NotAfter(a, b)
    ensures !Precedes(a, b) ==> NotAfter(b, a)
  {
    if a.listenPort == b.listenPort && TextBefore(a.name, b.name) {
      TextOneWay(a.name, b.name);
    }
  }

  lemma NotAfterComposes(a: Rule, b: Rule, c: Rule)
    requires NotAfter(a, b) && NotAfter(b, c)
    ensures NotAfter(a, c)
  {
    if a.listenPort == b.listenPort == c.listenPort {
      TextNotBefore(c.name, b.name, a.name);
    }
  }

  lemma LastInOrder(rows: seq<Rule>, r: Rule)
    requires InOrder(rows) && forall x :: x in rows ==> NotAfter(x, r)
    ensures InOrder(rows + [r])
  {
    hide NotAfter;
    forall i | 0 <= i < |rows| ensures NotAfter(rows[i], r) {
      assert rows[i] in rows;
    }
  }

  lemma {:induction false} SortedInOrder(rows: seq<Rule>)
    ensures InOrder(SortRules(rows))
  {
    hide InOrder;
    if rows == [] {
      NothingInOrder();
    } else {
      SortedInOrder(rows[..|rows| - 1]);
      InsertInOrder(SortRules(rows[..|rows| - 1]), rows[|rows| - 1]);
    }
  }

  lemma NothingInOrder()
    ensures InOrder([])
  {
  }

  /** Rules are stored by port and name. */
  lemma SavedInOrder(rows: seq<Rule>)
    ensures InOrder(SavedRules(rows))
  {
    SortedInOrder(if |rows| > MAX_RULES then rows[|rows| - MAX_RULES..] else rows);
  }
}
