/** The desired port-map rules and what keeps them consistent (hub.py). */
module PortMapRules {
  import opened Json
  import opened Wrappers

  datatype Protocol = TCP | UDP

  /** The compared settings of a rule besides its port, protocol, switch and lease. */
  datatype Settings = Settings(
    mode: string, targetMode: string, targetIpv4: string, targetIpv6: string, targetIpv6Suffix: string,
    targetMac: string, targetPort: int, maxConnections: int, idleTimeoutSec: int)

  /** `transport` is None in rules persisted before UDP support; `notes` are the fields nobody compares. */
  datatype Rule = Rule(
    id: string, name: string, enabled: bool, listenPort: int, transport: Option<Protocol>,
    settings: Settings, expiresAt: Option<int>, leaseSeconds: int, notes: string)

  function Effective(t: Option<Protocol>): Protocol {
    if t.Some? then t.value else TCP
  }

  // -------------------------------------------------------------- validation

  /** A request merged over the stored rule; `addressesValid` is the address parsing. */
  datatype Request = Request(rule: Rule, addressesValid: bool)

  const MAX_LEASE := 7 * 86400

  function Within(low: int, value: int, high: int): int {
    if value < low then low else if value > high then high else value
  }

  /** A rule keeps the target its mode uses. */
  function Targeted(s: Settings): Settings {
    if s.mode == "6to4" then s.(targetMode := "ipv4", targetIpv6 := "", targetIpv6Suffix := "")
    else if s.targetMode == "ipv6_full" then s.(targetIpv4 := "", targetIpv6Suffix := "")
    else s.(targetMode := "ipv6_suffix", targetIpv4 := "", targetIpv6 := "")
  }

  function Or(value: int, standard: int): int {
    if value == 0 then standard else value
  }

  /** _clean_portmap_rule */
  function Clean(id: string, r: Request): Option<Rule> {
    if r.rule.settings.mode !in {"6to4", "6to6"}
       || !(20000 <= r.rule.listenPort <= 20020)
       || !(1 <= r.rule.settings.targetPort <= 65535)
       || r.rule.name == ""
       || !r.addressesValid
    then None
    else Some(r.rule.(
      id := id,
      transport := Some(Effective(r.rule.transport)),
      settings := Targeted(r.rule.settings.(maxConnections := Within(1, Or(r.rule.settings.maxConnections, 32), 256),
                                            idleTimeoutSec := Within(30, Or(r.rule.settings.idleTimeoutSec, 300), 3600))),
      leaseSeconds := if r.rule.expiresAt.None? then 0 else Within(0, r.rule.leaseSeconds, MAX_LEASE)))
  }

  predicate SameChannel(a: Rule, b: Rule) {
    a.listenPort == b.listenPort && Effective(a.transport) == Effective(b.transport)
  }

  /** _portmap_check_conflict raises. */
  predicate Conflicts(rows: seq<Rule>, rule: Rule) {
    exists x :: x in rows && x.id != rule.id && SameChannel(x, rule)
  }

  // ------------------------------------------------------------------ saving

  predicate Precedes(a: Rule, b: Rule) {
    a.listenPort < b.listenPort || (a.listenPort == b.listenPort && TextBefore(a.name, b.name))
  }

  function InsertRule(rows: seq<Rule>, r: Rule): seq<Rule> {
    if rows != [] && Precedes(r, rows[|rows| - 1]) then InsertRule(rows[..|rows| - 1], r) + [rows[|rows| - 1]]
    else rows + [r]
  }

  function SortRules(rows: seq<Rule>): seq<Rule> {
    if rows == [] then [] else InsertRule(SortRules(rows[..|rows| - 1]), rows[|rows| - 1])
  }

  const MAX_RULES := 100

  /** The last hundred rows, sorted. */
  function SavedRules(rows: seq<Rule>): seq<Rule> {
    SortRules(if |rows| > MAX_RULES then rows[|rows| - MAX_RULES..] else rows)
  }

  // -------------------------------------------------------------- operations

  function Replace(rows: seq<Rule>, rule: Rule): seq<Rule> {
    seq(|rows|, i requires 0 <= i < |rows| => if rows[i].id == rule.id then rule else rows[i])
  }

  function Remove(rows: seq<Rule>, id: string): seq<Rule> {
    if rows == [] then []
    else
      var rest := Remove(rows[..|rows| - 1], id);
      if rows[|rows| - 1].id == id then rest else rest + [rows[|rows| - 1]]
  }

  /** The first row with the id. */
  function FindRule(rows: seq<Rule>, id: string): Option<Rule> {
    if rows == [] then None else if rows[0].id == id then Some(rows[0]) else FindRule(rows[1..], id)
  }

  /** start: an expired timed rule begins a fresh lease of its last length, or the
      request is refused; otherwise only the switch changes. */
  function Started(rule: Rule, now: int): Option<Rule> {
    var on := rule.(enabled := true);
    if rule.expiresAt.Some? && rule.expiresAt.value <= now then
      if rule.leaseSeconds <= 0 then None else Some(on.(expiresAt := Some(now + rule.leaseSeconds)))
    else Some(on)
  }

  datatype Operation =
    | Create(id: string, request: Request)
    | Edit(id: string, request: Request)
    | Delete(id: string)
    | Start(id: string, now: int)
    | Stop(id: string)

  /** The rules after an accepted request, None if it is refused. */
  function Perform(rows: seq<Rule>, op: Operation): Option<seq<Rule>> {
    match op
    case Create(id, request) =>
      var rule := Clean(id, request);
      if rule.None? || Conflicts(rows, rule.value) then None else Some(SavedRules(rows + [rule.value]))
    case Edit(id, request) =>
      var rule := Clean(id, request);
      if FindRule(rows, id).None? || rule.None? || Conflicts(rows, rule.value) then None
      else Some(SavedRules(Replace(rows, rule.value)))
    case Delete(id) =>
      if FindRule(rows, id).None? then None else Some(SavedRules(Remove(rows, id)))
    case Start(id, now) =>
      var found := FindRule(rows, id);
      if found.None? || Started(found.value, now).None? then None
      else Some(SavedRules(Replace(rows, Started(found.value, now).value)))
    case Stop(id) =>
      var found := FindRule(rows, id);
      if found.None? then None else Some(SavedRules(Replace(rows, found.value.(enabled := false))))
  }

  // --------------------------------------------------------------- invariant

  ghost predicate Sound(r: Rule) {
    20000 <= r.listenPort <= 20020 && r.transport.Some?
  }

  ghost predicate Distinct(rows: seq<Rule>) {
    forall i, j :: 0 <= i < j < |rows| ==> rows[i].id != rows[j].id && !SameChannel(rows[i], rows[j])
  }

  ghost predicate StoreOk(rows: seq<Rule>) {
    (forall i :: 0 <= i < |rows| ==> Sound(rows[i])) && Distinct(rows)
  }

  // Two rows of a permutation are the two rows they were.

  ghost predicate SameRows(a: seq<Rule>, b: seq<Rule>) {
    multiset(a) == multiset(b)
  }

  lemma {:induction false} InsertRuleRows(rows: seq<Rule>, r: Rule)
    ensures multiset(InsertRule(rows, r)) == multiset(rows) + multiset{r}
  {
    if rows != [] && Precedes(r, rows[|rows| - 1]) {
      InsertRuleRows(rows[..|rows| - 1], r);
      assert rows == rows[..|rows| - 1] + [rows[|rows| - 1]];
    }
  }

  lemma {:induction false} SortRulesRows(rows: seq<Rule>)
    ensures SameRows(SortRules(rows), rows)
  {
    hide InsertRule;
    if rows != [] {
      var init, last := rows[..|rows| - 1], rows[|rows| - 1];
      SortRulesRows(init);
      InsertRuleRows(SortRules(init), last);
      assert multiset(rows) == multiset(init) + multiset{last} by {
        assert rows == init + [last];
      }
    }
  }

  lemma MultisetMember(rows: seq<Rule>, i: nat)
    requires i < |rows|
    ensures rows[i] in multiset(rows)
  {
  }

  lemma TwoOccurrences(rows: seq<Rule>, i: nat, j: nat)
    requires i < j < |rows| && rows[i] == rows[j]
    ensures multiset(rows)[rows[i]] >= 2
  {
    assert rows == rows[..i] + [rows[i]] + rows[i + 1..];
    assert rows[i + 1..][j - i - 1] == rows[j];
    assert rows[j] in multiset(rows[i + 1..]);
  }

  lemma {:induction false} OneOccurrence(rows: seq<Rule>, r: Rule)
    requires Distinct(rows)
    ensures multiset(rows)[r] <= 1
  {
    if rows != [] {
      var init, last := rows[..|rows| - 1], rows[|rows| - 1];
      OneOccurrence(init, r);
      assert rows == init + [last];
    }
  }

  /** The invariant does not depend on the order of the rows. */
  lemma SameRowsSameStore(a: seq<Rule>, b: seq<Rule>)
    requires SameRows(a, b) && StoreOk(b)
    ensures StoreOk(a)
  {
    forall i | 0 <= i < |a| ensures Sound(a[i]) {
      MultisetMember(a, i);
      var k :| 0 <= k < |b| && b[k] == a[i];
    }
    forall i, j | 0 <= i < j < |a| ensures a[i].id != a[j].id && !SameChannel(a[i], a[j]) {
      MultisetMember(a, i);
      MultisetMember(a, j);
      if a[i] == a[j] {
        TwoOccurrences(a, i, j);
        OneOccurrence(b, a[i]);
      }
      var k :| 0 <= k < |b| && b[k] == a[i];
      var l :| 0 <= l < |b| && b[l] == a[j];
      assert k < l || l < k;
    }
  }

  // ------------------------------------------------------------- pigeonhole

  /** Each channel has a number below 42. */
  function Channel(r: Rule): int {
    2 * (r.listenPort - 20000) + if Effective(r.transport) == TCP then 0 else 1
  }

  lemma {:induction false} Pigeonhole(xs: seq<int>, n: nat)
    requires forall i :: 0 <= i < |xs| ==> 0 <= xs[i] < n
    requires forall i, j :: 0 <= i < j < |xs| ==> xs[i] != xs[j]
    ensures |xs| <= n
  {
    assert |xs| > 0 ==> 0 <= xs[0] < n;
    if n > 0 {
      if k :| 0 <= k < |xs| && xs[k] == n - 1 {
        Pigeonhole(xs[..k] + xs[k + 1..], n - 1);
      } else {
        Pigeonhole(xs, n - 1);
      }
    }
  }

  /** There are at most 42 rules, so keeping the last hundred rows loses none. */
  lemma AtMostFortyTwo(rows: seq<Rule>)
    requires StoreOk(rows)
    ensures |rows| <= 42
  {
    var xs := seq(|rows|, i requires 0 <= i < |rows| => Channel(rows[i]));
    forall i | 0 <= i < |xs| ensures 0 <= xs[i] < 42 {
      assert Sound(rows[i]);
    }
    forall i, j | 0 <= i < j < |xs| ensures xs[i] != xs[j] {
      assert Sound(rows[i]) && Sound(rows[j]) && !SameChannel(rows[i], rows[j]);
    }
    Pigeonhole(xs, 42);
  }

  lemma SavedKeeps(rows: seq<Rule>)
    requires |rows| <= MAX_RULES
    ensures SameRows(SavedRules(rows), rows)
  {
    SortRulesRows(rows);
  }

  lemma SavedStoreOk(rows: seq<Rule>)
    requires StoreOk(rows)
    ensures StoreOk(SavedRules(rows)) && SameRows(SavedRules(rows), rows)
  {
    AtMostFortyTwo(rows);
    SavedKeeps(rows);
    SameRowsSameStore(SavedRules(rows), rows);
  }

  lemma {:induction false} RemoveMembers(rows: seq<Rule>, id: string)
    ensures forall r :: r in Remove(rows, id) <==> r in rows && r.id != id
  {
    if rows != [] {
      var init, last := rows[..|rows| - 1], rows[|rows| - 1];
      RemoveMembers(init, id);
      assert rows == init + [last];
    }
  }

  /** A row that shares neither id nor channel with another. */
  predicate Apart(a: Rule, b: Rule) {
    a.id != b.id && !SameChannel(a, b)
  }

  lemma StoreGrows(init: seq<Rule>, last: Rule)
    requires StoreOk(init) && Sound(last) && forall x :: x in init ==> Apart(x, last)
    ensures StoreOk(init + [last])
  {
    hide SameChannel, Sound;
    forall i | 0 <= i < |init| ensures Apart(init[i], last) {
      assert init[i] in init;
    }
  }

  lemma StoreShrinks(init: seq<Rule>, last: Rule)
    requires StoreOk(init + [last])
    ensures StoreOk(init) && Sound(last) && forall x :: x in init ==> Apart(x, last)
  {
    hide SameChannel, Sound;
    var rows := init + [last];
    assert forall i :: 0 <= i < |init| ==> rows[i] == init[i];
    assert rows[|init|] == last;
    forall x | x in init ensures Apart(x, last) {
      var i :| 0 <= i < |init| && init[i] == x;
      assert rows[i].id != rows[|init|].id && !SameChannel(rows[i], rows[|init|]);
    }
  }

  lemma {:induction false} RemoveKeepsStore(rows: seq<Rule>, id: string)
    requires StoreOk(rows)
    ensures StoreOk(Remove(rows, id))
    ensures forall r :: r in Remove(rows, id) <==> r in rows && r.id != id
  {
    hide StoreOk, Apart, Sound;
    RemoveMembers(rows, id);
    if rows != [] {
      var init, last := rows[..|rows| - 1], rows[|rows| - 1];
      assert rows == init + [last];
      StoreShrinks(init, last);
      RemoveKeepsStore(init, id);
      if last.id != id {
        StoreGrows(Remove(init, id), last);
      }
    }
  }

  lemma {:induction false} FindRuleAt(rows: seq<Rule>, id: string)
    ensures FindRule(rows, id).Some? <==> exists i :: 0 <= i < |rows| && rows[i].id == id
    ensures FindRule(rows, id).Some? ==> FindRule(rows, id).value in rows && FindRule(rows, id).value.id == id
  {
    if rows != [] && rows[0].id != id {
      FindRuleAt(rows[1..], id);
      if i :| 0 <= i < |rows| && rows[i].id == id {
        assert rows[1..][i - 1].id == id;
      }
      if i :| 0 <= i < |rows[1..]| && rows[1..][i].id == id {
        assert rows[i + 1].id == id;
      }
    }
  }

  /** Replacing a row by a sound one that conflicts with no other row. */
  lemma ReplaceKeepsStore(rows: seq<Rule>, rule: Rule)
    requires StoreOk(rows) && Sound(rule)
    requires forall x :: x in rows && x.id != rule.id ==> !SameChannel(x, rule)
    ensures StoreOk(Replace(rows, rule))
  {
    var after := Replace(rows, rule);
    forall i, j | 0 <= i < j < |after| ensures after[i].id != after[j].id && !SameChannel(after[i], after[j]) {
      assert rows[i].id != rows[j].id && !SameChannel(rows[i], rows[j]);
      assert rows[i] in rows && rows[j] in rows;
    }
    forall i | 0 <= i < |after| ensures Sound(after[i]) {
      assert Sound(rows[i]);
    }
  }

  lemma OthersElsewhere(rows: seq<Rule>, r: Rule)
    requires StoreOk(rows) && r in rows
    ensures forall x :: x in rows && x.id != r.id ==> !SameChannel(x, r)
  {
    var k :| 0 <= k < |rows| && rows[k] == r;
    forall x | x in rows && x.id != r.id ensures !SameChannel(x, r) {
      var i :| 0 <= i < |rows| && rows[i] == x;
      assert if i < k then !SameChannel(rows[i], rows[k]) else !SameChannel(rows[k], rows[i]);
    }
  }

  /** An accepted create keeps the store consistent if and only if its id is unused: the
      conflict check skips rows with the same id, and nothing else looks at it. */
  lemma CreateNeedsFreshId(rows: seq<Rule>, id: string, request: Request)
    requires StoreOk(rows) && Perform(rows, Create(id, request)).Some?
    ensures StoreOk(Perform(rows, Create(id, request)).value) <==> FindRule(rows, id).None?
  {
    var rule := Clean(id, request).value;
    var grown := rows + [rule];
    AtMostFortyTwo(rows);
    FindRuleAt(rows, id);
    SavedKeeps(grown);
    if FindRule(rows, id).None? {
      forall i | 0 <= i < |rows| ensures rows[i].id != id && !SameChannel(rows[i], rule) {
        assert rows[i] in rows;
      }
      SameRowsSameStore(SavedRules(grown), grown);
    } else {
      var i :| 0 <= i < |rows| && rows[i].id == id;
      assert grown[i].id == grown[|rows|].id;
      if StoreOk(SavedRules(grown)) {
        SameRowsSameStore(grown, SavedRules(grown));
      }
    }
  }

  /** Every other accepted request keeps it, so over all runs that create with unused
      ids no two rules share a channel or an id, and truncation never drops one. */
  lemma PerformKeepsStore(rows: seq<Rule>, op: Operation)
    requires StoreOk(rows) && Perform(rows, op).Some?
    requires op.Create? ==> FindRule(rows, op.id).None?
    ensures StoreOk(Perform(rows, op).value)
  {
    match op
    case Create(id, request) => CreateNeedsFreshId(rows, id, request);
    case Edit(id, request) =>
      var rule := Clean(id, request).value;
      ReplaceKeepsStore(rows, rule);
      SavedStoreOk(Replace(rows, rule));
    case Delete(id) =>
      RemoveKeepsStore(rows, id);
      SavedStoreOk(Remove(rows, id));
    case Start(id, now) => SwitchKeepsStore(rows, id, Started(FindRule(rows, id).value, now).value);
    case Stop(id) => SwitchKeepsStore(rows, id, FindRule(rows, id).value.(enabled := false));
  }

  lemma SwitchKeepsStore(rows: seq<Rule>, id: string, rule: Rule)
    requires StoreOk(rows) && FindRule(rows, id).Some?
    requires var r := FindRule(rows, id).value; rule.id == r.id && SameChannel(r, rule) && rule.transport == r.transport
    ensures StoreOk(SavedRules(Replace(rows, rule)))
  {
    FindRuleAt(rows, id);
    var r := FindRule(rows, id).value;
    OthersElsewhere(rows, r);
    ReplaceKeepsStore(rows, rule);
    SavedStoreOk(Replace(rows, rule));
  }

  function RunOperations(rows: seq<Rule>, ops: seq<Operation>): seq<Rule> {
    if ops == [] then rows
    else
      var before := RunOperations(rows, ops[..|ops| - 1]);
      var after := Perform(before, ops[|ops| - 1]);
      if after.Some? then after.value else before
  }

  lemma {:induction false} RunsKeepStore(ops: seq<Operation>)
    requires forall i :: 0 <= i < |ops| && ops[i].Create? ==> FindRule(RunOperations([], ops[..i]), ops[i].id).None?
    ensures StoreOk(RunOperations([], ops)) && |RunOperations([], ops)| <= 42
  {
    if ops != [] {
      var init := ops[..|ops| - 1];
      forall i | 0 <= i < |init| && init[i].Create? ensures FindRule(RunOperations([], init[..i]), init[i].id).None? {
        assert init[..i] == ops[..i];
      }
      RunsKeepStore(init);
      var before := RunOperations([], init);
      if Perform(before, ops[|ops| - 1]).Some? {
        PerformKeepsStore(before, ops[|ops| - 1]);
      }
    }
    AtMostFortyTwo(RunOperations([], ops));
  }
}
