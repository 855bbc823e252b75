/** Address-follow converges: with fixed targets, no operator edits and a faithful
    router, every bound field reaches its target and every drifted binding is suspended. */
module FirewallLiveness {
  import opened Json
  import opened FirewallFollow
  import opened FirewallMeaning
  import opened FirewallSafety
  import opened Wrappers

  // -------------------------------------------------------- a faithful router

  /** Equal up to the router's own runtime statistics. */
  predicate SameRule(a: Rule, b: Rule) {
    a - {"stats"} == b - {"stats"}
  }

  ghost predicate Quiet(a: Rules, b: Rules) {
    a.Keys == b.Keys && forall u :: u in a ==> SameRule(a[u], b[u])
  }

  /** The table after an update holds the payload in place of the old rule. */
  ghost predicate Landed(before: Rules, uuid: string, payload: Rule, after: Rules) {
    uuid in before && Quiet(before[uuid := payload], after)
  }

  /** One cycle's router: its reply, and its table when the next cycle reads it. */
  datatype Tick = Tick(reply: Reply, later: Rules)

  ghost predicate Faithful(net: Net, env: Mappings, s: State, tick: Tick) {
    var (t, outcome) := Cycle(net, env, s, None, tick.reply);
    && (outcome.Written? || outcome.WriteFailed? ==>
          tick.reply.readback == Some(tick.reply.rules) && Landed(s.rules, outcome.uuid, outcome.payload, tick.reply.rules))
    && Quiet(t.rules, tick.later)
  }

  function Tock(net: Net, env: Mappings, s: State, tick: Tick): State {
    Cycle(net, env, s, None, tick.reply).0.(rules := tick.later)
  }

  function Settle(net: Net, env: Mappings, s: State, ticks: seq<Tick>): State
    decreases |ticks|
  {
    if ticks == [] then s else Settle(net, env, Tock(net, env, s, ticks[0]), ticks[1..])
  }

  ghost predicate FaithfulRun(net: Net, env: Mappings, s: State, ticks: seq<Tick>)
    decreases |ticks|
  {
    ticks != [] ==> Faithful(net, env, s, ticks[0]) && FaithfulRun(net, env, Tock(net, env, s, ticks[0]), ticks[1..])
  }

  // ------------------------------------------------------------ work to be done

  predicate Pending(net: Net, env: Mappings, rules: Rules, b: Binding) {
    && Active(rules, b) && !Drifted(net, rules[b.uuid], b) && Compatible(net, env, rules[b.uuid], b)
    && Resolve(net, env, b) != "" && ValueIn(net, rules[b.uuid], b) != Resolve(net, env, b)
  }

  predicate Busy(net: Net, env: Mappings, rules: Rules, b: Binding) {
    (Active(rules, b) && Drifted(net, rules[b.uuid], b)) || Pending(net, env, rules, b)
  }

  ghost function BusyUuids(net: Net, env: Mappings, s: State): set<string> {
    set b | b in s.bindings && Busy(net, env, s.rules, b) :: b.uuid
  }

  predicate ReadyAt(candidates: map<string, Candidate>, uuid: string, desired: string) {
    uuid in candidates && candidates[uuid].value == desired && candidates[uuid].count >= 1
  }

  /** Every pending binding has been observed once with its present target. */
  ghost predicate Ready(net: Net, env: Mappings, s: State) {
    forall b :: b in s.bindings && Pending(net, env, s.rules, b) ==> ReadyAt(s.candidates, b.uuid, Resolve(net, env, b))
  }

  ghost predicate Fine(s: State) {
    UniqueUuids(s.bindings) && |s.bindings| <= MAX_BINDINGS
  }

  // ------------------------------------------------------------------- scanning

  lemma VisitKeepsReady(net: Net, env: Mappings, rules: Rules, x: Binding, candidates: map<string, Candidate>, b: Binding)
    requires Pending(net, env, rules, b) && (x.uuid == b.uuid ==> x == b)
    requires ReadyAt(candidates, b.uuid, Resolve(net, env, b))
    ensures ReadyAt(AfterVisit(candidates, x.uuid, Decide(net, env, rules, x, candidates)), b.uuid, Resolve(net, env, b))
  {
  }

  lemma {:induction false} ScanKeepsReady(net: Net, env: Mappings, rules: Rules, bs: seq<Binding>,
                                          candidates: map<string, Candidate>, b: Binding)
    requires Pending(net, env, rules, b) && forall x :: x in bs && x.uuid == b.uuid ==> x == b
    requires ReadyAt(candidates, b.uuid, Resolve(net, env, b))
    ensures ReadyAt(Scan(net, env, rules, bs, candidates).0, b.uuid, Resolve(net, env, b))
  {
    if bs != [] {
      VisitKeepsReady(net, env, rules, bs[0], candidates, b);
      var d := Decide(net, env, rules, bs[0], candidates);
      ScanKeepsReady(net, env, rules, bs[1..], AfterVisit(candidates, bs[0].uuid, d), b);
    }
  }

  lemma TailIsOther(bs: seq<Binding>)
    requires UniqueUuids(bs) && bs != []
    ensures UniqueUuids(bs[1..]) && forall x :: x in bs[1..] ==> x.uuid != bs[0].uuid
  {
    forall x | x in bs[1..] ensures x.uuid != bs[0].uuid {
      var i :| 0 <= i < |bs[1..]| && bs[1..][i] == x;
      assert bs[i + 1] == x;
    }
  }

  /** A scan that stops nowhere has met no drift and has observed every pending binding. */
  lemma {:induction false} IdleScanObserves(net: Net, env: Mappings, rules: Rules, bs: seq<Binding>,
                                            candidates: map<string, Candidate>, b: Binding)
    requires UniqueUuids(bs) && b in bs && Scan(net, env, rules, bs, candidates).1.None?
    ensures Active(rules, b) ==> !Drifted(net, rules[b.uuid], b)
    ensures Pending(net, env, rules, b) ==>
              ReadyAt(Scan(net, env, rules, bs, candidates).0, b.uuid, Resolve(net, env, b))
    ensures Pending(net, env, rules, b) ==> !ReadyAt(candidates, b.uuid, Resolve(net, env, b))
  {
    var d := Decide(net, env, rules, bs[0], candidates);
    var after := AfterVisit(candidates, bs[0].uuid, d);
    if b == bs[0] {
      if Pending(net, env, rules, b) {
        assert d.Watch?;
        TailIsOther(bs);
        ScanKeepsReady(net, env, rules, bs[1..], after, b);
      }
    } else {
      assert b in bs[1..];
      IdleScanObserves(net, env, rules, bs[1..], after, b);
      TailIsOther(bs);
    }
  }

  // --------------------------------------------------------------- one cycle

  /** What a binding follows; a cycle never changes it. */
  predicate SameTarget(b: Binding, b': Binding) {
    && b'.uuid == b.uuid && b'.targetType == b.targetType && b'.mappingKind == b.mappingKind && b'.mappingId == b.mappingId
    && b'.family == b.family && b'.field == b.field && b'.enabled == b.enabled
  }

  /** How one binding and its rule may change over a cycle. */
  predicate Advances(net: Net, env: Mappings, rules: Rules, b: Binding, rules': Rules, b': Binding) {
    && SameTarget(b, b')
    && (!Active(rules, b) ==> b' == b && !Active(rules', b'))
    && (Active(rules, b) && Drifted(net, rules[b.uuid], b) ==>
          b'.suspended || (b' == b && Active(rules', b') && Drifted(net, rules'[b.uuid], b')))
    && (Active(rules, b) && !Drifted(net, rules[b.uuid], b) ==>
          && Active(rules', b') && !Drifted(net, rules'[b.uuid], b')
          && (Compatible(net, env, rules'[b.uuid], b') <==> Compatible(net, env, rules[b.uuid], b)))
  }

  lemma FollowsSame(net: Net, env: Mappings, rule: Rule, b: Binding, rule': Rule, b': Binding)
    requires SameTarget(b, b') && Fingerprint(rule, b.field) == Fingerprint(rule', b.field)
    requires b.field != "ipVersion" && b.field != "target" && b.field != "direction" && b.field != "inIface"
    requires b.field != "outIface" && b.field != "proto" && b.field != "destPort"
    requires ValueIn(net, rule, b) != "" && ValueIn(net, rule', b') != ""
    ensures Resolve(net, env, b) == Resolve(net, env, b')
    ensures Compatible(net, env, rule, b) <==> Compatible(net, env, rule', b')
  {
    hide Fingerprint, Compatible, ValueIn;
    UnfingerprintedFields(rule, rule', b.field);
    SameCompatible(net, env, rule, b, rule', b');
  }

  lemma UnfingerprintedFields(rule: Rule, rule': Rule, field: string)
    requires Fingerprint(rule, field) == Fingerprint(rule', field)
    ensures forall k :: k != "stats" && k != field ==> Field(rule, k) == Field(rule', k)
  {
    forall k | k != "stats" && k != field ensures Field(rule, k) == Field(rule', k) {
      assert k in rule <==> k in Fingerprint(rule, field);
      assert k in rule' <==> k in Fingerprint(rule', field);
      if k in rule {
        assert Fingerprint(rule, field)[k] == Fingerprint(rule', field)[k];
      }
    }
  }

  /** Compatibility reads the target and the fields the service does not control. */
  lemma SameCompatible(net: Net, env: Mappings, rule: Rule, b: Binding, rule': Rule, b': Binding)
    requires SameTarget(b, b') && ValueIn(net, rule, b) != "" && ValueIn(net, rule', b') != ""
    requires Field(rule, "ipVersion") == Field(rule', "ipVersion") && Field(rule, "target") == Field(rule', "target")
    requires Field(rule, "direction") == Field(rule', "direction") && Field(rule, "inIface") == Field(rule', "inIface")
    requires Field(rule, "outIface") == Field(rule', "outIface") && Field(rule, "proto") == Field(rule', "proto")
    requires Field(rule, "destPort") == Field(rule', "destPort")
    ensures Compatible(net, env, rule, b) <==> Compatible(net, env, rule', b')
  {
    hide Field, Text, Lower, ValueIn;
    assert MappingOf(env, b) == MappingOf(env, b');
  }

  lemma QuietFields(rule: Rule, rule': Rule)
    requires SameRule(rule, rule')
    ensures forall k :: k != "stats" ==> (k in rule <==> k in rule') && Field(rule, k) == Field(rule', k)
  {
    assert forall k :: k in (rule - {"stats"}) <==> k in rule && k != "stats";
    assert forall k :: k in (rule' - {"stats"}) <==> k in rule' && k != "stats";
    forall k | k != "stats" ensures (k in rule <==> k in rule') && Field(rule, k) == Field(rule', k) {
      if k in rule {
        assert (rule - {"stats"})[k] == (rule' - {"stats"})[k];
      }
    }
  }

  lemma QuietCompatible(net: Net, env: Mappings, rule: Rule, rule': Rule, b: Binding)
    requires forall k :: k != "stats" ==> Field(rule, k) == Field(rule', k)
    ensures Compatible(net, env, rule, b) <==> Compatible(net, env, rule', b)
  {
    hide Field, Resolve, MappingOf, FieldValue, Text, Lower;
  }

  /** Statistics do not matter to any decision. */
  lemma QuietRule(net: Net, env: Mappings, rule: Rule, rule': Rule, b: Binding)
    requires SameRule(rule, rule')
    ensures ValueIn(net, rule, b) == ValueIn(net, rule', b)
    ensures Drifted(net, rule, b) <==> Drifted(net, rule', b)
    ensures Compatible(net, env, rule, b) <==> Compatible(net, env, rule', b)
  {
    hide Compatible, SameRule;
    QuietFields(rule, rule');
    QuietCompatible(net, env, rule, rule', b);
    forall k | k in Fingerprint(rule, b.field) ensures k in rule' && rule[k] == rule'[k] {
      assert Field(rule, k) == Field(rule', k);
    }
    assert Fingerprint(rule, b.field) == Fingerprint(rule', b.field);
  }

  lemma QuietAdvances(net: Net, env: Mappings, rules: Rules, rules': Rules, b: Binding)
    requires Quiet(rules, rules')
    ensures Advances(net, env, rules, b, rules', b)
    ensures Busy(net, env, rules, b) <==> Busy(net, env, rules', b)
    ensures Pending(net, env, rules, b) <==> Pending(net, env, rules', b)
  {
    if b.uuid in rules {
      QuietRule(net, env, rules[b.uuid], rules'[b.uuid], b);
    }
  }

  lemma PayloadKeepsRest(rule: Rule, field: string, v: string)
    ensures Fingerprint(Payload(rule, field, v), field) == Fingerprint(rule, field)
    ensures Field(Payload(rule, field, v), field) == Str(v)
  {
  }

  /** The rule after a faithful write holds the new value and nothing else new. */
  lemma WrittenRule(net: Net, env: Mappings, rules: Rules, b: Binding, after: Rules)
    requires Canonical(net) && Pending(net, env, rules, b)
    requires Landed(rules, b.uuid, Payload(rules[b.uuid], b.field, Resolve(net, env, b)), after)
    ensures b.uuid in after && ValueIn(net, after[b.uuid], b) == Resolve(net, env, b)
    ensures Fingerprint(after[b.uuid], b.field) == Fingerprint(rules[b.uuid], b.field)
  {
    var v := Resolve(net, env, b);
    var payload := Payload(rules[b.uuid], b.field, v);
    var mid := rules[b.uuid := payload];
    PayloadKeepsRest(rules[b.uuid], b.field, v);
    DesiredIsCanonical(net, env, b);
    assert mid[b.uuid] == payload && SameRule(mid[b.uuid], after[b.uuid]);
    QuietRule(net, env, payload, after[b.uuid], b);
    SameFingerprint(payload, after[b.uuid], b.field);
  }

  /** A verified write: the binding is undrifted, compatible as before, and on target. */
  lemma WrittenAdvances(net: Net, env: Mappings, rules: Rules, b: Binding, later: Rules, b': Binding)
    requires Pending(net, env, rules, b) && b.uuid in later
    requires b' == b.(lastApplied := Resolve(net, env, b), fingerprint := Some(Fingerprint(rules[b.uuid], b.field)),
                      suspended := false, reason := "")
    requires ValueIn(net, later[b.uuid], b) == Resolve(net, env, b)
    requires Fingerprint(later[b.uuid], b.field) == Fingerprint(rules[b.uuid], b.field)
    requires FieldValue(net, b.field, Str(Resolve(net, env, b)), b.family) == Resolve(net, env, b)
    ensures Advances(net, env, rules, b, later, b') && !Busy(net, env, later, b')
  {
    assert Recorded(net, b') == Resolve(net, env, b);
    assert !Drifted(net, later[b.uuid], b');
    FollowsSame(net, env, rules[b.uuid], b, later[b.uuid], b');
  }

  lemma SameFingerprint(rule: Rule, rule': Rule, field: string)
    requires SameRule(rule, rule')
    ensures Fingerprint(rule, field) == Fingerprint(rule', field)
  {
    assert forall k :: k in (rule - {"stats"}) <==> k in rule && k != "stats";
    assert forall k :: k in (rule' - {"stats"}) <==> k in rule' && k != "stats";
    forall k | k != "stats" && k in rule ensures k in rule' && rule[k] == rule'[k] {
      assert (rule - {"stats"})[k] == (rule' - {"stats"})[k];
    }
  }

  /** What is resolved parses back to itself in the bound field. */
  lemma DesiredIsCanonical(net: Net, env: Mappings, b: Binding)
    requires Canonical(net) && Resolve(net, env, b) != "" && MappingOf(env, b).Some?
    requires b.field == "destIP" || (b.field == "ipv6SuffixDest" && b.family == "ipv6")
    ensures FieldValue(net, b.field, Str(Resolve(net, env, b)), b.family) == Resolve(net, env, b)
  {
    var m := MappingOf(env, b).value;
    assert net.ip(Str(net.ip(m.address, b.family)), b.family) == net.ip(m.address, b.family);
    assert net.host(Str(net.suffix(net.ip(m.address, b.family)))) == net.suffix(net.ip(m.address, b.family));
  }

  /** The table agrees with `later` everywhere but at one rule. */
  ghost predicate QuietExcept(rules: Rules, later: Rules, uuid: string) {
    rules.Keys == later.Keys && forall u :: u in rules && u != uuid ==> SameRule(rules[u], later[u])
  }

  lemma OtherAdvances(net: Net, env: Mappings, rules: Rules, later: Rules, b: Binding, uuid: string)
    requires QuietExcept(rules, later, uuid) && b.uuid != uuid
    ensures Advances(net, env, rules, b, later, b)
    ensures Busy(net, env, rules, b) <==> Busy(net, env, later, b)
    ensures Pending(net, env, rules, b) <==> Pending(net, env, later, b)
  {
    if b.uuid in rules {
      QuietRule(net, env, rules[b.uuid], later[b.uuid], b);
    }
  }

  /** Every binding moves on as it may. */
  ghost predicate AllAdvance(net: Net, env: Mappings, s: State, t: State) {
    forall b :: b in s.bindings ==> exists b' :: b' in t.bindings && Advances(net, env, s.rules, b, t.rules, b')
  }

  /** Nothing new to do, and nothing observed is forgotten. */
  ghost predicate NoSetback(net: Net, env: Mappings, s: State, t: State) {
    BusyUuids(net, env, t) <= BusyUuids(net, env, s) && (Ready(net, env, s) ==> Ready(net, env, t))
  }

  lemma SameUuid(bs: seq<Binding>, a: Binding, b: Binding)
    requires UniqueUuids(bs) && a in bs && b in bs && a.uuid == b.uuid
    ensures a == b
  {
  }

  /** A cycle deals with binding x, by suspending it or by a verified write. */
  ghost predicate Handles(net: Net, env: Mappings, s: State, x: Binding, x': Binding, later: Rules, t: State) {
    && Fine(s) && x in s.bindings && x'.uuid == x.uuid && Busy(net, env, s.rules, x)
    && QuietExcept(s.rules, later, x.uuid)
    && Advances(net, env, s.rules, x, later, x') && !Busy(net, env, later, x')
    && t.bindings == ReplaceBinding(s.bindings, x') && t.rules == later
    && t.candidates == Scan(net, env, s.rules, s.bindings, s.candidates).0 - {x.uuid}
  }

  lemma HandledMembers(net: Net, env: Mappings, s: State, x: Binding, x': Binding, later: Rules, t: State)
    requires Handles(net, env, s, x, x', later, t)
    ensures Fine(t) && x' in t.bindings
    ensures forall b :: b in t.bindings ==> b == x' || (b in s.bindings && b.uuid != x.uuid)
    ensures forall b :: b in s.bindings && b.uuid != x.uuid ==> b in t.bindings
  {
    ReplaceMembers(s.bindings, x');
  }

  lemma HandledAdvances(net: Net, env: Mappings, s: State, x: Binding, x': Binding, later: Rules, t: State)
    requires Handles(net, env, s, x, x', later, t)
    ensures AllAdvance(net, env, s, t)
  {
    HandledMembers(net, env, s, x, x', later, t);
    forall b | b in s.bindings
      ensures exists b' :: b' in t.bindings && Advances(net, env, s.rules, b, t.rules, b')
    {
      if b.uuid == x.uuid {
        SameUuid(s.bindings, b, x);
        assert Advances(net, env, s.rules, b, t.rules, x');
      } else {
        OtherAdvances(net, env, s.rules, later, b, x.uuid);
      }
    }
  }

  lemma HandledWork(net: Net, env: Mappings, s: State, x: Binding, x': Binding, later: Rules, t: State)
    requires Handles(net, env, s, x, x', later, t)
    ensures BusyUuids(net, env, t) < BusyUuids(net, env, s)
  {
    HandledMembers(net, env, s, x, x', later, t);
    forall b | b in t.bindings && Busy(net, env, later, b)
      ensures b in s.bindings && b.uuid != x.uuid && Busy(net, env, s.rules, b)
    {
      OtherAdvances(net, env, s.rules, later, b, x.uuid);
    }
    assert x.uuid in BusyUuids(net, env, s) && x.uuid !in BusyUuids(net, env, t);
  }

  lemma HandledReady(net: Net, env: Mappings, s: State, x: Binding, x': Binding, later: Rules, t: State)
    requires Handles(net, env, s, x, x', later, t) && Ready(net, env, s)
    ensures Ready(net, env, t)
  {
    HandledMembers(net, env, s, x, x', later, t);
    forall b | b in t.bindings && Pending(net, env, later, b)
      ensures ReadyAt(t.candidates, b.uuid, Resolve(net, env, b))
    {
      OthersStayReady(net, env, s, x.uuid, later, b);
    }
  }

  lemma OthersStayReady(net: Net, env: Mappings, s: State, uuid: string, later: Rules, b: Binding)
    requires UniqueUuids(s.bindings) && b in s.bindings && b.uuid != uuid
    requires QuietExcept(s.rules, later, uuid) && Pending(net, env, later, b) && Ready(net, env, s)
    ensures ReadyAt(Scan(net, env, s.rules, s.bindings, s.candidates).0 - {uuid}, b.uuid, Resolve(net, env, b))
  {
    OtherAdvances(net, env, s.rules, later, b, uuid);
    StaysReady(net, env, s, b);
  }

  lemma StaysReady(net: Net, env: Mappings, s: State, b: Binding)
    requires UniqueUuids(s.bindings) && b in s.bindings && Pending(net, env, s.rules, b) && Ready(net, env, s)
    ensures ReadyAt(Scan(net, env, s.rules, s.bindings, s.candidates).0, b.uuid, Resolve(net, env, b))
  {
    forall y | y in s.bindings && y.uuid == b.uuid ensures y == b {
      SameUuid(s.bindings, y, b);
    }
    ScanKeepsReady(net, env, s.rules, s.bindings, s.candidates, b);
  }

  lemma HandledProgress(net: Net, env: Mappings, s: State, x: Binding, x': Binding, later: Rules, t: State)
    requires Handles(net, env, s, x, x', later, t)
    ensures Fine(t) && AllAdvance(net, env, s, t) && NoSetback(net, env, s, t)
    ensures BusyUuids(net, env, t) < BusyUuids(net, env, s)
  {
    HandledMembers(net, env, s, x, x', later, t);
    HandledAdvances(net, env, s, x, x', later, t);
    HandledWork(net, env, s, x, x', later, t);
    if Ready(net, env, s) {
      HandledReady(net, env, s, x, x', later, t);
    }
  }

  lemma SuspensionProgress(net: Net, env: Mappings, s: State, tick: Tick)
    requires Canonical(net) && Fine(s) && Faithful(net, env, s, tick)
    requires Cycle(net, env, s, None, tick.reply).1.Suspended?
    ensures var t := Tock(net, env, s, tick);
            Fine(t) && AllAdvance(net, env, s, t) && NoSetback(net, env, s, t) && BusyUuids(net, env, t) < BusyUuids(net, env, s)
  {
    hide Scan, Compatible, ReplaceBinding, AllAdvance, NoSetback, BusyUuids;
    var (candidates, stop) := Scan(net, env, s.rules, s.bindings, s.candidates);
    ScanStop(net, env, s.rules, s.bindings, s.candidates);
    var x := stop.value.binding;
    HandledProgress(net, env, s, x, Suspension(x, stop.value.decision.reason), tick.later, Tock(net, env, s, tick));
  }

  lemma WriteProgress(net: Net, env: Mappings, s: State, tick: Tick)
    requires Canonical(net) && Fine(s) && Faithful(net, env, s, tick)
    requires Cycle(net, env, s, None, tick.reply).1.Written? || Cycle(net, env, s, None, tick.reply).1.WriteFailed?
    ensures var t := Tock(net, env, s, tick);
            Fine(t) && AllAdvance(net, env, s, t) && NoSetback(net, env, s, t) && BusyUuids(net, env, t) < BusyUuids(net, env, s)
  {
    hide Scan, Compatible, ReplaceBinding, AllAdvance, NoSetback, BusyUuids;
    var stop := Scan(net, env, s.rules, s.bindings, s.candidates).1;
    ScanStop(net, env, s.rules, s.bindings, s.candidates);
    var x := stop.value.binding;
    var x' := WrittenBinding(net, env, s.rules, x, tick.reply.rules, tick.later);
    HandledProgress(net, env, s, x, x', tick.later, Tock(net, env, s, tick));
  }

  lemma WrittenBinding(net: Net, env: Mappings, rules: Rules, x: Binding, after: Rules, later: Rules) returns (x': Binding)
    requires Canonical(net) && Pending(net, env, rules, x) && Quiet(after, later)
    requires Landed(rules, x.uuid, Payload(rules[x.uuid], x.field, Resolve(net, env, x)), after)
    ensures Verified(net, Some(after), x, Resolve(net, env, x))
    ensures x' == x.(lastApplied := Resolve(net, env, x), fingerprint := Some(Fingerprint(after[x.uuid], x.field)),
                     suspended := false, reason := "")
    ensures QuietExcept(rules, later, x.uuid)
    ensures Advances(net, env, rules, x, later, x') && !Busy(net, env, later, x')
  {
    WrittenRule(net, env, rules, x, after);
    DesiredIsCanonical(net, env, x);
    x' := x.(lastApplied := Resolve(net, env, x), fingerprint := Some(Fingerprint(after[x.uuid], x.field)),
             suspended := false, reason := "");
    QuietRule(net, env, after[x.uuid], later[x.uuid], x);
    SameFingerprint(after[x.uuid], later[x.uuid], x.field);
    WrittenAdvances(net, env, rules, x, later, x');
    QuietElsewhere(rules, x.uuid, Payload(rules[x.uuid], x.field, Resolve(net, env, x)), after, later);
  }

  lemma QuietElsewhere(rules: Rules, uuid: string, payload: Rule, after: Rules, later: Rules)
    requires Landed(rules, uuid, payload, after) && Quiet(after, later)
    ensures QuietExcept(rules, later, uuid)
  {
    forall u | u in rules && u != uuid ensures SameRule(rules[u], later[u]) {
      assert rules[uuid := payload][u] == rules[u];
      assert SameRule(after[u], later[u]);
    }
  }

  lemma IdleProgress(net: Net, env: Mappings, s: State, tick: Tick)
    requires Canonical(net) && Fine(s) && Faithful(net, env, s, tick)
    requires Cycle(net, env, s, None, tick.reply).1.Idle?
    ensures var t := Tock(net, env, s, tick);
            && Fine(t) && AllAdvance(net, env, s, t) && NoSetback(net, env, s, t)
            && BusyUuids(net, env, t) == BusyUuids(net, env, s) && Ready(net, env, t)
            && (Ready(net, env, s) ==> BusyUuids(net, env, s) == {})
  {
    hide Cycle, Quiet, Busy, Pending, Advances, ReadyAt, Resolve;
    IdleShape(net, env, s, tick);
    var t := Tock(net, env, s, tick);
    forall b | b in s.bindings
      ensures Advances(net, env, s.rules, b, t.rules, b)
      ensures Busy(net, env, s.rules, b) <==> Busy(net, env, t.rules, b)
      ensures Pending(net, env, t.rules, b) ==> ReadyAt(t.candidates, b.uuid, Resolve(net, env, b))
      ensures Busy(net, env, s.rules, b) ==> Pending(net, env, s.rules, b) && !ReadyAt(s.candidates, b.uuid, Resolve(net, env, b))
    {
      IdleBinding(net, env, s, t, b);
    }
  }

  lemma IdleShape(net: Net, env: Mappings, s: State, tick: Tick)
    requires Faithful(net, env, s, tick) && Cycle(net, env, s, None, tick.reply).1.Idle?
    ensures var t := Tock(net, env, s, tick); var (candidates, stop) := Scan(net, env, s.rules, s.bindings, s.candidates);
            stop.None? && t.bindings == s.bindings && t.candidates == candidates && Quiet(s.rules, t.rules)
  {
    hide Scan, Compatible, ReplaceBinding, Drifted;
    ScanStop(net, env, s.rules, s.bindings, s.candidates);
  }

  lemma IdleBinding(net: Net, env: Mappings, s: State, t: State, b: Binding)
    requires UniqueUuids(s.bindings) && b in s.bindings && Quiet(s.rules, t.rules)
    requires var (candidates, stop) := Scan(net, env, s.rules, s.bindings, s.candidates);
             stop.None? && t.candidates == candidates
    ensures Advances(net, env, s.rules, b, t.rules, b)
    ensures Busy(net, env, s.rules, b) <==> Busy(net, env, t.rules, b)
    ensures Pending(net, env, t.rules, b) ==> ReadyAt(t.candidates, b.uuid, Resolve(net, env, b))
    ensures Busy(net, env, s.rules, b) ==> Pending(net, env, s.rules, b) && !ReadyAt(s.candidates, b.uuid, Resolve(net, env, b))
  {
    hide Scan, Compatible, Drifted, ReadyAt, Resolve, Quiet, UniqueUuids;
    QuietAdvances(net, env, s.rules, t.rules, b);
    IdleScanObserves(net, env, s.rules, s.bindings, s.candidates, b);
  }

  /** One cycle: the work shrinks, or everything pending has now been observed once. */
  lemma CycleProgress(net: Net, env: Mappings, s: State, tick: Tick)
    requires Canonical(net) && Fine(s) && Faithful(net, env, s, tick)
    ensures var t := Tock(net, env, s, tick);
            && Fine(t) && AllAdvance(net, env, s, t) && NoSetback(net, env, s, t)
            && (BusyUuids(net, env, t) < BusyUuids(net, env, s)
                || (BusyUuids(net, env, t) == BusyUuids(net, env, s) && Ready(net, env, t)
                    && (Ready(net, env, s) ==> BusyUuids(net, env, s) == {})))
  {
    match Cycle(net, env, s, None, tick.reply).1
    case Idle => IdleProgress(net, env, s, tick);
    case Suspended(_) => SuspensionProgress(net, env, s, tick);
    case Written(_, _) => WriteProgress(net, env, s, tick);
    case WriteFailed(_, _) => WriteProgress(net, env, s, tick);
  }

  // ------------------------------------------------------------- convergence

  lemma AdvancesTransitive(net: Net, env: Mappings, r0: Rules, a: Binding, r1: Rules, b: Binding, r2: Rules, c: Binding)
    requires Advances(net, env, r0, a, r1, b) && Advances(net, env, r1, b, r2, c)
    ensures Advances(net, env, r0, a, r2, c)
  {
  }

  lemma AllAdvanceTransitive(net: Net, env: Mappings, s: State, t: State, u: State)
    requires AllAdvance(net, env, s, t) && AllAdvance(net, env, t, u)
    ensures AllAdvance(net, env, s, u)
  {
    forall a | a in s.bindings ensures exists c :: c in u.bindings && Advances(net, env, s.rules, a, u.rules, c) {
      var b :| b in t.bindings && Advances(net, env, s.rules, a, t.rules, b);
      var c :| c in u.bindings && Advances(net, env, t.rules, b, u.rules, c);
      AdvancesTransitive(net, env, s.rules, a, t.rules, b, u.rules, c);
    }
  }

  lemma {:induction false} RunEmptiesWork(net: Net, env: Mappings, s: State, ticks: seq<Tick>)
    requires Canonical(net) && Fine(s) && FaithfulRun(net, env, s, ticks)
    requires |ticks| >= |BusyUuids(net, env, s)| + if Ready(net, env, s) then 0 else 1
    ensures var t := Settle(net, env, s, ticks);
            AllAdvance(net, env, s, t) && BusyUuids(net, env, t) == {}
    decreases |ticks|
  {
    if ticks == [] {
      assert forall b :: b in s.bindings ==> b in s.bindings && Advances(net, env, s.rules, b, s.rules, b);
    } else {
      CycleProgress(net, env, s, ticks[0]);
      var t := Tock(net, env, s, ticks[0]);
      if BusyUuids(net, env, t) < BusyUuids(net, env, s) {
        SmallerSet(BusyUuids(net, env, t), BusyUuids(net, env, s));
      }
      RunEmptiesWork(net, env, t, ticks[1..]);
      AllAdvanceTransitive(net, env, s, t, Settle(net, env, t, ticks[1..]));
    }
  }

  lemma {:induction false} SmallerSet<T>(a: set<T>, b: set<T>)
    requires a < b
    ensures |a| < |b|
  {
    var x :| x in b && x !in a;
    SubsetSize(a, b - {x});
  }

  lemma {:induction false} SubsetSize<T>(a: set<T>, b: set<T>)
    requires a <= b
    ensures |a| <= |b|
  {
    if a != {} {
      var x :| x in a;
      SubsetSize(a - {x}, b - {x});
    }
  }

  lemma {:induction false} BusyAtMost(bs: seq<Binding>, uuids: set<string>)
    requires forall u :: u in uuids ==> exists b :: b in bs && b.uuid == u
    ensures |uuids| <= |bs|
  {
    if bs == [] {
      assert uuids == {};
    } else {
      var last := bs[|bs| - 1];
      forall u | u in uuids - {last.uuid} ensures exists b :: b in bs[..|bs| - 1] && b.uuid == u {
        var b :| b in bs && b.uuid == u;
        assert b in bs[..|bs| - 1];
      }
      BusyAtMost(bs[..|bs| - 1], uuids - {last.uuid});
      SubsetSize(uuids, (uuids - {last.uuid}) + {last.uuid});
    }
  }

  /** Address-follow converges. Whatever has been observed so far, after one cycle more
      than there are bindings, every running binding whose rule was untouched has its bound
      field at the mapping's address, if the rule is fit and there is an address, and every
      one whose rule was touched is suspended, although a cycle writes at most one rule and
      returns early. */
  lemma FollowConverges(net: Net, env: Mappings, s: State, ticks: seq<Tick>)
    requires Canonical(net) && Fine(s) && FaithfulRun(net, env, s, ticks)
    requires |ticks| >= |s.bindings| + 1
    ensures var t := Settle(net, env, s, ticks);
            forall b :: b in s.bindings && b.targetType == "mapping" && b.enabled && !b.suspended && b.uuid in s.rules ==>
              exists b' :: b' in t.bindings && SameTarget(b, b') && Reached(net, env, s.rules, b, t.rules, b')
  {
    BusyAtMost(s.bindings, BusyUuids(net, env, s));
    RunEmptiesWork(net, env, s, ticks);
    var t := Settle(net, env, s, ticks);
    forall b | b in s.bindings && Active(s.rules, b)
      ensures exists b' :: b' in t.bindings && SameTarget(b, b') && Reached(net, env, s.rules, b, t.rules, b')
    {
      var b' :| b' in t.bindings && Advances(net, env, s.rules, b, t.rules, b');
      assert b'.uuid !in BusyUuids(net, env, t);
      RestIsReached(net, env, s.rules, b, t.rules, b');
    }
  }

  lemma RestIsReached(net: Net, env: Mappings, rules: Rules, b: Binding, rules': Rules, b': Binding)
    requires Active(rules, b) && Advances(net, env, rules, b, rules', b') && !Busy(net, env, rules', b')
    ensures Reached(net, env, rules, b, rules', b')
  {
    RestIsSettled(net, env, rules, b, rules', b');
    hide Drifted, Compatible, Resolve, Untouched, Fit, MappedTo, Says, FieldValue, Advances, Busy;
    UntouchedIff(net, rules[b.uuid], b);
    FitIff(net, env, rules[b.uuid], b);
    MappedToIs(net, env, b);
    if b.uuid in rules' {
      UntouchedIff(net, rules'[b.uuid], b');
      SaysIs(net, b, Field(rules'[b.uuid], b.field));
    }
  }

  lemma RestIsSettled(net: Net, env: Mappings, rules: Rules, b: Binding, rules': Rules, b': Binding)
    requires Active(rules, b) && Advances(net, env, rules, b, rules', b') && !Busy(net, env, rules', b')
    ensures if Drifted(net, rules[b.uuid], b) then b'.suspended
            else
              && b.uuid in rules' && !b'.suspended && !Drifted(net, rules'[b.uuid], b')
              && (Compatible(net, env, rules[b.uuid], b) && Resolve(net, env, b) != "" ==>
                    ValueIn(net, rules'[b.uuid], b) == Resolve(net, env, b))
  {
    assert Resolve(net, env, b') == Resolve(net, env, b);
  }

  /** Where a binding that was running at first has come to rest. */
  ghost predicate Reached(net: Net, env: Mappings, rules: Rules, b: Binding, rules': Rules, b': Binding)
    requires b.uuid in rules
  {
    if !Untouched(net, rules[b.uuid], b) then b'.suspended
    else
      && b.uuid in rules' && !b'.suspended && Untouched(net, rules'[b.uuid], b')
      && (Fit(net, env, rules[b.uuid], b) && MappedTo(net, env, b) != "" ==>
            Says(net, b, Field(rules'[b.uuid], b.field)) == MappedTo(net, env, b))
  }
}
