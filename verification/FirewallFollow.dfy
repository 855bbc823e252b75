/** The address-follow reconciler for router firewall rules (router/firewall_automation.py). */
module FirewallFollow {
  import opened Json
  import opened Wrappers

  /** One raw router rule, and the router's rule table by uuid. */
  type Rule = map<string, Json>

  type Rules = map<string, Rule>

  datatype Mapping = Mapping(addressFamily: string, address: Json, protocol: string, targetPort: Json)

  /** Address parsing: `ip` is _ip, `host` the suffix branch of _field_value, `suffix`
      is _suffix, `covers` is _protocol_matches together with _port_contains. */
  datatype Net = Net(
    ip: (Json, string) -> string,
    host: Json -> string,
    suffix: string -> string,
    covers: (Json, Json, Mapping) -> bool)

  /** Canonical texts parse to themselves. */
  ghost predicate Canonical(net: Net) {
    && (forall v: Json, family: string :: net.ip(Str(net.ip(v, family)), family) == net.ip(v, family))
    && (forall v: Json :: net.host(Str(net.host(v))) == net.host(v))
    && (forall a: string :: net.host(Str(net.suffix(a))) == net.suffix(a))
  }

  /** The mapping specs that can currently be read, by kind and id. */
  type Mappings = map<(string, string), Mapping>

  /** The SHA of a rule is abstracted to what it covers. */
  datatype Binding = Binding(
    uuid: string, enabled: bool, suspended: bool, reason: string,
    targetType: string, mappingKind: string, mappingId: string,
    family: string, field: string,
    lastApplied: string, fingerprint: Option<Rule>)

  datatype Candidate = Candidate(value: string, count: nat)

  const STABLE_OBSERVATIONS := 2
  const MAX_BINDINGS := 100

  // ------------------------------------------------------- pure definitions

  function FieldValue(net: Net, field: string, v: Json, family: string): string {
    if field == "destIP" then net.ip(v, family)
    else if field != "ipv6SuffixDest" || family != "ipv6" then ""
    else net.host(v)
  }

  function Fingerprint(rule: Rule, field: string): Rule {
    map k | k in rule && k != "stats" && k != field :: rule[k]
  }

  function MappingOf(env: Mappings, b: Binding): Option<Mapping> {
    if (b.mappingKind, b.mappingId) in env then Some(env[(b.mappingKind, b.mappingId)]) else None
  }

  function Resolve(net: Net, env: Mappings, b: Binding): string {
    if b.targetType != "mapping" then ""
    else
      match MappingOf(env, b)
      case None => ""
      case Some(m) =>
        var address := net.ip(m.address, b.family);
        if address != "" && b.field == "ipv6SuffixDest" then net.suffix(address) else address
  }

  function ValueIn(net: Net, rule: Rule, b: Binding): string {
    FieldValue(net, b.field, Field(rule, b.field), b.family)
  }

  /** The value recorded when the binding was adopted or last written. */
  function Recorded(net: Net, b: Binding): string {
    FieldValue(net, b.field, Str(b.lastApplied), b.family)
  }

  predicate TextIs(rule: Rule, key: string, lowered: string) {
    Lower(Text(Field(rule, key))) == lowered
  }

  predicate Compatible(net: Net, env: Mappings, rule: Rule, b: Binding) {
    && b.targetType == "mapping"
    && MappingOf(env, b).Some?
    && TextIs(rule, "ipVersion", b.family)
    && b.field in {"destIP", "ipv6SuffixDest"}
    && !(b.family == "ipv4" && b.field != "destIP")
    && ValueIn(net, rule, b) != ""
    && TextIs(rule, "target", "accept")
    && TextIs(rule, "direction", "forward")
    && TextIs(rule, "inIface", "wan")
    && TextIs(rule, "outIface", "lan")
    && MappingOf(env, b).value.addressFamily == b.family
    && net.covers(Field(rule, "proto"), Field(rule, "destPort"), MappingOf(env, b).value)
  }

  /** The rule no longer is what this service last recorded. */
  predicate Drifted(net: Net, rule: Rule, b: Binding) {
    || Recorded(net, b) == ""
    || b.fingerprint.None?
    || ValueIn(net, rule, b) != Recorded(net, b)
    || Fingerprint(rule, b.field) != b.fingerprint.value
  }

  predicate Active(rules: Rules, b: Binding) {
    b.targetType == "mapping" && b.enabled && !b.suspended && b.uuid in rules
  }

  // ------------------------------------------------- deciding for one binding

  datatype Decision =
    | Pass
    | Settled
    | Drift(reason: string)
    | Watch(desired: string)
    | Write(desired: string)

  predicate Confirmed(candidates: map<string, Candidate>, uuid: string, desired: string) {
    && uuid in candidates && candidates[uuid].value == desired
    && candidates[uuid].count + 1 >= STABLE_OBSERVATIONS
  }

  /** _candidate_confirmed's effect on the candidates. */
  function Observe(candidates: map<string, Candidate>, uuid: string, desired: string): map<string, Candidate> {
    if uuid !in candidates || candidates[uuid].value != desired then candidates[uuid := Candidate(desired, 1)]
    else
      var count := candidates[uuid].count + 1;
      candidates[uuid := Candidate(desired, if count > STABLE_OBSERVATIONS then STABLE_OBSERVATIONS else count)]
  }

  function Decide(net: Net, env: Mappings, rules: Rules, b: Binding, candidates: map<string, Candidate>): Decision {
    if !Active(rules, b) then Pass
    else
      var rule := rules[b.uuid];
      if Drifted(net, rule, b) then Drift(if Recorded(net, b) != "" then "manual_change" else "confirmation_required")
      else if !Compatible(net, env, rule, b) then Pass
      else
        var actual, desired := ValueIn(net, rule, b), Resolve(net, env, b);
        if actual == desired then Settled
        else if desired == "" || actual == "" then Pass
        else if Confirmed(candidates, b.uuid, desired) then Write(desired)
        else Watch(desired)
  }

  function AfterVisit(candidates: map<string, Candidate>, uuid: string, d: Decision): map<string, Candidate> {
    match d
    case Settled => candidates - {uuid}
    case Watch(desired) => Observe(candidates, uuid, desired)
    case Write(desired) => Observe(candidates, uuid, desired)
    case _ => candidates
  }

  // ------------------------------------------------------------- one cycle

  datatype State = State(bindings: seq<Binding>, candidates: map<string, Candidate>, rules: Rules)

  /** The router's answer to a write: its table afterwards and what was read back. */
  datatype Reply = Reply(rules: Rules, readback: Option<Rules>)

  datatype Outcome =
    | Idle
    | Suspended(uuid: string)
    | Written(uuid: string, payload: Rule)
    | WriteFailed(uuid: string, payload: Rule)

  datatype Stop = Stop(binding: Binding, decision: Decision)

  /** Visit bindings in order until one is written or found drifted. */
  function Scan(net: Net, env: Mappings, rules: Rules, bs: seq<Binding>, candidates: map<string, Candidate>)
    : (r: (map<string, Candidate>, Option<Stop>))
  {
    if bs == [] then (candidates, None)
    else
      var d := Decide(net, env, rules, bs[0], candidates);
      var candidates' := AfterVisit(candidates, bs[0].uuid, d);
      if d.Drift? || d.Write? then (candidates', Some(Stop(bs[0], d)))
      else Scan(net, env, rules, bs[1..], candidates')
  }

  function Without(bs: seq<Binding>, uuid: string): seq<Binding> {
    if bs == [] then []
    else
      var rest := Without(bs[..|bs| - 1], uuid);
      if bs[|bs| - 1].uuid == uuid then rest else rest + [bs[|bs| - 1]]
  }

  function Only(bs: seq<Binding>, uuid: string): seq<Binding> {
    if bs == [] then []
    else
      var rest := Only(bs[..|bs| - 1], uuid);
      if bs[|bs| - 1].uuid == uuid then rest + [bs[|bs| - 1]] else rest
  }

  function Insert(bs: seq<Binding>, b: Binding): seq<Binding> {
    if bs != [] && TextBefore(b.uuid, bs[|bs| - 1].uuid) then Insert(bs[..|bs| - 1], b) + [bs[|bs| - 1]] else bs + [b]
  }

  function Sorted(bs: seq<Binding>): seq<Binding> {
    if bs == [] then [] else Insert(Sorted(bs[..|bs| - 1]), bs[|bs| - 1])
  }

  /** _save keeps the first hundred bindings in uuid order. */
  function Saved(bs: seq<Binding>): seq<Binding> {
    var rows := Sorted(bs);
    if |rows| > MAX_BINDINGS then rows[..MAX_BINDINGS] else rows
  }

  function ReplaceBinding(bs: seq<Binding>, b: Binding): seq<Binding> {
    Saved(Without(bs, b.uuid) + [b])
  }

  function Payload(rule: Rule, field: string, desired: string): Rule {
    (rule - {"stats"})[field := Str(desired)]
  }

  function Suspension(b: Binding, reason: string): Binding {
    b.(suspended := true, reason := reason)
  }

  predicate Verified(net: Net, readback: Option<Rules>, b: Binding, desired: string) {
    readback.Some? && b.uuid in readback.value && ValueIn(net, readback.value[b.uuid], b) == desired
  }

  function WriteBinding(net: Net, s: State, b: Binding, desired: string, reply: Reply): (r: (State, Outcome))
    requires b.uuid in s.rules
  {
    var payload := Payload(s.rules[b.uuid], b.field, desired);
    if !Verified(net, reply.readback, b, desired) then (s.(rules := reply.rules), WriteFailed(b.uuid, payload))
    else
      var replacement := b.(lastApplied := desired, fingerprint := Some(Fingerprint(reply.readback.value[b.uuid], b.field)),
                            suspended := false, reason := "");
      (State(ReplaceBinding(s.bindings, replacement), s.candidates - {b.uuid}, reply.rules), Written(b.uuid, payload))
  }

  /** The part of the bindings that a cycle considers. */
  function Considered(s: State, only: Option<string>): seq<Binding> {
    if only.Some? then Only(s.bindings, only.value) else s.bindings
  }

  function Cycle(net: Net, env: Mappings, s: State, only: Option<string>, reply: Reply): (r: (State, Outcome)) {
    var (candidates, stop) := Scan(net, env, s.rules, Considered(s, only), s.candidates);
    match stop
    case None => (s.(candidates := candidates), Idle)
    case Some(Stop(b, Drift(reason))) =>
      (s.(bindings := ReplaceBinding(s.bindings, Suspension(b, reason)), candidates := candidates - {b.uuid}), Suspended(b.uuid))
    case Some(Stop(b, Write(desired))) =>
      if b.uuid in s.rules then WriteBinding(net, s.(candidates := candidates), b, desired, reply) else (s, Idle)
    case _ => (s, Idle)
  }

  // ------------------------------------------------------------- binding sets

  ghost predicate UniqueUuids(bs: seq<Binding>) {
    forall i, j :: 0 <= i < j < |bs| ==> bs[i].uuid != bs[j].uuid
  }

  lemma {:induction false} WithoutMembers(bs: seq<Binding>, uuid: string)
    ensures forall x :: x in Without(bs, uuid) <==> x in bs && x.uuid != uuid
    ensures |Without(bs, uuid)| <= |bs|
    ensures (exists x :: x in bs && x.uuid == uuid) ==> |Without(bs, uuid)| < |bs|
  {
    if bs != [] {
      var init, last := bs[..|bs| - 1], bs[|bs| - 1];
      WithoutMembers(init, uuid);
      assert forall x :: x in bs <==> x in init || x == last;
    }
  }

  lemma {:induction false} WithoutUnique(bs: seq<Binding>, uuid: string)
    requires UniqueUuids(bs)
    ensures UniqueUuids(Without(bs, uuid))
  {
    if bs != [] {
      var init, last := bs[..|bs| - 1], bs[|bs| - 1];
      WithoutUnique(init, uuid);
      WithoutMembers(init, uuid);
      var rest := Without(init, uuid);
      forall i | 0 <= i < |rest| ensures rest[i].uuid != last.uuid {
        assert rest[i] in init;
      }
    }
  }

  lemma {:induction false} OnlyMembers(bs: seq<Binding>, uuid: string)
    ensures forall x :: x in Only(bs, uuid) <==> x in bs && x.uuid == uuid
  {
    if bs != [] {
      OnlyMembers(bs[..|bs| - 1], uuid);
      assert bs == bs[..|bs| - 1] + [bs[|bs| - 1]];
    }
  }

  lemma {:induction false} InsertMembers(bs: seq<Binding>, b: Binding)
    ensures forall x :: x in Insert(bs, b) <==> x in bs || x == b
    ensures |Insert(bs, b)| == |bs| + 1
    ensures UniqueUuids(bs) && (forall x :: x in bs ==> x.uuid != b.uuid) ==> UniqueUuids(Insert(bs, b))
  {
    if bs != [] && TextBefore(b.uuid, bs[|bs| - 1].uuid) {
      var init := bs[..|bs| - 1];
      InsertMembers(init, b);
      assert bs == init + [bs[|bs| - 1]];
      SnocMembers(init, bs[|bs| - 1]);
      if UniqueUuids(bs) && (forall x :: x in bs ==> x.uuid != b.uuid) {
        forall i | 0 <= i < |bs| ensures Insert(init, b)[i].uuid != bs[|bs| - 1].uuid {
          assert Insert(init, b)[i] in Insert(init, b);
        }
      }
    }
  }

  lemma {:induction false} SortedMembers(bs: seq<Binding>)
    ensures forall x :: x in Sorted(bs) <==> x in bs
    ensures |Sorted(bs)| == |bs|
    ensures UniqueUuids(bs) ==> UniqueUuids(Sorted(bs))
  {
    if bs != [] {
      var init := bs[..|bs| - 1];
      SortedMembers(init);
      InsertMembers(Sorted(init), bs[|bs| - 1]);
      assert bs == init + [bs[|bs| - 1]];
    }
  }

  /** Replacing a known binding swaps exactly that one. */
  lemma ReplaceMembers(bs: seq<Binding>, b: Binding)
    requires UniqueUuids(bs) && |bs| <= MAX_BINDINGS
    ensures UniqueUuids(ReplaceBinding(bs, b)) && |ReplaceBinding(bs, b)| <= MAX_BINDINGS
    ensures forall x :: x in ReplaceBinding(bs, b) ==> x == b || (x in bs && x.uuid != b.uuid)
    ensures (exists x :: x in bs && x.uuid == b.uuid) ==>
              forall x :: x == b || (x in bs && x.uuid != b.uuid) ==> x in ReplaceBinding(bs, b)
  {
    WithoutMembers(bs, b.uuid);
    WithoutUnique(bs, b.uuid);
    var rows := Without(bs, b.uuid) + [b];
    SnocMembers(Without(bs, b.uuid), b);
    SortedMembers(rows);
  }

  lemma SnocMembers(bs: seq<Binding>, b: Binding)
    ensures forall x :: x in bs + [b] <==> x in bs || x == b
    ensures UniqueUuids(bs) && (forall x :: x in bs ==> x.uuid != b.uuid) ==> UniqueUuids(bs + [b])
  {
  }

  // ------------------------------------------------------------------ the saved order

  ghost predicate InOrder(bs: seq<Binding>) {
    forall i, j :: 0 <= i < j < |bs| ==> !TextBefore(bs[j].uuid, bs[i].uuid)
  }

  lemma {:induction false} InsertInOrder(bs: seq<Binding>, b: Binding)
    requires InOrder(bs)
    ensures InOrder(Insert(bs, b))
  {
    if bs != [] && TextBefore(b.uuid, bs[|bs| - 1].uuid) {
      var init, last := bs[..|bs| - 1], bs[|bs| - 1];
      InsertInOrder(init, b);
      InsertMembers(init, b);
      TextOneWay(b.uuid, last.uuid);
      forall x | x in Insert(init, b) ensures !TextBefore(last.uuid, x.uuid) {
        if x in init {
          var i :| 0 <= i < |init| && init[i] == x;
          assert bs[i] == x;
        }
      }
      LastInOrder(Insert(init, b), last);
    } else {
      forall x | x in bs ensures !TextBefore(b.uuid, x.uuid) {
        var i :| 0 <= i < |bs| && bs[i] == x;
        if i < |bs| - 1 {
          TextNotBefore(b.uuid, bs[|bs| - 1].uuid, x.uuid);
        }
      }
      LastInOrder(bs, b);
    }
  }

  lemma LastInOrder(bs: seq<Binding>, b: Binding)
    requires InOrder(bs) && forall x :: x in bs ==> !TextBefore(b.uuid, x.uuid)
    ensures InOrder(bs + [b])
  {
    forall i | 0 <= i < |bs| ensures !TextBefore(b.uuid, bs[i].uuid) {
      assert bs[i] in bs;
    }
  }

  /** Bindings are saved in the order of their rules' ids, and of more than a hundred the
      first hundred; nothing else is lost. */
  lemma SavedInOrder(bs: seq<Binding>)
    ensures InOrder(Saved(bs))
    ensures forall x :: x in Saved(bs) ==> x in bs
    ensures |bs| <= 100 ==> forall x :: x in bs ==> x in Saved(bs)
    ensures |Saved(bs)| == if |bs| > 100 then 100 else |bs|
  {
    SortedInOrder(bs);
    SortedMembers(bs);
  }

  lemma {:induction false} SortedInOrder(bs: seq<Binding>)
    ensures InOrder(Sorted(bs))
  {
    if bs != [] {
      SortedInOrder(bs[..|bs| - 1]);
      InsertInOrder(Sorted(bs[..|bs| - 1]), bs[|bs| - 1]);
    }
  }
}
