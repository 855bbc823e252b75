/** What a firewall binding means, in terms of its rule's fields and its mapping's address. */
module FirewallMeaning {
  import opened Json
  import opened FirewallFollow
  import opened Wrappers

  /** What a value of the bound field says, "" if nothing usable. */
  function Says(net: Net, b: Binding, v: Json): string {
    if b.field == "destIP" then net.ip(v, b.family)
    else if b.field == "ipv6SuffixDest" && b.family == "ipv6" then net.host(v)
    else ""
  }

  /** The rule's bound field and every field but it and the statistics are as recorded. */
  ghost predicate Untouched(net: Net, rule: Rule, b: Binding) {
    && b.fingerprint.Some?
    && Says(net, b, Field(rule, b.field)) == Says(net, b, Str(b.lastApplied)) != ""
    && (forall k: string :: k in b.fingerprint.value <==> k in rule && k != "stats" && k != b.field)
    && (forall k: string :: k in b.fingerprint.value && k in rule ==> b.fingerprint.value[k] == rule[k])
  }

  predicate TextEquals(rule: Rule, key: string, word: string) {
    Lower(Text(Field(rule, key))) == word
  }

  /** The rule accepts what the mapping forwards from WAN to LAN, by a usable address of the
      mapping's family. */
  predicate Fit(net: Net, env: Mappings, rule: Rule, b: Binding) {
    && (b.mappingKind, b.mappingId) in env
    && var m := env[(b.mappingKind, b.mappingId)];
    && m.addressFamily == b.family && TextEquals(rule, "ipVersion", b.family)
    && (b.field == "destIP" || (b.field == "ipv6SuffixDest" && b.family != "ipv4"))
    && Says(net, b, Field(rule, b.field)) != ""
    && TextEquals(rule, "target", "accept")
    && TextEquals(rule, "direction", "forward")
    && TextEquals(rule, "inIface", "wan")
    && TextEquals(rule, "outIface", "lan")
    && net.covers(Field(rule, "proto"), Field(rule, "destPort"), m)
  }

  /** The mapping's present address as the bound field takes it, "" if there is none. */
  function MappedTo(net: Net, env: Mappings, b: Binding): string {
    if (b.mappingKind, b.mappingId) !in env then ""
    else
      var address := net.ip(env[(b.mappingKind, b.mappingId)].address, b.family);
      if address == "" then "" else if b.field == "ipv6SuffixDest" then net.suffix(address) else address
  }

  /** The rule and the payload differ in the bound field, which gets v, and in the statistics,
      which are not sent. */
  ghost predicate OnlySets(rule: Rule, payload: Rule, field: string, v: string) {
    && field in payload && payload[field] == Str(v)
    && (forall k: string :: k != field ==> (k in payload <==> k in rule && k != "stats"))
    && (forall k: string :: k != field && k in payload && k in rule ==> payload[k] == rule[k])
  }

  lemma SaysIs(net: Net, b: Binding, v: Json)
    ensures Says(net, b, v) == FieldValue(net, b.field, v, b.family)
  {
  }

  lemma UntouchedIff(net: Net, rule: Rule, b: Binding)
    ensures Untouched(net, rule, b) <==> !Drifted(net, rule, b)
  {
    hide Says, FieldValue;
    SaysIs(net, b, Field(rule, b.field));
    SaysIs(net, b, Str(b.lastApplied));
    if Untouched(net, rule, b) {
      assert Fingerprint(rule, b.field).Keys == b.fingerprint.value.Keys;
      assert Fingerprint(rule, b.field) == b.fingerprint.value;
    }
  }

  lemma FitIff(net: Net, env: Mappings, rule: Rule, b: Binding)
    ensures b.targetType == "mapping" && Fit(net, env, rule, b) <==> Compatible(net, env, rule, b)
  {
    hide Says, FieldValue, Lower, Text;
    SaysIs(net, b, Field(rule, b.field));
  }

  lemma MappedToIs(net: Net, env: Mappings, b: Binding)
    requires b.targetType == "mapping"
    ensures MappedTo(net, env, b) == Resolve(net, env, b)
  {
  }

  lemma PayloadOnlySets(rule: Rule, field: string, v: string)
    ensures OnlySets(rule, Payload(rule, field, v), field, v)
  {
  }
}
