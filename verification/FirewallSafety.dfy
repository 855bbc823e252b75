/** No operator edit is overwritten: safety of the reconciler over every run. */
module FirewallSafety {
  import opened Json
  import opened FirewallFollow
  import opened FirewallMeaning
  import opened Wrappers

  // -------------------------------------------------------------- observations

  /** What was resolved and compared, visit by visit, oldest first. */
  type History = seq<(string, string)>

  function Visits(net: Net, env: Mappings, rules: Rules, bs: seq<Binding>, candidates: map<string, Candidate>): History {
    if bs == [] then []
    else
      var d := Decide(net, env, rules, bs[0], candidates);
      var seen := if d.Settled? || d.Watch? || d.Write? then [(bs[0].uuid, Resolve(net, env, bs[0]))] else [];
      if d.Drift? || d.Write? then seen
      else seen + Visits(net, env, rules, bs[1..], AfterVisit(candidates, bs[0].uuid, d))
  }

  function ValuesOf(h: History, uuid: string): seq<string> {
    if h == [] then []
    else
      var rest := ValuesOf(h[..|h| - 1], uuid);
      if h[|h| - 1].0 == uuid then rest + [h[|h| - 1].1] else rest
  }

  /** The last two values ever resolved for this rule are both v. */
  predicate SeenTwice(h: History, uuid: string, v: string) {
    var vs := ValuesOf(h, uuid);
    |vs| >= 2 && vs[|vs| - 1] == v && vs[|vs| - 2] == v
  }

  ghost predicate Remembered(candidates: map<string, Candidate>, h: History) {
    forall u :: u in candidates ==>
      candidates[u].count >= 1 && ValuesOf(h, u) != [] && ValuesOf(h, u)[|ValuesOf(h, u)| - 1] == candidates[u].value
  }

  lemma ValuesOfSnoc(h: History, e: (string, string), uuid: string)
    ensures ValuesOf(h + [e], uuid) == if e.0 == uuid then ValuesOf(h, uuid) + [e.1] else ValuesOf(h, uuid)
  {
    assert (h + [e])[..|h|] == h;
  }

  lemma VisitRemembered(net: Net, env: Mappings, rules: Rules, b: Binding, candidates: map<string, Candidate>, h: History)
    requires Remembered(candidates, h)
    ensures var d := Decide(net, env, rules, b, candidates);
            var seen := if d.Settled? || d.Watch? || d.Write? then [(b.uuid, Resolve(net, env, b))] else [];
            && Remembered(AfterVisit(candidates, b.uuid, d), h + seen)
            && (d.Write? ==> SeenTwice(h + seen, b.uuid, d.desired))
  {
    var d := Decide(net, env, rules, b, candidates);
    DecideFacts(net, env, rules, b, candidates);
    if d.Settled? || d.Watch? || d.Write? {
      RememberVisit(candidates, h, b.uuid, d, Resolve(net, env, b));
    } else {
      assert h + [] == h;
    }
  }

  lemma DecideFacts(net: Net, env: Mappings, rules: Rules, b: Binding, candidates: map<string, Candidate>)
    ensures var d := Decide(net, env, rules, b, candidates);
            && (d.Watch? || d.Write? ==> d.desired == Resolve(net, env, b))
            && (d.Write? <==> d.Write? && Confirmed(candidates, b.uuid, d.desired))
  {
  }

  lemma RememberVisit(candidates: map<string, Candidate>, h: History, uuid: string, d: Decision, v: string)
    requires Remembered(candidates, h)
    requires d.Settled? || d.Watch? || d.Write?
    requires d.Watch? || d.Write? ==> d.desired == v
    requires d.Write? ==> Confirmed(candidates, uuid, v)
    ensures Remembered(AfterVisit(candidates, uuid, d), h + [(uuid, v)])
    ensures d.Write? ==> SeenTwice(h + [(uuid, v)], uuid, v)
  {
    hide ValuesOf;
    var after := AfterVisit(candidates, uuid, d);
    forall u | u in after
      ensures after[u].count >= 1 && ValuesOf(h + [(uuid, v)], u) != []
      ensures ValuesOf(h + [(uuid, v)], u)[|ValuesOf(h + [(uuid, v)], u)| - 1] == after[u].value
    {
      ValuesOfSnoc(h, (uuid, v), u);
      if u != uuid {
        assert u in candidates && after[u] == candidates[u];
      }
    }
    ValuesOfSnoc(h, (uuid, v), uuid);
  }

  lemma {:induction false} ScanRemembered(net: Net, env: Mappings, rules: Rules, bs: seq<Binding>,
                                          candidates: map<string, Candidate>, h: History)
    requires Remembered(candidates, h)
    ensures var (after, stop) := Scan(net, env, rules, bs, candidates);
            var h' := h + Visits(net, env, rules, bs, candidates);
            && Remembered(after, h')
            && (stop.Some? && stop.value.decision.Write? ==>
                  SeenTwice(h', stop.value.binding.uuid, stop.value.decision.desired))
  {
    hide Decide;
    if bs == [] {
      assert h + [] == h;
    } else {
      VisitRemembered(net, env, rules, bs[0], candidates, h);
      var d := Decide(net, env, rules, bs[0], candidates);
      if !(d.Drift? || d.Write?) {
        var seen := if d.Settled? || d.Watch? || d.Write? then [(bs[0].uuid, Resolve(net, env, bs[0]))] else [];
        var after := AfterVisit(candidates, bs[0].uuid, d);
        ScanRemembered(net, env, rules, bs[1..], after, h + seen);
        assert h + (seen + Visits(net, env, rules, bs[1..], after)) == h + seen + Visits(net, env, rules, bs[1..], after);
      }
    }
  }

  /** The binding a scan stops at is one of those visited, and it was decided on its own rule. */
  lemma {:induction false} ScanStop(net: Net, env: Mappings, rules: Rules, bs: seq<Binding>, candidates: map<string, Candidate>)
    ensures var stop := Scan(net, env, rules, bs, candidates).1;
            stop.Some? ==>
              var b, d := stop.value.binding, stop.value.decision;
              && b in bs && (d.Drift? || d.Write?) && Active(rules, b)
              && (d.Drift? ==> Drifted(net, rules[b.uuid], b))
              && (d.Write? ==>
                    && !Drifted(net, rules[b.uuid], b) && Compatible(net, env, rules[b.uuid], b)
                    && d.desired == Resolve(net, env, b) != ValueIn(net, rules[b.uuid], b) && d.desired != "")
  {
    if bs != [] {
      var d := Decide(net, env, rules, bs[0], candidates);
      if !(d.Drift? || d.Write?) {
        ScanStop(net, env, rules, bs[1..], AfterVisit(candidates, bs[0].uuid, d));
      }
    }
  }

  // --------------------------------------------------------------------- runs

  datatype Request = Request(enabled: bool, targetType: string, mappingKind: string, mappingId: string,
                             family: string, field: string)

  function Adopted(net: Net, rule: Rule, uuid: string, r: Request): Binding {
    Binding(uuid, r.enabled, false, "", "mapping", r.mappingKind, r.mappingId, r.family, r.field,
            FieldValue(net, r.field, Field(rule, r.field), r.family), Some(Fingerprint(rule, r.field)))
  }

  predicate Acceptable(net: Net, env: Mappings, rules: Rules, uuid: string, r: Request) {
    && uuid != "" && uuid in rules
    && r.targetType == "mapping" && r.mappingKind in {"relay", "native"} && r.mappingId != ""
    && r.family in {"ipv4", "ipv6"}
    && Compatible(net, env, rules[uuid], Adopted(net, rules[uuid], uuid, r))
  }

  datatype Step =
    | Reconcile(env: Mappings, only: Option<string>, reply: Reply)
    | Edit(rules: Rules)
    | Upsert(env: Mappings, uuid: string, request: Request)
    | Delete(uuid: string)
    | ProcessRestart

  datatype World = World(state: State, seen: History)

  function Next(net: Net, w: World, step: Step): World {
    var s := w.state;
    match step
    case Reconcile(env, only, reply) =>
      World(Cycle(net, env, s, only, reply).0, w.seen + Visits(net, env, s.rules, Considered(s, only), s.candidates))
    case Edit(rules) => w.(state := s.(rules := rules))
    case Upsert(env, uuid, request) =>
      if Acceptable(net, env, s.rules, uuid, request)
      then w.(state := s.(bindings := ReplaceBinding(s.bindings, Adopted(net, s.rules[uuid], uuid, request))))
      else w
    case Delete(uuid) =>
      if exists b :: b in s.bindings && b.uuid == uuid
      then w.(state := s.(bindings := Saved(Without(s.bindings, uuid)), candidates := s.candidates - {uuid}))
      else w
    case ProcessRestart => w.(state := s.(candidates := map[]))
  }

  function Run(net: Net, w: World, steps: seq<Step>): World {
    if steps == [] then w else Next(net, Run(net, w, steps[..|steps| - 1]), steps[|steps| - 1])
  }

  ghost predicate Ok(w: World) {
    UniqueUuids(w.state.bindings) && |w.state.bindings| <= MAX_BINDINGS && Remembered(w.state.candidates, w.seen)
  }

  /** Stored bindings and a fresh process. */
  ghost predicate Start(w: World) {
    UniqueUuids(w.state.bindings) && |w.state.bindings| <= MAX_BINDINGS && w.state.candidates == map[] && w.seen == []
  }

  lemma SavedMembers(bs: seq<Binding>)
    requires UniqueUuids(bs)
    ensures UniqueUuids(Saved(bs)) && |Saved(bs)| <= MAX_BINDINGS
    ensures forall x :: x in Saved(bs) ==> x in bs
  {
    SortedMembers(bs);
  }

  /** What any issued write looked like, from the state it was issued in: the rule of a running
      binding, untouched since it was recorded and fit for the mapping, gets the mapping's
      present address in its bound field, and nothing else. */
  ghost predicate SafeWrite(net: Net, env: Mappings, s: State, uuid: string, payload: Rule, b: Binding, v: string) {
    && b in s.bindings && b.uuid == uuid && b.targetType == "mapping" && b.enabled && !b.suspended
    && uuid in s.rules
    && Untouched(net, s.rules[uuid], b) && Fit(net, env, s.rules[uuid], b)
    && v == MappedTo(net, env, b) != ""
    && Says(net, b, Field(s.rules[uuid], b.field)) != v
    && OnlySets(s.rules[uuid], payload, b.field, v)
  }

  lemma ConsideredStop(net: Net, env: Mappings, s: State, only: Option<string>)
    ensures var stop := Scan(net, env, s.rules, Considered(s, only), s.candidates).1;
            stop.Some? ==> stop.value.binding in s.bindings
  {
    ScanStop(net, env, s.rules, Considered(s, only), s.candidates);
    if only.Some? {
      OnlyMembers(s.bindings, only.value);
    }
  }

  /** A cycle for one rule writes or suspends that rule, if any. */
  lemma CycleForOne(net: Net, env: Mappings, s: State, uuid: string, reply: Reply)
    ensures var outcome := Cycle(net, env, s, Some(uuid), reply).1; outcome.Idle? || outcome.uuid == uuid
  {
    hide Scan, Compatible, Drifted, ReplaceBinding;
    OnlyMembers(s.bindings, uuid);
    ScanStop(net, env, s.rules, Considered(s, Some(uuid)), s.candidates);
  }

  lemma CycleKeepsUnique(net: Net, env: Mappings, s: State, only: Option<string>, reply: Reply)
    requires UniqueUuids(s.bindings) && |s.bindings| <= MAX_BINDINGS
    ensures var t := Cycle(net, env, s, only, reply).0;
            UniqueUuids(t.bindings) && |t.bindings| <= MAX_BINDINGS
  {
    hide Scan, Compatible, Drifted, ReplaceBinding;
    var stop := Scan(net, env, s.rules, Considered(s, only), s.candidates).1;
    if stop.Some? {
      var b, d := stop.value.binding, stop.value.decision;
      if d.Drift? {
        ReplaceMembers(s.bindings, Suspension(b, d.reason));
      } else if d.Write? && Verified(net, reply.readback, b, d.desired) {
        ReplaceMembers(s.bindings, b.(lastApplied := d.desired,
          fingerprint := Some(Fingerprint(reply.readback.value[b.uuid], b.field)), suspended := false, reason := ""));
      }
    }
  }

  lemma CycleRemembers(net: Net, env: Mappings, s: State, only: Option<string>, reply: Reply, seen: History)
    requires Remembered(s.candidates, seen)
    ensures Remembered(Cycle(net, env, s, only, reply).0.candidates,
                       seen + Visits(net, env, s.rules, Considered(s, only), s.candidates))
  {
    hide Scan, Compatible, Drifted, Visits, ReplaceBinding;
    ScanRemembered(net, env, s.rules, Considered(s, only), s.candidates, seen);
    ScanStop(net, env, s.rules, Considered(s, only), s.candidates);
  }

  lemma IssuedWrite(net: Net, env: Mappings, s: State, only: Option<string>, reply: Reply)
    ensures var outcome := Cycle(net, env, s, only, reply).1;
            var stop := Scan(net, env, s.rules, Considered(s, only), s.candidates).1;
            outcome.Written? || outcome.WriteFailed? ==>
              && stop.Some? && stop.value.decision.Write? && stop.value.binding.uuid == outcome.uuid
              && SafeWrite(net, env, s, outcome.uuid, outcome.payload, stop.value.binding, stop.value.decision.desired)
  {
    hide SafeWrite, Scan, Compatible, Drifted, Resolve, Payload, ReplaceBinding, Verified, FieldValue;
    ConsideredStop(net, env, s, only);
    ScanStop(net, env, s.rules, Considered(s, only), s.candidates);
    var stop := Scan(net, env, s.rules, Considered(s, only), s.candidates).1;
    if stop.Some? && stop.value.decision.Write? {
      var b, v := stop.value.binding, stop.value.decision.desired;
      WriteIsSafe(net, env, s, b, v);
    }
  }

  lemma WriteIsSafe(net: Net, env: Mappings, s: State, b: Binding, v: string)
    requires b in s.bindings && Active(s.rules, b)
    requires !Drifted(net, s.rules[b.uuid], b) && Compatible(net, env, s.rules[b.uuid], b)
    requires v == Resolve(net, env, b) != ValueIn(net, s.rules[b.uuid], b) && v != ""
    ensures SafeWrite(net, env, s, b.uuid, Payload(s.rules[b.uuid], b.field, v), b, v)
  {
    hide Drifted, Compatible, Resolve, Untouched, Fit, MappedTo, OnlySets, Says, FieldValue;
    var rule := s.rules[b.uuid];
    UntouchedIff(net, rule, b);
    FitIff(net, env, rule, b);
    MappedToIs(net, env, b);
    SaysIs(net, b, Field(rule, b.field));
    PayloadOnlySets(rule, b.field, v);
  }

  /** A cycle suspends only a running binding whose rule was touched. */
  lemma CycleSuspends(net: Net, env: Mappings, s: State, only: Option<string>, reply: Reply)
    ensures var (t, outcome) := Cycle(net, env, s, only, reply);
            outcome.Suspended? ==>
              exists b :: b in s.bindings && b.uuid == outcome.uuid && b.targetType == "mapping" && b.enabled && !b.suspended
                          && b.uuid in s.rules && !Untouched(net, s.rules[b.uuid], b)
  {
    hide Scan, Compatible, Drifted, Untouched, ReplaceBinding;
    ConsideredStop(net, env, s, only);
    ScanStop(net, env, s.rules, Considered(s, only), s.candidates);
    var stop := Scan(net, env, s.rules, Considered(s, only), s.candidates).1;
    if stop.Some? {
      UntouchedIff(net, s.rules[stop.value.binding.uuid], stop.value.binding);
    }
  }

  lemma CycleWrites(net: Net, env: Mappings, s: State, only: Option<string>, reply: Reply, seen: History)
    requires Remembered(s.candidates, seen)
    ensures var outcome := Cycle(net, env, s, only, reply).1;
            outcome.Written? || outcome.WriteFailed? ==>
              exists b, v :: SafeWrite(net, env, s, outcome.uuid, outcome.payload, b, v)
                             && SeenTwice(seen + Visits(net, env, s.rules, Considered(s, only), s.candidates), outcome.uuid, v)
  {
    IssuedWrite(net, env, s, only, reply);
    ScanRemembered(net, env, s.rules, Considered(s, only), s.candidates, seen);
  }

  /** A request is acceptable exactly for a known rule that is fit for the mapping it names. */
  lemma AcceptableIff(net: Net, env: Mappings, rules: Rules, uuid: string, r: Request)
    ensures Acceptable(net, env, rules, uuid, r) <==>
              && uuid != "" && uuid in rules && r.targetType == "mapping" && r.mappingId != ""
              && (r.mappingKind == "relay" || r.mappingKind == "native") && (r.family == "ipv4" || r.family == "ipv6")
              && Fit(net, env, rules[uuid], Adopted(net, rules[uuid], uuid, r))
  {
    hide Fit, Compatible;
    if uuid in rules {
      FitIff(net, env, rules[uuid], Adopted(net, rules[uuid], uuid, r));
    }
  }

  /** What adoption records: the request's mapping and field, running, and the rule as it is,
      so that nothing counts as touched yet. */
  lemma AdoptionRecords(net: Net, env: Mappings, rules: Rules, uuid: string, r: Request)
    requires Canonical(net) && Acceptable(net, env, rules, uuid, r)
    ensures var b := Adopted(net, rules[uuid], uuid, r);
            && b.uuid == uuid && b.targetType == "mapping" && b.mappingKind == r.mappingKind && b.mappingId == r.mappingId
            && b.family == r.family && b.field == r.field && b.enabled == r.enabled && !b.suspended
            && Untouched(net, rules[uuid], b)
  {
    hide Untouched;
    var b := Adopted(net, rules[uuid], uuid, r);
    UntouchedIff(net, rules[uuid], b);
  }

  lemma ReconcileKeepsOk(net: Net, w: World, env: Mappings, only: Option<string>, reply: Reply)
    requires Ok(w)
    ensures Ok(Next(net, w, Reconcile(env, only, reply)))
  {
    CycleKeepsUnique(net, env, w.state, only, reply);
    CycleRemembers(net, env, w.state, only, reply, w.seen);
  }

  lemma UpsertKeepsOk(net: Net, w: World, env: Mappings, uuid: string, request: Request)
    requires Ok(w)
    ensures Ok(Next(net, w, Upsert(env, uuid, request)))
  {
    hide Compatible, ReplaceBinding, Remembered, UniqueUuids;
    if Acceptable(net, env, w.state.rules, uuid, request) {
      ReplaceMembers(w.state.bindings, Adopted(net, w.state.rules[uuid], uuid, request));
    }
  }

  lemma DeleteKeepsOk(net: Net, w: World, uuid: string)
    requires Ok(w)
    ensures Ok(Next(net, w, Delete(uuid)))
  {
    hide Saved, Without, UniqueUuids, ValuesOf;
    WithoutMembers(w.state.bindings, uuid);
    WithoutUnique(w.state.bindings, uuid);
    SavedMembers(Without(w.state.bindings, uuid));
  }

  lemma StepKeepsOk(net: Net, w: World, step: Step)
    requires Ok(w)
    ensures Ok(Next(net, w, step))
  {
    hide Cycle, Acceptable, ReplaceBinding, Saved, Without, UniqueUuids, ValuesOf;
    match step
    case Reconcile(env, only, reply) => ReconcileKeepsOk(net, w, env, only, reply);
    case Upsert(env, uuid, request) => UpsertKeepsOk(net, w, env, uuid, request);
    case Delete(uuid) => DeleteKeepsOk(net, w, uuid);
    case _ =>
  }

  lemma {:induction false} RunKeepsOk(net: Net, w: World, steps: seq<Step>)
    requires Ok(w)
    ensures Ok(Run(net, w, steps))
  {
    if steps != [] {
      RunKeepsOk(net, w, steps[..|steps| - 1]);
      StepKeepsOk(net, Run(net, w, steps[..|steps| - 1]), steps[|steps| - 1]);
    }
  }

  /** No operator edit is overwritten. After any run of operator edits, adoptions,
      deletions, restarts and cycles against any router, whatever the next cycle writes
      goes to the rule of an enabled, unsuspended binding whose every other field and
      whose controlled value are the ones last recorded; the payload changes that
      controlled field only; and the new value is what the last two visits resolved. */
  lemma WritesAreSafe(net: Net, w: World, steps: seq<Step>, env: Mappings, only: Option<string>, reply: Reply)
    requires Start(w)
    ensures var w' := Run(net, w, steps);
            var outcome := Cycle(net, env, w'.state, only, reply).1;
            var seen := Next(net, w', Reconcile(env, only, reply)).seen;
            outcome.Written? || outcome.WriteFailed? ==>
              exists b, v :: SafeWrite(net, env, w'.state, outcome.uuid, outcome.payload, b, v)
                             && SeenTwice(seen, outcome.uuid, v)
  {
    RunKeepsOk(net, w, steps);
    var w' := Run(net, w, steps);
    CycleWrites(net, env, w'.state, only, reply, w'.seen);
  }

  // --------------------------------------------------------------- suspension

  /** Every stored binding of the rule is this one. */
  ghost predicate OnlyThis(s: State, b: Binding) {
    forall x :: x in s.bindings && x.uuid == b.uuid ==> x == b
  }

  lemma CycleKeepsSuspended(net: Net, env: Mappings, s: State, only: Option<string>, reply: Reply, b: Binding)
    requires UniqueUuids(s.bindings) && |s.bindings| <= MAX_BINDINGS && b.suspended && OnlyThis(s, b)
    ensures OnlyThis(Cycle(net, env, s, only, reply).0, b)
    ensures var outcome := Cycle(net, env, s, only, reply).1; !outcome.Idle? ==> outcome.uuid != b.uuid
  {
    hide Scan, Compatible, Drifted;
    ConsideredStop(net, env, s, only);
    ScanStop(net, env, s.rules, Considered(s, only), s.candidates);
    var stop := Scan(net, env, s.rules, Considered(s, only), s.candidates).1;
    if stop.Some? {
      var x, d := stop.value.binding, stop.value.decision;
      if d.Drift? {
        ReplaceMembers(s.bindings, Suspension(x, d.reason));
      } else if Verified(net, reply.readback, x, d.desired) {
        ReplaceMembers(s.bindings, x.(lastApplied := d.desired,
          fingerprint := Some(Fingerprint(reply.readback.value[x.uuid], x.field)), suspended := false, reason := ""));
      }
    }
  }

  lemma StepKeepsSuspended(net: Net, w: World, step: Step, b: Binding)
    requires Ok(w) && b.suspended && OnlyThis(w.state, b)
    requires !(step.Upsert? && step.uuid == b.uuid)
    ensures OnlyThis(Next(net, w, step).state, b)
  {
    var s := w.state;
    match step
    case Reconcile(env, only, reply) =>
      CycleKeepsSuspended(net, env, s, only, reply, b);
    case Upsert(env, uuid, request) =>
      if Acceptable(net, env, s.rules, uuid, request) {
        ReplaceMembers(s.bindings, Adopted(net, s.rules[uuid], uuid, request));
      }
    case Delete(uuid) =>
      WithoutMembers(s.bindings, uuid);
      WithoutUnique(s.bindings, uuid);
      SavedMembers(Without(s.bindings, uuid));
    case _ =>
  }

  /** A suspended binding stays exactly as it is, whatever else happens, until the
      operator adopts its rule again. */
  lemma {:induction false} SuspendedStays(net: Net, w: World, steps: seq<Step>, b: Binding)
    requires Ok(w) && b.suspended && OnlyThis(w.state, b)
    requires forall i :: 0 <= i < |steps| ==> !(steps[i].Upsert? && steps[i].uuid == b.uuid)
    ensures OnlyThis(Run(net, w, steps).state, b)
  {
    if steps != [] {
      var init := steps[..|steps| - 1];
      SuspendedStays(net, w, init, b);
      RunKeepsOk(net, w, init);
      StepKeepsSuspended(net, Run(net, w, init), steps[|steps| - 1], b);
    }
  }
}
