/** FirewallAutomationService: the imperative service against the cycle's specification. */
module FirewallService {
  import opened Json
  import opened FirewallFollow
  import FirewallSafety
  import opened Wrappers

  class FirewallAutomationService {
    var bindings: seq<Binding>
    var candidates: map<string, Candidate>
    /** The router's own table, which only the router and its operator change. */
    var router: Rules

    constructor (stored: seq<Binding>, router: Rules)
      ensures State() == FirewallFollow.State(stored, map[], router)
    {
      bindings, candidates, this.router := stored, map[], router;
    }

    function State(): FirewallFollow.State
      reads this
    {
      FirewallFollow.State(bindings, candidates, router)
    }

    /** _save of the other bindings and this one. */
    method ReplaceBinding(replacement: Binding)
      modifies this`bindings
      ensures bindings == FirewallFollow.ReplaceBinding(old(bindings), replacement)
    {
      var rows := [];
      for i := 0 to |bindings|
        invariant rows == Without(bindings[..i], replacement.uuid)
      {
        assert bindings[..i + 1][..i] == bindings[..i];
        if bindings[i].uuid != replacement.uuid {
          rows := rows + [bindings[i]];
        }
      }
      assert bindings[..|bindings|] == bindings;
      bindings := Saved(rows + [replacement]);
    }

    method ClearCandidate(uuid: string)
      modifies this`candidates
      ensures candidates == old(candidates) - {uuid}
    {
      candidates := candidates - {uuid};
    }

    /** _suspend of a binding that is not suspended yet. */
    method Suspend(binding: Binding, reason: string)
      modifies this`bindings, this`candidates
      ensures bindings == FirewallFollow.ReplaceBinding(old(bindings), Suspension(binding, reason))
      ensures candidates == old(candidates) - {binding.uuid}
    {
      ReplaceBinding(binding.(suspended := true, reason := reason));
      ClearCandidate(binding.uuid);
    }

    /** _candidate_confirmed */
    method CandidateConfirmed(uuid: string, desired: string) returns (confirmed: bool)
      modifies this`candidates
      ensures confirmed == Confirmed(old(candidates), uuid, desired)
      ensures candidates == Observe(old(candidates), uuid, desired)
    {
      if uuid !in candidates || candidates[uuid].value != desired {
        candidates := candidates[uuid := Candidate(desired, 1)];
        return false;
      }
      var count := candidates[uuid].count + 1;
      if count > STABLE_OBSERVATIONS {
        count := STABLE_OBSERVATIONS;
      }
      candidates := candidates[uuid := Candidate(desired, count)];
      confirmed := count >= STABLE_OBSERVATIONS;
    }

    /** devConfig.update followed by a forced read, and the reaction to what was read. */
    method WriteAndVerify(net: Net, binding: Binding, desired: string, reply: Reply) returns (outcome: Outcome)
      requires binding.uuid in router
      modifies this
      ensures (State(), outcome) == WriteBinding(net, old(State()), binding, desired, reply)
    {
      var payload := (router[binding.uuid] - {"stats"})[binding.field := Str(desired)];
      router := reply.rules;
      if !Verified(net, reply.readback, binding, desired) {
        return WriteFailed(binding.uuid, payload);
      }
      var updated := reply.readback.value[binding.uuid];
      ReplaceBinding(binding.(lastApplied := desired, fingerprint := Some(Fingerprint(updated, binding.field)),
                              suspended := false, reason := ""));
      ClearCandidate(binding.uuid);
      outcome := Written(binding.uuid, payload);
    }

    /** The loop body up to a suspension or a write. */
    method Visit(net: Net, env: Mappings, current: Rules, binding: Binding) returns (d: Decision)
      modifies this`candidates
      ensures d == Decide(net, env, current, binding, old(candidates))
      ensures candidates == AfterVisit(old(candidates), binding.uuid, d)
    {
      hide Compatible, Fingerprint, Resolve, ValueIn, Recorded;
      if !(binding.targetType == "mapping" && binding.enabled && !binding.suspended && binding.uuid in current) {
        return Pass;
      }
      var rule := current[binding.uuid];
      var actual, lastApplied := ValueIn(net, rule, binding), Recorded(net, binding);
      if lastApplied == "" || binding.fingerprint.None? || actual != lastApplied
         || Fingerprint(rule, binding.field) != binding.fingerprint.value
      {
        return Drift(if lastApplied != "" then "manual_change" else "confirmation_required");
      }
      if !Compatible(net, env, rule, binding) {
        return Pass;
      }
      var desired := Resolve(net, env, binding);
      if desired == "" || actual == "" || actual == desired {
        if actual == desired {
          ClearCandidate(binding.uuid);
          return Settled;
        }
        return Pass;
      }
      var confirmed := CandidateConfirmed(binding.uuid, desired);
      d := if confirmed then Write(desired) else Watch(desired);
    }

    /** One cycle. The router's answer to a write is given by `reply`. */
    method Reconcile(net: Net, env: Mappings, only: Option<string>, reply: Reply) returns (outcome: Outcome)
      modifies this
      ensures (State(), outcome) == Cycle(net, env, old(State()), only, reply)
    {
      hide Decide, AfterVisit, FirewallFollow.ReplaceBinding;
      ghost var s := State();
      var current := router;
      var rows := Considered(State(), only);
      for i := 0 to |rows|
        invariant bindings == s.bindings && router == s.rules == current
        invariant Scan(net, env, s.rules, rows, s.candidates) == Scan(net, env, s.rules, rows[i..], candidates)
      {
        assert rows[i..][1..] == rows[i + 1..];
        WritesKnownRule(net, env, current, rows[i], candidates);
        var d := Visit(net, env, current, rows[i]);
        if d.Drift? {
          Suspend(rows[i], d.reason);
          return Suspended(rows[i].uuid);
        }
        if d.Write? {
          outcome := WriteAndVerify(net, rows[i], d.desired, reply);
          return;
        }
      }
      outcome := Idle;
    }

    /** The adoption in upsert: the rule's present value and fingerprint are recorded. */
    method Adopt(net: Net, env: Mappings, uuid: string, request: FirewallSafety.Request) returns (accepted: bool)
      modifies this`bindings
      ensures accepted == FirewallSafety.Acceptable(net, env, router, uuid, request)
      ensures forall seen :: FirewallSafety.World(State(), seen) ==
                FirewallSafety.Next(net, FirewallSafety.World(old(State()), seen), FirewallSafety.Upsert(env, uuid, request))
    {
      accepted := FirewallSafety.Acceptable(net, env, router, uuid, request);
      if accepted {
        ReplaceBinding(FirewallSafety.Adopted(net, router[uuid], uuid, request));
      }
    }

    /** upsert: an adopted rule is reconciled at once, by itself. */
    method Upsert(net: Net, env: Mappings, uuid: string, request: FirewallSafety.Request, reply: Reply)
      returns (accepted: bool, outcome: Outcome)
      modifies this
      ensures accepted == FirewallSafety.Acceptable(net, env, old(router), uuid, request)
      ensures var adopted := FirewallSafety.Next(net, FirewallSafety.World(old(State()), []),
              FirewallSafety.Upsert(env, uuid, request)).state;
              (State(), outcome) == if accepted then Cycle(net, env, adopted, Some(uuid), reply) else (old(State()), Idle)
    {
      hide Cycle, FirewallSafety.Acceptable, FirewallSafety.Next;
      outcome := Idle;
      accepted := Adopt(net, env, uuid, request);
      ghost var w := FirewallSafety.World(State(), []);
      if accepted {
        outcome := Reconcile(net, env, Some(uuid), reply);
      } else {
        Refused(net, env, old(State()), uuid, request);
      }
    }

    method Delete(net: Net, uuid: string) returns (removed: bool)
      modifies this`bindings, this`candidates
      ensures removed <==> exists b :: b in old(bindings) && b.uuid == uuid
      ensures forall seen :: FirewallSafety.World(State(), seen) ==
                FirewallSafety.Next(net, FirewallSafety.World(old(State()), seen), FirewallSafety.Delete(uuid))
    {
      var after := Without(bindings, uuid);
      WithoutMembers(bindings, uuid);
      if forall b :: b in bindings ==> b.uuid != uuid {
        NothingRemoved(bindings, uuid);
      }
      removed := |after| != |bindings|;
      if removed {
        bindings := Saved(after);
        ClearCandidate(uuid);
      }
    }
  }

  lemma Refused(net: Net, env: Mappings, s: FirewallFollow.State, uuid: string, request: FirewallSafety.Request)
    requires !FirewallSafety.Acceptable(net, env, s.rules, uuid, request)
    ensures FirewallSafety.Next(net, FirewallSafety.World(s, []), FirewallSafety.Upsert(env, uuid, request)).state == s
  {
  }

  lemma {:induction false} NothingRemoved(bs: seq<Binding>, uuid: string)
    requires forall b :: b in bs ==> b.uuid != uuid
    ensures Without(bs, uuid) == bs
  {
    if bs != [] {
      NothingRemoved(bs[..|bs| - 1], uuid);
    }
  }

  lemma WritesKnownRule(net: Net, env: Mappings, rules: Rules, b: Binding, candidates: map<string, Candidate>)
    ensures Decide(net, env, rules, b, candidates).Write? ==> b.uuid in rules
  {
  }
}
