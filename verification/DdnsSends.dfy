/** What the DDNS store does send: two samples, an edit, a restart (lab_ddns.py). */
module DdnsSends {
  import opened Ddns
  import opened DdnsGate
  import opened Wrappers

  /** The time a sample counts for: its own, else the last one's, else the clock's. */
  function TimeOf(root: Root, raw: Sample, now: nat): nat {
    if raw.detectedAt != 0 then raw.detectedAt
    else if root.address.detectedAt != 0 then root.address.detectedAt else now
  }

  /** At most three minutes old and not from more than half a minute ahead; small numbers
      are no clock times and always count. */
  predicate Recent(detectedAt: nat, now: int) {
    || 0 < detectedAt < 1000000000
    || (detectedAt > 0 && now - 180 <= detectedAt <= now + 30)
  }

  predicate Shows(raw: Sample, t: RecordType, v: string) {
    (t == A ==> raw.public4 && raw.ipv4 == v) && (t == AAAA ==> raw.public6 && raw.ipv6 == v)
  }

  /** Two accepted samples at new times that show the same public address get it sent: an
      update that finds the second one recent plans it, if forced or not held back by a lock
      or backoff for this very address. */
  lemma SeenTwiceIsSentIff(root: Root, raw1: Sample, now1: nat, raw2: Sample, now2: nat,
                           i: nat, t: RecordType, v: string, u: nat, force: bool)
    requires i < |root.records| && t.IsAddress() && t in root.records[i].types
    requires Shows(raw1, t, v) && Shows(raw2, t, v) && v != "" && v != root.records[i].Published(t)
    requires TimeOf(root, raw1, now1) != root.address.detectedAt
    requires TimeOf(AcceptAddress(root, raw1, now1), raw2, now2) != TimeOf(root, raw1, now1)
    ensures var root1 := AcceptAddress(root, raw1, now1);
            var root2 := AcceptAddress(root1, raw2, now2);
            var before := root.records[i].Tracker(t);
            && |root2.records| == |root.records|
            && root2.records[i].id == root.records[i].id && root2.records[i].enabled == root.records[i].enabled
            && root2.records[i].Published(t) == root.records[i].Published(t)
            && var plan := PlanOf(root2.records[i], u, force);
               t in plan
               && (plan[t] == Send(v) <==>
                     Recent(TimeOf(root1, raw2, now2), u)
                     && (force || before.candidate != v || (!before.authError && before.nextRetryAt <= u)))
  {
    hide PlanOf;
    var root1 := AcceptAddress(root, raw1, now1);
    var root2 := AcceptAddress(root1, raw2, now2);
    var s1, s2 := Received(root, raw1, now1), Received(root1, raw2, now2);
    var r, r1, r2 := root.records[i], root1.records[i], root2.records[i];
    assert r1 == Observe(r, s1, true) && r2 == Observe(r1, s2, true);
    FirstSample(r, s1, t, v);
    SecondSample(r1, s2, t, v);
    Planned(r2, t, v, u, force);
  }

  lemma FirstSample(r: Record, s: Sample, t: RecordType, v: string)
    requires t.IsAddress() && t in r.types && Shows(s, t, v) && v != "" && v != r.Published(t)
    ensures var r' := Observe(r, s, true);
            && r'.Tracker(t).candidate == v && r'.Tracker(t).stableCount >= 1
            && (if r.Tracker(t).candidate == v
                then r'.Tracker(t).authError == r.Tracker(t).authError && r'.Tracker(t).nextRetryAt == r.Tracker(t).nextRetryAt
                else !r'.Tracker(t).authError && r'.Tracker(t).nextRetryAt == 0)
            && r'.types == r.types && r'.Published(t) == r.Published(t) && r'.id == r.id && r'.enabled == r.enabled
  {
  }

  lemma SecondSample(r: Record, s: Sample, t: RecordType, v: string)
    requires t.IsAddress() && t in r.types && Shows(s, t, v) && v != "" && v != r.Published(t)
    requires r.Tracker(t).candidate == v && r.Tracker(t).stableCount >= 1
    ensures var r' := Observe(r, s, true);
            && r'.Tracker(t) == r.Tracker(t).(stableCount := 2)
            && r'.types == r.types && r'.Published(t) == r.Published(t) && r'.id == r.id && r'.enabled == r.enabled
            && r'.sample == s
  {
  }

  lemma Planned(r: Record, t: RecordType, v: string, u: nat, force: bool)
    requires t.IsAddress() && t in r.types && Shows(r.sample, t, v) && v != "" && v != r.Published(t)
    requires r.Tracker(t).stableCount == 2
    ensures var plan := PlanOf(r, u, force);
            t in plan
            && (plan[t] == Send(v) <==>
                  Recent(r.sample.detectedAt, u) && (force || (!r.Tracker(t).authError && r.Tracker(t).nextRetryAt <= u)))
  {
  }

  /** ... and published: an update of a known enabled record that plans it and is told it
      went well leaves the record at that address, and nothing to send for it. */
  lemma SentIsPublished(root: Root, i: nat, t: RecordType, v: string, u: int, force: bool, answers: Answers, later: int)
    requires i < |root.records| && IndexOf(root.records, root.records[i].id) == i && root.records[i].enabled
    requires t.IsAddress() && t in PlanOf(root.records[i], u, force) && PlanOf(root.records[i], u, force)[t] == Send(v)
    requires t in answers && answers[t].ok
    ensures var after := RunUpdate(root, root.records[i].id, force, u, answers, later);
            && |after.records| == |root.records| && after.records[i].Published(t) == v
            && forall later': int, force': bool :: var plan := PlanOf(after.records[i], later', force');
                 t in plan && !plan[t].Send?
  {
    hide Finished, FinishType, Decide;
    var r := root.records[i];
    var plan := PlanOf(r, u, force);
    var after := Finished(r, plan, answers, later);
    FinishedTracker(r, plan, answers, later, t);
    FinishTypeAt(r, t, plan[t], answers[t], later);
    SendIsWanted(r, t, u, force);
    forall later': int, force': bool ensures Decide(after, t, later', force').Noop? {
      PublishedIsNoop(after, t, later', force');
    }
  }

  lemma SendIsWanted(r: Record, t: RecordType, u: int, force: bool)
    ensures Decide(r, t, u, force).Send? ==> Decide(r, t, u, force).value == r.Wanted(t)
  {
  }

  lemma PublishedIsNoop(r: Record, t: RecordType, u: int, force: bool)
    requires t.IsAddress() && r.Wanted(t) == r.Published(t)
    ensures Decide(r, t, u, force).Noop?
  {
  }

  /** A CNAME or TXT value goes out if and only if the provider takes its type, it is not
      empty and not published already, and the update is forced or not held back. */
  lemma ValueIsSentIff(r: Record, t: RecordType, u: int, force: bool)
    requires t == CNAME || t == TXT
    ensures var plan := PlanOf(r, u, force); var v := if t in r.values then r.values[t] else "";
            (t in plan && plan[t] == Send(v) <==>
               && t in r.types && t in r.supported && v != ""
               && (t in r.published ==> v != r.published[t])
               && (force || (!r.Tracker(t).authError && r.Tracker(t).nextRetryAt <= u)))
  {
  }

  /** An edit sets the record's types, switch and values as requested, keeps what it does not
      mention, and leaves addresses, trackers and every other record alone. */
  lemma EditStores(root: Root, id: string, e: Edit)
    requires Has(root.records, id)
    ensures var after := EditRecord(root, id, e); var i := IndexOf(root.records, id);
            var r, r' := root.records[i], after.records[i];
            && |after.records| == |root.records| && after.address == root.address
            && (forall k :: 0 <= k < |root.records| && k != i ==> after.records[k] == root.records[k])
            && r'.id == id && r'.types == e.types && r'.supported == e.supported
            && (e.enabled == Some(true) ==> r'.enabled) && (e.enabled == Some(false) ==> !r'.enabled)
            && (e.enabled == None ==> r'.enabled == r.enabled)
            && r'.sample == r.sample && r'.trackers == r.trackers
            && (forall t :: t in e.types ==> EditedValue(r, e, r', t) && r'.Published(t) == r.Published(t))
            && (forall t :: t in r'.values ==> t in e.types)
            && r'.Published(A) == r.Published(A) && r'.Published(AAAA) == r.Published(AAAA)
  {
  }

  /** The type's value is the requested one, or the old one where the request has no values. */
  predicate EditedValue(r: Record, e: Edit, r': Record, t: RecordType) {
    match e.values
    case Some(values) => (t in r'.values <==> t in values) && (t in values ==> Get(r'.values, t) == values[t])
    case None => (t in r'.values <==> t in r.values) && Get(r'.values, t) == Get(r.values, t)
  }

  /** A create adds the record as requested, with the addresses of the current sample, and
      changes nothing else. */
  lemma CreateStores(root: Root, r: Record)
    ensures var after := CreateRecord(root, r); var n := |root.records|;
            && |after.records| == n + 1 && after.records[..n] == root.records && after.address == root.address
            && var r' := after.records[n];
               && r'.id == r.id && r'.enabled == r.enabled && r'.types == r.types && r'.supported == r.supported
               && r'.values == r.values && r'.published == r.published && r'.trackers == r.trackers
               && forall t, v :: Shows(r'.sample, t, v) <==> Shows(root.address, t, v)
  {
  }

  /** A restart keeps every record but for the counts: no address has been seen since. */
  lemma RestartKeeps(disk: Root, i: nat)
    requires i < |disk.records|
    ensures var after := Reloaded(disk);
            && |after.records| == |disk.records| && after.address == disk.address
            && var r, r' := disk.records[i], after.records[i];
               && r' == r.(trackers := r'.trackers)
               && forall t: RecordType ::
                    r'.Tracker(t) == r.Tracker(t).(candidate := "", stableCount := 0)
  {
  }

  /** After a failed or impossible send the next try waits half a minute, two, ten, then
      thirty minutes; after an authentication failure the type is locked. */
  lemma FailureWaits(r: Record, t: RecordType, d: Decision, a: Answer, now: int)
    requires OnLadder(r) && (d.AuthLocked? || d.Invalid? || (d.Send? && !a.ok))
    ensures var tr := FinishType(r, t, d, a, now).Tracker(t); var failed := r.Tracker(t).retryAttempt;
            var locked := d.AuthLocked? || (d.Send? && a.auth);
            && tr.authError == locked
            && (locked ==> tr.nextRetryAt == 0)
            && (!locked ==> tr.nextRetryAt == now + if failed == 0 then 30 else if failed == 1 then 120
                                                    else if failed == 2 then 600 else 1800)
            && tr.retryAttempt == if failed < 4 then failed + 1 else 4
  {
    FinishTypeAt(r, t, d, a, now);
  }

  /** A type that only waits keeps its record as it was; one that is sent, or needs nothing,
      is published as the record has it and starts anew. */
  lemma FinishKeepsOrPublishes(r: Record, t: RecordType, d: Decision, a: Answer, now: int)
    requires d.Unstable? || d.Stale? || d.Backoff? || d.Noop? || (d.Send? && a.ok)
    ensures var r' := FinishType(r, t, d, a, now);
            if d.Unstable? || d.Stale? || d.Backoff? then r' == r
            else
              && r'.Published(t) == r.Wanted(t) && r'.Tracker(t) == Tracker("", 0, 0, 0, false)
              && forall u: RecordType :: u != t ==> r'.Published(u) == r.Published(u) && r'.Tracker(u) == r.Tracker(u)
  {
  }

  /** Deleting removes the records with the id and no other. */
  lemma {:induction false} DeleteRemoves(records: seq<Record>, id: string)
    ensures forall r :: r in Without(records, id) <==> r in records && r.id != id
  {
    if records != [] {
      var init, last := records[..|records| - 1], records[|records| - 1];
      DeleteRemoves(init, id);
      assert records == init + [last];
    }
  }
}
