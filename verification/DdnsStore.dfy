/** The DDNS store, updated in place (lab_ddns.py LabDdnsStore). */
module DdnsStore {
  import opened Ddns
  import opened DdnsGate
  import opened Wrappers

  /** Everything but the retry time says this type should be sent. */
  predicate Deferred(r: Record, t: RecordType, now: int) {
    && r.enabled && t in r.types && r.sample.Public(t)
    && r.sample.Address(t) != "" && r.sample.Address(t) != r.Published(t)
    && r.Tracker(t).stableCount >= 2 && !r.Tracker(t).authError
    && Fresh(r.sample.detectedAt, now) && r.Tracker(t).nextRetryAt > now
  }

  /** `next` is the earliest retry among the deferred types of the records. */
  ghost predicate IsNextRetry(records: seq<Record>, now: int, next: Option<int>) {
    && (next.Some? <==> exists r, t: RecordType :: r in records && t.IsAddress() && Deferred(r, t, now))
    && (next.Some? ==>
          && (forall r, t: RecordType :: r in records && t.IsAddress() && Deferred(r, t, now) ==>
              next.value <= r.Tracker(t).nextRetryAt)
          && (exists r, t: RecordType ::
              r in records && t.IsAddress() && Deferred(r, t, now) && next.value == r.Tracker(t).nextRetryAt))
  }

  function Earlier(next: Option<int>, r: Record, t: RecordType, now: int): Option<int> {
    if Deferred(r, t, now) && (next.None? || r.Tracker(t).nextRetryAt < next.value) then Some(r.Tracker(t).nextRetryAt) else next
  }

  lemma NextRetryGrows(records: seq<Record>, now: int, next: Option<int>, r: Record)
    requires IsNextRetry(records, now, next)
    ensures IsNextRetry(records + [r], now, Earlier(Earlier(next, r, A, now), r, AAAA, now))
  {
    hide Deferred;
    var all := records + [r];
    var after := Earlier(Earlier(next, r, A, now), r, AAAA, now);
    assert r in all && A.IsAddress() && AAAA.IsAddress();
    assert forall x :: x in all <==> x in records || x == r;
    if next.Some? {
      var x, t: RecordType :| x in records && t.IsAddress() && Deferred(x, t, now) && next.value == x.Tracker(t).nextRetryAt;
      assert x in all;
    }
    if after.Some? {
      if Deferred(r, A, now) && after.value == r.Tracker(A).nextRetryAt {
      } else if Deferred(r, AAAA, now) && after.value == r.Tracker(AAAA).nextRetryAt {
      } else {
        var x, t: RecordType :| x in records && t.IsAddress() && Deferred(x, t, now) && next.value == x.Tracker(t).nextRetryAt;
        assert x in all && after.value == x.Tracker(t).nextRetryAt;
      }
    }
  }

  /** A type is deferred if and only if an update of its enabled record would send it when
      forced, and otherwise only its retry time stands in the way. */
  lemma DeferredIff(r: Record, t: RecordType, now: int)
    requires t.IsAddress()
    ensures Deferred(r, t, now) <==>
              && r.enabled && t in PlanOf(r, now, true) && PlanOf(r, now, true)[t].Send?
              && !r.Tracker(t).authError && !PlanOf(r, now, false)[t].Send?
  {
  }

  lemma DisabledNotDeferred(r: Record, now: int, next: Option<int>)
    ensures !r.enabled ==> Earlier(Earlier(next, r, A, now), r, AAAA, now) == next
  {
  }

  lemma NoneDue(now: int)
    ensures AutoDue([], now) == []
  {
  }

  lemma AutoDueSnoc(records: seq<Record>, r: Record, now: int)
    ensures AutoDue(records + [r], now)
         == if Ready(r, now) && r.id != "" then AutoDue(records, now) + [r.id] else AutoDue(records, now)
  {
    hide Ready;
    assert (records + [r])[..|records|] == records;
  }

  class LabDdnsStore {
    var address: Sample
    var records: seq<Record>
    var disk: Root
    ghost var history: History

    ghost function RootNow(): Root
      reads this
    {
      Root(address, records)
    }

    ghost predicate Valid()
      reads this
    {
      Gate(RootNow(), history, true) && Ladder(RootNow()) && Ladder(disk)
    }

    constructor ()
      ensures Valid() && RootNow() == Root(NO_SAMPLE, []) && history == []
    {
      address, records, disk, history := NO_SAMPLE, [], Root(NO_SAMPLE, []), [];
    }

    method Persist()
      modifies `disk
      ensures disk == RootNow()
    {
      disk := Root(address, records);
    }

    /** A relay sample: every record takes the addresses and, at a new sample time, advances
        or resets the trackers of A and AAAA. */
    method AcceptAddress(raw: Sample, now: nat, persist: bool) returns (autoReady: bool)
      modifies this
      ensures RootNow() == Ddns.AcceptAddress(old(RootNow()), raw, now)
      ensures old(Valid() && Allowed(World(RootNow(), disk, history, []), Accept(raw, now, persist), true)) ==> Valid()
      ensures disk == if persist then RootNow() else old(disk)
      ensures history == if address.detectedAt != old(address).detectedAt then old(history) + [address] else old(history)
      ensures autoReady <==> AnyImpatient(records)
    {
      hide Gate, Ladder, Observe, Impatient, AnyImpatient;
      if Valid() && Allowed(World(RootNow(), disk, history, []), Accept(raw, now, persist), true) {
        AcceptKeeps(RootNow(), history, raw, now, true);
      }
      var s := Received(Root(address, records), raw, now);
      var isNew := s.detectedAt != address.detectedAt;
      if isNew {
        history := history + [s];
      }
      address := s;
      autoReady := ObserveAll(s, isNew);
      assert records == Ddns.AcceptAddress(old(RootNow()), raw, now).records;
      if persist {
        Persist();
      }
    }

    method ObserveAll(s: Sample, isNew: bool) returns (autoReady: bool)
      modifies `records
      ensures |records| == |old(records)| && forall k :: 0 <= k < |records| ==> records[k] == Observe(old(records)[k], s, isNew)
      ensures autoReady <==> AnyImpatient(records)
    {
      hide Observe, Impatient, AnyImpatient;
      ghost var before := records;
      autoReady := false;
      NoneImpatient();
      for i := 0 to |records|
        invariant |records| == |before|
        invariant forall k :: 0 <= k < |records| ==> records[k] == if k < i then Observe(before[k], s, isNew) else before[k]
        invariant autoReady <==> AnyImpatient(records[..i])
      {
        var r := ObserveRecord(records[i], s, isNew);
        ghost var done := records[..i];
        records := records[i := r];
        assert records[..i + 1] == done + [r];
        MoreImpatient(done, r);
        if Impatient(r, A) || Impatient(r, AAAA) {
          autoReady := true;
        }
      }
      assert records[..|records|] == records;
    }

    /** One record under a sample. */
    static method ObserveRecord(record: Record, s: Sample, isNew: bool) returns (r: Record)
      ensures r == Observe(record, s, isNew)
    {
      var trackers := record.trackers;
      trackers := trackers[A := if isNew then Track(record, A, s) else record.Tracker(A)];
      trackers := trackers[AAAA := if isNew then Track(record, AAAA, s) else record.Tracker(AAAA)];
      r := record.(sample := s, trackers := trackers);
    }

    /** Phase one of run_update under the lock: plan each type of the record. */
    method BeginUpdate(id: string, force: bool, now: int) returns (plan: Option<Plan>)
      modifies `disk
      ensures plan == Started(RootNow(), id, force, now)
      ensures disk == if Has(records, id) then RootNow() else old(disk)
      ensures old(Valid()) ==> Valid()
      ensures old(Valid()) && plan.Some? ==> forall t :: t in plan.value && t.IsAddress() && plan.value[t].Send? ==>
              SeenTwice(history, t, plan.value[t].value)
    {
      hide Decide, Gate, Ladder, SeenTwice;
      var i := IndexOf(records, id);
      if i == |records| {
        return None;
      }
      if Valid() {
        LadderOf(this);
      }
      if !records[i].enabled {
        Persist();
        return None;
      }
      var decisions, work := PlanRecord(records[i], now, force);
      Persist();
      if !work {
        return None;
      }
      plan := Some(decisions);
      if Valid() {
        forall t: RecordType | t in decisions && t.IsAddress() && decisions[t].Send?
          ensures SeenTwice(history, t, decisions[t].value)
        {
          PlannedAddressSeenTwice(RootNow(), history, i, now, force, t, true);
        }
      }
    }

    /** Decide each type of a record. */
    static method PlanRecord(r: Record, now: int, force: bool) returns (decisions: Plan, work: bool)
      ensures decisions == PlanOf(r, now, force) && work == HasWork(decisions)
    {
      hide Decide;
      decisions, work := map[], false;
      var types := [A, AAAA, CNAME, TXT];
      for k := 0 to 4
        invariant forall t :: t in decisions <==> t in r.types && t in types[..k]
        invariant forall t :: t in decisions ==> decisions[t] == Decide(r, t, now, force)
        invariant work <==> exists t :: t in decisions && decisions[t].Send?
      {
        var t := types[k];
        ghost var planned := decisions;
        assert t !in planned;
        if t in r.types {
          decisions := decisions[t := Decide(r, t, now, force)];
          work := work || decisions[t].Send?;
          assert decisions[t].Send? ==> t in decisions;
          assert forall u :: u in planned ==> u in decisions && decisions[u] == planned[u];
        }
        assert types[..k + 1] == types[..k] + [t];
      }
      AllTypes(types);
    }

    /** Phase two, after the provider calls: whatever happened in between, this record is
        looked up again and each planned type recorded. */
    method FinishUpdate(id: string, plan: Plan, answers: Answers, now: int)
      modifies `records, `disk
      ensures RootNow() == Ddns.FinishUpdate(old(RootNow()), id, plan, answers, now)
      ensures disk == if Has(old(records), id) then RootNow() else old(disk)
      ensures old(Valid()) ==> Valid()
    {
      hide FinishIn, Gate, Ladder;
      if Valid() {
        FinishKeeps(RootNow(), history, id, plan, answers, now, true);
      }
      var i := IndexOf(records, id);
      if i == |records| {
        return;
      }
      var r := records[i];
      r := FinishIn(r, A, plan, answers, now);
      r := FinishIn(r, AAAA, plan, answers, now);
      r := FinishIn(r, CNAME, plan, answers, now);
      r := FinishIn(r, TXT, plan, answers, now);
      records := records[i := r];
      Persist();
    }

    /** The due records and the earliest retry among the deferred types. */
    method FindDue(now: int) returns (due: seq<string>, nextRetry: Option<int>)
      ensures due == AutoDue(records, now) && IsNextRetry(records, now, nextRetry)
    {
      hide IsNextRetry, ReadyType, Earlier, AutoDue;
      NoneDue(now);
      due, nextRetry := [], None;
      NoRetry(now);
      for i := 0 to |records|
        invariant due == AutoDue(records[..i], now) && IsNextRetry(records[..i], now, nextRetry)
      {
        var r := records[i];
        assert records[..i + 1] == records[..i] + [r];
        NextRetryGrows(records[..i], now, nextRetry, r);
        DisabledNotDeferred(r, now, nextRetry);
        AutoDueSnoc(records[..i], r, now);
        if r.enabled {
          var ready := ReadyType(r, A, now) || ReadyType(r, AAAA, now);
          nextRetry := Earlier(Earlier(nextRetry, r, A, now), r, AAAA, now);
          if ready && r.id != "" {
            due := due + [r.id];
          }
        }
      }
      assert records[..|records|] == records;
    }

    /** run_pending_updates: one update after another, each with its own clock readings and
        whatever answers the provider gives; `clock` is what the clock reads, time by time. */
    method RunPendingUpdates(clock: nat -> nat, provider: (string, Plan) -> Answers)
      returns (ids: seq<string>, ghost outcomes: seq<Outcome>)
      modifies `records, `disk
      ensures old(Valid()) ==> Valid()
      ensures ids == AutoDue(old(records), clock(0)) && |outcomes| == |ids|
      ensures RootNow() == RunDue(old(RootNow()), ids, outcomes)
      ensures Advances(clock) ==> Serial(clock(0), outcomes)
      ensures Advances(clock) && Identified(old(records)) ==>
                forall u :: clock(0) <= u && SoonAfterAll(outcomes, u) ==>
                  (AutoDue(records, u) == [] <==> AllTended(old(records), ids, outcomes, u))
    {
      hide Gate, Ladder, Ready, PlanOf, Finished, SeenTwice, AutoDue, AllTended, Advances, Serial, EndBy, RunDue;
      var next;
      ids, next := FindDue(clock(0));
      outcomes := [];
      var read := 1;
      ghost var start := RootNow();
      RunNothing(start, ids, clock(0));
      for i := 0 to |ids|
        invariant (old(Valid()) ==> Valid()) && |outcomes| == i && read > 0
        invariant Advances(clock) ==> Serial(clock(0), outcomes) && EndBy(outcomes, clock(read - 1))
        invariant RootNow() == RunDue(start, ids[..i], outcomes)
      {
        ghost var before := RootNow();
        ghost var first := read;
        var planned := clock(read);
        ghost var o := Outcome(planned, map[], planned);
        var plan := BeginUpdate(ids[i], false, planned);
        read := read + 1;
        if plan.Some? {
          var answers, finished := provider(ids[i], plan.value), clock(read);
          FinishUpdate(ids[i], plan.value, answers, finished);
          read := read + 1;
          o := Outcome(planned, answers, finished);
        }
        assert RootNow() == RunUpdate(before, ids[i], false, o.planned, o.answers, o.finished);
        if Advances(clock) {
          EndsLater(outcomes, clock, first - 1, first);
        }
        OneMore(start, clock, ids, i, outcomes, o, read);
        outcomes := outcomes + [o];
      }
      assert ids[..|ids|] == ids;
      PassLeft(start, clock, ids, outcomes, records);
    }

    method CreateRecord(r: Record)
      modifies `records, `disk
      ensures old(Valid()) && OnLadder(r) && SafeTracker(r, A) && SafeTracker(r, AAAA) ==> Valid()
      ensures RootNow() == Ddns.CreateRecord(old(RootNow()), r) && disk == RootNow()
    {
      hide Gate, Ladder, RecordOk, OnLadder;
      if Valid() && OnLadder(r) && SafeTracker(r, A) && SafeTracker(r, AAAA) {
        SafeTrackersOk(r, history, true);
        CreateKeeps(RootNow(), history, r, true);
      }
      records := records + [r.(sample := address)];
      Persist();
    }

    method EditRecord(id: string, e: Edit) returns (found: bool)
      modifies `records, `disk
      ensures old(Valid()) ==> Valid()
      ensures found == Has(old(records), id)
      ensures RootNow() == if found then Ddns.EditRecord(old(RootNow()), id, e) else old(RootNow())
    {
      hide Gate, Ladder, Edited;
      var i := IndexOf(records, id);
      if i == |records| {
        return false;
      }
      if Valid() {
        ChangeKeeps(RootNow(), history, id, e, true);
      }
      records := records[i := Edited(records[i], e)];
      Persist();
      found := true;
    }

    /** A restart reads what was last written and starts counting samples afresh. */
    method Load()
      modifies `address, `records, `history
      ensures old(Ladder(disk)) ==> Valid()
      ensures RootNow() == Reloaded(disk) && history == []
    {
      hide Gate, Ladder;
      if Ladder(disk) {
        ReloadOk(disk, true);
      }
      address := disk.address;
      var loaded := [];
      for i := 0 to |disk.records|
        invariant address == disk.address
        invariant loaded == Reloaded(disk).records[..i]
      {
        var r := disk.records[i];
        loaded := loaded + [r.(trackers := map t | t in r.trackers :: Reset(r.trackers[t]))];
      }
      assert loaded == Reloaded(disk).records;
      records := loaded;
      history := [];
    }
  }

  predicate Impatient(r: Record, t: RecordType) {
    r.Tracker(t).stableCount >= 2 && r.sample.Address(t) != "" && r.sample.Address(t) != r.Published(t)
  }

  /** Some address waits for the automatic loop. */
  ghost predicate AnyImpatient(records: seq<Record>) {
    exists r, t: RecordType :: r in records && t.IsAddress() && Impatient(r, t)
  }

  lemma NoneImpatient()
    ensures !AnyImpatient([])
  {
  }

  /** The automatic loop is woken whenever a stored record has an address to send. */
  lemma SendsWake(records: seq<Record>, r: Record, t: RecordType, now: int, force: bool)
    requires r in records && t.IsAddress() && t in PlanOf(r, now, force) && PlanOf(r, now, force)[t].Send?
    ensures AnyImpatient(records)
  {
    assert Impatient(r, t);
  }

  lemma MoreImpatient(records: seq<Record>, r: Record)
    ensures AnyImpatient(records + [r]) <==> AnyImpatient(records) || Impatient(r, A) || Impatient(r, AAAA)
  {
    hide Impatient;
    var all := records + [r];
    assert forall x :: x in all <==> x in records || x == r;
    assert A.IsAddress() && AAAA.IsAddress();
    if AnyImpatient(records) {
      var x, t: RecordType :| x in records && t.IsAddress() && Impatient(x, t);
      assert x in all;
    }
  }

  lemma AllTypes(types: seq<RecordType>)
    requires types == [A, AAAA, CNAME, TXT]
    ensures forall t: RecordType :: t in types[..4]
  {
    assert types[..4] == types;
    forall t: RecordType ensures t in types {
      match t
      case A => assert types[0] == t;
      case AAAA => assert types[1] == t;
      case CNAME => assert types[2] == t;
      case TXT => assert types[3] == t;
    }
  }

  lemma LadderOf(store: LabDdnsStore)
    requires store.Valid()
    ensures Ladder(store.RootNow())
  {
  }

  lemma NoRetry(now: int)
    ensures IsNextRetry([], now, None)
  {
  }

  ghost predicate EndBy(outcomes: seq<Outcome>, end: int) {
    forall k :: 0 <= k < |outcomes| ==> outcomes[k].finished <= end
  }

  lemma RunNothing(root: Root, ids: seq<string>, start: int)
    ensures RunDue(root, ids[..0], []) == root && Serial(start, []) && EndBy([], start)
  {
  }

  lemma {:induction false} RunDueSnoc(root: Root, ids: seq<string>, id: string, outcomes: seq<Outcome>, o: Outcome)
    requires |outcomes| == |ids|
    ensures RunDue(root, ids + [id], outcomes + [o])
         == RunUpdate(RunDue(root, ids, outcomes), id, false, o.planned, o.answers, o.finished)
    decreases |ids|
  {
    hide RunUpdate;
    if ids == [] {
      assert ([id])[1..] == [] && ([o])[1..] == [];
      assert [] + [id] == [id] && [] + [o] == [o];
    } else {
      var first := outcomes[0];
      assert (ids + [id])[1..] == ids[1..] + [id] && (outcomes + [o])[1..] == outcomes[1..] + [o];
      RunDueSnoc(RunUpdate(root, ids[0], false, first.planned, first.answers, first.finished), ids[1..], id, outcomes[1..], o);
    }
  }

  /** One update more: its clock readings are the last of the `read` ones taken so far. */
  lemma OneMore(root: Root, clock: nat -> nat, ids: seq<string>, i: nat, outcomes: seq<Outcome>, o: Outcome, read: nat)
    requires |outcomes| == i < |ids| && read >= 2
    requires (o.planned == o.finished == clock(read - 1))
             || (read >= 3 && o.planned == clock(read - 2) && o.finished == clock(read - 1))
    requires Advances(clock) ==> Serial(clock(0), outcomes) && EndBy(outcomes, o.planned)
    ensures RunDue(root, ids[..i + 1], outcomes + [o])
         == RunUpdate(RunDue(root, ids[..i], outcomes), ids[i], false, o.planned, o.answers, o.finished)
    ensures Advances(clock) ==> Serial(clock(0), outcomes + [o]) && EndBy(outcomes + [o], clock(read - 1))
  {
    hide RunUpdate, RunDue;
    RunDueSnoc(root, ids[..i], ids[i], outcomes, o);
    assert ids[..i + 1] == ids[..i] + [ids[i]];
  }

  lemma EndsLater(outcomes: seq<Outcome>, clock: nat -> nat, i: nat, j: nat)
    requires i <= j && Advances(clock) && EndBy(outcomes, clock(i))
    ensures EndBy(outcomes, clock(j))
  {
    assert clock(i) <= clock(j);
  }

  /** The clock does not run backwards. */
  ghost predicate Advances(clock: nat -> nat) {
    forall i, j :: i <= j ==> clock(i) <= clock(j)
  }

  lemma PassLeft(start: Root, clock: nat -> nat, ids: seq<string>, outcomes: seq<Outcome>, after: seq<Record>)
    requires ids == AutoDue(start.records, clock(0)) && |outcomes| == |ids|
    requires after == RunDue(start, ids, outcomes).records && (Advances(clock) ==> Serial(clock(0), outcomes))
    ensures Advances(clock) && Identified(start.records) ==>
              forall u :: clock(0) <= u && SoonAfterAll(outcomes, u) ==>
                (AutoDue(after, u) == [] <==> AllTended(start.records, ids, outcomes, u))
  {
    hide AutoDue, AllTended, RunDue;
    if Advances(clock) && Identified(start.records) {
      forall u | clock(0) <= u && SoonAfterAll(outcomes, u)
        ensures AutoDue(after, u) == [] <==> AllTended(start.records, ids, outcomes, u)
      {
        PassLeavesNothingDueIff(start, clock(0), outcomes, u);
      }
    }
  }
}
