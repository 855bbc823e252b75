/** The two-sample gate: what is known about every address handed to a provider (lab_ddns.py). */
module DdnsGate {
  import opened Ddns
  import opened Wrappers

  /** Samples taken at a new time since the process started, oldest first. */
  type History = seq<Sample>

  predicate SeenLast(h: History, t: RecordType, v: string) {
    h != [] && h[|h| - 1].Public(t) && h[|h| - 1].Address(t) == v
  }

  /** The last two distinct samples both show v as a public address. */
  predicate SeenTwice(h: History, t: RecordType, v: string) {
    |h| >= 2 && SeenLast(h, t, v) && SeenLast(h[..|h| - 1], t, v) && h[|h| - 1].detectedAt != h[|h| - 2].detectedAt
  }

  /** A candidate no sample is counted for: it is empty or already published. */
  predicate Harmless(candidate: string, published: string) {
    candidate == "" || candidate == published
  }

  /** The count is backed by samples; `supplied` admits a single harmless count nobody saw. */
  predicate TrackerOk(tr: Tracker, published: string, h: History, t: RecordType, supplied: bool) {
    && tr.stableCount <= 2
    && (tr.stableCount == 1 ==>
          (tr.candidate != "" && SeenLast(h, t, tr.candidate)) || (supplied && Harmless(tr.candidate, published)))
    && (tr.stableCount == 2 ==> tr.candidate != "" && SeenTwice(h, t, tr.candidate))
  }

  predicate AddressOk(r: Record, h: History, t: RecordType, supplied: bool) {
    TrackerOk(r.Tracker(t), r.Published(t), h, t, supplied)
  }

  predicate RecordOk(r: Record, h: History, supplied: bool) {
    AddressOk(r, h, A, supplied) && AddressOk(r, h, AAAA, supplied)
  }

  predicate OnLadder(r: Record) {
    forall t: RecordType :: r.Tracker(t).retryAttempt <= |RETRY_DELAYS|
  }

  ghost predicate Gate(root: Root, h: History, supplied: bool) {
    && (h != [] ==> h[|h| - 1] == root.address)
    && forall r :: r in root.records ==> r.sample == root.address && RecordOk(r, h, supplied)
  }

  ghost predicate Ladder(root: Root) {
    forall r :: r in root.records ==> r.sample == root.address && OnLadder(r)
  }

  // -------------------------------------------------------------------- steps

  datatype Update = Update(id: string, plan: Plan)

  datatype World = World(root: Root, disk: Root, history: History, updates: seq<Update>)

  datatype Step =
    | Accept(raw: Sample, now: nat, persist: bool)
    | Create(record: Record)
    | Change(id: string, edit: Edit)
    | Delete(id: string)
    | Begin(id: string, force: bool, now: nat)
    | Finish(k: nat, answers: Answers, now: nat)
    | Reload

  function Save(w: World): World {
    w.(disk := w.root)
  }

  /** The plan of a started update, None when there is nothing to send. */
  function Started(root: Root, id: string, force: bool, now: int): Option<Plan> {
    var i := IndexOf(root.records, id);
    if i < |root.records| && root.records[i].enabled && HasWork(PlanOf(root.records[i], now, force))
    then Some(PlanOf(root.records[i], now, force)) else None
  }

  function Next(w: World, step: Step): World {
    match step
    case Accept(raw, now, persist) =>
      var s := Received(w.root, raw, now);
      var w' := w.(root := AcceptAddress(w.root, raw, now),
                   history := if s.detectedAt != w.root.address.detectedAt then w.history + [s] else w.history);
      if persist then Save(w') else w'
    case Create(record) => Save(w.(root := CreateRecord(w.root, record)))
    case Change(id, edit) => if Has(w.root.records, id) then Save(w.(root := EditRecord(w.root, id, edit))) else w
    case Delete(id) => if Has(w.root.records, id) then Save(w.(root := w.root.(records := Without(w.root.records, id)))) else w
    case Begin(id, force, now) =>
      var plan := Started(w.root, id, force, now);
      if plan.Some? then Save(w.(updates := w.updates + [Update(id, plan.value)]))
      else if Has(w.root.records, id) then Save(w) else w
    case Finish(k, answers, now) =>
      if k < |w.updates| then
        var u := w.updates[k];
        var w' := w.(root := FinishUpdate(w.root, u.id, u.plan, answers, now), updates := w.updates[..k] + w.updates[k + 1..]);
        if Has(w.root.records, u.id) then Save(w') else w'
      else w
    case Reload => World(Reloaded(w.disk), w.disk, [], [])
  }

  /** What a create request may say about a tracker without ever letting an unseen address out. */
  predicate SafeTracker(r: Record, t: RecordType) {
    var tr := r.Tracker(t);
    tr.stableCount == 0 || (tr.stableCount == 1 && Harmless(tr.candidate, r.Published(t)))
  }

  /** A sample time stands for one sample, and new records bring no stability of their own,
      or, where `supplied`, none that matters. */
  ghost predicate Allowed(w: World, step: Step, supplied: bool) {
    match step
    case Accept(raw, now, _) =>
      now > 0 && var s := Received(w.root, raw, now); s.detectedAt == w.root.address.detectedAt ==> s == w.root.address
    case Create(r) =>
      OnLadder(r) && if supplied then SafeTracker(r, A) && SafeTracker(r, AAAA)
                     else r.Tracker(A).stableCount == 0 && r.Tracker(AAAA).stableCount == 0
    case _ => true
  }

  function Run(w: World, steps: seq<Step>): World {
    if steps == [] then w else Next(Run(w, steps[..|steps| - 1]), steps[|steps| - 1])
  }

  ghost predicate AllowedRun(w: World, steps: seq<Step>, supplied: bool) {
    forall i :: 0 <= i < |steps| ==> Allowed(Run(w, steps[..i]), steps[i], supplied)
  }

  const NEW_STORE := World(Root(NO_SAMPLE, []), Root(NO_SAMPLE, []), [], [])

  ghost predicate WorldOk(w: World, supplied: bool) {
    Gate(w.root, w.history, supplied) && Ladder(w.root) && Ladder(w.disk)
  }

  // ------------------------------------------------------------ samples and trackers

  lemma TrackOk(r: Record, t: RecordType, h: History, s: Sample, supplied: bool)
    requires t.IsAddress() && AddressOk(r, h, t, supplied)
    requires h != [] ==> s.detectedAt != h[|h| - 1].detectedAt
    ensures TrackerOk(Track(r, t, s), r.Published(t), h + [s], t, supplied)
  {
    var h' := h + [s];
    assert h'[..|h'| - 1] == h;
  }

  lemma ObserveOk(r: Record, h: History, s: Sample, isNew: bool, supplied: bool)
    requires RecordOk(r, h, supplied)
    requires isNew && h != [] ==> s.detectedAt != h[|h| - 1].detectedAt
    ensures RecordOk(Observe(r, s, isNew), if isNew then h + [s] else h, supplied)
    ensures OnLadder(r) ==> OnLadder(Observe(r, s, isNew))
  {
    hide TrackerOk;
    if isNew {
      TrackOk(r, A, h, s, supplied);
      TrackOk(r, AAAA, h, s, supplied);
    }
    var r' := Observe(r, s, isNew);
    assert r'.Tracker(A) == if isNew then Track(r, A, s) else r.Tracker(A);
    assert r'.Tracker(AAAA) == if isNew then Track(r, AAAA, s) else r.Tracker(AAAA);
    assert forall t: RecordType :: !t.IsAddress() ==> r'.Tracker(t) == r.Tracker(t);
    assert forall t: RecordType :: r'.Published(t) == r.Published(t);
  }

  lemma AcceptKeeps(root: Root, h: History, raw: Sample, now: nat, supplied: bool)
    requires Gate(root, h, supplied) && Ladder(root)
    requires var s := Received(root, raw, now); s.detectedAt == root.address.detectedAt ==> s == root.address
    ensures var s := Received(root, raw, now); var isNew := s.detectedAt != root.address.detectedAt;
            var after := AcceptAddress(root, raw, now);
            Gate(after, if isNew then h + [s] else h, supplied) && Ladder(after)
  {
    hide RecordOk, OnLadder, Observe;
    var s := Received(root, raw, now);
    var isNew := s.detectedAt != root.address.detectedAt;
    var after := AcceptAddress(root, raw, now);
    forall r | r in after.records ensures r.sample == s && RecordOk(r, if isNew then h + [s] else h, supplied) && OnLadder(r) {
      var i :| 0 <= i < |after.records| && after.records[i] == r;
      assert root.records[i] in root.records;
      ObserveOk(root.records[i], h, s, isNew, supplied);
      ObserveSample(root.records[i], s, isNew);
    }
  }

  lemma ObserveSample(r: Record, s: Sample, isNew: bool)
    ensures Observe(r, s, isNew).sample == s
  {
  }

  /** A candidate counted twice is the detected address, and public; where no request
      supplies trackers, so is one counted once. */
  lemma CandidateIsDetected(root: Root, h: History, i: nat, supplied: bool)
    requires Gate(root, h, supplied) && i < |root.records|
    ensures forall t: RecordType ::
              t.IsAddress() && root.records[i].Tracker(t).stableCount >= (if supplied then 2 else 1) ==>
                root.records[i].Tracker(t).candidate == root.records[i].Wanted(t) == root.address.Address(t)
                && root.address.Public(t)
  {
    var r := root.records[i];
    assert r in root.records;
  }

  // --------------------------------------------------------------- other steps

  lemma ReplacedKeeps(root: Root, h: History, i: nat, r: Record, supplied: bool)
    requires Gate(root, h, supplied) && Ladder(root) && i < |root.records|
    requires r.sample == root.address && RecordOk(r, h, supplied) && OnLadder(r)
    ensures Gate(root.(records := root.records[i := r]), h, supplied) && Ladder(root.(records := root.records[i := r]))
  {
    hide RecordOk, OnLadder;
    forall x | x in root.records[i := r] ensures x == r || x in root.records {
      var k :| 0 <= k < |root.records| && root.records[i := r][k] == x;
    }
  }

  lemma {:induction false} WithoutKeeps(records: seq<Record>, id: string)
    ensures forall r :: r in Without(records, id) ==> r in records && r.id != id
  {
    if records != [] {
      WithoutKeeps(records[..|records| - 1], id);
    }
  }

  lemma FinishedOk(r: Record, plan: Plan, answers: Answers, now: int, h: History, supplied: bool)
    requires RecordOk(r, h, supplied) && OnLadder(r)
    ensures var r' := Finished(r, plan, answers, now);
            RecordOk(r', h, supplied) && OnLadder(r') && r'.sample == r.sample
  {
    hide Finished, SeenLast, SeenTwice, FinishIn;
    var r' := Finished(r, plan, answers, now);
    forall t: RecordType
      ensures r'.Tracker(t).retryAttempt <= |RETRY_DELAYS| && (AddressOk(r, h, t, supplied) ==> AddressOk(r', h, t, supplied))
    {
      FinishedTracker(r, plan, answers, now, t);
      FinishInOk(r, t, plan, answers, now, h, supplied);
    }
    FinishedTracker(r, plan, answers, now, A);
  }

  lemma FinishInOk(r: Record, t: RecordType, plan: Plan, answers: Answers, now: int, h: History, supplied: bool)
    requires OnLadder(r)
    ensures var r' := FinishIn(r, t, plan, answers, now);
            r'.Tracker(t).retryAttempt <= |RETRY_DELAYS| && (AddressOk(r, h, t, supplied) ==> AddressOk(r', h, t, supplied))
  {
    if t in plan {
      FinishTypeAt(r, t, plan[t], AnswerFor(answers, t), now);
    }
  }

  lemma FinishKeeps(root: Root, h: History, id: string, plan: Plan, answers: Answers, now: int, supplied: bool)
    requires Gate(root, h, supplied) && Ladder(root)
    ensures Gate(FinishUpdate(root, id, plan, answers, now), h, supplied) && Ladder(FinishUpdate(root, id, plan, answers, now))
  {
    hide RecordOk, OnLadder, Finished;
    var i := IndexOf(root.records, id);
    if i < |root.records| {
      assert root.records[i] in root.records;
      FinishedOk(root.records[i], plan, answers, now, h, supplied);
      ReplacedKeeps(root, h, i, Finished(root.records[i], plan, answers, now), supplied);
    }
  }

  lemma ReloadOk(disk: Root, supplied: bool)
    requires Ladder(disk)
    ensures Gate(Reloaded(disk), [], supplied) && Ladder(Reloaded(disk))
  {
    var root := Reloaded(disk);
    forall r | r in root.records ensures r.sample == root.address && RecordOk(r, [], supplied) && OnLadder(r) {
      var i :| 0 <= i < |root.records| && root.records[i] == r;
      ResetOk(disk, i, supplied);
    }
  }

  lemma ResetOk(disk: Root, i: nat, supplied: bool)
    requires Ladder(disk) && i < |disk.records|
    ensures var r := Reloaded(disk).records[i]; r.sample == disk.address && RecordOk(r, [], supplied) && OnLadder(r)
  {
    assert disk.records[i] in disk.records;
    var r, q := Reloaded(disk).records[i], disk.records[i];
    forall t: RecordType ensures r.Tracker(t).stableCount == 0 && r.Tracker(t).retryAttempt == q.Tracker(t).retryAttempt {
    }
  }

  lemma CreateKeeps(root: Root, h: History, r: Record, supplied: bool)
    requires Gate(root, h, supplied) && Ladder(root) && RecordOk(r, h, supplied) && OnLadder(r)
    ensures Gate(CreateRecord(root, r), h, supplied) && Ladder(CreateRecord(root, r))
  {
    hide TrackerOk;
    var added := r.(sample := root.address);
    assert forall x :: x in CreateRecord(root, r).records <==> x in root.records || x == added;
    assert forall t: RecordType :: added.Tracker(t) == r.Tracker(t) && added.Published(t) == r.Published(t);
  }

  lemma ChangeKeeps(root: Root, h: History, id: string, e: Edit, supplied: bool)
    requires Gate(root, h, supplied) && Ladder(root) && Has(root.records, id)
    ensures Gate(EditRecord(root, id, e), h, supplied) && Ladder(EditRecord(root, id, e))
  {
    hide TrackerOk;
    var i := IndexOf(root.records, id);
    var r := root.records[i];
    assert r in root.records;
    EditedAddresses(r, e);
    ReplacedKeeps(root, h, i, Edited(r, e), supplied);
  }

  lemma EditedAddresses(r: Record, e: Edit)
    ensures var r' := Edited(r, e);
            forall t: RecordType ::
              r'.Tracker(t) == r.Tracker(t) && (t.IsAddress() ==> r'.Published(t) == r.Published(t))
  {
  }

  /** Every step keeps the gate: samples, edits, both phases of updates in any interleaving, restarts. */
  lemma NextKeepsWorld(w: World, step: Step, supplied: bool)
    requires WorldOk(w, supplied) && Allowed(w, step, supplied)
    ensures WorldOk(Next(w, step), supplied)
  {
    hide RecordOk, OnLadder, AcceptAddress, EditRecord, CreateRecord, FinishUpdate, Reloaded, Without, Started;
    match step
    case Accept(raw, now, persist) => AcceptKeeps(w.root, w.history, raw, now, supplied);
    case Create(r) =>
      SafeTrackersOk(r, w.history, supplied);
      CreateKeeps(w.root, w.history, r, supplied);
    case Change(id, edit) =>
      if Has(w.root.records, id) {
        ChangeKeeps(w.root, w.history, id, edit, supplied);
      }
    case Delete(id) => WithoutKeeps(w.root.records, id);
    case Begin(id, force, now) =>
    case Finish(k, answers, now) =>
      if k < |w.updates| {
        FinishKeeps(w.root, w.history, w.updates[k].id, w.updates[k].plan, answers, now, supplied);
      }
    case Reload => ReloadOk(w.disk, supplied);
  }

  lemma SafeTrackersOk(r: Record, h: History, supplied: bool)
    requires if supplied then SafeTracker(r, A) && SafeTracker(r, AAAA)
             else r.Tracker(A).stableCount == 0 && r.Tracker(AAAA).stableCount == 0
    ensures RecordOk(r, h, supplied)
  {
  }

  lemma NewStoreOk(supplied: bool)
    ensures WorldOk(NEW_STORE, supplied)
  {
  }

  lemma {:induction false} RunKeepsWorld(w: World, steps: seq<Step>, supplied: bool)
    requires WorldOk(w, supplied) && AllowedRun(w, steps, supplied)
    ensures WorldOk(Run(w, steps), supplied)
  {
    hide Next, Allowed, WorldOk;
    if steps != [] {
      var init := steps[..|steps| - 1];
      forall i | 0 <= i < |init| ensures Allowed(Run(w, init[..i]), init[i], supplied) {
        assert init[..i] == steps[..i];
      }
      RunKeepsWorld(w, init, supplied);
      NextKeepsWorld(Run(w, init), steps[|steps| - 1], supplied);
    }
  }

  // ---------------------------------------------------------- what providers are sent

  /** An address planned for a provider is the current public one, seen in the last two
      distinct samples, forced or not. */
  lemma PlannedAddressSeenTwice(root: Root, h: History, i: nat, now: int, force: bool, t: RecordType, supplied: bool)
    requires Gate(root, h, supplied) && i < |root.records| && t.IsAddress()
    requires var plan := PlanOf(root.records[i], now, force); t in plan && plan[t].Send?
    ensures SeenTwice(h, t, PlanOf(root.records[i], now, force)[t].value)
  {
    hide SeenTwice;
    CandidateIsDetected(root, h, i, supplied);
    assert root.records[i] in root.records;
    assert AddressOk(root.records[i], h, t, supplied);
  }

  /** Over every run from an empty store, each update that starts sends only such addresses. */
  lemma EveryUpdateSendsSeenTwice(steps: seq<Step>, k: nat, supplied: bool)
    requires AllowedRun(NEW_STORE, steps, supplied) && k < |steps| && steps[k].Begin?
    ensures var w := Run(NEW_STORE, steps[..k]);
            var plan := Started(w.root, steps[k].id, steps[k].force, steps[k].now);
            plan.Some? ==> forall t :: t in plan.value && t.IsAddress() && plan.value[t].Send? ==>
                SeenTwice(w.history, t, plan.value[t].value)
  {
    hide Next, Allowed, PlanOf, SeenTwice, Gate, Ladder;
    var init := steps[..k];
    forall i | 0 <= i < |init| ensures Allowed(Run(NEW_STORE, init[..i]), init[i], supplied) {
      assert init[..i] == steps[..i];
    }
    NewStoreOk(supplied);
    RunKeepsWorld(NEW_STORE, init, supplied);
    var w, b := Run(NEW_STORE, init), steps[k];
    var plan := Started(w.root, b.id, b.force, b.now);
    if plan.Some? {
      var i := IndexOf(w.root.records, b.id);
      forall t: RecordType | t in plan.value && t.IsAddress() && plan.value[t].Send?
        ensures SeenTwice(w.history, t, plan.value[t].value)
      {
        PlannedAddressSeenTwice(w.root, w.history, i, b.now, b.force, t, supplied);
      }
    }
  }

  // ------------------------------------------------------ when the gate is walked around

  /** At some clock, forced or not, an update would send the type's address. */
  predicate Sendable(r: Record, t: RecordType) {
    && t in r.types && r.Tracker(t).stableCount >= 2 && r.sample.detectedAt > 0
    && r.sample.Public(t) && r.Wanted(t) != "" && r.Wanted(t) != r.Published(t)
  }

  /** Whatever an update of the record sends for the type has been seen twice. */
  ghost predicate SendsSeen(r: Record, h: History, t: RecordType) {
    forall now: int, force: bool :: t in PlanOf(r, now, force) && PlanOf(r, now, force)[t].Send? ==>
      SeenTwice(h, t, PlanOf(r, now, force)[t].value)
  }

  lemma SendsSeenIff(r: Record, h: History, t: RecordType)
    requires t.IsAddress()
    ensures SendsSeen(r, h, t) <==> (Sendable(r, t) ==> SeenTwice(h, t, r.Wanted(t)))
  {
    hide SeenTwice;
    if Sendable(r, t) {
      assert PlanOf(r, r.sample.detectedAt, true)[t] == Send(r.Wanted(t));
    }
  }

  /** The premise on sample times, exactly: when a time repeats, everything an update would
      send has still been seen twice if and only if the repeat shows, wherever it can be
      sent, the address it showed before. */
  lemma RepeatedTimeIff(root: Root, h: History, raw: Sample, now: nat, i: nat, t: RecordType, supplied: bool)
    requires Gate(root, h, supplied) && i < |root.records| && t.IsAddress()
    requires Received(root, raw, now).detectedAt == root.address.detectedAt
    ensures var s, r := Received(root, raw, now), root.records[i];
            SendsSeen(AcceptAddress(root, raw, now).records[i], h, t)
            <==> ((t in r.types && r.Tracker(t).stableCount >= 2 && s.detectedAt > 0
                   && s.Public(t) && s.Address(t) != "" && s.Address(t) != r.Published(t)) ==>
                       s.Address(t) == root.address.Address(t))
  {
    hide SendsSeen, Gate;
    var s, r, r' := Received(root, raw, now), root.records[i], AcceptAddress(root, raw, now).records[i];
    RepeatedRecord(r, s, t);
    assert r' == Observe(r, s, false);
    SendsSeenIff(r', h, t);
    CandidateIsDetected(root, h, i, supplied);
    if r.Tracker(t).stableCount >= 2 {
      TwiceIsCandidate(root, h, i, t, supplied);
    }
  }

  lemma RepeatedRecord(r: Record, s: Sample, t: RecordType)
    ensures var r' := Observe(r, s, false);
            r'.Tracker(t) == r.Tracker(t) && r'.Published(t) == r.Published(t) && r'.types == r.types && r'.sample == s
            && r'.id == r.id && r'.enabled == r.enabled
  {
  }

  lemma TwiceIsCandidate(root: Root, h: History, i: nat, t: RecordType, supplied: bool)
    requires Gate(root, h, supplied) && i < |root.records| && t.IsAddress() && root.records[i].Tracker(t).stableCount >= 2
    ensures forall v: string :: SeenTwice(h, t, v) <==> v == root.records[i].Tracker(t).candidate
  {
    assert root.records[i] in root.records;
    assert AddressOk(root.records[i], h, t, supplied);
  }

  /** The run: X at one time, X at the next, Y at that time again, and an update sends Y. */
  lemma RepeatedTimeSends(r: Record, x1: Sample, x2: Sample, y: Sample, now: nat)
    requires r.enabled && r.types == {A} && r.published == map[] && r.trackers == map[]
    requires x1.public4 && x2.public4 && y.public4 && x1.ipv4 == x2.ipv4 != "" && y.ipv4 != "" && y.ipv4 != x1.ipv4
    requires 0 < x1.detectedAt && x1.detectedAt != x2.detectedAt && y.detectedAt == x2.detectedAt && Fresh(x2.detectedAt, now)
    ensures var w := Run(NEW_STORE, [Create(r), Accept(x1, now, true), Accept(x2, now, true), Accept(y, now, true)]);
            && Started(w.root, r.id, false, now) == Some(map[A := Send(y.ipv4)])
            && !SeenLast(w.history, A, y.ipv4)
  {
    hide Received, Observe, PlanOf, HasWork, Run;
    RunFour(NEW_STORE, Create(r), Accept(x1, now, true), Accept(x2, now, true), Accept(y, now, true));
    var w1, r1 := Next(NEW_STORE, Create(r)), r.(sample := NO_SAMPLE);
    assert w1.root.records == [r1];
    var w2 := AcceptOne(w1, x1, now);
    var w3 := AcceptOne(w2, x2, now);
    var w4 := AcceptOne(w3, y, now);
    var s1, s2, s3 := Received(w1.root, x1, now), Received(w2.root, x2, now), Received(w3.root, y, now);
    ThreeSamples(r1, s1, s2, s3, now);
    assert w4.root.records == [Observe(Observe(Observe(r1, s1, true), s2, true), s3, false)];
    assert w4.history[|w4.history| - 1] == s2;
  }

  lemma RunFour(w: World, a: Step, b: Step, c: Step, d: Step)
    ensures Run(w, [a, b, c, d]) == Next(Next(Next(Next(w, a), b), c), d)
  {
    hide Next;
    assert [a, b, c, d][..3] == [a, b, c] && [a, b, c][..2] == [a, b] && [a, b][..1] == [a] && [a][..0] == [];
    assert Run(w, [a]) == Next(w, a);
    assert Run(w, [a, b]) == Next(Next(w, a), b);
  }

  lemma ThreeSamples(r: Record, s1: Sample, s2: Sample, s3: Sample, now: int)
    requires r.types == {A} && r.Published(A) == "" && r.Tracker(A) == NO_TRACK && now >= 0
    requires s1.public4 && s2.public4 && s3.public4 && s1.ipv4 == s2.ipv4 != "" && s3.ipv4 != "" && Fresh(s3.detectedAt, now)
    ensures var after := Observe(Observe(Observe(r, s1, true), s2, true), s3, false);
            && PlanOf(after, now, false) == map[A := Send(s3.ipv4)] && HasWork(PlanOf(after, now, false))
            && after.id == r.id && after.enabled == r.enabled
  {
    hide Observe, PlanOf, HasWork, Fresh;
    CountsOnce(r, s1);
    CountsTwice(Observe(r, s1, true), s2);
    var r2 := Observe(Observe(r, s1, true), s2, true);
    RepeatedRecord(r2, s3, A);
    SendsIt(Observe(r2, s3, false), s3.ipv4, now);
  }

  /** One sample with an address and a time, accepted into a store of one record. */
  lemma AcceptOne(w: World, raw: Sample, now: nat) returns (w': World)
    requires |w.root.records| == 1 && raw.detectedAt > 0 && raw.public4 && raw.ipv4 != ""
    ensures w' == Next(w, Accept(raw, now, true))
    ensures var s := Received(w.root, raw, now); var isNew := s.detectedAt != w.root.address.detectedAt;
            && s.ipv4 == raw.ipv4 && s.public4 && s.detectedAt == raw.detectedAt && w'.root.address == s
            && w'.root.records == [Observe(w.root.records[0], s, isNew)]
            && w'.history == if isNew then w.history + [s] else w.history
  {
    hide Observe;
    w' := Next(w, Accept(raw, now, true));
  }

  lemma CountsOnce(r: Record, s: Sample)
    requires A in r.types && r.Published(A) == "" && s.public4 && s.ipv4 != "" && r.Tracker(A) == NO_TRACK
    ensures var r' := Observe(r, s, true);
            && r'.Tracker(A) == Tracker(s.ipv4, 1, 0, 0, false) && r'.Published(A) == ""
            && r'.types == r.types && r'.id == r.id && r'.enabled == r.enabled
  {
  }

  lemma CountsTwice(r: Record, s: Sample)
    requires A in r.types && r.Published(A) == "" && s.public4 && s.ipv4 != "" && r.Tracker(A) == Tracker(s.ipv4, 1, 0, 0, false)
    ensures var r' := Observe(r, s, true);
            && r'.Tracker(A) == Tracker(s.ipv4, 2, 0, 0, false) && r'.Published(A) == ""
            && r'.types == r.types && r'.id == r.id && r'.enabled == r.enabled
  {
  }

  lemma SendsIt(r: Record, v: string, now: int)
    requires r.types == {A} && r.Published(A) == "" && r.sample.public4 && r.sample.ipv4 == v != ""
             && Fresh(r.sample.detectedAt, now)
    requires r.Tracker(A).stableCount == 2 && !r.Tracker(A).authError && r.Tracker(A).nextRetryAt <= now
    ensures PlanOf(r, now, false) == map[A := Send(v)] && HasWork(PlanOf(r, now, false))
  {
    assert PlanOf(r, now, false)[A] == Send(v);
  }

  // --------------------------------------------------------- supplied trackers

  /** Right after a create everything the new record would send has been seen twice if and
      only if the supplied count, for a type it can send, is backed by the samples. */
  lemma CreateSendsIff(root: Root, h: History, r: Record, t: RecordType)
    requires t.IsAddress()
    ensures var a, created := root.address, CreateRecord(root, r).records[|root.records|];
            SendsSeen(created, h, t)
            <==> ((t in r.types && r.Tracker(t).stableCount >= 2 && a.detectedAt > 0
                   && a.Public(t) && a.Address(t) != "" && a.Address(t) != r.Published(t)) ==> SeenTwice(h, t, a.Address(t)))
  {
    hide SendsSeen, SeenTwice;
    SendsSeenIff(CreateRecord(root, r).records[|root.records|], h, t);
  }

  ghost predicate AllSendsSeen(w: World) {
    forall i: nat, t: RecordType :: i < |w.root.records| && t.IsAddress() ==> SendsSeen(w.root.records[i], w.history, t)
  }

  /** Whatever the store holds and whatever follows, creating the record lets nothing unseen out. */
  ghost predicate SafeForever(r: Record) {
    forall w: World, steps: seq<Step> ::
      WorldOk(w, true) && AllowedRun(Next(w, Create(r)), steps, true) ==> AllSendsSeen(Run(Next(w, Create(r)), steps))
  }

  /** On the request alone: that is so if and only if each address type comes with no count,
      or with a count of one for an empty or published candidate. */
  lemma SafeForeverIff(r: Record)
    requires OnLadder(r) && r.Tracker(A).stableCount <= 2 && r.Tracker(AAAA).stableCount <= 2
    ensures SafeForever(r) <==> SafeTracker(r, A) && SafeTracker(r, AAAA)
  {
    hide Next, Run, AllowedRun, AllSendsSeen, WorldOk, SafeTracker;
    if SafeTracker(r, A) && SafeTracker(r, AAAA) {
      forall w: World, steps: seq<Step> | WorldOk(w, true) && AllowedRun(Next(w, Create(r)), steps, true)
        ensures AllSendsSeen(Run(Next(w, Create(r)), steps))
      {
        NextKeepsWorld(w, Create(r), true);
        RunKeepsWorld(Next(w, Create(r)), steps, true);
        WorldSendsSeen(Run(Next(w, Create(r)), steps));
      }
    } else {
      var t := if SafeTracker(r, A) then AAAA else A;
      var w, steps := UnsafeRun(r, t);
      assert !AllSendsSeen(Run(Next(w, Create(r)), steps));
    }
  }

  lemma WorldSendsSeen(w: World)
    requires WorldOk(w, true)
    ensures AllSendsSeen(w)
  {
    hide Gate, PlanOf, SeenTwice;
    forall i: nat, t: RecordType | i < |w.root.records| && t.IsAddress() ensures SendsSeen(w.root.records[i], w.history, t) {
      forall now: int, force: bool | t in PlanOf(w.root.records[i], now, force) && PlanOf(w.root.records[i], now, force)[t].Send?
        ensures SeenTwice(w.history, t, PlanOf(w.root.records[i], now, force)[t].value)
      {
        PlannedAddressSeenTwice(w.root, w.history, i, now, force, t, true);
      }
    }
  }

  function AddressSample(t: RecordType, v: string): Sample {
    Sample(if t == A then v else "", if t == A then "" else v, t == A, t != A, 1)
  }

  /** The record after an edit that turns both address types on. */
  function Opened(r: Record): Record {
    Edited(r, Edit({A, AAAA}, {}, None, None))
  }

  /** A count of two goes out at once with whatever address is there; a count of one for an
      unpublished candidate goes out with the first sample of it. */
  lemma UnsafeRun(r: Record, t: RecordType) returns (w: World, steps: seq<Step>)
    requires t.IsAddress() && r.Tracker(t).stableCount <= 2 && !SafeTracker(r, t)
    ensures WorldOk(w, true) && AllowedRun(Next(w, Create(r)), steps, true) && !AllSendsSeen(Run(Next(w, Create(r)), steps))
  {
    var edit := Change(r.id, Edit({A, AAAA}, {}, None, None));
    if r.Tracker(t).stableCount == 2 {
      var v := if r.Published(t) == "x" then "y" else "x";
      w, steps := SeenOnce(t, v), [edit];
      UnsafeTwo(r, t, v);
    } else {
      w, steps := NEW_STORE, [edit, Accept(AddressSample(t, r.Tracker(t).candidate), 1, false)];
      NewStoreOk(true);
      UnsafeOne(r, t);
    }
  }

  /** An empty store after one sample. */
  function SeenOnce(t: RecordType, v: string): World {
    World(Root(AddressSample(t, v), []), Root(NO_SAMPLE, []), [AddressSample(t, v)], [])
  }

  lemma OpenedAfter(w: World, r: Record)
    requires w.root.records == []
    ensures var edit := Change(r.id, Edit({A, AAAA}, {}, None, None));
            var w' := Run(Next(w, Create(r)), [edit]);
            && w'.root == Root(w.root.address, [Opened(r.(sample := w.root.address))]) && w'.history == w.history
            && AllowedRun(Next(w, Create(r)), [edit], true)
  {
    var edit := Change(r.id, Edit({A, AAAA}, {}, None, None));
    var w1 := Next(w, Create(r));
    assert w1.root.records == [r.(sample := w.root.address)];
    assert IndexOf(w1.root.records, r.id) == 0;
    assert [edit][..0] == [] && Run(w1, []) == w1;
    assert Run(w1, [edit]) == Next(w1, edit);
    assert Next(w1, edit).root.records == [Opened(w1.root.records[0])];
  }

  lemma UnsafeTwo(r: Record, t: RecordType, v: string)
    requires t.IsAddress() && r.Tracker(t).stableCount == 2 && v != "" && v != r.Published(t)
    ensures var w, edit := SeenOnce(t, v), Change(r.id, Edit({A, AAAA}, {}, None, None));
            WorldOk(w, true) && AllowedRun(Next(w, Create(r)), [edit], true) && !AllSendsSeen(Run(Next(w, Create(r)), [edit]))
  {
    hide Run, AllowedRun, SendsSeen;
    var w := SeenOnce(t, v);
    OpenedAfter(w, r);
    var wide := Opened(r.(sample := w.root.address));
    EditedAddresses(r.(sample := w.root.address), Edit({A, AAAA}, {}, None, None));
    assert r.(sample := w.root.address).Tracker(t) == r.Tracker(t) && r.(sample := w.root.address).Published(t) == r.Published(t);
    assert Sendable(wide, t);
    SendsSeenIff(wide, w.history, t);
    var end := Run(Next(w, Create(r)), [Change(r.id, Edit({A, AAAA}, {}, None, None))]);
    assert end.root.records[0] == wide && !SendsSeen(end.root.records[0], end.history, t);
  }

  lemma UnsafeOne(r: Record, t: RecordType)
    requires t.IsAddress() && r.Tracker(t).stableCount == 1 && !Harmless(r.Tracker(t).candidate, r.Published(t))
    ensures var edit, sample := Change(r.id, Edit({A, AAAA}, {}, None, None)),
            Accept(AddressSample(t, r.Tracker(t).candidate), 1, false);
            var w := Next(NEW_STORE, Create(r));
            AllowedRun(w, [edit, sample], true) && !AllSendsSeen(Run(w, [edit, sample]))
  {
    hide SendsSeen, Observe, Opened;
    var edit, sample := Change(r.id, Edit({A, AAAA}, {}, None, None)), Accept(AddressSample(t, r.Tracker(t).candidate), 1, false);
    var w := Next(NEW_STORE, Create(r));
    OpenedAfter(NEW_STORE, r);
    var w1 := Run(w, [edit]);
    var s := Received(w1.root, sample.raw, 1);
    assert s == sample.raw;
    assert [edit, sample][..1] == [edit] && [edit, sample][..0] == [] && [edit][..0] == [];
    assert Run(w, [edit, sample]) == Next(w1, sample);
    var seen := Observe(w1.root.records[0], s, true);
    assert Next(w1, sample).root.records == [seen] && Next(w1, sample).history == [s];
    OneMoreCount(r, t, s);
    SendsSeenIff(seen, [s], t);
    assert AllowedRun(w, [edit, sample], true);
    var end := Run(w, [edit, sample]);
    assert end.root.records[0] == seen && !SendsSeen(end.root.records[0], end.history, t);
  }

  lemma OneMoreCount(r: Record, t: RecordType, s: Sample)
    requires t.IsAddress() && r.Tracker(t).stableCount == 1 && !Harmless(r.Tracker(t).candidate, r.Published(t))
    requires s == AddressSample(t, r.Tracker(t).candidate)
    ensures Sendable(Observe(Opened(r.(sample := NO_SAMPLE)), s, true), t)
  {
    var wide := Opened(r.(sample := NO_SAMPLE));
    EditedAddresses(r.(sample := NO_SAMPLE), Edit({A, AAAA}, {}, None, None));
    assert wide.Tracker(t) == r.Tracker(t) && wide.Published(t) == r.Published(t);
    assert Track(wide, t, s).stableCount == 2;
    assert Observe(wide, s, true).Tracker(t) == Track(wide, t, s);
  }

  /** A create request that brings its own tracker walks around the gate: one sample, and
      the address goes out. */
  lemma SuppliedTrackerSends(s: Sample, now: nat, r: Record)
    requires s.public4 && s.ipv4 != "" && s.detectedAt > 0 && Fresh(s.detectedAt, now)
    requires A in r.types && r.enabled && r.Published(A) == "" && r.Tracker(A) == Tracker("", 2, 0, 0, false)
    ensures var steps := [Accept(s, now, true), Create(r)];
            var w := Run(NEW_STORE, steps);
            && |w.history| == 1 && |w.root.records| == 1
            && PlanOf(w.root.records[0], now, false)[A] == Send(s.ipv4)
  {
    var steps := [Accept(s, now, true), Create(r)];
    assert steps[..1] == [Accept(s, now, true)] && steps[..1][..0] == [];
    assert Run(NEW_STORE, []) == NEW_STORE;
    var w1 := Next(NEW_STORE, Accept(s, now, true));
    assert Run(NEW_STORE, steps[..1]) == w1;
    assert w1.root.address.ipv4 == s.ipv4 && w1.root.address.public4 && w1.root.address.detectedAt == s.detectedAt;
  }

  // --------------------------------------------------------- published and confirmed

  /** With the record unchanged since the plan, what is called published is what the
      provider confirmed, or what it was before, except when the type was skipped although
      its value differs from the published one: then that value is published unsent. */
  lemma PublishedIsConfirmedIff(r: Record, now: int, force: bool, answers: Answers, later: int, t: RecordType)
    requires t in r.types
    ensures var plan := PlanOf(r, now, force);
            var after := Finished(r, plan, answers, later);
            after.Published(t) == (if plan[t].Send? && AnswerFor(answers, t).ok then plan[t].value else r.Published(t))
            <==> (plan[t].Noop? ==> r.Wanted(t) == r.Published(t))
  {
    hide Finished;
    var plan := PlanOf(r, now, force);
    FinishedTracker(r, plan, answers, later, t);
    FinishTypeAt(r, t, plan[t], AnswerFor(answers, t), later);
  }

  /** A skipped type differs from its published value exactly when there is no public address. */
  lemma SkippedUnpublishedIff(r: Record, now: int, force: bool, t: RecordType)
    requires t in r.types
    ensures var d := PlanOf(r, now, force)[t];
            d.Noop? && r.Wanted(t) != r.Published(t)
            <==> t.IsAddress() && r.Wanted(t) != r.Published(t) && (!r.sample.Public(t) || r.Wanted(t) == "")
  {
  }

  /** It does happen: an address behind carrier NAT is recorded as published by an update of
      the other type, and once it turns public it is never sent. */
  lemma SkippedAddressIsNeverSent(r: Record, now: int, answers: Answers, later: int, again: Sample, any: int)
    requires r.types == {A, AAAA} && !r.sample.public4 && r.sample.ipv4 != "" && r.sample.ipv4 != r.Published(A)
    requires PlanOf(r, now, false)[AAAA].Send? && AnswerFor(answers, AAAA).ok
    requires again.ipv4 == r.sample.ipv4
    ensures var after := Finished(r, PlanOf(r, now, false), answers, later);
            && after.Published(A) == r.sample.ipv4
            && !ReadyType(Observe(after, again, true), A, any)
            && !PlanOf(Observe(after, again, true), any, true)[A].Send?
  {
    hide Finished;
    var plan := PlanOf(r, now, false);
    FinishedTracker(r, plan, answers, later, A);
    FinishTypeAt(r, A, plan[A], AnswerFor(answers, A), later);
    assert Observe(Finished(r, plan, answers, later), again, true).Published(A) == r.sample.ipv4;
  }

  /** A sent type ends up published as what was sent exactly when its value did not move
      between the two phases. */
  lemma PublishedIsSentIff(current: Record, plan: Plan, answers: Answers, later: int, t: RecordType)
    requires t in plan && plan[t].Send? && AnswerFor(answers, t).ok
    ensures Finished(current, plan, answers, later).Published(t) == plan[t].value <==> current.Wanted(t) == plan[t].value
  {
    hide Finished;
    FinishedTracker(current, plan, answers, later, t);
    FinishTypeAt(current, t, plan[t], AnswerFor(answers, t), later);
  }

  // ------------------------------------------------------------------ backoff ladder

  /** A failed send climbs one step, waits that step's delay (never less than before), and
      stays on the four-step ladder; an authentication failure locks instead. */
  lemma FailureClimbs(r: Record, t: RecordType, value: string, a: Answer, now: int)
    requires OnLadder(r) && !a.ok
    ensures var tr := FinishType(r, t, Send(value), a, now).Tracker(t);
            && r.Tracker(t).retryAttempt <= tr.retryAttempt && 1 <= tr.retryAttempt <= |RETRY_DELAYS|
            && (a.auth ==> tr.authError && tr.nextRetryAt == 0)
            && (!a.auth ==> !tr.authError && tr.nextRetryAt - now in RETRY_DELAYS
                            && (r.Tracker(t).retryAttempt >= 1 ==> tr.nextRetryAt - now >= Delay(r.Tracker(t).retryAttempt)))
  {
    FinishTypeAt(r, t, Send(value), a, now);
  }
}
