/** Dynamic DNS records: samples, stability trackers and the two phases of an update (lab_ddns.py). */
module Ddns {
  import opened Wrappers

  datatype RecordType = A | AAAA | CNAME | TXT {
    predicate IsAddress() { this == A || this == AAAA }
  }

  datatype Tracker = Tracker(candidate: string, stableCount: nat, retryAttempt: nat, nextRetryAt: int, authError: bool)

  const NO_TRACK := Tracker("", 0, 0, 0, false)

  /** One relay sample; the states other than "public" are not told apart. */
  datatype Sample = Sample(ipv4: string, ipv6: string, public4: bool, public6: bool, detectedAt: nat) {
    function Address(t: RecordType): string { if t == A then ipv4 else ipv6 }
    predicate Public(t: RecordType) { if t == A then public4 else public6 }
  }

  const NO_SAMPLE := Sample("", "", false, false, 0)

  function Get(m: map<RecordType, string>, t: RecordType): string {
    if t in m then m[t] else ""
  }

  datatype Record = Record(
    id: string, enabled: bool, types: set<RecordType>, supported: set<RecordType>, sample: Sample,
    published: map<RecordType, string>, values: map<RecordType, string>, trackers: map<RecordType, Tracker>)
  {
    function Tracker(t: RecordType): Tracker { if t in trackers then trackers[t] else NO_TRACK }
    function Published(t: RecordType): string { Get(published, t) }
    /** What the record should say now. */
    function Wanted(t: RecordType): string { if t.IsAddress() then sample.Address(t) else Get(values, t) }
  }

  datatype Root = Root(address: Sample, records: seq<Record>)

  const RETRY_DELAYS: seq<int> := [30, 120, 600, 1800]
  const STALE_SECONDS := 180

  // ----------------------------------------------------------------- samples

  /** _normal_address; a sample without a time takes the previous one's, or the clock's. */
  function Received(root: Root, raw: Sample, now: nat): Sample {
    raw.(public4 := raw.public4 && raw.ipv4 != "", public6 := raw.public6 && raw.ipv6 != "",
         detectedAt := if raw.detectedAt != 0 then raw.detectedAt
                       else if root.address.detectedAt != 0 then root.address.detectedAt else now)
  }

  /** One tracker under a sample taken at a new time. */
  function Track(r: Record, t: RecordType, s: Sample): Tracker {
    var tr, detected := r.Tracker(t), s.Address(t);
    if t !in r.types then tr.(candidate := "", stableCount := 0)
    else if s.Public(t) && detected != "" && detected != r.Published(t) then
      if tr.candidate == detected then tr.(stableCount := if tr.stableCount >= 1 then 2 else 1)
      else Tracker(detected, 1, 0, 0, false)
    else if detected == r.Published(t) then NO_TRACK
    else tr.(candidate := "", stableCount := 0)
  }

  function Observe(r: Record, s: Sample, isNew: bool): Record {
    r.(sample := s,
       trackers := if isNew then r.trackers[A := Track(r, A, s)][AAAA := Track(r, AAAA, s)]
                   else r.trackers[A := r.Tracker(A)][AAAA := r.Tracker(AAAA)])
  }

  function AcceptAddress(root: Root, raw: Sample, now: nat): Root {
    var s := Received(root, raw, now);
    Root(s, seq(|root.records|, i requires 0 <= i < |root.records| =>
                  Observe(root.records[i], s, s.detectedAt != root.address.detectedAt)))
  }

  // -------------------------------------------------------------- record edits

  /** An accepted edit; None means the request did not carry the field. */
  datatype Edit = Edit(types: set<RecordType>, supported: set<RecordType>, values: Option<map<RecordType, string>>,
                       enabled: Option<bool>)

  function Restrict(m: map<RecordType, string>, types: set<RecordType>): map<RecordType, string> {
    map t | t in m && t in types :: m[t]
  }

  function Edited(r: Record, e: Edit): Record {
    r.(types := e.types, supported := e.supported,
       values := Restrict(if e.values.Some? then e.values.value else r.values, e.types),
       published := Restrict(r.published, e.types + {A, AAAA}),
       enabled := if e.enabled.Some? then e.enabled.value else r.enabled)
  }

  /** Index of the first record with the id, or the number of records. */
  function IndexOf(records: seq<Record>, id: string): (i: nat)
    ensures i <= |records| && (i < |records| ==> records[i].id == id)
    ensures forall k :: 0 <= k < i ==> records[k].id != id
  {
    if records == [] || records[0].id == id then 0
    else
      var i := IndexOf(records[1..], id);
      assert forall k :: 0 < k <= i ==> records[k] == records[1..][k - 1];
      i + 1
  }

  predicate Has(records: seq<Record>, id: string) {
    IndexOf(records, id) < |records|
  }

  function EditRecord(root: Root, id: string, e: Edit): Root
    requires Has(root.records, id)
  {
    var i := IndexOf(root.records, id);
    root.(records := root.records[i := Edited(root.records[i], e)])
  }

  /** A new record starts from the current sample, whatever the request said about addresses. */
  function CreateRecord(root: Root, r: Record): Root {
    root.(records := root.records + [r.(sample := root.address)])
  }

  function Without(records: seq<Record>, id: string): seq<Record> {
    if records == [] then []
    else
      var rest := Without(records[..|records| - 1], id);
      if records[|records| - 1].id == id then rest else rest + [records[|records| - 1]]
  }

  // ---------------------------------------------------------- update, phase one

  predicate Fresh(detectedAt: nat, now: int) {
    0 < detectedAt < 1000000000 || (detectedAt > 0 && detectedAt <= now + 30 && now - detectedAt <= STALE_SECONDS)
  }

  datatype Decision = Noop | Stale | Unstable | AuthLocked | Backoff | Invalid | Send(value: string)

  function Decide(r: Record, t: RecordType, now: int, force: bool): Decision {
    var tr, wanted := r.Tracker(t), r.Wanted(t);
    if t.IsAddress() then
      if r.sample.Public(t) && wanted != "" && wanted != r.Published(t) then
        if !Fresh(r.sample.detectedAt, now) then Stale
        else if tr.stableCount < 2 then Unstable
        else if tr.authError && !force then AuthLocked
        else if tr.nextRetryAt > now && !force then Backoff
        else Send(wanted)
      else Noop
    else if t !in r.supported || wanted == "" then Invalid
    else if wanted == r.Published(t) then Noop
    else if tr.authError && !force then AuthLocked
    else if tr.nextRetryAt > now && !force then Backoff
    else Send(wanted)
  }

  type Plan = map<RecordType, Decision>

  function PlanOf(r: Record, now: int, force: bool): Plan {
    map t | t in r.types :: Decide(r, t, now, force)
  }

  predicate HasWork(plan: Plan) {
    exists t :: t in plan && plan[t].Send?
  }

  // ---------------------------------------------------------- update, phase two

  /** What the provider answered for one sent type; a missing answer is a failed call. */
  datatype Answer = Answer(ok: bool, auth: bool)

  type Answers = map<RecordType, Answer>

  function AnswerFor(answers: Answers, t: RecordType): Answer {
    if t in answers then answers[t] else Answer(false, false)
  }

  predicate Succeeded(d: Decision, a: Answer) {
    d.Noop? || (d.Send? && a.ok)
  }

  predicate Waits(d: Decision) {
    d.Unstable? || d.Backoff? || d.Stale?
  }

  function Delay(attempt: nat): int
    requires 1 <= attempt
  {
    RETRY_DELAYS[if attempt - 1 < 3 then attempt - 1 else 3]
  }

  function FailedTracker(tr: Tracker, auth: bool, now: int): Tracker {
    var attempt := if tr.retryAttempt + 1 < 4 then tr.retryAttempt + 1 else 4;
    tr.(retryAttempt := attempt, authError := auth, nextRetryAt := if auth then 0 else now + Delay(attempt))
  }

  /** One type of the plan, against the record as it is when the provider has answered. */
  function FinishType(r: Record, t: RecordType, d: Decision, a: Answer, now: int): Record {
    if Succeeded(d, a) then r.(published := r.published[t := r.Wanted(t)], trackers := r.trackers[t := NO_TRACK])
    else if Waits(d) then r
    else r.(trackers := r.trackers[t := FailedTracker(r.Tracker(t), d.AuthLocked? || (d.Send? && a.auth), now)])
  }

  function FinishIn(r: Record, t: RecordType, plan: Plan, answers: Answers, now: int): Record {
    if t in plan then FinishType(r, t, plan[t], AnswerFor(answers, t), now) else r
  }

  function Finished(r: Record, plan: Plan, answers: Answers, now: int): Record {
    var b := FinishIn(FinishIn(r, A, plan, answers, now), AAAA, plan, answers, now);
    FinishIn(FinishIn(b, CNAME, plan, answers, now), TXT, plan, answers, now)
  }

  function FinishUpdate(root: Root, id: string, plan: Plan, answers: Answers, now: int): Root {
    var i := IndexOf(root.records, id);
    if i < |root.records| then root.(records := root.records[i := Finished(root.records[i], plan, answers, now)]) else root
  }

  /** run_update with nothing in between: plan, ask the provider, record the answers. */
  function RunUpdate(root: Root, id: string, force: bool, now: int, answers: Answers, later: int): Root {
    var i := IndexOf(root.records, id);
    if i == |root.records| || !root.records[i].enabled || !HasWork(PlanOf(root.records[i], now, force)) then root
    else FinishUpdate(root, id, PlanOf(root.records[i], now, force), answers, later)
  }

  // ------------------------------------------------------------- automatic loop

  /** _auto_due's test for one record. */
  predicate ReadyType(r: Record, t: RecordType, now: int) {
    && t in r.types && r.sample.Public(t)
    && r.sample.Address(t) != "" && r.sample.Address(t) != r.Published(t)
    && r.Tracker(t).stableCount >= 2 && !r.Tracker(t).authError
    && Fresh(r.sample.detectedAt, now) && r.Tracker(t).nextRetryAt <= now
  }

  predicate Ready(r: Record, now: int) {
    r.enabled && (ReadyType(r, A, now) || ReadyType(r, AAAA, now))
  }

  function AutoDue(records: seq<Record>, now: int): seq<string> {
    if records == [] then []
    else
      var rest := AutoDue(records[..|records| - 1], now);
      var r := records[|records| - 1];
      if Ready(r, now) && r.id != "" then rest + [r.id] else rest
  }

  /** One update of a pass: when it was planned, what the provider answered, and when. */
  datatype Outcome = Outcome(planned: int, answers: Answers, finished: int)

  /** Each due record once; answers and clock readings come from outside. */
  function RunDue(root: Root, ids: seq<string>, outcomes: seq<Outcome>): Root
    requires |outcomes| == |ids|
    decreases |ids|
  {
    if ids == [] then root
    else RunDue(RunUpdate(root, ids[0], false, outcomes[0].planned, outcomes[0].answers, outcomes[0].finished),
        ids[1..], outcomes[1..])
  }

  // ----------------------------------------------------------------- restart

  function Reset(tr: Tracker): Tracker {
    tr.(candidate := "", stableCount := 0)
  }

  /** _load: trackers must see fresh samples again. */
  function Reloaded(disk: Root): Root {
    disk.(records := seq(|disk.records|, i requires 0 <= i < |disk.records| =>
      var r := disk.records[i]; r.(trackers := map t | t in r.trackers :: Reset(r.trackers[t]))))
  }

  // ------------------------------------------------ what finishing does to one type

  lemma FinishedTracker(r: Record, plan: Plan, answers: Answers, now: int, t: RecordType)
    ensures var r' := Finished(r, plan, answers, now); var one := FinishIn(r, t, plan, answers, now);
            && r'.Tracker(t) == one.Tracker(t) && r'.Published(t) == one.Published(t)
            && r'.sample == r.sample && r'.types == r.types && r'.values == r.values && r'.id == r.id
            && r'.enabled == r.enabled && r'.supported == r.supported
  {
    hide FinishIn;
    var a := FinishIn(r, A, plan, answers, now);
    var b := FinishIn(a, AAAA, plan, answers, now);
    var c := FinishIn(b, CNAME, plan, answers, now);
    FinishOther(r, A, plan, answers, now);
    FinishOther(a, AAAA, plan, answers, now);
    FinishOther(b, CNAME, plan, answers, now);
    FinishOther(c, TXT, plan, answers, now);
    FinishAlike(r, match t case A => r case AAAA => a case CNAME => b case TXT => c, t, plan, answers, now);
  }

  /** Finishing one type leaves the other types and all the rest alone ... */
  lemma FinishOther(r: Record, t: RecordType, plan: Plan, answers: Answers, now: int)
    ensures var r' := FinishIn(r, t, plan, answers, now);
            && r'.sample == r.sample && r'.types == r.types && r'.values == r.values && r'.id == r.id
            && r'.enabled == r.enabled && r'.supported == r.supported
            && (forall u :: u != t ==> r'.Tracker(u) == r.Tracker(u) && r'.Published(u) == r.Published(u))
  {
  }

  /** ... and reads only its own. */
  lemma FinishAlike(r: Record, q: Record, t: RecordType, plan: Plan, answers: Answers, now: int)
    requires q.Tracker(t) == r.Tracker(t) && q.Published(t) == r.Published(t) && q.Wanted(t) == r.Wanted(t)
    ensures var r' := FinishIn(r, t, plan, answers, now); var q' := FinishIn(q, t, plan, answers, now);
            q'.Tracker(t) == r'.Tracker(t) && q'.Published(t) == r'.Published(t)
  {
    hide FailedTracker, Succeeded, Waits, AnswerFor;
    if t in plan {
      FinishTypeAt(r, t, plan[t], AnswerFor(answers, t), now);
      FinishTypeAt(q, t, plan[t], AnswerFor(answers, t), now);
    }
  }

  lemma FinishTypeAt(r: Record, t: RecordType, d: Decision, a: Answer, now: int)
    ensures var r' := FinishType(r, t, d, a, now);
            && r'.Tracker(t) == (if Succeeded(d, a) then NO_TRACK else if Waits(d) then r.Tracker(t)
                                 else FailedTracker(r.Tracker(t), d.AuthLocked? || (d.Send? && a.auth), now))
            && r'.Published(t) == if Succeeded(d, a) then r.Wanted(t) else r.Published(t)
  {
  }

  // --------------------------------------------- due list and update agree; no hot loop

  /** A record is listed exactly when an unforced update at that moment would send an address. */
  lemma DueIffSends(r: Record, now: int)
    requires r.enabled
    ensures Ready(r, now) <==> exists t :: t in PlanOf(r, now, false) && t.IsAddress() && PlanOf(r, now, false)[t].Send?
  {
    forall t: RecordType | t.IsAddress()
      ensures ReadyType(r, t, now) <==> t in PlanOf(r, now, false) && PlanOf(r, now, false)[t].Send?
    {
    }
  }

  /** A type that is due at two times is due in between. */
  lemma ReadyBetween(r: Record, t: RecordType, a: int, b: int, c: int)
    requires a <= b <= c && ReadyType(r, t, a) && ReadyType(r, t, c)
    ensures ReadyType(r, t, b)
  {
  }

  /** The record after an unforced update. */
  function Updated(r: Record, planned: int, answers: Answers, finished: int): Record {
    var plan := PlanOf(r, planned, false);
    if r.enabled && HasWork(plan) then Finished(r, plan, answers, finished) else r
  }

  /** From its planning until thirty seconds after its end an update leaves a type due if
      and only if it was not due when planned and would by now be due without the update:
      whatever the provider answered, what was due is not due again so soon. */
  lemma DueAgainIff(r: Record, t: RecordType, planned: int, answers: Answers, finished: int, u: int)
    requires r.enabled && t.IsAddress() && planned <= finished && planned <= u < finished + 30
    ensures ReadyType(Updated(r, planned, answers, finished), t, u) <==> ReadyType(r, t, u) && !ReadyType(r, t, planned)
  {
    hide Finished, Decide, FinishType;
    var plan := PlanOf(r, planned, false);
    FinishedTracker(r, plan, answers, finished, t);
    if ReadyType(r, t, planned) {
      ReadySends(r, t, planned);
    }
    if t in r.types {
      FinishTypeSample(r, t, plan[t], AnswerFor(answers, t), finished);
      FinishedSoonAfter(r, t, AnswerFor(answers, t), planned, finished, u);
    }
  }

  lemma ReadySends(r: Record, t: RecordType, now: int)
    requires t.IsAddress() && ReadyType(r, t, now)
    ensures t in PlanOf(r, now, false) && PlanOf(r, now, false)[t].Send?
  {
  }

  lemma FinishedSoonAfter(r: Record, t: RecordType, a: Answer, planned: int, finished: int, u: int)
    requires t in r.types && t.IsAddress() && planned <= finished && planned <= u < finished + 30
    ensures ReadyType(FinishType(r, t, Decide(r, t, planned, false), a, finished), t, u)
            <==> ReadyType(r, t, u) && !ReadyType(r, t, planned)
  {
    hide FinishType, Fresh;
    FinishTypeAt(r, t, Decide(r, t, planned, false), a, finished);
    FinishTypeSample(r, t, Decide(r, t, planned, false), a, finished);
  }

  lemma FinishTypeSample(r: Record, t: RecordType, d: Decision, a: Answer, now: int)
    ensures var r' := FinishType(r, t, d, a, now); r'.sample == r.sample && r'.types == r.types && r'.enabled == r.enabled
  {
  }

  /** So a record may be due again at once: here A is published at 1000, and AAAA, still
      backing off when that was planned, is due when it ends. */
  lemma SecondTypeComesDue(answers: Answers)
    requires AnswerFor(answers, A).ok
    ensures var r := Record("r", true, {A, AAAA}, {}, Sample("x", "y", true, true, 1), map[], map[],
                            map[A := Tracker("x", 2, 0, 0, false), AAAA := Tracker("y", 2, 1, 1005, false)]);
            var after := Updated(r, 1000, answers, 1005);
            Ready(r, 1000) && after.Published(A) == "x" && Ready(after, 1005) && !ReadyType(after, A, 1005)
  {
    hide Finished;
    var r := Record("r", true, {A, AAAA}, {}, Sample("x", "y", true, true, 1), map[], map[],
                    map[A := Tracker("x", 2, 0, 0, false), AAAA := Tracker("y", 2, 1, 1005, false)]);
    ReadySends(r, A, 1000);
    DueAgainIff(r, A, 1000, answers, 1005, 1005);
    DueAgainIff(r, AAAA, 1000, answers, 1005, 1005);
    FinishedTracker(r, PlanOf(r, 1000, false), answers, 1005, A);
  }

  lemma RunUpdateAt(root: Root, id: string, o: Outcome)
    ensures var after := RunUpdate(root, id, false, o.planned, o.answers, o.finished); var i := IndexOf(root.records, id);
            && |after.records| == |root.records| && after.address == root.address
            && (forall k :: 0 <= k < |root.records| ==> SameRecord(after.records[k], root.records[k]))
            && (forall k :: 0 <= k < |root.records| && k != i ==> after.records[k] == root.records[k])
            && (i < |root.records| ==> after.records[i] == Updated(root.records[i], o.planned, o.answers, o.finished))
  {
    hide Finished, PlanOf;
    var i := IndexOf(root.records, id);
    if i < |root.records| {
      FinishedTracker(root.records[i], PlanOf(root.records[i], o.planned, false), o.answers, o.finished, A);
    }
  }

  predicate SameRecord(a: Record, b: Record) {
    a.id == b.id && a.enabled == b.enabled
  }

  lemma {:induction false} SameIds(a: seq<Record>, b: seq<Record>, id: string)
    requires |a| == |b| && forall k :: 0 <= k < |a| ==> a[k].id == b[k].id
    ensures IndexOf(a, id) == IndexOf(b, id)
  {
  }

  /** The updates of a pass follow each other, none before `start`. */
  ghost predicate Serial(start: int, outcomes: seq<Outcome>) {
    && (forall k :: 0 <= k < |outcomes| ==> start <= outcomes[k].planned <= outcomes[k].finished)
    && (forall k, l :: 0 <= k < l < |outcomes| ==> outcomes[k].finished <= outcomes[l].planned)
  }

  /** u is at or after the planning of each of the record's updates and less than thirty
      seconds after its end. */
  ghost predicate SoonAfter(id: string, ids: seq<string>, outcomes: seq<Outcome>, u: int)
    requires |outcomes| == |ids|
  {
    forall k :: 0 <= k < |ids| && ids[k] == id ==> outcomes[k].planned <= u < outcomes[k].finished + 30
  }

  ghost predicate SoonAfterAll(outcomes: seq<Outcome>, u: int) {
    forall k :: 0 <= k < |outcomes| ==> outcomes[k].planned <= u < outcomes[k].finished + 30
  }

  /** Some update of the record found the type due when it was planned. */
  ghost predicate DueWhenPlanned(r: Record, t: RecordType, ids: seq<string>, outcomes: seq<Outcome>)
    requires |outcomes| == |ids|
  {
    exists k :: 0 <= k < |ids| && ids[k] == r.id && ReadyType(r, t, outcomes[k].planned)
  }

  lemma {:induction false} PassKeepsRecords(root: Root, ids: seq<string>, outcomes: seq<Outcome>)
    requires |outcomes| == |ids|
    ensures var after := RunDue(root, ids, outcomes);
            |after.records| == |root.records| && forall k :: 0 <= k < |root.records| ==>
                SameRecord(after.records[k], root.records[k])
    decreases |ids|
  {
    hide RunUpdate;
    if ids != [] {
      var o := outcomes[0];
      RunUpdateAt(root, ids[0], o);
      PassKeepsRecords(RunUpdate(root, ids[0], false, o.planned, o.answers, o.finished), ids[1..], outcomes[1..]);
    }
  }

  /** No hot loop: soon after its updates in a pass a type of a record is due if and only if
      it would be without the pass and no update of the record found it due when planned. */
  lemma {:induction false} NoHotLoop(root: Root, ids: seq<string>, outcomes: seq<Outcome>, start: int, i: nat,
                                     t: RecordType, u: int)
    requires |outcomes| == |ids| && Serial(start, outcomes) && i < |root.records| && t.IsAddress()
    requires root.records[i].enabled && IndexOf(root.records, root.records[i].id) == i
    requires SoonAfter(root.records[i].id, ids, outcomes, u)
    ensures |RunDue(root, ids, outcomes).records| == |root.records|
    ensures ReadyType(RunDue(root, ids, outcomes).records[i], t, u)
            <==> ReadyType(root.records[i], t, u) && !DueWhenPlanned(root.records[i], t, ids, outcomes)
    decreases |ids|
  {
    hide RunUpdate, ReadyType, Updated, DueWhenPlanned, SoonAfter;
    PassKeepsRecords(root, ids, outcomes);
    var r := root.records[i];
    if ids == [] {
      NoneWhenPlanned(r, t);
    } else {
      var o := outcomes[0];
      var next := RunUpdate(root, ids[0], false, o.planned, o.answers, o.finished);
      RunUpdateAt(root, ids[0], o);
      SameIds(root.records, next.records, r.id);
      LaterSoonAfter(r.id, ids, outcomes, u);
      SerialRest(start, outcomes);
      NoHotLoop(next, ids[1..], outcomes[1..], start, i, t, u);
      FirstWhenPlanned(r, t, ids, outcomes);
      if ids[0] == r.id {
        SoonAfterFirst(ids, outcomes, u);
        DueAgainIff(r, t, o.planned, o.answers, o.finished, u);
        if !ReadyType(r, t, o.planned) {
          UpdatedWhenPlanned(r, t, ids, outcomes, start, u);
        }
      }
    }
  }

  lemma NoneWhenPlanned(r: Record, t: RecordType)
    ensures !DueWhenPlanned(r, t, [], [])
  {
  }

  lemma LaterSoonAfter(id: string, ids: seq<string>, outcomes: seq<Outcome>, u: int)
    requires |outcomes| == |ids| > 0 && SoonAfter(id, ids, outcomes, u)
    ensures SoonAfter(id, ids[1..], outcomes[1..], u)
  {
  }

  lemma SoonAfterFirst(ids: seq<string>, outcomes: seq<Outcome>, u: int)
    requires |outcomes| == |ids| > 0 && SoonAfter(ids[0], ids, outcomes, u)
    ensures outcomes[0].planned <= u < outcomes[0].finished + 30
  {
  }

  lemma SerialRest(start: int, outcomes: seq<Outcome>)
    requires outcomes != [] && Serial(start, outcomes)
    ensures Serial(start, outcomes[1..]) && outcomes[0].planned <= outcomes[0].finished
  {
  }

  lemma FirstWhenPlanned(r: Record, t: RecordType, ids: seq<string>, outcomes: seq<Outcome>)
    requires |outcomes| == |ids| > 0
    ensures DueWhenPlanned(r, t, ids, outcomes)
            <==> (ids[0] == r.id && ReadyType(r, t, outcomes[0].planned)) || DueWhenPlanned(r, t, ids[1..], outcomes[1..])
  {
    hide ReadyType;
    if DueWhenPlanned(r, t, ids, outcomes) {
      var k :| 0 <= k < |ids| && ids[k] == r.id && ReadyType(r, t, outcomes[k].planned);
      assert k > 0 ==> ids[1..][k - 1] == r.id && ReadyType(r, t, outcomes[1..][k - 1].planned);
    }
    if DueWhenPlanned(r, t, ids[1..], outcomes[1..]) {
      var k :| 0 <= k < |ids| - 1 && ids[1..][k] == r.id && ReadyType(r, t, outcomes[1..][k].planned);
      assert ids[k + 1] == r.id && ReadyType(r, t, outcomes[k + 1].planned);
    }
  }

  lemma UpdatedId(r: Record, planned: int, answers: Answers, finished: int)
    ensures SameRecord(Updated(r, planned, answers, finished), r)
  {
    hide Finished, PlanOf;
    FinishedTracker(r, PlanOf(r, planned, false), answers, finished, A);
  }

  /** An update changes nothing about which later updates find the type due, unless it
      found the type due itself. */
  lemma UpdatedWhenPlanned(r: Record, t: RecordType, ids: seq<string>, outcomes: seq<Outcome>, start: int, u: int)
    requires |outcomes| == |ids| > 0 && ids[0] == r.id && r.enabled && t.IsAddress()
    requires Serial(start, outcomes) && SoonAfter(r.id, ids, outcomes, u) && !ReadyType(r, t, outcomes[0].planned)
    ensures var o := outcomes[0]; var r' := Updated(r, o.planned, o.answers, o.finished);
            DueWhenPlanned(r', t, ids[1..], outcomes[1..]) <==> DueWhenPlanned(r, t, ids[1..], outcomes[1..])
  {
    hide ReadyType, Updated;
    var o := outcomes[0];
    var r' := Updated(r, o.planned, o.answers, o.finished);
    UpdatedId(r, o.planned, o.answers, o.finished);
    forall k | 0 <= k < |ids| - 1 && ids[1..][k] == r.id
      ensures ReadyType(r', t, outcomes[1..][k].planned)
              <==> ReadyType(r, t, outcomes[1..][k].planned) && !ReadyType(r, t, o.planned)
    {
      assert outcomes[k + 1] == outcomes[1..][k] && ids[k + 1] == r.id;
      DueAgainIff(r, t, o.planned, o.answers, o.finished, outcomes[k + 1].planned);
    }
  }

  ghost predicate UniqueIds(records: seq<Record>) {
    forall i, j :: 0 <= i < j < |records| ==> records[i].id != records[j].id
  }

  /** Ids are distinct and not empty. */
  ghost predicate Identified(records: seq<Record>) {
    UniqueIds(records) && forall k :: 0 <= k < |records| ==> records[k].id != ""
  }

  lemma {:induction false} AutoDueLists(records: seq<Record>, now: int)
    ensures forall id :: id in AutoDue(records, now)
              <==> id != "" && exists k :: 0 <= k < |records| && records[k].id == id && Ready(records[k], now)
  {
    hide Ready;
    if records != [] {
      AutoDueLists(records[..|records| - 1], now);
      var init := records[..|records| - 1];
      forall id ensures id in AutoDue(records, now)
              <==> id != "" && exists k :: 0 <= k < |records| && records[k].id == id && Ready(records[k], now)
      {
        if id in AutoDue(init, now) {
          var k :| 0 <= k < |init| && init[k].id == id && Ready(init[k], now);
          assert records[k].id == id && Ready(records[k], now);
        } else if id in AutoDue(records, now) {
          assert records[|records| - 1].id == id && Ready(records[|records| - 1], now);
        } else if k :| 0 <= k < |records| && records[k].id == id && Ready(records[k], now) {
          if k < |init| {
            assert init[k].id == id && Ready(init[k], now);
          }
        }
      }
    }
  }

  lemma NothingReadyIff(records: seq<Record>, now: int)
    requires forall k :: 0 <= k < |records| ==> records[k].id != ""
    ensures AutoDue(records, now) == [] <==>
            forall k, t: RecordType :: 0 <= k < |records| && records[k].enabled && t.IsAddress() ==>
                !ReadyType(records[k], t, now)
  {
    hide ReadyType, AutoDue;
    AutoDueLists(records, now);
    var due := AutoDue(records, now);
    if due != [] {
      assert due[0] in due;
      var k :| 0 <= k < |records| && records[k].id == due[0] && Ready(records[k], now);
      var t := if ReadyType(records[k], A, now) then A else AAAA;
      assert t.IsAddress() && ReadyType(records[k], t, now);
    } else {
      forall k, t: RecordType | 0 <= k < |records| && records[k].enabled && t.IsAddress() ensures !ReadyType(records[k], t, now) {
        assert records[k].id !in due;
      }
    }
  }

  lemma SoleIndex(records: seq<Record>, k: nat)
    requires UniqueIds(records) && k < |records|
    ensures IndexOf(records, records[k].id) == k
  {
    var i := IndexOf(records, records[k].id);
    assert i <= k;
  }

  /** What is due soon after a pass over the due list of `start`: what would be without the
      pass, but for the types found due when their record was planned. So nothing that was
      due at `start` still is. */
  lemma PassLeavesIff(root: Root, start: int, outcomes: seq<Outcome>, u: int, i: nat, t: RecordType)
    requires UniqueIds(root.records) && |outcomes| == |AutoDue(root.records, start)| && Serial(start, outcomes)
    requires i < |root.records| && root.records[i].id != "" && root.records[i].enabled && t.IsAddress()
    requires SoonAfter(root.records[i].id, AutoDue(root.records, start), outcomes, u) && start <= u
    ensures var ids := AutoDue(root.records, start); var after := RunDue(root, ids, outcomes).records;
            && |after| == |root.records|
            && (ReadyType(after[i], t, u)
                <==> ReadyType(root.records[i], t, u) && !DueWhenPlanned(root.records[i], t, ids, outcomes))
            && (ReadyType(after[i], t, u) ==> !ReadyType(root.records[i], t, start))
  {
    hide ReadyType, SoonAfter, RunUpdate, AutoDue;
    var r, ids := root.records[i], AutoDue(root.records, start);
    SoleIndex(root.records, i);
    NoHotLoop(root, ids, outcomes, start, i, t, u);
    if ReadyType(r, t, start) && ReadyType(r, t, u) {
      AutoDueLists(root.records, start);
      assert r.id in ids;
      var k :| 0 <= k < |ids| && ids[k] == r.id;
      SoonAfterAt(r.id, ids, outcomes, u, k);
      ReadyBetween(r, t, start, outcomes[k].planned, u);
    }
  }

  lemma SoonAfterAt(id: string, ids: seq<string>, outcomes: seq<Outcome>, u: int, k: nat)
    requires |outcomes| == |ids| && k < |ids| && ids[k] == id && SoonAfter(id, ids, outcomes, u)
    ensures outcomes[k].planned <= u < outcomes[k].finished + 30
  {
  }

  /** Every type due by then was found due when its record was planned. */
  ghost predicate AllTended(records: seq<Record>, ids: seq<string>, outcomes: seq<Outcome>, u: int)
    requires |outcomes| == |ids|
  {
    forall i, t: RecordType :: 0 <= i < |records| && records[i].enabled && t.IsAddress() && ReadyType(records[i], t, u) ==>
      DueWhenPlanned(records[i], t, ids, outcomes)
  }

  ghost predicate NothingNewlyDue(records: seq<Record>, start: int, u: int) {
    forall i, t: RecordType :: 0 <= i < |records| && records[i].enabled && t.IsAddress() && ReadyType(records[i], t, u) ==>
      ReadyType(records[i], t, start)
  }

  /** Soon after a pass the due list is empty if and only if every type due by then was
      found due when planned; in particular if none has become due since `start`. */
  lemma PassLeavesNothingDueIff(root: Root, start: int, outcomes: seq<Outcome>, u: int)
    requires Identified(root.records) && start <= u
    requires |outcomes| == |AutoDue(root.records, start)| && Serial(start, outcomes) && SoonAfterAll(outcomes, u)
    ensures var ids := AutoDue(root.records, start); var left := AutoDue(RunDue(root, ids, outcomes).records, u);
            && (left == [] <==> AllTended(root.records, ids, outcomes, u))
            && (NothingNewlyDue(root.records, start, u) ==> left == [])
  {
    hide ReadyType, RunUpdate, AutoDue, RunDue, DueWhenPlanned;
    var ids := AutoDue(root.records, start);
    var after := RunDue(root, ids, outcomes).records;
    PassKeepsRecords(root, ids, outcomes);
    forall i, t: RecordType | 0 <= i < |after| && root.records[i].enabled && t.IsAddress()
      ensures ReadyType(after[i], t, u)
              <==> ReadyType(root.records[i], t, u) && !DueWhenPlanned(root.records[i], t, ids, outcomes)
      ensures ReadyType(after[i], t, u) ==> !ReadyType(root.records[i], t, start)
    {
      PassLeavesIff(root, start, outcomes, u, i, t);
    }
    forall i | 0 <= i < |after| ensures SameRecord(after[i], root.records[i]) && after[i].id != "" {
      assert SameRecord(after[i], root.records[i]);
    }
    NothingReadyIff(after, u);
    assert AutoDue(after, u) == [] <==> AllTended(root.records, ids, outcomes, u);
  }
}
