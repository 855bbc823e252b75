/** The document store, its pruned revision log, and a client that follows the
    log page by page (labprobe_storage.py). */
module RevisionLog {
  import opened Json
  import opened Wrappers

  // ---------------------------------------------------------------- changes

  datatype Operation = Baseline | Upsert | Replace | Delete

  datatype Entity = System | Device | OnlineDevice | DeviceMeta | Event | Status | Document

  type RowFields = map<string, Json>

  type EntityKey = (Entity, string)

  datatype Change = Change(entity: Entity, operation: Operation, key: string, payload: Json) {
    function Id(): EntityKey { (entity, key) }
  }

  datatype Row = Row(revision: nat, change: Change, createdAt: int)

  /** `keyOf` is _row_key: mac, id or date of a row, else its list index. */
  datatype Config = Config(keyOf: (RowFields, nat) -> string, maxRows: nat, maxAge: nat, pruneInterval: nat)

  const NON_REVISION_DOCUMENTS: set<string> := {
    "device_archive.json", "portmap_history.json", "portmap_router_status.json",
    "portmap_commands.json", "agent_status.json", "agent_update_commands.json",
    "daily_online.json", "geo_cache.json", "router_dashboard.json"
  }

  const VOLATILE_DEVICE_KEYS: set<string> := {
    "raw", "rssi", "rxrate", "txrate", "channel", "activeTime",
    "activeTimeSec", "onlinetime", "onlineDurationText",
    "todayOnlineDurationSec", "todayOnlineDurationText", "todayOnlineDate",
    "lastSeenAt", "trafficUpdatedAt", "trafficDate", "trafficText",
    "flowUp", "flowDown", "flow_cnt", "up", "down", "dailyUp",
    "dailyDown", "todayUpload", "todayDownload", "totalUpload",
    "totalDownload", "dailyUpBytes", "dailyDownBytes", "upBytes",
    "downBytes", "todayTraffic", "realtimeTraffic", "awake", "psm"
  }

  const VOLATILE_STATUS_KEYS: set<string> := {
    "updatedAt", "devicesUpdatedAt", "backgroundRefreshedAt",
    "routerLastCheckAt", "routerUpdatedAt", "lastSeenAt",
    "trafficUpdatedAt", "ipv6UpdatedAt", "receivedAt", "receivedEpoch"
  }

  const BULKY_KEYS: set<string> := {
    "raw", "rawData", "debug", "debugInfo", "ipv6Candidates", "ipv6Records",
    "packetSamples", "history", "samples", "scanResults"
  }

  // ------------------------------------------------------------ projections

  predicate VolatileDeviceKey(key: string) {
    || key in VOLATILE_DEVICE_KEYS
    || EndsWith(Lower(key), "bytes")
    || StartsWith(Lower(key), "flow")
  }

  function StableDevice(row: RowFields): RowFields {
    map k | k in row && !VolatileDeviceKey(k) :: row[k]
  }

  predicate Bulky(key: string, value: Json) {
    key in BULKY_KEYS || (value.Str? && |value.s| > 4096)
  }

  function DevicePayload(row: RowFields): RowFields {
    map k | k in row && !Bulky(k, row[k]) :: row[k]
  }

  predicate VolatileStatusKey(key: string) {
    key in VOLATILE_STATUS_KEYS || EndsWith(key, "UpdatedAt") || EndsWith(key, "RefreshedAt")
  }

  function StableStatus(v: Json, root: bool): Json {
    match v
    case List(items) => List(seq(|items|, i requires 0 <= i < |items| => StableStatus(items[i], false)))
    case Obj(fields) =>
      Obj(map k | k in fields && !(root && k == "devices") && !VolatileStatusKey(k) :: StableStatus(fields[k], false))
    case _ => v
  }

  lemma {:induction false} StableStatusIdempotent(v: Json, root: bool)
    ensures StableStatus(StableStatus(v, root), root) == StableStatus(v, root)
  {
    match v
    case List(items) =>
      forall i | 0 <= i < |items|
        ensures StableStatus(StableStatus(items[i], false), false) == StableStatus(items[i], false)
      {
        StableStatusIdempotent(items[i], false);
      }
    case Obj(fields) =>
      forall k | k in fields
        ensures StableStatus(StableStatus(fields[k], false), false) == StableStatus(fields[k], false)
      {
        StableStatusIdempotent(fields[k], false);
      }
      assert StableStatus(StableStatus(v, root), root).fields == StableStatus(v, root).fields;
    case _ =>
  }

  /** The two device projections commute, and stripping bulky fields twice strips nothing more. */
  lemma DeviceProjectionsCommute(row: RowFields)
    ensures StableDevice(DevicePayload(row)) == DevicePayload(StableDevice(row))
    ensures DevicePayload(DevicePayload(row)) == DevicePayload(row)
  {
  }

  // ------------------------------------------------------ row maps and diffs

  /** Rows of a JSON list value; anything that is not a list holds no row. */
  function Rows(v: Json): seq<Json> {
    if v.List? then v.items else []
  }

  /** The dict built over the first n items: the last row with a key wins. */
  function RowMap(cfg: Config, items: seq<Json>, n: nat): map<string, RowFields>
    requires n <= |items|
  {
    if n == 0 then map[]
    else
      var m := RowMap(cfg, items, n - 1);
      match items[n - 1]
      case Obj(fields) => m[cfg.keyOf(fields, n - 1) := fields]
      case _ => m
  }

  predicate Deleted(row: RowFields) {
    Truthy(Field(row, "deleted"))
  }

  predicate IsDeviceEntity(e: Entity) {
    e == Device || e == OnlineDevice
  }

  /** Whether the two versions of a row must produce a change. */
  predicate RowsDiffer(entity: Entity, before: RowFields, after: RowFields) {
    if IsDeviceEntity(entity) then StableDevice(before) != StableDevice(after) else before != after
  }

  function RowChange(entity: Entity, key: string, row: RowFields): Change {
    if Deleted(row) then Change(entity, Delete, key, Null)
    else Change(entity, Upsert, key, Obj(if IsDeviceEntity(entity) then DevicePayload(row) else row))
  }

  predicate ChangedKey(entity: Entity, before: map<string, RowFields>, after: map<string, RowFields>, k: string) {
    if k in after then k !in before || RowsDiffer(entity, before[k], after[k]) else k in before
  }

  function KeyChange(entity: Entity, after: map<string, RowFields>, k: string): Change {
    if k in after then RowChange(entity, k, after[k]) else Change(entity, Delete, k, Null)
  }

  /** The set of changes between two versions of a row list. */
  function DiffOf(entity: Entity, before: map<string, RowFields>, after: map<string, RowFields>): map<EntityKey, Change> {
    map k: string | k in before.Keys + after.Keys && ChangedKey(entity, before, after, k) ::
      (entity, k) := KeyChange(entity, after, k)
  }

  /** `cs` lists exactly the changes of `d`, each once, in some order. */
  ghost predicate Lists(cs: seq<Change>, d: map<EntityKey, Change>) {
    && (forall i :: 0 <= i < |cs| ==> cs[i].Id() in d && d[cs[i].Id()] == cs[i])
    && (forall i, j :: 0 <= i < j < |cs| ==> cs[i].Id() != cs[j].Id())
    && (forall id :: id in d ==> d[id] in cs)
  }

  // ------------------------------------------------- changes of one document

  function AsObject(v: Json): RowFields {
    if v.Obj? then v.fields else map[]
  }

  /** How many devices a list that may be missing names. */
  function Count(v: Json): nat {
    match v
    case List(items) => |items|
    case Str(s) => |s|
    case Obj(fields) => |fields|
    case _ => 0
  }

  function DeviceMetaOf(doc: Json): Json {
    var o := AsObject(doc);
    Obj(map[
      "onlineDeviceCount" := if "onlineDeviceCount" in o then o["onlineDeviceCount"] else Num(Count(Field(o, "online"))),
      "total" := if "total" in o then o["total"] else Num(0)])
  }

  function DeviceRows(cfg: Config, doc: Json, list: string): map<string, RowFields> {
    var items := Rows(Field(AsObject(doc), list));
    RowMap(cfg, items, |items|)
  }

  function EventRows(cfg: Config, doc: Json): map<string, RowFields> {
    RowMap(cfg, Rows(doc), |Rows(doc)|)
  }

  function MetaDiff(before: Json, after: Json): map<EntityKey, Change> {
    if DeviceMetaOf(before) != DeviceMetaOf(after) then
      map[(DeviceMeta, "devices") := Change(DeviceMeta, Replace, "devices", DeviceMetaOf(after))]
    else map[]
  }

  /** _changes_for_document, as a set of changes. */
  function DocumentDiff(cfg: Config, key: string, before: Json, after: Json): map<EntityKey, Change> {
    if key in NON_REVISION_DOCUMENTS then map[]
    else if key == "devices.json" then
      DiffOf(Device, DeviceRows(cfg, before, "watched"), DeviceRows(cfg, after, "watched"))
      + DiffOf(OnlineDevice, DeviceRows(cfg, before, "online"), DeviceRows(cfg, after, "online"))
      + MetaDiff(before, after)
    else if key == "events.json" then
      DiffOf(Event, EventRows(cfg, before), EventRows(cfg, after))
    else if key == "state.json" then
      if StableStatus(before, true) == StableStatus(after, true) then map[]
      else map[(Status, "status") := Change(Status, Replace, "status", StableStatus(after, true))]
    else map[(Document, key) := Change(Document, Replace, key, after)]
  }

  // --------------------------------------------------- what a client can see

  type Documents = map<string, Json>

  type Replica = imap<EntityKey, Json>

  function DocumentOf(docs: Documents, key: string): Json {
    if key in docs then docs[key] else Null
  }

  function LookupRow(rows: map<string, RowFields>, k: string): Option<Json> {
    if k in rows && !Deleted(rows[k]) then Some(Obj(rows[k])) else None
  }

  /** The server's current value of one entity; of a row list, the last row with the key. */
  function Lookup(cfg: Config, docs: Documents, id: EntityKey): Option<Json> {
    match id.0
    case System => None
    case Device => LookupRow(DeviceRows(cfg, DocumentOf(docs, "devices.json"), "watched"), id.1)
    case OnlineDevice => LookupRow(DeviceRows(cfg, DocumentOf(docs, "devices.json"), "online"), id.1)
    case DeviceMeta => if id.1 == "devices" then Some(DeviceMetaOf(DocumentOf(docs, "devices.json"))) else None
    case Event => LookupRow(EventRows(cfg, DocumentOf(docs, "events.json")), id.1)
    case Status => if id.1 == "status" then Some(DocumentOf(docs, "state.json")) else None
    case Document =>
      if id.1 in docs && id.1 !in NON_REVISION_DOCUMENTS && id.1 !in {"devices.json", "events.json", "state.json"}
      then Some(docs[id.1]) else None
  }

  ghost function View(cfg: Config, docs: Documents): Replica {
    imap id: EntityKey | Lookup(cfg, docs, id).Some? :: Lookup(cfg, docs, id).value
  }

  /** Forget volatile and stripped fields, and of the device counts what no snapshot shows. */
  function Project(e: Entity, v: Json): Json {
    if IsDeviceEntity(e) && v.Obj? then Obj(StableDevice(DevicePayload(v.fields)))
    else if e == DeviceMeta && v.Obj? then Obj(map k | k in v.fields && k == "onlineDeviceCount" :: v.fields[k])
    else if e == Status then StableStatus(v, true)
    else v
  }

  /** Whole documents are logged, but a snapshot does not hand them out. */
  predicate InSnapshots(e: Entity) {
    e != Document && e != System
  }

  /** What a replica says about the entities a snapshot hands out. */
  ghost function Normal(r: Replica): Replica {
    imap id | id in r && InSnapshots(id.0) :: Project(id.0, r[id])
  }

  ghost function Apply(r: Replica, c: Change): Replica {
    match c.operation
    case Baseline => r
    case Delete => r - {c.Id()}
    case _ => r[c.Id() := c.payload]
  }

  ghost function ReplayChanges(r: Replica, cs: seq<Change>): Replica {
    if cs == [] then r else Apply(ReplayChanges(r, cs[..|cs| - 1]), cs[|cs| - 1])
  }

  // ---------------------------------------------------------- diff and replay

  /** Replay in any order leaves each entity with its one change, or untouched. */
  lemma ApplyPointwise(r: Replica, c: Change, id: EntityKey)
    ensures c.Id() != id || c.operation == Baseline ==>
              (id in Apply(r, c) <==> id in r) && (id in r ==> Apply(r, c)[id] == r[id])
    ensures c.Id() == id && c.operation != Baseline ==>
              (id in Apply(r, c) <==> c.operation != Delete) && (c.operation != Delete ==> Apply(r, c)[id] == c.payload)
  {
  }

  lemma {:induction false} ReplayPointwise(r: Replica, cs: seq<Change>, id: EntityKey)
    requires forall i, j :: 0 <= i < j < |cs| ==> cs[i].Id() != cs[j].Id()
    ensures (forall i :: 0 <= i < |cs| ==> cs[i].Id() != id) ==>
              (id in ReplayChanges(r, cs) <==> id in r) && (id in r ==> ReplayChanges(r, cs)[id] == r[id])
    ensures forall i :: 0 <= i < |cs| && cs[i].Id() == id && cs[i].operation != Baseline ==>
              (id in ReplayChanges(r, cs) <==> cs[i].operation != Delete)
              && (cs[i].operation != Delete ==> ReplayChanges(r, cs)[id] == cs[i].payload)
  {
    hide Apply;
    if cs != [] {
      var init, c := cs[..|cs| - 1], cs[|cs| - 1];
      ReplayPointwise(r, init, id);
      assert ReplayChanges(r, cs) == Apply(ReplayChanges(r, init), c);
      ApplyPointwise(ReplayChanges(r, init), c, id);
    }
  }

  /** Two replicas say the same of one entity. */
  ghost predicate AgreesAt(r: Replica, v: Replica, id: EntityKey) {
    (id in r <==> id in v) && (id in r && id in v ==> Project(id.0, r[id]) == Project(id.0, v[id]))
  }

  predicate Concerns(c: Change, id: EntityKey) {
    c.Id() == id && c.operation != Baseline
  }

  ghost predicate SomeConcerns(cs: seq<Change>, id: EntityKey) {
    exists i :: 0 <= i < |cs| && Concerns(cs[i], id)
  }

  /** After the same changes two replicas agree on an entity if and only if they did
      before or some change concerns it. */
  lemma {:induction false} ReplayAgreesIff(r: Replica, v: Replica, cs: seq<Change>, id: EntityKey)
    ensures AgreesAt(ReplayChanges(r, cs), ReplayChanges(v, cs), id) <==> AgreesAt(r, v, id) || SomeConcerns(cs, id)
  {
    hide Apply, Project;
    if cs != [] {
      var init, c := cs[..|cs| - 1], cs[|cs| - 1];
      ReplayAgreesIff(r, v, init, id);
      ApplyPointwise(ReplayChanges(r, init), c, id);
      ApplyPointwise(ReplayChanges(v, init), c, id);
      SomeConcernsSnoc(init, c, id);
      assert cs == init + [c];
    }
  }

  lemma SomeConcernsSnoc(init: seq<Change>, c: Change, id: EntityKey)
    ensures SomeConcerns(init + [c], id) <==> SomeConcerns(init, id) || Concerns(c, id)
  {
    var cs := init + [c];
    if SomeConcerns(init, id) {
      var i :| 0 <= i < |init| && Concerns(init[i], id);
      assert cs[i] == init[i];
    }
    assert cs[|init|] == c;
  }

  lemma {:induction false} UnconcernedStays(r: Replica, cs: seq<Change>, id: EntityKey)
    requires !SomeConcerns(cs, id)
    ensures AgreesAt(ReplayChanges(r, cs), r, id)
  {
    hide Apply, Project;
    if cs != [] {
      var init, c := cs[..|cs| - 1], cs[|cs| - 1];
      SomeConcernsSnoc(init, c, id);
      assert cs == init + [c];
      UnconcernedStays(r, init, id);
      ApplyPointwise(ReplayChanges(r, init), c, id);
    }
  }

  lemma NormalIffAgrees(r: Replica, v: Replica)
    ensures Normal(r) == Normal(v) <==> forall id: EntityKey :: InSnapshots(id.0) ==> AgreesAt(r, v, id)
  {
    hide Project;
    if Normal(r) == Normal(v) {
      forall id: EntityKey | InSnapshots(id.0) ensures AgreesAt(r, v, id) {
        assert id in Normal(r) <==> id in Normal(v);
        if id in r {
          assert Normal(r)[id] == Normal(v)[id];
        }
      }
    }
    if forall id: EntityKey :: InSnapshots(id.0) ==> AgreesAt(r, v, id) {
      NormalPointwise(r, v);
    }
  }

  lemma NormalPointwise(r: Replica, v: Replica)
    requires forall id: EntityKey :: InSnapshots(id.0) ==> AgreesAt(r, v, id)
    ensures Normal(r) == Normal(v)
  {
    hide Project;
    assert Normal(r).Keys == Normal(v).Keys;
  }

  lemma {:induction false} ReplayConcat(r: Replica, a: seq<Change>, b: seq<Change>)
    ensures ReplayChanges(r, a + b) == ReplayChanges(ReplayChanges(r, a), b)
  {
    if b == [] {
      assert a + b == a;
    } else {
      assert (a + b)[..|a + b| - 1] == a + b[..|b| - 1];
      ReplayConcat(r, a, b[..|b| - 1]);
    }
  }

  lemma LiveRowUnchanged(entity: Entity, before: RowFields, after: RowFields)
    requires !RowsDiffer(entity, before, after)
    ensures Deleted(before) == Deleted(after)
    ensures Project(entity, Obj(before)) == Project(entity, Obj(after))
  {
    if IsDeviceEntity(entity) {
      assert Lower("deleted")[|"deleted"| - 5..] == "leted";
      assert Lower("deleted")[..4] == "dele";
      assert !VolatileDeviceKey("deleted");
      assert "deleted" in before <==> "deleted" in StableDevice(before);
      assert "deleted" in after <==> "deleted" in StableDevice(after);
      DeviceProjectionsCommute(before);
      DeviceProjectionsCommute(after);
    }
  }

  /** The client's rows of one entity are `rows`, up to the projected-away fields. */
  ghost predicate Holds(r: Replica, entity: Entity, rows: map<string, RowFields>) {
    forall k: string ::
      && ((entity, k) in r <==> LookupRow(rows, k).Some?)
      && ((entity, k) in r ==> Project(entity, r[(entity, k)]) == Project(entity, LookupRow(rows, k).value))
  }

  /** Diff and replay: whichever order the changes are listed in, replaying them takes a
      client that holds the live rows of `before` to the live rows of `after`, and
      leaves every other entity alone. For device rows this is up to volatile and
      bulky fields, for the others exact. */
  lemma DiffThenReplay(entity: Entity, before: map<string, RowFields>, after: map<string, RowFields>,
                       r: Replica, cs: seq<Change>)
    requires Lists(cs, DiffOf(entity, before, after))
    requires Holds(r, entity, before)
    ensures Holds(ReplayChanges(r, cs), entity, after)
    ensures forall id: EntityKey :: id.0 != entity ==>
              (id in ReplayChanges(r, cs) <==> id in r) && (id in r ==> ReplayChanges(r, cs)[id] == r[id])
  {
    forall k: string
      ensures (entity, k) in ReplayChanges(r, cs) <==> LookupRow(after, k).Some?
      ensures (entity, k) in ReplayChanges(r, cs) ==>
                Project(entity, ReplayChanges(r, cs)[(entity, k)]) == Project(entity, LookupRow(after, k).value)
    {
      ReplayOneRow(entity, before, after, r, cs, k);
    }
    forall id: EntityKey | id.0 != entity
      ensures (id in ReplayChanges(r, cs) <==> id in r) && (id in r ==> ReplayChanges(r, cs)[id] == r[id])
    {
      ReplayPointwise(r, cs, id);
    }
  }

  lemma ReplayOneRow(entity: Entity, before: map<string, RowFields>, after: map<string, RowFields>,
                     r: Replica, cs: seq<Change>, k: string)
    requires forall i, j :: 0 <= i < j < |cs| ==> cs[i].Id() != cs[j].Id()
    requires var d := DiffOf(entity, before, after); var id := (entity, k);
             && (id in d ==> d[id] in cs)
             && (id !in d ==> forall i :: 0 <= i < |cs| ==> cs[i].Id() != id)
    requires (entity, k) in r <==> LookupRow(before, k).Some?
    requires (entity, k) in r ==> Project(entity, r[(entity, k)]) == Project(entity, LookupRow(before, k).value)
    ensures (entity, k) in ReplayChanges(r, cs) <==> LookupRow(after, k).Some?
    ensures (entity, k) in ReplayChanges(r, cs) ==>
              Project(entity, ReplayChanges(r, cs)[(entity, k)]) == Project(entity, LookupRow(after, k).value)
  {
    hide ReplayChanges;
    var id := (entity, k);
    var d := DiffOf(entity, before, after);
    ReplayPointwise(r, cs, id);
    if id in d {
      var i :| 0 <= i < |cs| && cs[i] == d[id];
      assert cs[i] == KeyChange(entity, after, k);
      if k in after {
        DeviceProjectionsCommute(after[k]);
      }
    } else if k in after {
      assert !ChangedKey(entity, before, after, k);
      LiveRowUnchanged(entity, before[k], after[k]);
    }
  }

  /** The changes of a saved document bring any client that agreed with the
      documents before the save into agreement with the documents after it. */
  lemma DocumentReplay(cfg: Config, docs: Documents, key: string, value: Json, r: Replica, cs: seq<Change>)
    requires Lists(cs, DocumentDiff(cfg, key, DocumentOf(docs, key), value))
    requires Normal(r) == Normal(View(cfg, docs))
    ensures Normal(ReplayChanges(r, cs)) == Normal(View(cfg, docs[key := value]))
  {
    hide DocumentDiff, Lookup, Project, Lists, ReplayChanges;
    var docs' := docs[key := value];
    var r' := ReplayChanges(r, cs);
    forall id: EntityKey | InSnapshots(id.0)
      ensures id in r' <==> Lookup(cfg, docs', id).Some?
      ensures id in r' ==> Project(id.0, r'[id]) == Project(id.0, Lookup(cfg, docs', id).value)
    {
      assert id in r <==> id in Normal(r);
      assert id in View(cfg, docs) <==> id in Normal(View(cfg, docs));
      if id in r {
        assert Normal(r)[id] == Project(id.0, r[id]);
        assert Normal(View(cfg, docs))[id] == Project(id.0, View(cfg, docs)[id]);
      }
      DocumentReplayAt(cfg, docs, key, value, r, cs, id);
    }
    forall id
      ensures id in Normal(r') <==> id in Normal(View(cfg, docs'))
      ensures id in Normal(r') ==> Normal(r')[id] == Normal(View(cfg, docs'))[id]
    {
      assert InSnapshots(id.0) ==> (id in r' <==> id in View(cfg, docs'));
    }
  }

  lemma DocumentReplayAt(cfg: Config, docs: Documents, key: string, value: Json, r: Replica, cs: seq<Change>, id: EntityKey)
    requires Lists(cs, DocumentDiff(cfg, key, DocumentOf(docs, key), value))
    requires id in r <==> Lookup(cfg, docs, id).Some?
    requires id in r ==> Project(id.0, r[id]) == Project(id.0, Lookup(cfg, docs, id).value)
    ensures id in ReplayChanges(r, cs) <==> Lookup(cfg, docs[key := value], id).Some?
    ensures id in ReplayChanges(r, cs) ==>
              Project(id.0, ReplayChanges(r, cs)[id]) == Project(id.0, Lookup(cfg, docs[key := value], id).value)
  {
    hide DocumentDiff, Lookup, LookupRow, DiffOf, Project, EventRows, DeviceRows;
    var before := DocumentOf(docs, key);
    if (key == "devices.json" && IsDeviceEntity(id.0)) || (key == "events.json" && id.0 == Event) {
      RowDocumentAt(cfg, docs, key, value, id);
      var list := if id.0 == Device then "watched" else "online";
      var rowsBefore := if id.0 == Event then EventRows(cfg, before) else DeviceRows(cfg, before, list);
      var rowsAfter := if id.0 == Event then EventRows(cfg, value) else DeviceRows(cfg, value, list);
      ReplayOneRow(id.0, rowsBefore, rowsAfter, r, cs, id.1);
    } else {
      SingleReplayAt(cfg, docs, key, value, r, cs, id);
    }
  }

  lemma SingleReplayAt(cfg: Config, docs: Documents, key: string, value: Json, r: Replica, cs: seq<Change>, id: EntityKey)
    requires !((key == "devices.json" && IsDeviceEntity(id.0)) || (key == "events.json" && id.0 == Event))
    requires Lists(cs, DocumentDiff(cfg, key, DocumentOf(docs, key), value))
    requires id in r <==> Lookup(cfg, docs, id).Some?
    requires id in r ==> Project(id.0, r[id]) == Project(id.0, Lookup(cfg, docs, id).value)
    ensures id in ReplayChanges(r, cs) <==> Lookup(cfg, docs[key := value], id).Some?
    ensures id in ReplayChanges(r, cs) ==>
              Project(id.0, ReplayChanges(r, cs)[id]) == Project(id.0, Lookup(cfg, docs[key := value], id).value)
  {
    hide DocumentDiff, Lookup, Project, ReplayChanges;
    ReplayPointwise(r, cs, id);
    SingleDocumentAt(cfg, docs, key, value, id);
    var d := DocumentDiff(cfg, key, DocumentOf(docs, key), value);
    if id in d {
      var i :| 0 <= i < |cs| && cs[i] == d[id];
    }
  }

  /** The row-wise documents: the diff and both views of one row. */
  lemma RowDocumentAt(cfg: Config, docs: Documents, key: string, value: Json, id: EntityKey)
    requires (key == "devices.json" && IsDeviceEntity(id.0)) || (key == "events.json" && id.0 == Event)
    ensures var list := if id.0 == Device then "watched" else "online";
            var before := DocumentOf(docs, key);
            var rowsBefore := if id.0 == Event then EventRows(cfg, before) else DeviceRows(cfg, before, list);
            var rowsAfter := if id.0 == Event then EventRows(cfg, value) else DeviceRows(cfg, value, list);
            var d := DocumentDiff(cfg, key, before, value);
            var part := DiffOf(id.0, rowsBefore, rowsAfter);
            && (id in d <==> id in part) && (id in d ==> d[id] == part[id])
            && Lookup(cfg, docs, id) == LookupRow(rowsBefore, id.1)
            && Lookup(cfg, docs[key := value], id) == LookupRow(rowsAfter, id.1)
  {
    hide DeviceRows, EventRows, StableStatus, StableDevice, DevicePayload;
    SpecialKeysAreRevisioned();
  }

  lemma SpecialKeysAreRevisioned()
    ensures "devices.json" !in NON_REVISION_DOCUMENTS
    ensures "events.json" !in NON_REVISION_DOCUMENTS
    ensures "state.json" !in NON_REVISION_DOCUMENTS
  {
    assert forall n :: n in NON_REVISION_DOCUMENTS ==> |n| > 12 || n[0] == 'g';
  }

  /** The entities a document holds. */
  predicate Owns(key: string, id: EntityKey) {
    if key == "devices.json" then IsDeviceEntity(id.0) || id == (DeviceMeta, "devices")
    else if key == "events.json" then id.0 == Event
    else if key == "state.json" then id == (Status, "status")
    else id == (Document, key)
  }

  lemma LookupOfOthers(cfg: Config, docs: Documents, key: string, value: Json, id: EntityKey)
    requires !Owns(key, id)
    ensures Lookup(cfg, docs[key := value], id) == Lookup(cfg, docs, id)
  {
    var docs' := docs[key := value];
    match id.0
    case Document =>
    case Device => assert DocumentOf(docs', "devices.json") == DocumentOf(docs, "devices.json");
    case OnlineDevice => assert DocumentOf(docs', "devices.json") == DocumentOf(docs, "devices.json");
    case DeviceMeta =>
    case Event => assert DocumentOf(docs', "events.json") == DocumentOf(docs, "events.json");
    case Status =>
    case System =>
  }

  lemma DiffIsOwned(cfg: Config, key: string, before: Json, after: Json, id: EntityKey)
    requires id in DocumentDiff(cfg, key, before, after)
    ensures Owns(key, id)
  {
  }

  /** The entity either has its one replacing change or looks as it did. */
  ghost predicate ReplacedOrSame(cfg: Config, docs: Documents, key: string, value: Json, id: EntityKey) {
    var d := DocumentDiff(cfg, key, DocumentOf(docs, key), value);
    var was, now := Lookup(cfg, docs, id), Lookup(cfg, docs[key := value], id);
    && (id in d ==> d[id].Id() == id && d[id].operation == Replace)
    && (id in d ==> now.Some? && Project(id.0, d[id].payload) == Project(id.0, now.value))
    && (id !in d ==> (was.Some? <==> now.Some?) && (was.Some? ==> Project(id.0, was.value) == Project(id.0, now.value)))
  }

  /** Everything that is no row of a list. */
  lemma SingleDocumentAt(cfg: Config, docs: Documents, key: string, value: Json, id: EntityKey)
    requires !((key == "devices.json" && IsDeviceEntity(id.0)) || (key == "events.json" && id.0 == Event))
    ensures ReplacedOrSame(cfg, docs, key, value, id)
  {
    if !Owns(key, id) {
      LookupOfOthers(cfg, docs, key, value, id);
      if id in DocumentDiff(cfg, key, DocumentOf(docs, key), value) {
        DiffIsOwned(cfg, key, DocumentOf(docs, key), value, id);
      }
    } else {
      OwnedSingleAt(cfg, docs, key, value, id);
    }
  }

  lemma OwnedSingleAt(cfg: Config, docs: Documents, key: string, value: Json, id: EntityKey)
    requires Owns(key, id) && !IsDeviceEntity(id.0) && id.0 != Event
    ensures ReplacedOrSame(cfg, docs, key, value, id)
  {
    hide ReplacedOrSame;
    match id.0
    case DeviceMeta => MetaAt(cfg, docs, value);
    case Status => StatusAt(cfg, docs, value);
    case Document => PlainDocumentAt(cfg, docs, key, value);
  }

  lemma MetaAt(cfg: Config, docs: Documents, value: Json)
    ensures ReplacedOrSame(cfg, docs, "devices.json", value, (DeviceMeta, "devices"))
  {
    hide DeviceRows, DiffOf;
    SpecialKeysAreRevisioned();
    var before, id := DocumentOf(docs, "devices.json"), (DeviceMeta, "devices");
    DiffOfEntity(Device, DeviceRows(cfg, before, "watched"), DeviceRows(cfg, value, "watched"), id);
    DiffOfEntity(OnlineDevice, DeviceRows(cfg, before, "online"), DeviceRows(cfg, value, "online"), id);
  }

  lemma DiffOfEntity(entity: Entity, before: map<string, RowFields>, after: map<string, RowFields>, id: EntityKey)
    requires id.0 != entity
    ensures id !in DiffOf(entity, before, after)
  {
  }

  lemma StatusAt(cfg: Config, docs: Documents, value: Json)
    ensures ReplacedOrSame(cfg, docs, "state.json", value, (Status, "status"))
  {
    SpecialKeysAreRevisioned();
    StableStatusIdempotent(value, true);
  }

  lemma PlainDocumentAt(cfg: Config, docs: Documents, key: string, value: Json)
    requires Owns(key, (Document, key))
    ensures ReplacedOrSame(cfg, docs, key, value, (Document, key))
  {
    hide DeviceRows, EventRows, DiffOf, MetaDiff, StableStatus, StableDevice, DevicePayload, DeviceMetaOf;
  }
}
