/** Which changes of the stored documents are logged, field by field, and what a client then
    holds of them (labprobe_storage.py). */
module RevisionFields {
  import opened Json
  import opened RevisionLog
  import opened RevisionSnapshot
  import opened RevisionSync
  import opened Wrappers

  // -------------------------------------------------------------- device fields

  /** Fields that change with every sample. */
  predicate SampledField(f: string) {
    || f in {"raw", "rssi", "rxrate", "txrate", "channel", "activeTime", "activeTimeSec", "onlinetime",
             "onlineDurationText", "todayOnlineDurationSec", "todayOnlineDurationText", "todayOnlineDate",
             "lastSeenAt", "trafficUpdatedAt", "trafficDate", "trafficText", "flowUp", "flowDown", "flow_cnt",
             "up", "down", "dailyUp", "dailyDown", "todayUpload", "todayDownload", "totalUpload",
             "totalDownload", "dailyUpBytes", "dailyDownBytes", "upBytes", "downBytes", "todayTraffic",
             "realtimeTraffic", "awake", "psm"}
    || (|f| >= 5 && Lower(f[|f| - 5..]) == "bytes")
    || (|f| >= 4 && Lower(f[..4]) == "flow")
  }

  /** Diagnostics that are never put into a change. */
  predicate DiagnosticField(f: string) {
    f in {"raw", "rawData", "debug", "debugInfo", "ipv6Candidates", "ipv6Records", "packetSamples", "history",
          "samples", "scanResults"}
  }

  predicate LongText(v: Json) {
    v.Str? && |v.s| > 4096
  }

  predicate SameField(a: RowFields, b: RowFields, f: string) {
    (f in a <==> f in b) && (f in a && f in b ==> a[f] == b[f])
  }

  lemma SampledIsVolatile(f: string)
    ensures SampledField(f) <==> VolatileDeviceKey(f)
  {
    if |f| >= 5 {
      assert Lower(f)[|f| - 5..] == Lower(f[|f| - 5..]);
    }
    if |f| >= 4 {
      assert Lower(f)[..4] == Lower(f[..4]);
    }
  }

  /** Two versions of a device row are taken for different if and only if they differ in a
      field that is not sampled; of any other row, in any field. */
  ghost predicate RowChanged(e: Entity, a: RowFields, b: RowFields) {
    exists f: string :: (IsDeviceEntity(e) ==> !SampledField(f)) && !SameField(a, b, f)
  }

  lemma RowChangedIff(e: Entity, a: RowFields, b: RowFields)
    ensures RowChanged(e, a, b) <==> RowsDiffer(e, a, b)
  {
    hide SampledField, VolatileDeviceKey;
    if IsDeviceEntity(e) {
      var x, y := StableDevice(a), StableDevice(b);
      forall f: string ensures !SampledField(f) ==> (SameField(a, b, f) <==> SameField(x, y, f)) {
        SampledIsVolatile(f);
      }
      forall f: string ensures SampledField(f) ==> SameField(x, y, f) {
        SampledIsVolatile(f);
      }
      SameFieldsEqual(x, y);
    } else {
      SameFieldsEqual(a, b);
    }
  }

  lemma SameFieldsEqual(a: RowFields, b: RowFields)
    ensures a == b <==> forall f: string :: SameField(a, b, f)
  {
    if forall f: string :: SameField(a, b, f) {
      forall f: string ensures f in a <==> f in b {
        assert SameField(a, b, f);
      }
      forall f: string | f in a ensures a[f] == b[f] {
        assert SameField(a, b, f);
      }
      assert a == b;
    }
  }

  /** The last row of a list that has the key. */
  function LastRow(cfg: Config, items: seq<Json>, k: string): Option<RowFields> {
    var i := LastIndex(cfg, items, |items|, k);
    if i >= 0 then Some(items[i].fields) else None
  }

  /** The stored lists: watched and online devices, and events. */
  function Listed(doc: Json, e: Entity): seq<Json> {
    if e == Event then (if doc.List? then doc.items else [])
    else if !doc.Obj? then []
    else
      var list := Field(doc.fields, if e == Device then "watched" else "online");
      if list.List? then list.items else []
  }

  function Keeper(e: Entity): string {
    if e == Event then "events.json" else "devices.json"
  }

  lemma ListedIsItems(docs: Documents, e: Entity)
    requires IsListEntity(e)
    ensures Listed(DocumentOf(docs, Keeper(e)), e) == ItemsOf(docs, e)
  {
  }

  /** Between two versions of its document the row with this key appears, vanishes or changes. */
  ghost predicate KeyChanged(cfg: Config, e: Entity, before: Json, after: Json, k: string) {
    var a, b := LastRow(cfg, Listed(before, e), k), LastRow(cfg, Listed(after, e), k);
    a.Some? != b.Some? || (a.Some? && RowChanged(e, a.value, b.value))
  }

  /** A list row's change is logged if and only if the row with its key appears, vanishes or
      changes in a field that counts. */
  lemma ListChangeLoggedIff(cfg: Config, docs: Documents, value: Json, e: Entity, k: string)
    requires IsListEntity(e)
    ensures (e, k) in DocumentDiff(cfg, Keeper(e), DocumentOf(docs, Keeper(e)), value)
            <==> KeyChanged(cfg, e, DocumentOf(docs, Keeper(e)), value, k)
  {
    hide RowMap, RowChanged, RowsDiffer, LastRow, DocumentDiff, Lookup, KeyChange;
    var a, b := Listed(DocumentOf(docs, Keeper(e)), e), Listed(value, e);
    var rows, rows' := RowMap(cfg, a, |a|), RowMap(cfg, b, |b|);
    LastRowIs(cfg, a, k);
    LastRowIs(cfg, b, k);
    if k in rows && k in rows' {
      RowChangedIff(e, rows[k], rows'[k]);
    }
    ListDiffAt(cfg, docs, value, e, k);
  }

  lemma LastRowIs(cfg: Config, items: seq<Json>, k: string)
    ensures var rows := RowMap(cfg, items, |items|); LastRow(cfg, items, k) == if k in rows then Some(rows[k]) else None
  {
    hide RowMap, LastIndex;
    RowMapIsLast(cfg, items, |items|, k);
  }

  lemma ListDiffAt(cfg: Config, docs: Documents, value: Json, e: Entity, k: string)
    requires IsListEntity(e)
    ensures var a, b := Listed(DocumentOf(docs, Keeper(e)), e), Listed(value, e);
            (e, k) in DocumentDiff(cfg, Keeper(e), DocumentOf(docs, Keeper(e)), value)
            <==> ChangedKey(e, RowMap(cfg, a, |a|), RowMap(cfg, b, |b|), k)
  {
    hide RowMap, RowsDiffer, DocumentDiff, Lookup, KeyChange;
    RowDocumentAt(cfg, docs, Keeper(e), value, (e, k));
  }

  // -------------------------------------------------------------- status fields

  /** One step into a JSON value: to an element of a list or to the value under a key. */
  datatype Hop = At(i: nat) | Key(k: string)

  type Path = seq<Hop>

  function Reach(v: Json, p: Path): Option<Json>
    decreases |p|
  {
    if p == [] then Some(v)
    else
      match p[0]
      case At(i) => if v.List? && i < |v.items| then Reach(v.items[i], p[1..]) else None
      case Key(k) => if v.Obj? && k in v.fields then Reach(v.fields[k], p[1..]) else None
  }

  /** Times that move with every refresh. */
  predicate ClockField(k: string) {
    || k in {"updatedAt", "devicesUpdatedAt", "backgroundRefreshedAt", "routerLastCheckAt", "routerUpdatedAt",
             "lastSeenAt", "trafficUpdatedAt", "ipv6UpdatedAt", "receivedAt", "receivedEpoch"}
    || (|k| >= 9 && k[|k| - 9..] == "UpdatedAt")
    || (|k| >= 11 && k[|k| - 11..] == "RefreshedAt")
  }

  /** The path meets no such time, nor the device lists below the root. */
  predicate Clear(p: Path, root: bool)
    decreases |p|
  {
    p == []
    || (Clear(p[1..], false) && (p[0].Key? ==> !(root && p[0].k == "devices") && !ClockField(p[0].k)))
  }

  /** The same place in two values: absent from both, equal plain values, lists of one
      length, or two objects. */
  predicate Alike(a: Option<Json>, b: Option<Json>) {
    && (a.Some? <==> b.Some?)
    && (a.Some? && b.Some? ==>
          || (a.value.List? && b.value.List? && |a.value.items| == |b.value.items|)
          || (a.value.Obj? && b.value.Obj?)
          || (!a.value.List? && !a.value.Obj? && a.value == b.value))
  }

  lemma ClockIsVolatile(k: string)
    ensures ClockField(k) <==> VolatileStatusKey(k)
  {
  }

  lemma {:induction false} StableReach(v: Json, root: bool, p: Path)
    requires Clear(p, root)
    ensures Alike(Reach(StableStatus(v, root), p), Reach(v, p))
    decreases |p|
  {
    if p != [] {
      match p[0]
      case At(i) =>
        if v.List? && i < |v.items| {
          StableReach(v.items[i], false, p[1..]);
        }
      case Key(k) =>
        if v.Obj? && k in v.fields {
          StableReach(v.fields[k], false, p[1..]);
        }
    }
  }

  ghost predicate SameStatus(a: Json, b: Json, root: bool) {
    forall p: Path :: Clear(p, root) ==> Alike(Reach(a, p), Reach(b, p))
  }

  /** Two status values are taken for the same if and only if they are alike along every
      path that meets no refresh time and no device list. */
  lemma SameStatusIff(a: Json, b: Json, root: bool)
    ensures StableStatus(a, root) == StableStatus(b, root) <==> SameStatus(a, b, root)
  {
    if StableStatus(a, root) == StableStatus(b, root) {
      forall p: Path | Clear(p, root) ensures Alike(Reach(a, p), Reach(b, p)) {
        StableReach(a, root, p);
        StableReach(b, root, p);
      }
    }
    if SameStatus(a, b, root) {
      SameStatusStable(a, b, root);
    }
  }

  lemma SameBelow(a: Json, b: Json, root: bool, hop: Hop)
    requires SameStatus(a, b, root) && Clear([hop], root)
    ensures Reach(a, [hop]).Some? <==> Reach(b, [hop]).Some?
    ensures Reach(a, [hop]).Some? ==> SameStatus(Reach(a, [hop]).value, Reach(b, [hop]).value, false)
  {
    assert [hop][1..] == [];
    forall p: Path | Clear(p, false) && Reach(a, [hop]).Some?
      ensures Alike(Reach(Reach(a, [hop]).value, p), Reach(Reach(b, [hop]).value, p))
    {
      var q := [hop] + p;
      assert q[1..] == p && Clear(q, root);
      assert Alike(Reach(a, q), Reach(b, q));
      assert Alike(Reach(a, [hop]), Reach(b, [hop]));
    }
    assert Alike(Reach(a, [hop]), Reach(b, [hop]));
  }

  lemma {:induction false} SameStatusStable(a: Json, b: Json, root: bool)
    requires SameStatus(a, b, root)
    ensures StableStatus(a, root) == StableStatus(b, root)
    decreases a
  {
    hide SameStatus;
    SameRoot(a, b, root);
    match a
    case List(items) =>
      forall i: nat | i < |items| ensures StableStatus(items[i], false) == StableStatus(b.items[i], false) {
        ElementBelow(a, b, root, i);
        SameStatusStable(items[i], b.items[i], false);
      }
      assert StableStatus(a, root).items == StableStatus(b, root).items;
    case Obj(fields) =>
      forall k: string | !(root && k == "devices") && !VolatileStatusKey(k)
        ensures k in fields <==> k in b.fields
        ensures k in fields ==> StableStatus(fields[k], false) == StableStatus(b.fields[k], false)
      {
        FieldBelow(a, b, root, k);
        if k in fields {
          SameStatusStable(fields[k], b.fields[k], false);
        }
      }
      assert StableStatus(a, root).fields == StableStatus(b, root).fields;
    case _ =>
  }

  lemma SameRoot(a: Json, b: Json, root: bool)
    requires SameStatus(a, b, root)
    ensures Alike(Some(a), Some(b))
  {
    assert Clear([], root) && Reach(a, []) == Some(a) && Reach(b, []) == Some(b);
  }

  lemma ElementBelow(a: Json, b: Json, root: bool, i: nat)
    requires SameStatus(a, b, root) && a.List? && b.List? && i < |a.items| == |b.items|
    ensures SameStatus(a.items[i], b.items[i], false)
  {
    hide SameStatus;
    assert [At(i)][1..] == [];
    SameBelow(a, b, root, At(i));
  }

  lemma FieldBelow(a: Json, b: Json, root: bool, k: string)
    requires SameStatus(a, b, root) && a.Obj? && b.Obj? && !(root && k == "devices") && !VolatileStatusKey(k)
    ensures k in a.fields <==> k in b.fields
    ensures k in a.fields && k in b.fields ==> SameStatus(a.fields[k], b.fields[k], false)
  {
    hide SameStatus, ClockField, VolatileStatusKey;
    ClockIsVolatile(k);
    assert [Key(k)][1..] == [] && Clear([], false);
    SameBelow(a, b, root, Key(k));
  }

  /** A status change is logged if and only if the status differs along such a path. */
  lemma StatusChangeLoggedIff(cfg: Config, before: Json, after: Json)
    ensures (Status, "status") in DocumentDiff(cfg, "state.json", before, after) <==> !SameStatus(before, after, true)
  {
    SpecialKeysAreRevisioned();
    SameStatusIff(before, after, true);
  }

  // ---------------------------------------------------------- what a client holds

  /** The client holds a row: every field of a live one that is neither sampled nor
      diagnostic nor long text, and no other such field; of an event, the row itself. */
  ghost predicate HoldsRow(cfg: Config, docs: Documents, r: Replica, e: Entity, k: string) {
    var row := LastRow(cfg, Listed(DocumentOf(docs, Keeper(e)), e), k);
    if row.None? || Truthy(Field(row.value, "deleted")) then (e, k) !in r
    else
      && (e, k) in r && r[(e, k)].Obj?
      && (e == Event ==> r[(e, k)].fields == row.value)
      && (forall f: string :: !SampledField(f) && !DiagnosticField(f) ==> HoldsField(r[(e, k)].fields, row.value, f))
  }

  predicate HoldsField(held: RowFields, row: RowFields, f: string) {
    && (f in row && !LongText(row[f]) ==> f in held && held[f] == row[f])
    && (f in held && !LongText(held[f]) ==> f in row && held[f] == row[f])
  }

  ghost predicate HoldsStatus(docs: Documents, r: Replica) {
    (Status, "status") in r && SameStatus(r[(Status, "status")], DocumentOf(docs, "state.json"), true)
  }

  /** The number the document states, else the number of rows of its online list. */
  function OnlineCount(doc: Json): Json {
    var fields := if doc.Obj? then doc.fields else map[];
    if "onlineDeviceCount" in fields then fields["onlineDeviceCount"]
    else
      match Field(fields, "online")
      case List(items) => Num(|items|)
      case Str(s) => Num(|s|)
      case Obj(entries) => Num(|entries|)
      case _ => Num(0)
  }

  ghost predicate HoldsCount(docs: Documents, r: Replica) {
    var id: EntityKey := (DeviceMeta, "devices");
    && id in r && r[id].Obj? && "onlineDeviceCount" in r[id].fields
    && r[id].fields["onlineDeviceCount"] == OnlineCount(DocumentOf(docs, "devices.json"))
  }

  ghost predicate HoldsAt(cfg: Config, docs: Documents, r: Replica, id: EntityKey) {
    if IsListEntity(id.0) then HoldsRow(cfg, docs, r, id.0, id.1)
    else if id == (Status, "status") then HoldsStatus(docs, r)
    else if id == (DeviceMeta, "devices") then HoldsCount(docs, r)
    else id !in r
  }

  /** Agreeing with the documents on an entity is holding what they say of it. */
  lemma AgreesMeans(cfg: Config, docs: Documents, r: Replica, id: EntityKey)
    requires InSnapshots(id.0) && AgreesAt(r, View(cfg, docs), id)
    ensures HoldsAt(cfg, docs, r, id)
  {
    hide RowMap, HoldsRow, StableStatus, SameStatus, Project, LookupRow, DeviceMetaOf, LastIndex;
    if IsListEntity(id.0) {
      AgreesMeansRow(cfg, docs, r, id.0, id.1);
    } else if id == (Status, "status") {
      AgreesMeansStatus(cfg, docs, r);
    } else if id == (DeviceMeta, "devices") {
      AgreesMeansCount(cfg, docs, r);
    }
  }

  lemma AgreesMeansRow(cfg: Config, docs: Documents, r: Replica, e: Entity, k: string)
    requires IsListEntity(e) && AgreesAt(r, View(cfg, docs), (e, k))
    ensures HoldsRow(cfg, docs, r, e, k)
  {
    hide RowMap, LastIndex, Lookup, Project, Truthy, ItemsOf, Listed, HoldsField;
    var items := Listed(DocumentOf(docs, Keeper(e)), e);
    ListedIsItems(docs, e);
    LookupIsRow(cfg, docs, (e, k));
    RowMapIsLast(cfg, items, |items|, k);
    var row := LastRow(cfg, items, k);
    assert row.Some? && !Deleted(row.value) ==> View(cfg, docs)[(e, k)] == Obj(row.value);
    if row.Some? && !Deleted(row.value) {
      ProjectedHolds(e, r[(e, k)], row.value);
    }
  }

  lemma ProjectedHolds(e: Entity, v: Json, row: RowFields)
    requires IsListEntity(e) && Project(e, v) == Project(e, Obj(row))
    ensures v.Obj? && (e == Event ==> v.fields == row)
    ensures forall f: string :: !SampledField(f) && !DiagnosticField(f) ==> HoldsField(v.fields, row, f)
  {
    hide SampledField, VolatileDeviceKey;
    if IsDeviceEntity(e) {
      var a, b := StableDevice(DevicePayload(v.fields)), StableDevice(DevicePayload(row));
      assert a == b;
      forall f: string | !SampledField(f) && !DiagnosticField(f) ensures HoldsField(v.fields, row, f) {
        SampledIsVolatile(f);
        assert f in a <==> f in v.fields && !LongText(v.fields[f]);
        assert f in b <==> f in row && !LongText(row[f]);
      }
    }
  }

  lemma AgreesMeansStatus(cfg: Config, docs: Documents, r: Replica)
    requires AgreesAt(r, View(cfg, docs), (Status, "status"))
    ensures HoldsStatus(docs, r)
  {
    hide StableStatus, SameStatus, DeviceRows, EventRows;
    assert View(cfg, docs)[(Status, "status")] == DocumentOf(docs, "state.json");
    SameStatusIff(r[(Status, "status")], DocumentOf(docs, "state.json"), true);
  }

  lemma AgreesMeansCount(cfg: Config, docs: Documents, r: Replica)
    requires AgreesAt(r, View(cfg, docs), (DeviceMeta, "devices"))
    ensures HoldsCount(docs, r)
  {
    hide DeviceRows, EventRows;
    var id: EntityKey, meta := (DeviceMeta, "devices"), DeviceMetaOf(DocumentOf(docs, "devices.json"));
    assert View(cfg, docs)[id] == meta;
    CountProjected(meta.fields, r[id]);
  }

  lemma CountProjected(meta: RowFields, v: Json)
    requires "onlineDeviceCount" in meta && Project(DeviceMeta, v) == Project(DeviceMeta, Obj(meta))
    ensures v.Obj? && "onlineDeviceCount" in v.fields && v.fields["onlineDeviceCount"] == meta["onlineDeviceCount"]
  {
    var a := map k | k in meta && k == "onlineDeviceCount" :: meta[k];
    assert "onlineDeviceCount" in a;
    if v.Obj? {
      var b := map k | k in v.fields && k == "onlineDeviceCount" :: v.fields[k];
      assert a == b;
    }
  }

  // -------------------------------------------------- from a save to a client

  /** Saving this value changes what the documents say of the entity. */
  ghost predicate Changes(cfg: Config, docs: Documents, key: string, value: Json, id: EntityKey) {
    || (IsListEntity(id.0) && key == Keeper(id.0) && KeyChanged(cfg, id.0, DocumentOf(docs, key), value, id.1))
    || (id == (Status, "status") && key == "state.json" && !SameStatus(DocumentOf(docs, key), value, true))
    || (id == (DeviceMeta, "devices") && key == "devices.json"
        && OnlineCount(DocumentOf(docs, key)) != OnlineCount(value))
  }

  function TotalOf(doc: Json): Json {
    if doc.Obj? && "total" in doc.fields then doc.fields["total"] else Num(0)
  }

  /** A change of the device counts is logged if and only if the online count or the stated
      total differs. */
  lemma CountChangeLoggedIff(cfg: Config, before: Json, after: Json)
    ensures (DeviceMeta, "devices") in DocumentDiff(cfg, "devices.json", before, after)
            <==> OnlineCount(before) != OnlineCount(after) || TotalOf(before) != TotalOf(after)
  {
    hide DeviceRows, DiffOf, OnlineCount, TotalOf;
    SpecialKeysAreRevisioned();
    MetaIs(before);
    MetaIs(after);
    SameMeta(OnlineCount(before), TotalOf(before), OnlineCount(after), TotalOf(after));
    forall id | id in DiffOf(Device, DeviceRows(cfg, before, "watched"), DeviceRows(cfg, after, "watched"))
                || id in DiffOf(OnlineDevice, DeviceRows(cfg, before, "online"), DeviceRows(cfg, after, "online"))
      ensures id.0 != DeviceMeta
    {
      if id in DiffOf(Device, DeviceRows(cfg, before, "watched"), DeviceRows(cfg, after, "watched")) {
        DiffIsOf(Device, DeviceRows(cfg, before, "watched"), DeviceRows(cfg, after, "watched"), id);
      } else {
        DiffIsOf(OnlineDevice, DeviceRows(cfg, before, "online"), DeviceRows(cfg, after, "online"), id);
      }
    }
  }

  lemma MetaIs(doc: Json)
    ensures DeviceMetaOf(doc) == Obj(map["onlineDeviceCount" := OnlineCount(doc), "total" := TotalOf(doc)])
  {
  }

  lemma SameMeta(x: Json, y: Json, x': Json, y': Json)
    ensures Obj(map["onlineDeviceCount" := x, "total" := y]) == Obj(map["onlineDeviceCount" := x', "total" := y'])
            <==> x == x' && y == y'
  {
    var a, b := map["onlineDeviceCount" := x, "total" := y], map["onlineDeviceCount" := x', "total" := y'];
    assert a["onlineDeviceCount"] == x && a["total"] == y && b["onlineDeviceCount"] == x' && b["total"] == y';
  }

  lemma DiffIsOf(e: Entity, before: map<string, RowFields>, after: map<string, RowFields>, id: EntityKey)
    ensures id in DiffOf(e, before, after) ==> id.0 == e
  {
  }

  /** Documents that are not logged at all. */
  predicate Unlogged(key: string) {
    || key in {"device_archive.json", "portmap_history.json", "portmap_router_status.json", "portmap_commands.json"}
    || key in {"agent_status.json", "agent_update_commands.json", "daily_online.json", "geo_cache.json"}
    || key == "router_dashboard.json"
  }

  /** Every other document is logged as a whole. */
  lemma WholeDocumentLoggedIff(cfg: Config, key: string, before: Json, after: Json)
    requires key !in {"devices.json", "events.json", "state.json"}
    ensures DocumentDiff(cfg, key, before, after)
            == if Unlogged(key) then map[] else map[(Document, key) := Change(Document, Replace, key, after)]
  {
  }

  lemma ChangeIsLogged(cfg: Config, docs: Documents, key: string, value: Json, id: EntityKey)
    requires Changes(cfg, docs, key, value, id)
    ensures id in DocumentDiff(cfg, key, DocumentOf(docs, key), value)
  {
    hide KeyChanged, SameStatus, DocumentDiff, OnlineCount;
    if IsListEntity(id.0) {
      ListChangeLoggedIff(cfg, docs, value, id.0, id.1);
    } else if id == (Status, "status") {
      StatusChangeLoggedIff(cfg, DocumentOf(docs, key), value);
    } else {
      CountChangeLoggedIff(cfg, DocumentOf(docs, key), value);
    }
  }

  lemma DiffChange(cfg: Config, key: string, before: Json, after: Json, id: EntityKey)
    requires id in DocumentDiff(cfg, key, before, after)
    ensures Concerns(DocumentDiff(cfg, key, before, after)[id], id)
  {
    hide DiffOf, DeviceRows, EventRows, StableStatus, MetaDiff;
    var watched := DiffOf(Device, DeviceRows(cfg, before, "watched"), DeviceRows(cfg, after, "watched"));
    var online := DiffOf(OnlineDevice, DeviceRows(cfg, before, "online"), DeviceRows(cfg, after, "online"));
    ListDiffChange(Device, DeviceRows(cfg, before, "watched"), DeviceRows(cfg, after, "watched"), id);
    ListDiffChange(OnlineDevice, DeviceRows(cfg, before, "online"), DeviceRows(cfg, after, "online"), id);
    ListDiffChange(Event, EventRows(cfg, before), EventRows(cfg, after), id);
    MetaDiffChange(before, after, id);
    JoinedChange(watched, online, MetaDiff(before, after), id);
  }

  lemma MetaDiffChange(before: Json, after: Json, id: EntityKey)
    ensures id in MetaDiff(before, after) ==> Concerns(MetaDiff(before, after)[id], id)
  {
    hide DeviceMetaOf;
  }

  lemma JoinedChange(a: map<EntityKey, Change>, b: map<EntityKey, Change>, c: map<EntityKey, Change>, id: EntityKey)
    requires id in a ==> Concerns(a[id], id)
    requires id in b ==> Concerns(b[id], id)
    requires id in c ==> Concerns(c[id], id)
    ensures id in a + b + c ==> Concerns((a + b + c)[id], id)
  {
  }

  lemma ListDiffChange(e: Entity, before: map<string, RowFields>, after: map<string, RowFields>, id: EntityKey)
    ensures var d := DiffOf(e, before, after); id in d ==> Concerns(d[id], id)
  {
    hide RowsDiffer, DevicePayload, Deleted;
  }

  lemma SameDocument(cfg: Config, key: string, v: Json, id: EntityKey)
    requires id in DocumentDiff(cfg, key, v, v)
    ensures id.0 == Document
  {
    hide RowMap, StableStatus, DeviceMetaOf, StableDevice;
  }

  lemma NextGrows(cfg: Config, w: World, step: Step)
    ensures w.server.history <= Next(cfg, w, step).server.history
  {
    hide KeepRecent, KeepNewest, Keyed, SnapshotOf, Replay;
  }

  lemma {:induction false} HistoryGrows(cfg: Config, w: World, steps: seq<Step>, j: nat)
    requires j <= |steps|
    ensures Run(cfg, w, steps[..j]).server.history <= Run(cfg, w, steps).server.history
    decreases |steps|
  {
    hide Next;
    if j < |steps| {
      var init := steps[..|steps| - 1];
      assert init[..j] == steps[..j];
      HistoryGrows(cfg, w, init, j);
      NextGrows(cfg, Run(cfg, w, init), steps[|steps| - 1]);
    } else {
      assert steps[..j] == steps;
    }
  }

  /** The rows of a save concern what it changes. */
  lemma SaveConcerns(cfg: Config, w: World, step: Step, id: EntityKey)
    requires Possible(cfg, w, step) && step.Save? && Changes(cfg, w.server.docs, step.key, step.value, id)
    ensures var after := Next(cfg, w, step).server.history;
            exists i :: |w.server.history| <= i < |after| && Concerns(after[i].change, id)
  {
    hide DocumentDiff, KeepRecent, KeepNewest, Changes;
    var before := DocumentOf(w.server.docs, step.key);
    var diff := SaveDiff(cfg, w.server, step.key, step.value);
    ChangeIsLogged(cfg, w.server.docs, step.key, step.value, id);
    ChangesWhat(cfg, w.server.docs, step.key, step.value, id);
    if Unchanged(w.server, step.key, step.value) {
      SameDocument(cfg, step.key, step.value, id);
    }
    DiffChange(cfg, step.key, before, step.value, id);
    var i :| 0 <= i < |step.cs| && step.cs[i] == diff[id];
    var after := Next(cfg, w, step).server.history;
    assert after == w.server.history + Number(step.cs, w.server.issued, step.clock.now);
    assert after[|w.server.history| + i].change == step.cs[i];
  }

  lemma ChangesWhat(cfg: Config, docs: Documents, key: string, value: Json, id: EntityKey)
    requires Changes(cfg, docs, key, value, id)
    ensures id.0 != Document && InSnapshots(id.0)
  {
  }

  /** What a save changes reaches the clients. After any run, a client whose last snapshot
      was not taken since and that is told there is no more holds what the documents now say
      of every entity the save changed. */
  lemma SavedChangeReachesClient(cfg: Config, docs: Documents, clock: Clock, steps: seq<Step>, j: nat, limit: int, id: EntityKey)
    requires ValidRun(cfg, Init(cfg, docs, clock), steps) && j < |steps| && steps[j].Save?
    ensures var w0 := Init(cfg, docs, clock);
            var saved, w := Run(cfg, w0, steps[..j]), Run(cfg, w0, steps);
            var reply := ChangesSince(w.server.log, w.client.position, limit);
            && !reply.fullRequired && !reply.hasMore && (w.client.position >= 1 || reply.revision > 0)
            && Changes(cfg, saved.server.docs, steps[j].key, steps[j].value, id)
            && w.client.taken <= |saved.server.history|
            ==> HoldsAt(cfg, w.server.docs, Receive(w.client, reply).replica, id)
  {
    hide Init, Run, ValidRun, Next, Changes, HoldsAt, ChangesSince, Receive, Possible;
    var w0 := Init(cfg, docs, clock);
    var before, w := Run(cfg, w0, steps[..j]), Run(cfg, w0, steps);
    var reply := ChangesSince(w.server.log, w.client.position, limit);
    if !reply.fullRequired && !reply.hasMore && (w.client.position >= 1 || reply.revision > 0)
       && Changes(cfg, before.server.docs, steps[j].key, steps[j].value, id) && w.client.taken <= |before.server.history| {
      SyncIsComplete(cfg, docs, clock, steps, limit);
      ChangesWhat(cfg, before.server.docs, steps[j].key, steps[j].value, id);
      LaterFollows(cfg, w0, steps, j, id);
      AgreesMeans(cfg, w.server.docs, Receive(w.client, reply).replica, id);
    }
  }

  lemma LaterFollows(cfg: Config, w0: World, steps: seq<Step>, j: nat, id: EntityKey)
    requires ValidRun(cfg, w0, steps) && j < |steps| && steps[j].Save?
    requires var before := Run(cfg, w0, steps[..j]);
             && Changes(cfg, before.server.docs, steps[j].key, steps[j].value, id)
             && Run(cfg, w0, steps).client.taken <= |before.server.history|
             && Run(cfg, w0, steps).client.taken <= |Run(cfg, w0, steps).server.history|
    ensures Follows(cfg, Run(cfg, w0, steps), id)
  {
    hide Next, Changes, Possible, AgreesAt, Keyed, SnapshotOf, View, SomeConcerns, Concerns;
    var before, after, w := Run(cfg, w0, steps[..j]), Run(cfg, w0, steps[..j + 1]), Run(cfg, w0, steps);
    assert Enabled(cfg, before, steps[j]);
    assert steps[..j + 1][..j] == steps[..j];
    SaveConcerns(cfg, before, steps[j], id);
    HistoryGrows(cfg, w0, steps, j + 1);
    var i :| |before.server.history| <= i < |after.server.history| && Concerns(after.server.history[i].change, id);
    assert w.server.history[i] == after.server.history[i];
    ConcernsSince(w.server.history, w.client.taken, i, id);
  }

  lemma ConcernsSince(history: seq<Row>, taken: nat, i: nat, id: EntityKey)
    requires taken <= i < |history| && Concerns(history[i].change, id)
    ensures SomeConcerns(ChangesOf(history[taken..]), id)
  {
    assert history[taken..][i - taken] == history[i];
    assert Concerns(ChangesOf(history[taken..])[i - taken], id);
  }
}
