/** The full snapshot a client starts from: lists as lists, against the log's view of
    them by row key (hub.py build_sync_snapshot over labprobe_storage.py). */
module RevisionSnapshot {
  import opened Json
  import opened RevisionLog
  import opened Wrappers

  /** The parts of the reply that the log also reports. */
  datatype Shown = Shown(status: Json, onlineDeviceCount: Json, online: seq<Json>, watched: seq<Json>, events: seq<Json>)

  predicate IsListEntity(e: Entity) {
    IsDeviceEntity(e) || e == Event
  }

  /** The stored list behind an entity. */
  function ItemsOf(docs: Documents, e: Entity): seq<Json> {
    if e == Event then Rows(DocumentOf(docs, "events.json"))
    else Rows(Field(AsObject(DocumentOf(docs, "devices.json")), if e == Device then "watched" else "online"))
  }

  /** Events marked deleted are not shown; every device row is. */
  predicate IsShown(e: Entity, item: Json) {
    e == Event ==> item.Obj? && !Deleted(item.fields)
  }

  /** Positions of the shown rows among the first n, in order. */
  function ShownIndexes(e: Entity, items: seq<Json>, n: nat): (ix: seq<nat>)
    requires n <= |items|
    ensures forall j :: 0 <= j < |ix| ==> ix[j] < n && IsShown(e, items[ix[j]])
    ensures forall j, k :: 0 <= j < k < |ix| ==> ix[j] < ix[k]
    ensures forall i: nat :: i < n && IsShown(e, items[i]) ==> i in ix
  {
    if n == 0 then []
    else if IsShown(e, items[n - 1]) then ShownIndexes(e, items, n - 1) + [n - 1]
    else ShownIndexes(e, items, n - 1)
  }

  function ShownRows(e: Entity, items: seq<Json>): seq<Json> {
    var ix := ShownIndexes(e, items, |items|);
    seq(|ix|, j requires 0 <= j < |ix| => items[ix[j]])
  }

  /** build_sync_snapshot */
  function SnapshotOf(docs: Documents): Shown {
    Shown(DocumentOf(docs, "state.json"),
          DeviceMetaOf(DocumentOf(docs, "devices.json")).fields["onlineDeviceCount"],
          ShownRows(OnlineDevice, ItemsOf(docs, OnlineDevice)),
          ShownRows(Device, ItemsOf(docs, Device)),
          ShownRows(Event, ItemsOf(docs, Event)))
  }

  function ListOf(s: Shown, e: Entity): seq<Json> {
    if e == Event then s.events else if e == Device then s.watched else s.online
  }

  // ---------------------------------------------------------------- rows by key

  /** The last of the first n positions whose row has this key, -1 if there is none. */
  function LastIndex(cfg: Config, items: seq<Json>, n: nat, k: string): (i: int)
    requires n <= |items|
    ensures -1 <= i < n
    ensures i >= 0 ==> items[i].Obj? && cfg.keyOf(items[i].fields, i) == k
    ensures forall j: nat :: i < j < n && items[j].Obj? ==> cfg.keyOf(items[j].fields, j) != k
  {
    if n == 0 then -1
    else if items[n - 1].Obj? && cfg.keyOf(items[n - 1].fields, n - 1) == k then n - 1
    else LastIndex(cfg, items, n - 1, k)
  }

  lemma {:induction false} RowMapIsLast(cfg: Config, items: seq<Json>, n: nat, k: string)
    requires n <= |items|
    ensures var i := LastIndex(cfg, items, n, k); var m := RowMap(cfg, items, n);
            && (k in m <==> i >= 0) && (i >= 0 ==> m[k] == items[i].fields)
  {
    if n > 0 {
      RowMapIsLast(cfg, items, n - 1, k);
    }
  }

  /** The row is live and no later row has its key. */
  predicate IsLast(cfg: Config, items: seq<Json>, i: nat)
    requires i < |items|
  {
    && items[i].Obj? && !Deleted(items[i].fields)
    && LastIndex(cfg, items, |items|, cfg.keyOf(items[i].fields, i)) == i
  }

  /** Each shown row of the list is the one the log speaks of under its key. */
  ghost predicate EachLast(cfg: Config, e: Entity, items: seq<Json>) {
    forall i: nat :: i < |items| && IsShown(e, items[i]) ==> IsLast(cfg, items, i)
  }

  /** ... in all three lists. */
  ghost predicate WellKeyed(cfg: Config, docs: Documents) {
    forall e: Entity :: IsListEntity(e) ==> EachLast(cfg, e, ItemsOf(docs, e))
  }

  // ---------------------------------------------------- a client that keeps rows by key

  /** Its rows of one entity, in some order, are the rows of the list. */
  ghost predicate SameList(r: Replica, e: Entity, rows: seq<Json>) {
    exists keys: seq<string> :: Arranges(r, e, rows, keys)
  }

  ghost predicate Arranges(r: Replica, e: Entity, rows: seq<Json>, keys: seq<string>) {
    && |keys| == |rows|
    && (forall i, j :: 0 <= i < j < |keys| ==> keys[i] != keys[j])
    && (forall k: string :: (e, k) in r <==> k in keys)
    && (forall i :: 0 <= i < |keys| && (e, keys[i]) in r ==> Project(e, r[(e, keys[i])]) == Project(e, rows[i]))
  }

  ghost predicate ShowsTheSame(r: Replica, s: Shown) {
    && (forall e: Entity :: IsListEntity(e) ==> SameList(r, e, ListOf(s, e)))
    && (Status, "status") in r && Project(Status, r[(Status, "status")]) == Project(Status, s.status)
    && (DeviceMeta, "devices") in r
    && Project(DeviceMeta, r[(DeviceMeta, "devices")]) == Obj(map["onlineDeviceCount" := s.onlineDeviceCount])
  }

  function Values<T>(s: seq<T>): set<T> {
    set x | x in s
  }

  lemma {:induction false} DistinctCount<T>(s: seq<T>)
    requires forall i, j :: 0 <= i < j < |s| ==> s[i] != s[j]
    ensures |Values(s)| == |s|
  {
    if s != [] {
      var init := s[..|s| - 1];
      DistinctCount(init);
      assert Values(s) == Values(init) + {s[|s| - 1]};
    }
  }

  lemma SameSize<T>(a: set<T>, b: set<T>)
    requires a <= b && |a| == |b|
    ensures a == b
  {
    assert b == a + (b - a);
    assert |b - a| == 0;
  }

  /** As many distinct values as there are to take take them all. */
  lemma AllHit(some: seq<nat>, all: seq<nat>)
    requires |some| == |all| && forall j :: 0 <= j < |some| ==> some[j] in all
    requires forall i, j :: 0 <= i < j < |some| ==> some[i] != some[j]
    requires forall i, j :: 0 <= i < j < |all| ==> all[i] != all[j]
    ensures forall x :: x in all ==> x in some
  {
    var a, b := Values(some), Values(all);
    DistinctCount(some);
    DistinctCount(all);
    forall x | x in a ensures x in b {
      var j :| 0 <= j < |some| && some[j] == x;
    }
    SameSize(a, b);
    forall x | x in all ensures x in some {
      assert x in b && x in a;
    }
  }

  lemma ShownIsIndexed(e: Entity, items: seq<Json>, i: nat)
    requires i < |items| && IsShown(e, items[i])
    ensures i in ShownIndexes(e, items, |items|)
  {
  }

  lemma ShownDistinct(e: Entity, items: seq<Json>)
    ensures var ix := ShownIndexes(e, items, |items|); forall i, j :: 0 <= i < j < |ix| ==> ix[i] != ix[j]
  {
  }

  /** The client's keys in the order of the shown list. */
  function KeysOf(cfg: Config, e: Entity, items: seq<Json>): seq<string> {
    var ix := ShownIndexes(e, items, |items|);
    seq(|ix|, j requires 0 <= j < |ix| => if items[ix[j]].Obj? then cfg.keyOf(items[ix[j]].fields, ix[j]) else "")
  }

  lemma HeldIsLast(cfg: Config, e: Entity, items: seq<Json>, r: Replica, k: string)
    requires Holds(r, e, RowMap(cfg, items, |items|))
    ensures var i := LastIndex(cfg, items, |items|, k);
            && ((e, k) in r <==> i >= 0 && !Deleted(items[i].fields))
            && ((e, k) in r ==> IsShown(e, items[i]) && IsLast(cfg, items, i) && Project(e, r[(e, k)]) == Project(e, items[i]))
  {
    hide Project, RowMap;
    RowMapIsLast(cfg, items, |items|, k);
  }

  lemma EachLastArranges(cfg: Config, e: Entity, items: seq<Json>, r: Replica)
    requires Holds(r, e, RowMap(cfg, items, |items|)) && EachLast(cfg, e, items)
    ensures Arranges(r, e, ShownRows(e, items), KeysOf(cfg, e, items))
  {
    hide Holds, RowMap, Project, LastIndex, ShownIndexes;
    var ix, keys := ShownIndexes(e, items, |items|), KeysOf(cfg, e, items);
    forall j | 0 <= j < |ix| ensures LastIndex(cfg, items, |items|, keys[j]) == ix[j] && (e, keys[j]) in r
                                     && Project(e, r[(e, keys[j])]) == Project(e, items[ix[j]]) {
      assert IsLast(cfg, items, ix[j]);
      HeldIsLast(cfg, e, items, r, keys[j]);
    }
    forall k: string | (e, k) in r ensures k in keys {
      HeldIsLast(cfg, e, items, r, k);
      var i: nat := LastIndex(cfg, items, |items|, k);
      var j :| 0 <= j < |ix| && ix[j] == i;
      assert keys[j] == k;
    }
  }

  lemma ArrangesEachLast(cfg: Config, e: Entity, items: seq<Json>, r: Replica, keys: seq<string>)
    requires Holds(r, e, RowMap(cfg, items, |items|)) && Arranges(r, e, ShownRows(e, items), keys)
    ensures EachLast(cfg, e, items)
  {
    hide Holds, RowMap, Project, LastIndex, ShownIndexes, IsLast, IsShown;
    var ix := ShownIndexes(e, items, |items|);
    ShownDistinct(e, items);
    forall k | k in keys ensures LastIndex(cfg, items, |items|, k) >= 0 {
      HeldIsLast(cfg, e, items, r, k);
    }
    var last := seq(|keys|, j requires 0 <= j < |keys| => LastIndex(cfg, items, |items|, keys[j]) as nat);
    forall j | 0 <= j < |last| ensures last[j] in ix && IsLast(cfg, items, last[j]) {
      HeldIsLast(cfg, e, items, r, keys[j]);
      ShownIsIndexed(e, items, last[j]);
    }
    forall i, j | 0 <= i < j < |last| ensures last[i] != last[j] {
      assert keys[i] != keys[j];
      LastBounds(cfg, items, keys[i]);
      LastBounds(cfg, items, keys[j]);
    }
    AllHit(last, ix);
    forall i: nat | i < |items| && IsShown(e, items[i]) ensures IsLast(cfg, items, i) {
      assert i in ix by { ShownIsIndexed(e, items, i); }
      var j :| 0 <= j < |last| && last[j] == i;
    }
  }

  /** A client that agrees key by key shows the list itself if and only if every shown row
      is the last with its key: the log says nothing of the others. */
  lemma ListAgreesIff(cfg: Config, e: Entity, items: seq<Json>, r: Replica)
    requires Holds(r, e, RowMap(cfg, items, |items|))
    ensures SameList(r, e, ShownRows(e, items)) <==> EachLast(cfg, e, items)
  {
    hide Holds, RowMap, Arranges, EachLast, ShownRows;
    if EachLast(cfg, e, items) {
      EachLastArranges(cfg, e, items, r);
    }
    if SameList(r, e, ShownRows(e, items)) {
      var keys :| Arranges(r, e, ShownRows(e, items), keys);
      ArrangesEachLast(cfg, e, items, r, keys);
    }
  }

  /** The same for one list, whatever else the client holds. */
  lemma ListFollowsIff(cfg: Config, docs: Documents, r: Replica, e: Entity)
    requires IsListEntity(e) && forall k: string :: AgreesAt(r, View(cfg, docs), (e, k))
    ensures SameList(r, e, ListOf(SnapshotOf(docs), e)) <==> EachLast(cfg, e, ItemsOf(docs, e))
  {
    hide Project, RowMap, EachLast, SameList, ItemsOf, LookupRow, ShownRows;
    var items := ItemsOf(docs, e);
    var rows := RowMap(cfg, items, |items|);
    forall k: string
      ensures (e, k) in r <==> LookupRow(rows, k).Some?
      ensures (e, k) in r ==> Project(e, r[(e, k)]) == Project(e, LookupRow(rows, k).value)
    {
      LookupIsRow(cfg, docs, (e, k));
      assert AgreesAt(r, View(cfg, docs), (e, k));
    }
    ListAgreesIff(cfg, e, items, r);
  }

  lemma SinglesShown(cfg: Config, docs: Documents, r: Replica)
    requires AgreesAt(r, View(cfg, docs), (Status, "status")) && AgreesAt(r, View(cfg, docs), (DeviceMeta, "devices"))
    ensures var s := SnapshotOf(docs);
            && (Status, "status") in r && Project(Status, r[(Status, "status")]) == Project(Status, s.status)
            && (DeviceMeta, "devices") in r
            && Project(DeviceMeta, r[(DeviceMeta, "devices")]) == Obj(map["onlineDeviceCount" := s.onlineDeviceCount])
  {
    hide ShownRows, StableStatus, EventRows, DeviceRows, DeviceMetaOf, LookupRow, ItemsOf;
    assert View(cfg, docs)[(Status, "status")] == SnapshotOf(docs).status;
    assert View(cfg, docs)[(DeviceMeta, "devices")] == DeviceMetaOf(DocumentOf(docs, "devices.json"));
    MetaShown(docs);
  }

  lemma MetaShown(docs: Documents)
    ensures Project(DeviceMeta, DeviceMetaOf(DocumentOf(docs, "devices.json")))
         == Obj(map["onlineDeviceCount" := SnapshotOf(docs).onlineDeviceCount])
  {
    hide ShownRows;
    var m := DeviceMetaOf(DocumentOf(docs, "devices.json")).fields;
    assert (map k | k in m && k == "onlineDeviceCount" :: m[k]) == map["onlineDeviceCount" := m["onlineDeviceCount"]];
  }

  /** What a fresh snapshot would show is what the client shows, exactly for well-keyed lists. */
  lemma ShowsTheSameIff(cfg: Config, docs: Documents, r: Replica)
    requires forall id: EntityKey :: InSnapshots(id.0) ==> AgreesAt(r, View(cfg, docs), id)
    ensures ShowsTheSame(r, SnapshotOf(docs)) <==> WellKeyed(cfg, docs)
  {
    hide AgreesAt, View, Project, EachLast, SameList, ShownRows, ItemsOf;
    SinglesShown(cfg, docs, r);
    forall e: Entity | IsListEntity(e)
      ensures SameList(r, e, ListOf(SnapshotOf(docs), e)) <==> EachLast(cfg, e, ItemsOf(docs, e))
    {
      ListFollowsIff(cfg, docs, r, e);
    }
  }

  // ------------------------------------------------- keeping a snapshot by key

  /** The client's rows after a snapshot: the lists it received, keyed as the log keys them. */
  ghost function Keyed(cfg: Config, s: Shown): Replica {
    imap id: EntityKey | KeyedValue(cfg, s, id).Some? :: KeyedValue(cfg, s, id).value
  }

  function KeyedValue(cfg: Config, s: Shown, id: EntityKey): Option<Json> {
    if IsListEntity(id.0) then
      var rows := RowMap(cfg, ListOf(s, id.0), |ListOf(s, id.0)|);
      if id.1 in rows then Some(Obj(rows[id.1])) else None
    else if id == (Status, "status") then Some(s.status)
    else if id == (DeviceMeta, "devices") then Some(Obj(map["onlineDeviceCount" := s.onlineDeviceCount]))
    else None
  }

  /** The last shown row among the first n with this key. */
  function LastShown(cfg: Config, e: Entity, items: seq<Json>, n: nat, k: string): (i: int)
    requires n <= |items|
    ensures -1 <= i < n
    ensures i >= 0 ==> items[i].Obj? && IsShown(e, items[i]) && cfg.keyOf(items[i].fields, i) == k
    ensures forall j: nat :: i < j < n && items[j].Obj? && IsShown(e, items[j]) ==> cfg.keyOf(items[j].fields, j) != k
  {
    if n == 0 then -1
    else if items[n - 1].Obj? && IsShown(e, items[n - 1]) && cfg.keyOf(items[n - 1].fields, n - 1) == k then n - 1
    else LastShown(cfg, e, items, n - 1, k)
  }

  function ShownAmong(e: Entity, items: seq<Json>, n: nat): seq<Json>
    requires n <= |items|
  {
    var ix := ShownIndexes(e, items, n);
    seq(|ix|, j requires 0 <= j < |ix| => items[ix[j]])
  }

  /** Keys that do not depend on the position, as far as rows are left out of the list. */
  ghost predicate FixedKeys(cfg: Config, e: Entity, items: seq<Json>) {
    e == Event ==> forall i: nat, n: nat :: i < |items| && items[i].Obj? ==>
        cfg.keyOf(items[i].fields, n) == cfg.keyOf(items[i].fields, i)
  }

  lemma {:induction false} ShownPositions(e: Entity, items: seq<Json>, n: nat)
    requires n <= |items| && e != Event
    ensures |ShownIndexes(e, items, n)| == n
  {
    if n > 0 {
      ShownPositions(e, items, n - 1);
    }
  }

  lemma ShownAmongGrows(e: Entity, items: seq<Json>, n: nat)
    requires n < |items|
    ensures ShownAmong(e, items, n + 1)
         == if IsShown(e, items[n]) then ShownAmong(e, items, n) + [items[n]] else ShownAmong(e, items, n)
    ensures e != Event ==> |ShownAmong(e, items, n)| == n
  {
    if e != Event {
      ShownPositions(e, items, n);
    }
  }

  lemma RowMapSnoc(cfg: Config, items: seq<Json>, item: Json)
    ensures RowMap(cfg, items + [item], |items| + 1)
         == if item.Obj? then RowMap(cfg, items, |items|)[cfg.keyOf(item.fields, |items|) := item.fields]
             else RowMap(cfg, items, |items|)
  {
    RowMapPrefix(cfg, items, [item], |items|);
  }

  lemma {:induction false} ShownRowMap(cfg: Config, e: Entity, items: seq<Json>, n: nat, k: string)
    requires n <= |items| && FixedKeys(cfg, e, items)
    ensures var m := RowMap(cfg, ShownAmong(e, items, n), |ShownAmong(e, items, n)|); var i := LastShown(cfg, e, items, n, k);
            (k in m <==> i >= 0) && (i >= 0 ==> m[k] == items[i].fields)
  {
    hide ShownAmong, IsShown, RowMap;
    if n == 0 {
      NoneAmong(cfg, e, items);
    } else {
      ShownRowMap(cfg, e, items, n - 1, k);
      ShownAmongGrows(e, items, n - 1);
      var before := ShownAmong(e, items, n - 1);
      RowMapSnoc(cfg, before, items[n - 1]);
      assert items[n - 1].Obj? ==> cfg.keyOf(items[n - 1].fields, |before|) == cfg.keyOf(items[n - 1].fields, n - 1);
    }
  }

  lemma NoneAmong(cfg: Config, e: Entity, items: seq<Json>)
    ensures RowMap(cfg, ShownAmong(e, items, 0), |ShownAmong(e, items, 0)|) == map[]
  {
  }

  lemma {:induction false} RowMapPrefix(cfg: Config, items: seq<Json>, more: seq<Json>, n: nat)
    requires n <= |items|
    ensures RowMap(cfg, items + more, n) == RowMap(cfg, items, n)
  {
    if n > 0 {
      RowMapPrefix(cfg, items, more, n - 1);
    }
  }

  /** What the list shows under a key is what the log says under it. */
  ghost predicate KeyFits(cfg: Config, e: Entity, items: seq<Json>, k: string) {
    var shown := ShownRows(e, items);
    var i, j := LastIndex(cfg, items, |items|, k), LastIndex(cfg, shown, |shown|, k);
    if i >= 0 && !Deleted(items[i].fields) then j >= 0 && Project(e, shown[j]) == Project(e, items[i]) else j < 0
  }

  /** A client that keys the lists of a snapshot agrees with the log on one entity if and
      only if it is no list row, or the last row shown with the key is the last row with it. */
  lemma SnapshotAgreesAtIff(cfg: Config, docs: Documents, id: EntityKey)
    requires InSnapshots(id.0)
    ensures AgreesAt(Keyed(cfg, SnapshotOf(docs)), View(cfg, docs), id)
            <==> (IsListEntity(id.0) ==> KeyFits(cfg, id.0, ItemsOf(docs, id.0), id.1))
  {
    hide RowMap, ShownRows, StableStatus, ItemsOf, LookupRow, EventRows, DeviceRows, LastIndex, KeyFits;
    if IsListEntity(id.0) {
      RowAgreesIff(cfg, docs, id);
    } else if id == (DeviceMeta, "devices") {
      MetaShown(docs);
    }
  }

  lemma RowAgreesIff(cfg: Config, docs: Documents, id: EntityKey)
    requires IsListEntity(id.0)
    ensures AgreesAt(Keyed(cfg, SnapshotOf(docs)), View(cfg, docs), id) <==> KeyFits(cfg, id.0, ItemsOf(docs, id.0), id.1)
  {
    hide RowMap, ShownRows, ItemsOf, Project, LastIndex, Lookup;
    var items := ItemsOf(docs, id.0);
    var shown := ShownRows(id.0, items);
    LookupIsRow(cfg, docs, id);
    RowMapIsLast(cfg, items, |items|, id.1);
    RowMapIsLast(cfg, shown, |shown|, id.1);
    assert ListOf(SnapshotOf(docs), id.0) == shown;
  }

  /** A shown row with the key after which the last row with it is deleted. */
  predicate HiddenAt(cfg: Config, e: Entity, items: seq<Json>, k: string, i: nat)
    requires i < |items|
  {
    && items[i].Obj? && IsShown(e, items[i]) && cfg.keyOf(items[i].fields, i) == k
    && var last := LastIndex(cfg, items, |items|, k); last >= 0 ==> Deleted(items[last].fields)
  }

  ghost predicate NoneHiddenAt(cfg: Config, e: Entity, items: seq<Json>, k: string) {
    forall i: nat :: i < |items| ==> !HiddenAt(cfg, e, items, k, i)
  }

  /** Where keys do not depend on positions that is: no shown row with the key is followed
      by a deleted one with it. */
  lemma FixedKeyFitsIff(cfg: Config, e: Entity, items: seq<Json>, k: string)
    requires FixedKeys(cfg, e, items)
    ensures KeyFits(cfg, e, items, k) <==> NoneHiddenAt(cfg, e, items, k)
  {
    hide Project, ShownRows, FixedKeys;
    ShownLast(cfg, e, items, k);
    var i, j := LastIndex(cfg, items, |items|, k), LastShown(cfg, e, items, |items|, k);
    if j >= 0 {
      assert HiddenAt(cfg, e, items, k, j) <==> Deleted(items[i].fields);
    }
  }

  /** The last row of a key in the shown list is the last shown row of it in the stored one. */
  lemma ShownLast(cfg: Config, e: Entity, items: seq<Json>, k: string)
    requires FixedKeys(cfg, e, items)
    ensures var shown := ShownRows(e, items);
            var i, j := LastShown(cfg, e, items, |items|, k), LastIndex(cfg, shown, |shown|, k);
            (i >= 0 <==> j >= 0) && (i >= 0 ==> shown[j] == items[i])
  {
    hide RowMap, FixedKeys, LastIndex, LastShown;
    var shown := ShownRows(e, items);
    assert ShownAmong(e, items, |items|) == shown;
    ShownRowMap(cfg, e, items, |items|, k);
    RowMapIsLast(cfg, shown, |shown|, k);
  }

  /** A client that keys the lists of a snapshot agrees with the log altogether if and only
      if every key fits; where keys do not depend on positions, if and only if no shown row
      is followed by a deleted one with its key. */
  lemma SnapshotAgreesIff(cfg: Config, docs: Documents)
    ensures Normal(Keyed(cfg, SnapshotOf(docs))) == Normal(View(cfg, docs))
            <==> forall e: Entity, k: string :: IsListEntity(e) ==> KeyFits(cfg, e, ItemsOf(docs, e), k)
    ensures AllFixed(cfg, docs) ==> (Normal(Keyed(cfg, SnapshotOf(docs))) == Normal(View(cfg, docs)) <==> NoneHidden(cfg, docs))
  {
    hide Normal, Keyed, SnapshotOf, View, KeyFits, NoneHiddenAt, AgreesAt, ItemsOf, FixedKeys;
    var r, v := Keyed(cfg, SnapshotOf(docs)), View(cfg, docs);
    NormalIffAgrees(r, v);
    forall e: Entity, k: string | IsListEntity(e)
      ensures AgreesAt(r, v, (e, k)) <==> KeyFits(cfg, e, ItemsOf(docs, e), k)
    {
      SnapshotAgreesAtIff(cfg, docs, (e, k));
    }
    forall id: EntityKey | InSnapshots(id.0) && !IsListEntity(id.0) ensures AgreesAt(r, v, id) {
      SnapshotAgreesAtIff(cfg, docs, id);
    }
    assert Normal(r) == Normal(v) <==> forall e: Entity, k: string :: IsListEntity(e) ==> KeyFits(cfg, e, ItemsOf(docs, e), k);
    if AllFixed(cfg, docs) {
      AllFitIff(cfg, docs);
    }
  }

  ghost predicate AllFixed(cfg: Config, docs: Documents) {
    forall e: Entity :: IsListEntity(e) ==> FixedKeys(cfg, e, ItemsOf(docs, e))
  }

  ghost predicate NoneHidden(cfg: Config, docs: Documents) {
    forall e: Entity, k: string :: IsListEntity(e) ==> NoneHiddenAt(cfg, e, ItemsOf(docs, e), k)
  }

  lemma AllFitIff(cfg: Config, docs: Documents)
    requires AllFixed(cfg, docs)
    ensures (forall e: Entity, k: string :: IsListEntity(e) ==> KeyFits(cfg, e, ItemsOf(docs, e), k)) <==> NoneHidden(cfg, docs)
  {
    hide KeyFits, NoneHiddenAt, ItemsOf, FixedKeys;
    forall e: Entity, k: string | IsListEntity(e)
      ensures KeyFits(cfg, e, ItemsOf(docs, e), k) <==> NoneHiddenAt(cfg, e, ItemsOf(docs, e), k)
    {
      FixedKeyFitsIff(cfg, e, ItemsOf(docs, e), k);
    }
  }

  lemma LookupIsRow(cfg: Config, docs: Documents, id: EntityKey)
    requires IsListEntity(id.0)
    ensures Lookup(cfg, docs, id) == LookupRow(RowMap(cfg, ItemsOf(docs, id.0), |ItemsOf(docs, id.0)|), id.1)
  {
    hide RowMap;
  }

  // --------------------------------------------------------- deleting one event

  lemma {:induction false} SameLast(cfg: Config, a: seq<Json>, b: seq<Json>, n: nat, k: string)
    requires |a| == |b| && n <= |a|
    requires forall i: nat :: i < |a| ==>
             (a[i].Obj? <==> b[i].Obj?) && (a[i].Obj? ==> cfg.keyOf(a[i].fields, i) == cfg.keyOf(b[i].fields, i))
    ensures LastIndex(cfg, a, n, k) == LastIndex(cfg, b, n, k)
  {
    if n > 0 {
      SameLast(cfg, a, b, n - 1, k);
    }
  }

  /** Marking an event deleted is logged if and only if it is the last event with its key. */
  lemma EventDeletionLoggedIff(cfg: Config, items: seq<Json>, i: nat, marked: RowFields)
    requires i < |items| && items[i].Obj? && !Deleted(items[i].fields) && Deleted(marked)
    requires cfg.keyOf(marked, i) == cfg.keyOf(items[i].fields, i)
    ensures DocumentDiff(cfg, "events.json", List(items), List(items[i := Obj(marked)])) != map[]
            <==> LastIndex(cfg, items, |items|, cfg.keyOf(items[i].fields, i)) == i
  {
    hide RowMap, LastIndex;
    SpecialKeysAreRevisioned();
    var after := items[i := Obj(marked)];
    var was, now := RowMap(cfg, items, |items|), RowMap(cfg, after, |after|);
    var d := DiffOf(Event, was, now);
    var key := cfg.keyOf(items[i].fields, i);
    forall k: string
      ensures k in was <==> k in now
      ensures k in was ==> (was[k] != now[k] <==> LastIndex(cfg, items, |items|, k) == i)
    {
      RowMapIsLast(cfg, items, |items|, k);
      RowMapIsLast(cfg, after, |after|, k);
      SameLast(cfg, items, after, |items|, k);
      LastBounds(cfg, items, k);
    }
    LastBounds(cfg, items, key);
    RowMapIsLast(cfg, items, |items|, key);
    if LastIndex(cfg, items, |items|, key) == i {
      assert (Event, key) in d;
    } else if d != map[] {
      var id :| id in d;
      LastBounds(cfg, items, id.1);
    }
    assert DocumentDiff(cfg, "events.json", List(items), List(after)) == d;
  }

  lemma LastBounds(cfg: Config, items: seq<Json>, k: string)
    ensures var i := LastIndex(cfg, items, |items|, k);
            -1 <= i < |items| && (i >= 0 ==> items[i].Obj? && cfg.keyOf(items[i].fields, i) == k)
  {
  }
}
