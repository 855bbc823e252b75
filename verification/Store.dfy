/** SQLiteStore: the imperative store, method by method, against the log's specification. */
module Store {
  import opened Json
  import opened RevisionLog
  import RevisionSync

  lemma ListsConcat(a: seq<Change>, da: map<EntityKey, Change>, b: seq<Change>, db: map<EntityKey, Change>)
    requires Lists(a, da) && Lists(b, db) && da.Keys !! db.Keys
    ensures Lists(a + b, da + db)
  {
    forall id | id in da + db ensures (da + db)[id] in a + b {
      if id in db {
        assert db[id] in b;
      } else {
        assert da[id] in a;
      }
    }
  }

  /** Goes through a list from the front and keeps, under each key, the row met last. */
  method CollectRows(cfg: Config, items: seq<Json>) returns (rows: map<string, RowFields>)
    ensures rows == RowMap(cfg, items, |items|)
  {
    rows := map[];
    for i := 0 to |items|
      invariant rows == RowMap(cfg, items, i)
    {
      if items[i].Obj? {
        rows := rows[cfg.keyOf(items[i].fields, i) := items[i].fields];
      }
    }
  }

  /** The part of a diff whose keys have been visited. */
  ghost function Visited(d: map<EntityKey, Change>, done: set<string>): map<EntityKey, Change> {
    map id | id in d && id.1 in done :: d[id]
  }

  ghost predicate OfEntity(d: map<EntityKey, Change>, entity: Entity) {
    forall id :: id in d ==> id.0 == entity && d[id].Id() == id
  }

  lemma VisitKey(d: map<EntityKey, Change>, entity: Entity, cs: seq<Change>, done: set<string>, k: string)
    requires OfEntity(d, entity) && Lists(cs, Visited(d, done)) && k !in done
    ensures (entity, k) in d ==> Lists(cs + [d[(entity, k)]], Visited(d, done + {k}))
    ensures (entity, k) !in d ==> Lists(cs, Visited(d, done + {k}))
  {
    var id := (entity, k);
    if id in d {
      forall i | i in Visited(d, done + {k}) ensures Visited(d, done + {k})[i] in cs + [d[id]] {
        if i == id {
          assert (cs + [d[id]])[|cs|] == d[id];
        } else {
          assert i in Visited(d, done) && Visited(d, done)[i] in cs;
        }
      }
    } else {
      assert Visited(d, done + {k}) == Visited(d, done);
    }
  }

  lemma DiffContents(entity: Entity, before: map<string, RowFields>, after: map<string, RowFields>)
    ensures OfEntity(DiffOf(entity, before, after), entity)
    ensures forall k :: k in after.Keys + before.Keys ==>
              var d := DiffOf(entity, before, after);
              ((entity, k) in d <==> ChangedKey(entity, before, after, k))
              && ((entity, k) in d ==> d[(entity, k)] == KeyChange(entity, after, k))
  {
  }

  /** _list_diff and _list_diff_stable. */
  method ListDiff(cfg: Config, entity: Entity, before: seq<Json>, after: seq<Json>) returns (changes: seq<Change>)
    ensures Lists(changes, DiffOf(entity, RowMap(cfg, before, |before|), RowMap(cfg, after, |after|)))
  {
    var oldMap := CollectRows(cfg, before);
    var newMap := CollectRows(cfg, after);
    changes := CompareMaps(entity, oldMap, newMap);
  }

  method CompareMaps(entity: Entity, oldMap: map<string, RowFields>, newMap: map<string, RowFields>)
    returns (changes: seq<Change>)
    ensures Lists(changes, DiffOf(entity, oldMap, newMap))
  {
    var upserts := ChangedRows(entity, oldMap, newMap);
    changes := MissingRows(entity, oldMap, newMap, upserts);
    ghost var d := DiffOf(entity, oldMap, newMap);
    assert Visited(d, newMap.Keys + oldMap.Keys) == d;
  }

  method ChangedRows(entity: Entity, oldMap: map<string, RowFields>, newMap: map<string, RowFields>)
    returns (changes: seq<Change>)
    ensures Lists(changes, Visited(DiffOf(entity, oldMap, newMap), newMap.Keys))
  {
    ghost var d := DiffOf(entity, oldMap, newMap);
    DiffContents(entity, oldMap, newMap);
    ghost var done: set<string> := {};
    changes := [];
    var pending := newMap.Keys;
    while pending != {}
      invariant pending <= newMap.Keys && done == newMap.Keys - pending
      invariant Lists(changes, Visited(d, done))
      decreases pending
    {
      var key :| key in pending;
      VisitKey(d, entity, changes, done, key);
      assert (entity, key) in d <==> ChangedKey(entity, oldMap, newMap, key);
      if key !in oldMap || RowsDiffer(entity, oldMap[key], newMap[key]) {
        changes := changes + [RowChange(entity, key, newMap[key])];
      }
      done := done + {key};
      pending := pending - {key};
    }
    assert done == newMap.Keys;
  }

  method MissingRows(entity: Entity, oldMap: map<string, RowFields>, newMap: map<string, RowFields>, upserts: seq<Change>)
    returns (changes: seq<Change>)
    requires Lists(upserts, Visited(DiffOf(entity, oldMap, newMap), newMap.Keys))
    ensures Lists(changes, Visited(DiffOf(entity, oldMap, newMap), newMap.Keys + oldMap.Keys))
  {
    ghost var d := DiffOf(entity, oldMap, newMap);
    DiffContents(entity, oldMap, newMap);
    ghost var done: set<string> := newMap.Keys;
    changes := upserts;
    var pending := oldMap.Keys - newMap.Keys;
    while pending != {}
      invariant pending <= oldMap.Keys - newMap.Keys && done == newMap.Keys + (oldMap.Keys - pending)
      invariant Lists(changes, Visited(d, done))
      decreases pending
    {
      var key :| key in pending;
      VisitKey(d, entity, changes, done, key);
      assert (entity, key) in d <==> ChangedKey(entity, oldMap, newMap, key);
      changes := changes + [Change(entity, Delete, key, Null)];
      done := done + {key};
      pending := pending - {key};
    }
    assert done == newMap.Keys + oldMap.Keys;
  }

  /** _changes_for_document */
  method ChangesForDocument(cfg: Config, key: string, before: Json, after: Json) returns (changes: seq<Change>)
    ensures Lists(changes, DocumentDiff(cfg, key, before, after))
  {
    if key in NON_REVISION_DOCUMENTS {
      changes := [];
    } else if key == "devices.json" {
      changes := DeviceChanges(cfg, before, after);
    } else if key == "events.json" {
      changes := ListDiff(cfg, Event, Rows(before), Rows(after));
    } else if key == "state.json" {
      if StableStatus(before, true) == StableStatus(after, true) {
        changes := [];
      } else {
        changes := [Change(Status, Replace, "status", StableStatus(after, true))];
        assert changes[0] in changes;
      }
    } else {
      changes := [Change(Document, Replace, key, after)];
      assert changes[0] in changes;
    }
  }

  method DeviceChanges(cfg: Config, before: Json, after: Json) returns (changes: seq<Change>)
    ensures Lists(changes,
                  DiffOf(Device, DeviceRows(cfg, before, "watched"), DeviceRows(cfg, after, "watched"))
                  + DiffOf(OnlineDevice, DeviceRows(cfg, before, "online"), DeviceRows(cfg, after, "online"))
                  + MetaDiff(before, after))
  {
    var oldObj, newObj := AsObject(before), AsObject(after);
    var watched := ListDiff(cfg, Device, Rows(Field(oldObj, "watched")), Rows(Field(newObj, "watched")));
    var online := ListDiff(cfg, OnlineDevice, Rows(Field(oldObj, "online")), Rows(Field(newObj, "online")));
    var metaChanges := MetaChanges(before, after);
    ghost var dw := DiffOf(Device, DeviceRows(cfg, before, "watched"), DeviceRows(cfg, after, "watched"));
    ghost var dn := DiffOf(OnlineDevice, DeviceRows(cfg, before, "online"), DeviceRows(cfg, after, "online"));
    JoinDeviceChanges(watched, dw, online, dn, metaChanges, MetaDiff(before, after));
    changes := watched + online + metaChanges;
  }

  method MetaChanges(before: Json, after: Json) returns (changes: seq<Change>)
    ensures Lists(changes, MetaDiff(before, after))
  {
    changes := [];
    if DeviceMetaOf(before) != DeviceMetaOf(after) {
      changes := [Change(DeviceMeta, Replace, "devices", DeviceMetaOf(after))];
      assert changes[0] in changes;
    }
  }

  lemma JoinDeviceChanges(watched: seq<Change>, dw: map<EntityKey, Change>, online: seq<Change>, dn: map<EntityKey, Change>,
                          meta: seq<Change>, dm: map<EntityKey, Change>)
    requires Lists(watched, dw) && Lists(online, dn) && Lists(meta, dm)
    requires forall id :: id in dw ==> id.0 == Device
    requires forall id :: id in dn ==> id.0 == OnlineDevice
    requires forall id :: id in dm ==> id.0 == DeviceMeta
    ensures Lists(watched + online + meta, dw + dn + dm)
  {
    ListsConcat(watched, dw, online, dn);
    ListsConcat(watched + online, dw + dn, meta, dm);
  }

  class SQLiteStore {
    const cfg: Config
    var documents: Documents
    var revisions: seq<Row>
    var sequence: nat
    var lastRevisionPruneAt: int
    /** Every row ever inserted. */
    ghost var history: seq<Row>

    constructor (cfg: Config, migrated: Documents)
      ensures this.cfg == cfg
      ensures State() == RevisionSync.Server(migrated, [], 0, 0, [])
    {
      this.cfg := cfg;
      documents, revisions, sequence, lastRevisionPruneAt := migrated, [], 0, 0;
      history := [];
    }

    ghost function State(): RevisionSync.Server
      reads this
    {
      RevisionSync.Server(documents, revisions, sequence, lastRevisionPruneAt, history)
    }

    method CurrentRevision() returns (revision: nat)
      ensures revision == RevisionSync.Current(revisions)
    {
      revision := if revisions == [] then 0 else revisions[|revisions| - 1].revision;
    }

    /** Each change becomes a row under the next number, never one that was used before. */
    method Insert(changes: seq<Change>, now: int)
      modifies this`revisions, this`sequence, this`history
      ensures State() == RevisionSync.Append(old(State()), changes, now)
    {
      ghost var s := State();
      for i := 0 to |changes|
        invariant State() == RevisionSync.Append(s, changes[..i], now)
        invariant documents == s.docs && lastRevisionPruneAt == s.lastPruneAt
      {
        var row := Row(sequence + 1, changes[i], now);
        assert RevisionSync.Number(changes[..i + 1], s.issued, now) == RevisionSync.Number(changes[..i], s.issued, now) + [row];
        revisions := revisions + [row];
        sequence := sequence + 1;
        history := history + [row];
      }
      assert changes[..|changes|] == changes;
    }

    /** _prune_revisions */
    method PruneRevisions(clock: RevisionSync.Clock, force: bool)
      modifies this`revisions, this`lastRevisionPruneAt
      ensures State() == RevisionSync.Prune(cfg, old(State()), clock, force)
    {
      if !force && clock.monotonic - lastRevisionPruneAt < cfg.pruneInterval {
        return;
      }
      revisions := RevisionSync.KeepRecent(revisions, clock.now - cfg.maxAge);
      if |revisions| >= cfg.maxRows {
        revisions := revisions[|revisions| - cfg.maxRows..];
      }
      lastRevisionPruneAt := clock.monotonic;
    }

    /** save: the document and its rows in one transaction. The listed changes are
        exactly the diff, in the order they were inserted. */
    method Save(key: string, value: Json, clock: RevisionSync.Clock) returns (revision: nat, ghost cs: seq<Change>)
      modifies this
      ensures !RevisionSync.Unchanged(old(State()), key, value) ==>
                Lists(cs, RevisionSync.SaveDiff(cfg, old(State()), key, value))
      ensures State() == RevisionSync.SaveWith(cfg, old(State()), key, value, cs, clock)
      ensures revision == RevisionSync.Current(revisions)
    {
      cs := [];
      if key in documents && documents[key] == value {
        revision := CurrentRevision();
        return;
      }
      var before := if key in documents then documents[key] else Null;
      documents := documents[key := value];
      var changes := ChangesForDocument(cfg, key, before, value);
      cs := changes;
      Insert(changes, clock.now);
      PruneRevisions(clock, false);
      revision := CurrentRevision();
    }

    /** initialize: a baseline row if the log is empty, then a forced prune. */
    method Initialize(clock: RevisionSync.Clock)
      modifies this
      ensures State() == RevisionSync.Restart(cfg, old(State()), clock)
    {
      var revision := CurrentRevision();
      if revision == 0 {
        Insert([RevisionSync.BASELINE_CHANGE], clock.now);
      }
      PruneRevisions(clock, true);
    }

    /** changes_since */
    method ChangesSince(since: int, limit: int) returns (reply: RevisionSync.Reply)
      ensures reply == RevisionSync.ChangesSince(revisions, since, limit)
    {
      var size := RevisionSync.Clamp(limit);
      var oldest, current := RevisionSync.Oldest(revisions), RevisionSync.Current(revisions);
      if since < 0 || (oldest > 0 && since < oldest - 1) || since > current {
        return RevisionSync.Reply(oldest, current, true, false, [], since);
      }
      var rows := RevisionSync.RowsAfter(revisions, since);
      var hasMore := |rows| > size;
      if hasMore {
        rows := rows[..size];
      }
      var nextRevision: int := if rows == [] then since else rows[|rows| - 1].revision;
      reply := RevisionSync.Reply(oldest, current, false, hasMore, rows, nextRevision);
    }
  }
}
