/** Merging a new dashboard payload over the last good one (router_realtime_stability_patch.py merge_dashboard). */
module DashboardMerge {
  import opened Json
  import opened Wrappers

  /** A text with something to read in it, or any other value that counts as true. */
  predicate HasText(v: Json) {
    if v.Str? then
      var text := StripRight(StripLeft(v.s));
      text != "" && Lower(text) !in {"none", "null", "--"}
    else Truthy(v)
  }

  /** The value a key gets: `held` is what the key had, if anything. */
  function MergeField(held: Option<Json>, v: Json): Json
    decreases v, 1
  {
    match v
    case Obj(fields) =>
      if fields == map[] && held.Some? && held.value.Obj? && held.value.fields != map[] then held.value
      else MergeObject(if held.Some? then held.value else Null, v)
    case Null => if held.Some? then held.value else Null
    case Str(s) => if IsBlank(s) && held.Some? && HasText(held.value) then held.value else v
    case List(items) => if items == [] && held.Some? && held.value.List? && held.value.items != [] then held.value else v
    case _ => v
  }

  /** merge(): `source` over `target`, which counts as empty when it is no object. */
  function MergeObject(target: Json, source: Json): (r: Json)
    requires source.Obj?
    ensures r.Obj?
    decreases source, 0
  {
    var base := if target.Obj? then target.fields else map[];
    Obj(map k | k in base.Keys + source.fields.Keys ::
          if k in source.fields then MergeField(if k in base then Some(base[k]) else None, source.fields[k]) else base[k])
  }

  function MergeDashboard(previous: Json, latest: Json): Json {
    MergeObject(previous, if latest.Obj? then latest else Obj(map[]))
  }

  // ---------------------------------------------------------------- idempotence

  lemma {:induction false} FieldTwice(held: Option<Json>, v: Json)
    ensures MergeField(Some(MergeField(held, v)), v) == MergeField(held, v)
    decreases v, 1
  {
    match v
    case Obj(fields) =>
      if !(fields == map[] && held.Some? && held.value.Obj? && held.value.fields != map[]) {
        ObjectTwice(if held.Some? then held.value else Null, v);
      }
    case Str(s) => BlankHasNoText(s);
    case _ =>
  }

  lemma {:induction false} StripBlank(s: string)
    requires IsBlank(s)
    ensures StripLeft(s) == ""
  {
    if s != "" {
      StripBlank(s[1..]);
    }
  }

  lemma BlankHasNoText(s: string)
    ensures IsBlank(s) ==> !HasText(Str(s))
  {
    if IsBlank(s) {
      StripBlank(s);
    }
  }

  lemma {:induction false} ObjectTwice(target: Json, source: Json)
    requires source.Obj?
    ensures MergeObject(MergeObject(target, source), source) == MergeObject(target, source)
    decreases source, 0
  {
    hide MergeField;
    var base := if target.Obj? then target.fields else map[];
    var once := MergeObject(target, source);
    var twice := MergeObject(once, source);
    forall k | k in source.fields ensures twice.fields[k] == once.fields[k] {
      FieldTwice(if k in base then Some(base[k]) else None, source.fields[k]);
    }
    assert twice.fields.Keys == once.fields.Keys;
    assert twice.fields == once.fields;
  }

  /** Merging the same payload again changes nothing. */
  lemma MergeIsIdempotent(previous: Json, latest: Json)
    ensures MergeDashboard(MergeDashboard(previous, latest), latest) == MergeDashboard(previous, latest)
  {
    ObjectTwice(previous, if latest.Obj? then latest else Obj(map[]));
  }

  // ------------------------------------------------------------- at every depth

  /** The value under a path of keys. */
  function At(j: Json, path: seq<string>): Option<Json>
    decreases |path|
  {
    if path == [] then Some(j)
    else if j.Obj? && path[0] in j.fields then At(j.fields[path[0]], path[1..])
    else None
  }

  /** Nothing there to show. */
  predicate IsEmpty(v: Json) {
    v.Null? || (v.Str? && IsBlank(v.s)) || (v.List? && v.items == []) || (v.Obj? && v.fields == map[])
  }

  /** A text that is neither blank nor a placeholder for nothing, or a value that is not zero,
      false or empty. */
  predicate Readable(v: Json) {
    match v
    case Null => false
    case Bool(b) => b
    case Num(n) => n != 0
    case Str(s) => !IsBlank(s) && Lower(StripRight(StripLeft(s))) !in {"none", "null", "--"}
    case List(items) => items != []
    case Obj(fields) => fields != map[]
  }

  lemma {:induction false} StripLeftKeeps(s: string)
    ensures IsBlank(StripLeft(s)) <==> IsBlank(s)
  {
    if s != "" && IsSpace(s[0]) {
      StripLeftKeeps(s[1..]);
      assert IsBlank(s[1..]) ==> forall i :: 0 < i < |s| ==> s[i] == s[1..][i - 1];
      assert IsBlank(s) ==> forall i :: 0 <= i < |s| - 1 ==> s[1..][i] == s[i + 1];
    }
  }

  lemma {:induction false} StripRightEmptyIff(s: string)
    ensures StripRight(s) == "" <==> IsBlank(s)
  {
    if s != "" && IsSpace(s[|s| - 1]) {
      var init := s[..|s| - 1];
      StripRightEmptyIff(init);
      assert IsBlank(init) ==> forall i :: 0 <= i < |s| - 1 ==> s[i] == init[i];
      assert IsBlank(s) ==> forall i :: 0 <= i < |init| ==> init[i] == s[i];
    }
  }

  lemma ReadableIff(v: Json)
    ensures Readable(v) <==> HasText(v)
  {
    if v.Str? {
      StripLeftKeeps(v.s);
      StripRightEmptyIff(StripLeft(v.s));
    }
  }

  /** `v` may not replace `shown`: nothing replaces a value by null, a text by blanks, a
      list by an empty one or an object by an empty one. */
  predicate Protected(shown: Json, v: Json) {
    match v
    case Null => true
    case Str(s) => IsBlank(s) && Readable(shown)
    case List(items) => items == [] && shown.List? && shown.items != []
    case Obj(fields) => fields == map[] && shown.Obj? && shown.fields != map[]
    case _ => false
  }

  lemma {:induction false} ObjectAt(target: Json, source: Json, path: seq<string>)
    requires source.Obj? && path != [] && path[0] in source.fields
    ensures var k := path[0]; var held := if target.Obj? && k in target.fields then Some(target.fields[k]) else None;
            At(MergeObject(target, source), path) == At(MergeField(held, source.fields[k]), path[1..])
  {
    hide MergeField;
  }

  /** At any depth: what is shown survives an empty replacement of its kind. */
  lemma {:induction false} EmptyNeverReplaces(previous: Json, latest: Json, path: seq<string>)
    requires latest.Obj? && path != [] && At(previous, path).Some? && At(latest, path).Some?
    requires Protected(At(previous, path).value, At(latest, path).value)
    ensures At(MergeObject(previous, latest), path) == At(previous, path)
    decreases |path|
  {
    ObjectAt(previous, latest, path);
    ReadableIff(At(previous, path).value);
    var k := path[0];
    if |path| > 1 {
      EmptyNeverReplaces(previous.fields[k], latest.fields[k], path[1..]);
    }
  }

  /** At any depth: anything not empty in the new payload is what the merge shows. */
  lemma {:induction false} NewValueWins(previous: Json, latest: Json, path: seq<string>)
    requires latest.Obj? && path != [] && At(latest, path).Some?
    requires var v := At(latest, path).value; !v.Obj? && !IsEmpty(v)
    ensures At(MergeObject(previous, latest), path) == At(latest, path)
    decreases |path|
  {
    ObjectAt(previous, latest, path);
    var k := path[0];
    if |path| > 1 {
      NewValueWins(if previous.Obj? && k in previous.fields then previous.fields[k] else Null, latest.fields[k], path[1..]);
    }
  }

  /** At any depth: where both sides are objects the merge has exactly the keys of both. */
  lemma {:induction false} KeysAreJoined(previous: Json, latest: Json, path: seq<string>)
    requires At(previous, path).Some? && At(previous, path).value.Obj?
    requires At(latest, path).Some? && At(latest, path).value.Obj? && latest.Obj?
    ensures var merged := At(MergeObject(previous, latest), path);
            merged.Some? && merged.value.Obj?
            && merged.value.fields.Keys == At(previous, path).value.fields.Keys + At(latest, path).value.fields.Keys
    decreases |path|
  {
    if path != [] {
      ObjectAt(previous, latest, path);
      if |path| > 1 || latest.fields[path[0]].fields != map[] {
        KeysAreJoined(previous.fields[path[0]], latest.fields[path[0]], path[1..]);
      } else {
        EmptyKeys(previous.fields[path[0]], latest.fields[path[0]]);
      }
    }
  }

  lemma EmptyKeys(held: Json, v: Json)
    requires held.Obj? && v == Obj(map[])
    ensures MergeField(Some(held), v).Obj? && MergeField(Some(held), v).fields.Keys == held.fields.Keys
  {
  }

  /** At any depth: what the new payload does not mention stays as it was. */
  lemma {:induction false} UnmentionedStays(previous: Json, latest: Json, path: seq<string>, k: string)
    requires latest.Obj? && At(previous, path).Some? && At(latest, path).Some?
    requires At(previous, path).value.Obj? && k in At(previous, path).value.fields
    requires At(latest, path).value.Obj? && k !in At(latest, path).value.fields
    ensures At(MergeObject(previous, latest), path + [k]) == Some(At(previous, path).value.fields[k])
    decreases |path|
  {
    assert (path + [k])[0] == if path == [] then k else path[0];
    if path != [] {
      assert (path + [k])[1..] == path[1..] + [k];
      var p, l := previous.fields[path[0]], latest.fields[path[0]];
      ObjectAt(previous, latest, path + [k]);
      if l.fields == map[] {
        assert path == [path[0]] && k in p.fields;
        EmptyStays(p, l);
        assert (path + [k])[1..] == [k] && [k][1..] == [];
      } else {
        UnmentionedStays(p, l, path[1..], k);
      }
    } else {
      assert (path + [k])[1..] == [];
    }
  }

  lemma EmptyStays(held: Json, v: Json)
    requires held.Obj? && held.fields != map[] && v == Obj(map[])
    ensures MergeField(Some(held), v) == held
  {
  }

  // --------------------------------------------------------------------- the loop

  function FieldOf(fields: map<string, Json>, k: string): Option<Json> {
    if k in fields then Some(fields[k]) else None
  }

  lemma MergedPointwise(target: Json, source: Json, fields: map<string, Json>)
    requires source.Obj?
    requires var base := if target.Obj? then target.fields else map[];
             && (forall k :: k in fields <==> k in base || k in source.fields)
             && (forall k :: k in fields ==>
                   fields[k] == if k in source.fields then MergeField(FieldOf(base, k), source.fields[k]) else base[k])
    ensures MergeObject(target, source) == Obj(fields)
  {
    hide MergeField;
    assert fields.Keys == MergeObject(target, source).fields.Keys;
    assert fields == MergeObject(target, source).fields;
  }

  /** merge(): key by key into the target. */
  method MergeInto(target: Json, source: Json) returns (r: Json)
    requires source.Obj?
    ensures r == MergeObject(target, source)
    decreases source, 0
  {
    hide MergeField, MergeObject;
    var base := if target.Obj? then target.fields else map[];
    var fields := base;
    var left := source.fields.Keys;
    while left != {}
      invariant forall k :: k in left ==> k in source.fields
      invariant forall k :: k in fields <==> k in base || (k in source.fields && k !in left)
      invariant forall k :: k in fields ==>
        fields[k] == if k in source.fields && k !in left then MergeField(FieldOf(base, k), source.fields[k]) else base[k]
      decreases |left|
    {
      var k :| k in left;
      left := left - {k};
      var value := MergeValue(FieldOf(fields, k), source.fields[k]);
      fields := fields[k := value];
    }
    MergedPointwise(target, source, fields);
    r := Obj(fields);
  }

  /** One key: keep, replace, or merge into the child object. */
  method MergeValue(held: Option<Json>, value: Json) returns (r: Json)
    ensures r == MergeField(held, value)
    decreases value, 1
  {
    match value {
      case Obj(fields) =>
        if fields == map[] && held.Some? && held.value.Obj? && held.value.fields != map[] {
          return held.value;
        }
        var child := if held.Some? && held.value.Obj? then held.value else Obj(map[]);
        r := MergeInto(child, value);
        ChildObject(held, value);
      case Null =>
        r := if held.None? then Null else held.value;
      case Str(s) =>
        r := if IsBlank(s) && held.Some? && HasText(held.value) then held.value else value;
      case List(items) =>
        r := if items == [] && held.Some? && held.value.List? && held.value.items != [] then held.value else value;
      case _ =>
        r := value;
    }
  }

  lemma ChildObject(held: Option<Json>, value: Json)
    requires value.Obj?
    ensures MergeObject(if held.Some? && held.value.Obj? then held.value else Obj(map[]), value)
         == MergeObject(if held.Some? then held.value else Null, value)
  {
  }
}
