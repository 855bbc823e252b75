/** The event list of a day's report (hub.py normalize_device_events_for_daily). */
module DailyEvents {
  import opened Wrappers

  datatype Kind = Online | Offline | Other

  /** `at` is the event's time, 0 when it has none; `key` names its device, "" when nothing does. */
  datatype Event = Event(id: int, kind: Kind, key: string, at: int, duration: string, rest: string) {
    predicate Tracked() { kind != Other && key != "" }
    predicate NotAfter(other: Event) { at < other.at || (at == other.at && id <= other.id) }
    predicate SameButText(other: Event) { this == other.(duration := this.duration) }
  }

  /** Reading a duration text as seconds, and writing seconds as a text. */
  datatype Texts = Texts(parse: string -> int, format: int -> string)

  const QUIET_PERIOD := 300

  // ------------------------------------------------------------------ sorting

  /** Stable insertion from the right. */
  function Insert(es: seq<Event>, e: Event): seq<Event> {
    if es == [] || es[|es| - 1].NotAfter(e) then es + [e]
    else Insert(es[..|es| - 1], e) + [es[|es| - 1]]
  }

  /** sorted() by time, then id. */
  function Ordered(es: seq<Event>): seq<Event> {
    if es == [] then [] else Insert(Ordered(es[..|es| - 1]), es[|es| - 1])
  }

  ghost predicate Sorted(es: seq<Event>) {
    forall i, j :: 0 <= i < j < |es| ==> es[i].NotAfter(es[j])
  }

  /** The events with one sort key, in list order. */
  function WithKey(es: seq<Event>, at: int, id: int): seq<Event> {
    if es == [] then []
    else
      var rest := WithKey(es[..|es| - 1], at, id);
      if es[|es| - 1].at == at && es[|es| - 1].id == id then rest + [es[|es| - 1]] else rest
  }

  lemma {:induction false} InsertMembers(es: seq<Event>, e: Event)
    ensures multiset(Insert(es, e)) == multiset(es) + multiset{e}
  {
    if es != [] && !es[|es| - 1].NotAfter(e) {
      InsertMembers(es[..|es| - 1], e);
      assert es == es[..|es| - 1] + [es[|es| - 1]];
    }
  }

  lemma InsertOne(es: seq<Event>, e: Event, x: Event)
    requires x in Insert(es, e)
    ensures x in es || x == e
  {
    InsertMembers(es, e);
    assert x in multiset(Insert(es, e));
  }

  lemma {:induction false} InsertSorted(es: seq<Event>, e: Event)
    requires Sorted(es)
    ensures Sorted(Insert(es, e))
  {
    if es != [] && !es[|es| - 1].NotAfter(e) {
      var init, last := es[..|es| - 1], es[|es| - 1];
      InsertSorted(init, e);
      var front := Insert(init, e);
      forall x | x in front ensures x.NotAfter(last) {
        InsertOne(init, e, x);
        if x != e {
          var k :| 0 <= k < |init| && init[k] == x;
          assert es[k].NotAfter(es[|es| - 1]);
        }
      }
      SortedSnoc(front, last);
    } else {
      forall x | x in es ensures x.NotAfter(e) {
        var k :| 0 <= k < |es| && es[k] == x;
        assert k < |es| - 1 ==> es[k].NotAfter(es[|es| - 1]);
      }
      SortedSnoc(es, e);
    }
  }

  lemma SortedSnoc(es: seq<Event>, e: Event)
    requires Sorted(es) && forall x :: x in es ==> x.NotAfter(e)
    ensures Sorted(es + [e])
  {
    assert forall i :: 0 <= i < |es| ==> es[i] in es;
  }

  lemma InsertSorts(es: seq<Event>, e: Event)
    requires Sorted(es)
    ensures Sorted(Insert(es, e)) && multiset(Insert(es, e)) == multiset(es) + multiset{e}
  {
    InsertSorted(es, e);
    InsertMembers(es, e);
  }

  lemma {:induction false} InsertStable(es: seq<Event>, e: Event, at: int, id: int)
    requires Sorted(es)
    ensures WithKey(Insert(es, e), at, id) == WithKey(es, at, id) + if e.at == at && e.id == id then [e] else []
  {
    if es != [] && !es[|es| - 1].NotAfter(e) {
      var init, last := es[..|es| - 1], es[|es| - 1];
      InsertStable(init, e, at, id);
      assert (Insert(init, e) + [last])[..|Insert(init, e)|] == Insert(init, e);
      if last.at == at && last.id == id {
        assert !(e.at == at && e.id == id);
      }
    } else {
      assert (es + [e])[..|es|] == es;
    }
  }

  lemma NothingSorted()
    ensures Sorted([])
  {
  }

  /** The order is by time and id, keeps every event, and keeps ties as they were. */
  lemma {:induction false} OrderedIsStableSort(es: seq<Event>, at: int, id: int)
    ensures Sorted(Ordered(es)) && multiset(Ordered(es)) == multiset(es)
    ensures WithKey(Ordered(es), at, id) == WithKey(es, at, id)
  {
    hide Insert, Sorted;
    if es == [] {
      NothingSorted();
    } else {
      var init, last := es[..|es| - 1], es[|es| - 1];
      OrderedIsStableSort(init, at, id);
      InsertSorts(Ordered(init), last);
      InsertStable(Ordered(init), last, at, id);
      assert es == init + [last];
    }
  }

  lemma {:induction false} SortedStays(es: seq<Event>)
    requires Sorted(es)
    ensures Ordered(es) == es
  {
    hide Sorted;
    if es != [] {
      var init, last := es[..|es| - 1], es[|es| - 1];
      SortedLast(es);
      SortedStays(init);
      assert Insert(init, last) == init + [last] == es;
    }
  }

  lemma SortedLast(es: seq<Event>)
    requires Sorted(es) && es != []
    ensures Sorted(es[..|es| - 1]) && (|es| >= 2 ==> es[|es| - 2].NotAfter(es[|es| - 1]))
  {
  }

  // ----------------------------------------------------------------- filtering

  datatype Seen = Seen(online: map<string, bool>, onlineAt: map<string, int>, lastOffline: map<string, int>)

  const NOTHING := Seen(map[], map[], map[])

  function Status(s: Seen, key: string): Option<bool> {
    if key in s.online then Some(s.online[key]) else None
  }

  /** An offline event with its duration, worked out from the online time when its text has none. */
  function Timed(x: Texts, s: Seen, e: Event): (Event, int) {
    var written := x.parse(e.duration);
    if written <= 0 && e.key in s.onlineAt && s.onlineAt[e.key] != 0 && e.at != 0 && e.at >= s.onlineAt[e.key]
    then (e.(duration := x.format(e.at - s.onlineAt[e.key])), e.at - s.onlineAt[e.key])
    else (e, written)
  }

  predicate Repeats(s: Seen, e: Event) {
    e.at != 0 && e.key in s.lastOffline && 0 <= e.at - s.lastOffline[e.key] <= QUIET_PERIOD
  }

  /** The event as kept, if it is, and what has been seen after it. */
  function Judge(x: Texts, s: Seen, e: Event): (Option<Event>, Seen) {
    if !e.Tracked() then (Some(e), s)
    else if e.kind == Online then
      if Status(s, e.key) == Some(true) then (None, s)
      else (Some(e), s.(online := s.online[e.key := true],
                        onlineAt := if e.at != 0 then s.onlineAt[e.key := e.at] else s.onlineAt))
    else
      var (timed, seconds) := Timed(x, s, e);
      if seconds <= 0 || Status(s, e.key) == Some(false) || Repeats(s, e) then (None, s)
      else (Some(timed), Seen(s.online[e.key := false], s.onlineAt - {e.key},
                              if e.at != 0 then s.lastOffline[e.key := e.at] else s.lastOffline))
  }

  function Filter(x: Texts, s: Seen, es: seq<Event>): seq<Event>
    decreases |es|
  {
    if es == [] then []
    else
      var (kept, after) := Judge(x, s, es[0]);
      (if kept.Some? then [kept.value] else []) + Filter(x, after, es[1..])
  }

  function Daily(x: Texts, es: seq<Event>): seq<Event> {
    Filter(x, NOTHING, Ordered(es))
  }

  /** A kept event differs at most in its text, judging it again keeps it as it is, and a
      dropped event leaves no trace. */
  lemma JudgedTwice(x: Texts, s: Seen, e: Event)
    ensures var (kept, after) := Judge(x, s, e);
            && (kept.None? ==> after == s)
            && (kept.Some? ==> kept.value.SameButText(e) && Judge(x, s, kept.value) == (kept, after))
  {
  }

  // ------------------------------------------------------------------ idempotence

  lemma {:induction false} FilterTwice(x: Texts, s: Seen, es: seq<Event>)
    ensures Filter(x, s, Filter(x, s, es)) == Filter(x, s, es)
    decreases |es|
  {
    hide Judge;
    if es != [] {
      var (kept, after) := Judge(x, s, es[0]);
      JudgedTwice(x, s, es[0]);
      FilterTwice(x, after, es[1..]);
      if kept.Some? {
        assert Filter(x, s, es)[1..] == Filter(x, after, es[1..]);
      } else {
        assert Filter(x, s, es) == Filter(x, s, es[1..]);
      }
    }
  }

  /** The kept events, up to their text, are events of the list in the list's order. */
  ghost predicate Thins(kept: seq<Event>, es: seq<Event>)
    decreases |es|
  {
    if es == [] then kept == []
    else (kept != [] && kept[0].SameButText(es[0]) && Thins(kept[1..], es[1..])) || Thins(kept, es[1..])
  }

  lemma {:induction false} FilterThins(x: Texts, s: Seen, es: seq<Event>)
    ensures Thins(Filter(x, s, es), es)
    decreases |es|
  {
    hide Judge;
    if es != [] {
      var (kept, after) := Judge(x, s, es[0]);
      JudgedTwice(x, s, es[0]);
      FilterThins(x, after, es[1..]);
      if kept.Some? {
        assert Filter(x, s, es)[1..] == Filter(x, after, es[1..]);
      } else {
        assert Filter(x, s, es) == Filter(x, after, es[1..]);
      }
    }
  }

  /** A thinned sorted list is sorted, and nothing in it comes before the list's first event. */
  lemma {:induction false} ThinnedSorted(kept: seq<Event>, es: seq<Event>)
    requires Thins(kept, es) && Sorted(es)
    ensures Sorted(kept)
    ensures forall e :: e in kept ==> exists o :: o in es && e.SameButText(o)
    decreases |es|
  {
    if es != [] {
      var tail := es[1..];
      assert forall i :: 0 <= i < |tail| ==> tail[i] == es[i + 1];
      if Thins(kept, tail) {
        ThinnedSorted(kept, tail);
        forall e | e in kept ensures exists o :: o in es && e.SameButText(o) {
          var o :| o in tail && e.SameButText(o);
          assert o in es;
        }
      } else {
        ThinnedSorted(kept[1..], tail);
        HeadFirst(kept, es);
      }
    }
  }

  lemma HeadFirst(kept: seq<Event>, es: seq<Event>)
    requires es != [] && kept != [] && Sorted(es) && kept[0].SameButText(es[0]) && Sorted(kept[1..])
    requires forall e :: e in kept[1..] ==> exists o :: o in es[1..] && e.SameButText(o)
    ensures Sorted(kept)
    ensures forall e :: e in kept ==> exists o :: o in es && e.SameButText(o)
  {
    forall j | 1 <= j < |kept| ensures kept[0].NotAfter(kept[j]) && exists o :: o in es && kept[j].SameButText(o) {
      assert kept[j] == kept[1..][j - 1] && kept[j] in kept[1..];
      var o :| o in es[1..] && kept[j].SameButText(o);
      var k :| 0 <= k < |es[1..]| && es[1..][k] == o;
      assert es[0].NotAfter(es[k + 1]) && es[k + 1] == o;
    }
    forall i, j | 0 <= i < j < |kept| ensures kept[i].NotAfter(kept[j]) {
      if i > 0 {
        assert kept[i] == kept[1..][i - 1] && kept[j] == kept[1..][j - 1];
      }
    }
    assert es[0] in es;
  }

  /** The day's list is a thinning of the sorted events, and filtering it again changes
      nothing, whatever the durations' reader and writer do. */
  lemma DailyIsStable(x: Texts, es: seq<Event>)
    ensures Thins(Daily(x, es), Ordered(es)) && Sorted(Daily(x, es))
    ensures forall i, j :: 0 <= i < j < |Daily(x, es)| ==>
              var a, b := Daily(x, es)[i], Daily(x, es)[j]; a.at < b.at || (a.at == b.at && a.id <= b.id)
    ensures Daily(x, Daily(x, es)) == Daily(x, es)
  {
    OrderedIsStableSort(es, 0, 0);
    FilterThins(x, NOTHING, Ordered(es));
    ThinnedSorted(Daily(x, es), Ordered(es));
    SortedStays(Daily(x, es));
    FilterTwice(x, NOTHING, Ordered(es));
  }

  // ------------------------------------------------------------------ alternation

  /** What the last tracked event of the device said, or `start` if there is none. */
  function LastSaid(es: seq<Event>, key: string, start: Option<bool>): Option<bool>
    decreases |es|
  {
    if es == [] then start
    else LastSaid(es[1..], key, if es[0].Tracked() && es[0].key == key then Some(es[0].kind == Online) else start)
  }

  /** No tracked event repeats what the one before it of the same device said. */
  ghost predicate Alternates(es: seq<Event>, s: Seen) {
    forall k :: 0 <= k < |es| && es[k].Tracked() ==>
        LastSaid(es[..k], es[k].key, Status(s, es[k].key)) != Some(es[k].kind == Online)
  }

  lemma JudgeStatus(x: Texts, s: Seen, e: Event, key: string)
    ensures var (kept, after) := Judge(x, s, e);
            && Status(after, key) == (if kept.Some? && e.Tracked() && e.key == key then Some(e.kind == Online)
                else Status(s, key))
            && (kept.Some? && e.Tracked() ==> Status(s, e.key) != Some(e.kind == Online))
  {
  }

  lemma AlternatesCons(e: Event, tail: seq<Event>, s: Seen, after: Seen)
    requires Alternates(tail, after)
    requires forall key :: Status(after, key) == if e.Tracked() && e.key == key then Some(e.kind == Online) else Status(s, key)
    requires e.Tracked() ==> Status(s, e.key) != Some(e.kind == Online)
    ensures Alternates([e] + tail, s)
  {
    hide Status;
    var all := [e] + tail;
    forall k | 0 <= k < |all| && all[k].Tracked()
      ensures LastSaid(all[..k], all[k].key, Status(s, all[k].key)) != Some(all[k].kind == Online)
    {
      if k > 0 {
        assert all[..k][1..] == tail[..k - 1] && all[k] == tail[k - 1];
      }
    }
  }

  lemma {:induction false} FilterAlternates(x: Texts, s: Seen, es: seq<Event>)
    ensures Alternates(Filter(x, s, es), s)
    decreases |es|
  {
    hide Judge, Status, Alternates;
    if es == [] {
      NothingAlternates(s);
    } else {
      var (kept, after) := Judge(x, s, es[0]);
      JudgedTwice(x, s, es[0]);
      FilterAlternates(x, after, es[1..]);
      forall key ensures Status(after, key)
          == (if kept.Some? && es[0].Tracked() && es[0].key == key then Some(es[0].kind == Online) else Status(s, key)) {
        JudgeStatus(x, s, es[0], key);
      }
      JudgeStatus(x, s, es[0], "");
      if kept.Some? {
        AlternatesCons(kept.value, Filter(x, after, es[1..]), s, after);
      } else {
        assert Filter(x, s, es) == Filter(x, after, es[1..]);
      }
    }
  }

  lemma NothingAlternates(s: Seen)
    ensures Alternates([], s)
  {
  }

  /** In the day's list each device goes online and offline by turns. */
  lemma DailyAlternates(x: Texts, es: seq<Event>)
    ensures Alternates(Daily(x, es), NOTHING)
  {
    FilterAlternates(x, NOTHING, Ordered(es));
  }

  // -------------------------------------------------------------------- the loop

  lemma FilterStep(x: Texts, whole: seq<Event>, i: nat, kept: seq<Event>, s: Seen, result: seq<Event>)
    requires i < |whole| && kept + Filter(x, s, whole[i..]) == result
    ensures var (one, after) := Judge(x, s, whole[i]);
            (if one.Some? then kept + [one.value] else kept) + Filter(x, after, whole[i + 1..]) == result
  {
    hide Judge;
    assert whole[i..][1..] == whole[i + 1..];
    var (one, after) := Judge(x, s, whole[i]);
    if one.Some? {
      assert kept + ([one.value] + Filter(x, after, whole[i + 1..])) == kept + [one.value] + Filter(x, after, whole[i + 1..]);
    } else {
      assert [] + Filter(x, after, whole[i + 1..]) == Filter(x, after, whole[i + 1..]);
    }
  }

  method NormalizeDeviceEvents(x: Texts, events: seq<Event>) returns (kept: seq<Event>)
    ensures kept == Daily(x, events)
    ensures Sorted(kept) && Alternates(kept, NOTHING) && Daily(x, kept) == kept
  {
    hide Filter, Alternates, Sorted;
    DailyIsStable(x, events);
    DailyAlternates(x, events);
    var ordered := Ordered(events);
    var state: map<string, bool>, onlineAt: map<string, int>, lastOffline: map<string, int> := map[], map[], map[];
    kept := [];
    assert ordered[0..] == ordered;
    for i := 0 to |ordered|
      invariant kept + Filter(x, Seen(state, onlineAt, lastOffline), ordered[i..]) == Daily(x, events)
    {
      FilterStep(x, ordered, i, kept, Seen(state, onlineAt, lastOffline), Daily(x, events));
      var e := ordered[i];
      if !e.Tracked() {
        kept := kept + [e];
      } else if e.kind == Online {
        if !(e.key in state && state[e.key]) {
          state := state[e.key := true];
          if e.at != 0 {
            onlineAt := onlineAt[e.key := e.at];
          }
          kept := kept + [e];
        }
      } else {
        var (timed, seconds) := Timed(x, Seen(state, onlineAt, lastOffline), e);
        if seconds > 0 && !(e.key in state && !state[e.key]) && !Repeats(Seen(state, onlineAt, lastOffline), e) {
          state := state[e.key := false];
          if e.at != 0 {
            lastOffline := lastOffline[e.key := e.at];
          }
          onlineAt := onlineAt - {e.key};
          kept := kept + [timed];
        }
      }
    }
    FilterNothing(x, Seen(state, onlineAt, lastOffline));
    assert ordered[|ordered|..] == [] && kept + [] == kept;
  }

  lemma FilterNothing(x: Texts, s: Seen)
    ensures Filter(x, s, []) == []
  {
  }
}
