/** Which events of a day are kept, in terms of the events kept before (hub.py
    normalize_device_events_for_daily). */
module DailyKept {
  import opened DailyEvents
  import opened Wrappers

  /** The last tracked event of the device among the kept ones. */
  function LastOf(kept: seq<Event>, key: string): Option<Event> {
    if kept == [] then None
    else
      var e := kept[|kept| - 1];
      if e.Tracked() && e.key == key then Some(e) else LastOf(kept[..|kept| - 1], key)
  }

  /** The time of its last kept offline event that has one. */
  function LastOfflineAt(kept: seq<Event>, key: string): Option<int> {
    if kept == [] then None
    else
      var e := kept[|kept| - 1];
      if e.kind == Offline && e.key == key && key != "" && e.at != 0 then Some(e.at)
      else LastOfflineAt(kept[..|kept| - 1], key)
  }

  /** How long the device was online: what the event's text says, or else since its kept
      online event, if both have a time; 0 or less when unknown. */
  function OnlineFor(x: Texts, kept: seq<Event>, e: Event): int {
    var said, last := x.parse(e.duration), LastOf(kept, e.key);
    if said <= 0 && last.Some? && last.value.kind == Online && last.value.at != 0 && e.at != 0 && e.at >= last.value.at
    then e.at - last.value.at
    else said
  }

  /** An online event counts unless the device already went online; an offline event unless
      it already went offline, was online for no known time, or went offline less than or
      just five minutes ago; anything else counts. */
  predicate Counts(x: Texts, kept: seq<Event>, e: Event) {
    var last := LastOf(kept, e.key);
    if e.kind == Other || e.key == "" then true
    else if e.kind == Online then last.None? || last.value.kind == Offline
    else
      && (last.None? || last.value.kind == Online)
      && OnlineFor(x, kept, e) > 0
      && (e.at != 0 && LastOfflineAt(kept, e.key).Some? ==> !(0 <= e.at - LastOfflineAt(kept, e.key).value <= 300))
  }

  /** The event as listed: an offline event whose text gives no time gets the one worked out. */
  function Listed(x: Texts, kept: seq<Event>, e: Event): Event {
    if e.kind == Offline && e.key != "" && x.parse(e.duration) <= 0 && OnlineFor(x, kept, e) > 0
    then e.(duration := x.format(OnlineFor(x, kept, e))) else e
  }

  function SeenAfter(x: Texts, s: Seen, es: seq<Event>): Seen
    decreases |es|
  {
    if es == [] then s else SeenAfter(x, Judge(x, s, es[0]).1, es[1..])
  }

  lemma {:induction false} FilterConcat(x: Texts, s: Seen, a: seq<Event>, b: seq<Event>)
    ensures Filter(x, s, a + b) == Filter(x, s, a) + Filter(x, SeenAfter(x, s, a), b)
    ensures SeenAfter(x, s, a + b) == SeenAfter(x, SeenAfter(x, s, a), b)
    decreases |a|
  {
    hide Judge;
    if a == [] {
      assert a + b == b;
    } else {
      assert (a + b)[0] == a[0] && (a + b)[1..] == a[1..] + b;
      FilterConcat(x, Judge(x, s, a[0]).1, a[1..], b);
    }
  }

  lemma FilterSnoc(x: Texts, s: Seen, es: seq<Event>, e: Event)
    ensures var (kept, after) := Judge(x, SeenAfter(x, s, es), e);
            && Filter(x, s, es + [e]) == Filter(x, s, es) + (if kept.Some? then [kept.value] else [])
            && SeenAfter(x, s, es + [e]) == after
  {
    hide Judge;
    FilterConcat(x, s, es, [e]);
    var t := SeenAfter(x, s, es);
    assert [e][1..] == [];
    assert Filter(x, t, [e]) == (if Judge(x, t, e).0.Some? then [Judge(x, t, e).0.value] else []) + [];
  }

  /** The three dictionaries say of each device what the kept events say. */
  ghost predicate Mirrors(s: Seen, kept: seq<Event>) {
    forall key: string :: MirrorsAt(s, kept, key)
  }

  predicate MirrorsAt(s: Seen, kept: seq<Event>, key: string) {
    var last := LastOf(kept, key);
    && Status(s, key) == (if last.Some? then Some(last.value.kind == Online) else None)
    && (key in s.onlineAt <==> last.Some? && last.value.kind == Online && last.value.at != 0)
    && (key in s.onlineAt && last.Some? ==> s.onlineAt[key] == last.value.at)
    && (key in s.lastOffline <==> LastOfflineAt(kept, key).Some?)
    && (key in s.lastOffline && LastOfflineAt(kept, key).Some? ==> s.lastOffline[key] == LastOfflineAt(kept, key).value)
  }

  lemma LastOfSnoc(kept: seq<Event>, e: Event, key: string)
    ensures LastOf(kept + [e], key) == if e.Tracked() && e.key == key then Some(e) else LastOf(kept, key)
    ensures LastOfflineAt(kept + [e], key)
         == if e.kind == Offline && e.key == key && key != "" && e.at != 0 then Some(e.at) else LastOfflineAt(kept, key)
  {
    assert (kept + [e])[..|kept|] == kept;
  }

  lemma {:induction false} LastOfIs(kept: seq<Event>, key: string)
    ensures LastOf(kept, key).Some? ==> LastOf(kept, key).value.Tracked() && LastOf(kept, key).value.key == key
  {
    if kept != [] {
      LastOfIs(kept[..|kept| - 1], key);
    }
  }

  lemma JudgedIff(x: Texts, s: Seen, kept: seq<Event>, e: Event)
    requires Mirrors(s, kept)
    ensures var judged := Judge(x, s, e).0;
            && (judged.Some? <==> Counts(x, kept, e))
            && (judged.Some? ==> judged.value == Listed(x, kept, e))
  {
    assert MirrorsAt(s, kept, e.key);
    LastOfIs(kept, e.key);
  }

  /** What is seen of the device is the same before and after. */
  predicate SameAt(s: Seen, t: Seen, key: string) {
    && Status(s, key) == Status(t, key)
    && (key in s.onlineAt <==> key in t.onlineAt)
    && (key in s.onlineAt && key in t.onlineAt ==> s.onlineAt[key] == t.onlineAt[key])
    && (key in s.lastOffline <==> key in t.lastOffline)
    && (key in s.lastOffline && key in t.lastOffline ==> s.lastOffline[key] == t.lastOffline[key])
  }

  lemma JudgeLeaves(x: Texts, s: Seen, e: Event, key: string)
    requires !e.Tracked() || key != e.key
    ensures SameAt(s, Judge(x, s, e).1, key)
  {
  }

  lemma JudgeSets(x: Texts, s: Seen, e: Event)
    requires e.Tracked() && Judge(x, s, e).0.Some?
    ensures var after := Judge(x, s, e).1; var key, online := e.key, e.kind == Online;
            && Status(s, key) != Some(online) && Status(after, key) == Some(online)
            && (key in after.onlineAt <==> online && (e.at != 0 || key in s.onlineAt))
            && (key in after.onlineAt && e.at != 0 ==> after.onlineAt[key] == e.at)
            && (key in after.lastOffline <==> (!online && e.at != 0) || key in s.lastOffline)
            && (key in after.lastOffline ==>
                  after.lastOffline[key] == if !online && e.at != 0 then e.at else s.lastOffline[key])
  {
  }

  lemma JudgeMirrors(x: Texts, s: Seen, kept: seq<Event>, e: Event, key: string)
    requires Mirrors(s, kept)
    ensures var (judged, after) := Judge(x, s, e);
            MirrorsAt(after, if judged.Some? then kept + [judged.value] else kept, key)
  {
    assert MirrorsAt(s, kept, key);
    hide Judge, LastOf, LastOfflineAt, Mirrors, Status;
    JudgedTwice(x, s, e);
    var judged := Judge(x, s, e).0;
    if judged.Some? {
      LastOfSnoc(kept, judged.value, key);
      if e.Tracked() && key == e.key {
        JudgeSets(x, s, e);
      } else {
        JudgeLeaves(x, s, e, key);
      }
    }
  }

  lemma {:induction false} FilterMirrors(x: Texts, es: seq<Event>)
    ensures Mirrors(SeenAfter(x, NOTHING, es), Filter(x, NOTHING, es))
  {
    hide Judge, MirrorsAt;
    if es == [] {
      forall key: string ensures MirrorsAt(NOTHING, [], key) {
        NothingMirrors(key);
      }
    } else {
      var init, e := es[..|es| - 1], es[|es| - 1];
      assert es == init + [e];
      FilterMirrors(x, init);
      FilterSnoc(x, NOTHING, init, e);
      var s, kept := SeenAfter(x, NOTHING, init), Filter(x, NOTHING, init);
      forall key: string ensures MirrorsAt(SeenAfter(x, NOTHING, es), Filter(x, NOTHING, es), key) {
        JudgeMirrors(x, s, kept, e, key);
        assert kept + [] == kept;
      }
    }
  }

  lemma NothingMirrors(key: string)
    ensures MirrorsAt(NOTHING, [], key)
  {
  }

  /** Event by event, in the day's order: an event is listed if and only if it counts after
      those listed before it, and with its duration worked out. */
  lemma KeptIff(x: Texts, es: seq<Event>, n: nat)
    requires n < |Ordered(es)|
    ensures var before, e := Filter(x, NOTHING, Ordered(es)[..n]), Ordered(es)[n];
            Filter(x, NOTHING, Ordered(es)[..n + 1])
            == if Counts(x, before, e) then before + [Listed(x, before, e)] else before
    ensures Daily(x, es) == Filter(x, NOTHING, Ordered(es)[..|Ordered(es)|])
  {
    hide Judge, Counts, Listed, Mirrors;
    var sorted := Ordered(es);
    assert sorted[..n + 1] == sorted[..n] + [sorted[n]] && sorted[..|sorted|] == sorted;
    FilterSnoc(x, NOTHING, sorted[..n], sorted[n]);
    FilterMirrors(x, sorted[..n]);
    JudgedIff(x, SeenAfter(x, NOTHING, sorted[..n]), Filter(x, NOTHING, sorted[..n]), sorted[n]);
    assert Filter(x, NOTHING, sorted[..n]) + [] == Filter(x, NOTHING, sorted[..n]);
  }
}
