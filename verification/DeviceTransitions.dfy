/** Online and offline events out of durable device snapshots (device_history_patch.py ingest). */
module DeviceTransitions {
  /** One parsed row; rows without a MAC address are dropped by the parser. */
  datatype Row = Row(mac: string, details: string)

  datatype Event = Event(mac: string, online: bool)

  const EMPTY_CONFIRMATIONS := 2

  type Online = map<string, Row>

  /** _device_map: the last row of a MAC wins. */
  function DeviceMap(rows: seq<Row>): (m: Online)
    ensures forall k :: k in m <==> exists i :: 0 <= i < |rows| && rows[i].mac == k
  {
    if rows == [] then map[]
    else
      var init := rows[..|rows| - 1];
      var m := DeviceMap(init)[rows[|rows| - 1].mac := rows[|rows| - 1]];
      assert forall i :: 0 <= i < |init| ==> init[i] == rows[i];
      assert forall k :: k in m ==> (k in DeviceMap(init) || rows[|rows| - 1].mac == k);
      m
  }

  datatype History = History(online: Online, emptyStreak: nat, events: seq<Event>)

  predicate Deferred(h: History, rows: seq<Row>) {
    rows == [] && h.online != map[] && h.emptyStreak + 1 < EMPTY_CONFIRMATIONS
  }

  function Streak(h: History, rows: seq<Row>): nat {
    if rows == [] && h.online != map[] then h.emptyStreak + 1 else 0
  }

  function Times(events: seq<Event>, e: Event): nat {
    if events == [] then 0 else (if events[|events| - 1] == e then 1 else 0) + Times(events[..|events| - 1], e)
  }

  /** One event per MAC whose membership changes, no other; in any order. */
  ghost predicate Reports(news: seq<Event>, before: Online, after: Online) {
    forall mac :: Times(news, Event(mac, true)) == (if mac in after && mac !in before then 1 else 0)
               && Times(news, Event(mac, false)) == (if mac in before && mac !in after then 1 else 0)
  }

  ghost predicate Ingested(h: History, rows: seq<Row>, h': History) {
    if Deferred(h, rows) then h' == h.(emptyStreak := Streak(h, rows))
    else
      && h'.online == DeviceMap(rows) && h'.emptyStreak == Streak(h, rows)
      && |h.events| <= |h'.events| && h'.events[..|h.events|] == h.events
      && Reports(h'.events[|h.events|..], h.online, h'.online)
  }

  /** A run from the first history to the last, one snapshot at a time. */
  ghost predicate Run(hs: seq<History>, snapshots: seq<seq<Row>>) {
    && |hs| == |snapshots| + 1
    && forall i :: 0 <= i < |snapshots| ==> Ingested(hs[i], snapshots[i], hs[i + 1])
  }

  // -------------------------------------------------------------- conservation

  /** Whether the MAC is online after the events, having been `start` before them. */
  function OnlineAfter(events: seq<Event>, mac: string, start: bool): bool {
    if events == [] then start
    else if events[|events| - 1].mac == mac then events[|events| - 1].online
    else OnlineAfter(events[..|events| - 1], mac, start)
  }

  /** Each of the MAC's events flips what held before it. */
  ghost predicate Alternates(events: seq<Event>, mac: string, start: bool) {
    forall k :: 0 <= k < |events| && events[k].mac == mac ==> events[k].online != OnlineAfter(events[..k], mac, start)
  }

  function Sign(b: bool): int {
    if b then 1 else 0
  }

  lemma {:induction false} TimesConcat(a: seq<Event>, b: seq<Event>, e: Event)
    ensures Times(a + b, e) == Times(a, e) + Times(b, e)
  {
    if b == [] {
      assert a + b == a;
    } else {
      TimesConcat(a, b[..|b| - 1], e);
      assert (a + b)[..|a + b| - 1] == a + b[..|b| - 1];
    }
  }

  lemma {:induction false} OnlineAfterConcat(a: seq<Event>, b: seq<Event>, mac: string, start: bool)
    ensures OnlineAfter(a + b, mac, start) == OnlineAfter(b, mac, OnlineAfter(a, mac, start))
  {
    if b == [] {
      assert a + b == a;
    } else {
      OnlineAfterConcat(a, b[..|b| - 1], mac, start);
      assert (a + b)[..|a + b| - 1] == a + b[..|b| - 1];
    }
  }

  lemma {:induction false} Untouched(events: seq<Event>, mac: string, start: bool)
    requires Times(events, Event(mac, true)) == 0 && Times(events, Event(mac, false)) == 0
    ensures OnlineAfter(events, mac, start) == start
    ensures forall k :: 0 <= k < |events| ==> events[k].mac != mac
  {
    if events != [] {
      var last := events[|events| - 1];
      assert last == Event(last.mac, last.online);
      Untouched(events[..|events| - 1], mac, start);
    }
  }

  /** A single event of the MAC flips it. */
  lemma {:induction false} FlipsOnce(events: seq<Event>, mac: string, start: bool)
    requires Times(events, Event(mac, !start)) == 1 && Times(events, Event(mac, start)) == 0
    ensures OnlineAfter(events, mac, start) == !start && Alternates(events, mac, start)
  {
    var init, last := events[..|events| - 1], events[|events| - 1];
    if last.mac == mac {
      assert last == Event(mac, last.online);
      Untouched(init, mac, start);
      assert events[..|init|] == init;
      assert forall k :: 0 <= k < |init| ==> events[k].mac == init[k].mac != mac;
    } else {
      FlipsOnce(init, mac, start);
      forall k | 0 <= k < |events| && events[k].mac == mac ensures events[k].online != OnlineAfter(events[..k], mac, start) {
        assert init[k] == events[k] && init[..k] == events[..k];
      }
    }
  }

  lemma AlternatesConcat(a: seq<Event>, b: seq<Event>, mac: string, start: bool)
    requires Alternates(a, mac, start) && Alternates(b, mac, OnlineAfter(a, mac, start))
    ensures Alternates(a + b, mac, start)
  {
    var all := a + b;
    forall k | 0 <= k < |all| && all[k].mac == mac ensures all[k].online != OnlineAfter(all[..k], mac, start) {
      if k < |a| {
        assert all[..k] == a[..k];
      } else {
        assert all[..k] == a + b[..k - |a|];
        OnlineAfterConcat(a, b[..k - |a|], mac, start);
      }
    }
  }

  /** What one accepted snapshot's events do for one MAC. */
  lemma ReportsFlip(news: seq<Event>, before: Online, after: Online, mac: string)
    requires Reports(news, before, after)
    ensures OnlineAfter(news, mac, mac in before) == (mac in after) && Alternates(news, mac, mac in before)
    ensures Times(news, Event(mac, true)) - Times(news, Event(mac, false)) == Sign(mac in after) - Sign(mac in before)
  {
    if (mac in before) == (mac in after) {
      Untouched(news, mac, mac in before);
    } else {
      FlipsOnce(news, mac, mac in before);
    }
  }

  /** For every MAC, online events minus offline events are the change of its membership,
      and its events alternate. */
  lemma {:induction false} EventsFollowMembership(hs: seq<History>, snapshots: seq<seq<Row>>, mac: string)
    requires Run(hs, snapshots) && hs[0].events == []
    ensures var end := hs[|snapshots|];
            && Times(end.events, Event(mac, true)) - Times(end.events, Event(mac, false))
                == Sign(mac in end.online) - Sign(mac in hs[0].online)
            && OnlineAfter(end.events, mac, mac in hs[0].online) == (mac in end.online)
            && Alternates(end.events, mac, mac in hs[0].online)
  {
    hide Alternates, Reports;
    if snapshots == [] {
      NoEvents(mac, mac in hs[0].online);
    } else {
      var n := |snapshots| - 1;
      EventsFollowMembership(hs[..n + 1], snapshots[..n], mac);
      assert hs[n] == hs[..n + 1][n] && Ingested(hs[n], snapshots[n], hs[n + 1]);
      var h, h' := hs[n], hs[n + 1];
      if !Deferred(h, snapshots[n]) {
        var news := h'.events[|h.events|..];
        assert h'.events == h.events + news;
        ReportsFlip(news, h.online, h'.online, mac);
        TimesConcat(h.events, news, Event(mac, true));
        TimesConcat(h.events, news, Event(mac, false));
        OnlineAfterConcat(h.events, news, mac, mac in hs[0].online);
        AlternatesConcat(h.events, news, mac, mac in hs[0].online);
      }
    }
  }

  lemma NoEvents(mac: string, start: bool)
    ensures Alternates([], mac, start)
  {
  }

  // -------------------------------------------------------------- empty snapshots

  /** A counted streak over a non-empty set means the snapshot before was empty. */
  lemma {:induction false} StreakMeansEmpty(hs: seq<History>, snapshots: seq<seq<Row>>, k: nat)
    requires Run(hs, snapshots) && hs[0].emptyStreak == 0 && k < |hs|
    ensures hs[k].online != map[] && hs[k].emptyStreak > 0 ==>
            k >= 1 && snapshots[k - 1] == [] && hs[k - 1].online == hs[k].online
    ensures hs[k].online != map[] ==> hs[k].emptyStreak < EMPTY_CONFIRMATIONS
  {
    hide Reports;
    if k > 0 {
      StreakMeansEmpty(hs, snapshots, k - 1);
      assert Ingested(hs[k - 1], snapshots[k - 1], hs[k]);
      NonEmptyMap(snapshots[k - 1]);
    }
  }

  lemma NonEmptyMap(rows: seq<Row>)
    ensures DeviceMap(rows) == map[] <==> rows == []
  {
    if rows != [] {
      assert rows[0].mac in DeviceMap(rows);
    }
  }

  /** A non-empty online set is emptied by a snapshot if and only if that snapshot and the
      one before it are both empty. */
  lemma EmptiedIffTwice(hs: seq<History>, snapshots: seq<seq<Row>>, k: nat)
    requires Run(hs, snapshots) && hs[0].emptyStreak == 0 && k < |snapshots| && hs[k].online != map[]
    ensures hs[k + 1].online == map[] <==> k >= 1 && snapshots[k] == [] && snapshots[k - 1] == []
  {
    hide Reports;
    StreakMeansEmpty(hs, snapshots, k);
    assert Ingested(hs[k], snapshots[k], hs[k + 1]);
    NonEmptyMap(snapshots[k]);
    if k >= 1 {
      assert Ingested(hs[k - 1], snapshots[k - 1], hs[k]);
      NonEmptyMap(snapshots[k - 1]);
    }
  }

  /** No later row has the MAC address of this one. */
  ghost predicate IsLastOf(rows: seq<Row>, i: nat)
    requires i < |rows|
  {
    forall j :: i < j < |rows| ==> rows[j].mac != rows[i].mac
  }

  ghost predicate Names(rows: seq<Row>, mac: string) {
    exists i :: 0 <= i < |rows| && rows[i].mac == mac
  }

  lemma {:induction false} DeviceMapLast(rows: seq<Row>, i: nat)
    requires i < |rows| && IsLastOf(rows, i)
    ensures rows[i].mac in DeviceMap(rows) && DeviceMap(rows)[rows[i].mac] == rows[i]
  {
    if i < |rows| - 1 {
      var init := rows[..|rows| - 1];
      assert IsLastOf(init, i);
      DeviceMapLast(init, i);
      assert rows[|rows| - 1].mac != rows[i].mac;
    }
  }

  /** Snapshot by snapshot: a single empty one leaves the online devices as they are; any
      other replaces them by its own rows, the last for each MAC address. */
  lemma OnlineFollows(hs: seq<History>, snapshots: seq<seq<Row>>, k: nat)
    requires Run(hs, snapshots) && hs[0].emptyStreak == 0 && k < |snapshots|
    ensures var rows := snapshots[k];
            if rows == [] && (k == 0 || snapshots[k - 1] != []) then hs[k + 1].online == hs[k].online
            else
              && (forall mac :: mac in hs[k + 1].online <==> Names(rows, mac))
              && (forall i :: 0 <= i < |rows| && IsLastOf(rows, i) ==>
                    rows[i].mac in hs[k + 1].online && hs[k + 1].online[rows[i].mac] == rows[i])
  {
    hide Reports, IsLastOf;
    StreakMeansEmpty(hs, snapshots, k);
    assert Ingested(hs[k], snapshots[k], hs[k + 1]);
    NonEmptyMap(snapshots[k]);
    if k >= 1 {
      assert Ingested(hs[k - 1], snapshots[k - 1], hs[k]);
      NonEmptyMap(snapshots[k - 1]);
    }
    forall i | 0 <= i < |snapshots[k]| && IsLastOf(snapshots[k], i)
      ensures snapshots[k][i].mac in DeviceMap(snapshots[k]) && DeviceMap(snapshots[k])[snapshots[k][i].mac] == snapshots[k][i]
    {
      DeviceMapLast(snapshots[k], i);
    }
  }

  // ------------------------------------------------------------------ the object

  class DurableDeviceHistory {
    var online: Online
    var emptyStreak: nat
    var events: seq<Event>

    ghost function Now(): History
      reads this
    {
      History(online, emptyStreak, events)
    }

    constructor ()
      ensures Now() == History(map[], 0, [])
    {
      online, emptyStreak, events := map[], 0, [];
    }

    method Ingest(rows: seq<Row>) returns (accepted: bool)
      modifies this
      ensures Ingested(old(Now()), rows, Now()) && accepted == !Deferred(old(Now()), rows)
    {
      hide Reports;
      if rows == [] && online != map[] {
        emptyStreak := emptyStreak + 1;
        if emptyStreak < EMPTY_CONFIRMATIONS {
          return false;
        }
      } else {
        emptyStreak := 0;
      }
      var current := DeviceMap(rows);
      AddTransitions(current);
      online := current;
      accepted := true;
    }

    /** An online event for each new MAC, then an offline event for each one gone. */
    method AddTransitions(current: Online)
      modifies `events
      ensures |old(events)| <= |events| && events[..|old(events)|] == old(events)
      ensures Reports(events[|old(events)|..], online, current)
    {
      ghost var ups := AddAll(current.Keys - online.Keys, true);
      ghost var downs := AddAll(online.Keys - current.Keys, false);
      assert events[|old(events)|..] == ups + downs;
      AllReported(ups, downs, online, current);
    }

    /** One event for each MAC, in any order. */
    method AddAll(macs: set<string>, isOnline: bool) returns (ghost news: seq<Event>)
      modifies `events
      ensures events == old(events) + news && Owes(news, macs, isOnline)
    {
      hide Owes;
      news := [];
      var left := macs;
      NothingReported(macs, isOnline);
      while left != {}
        invariant left <= macs && events == old(events) + news
        invariant Owes(news, macs - left, isOnline)
        decreases |left|
      {
        var mac :| mac in left;
        OneMore(news, macs - left, Event(mac, isOnline));
        assert macs - left + {mac} == macs - (left - {mac});
        events, news := events + [Event(mac, isOnline)], news + [Event(mac, isOnline)];
        left := left - {mac};
      }
      assert macs - {} == macs;
    }
  }

  /** Exactly one event of this kind for each of the MACs, none of the other kind. */
  ghost predicate Owes(news: seq<Event>, macs: set<string>, isOnline: bool) {
    forall mac :: Times(news, Event(mac, isOnline)) == (if mac in macs then 1 else 0) && Times(news, Event(mac, !isOnline)) == 0
  }

  lemma NothingReported(macs: set<string>, isOnline: bool)
    ensures Owes([], macs - macs, isOnline)
  {
  }

  lemma OneMore(news: seq<Event>, macs: set<string>, e: Event)
    requires Owes(news, macs, e.online) && e.mac !in macs
    ensures Owes(news + [e], macs + {e.mac}, e.online)
  {
    assert (news + [e])[..|news|] == news;
    forall x: Event ensures Times(news + [e], x) == Times(news, x) + if x == e then 1 else 0 {
    }
  }

  lemma AllReported(ups: seq<Event>, downs: seq<Event>, before: Online, after: Online)
    requires Owes(ups, after.Keys - before.Keys, true) && Owes(downs, before.Keys - after.Keys, false)
    ensures Reports(ups + downs, before, after)
  {
    forall e: Event ensures Times(ups + downs, e) == Times(ups, e) + Times(downs, e) {
      TimesConcat(ups, downs, e);
    }
  }
}
