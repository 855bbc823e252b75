/** Per-device online seconds of the current day (hub.py update_daily_online_durations). */
module DailyOnline {
  import opened Wrappers

  const DAY := 86400
  const MAX_GAP := 300

  /** Local midnight at or before a local time in seconds. */
  function Midnight(now: nat): (m: nat)
    ensures m <= now < m + DAY && m % DAY == 0
  {
    now / DAY * DAY
  }

  /** The duration fields of one router row: an active time, and a parsed start time. */
  datatype Item = Item(active: int, start: Option<int>)

  /** today_online_seconds_from_item */
  function Seed(item: Item, now: nat): (s: nat)
    ensures s <= now - Midnight(now)
  {
    var since := now - Midnight(now);
    if item.start.Some? then
      var windowStart := if item.start.value > Midnight(now) then item.start.value else Midnight(now);
      if now - windowStart < 0 then 0 else if now - windowStart < since then now - windowStart else since
    else if item.active > 0 then (if item.active < since then item.active else since)
    else 0
  }

  datatype Entry = Entry(seconds: nat, online: bool, lastSample: nat)

  /** `day` is the midnight the entries belong to. */
  datatype Daily = Daily(day: nat, entries: map<string, Entry>)

  /** A device present in this snapshot. */
  function Counted(entry: Option<Entry>, item: Item, now: nat): Entry {
    var seconds := if entry.Some? then entry.value.seconds else 0;
    var grown :=
      if entry.Some? && entry.value.online && entry.value.lastSample > 0 then
        var delta := if now > entry.value.lastSample then now - entry.value.lastSample else 0;
        seconds + if delta < MAX_GAP then delta else MAX_GAP
      else seconds;
    Entry(if Seed(item, now) > grown then Seed(item, now) else grown, true, now)
  }

  function EntryOf(entries: map<string, Entry>, mac: string): Option<Entry> {
    if mac in entries then Some(entries[mac]) else None
  }

  function Sampled(d: Daily, devices: map<string, Item>, now: nat): Daily {
    var entries := if d.day == Midnight(now) then d.entries else map[];
    Daily(Midnight(now), map mac | mac in entries.Keys + devices.Keys ::
      if mac in devices then Counted(EntryOf(entries, mac), devices[mac], now)
      else entries[mac].(online := false, lastSample := now))
  }

  datatype Snapshot = Snapshot(devices: map<string, Item>, now: nat)

  function Run(d: Daily, ss: seq<Snapshot>): Daily {
    if ss == [] then d else Sampled(Run(d, ss[..|ss| - 1]), ss[|ss| - 1].devices, ss[|ss| - 1].now)
  }

  // ------------------------------------------------------------------- bounds

  /** Nothing counted beyond midnight's distance, nothing sampled after `now`. */
  ghost predicate Bounded(d: Daily, now: nat) {
    forall mac :: mac in d.entries ==>
      d.day <= d.entries[mac].lastSample <= now && d.entries[mac].seconds <= d.entries[mac].lastSample - d.day
  }

  lemma CountedBounded(entry: Option<Entry>, item: Item, now: nat)
    requires entry.Some? ==>
             Midnight(now) <= entry.value.lastSample <= now
             && entry.value.seconds <= entry.value.lastSample - Midnight(now)
    ensures Counted(entry, item, now).seconds <= now - Midnight(now)
  {
  }

  lemma SampledBounded(d: Daily, devices: map<string, Item>, before: nat, now: nat)
    requires Bounded(d, before) && before <= now
    ensures Bounded(Sampled(d, devices, now), now)
  {
    hide Counted, Seed, Midnight;
    var after := Sampled(d, devices, now);
    var entries := if d.day == Midnight(now) then d.entries else map[];
    forall mac | mac in after.entries
      ensures after.day <= after.entries[mac].lastSample <= now
              && after.entries[mac].seconds <= after.entries[mac].lastSample - after.day
    {
      if mac in devices {
        CountedBounded(EntryOf(entries, mac), devices[mac], now);
        CountedNow(EntryOf(entries, mac), devices[mac], now);
      }
    }
  }

  lemma CountedNow(entry: Option<Entry>, item: Item, now: nat)
    ensures var c := Counted(entry, item, now);
            c.lastSample == now && c.online && c.seconds >= Seed(item, now) && (entry.Some? ==> c.seconds >= entry.value.seconds)
  {
  }

  ghost predicate ClockForward(start: nat, ss: seq<Snapshot>) {
    (ss != [] ==> start <= ss[0].now) && forall i :: 0 < i < |ss| ==> ss[i - 1].now <= ss[i].now
  }

  /** With a clock that does not run backwards no device ever has more seconds than had
      passed since midnight at its last sample. */
  lemma {:induction false} RunBounded(d: Daily, start: nat, ss: seq<Snapshot>)
    requires Bounded(d, start) && ClockForward(start, ss)
    ensures Bounded(Run(d, ss), if ss == [] then start else ss[|ss| - 1].now)
  {
    hide Sampled, Bounded;
    if ss != [] {
      var init := ss[..|ss| - 1];
      RunBounded(d, start, init);
      SampledBounded(Run(d, init), ss[|ss| - 1].devices, if init == [] then start else init[|init| - 1].now, ss[|ss| - 1].now);
    }
  }

  /** One snapshot: counted devices do not lose seconds within the day, cover the router's
      seed, and gain more than the gap cap only through the seed. */
  lemma SampledGrows(d: Daily, devices: map<string, Item>, now: nat, mac: string)
    ensures var after := Sampled(d, devices, now);
            && (mac in devices ==> mac in after.entries && after.entries[mac].seconds >= Seed(devices[mac], now))
            && (d.day == Midnight(now) && mac in d.entries ==>
                  && mac in after.entries && d.entries[mac].seconds <= after.entries[mac].seconds
                  && (mac !in devices ==> after.entries[mac].seconds == d.entries[mac].seconds)
                  && (mac in devices && after.entries[mac].seconds > d.entries[mac].seconds + MAX_GAP ==>
                        after.entries[mac].seconds == Seed(devices[mac], now)))
  {
    hide Seed, Midnight;
  }

  /** What the router claims for the day: the time since the start it reports, but not since
      before midnight, or else its active time, at most the time since midnight. */
  lemma SeedIs(item: Item, now: nat)
    ensures item.start.Some? && Midnight(now) <= item.start.value <= now ==> Seed(item, now) == now - item.start.value
    ensures item.start.Some? && item.start.value <= Midnight(now) ==> Seed(item, now) == now - Midnight(now)
    ensures item.start.Some? && item.start.value >= now ==> Seed(item, now) == 0
    ensures item.start.None? && 0 <= item.active <= now - Midnight(now) ==> Seed(item, now) == item.active
    ensures item.start.None? && item.active >= now - Midnight(now) ==> Seed(item, now) == now - Midnight(now)
    ensures item.start.None? && item.active <= 0 ==> Seed(item, now) == 0
  {
  }

  /** One device present in one snapshot has the router's claim or what was counted, whichever
      is more; counted is what it had today, and, if it was present at the sample before, the
      time since, but no more than five minutes. */
  lemma SampledCounts(d: Daily, devices: map<string, Item>, now: nat, mac: string)
    requires mac in devices
    ensures var after := Sampled(d, devices, now); var today := d.day == Midnight(now) && mac in d.entries;
            var had := if today then d.entries[mac].seconds else 0;
            var since := if today && d.entries[mac].online && d.entries[mac].lastSample > 0 && now > d.entries[mac].lastSample
                         then now - d.entries[mac].lastSample else 0;
            var counted := had + if since > 300 then 300 else since;
            && mac in after.entries && after.entries[mac].online && after.entries[mac].lastSample == now
            && after.entries[mac].seconds >= counted && after.entries[mac].seconds >= Seed(devices[mac], now)
            && (after.entries[mac].seconds == counted || after.entries[mac].seconds == Seed(devices[mac], now))
  {
    hide Seed, Midnight;
  }

  /** The device is in every snapshot, they are at most five minutes apart, all of one day. */
  ghost predicate Present(ss: seq<Snapshot>, mac: string, day: nat, start: nat) {
    forall i: nat :: i < |ss| ==>
      mac in ss[i].devices && Midnight(ss[i].now) == day && Before(ss, i, start) <= ss[i].now <= Before(ss, i, start) + 300
  }

  function Before(ss: seq<Snapshot>, i: nat, start: nat): nat
    requires i < |ss|
  {
    if i == 0 then start else ss[i - 1].now
  }

  /** A device that stays present is credited with all of the time; with exactly that, if the
      router makes no claims for it, as for wired devices. */
  lemma {:induction false} PresentCounts(d: Daily, ss: seq<Snapshot>, mac: string)
    requires mac in d.entries && d.entries[mac].online && d.entries[mac].lastSample > 0
    requires Present(ss, mac, d.day, d.entries[mac].lastSample)
    ensures var after := Run(d, ss); var e := d.entries[mac];
            var end := if ss == [] then e.lastSample else ss[|ss| - 1].now;
            && after.day == d.day && mac in after.entries && after.entries[mac].online
            && after.entries[mac].lastSample == end >= e.lastSample
            && after.entries[mac].seconds >= e.seconds + (end - e.lastSample)
            && ((forall i :: 0 <= i < |ss| && mac in ss[i].devices ==> Seed(ss[i].devices[mac], ss[i].now) == 0) ==>
                  after.entries[mac].seconds == e.seconds + (end - e.lastSample))
  {
    hide Sampled, Seed, Midnight;
    if ss != [] {
      var init, last, start := ss[..|ss| - 1], ss[|ss| - 1], d.entries[mac].lastSample;
      forall i: nat | i < |init| ensures init[i] == ss[i] && Before(init, i, start) == Before(ss, i, start) {
      }
      PresentCounts(d, init, mac);
      var n: nat := |init|;
      assert mac in ss[n].devices && Midnight(ss[n].now) == d.day;
      assert Before(ss, n, start) <= ss[n].now <= Before(ss, n, start) + 300;
      SampledCounts(Run(d, init), last.devices, last.now, mac);
      SampledDay(Run(d, init), last.devices, last.now);
    }
  }

  /** Over any stretch of snapshots within one day a device's seconds never shrink. */
  lemma {:induction false} DayGrows(d: Daily, ss: seq<Snapshot>, mac: string)
    requires forall i :: 0 <= i < |ss| ==> Midnight(ss[i].now) == d.day
    requires mac in d.entries
    ensures var after := Run(d, ss);
            after.day == d.day && mac in after.entries && d.entries[mac].seconds <= after.entries[mac].seconds
  {
    hide Sampled, Midnight;
    if ss != [] {
      var init, last := ss[..|ss| - 1], ss[|ss| - 1];
      DayGrows(d, init, mac);
      SampledGrows(Run(d, init), last.devices, last.now, mac);
      SampledDay(Run(d, init), last.devices, last.now);
    }
  }

  lemma SampledDay(d: Daily, devices: map<string, Item>, now: nat)
    ensures Sampled(d, devices, now).day == Midnight(now)
  {
  }

  /** The clock condition, exactly: whatever the clock says and whoever is present, a
      snapshot of the same day keeps the bound if and only if no device had been counted
      beyond the new time. */
  lemma SampledBoundedIff(d: Daily, devices: map<string, Item>, before: nat, now: nat)
    requires Bounded(d, before) && d.day == Midnight(now)
    ensures Bounded(Sampled(d, devices, now), now)
            <==> forall mac :: mac in d.entries ==> d.entries[mac].seconds <= now - Midnight(now)
  {
    hide Counted, Seed, Midnight;
    var after := Sampled(d, devices, now);
    forall mac | mac in devices
      ensures var c := Counted(EntryOf(d.entries, mac), devices[mac], now);
              c.lastSample == now
              && (c.seconds <= now - Midnight(now) <==> (mac in d.entries ==> d.entries[mac].seconds <= now - Midnight(now)))
    {
      CountedFits(EntryOf(d.entries, mac), devices[mac], now);
    }
    assert forall mac :: mac in d.entries ==>
           mac in after.entries && (mac !in devices ==> after.entries[mac].seconds == d.entries[mac].seconds);
    assert after.day == Midnight(now);
    MidnightBefore(now);
  }

  lemma MidnightBefore(now: nat)
    ensures Midnight(now) <= now
  {
  }

  /** A present device fits the time since midnight exactly when it did before. */
  lemma CountedFits(entry: Option<Entry>, item: Item, now: nat)
    requires entry.Some? ==>
             Midnight(now) <= entry.value.lastSample && entry.value.seconds <= entry.value.lastSample - Midnight(now)
    ensures var c := Counted(entry, item, now);
            c.lastSample == now
            && (c.seconds <= now - Midnight(now) <==> (entry.Some? ==> entry.value.seconds <= now - Midnight(now)))
  {
  }

  /** ... which a clock set back by a minute breaks. */
  lemma BackwardClockBreaks()
    ensures var ss := [Snapshot(map["m" := Item(100, None)], 100), Snapshot(map[], 40)];
            var after := Run(Daily(0, map[]), ss);
            "m" in after.entries && after.entries["m"].seconds > after.entries["m"].lastSample - after.day
  {
    var s1, s2 := Snapshot(map["m" := Item(100, None)], 100), Snapshot(map[], 40);
    assert [s1, s2][..1] == [s1] && [s1][..0] == [];
    assert Run(Daily(0, map[]), []) == Daily(0, map[]);
    assert Run(Daily(0, map[]), [s1]).entries["m"] == Entry(100, true, 100);
  }

  // ------------------------------------------------------------------ the loops

  class DailyStore {
    var day: nat
    var entries: map<string, Entry>

    ghost function Now(): Daily
      reads this
    {
      Daily(day, entries)
    }

    constructor ()
      ensures Now() == Daily(0, map[])
    {
      day, entries := 0, map[];
    }

    /** Close the devices absent from the snapshot, then count the present ones. */
    method Sample(devices: map<string, Item>, now: nat)
      modifies this
      ensures Now() == Sampled(old(Now()), devices, now)
    {
      hide Counted, Seed, Midnight;
      if day != Midnight(now) {
        day, entries := Midnight(now), map[];
      }
      ghost var start := entries;
      CloseAbsent(devices, now);
      CountPresent(devices, now);
      SampledPointwise(Daily(Midnight(now), start), devices, now, entries);
    }

    method CountPresent(devices: map<string, Item>, now: nat)
      modifies `entries
      ensures forall mac :: mac in entries <==> mac in old(entries) || mac in devices
      ensures forall mac :: mac in entries ==>
        entries[mac] == if mac in devices then Counted(EntryOf(old(entries), mac), devices[mac], now) else old(entries)[mac]
    {
      hide Counted;
      var left := devices.Keys;
      while left != {}
        invariant forall mac :: mac in left ==> mac in devices
        invariant forall mac :: mac in entries <==> mac in old(entries) || (mac in devices && mac !in left)
        invariant forall mac :: mac in entries ==>
          entries[mac] == if mac in devices && mac !in left then Counted(EntryOf(old(entries), mac), devices[mac], now)
              else old(entries)[mac]
        decreases |left|
      {
        var mac :| mac in left;
        var counted := CountDevice(EntryOf(entries, mac), devices[mac], now);
        entries := entries[mac := counted];
        left := left - {mac};
      }
    }

    method CloseAbsent(devices: map<string, Item>, now: nat)
      modifies `entries
      ensures entries.Keys == old(entries).Keys
      ensures forall mac :: mac in entries ==>
        entries[mac] == if mac in devices then old(entries)[mac] else old(entries)[mac].(online := false, lastSample := now)
    {
      var left := entries.Keys;
      while left != {}
        invariant left <= entries.Keys == old(entries).Keys
        invariant forall mac :: mac in entries ==>
          entries[mac] == if mac in devices || mac in left then old(entries)[mac]
              else old(entries)[mac].(online := false, lastSample := now)
        decreases |left|
      {
        var mac :| mac in left;
        left := left - {mac};
        if mac !in devices {
          entries := entries[mac := entries[mac].(online := false, lastSample := now)];
        }
      }
    }

    /** The body of the counting loop. */
    static method CountDevice(entry: Option<Entry>, item: Item, now: nat) returns (r: Entry)
      ensures r == Counted(entry, item, now)
    {
      var seed := Seed(item, now);
      var seconds := 0;
      if entry.Some? {
        seconds := entry.value.seconds;
        if entry.value.online && entry.value.lastSample > 0 {
          var delta := if now > entry.value.lastSample then now - entry.value.lastSample else 0;
          seconds := seconds + if delta < MAX_GAP then delta else MAX_GAP;
        }
      }
      if seed > seconds {
        seconds := seed;
      }
      r := Entry(seconds, true, now);
    }
  }

  lemma SampledPointwise(d: Daily, devices: map<string, Item>, now: nat, entries: map<string, Entry>)
    requires d.day == Midnight(now)
    requires forall mac :: mac in entries <==> mac in d.entries || mac in devices
    requires forall mac :: mac in entries ==>
      entries[mac] == if mac in devices then Counted(EntryOf(d.entries, mac), devices[mac], now)
                      else d.entries[mac].(online := false, lastSample := now)
    ensures Sampled(d, devices, now).entries == entries
  {
    hide Counted, Midnight;
    assert Sampled(d, devices, now).entries.Keys == entries.Keys;
  }
}
