/** The numbered log on top of the diffs: saving, pruning, paging, and what a
    following client may rely on (labprobe_storage.py). */
module RevisionSync {
  import opened Json
  import opened RevisionLog
  import opened RevisionSnapshot

  // ------------------------------------------------------------- the server

  /** `issued` is SQLite's AUTOINCREMENT mark; `history` holds every row ever
      inserted, pruned or not. */
  datatype Server = Server(docs: Documents, log: seq<Row>, issued: nat, lastPruneAt: int, history: seq<Row>)

  datatype Clock = Clock(now: int, monotonic: int)

  function Current(log: seq<Row>): nat {
    if log == [] then 0 else log[|log| - 1].revision
  }

  function Oldest(log: seq<Row>): nat {
    if log == [] then 0 else log[0].revision
  }

  function Number(cs: seq<Change>, issued: nat, now: int): seq<Row> {
    seq(|cs|, i requires 0 <= i < |cs| => Row(issued + i + 1, cs[i], now))
  }

  /** Drop every row older than the cutoff, wherever in the log it stands. */
  function KeepRecent(log: seq<Row>, cutoff: int): seq<Row> {
    if log == [] then []
    else
      var rest := KeepRecent(log[..|log| - 1], cutoff);
      if log[|log| - 1].createdAt < cutoff then rest else rest + [log[|log| - 1]]
  }

  /** Keep the newest n rows. */
  function KeepNewest(log: seq<Row>, n: nat): seq<Row> {
    if |log| <= n then log else log[|log| - n..]
  }

  function Prune(cfg: Config, s: Server, clock: Clock, force: bool): Server {
    if !force && clock.monotonic - s.lastPruneAt < cfg.pruneInterval then s
    else s.(log := KeepNewest(KeepRecent(s.log, clock.now - cfg.maxAge), cfg.maxRows), lastPruneAt := clock.monotonic)
  }

  function Append(s: Server, cs: seq<Change>, now: int): Server {
    var rows := Number(cs, s.issued, now);
    s.(log := s.log + rows, issued := s.issued + |cs|, history := s.history + rows)
  }

  predicate Unchanged(s: Server, key: string, value: Json) {
    key in s.docs && s.docs[key] == value
  }

  /** What a save must insert into the log. */
  function SaveDiff(cfg: Config, s: Server, key: string, value: Json): map<EntityKey, Change> {
    DocumentDiff(cfg, key, DocumentOf(s.docs, key), value)
  }

  /** `cs` is the order in which the changed rows were inserted. */
  function SaveWith(cfg: Config, s: Server, key: string, value: Json, cs: seq<Change>, clock: Clock): Server {
    if Unchanged(s, key, value) then s
    else Prune(cfg, Append(s.(docs := s.docs[key := value]), cs, clock.now), clock, false)
  }

  const BASELINE_CHANGE := Change(System, Baseline, "database", Null)

  /** initialize() on an existing or freshly migrated database. */
  function Restart(cfg: Config, s: Server, clock: Clock): Server {
    var s1 := if Current(s.log) == 0 then Append(s, [BASELINE_CHANGE], clock.now) else s;
    Prune(cfg, s1, clock, true)
  }

  // ------------------------------------------------------------ changes_since

  datatype Reply = Reply(oldest: nat, revision: nat, fullRequired: bool, hasMore: bool,
                         changes: seq<Row>, nextRevision: int)

  function RowsAfter(log: seq<Row>, since: int): seq<Row> {
    if log == [] then []
    else
      var rest := RowsAfter(log[..|log| - 1], since);
      if log[|log| - 1].revision > since then rest + [log[|log| - 1]] else rest
  }

  function Clamp(limit: int): nat {
    if limit < 1 then 1 else if limit > 1000 then 1000 else limit
  }

  predicate FullRequired(log: seq<Row>, since: int) {
    since < 0 || (Oldest(log) > 0 && since < Oldest(log) - 1) || since > Current(log)
  }

  function ChangesSince(log: seq<Row>, since: int, limit: int): Reply {
    if FullRequired(log, since) then Reply(Oldest(log), Current(log), true, false, [], since)
    else
      var rows := RowsAfter(log, since);
      var n := Clamp(limit);
      var page := if |rows| > n then rows[..n] else rows;
      Reply(Oldest(log), Current(log), false, |rows| > n, page,
            if page == [] then since else page[|page| - 1].revision)
  }

  // ------------------------------------------------------------- invariants

  /** Revisions are issued 1, 2, 3, ... */
  ghost predicate Numbered(history: seq<Row>) {
    forall i :: 0 <= i < |history| ==> history[i].revision == i + 1
  }

  ghost predicate Ordered(history: seq<Row>) {
    forall i, j :: 0 <= i <= j < |history| ==> history[i].createdAt <= history[j].createdAt
  }

  /** The retained log is what is left after dropping a prefix. */
  ghost predicate IsSuffix(log: seq<Row>, history: seq<Row>) {
    |log| <= |history| && log == history[|history| - |log|..]
  }

  function ChangesOf(rows: seq<Row>): seq<Change> {
    seq(|rows|, i requires 0 <= i < |rows| => rows[i].change)
  }

  ghost function Replay(r: Replica, rows: seq<Row>): Replica {
    ReplayChanges(r, ChangesOf(rows))
  }

  /** `base` is what a snapshot showed before the first row was issued. */
  ghost predicate ServerOk(cfg: Config, base: Replica, s: Server) {
    && Numbered(s.history) && Ordered(s.history) && |s.history| == s.issued
    && IsSuffix(s.log, s.history)
    && Normal(Replay(base, s.history)) == Normal(View(cfg, s.docs))
  }

  lemma {:induction false} KeepRecentConcat(a: seq<Row>, b: seq<Row>, cutoff: int)
    ensures KeepRecent(a + b, cutoff) == KeepRecent(a, cutoff) + KeepRecent(b, cutoff)
  {
    if b == [] {
      assert a + b == a;
    } else {
      assert (a + b)[..|a + b| - 1] == a + b[..|b| - 1];
      KeepRecentConcat(a, b[..|b| - 1], cutoff);
    }
  }

  ghost predicate AllAged(log: seq<Row>, cutoff: int) {
    forall i :: 0 <= i < |log| ==> log[i].createdAt < cutoff
  }

  ghost predicate AllRecent(log: seq<Row>, cutoff: int) {
    forall i :: 0 <= i < |log| ==> log[i].createdAt >= cutoff
  }

  /** The rows that are too old come first. */
  ghost predicate AgedFirst(log: seq<Row>, cutoff: int) {
    forall i, j :: 0 <= i < j < |log| && log[j].createdAt < cutoff ==> log[i].createdAt < cutoff
  }

  lemma {:induction false} KeepRecentExtremes(log: seq<Row>, cutoff: int)
    ensures AllAged(log, cutoff) <==> KeepRecent(log, cutoff) == []
    ensures AllRecent(log, cutoff) ==> KeepRecent(log, cutoff) == log
    ensures AllRecent(KeepRecent(log, cutoff), cutoff)
  {
    hide AllAged, AllRecent;
    if log == [] {
      NoRows(cutoff);
    } else {
      var init, last := log[..|log| - 1], log[|log| - 1];
      KeepRecentExtremes(init, cutoff);
      assert log == init + [last];
      OneMoreRow(init, last, cutoff);
      OneMoreRow(KeepRecent(init, cutoff), last, cutoff);
    }
  }

  lemma NoRows(cutoff: int)
    ensures AllAged([], cutoff) && AllRecent([], cutoff)
  {
  }

  lemma OneMoreRow(init: seq<Row>, last: Row, cutoff: int)
    ensures AllAged(init + [last], cutoff) <==> AllAged(init, cutoff) && last.createdAt < cutoff
    ensures AllRecent(init + [last], cutoff) <==> AllRecent(init, cutoff) && last.createdAt >= cutoff
  {
    var log := init + [last];
    assert log[|init|] == last && forall i :: 0 <= i < |init| ==> log[i] == init[i];
  }

  /** Pruning by age leaves a suffix if and only if no row young enough stands before one
      that is too old. */
  lemma KeepRecentIsSuffixIff(log: seq<Row>, cutoff: int)
    ensures IsSuffix(KeepRecent(log, cutoff), log) <==> AgedFirst(log, cutoff)
  {
    hide KeepRecent, AgedFirst, IsSuffix;
    if IsSuffix(KeepRecent(log, cutoff), log) {
      SuffixMeansAgedFirst(log, cutoff);
    }
    if AgedFirst(log, cutoff) {
      AgedFirstLeavesSuffix(log, cutoff);
    }
  }

  lemma SuffixMeansAgedFirst(log: seq<Row>, cutoff: int)
    requires IsSuffix(KeepRecent(log, cutoff), log)
    ensures AgedFirst(log, cutoff)
  {
    hide KeepRecent, AgedFirst, AllAged, AllRecent;
    var kept := KeepRecent(log, cutoff);
    var aged := log[..|log| - |kept|];
    assert log == aged + kept;
    KeepRecentConcat(aged, kept, cutoff);
    KeepRecentExtremes(log, cutoff);
    KeepRecentExtremes(kept, cutoff);
    KeepRecentExtremes(aged, cutoff);
    assert |KeepRecent(aged, cutoff)| == 0;
    CutIsAgedFirst(aged, kept, cutoff);
  }

  lemma CutIsAgedFirst(aged: seq<Row>, kept: seq<Row>, cutoff: int)
    requires AllAged(aged, cutoff) && AllRecent(kept, cutoff)
    ensures AgedFirst(aged + kept, cutoff)
  {
  }

  lemma {:induction false} AgedFirstLeavesSuffix(log: seq<Row>, cutoff: int)
    requires AgedFirst(log, cutoff)
    ensures IsSuffix(KeepRecent(log, cutoff), log)
  {
    hide AgedFirst, AllAged, AllRecent, IsSuffix;
    if log == [] {
      SelfSuffix(log);
    } else {
      var init, last := log[..|log| - 1], log[|log| - 1];
      assert init + [last] == log;
      LastDecides(init, last, cutoff);
      if last.createdAt < cutoff {
        KeepRecentExtremes(log, cutoff);
        NothingIsSuffix(log);
      } else {
        AgedFirstLeavesSuffix(init, cutoff);
        SuffixGrows(KeepRecent(init, cutoff), init, last);
      }
    }
  }

  lemma LastDecides(init: seq<Row>, last: Row, cutoff: int)
    requires AgedFirst(init + [last], cutoff)
    ensures AgedFirst(init, cutoff) && (last.createdAt < cutoff ==> AllAged(init + [last], cutoff))
  {
    var log := init + [last];
    assert log[|init|] == last && forall i :: 0 <= i < |init| ==> log[i] == init[i];
  }

  lemma NothingIsSuffix(log: seq<Row>)
    ensures IsSuffix([], log)
  {
  }

  lemma OrderedAgedFirst(log: seq<Row>, cutoff: int)
    requires Ordered(log)
    ensures AgedFirst(log, cutoff)
  {
  }

  lemma SuffixGrows(log: seq<Row>, history: seq<Row>, row: Row)
    requires IsSuffix(log, history)
    ensures IsSuffix(log + [row], history + [row])
  {
  }

  lemma {:induction false} KeepRecentMember(log: seq<Row>, cutoff: int, i: nat)
    requires i < |KeepRecent(log, cutoff)|
    ensures KeepRecent(log, cutoff)[i] in log
    ensures KeepRecent(log, cutoff)[i].createdAt >= cutoff
  {
    var rest := KeepRecent(log[..|log| - 1], cutoff);
    if i < |rest| {
      KeepRecentMember(log[..|log| - 1], cutoff, i);
    }
  }

  lemma SuffixTransitive(a: seq<Row>, b: seq<Row>, c: seq<Row>)
    requires IsSuffix(a, b) && IsSuffix(b, c)
    ensures IsSuffix(a, c)
  {
  }

  lemma OrderedSuffix(log: seq<Row>, history: seq<Row>)
    requires Ordered(history) && IsSuffix(log, history)
    ensures Ordered(log)
  {
  }

  lemma SelfSuffix(log: seq<Row>)
    ensures IsSuffix(log, log)
  {
  }

  lemma NewestIsSuffix(log: seq<Row>, n: nat)
    ensures IsSuffix(KeepNewest(log, n), log)
  {
  }

  /** Pruning, forced or not, only drops a prefix. */
  lemma PruneKeepsSuffix(cfg: Config, s: Server, clock: Clock, force: bool)
    requires Ordered(s.history) && IsSuffix(s.log, s.history)
    ensures IsSuffix(Prune(cfg, s, clock, force).log, s.history)
    ensures IsSuffix(Prune(cfg, s, clock, force).log, s.log)
  {
    hide Ordered, IsSuffix, AgedFirst, KeepRecent, KeepNewest;
    var recent := KeepRecent(s.log, clock.now - cfg.maxAge);
    OrderedSuffix(s.log, s.history);
    OrderedAgedFirst(s.log, clock.now - cfg.maxAge);
    KeepRecentIsSuffixIff(s.log, clock.now - cfg.maxAge);
    NewestIsSuffix(recent, cfg.maxRows);
    SuffixTransitive(KeepNewest(recent, cfg.maxRows), recent, s.log);
    SuffixTransitive(KeepNewest(recent, cfg.maxRows), s.log, s.history);
    SelfSuffix(s.log);
  }

  /** An unthrottled prune keeps a row if and only if it is young enough and among the newest
      the limit allows; a throttled one keeps all. */
  lemma PruneKeepsIff(cfg: Config, s: Server, clock: Clock, force: bool)
    requires Ordered(s.log)
    ensures var after := Prune(cfg, s, clock, force).log; var n := |s.log| - |after|;
            && 0 <= n <= |s.log| && after == s.log[n..]
            && (if !force && clock.monotonic - s.lastPruneAt < cfg.pruneInterval then n == 0
                else forall i :: 0 <= i < |s.log| ==>
                  (i >= n <==> s.log[i].createdAt >= clock.now - cfg.maxAge && |s.log| - i <= cfg.maxRows))
  {
    hide KeepRecent, Ordered, AgedFirst;
    var cutoff := clock.now - cfg.maxAge;
    OrderedAgedFirst(s.log, cutoff);
    KeepRecentIsSuffixIff(s.log, cutoff);
    RecentSplits(s.log, cutoff);
  }

  lemma RecentSplits(log: seq<Row>, cutoff: int)
    requires IsSuffix(KeepRecent(log, cutoff), log)
    ensures var n := |log| - |KeepRecent(log, cutoff)|;
            forall i :: 0 <= i < |log| ==> (i >= n <==> log[i].createdAt >= cutoff)
  {
    hide KeepRecent, AllAged, AllRecent;
    var kept := KeepRecent(log, cutoff);
    var aged := log[..|log| - |kept|];
    assert log == aged + kept;
    KeepRecentConcat(aged, kept, cutoff);
    KeepRecentExtremes(log, cutoff);
    KeepRecentExtremes(kept, cutoff);
    KeepRecentExtremes(aged, cutoff);
    assert |KeepRecent(aged, cutoff)| == 0;
    CutSplits(aged, kept, cutoff);
  }

  lemma CutSplits(aged: seq<Row>, kept: seq<Row>, cutoff: int)
    requires AllAged(aged, cutoff) && AllRecent(kept, cutoff)
    ensures forall i :: 0 <= i < |aged + kept| ==> (i >= |aged| <==> (aged + kept)[i].createdAt >= cutoff)
  {
  }

  /** After a restart the log is not empty, unless the limits allow no row at all. */
  lemma RestartLeavesRow(cfg: Config, s: Server, clock: Clock)
    requires s.log == [] && cfg.maxRows >= 1
    ensures Restart(cfg, s, clock).log == Number([BASELINE_CHANGE], s.issued, clock.now)
    ensures Current(Restart(cfg, s, clock).log) == s.issued + 1
  {
    var rows := Number([BASELINE_CHANGE], s.issued, clock.now);
    assert [] + rows == rows && rows[..0] == [];
    assert KeepRecent(rows, clock.now - cfg.maxAge) == rows;
  }

  lemma ReplayAppend(r: Replica, a: seq<Row>, b: seq<Row>)
    ensures Replay(r, a + b) == Replay(Replay(r, a), b)
  {
    assert ChangesOf(a + b) == ChangesOf(a) + ChangesOf(b);
    ReplayConcat(r, ChangesOf(a), ChangesOf(b));
  }

  lemma AppendOrdered(history: seq<Row>, rows: seq<Row>, now: int)
    requires Ordered(history) && (history != [] ==> history[|history| - 1].createdAt <= now)
    requires forall i :: 0 <= i < |rows| ==> rows[i].createdAt == now
    ensures Ordered(history + rows)
  {
    forall i | 0 <= i < |history| ensures history[i].createdAt <= now {
      assert history[i].createdAt <= history[|history| - 1].createdAt;
    }
  }

  lemma AppendOk(s: Server, cs: seq<Change>, now: int)
    requires Numbered(s.history) && Ordered(s.history) && |s.history| == s.issued && IsSuffix(s.log, s.history)
    requires s.history != [] ==> s.history[|s.history| - 1].createdAt <= now
    ensures var t := Append(s, cs, now);
            Numbered(t.history) && Ordered(t.history) && |t.history| == t.issued && IsSuffix(t.log, t.history)
  {
    hide Ordered;
    var rows, dropped := Number(cs, s.issued, now), |s.history| - |s.log|;
    AppendOrdered(s.history, rows, now);
    assert (s.history + rows)[dropped..] == s.history[dropped..] + rows;
  }

  lemma SaveKeepsServer(cfg: Config, base: Replica, s: Server, key: string, value: Json, cs: seq<Change>, clock: Clock)
    requires ServerOk(cfg, base, s)
    requires !Unchanged(s, key, value) ==> Lists(cs, SaveDiff(cfg, s, key, value))
    requires s.history != [] ==> s.history[|s.history| - 1].createdAt <= clock.now
    ensures ServerOk(cfg, base, SaveWith(cfg, s, key, value, cs, clock))
  {
    if !Unchanged(s, key, value) {
      SaveReplay(cfg, base, s, key, value, cs, clock);
      AppendAndPrune(cfg, base, s.(docs := s.docs[key := value]), cs, clock);
    }
  }

  lemma AppendAndPrune(cfg: Config, base: Replica, s: Server, cs: seq<Change>, clock: Clock)
    requires Numbered(s.history) && Ordered(s.history) && |s.history| == s.issued && IsSuffix(s.log, s.history)
    requires s.history != [] ==> s.history[|s.history| - 1].createdAt <= clock.now
    requires Normal(Replay(base, Append(s, cs, clock.now).history)) == Normal(View(cfg, s.docs))
    ensures ServerOk(cfg, base, Prune(cfg, Append(s, cs, clock.now), clock, false))
  {
    hide Ordered, Numbered, IsSuffix, Normal, View, Replay, KeepRecent, KeepNewest;
    AppendOk(s, cs, clock.now);
    PruneKeepsSuffix(cfg, Append(s, cs, clock.now), clock, false);
  }

  lemma SaveReplay(cfg: Config, base: Replica, s: Server, key: string, value: Json, cs: seq<Change>, clock: Clock)
    requires Normal(Replay(base, s.history)) == Normal(View(cfg, s.docs))
    requires Lists(cs, SaveDiff(cfg, s, key, value))
    ensures Normal(Replay(base, Append(s, cs, clock.now).history)) == Normal(View(cfg, s.docs[key := value]))
  {
    ReplayAppend(base, s.history, Number(cs, s.issued, clock.now));
    assert ChangesOf(Number(cs, s.issued, clock.now)) == cs;
    DocumentReplay(cfg, s.docs, key, value, Replay(base, s.history), cs);
  }

  lemma BaselineChangesNothing(r: Replica)
    ensures ReplayChanges(r, [BASELINE_CHANGE]) == r
  {
    assert ReplayChanges(r, [BASELINE_CHANGE][..0]) == r;
  }

  lemma RestartKeepsServer(cfg: Config, base: Replica, s: Server, clock: Clock)
    requires ServerOk(cfg, base, s)
    requires s.history != [] ==> s.history[|s.history| - 1].createdAt <= clock.now
    ensures ServerOk(cfg, base, Restart(cfg, s, clock))
  {
    hide Ordered, Numbered, IsSuffix, Normal, View, KeepRecent, KeepNewest, ReplayChanges;
    var s1 := if Current(s.log) == 0 then Append(s, [BASELINE_CHANGE], clock.now) else s;
    if Current(s.log) == 0 {
      AppendOk(s, [BASELINE_CHANGE], clock.now);
      ReplayAppend(base, s.history, Number([BASELINE_CHANGE], s.issued, clock.now));
      assert ChangesOf(Number([BASELINE_CHANGE], s.issued, clock.now)) == [BASELINE_CHANGE];
      BaselineChangesNothing(Replay(base, s.history));
    }
    PruneKeepsSuffix(cfg, s1, clock, true);
  }

  // ---------------------------------------------------- what a reply contains

  lemma {:induction false} RowsAfterSuffix(log: seq<Row>, history: seq<Row>, since: nat)
    requires Numbered(history) && IsSuffix(log, history)
    requires |history| - |log| <= since <= |history|
    ensures RowsAfter(log, since) == history[since..]
  {
    RowsAfterNumbered(log, |history| - |log|, since);
    assert log[since - (|history| - |log|)..] == history[since..];
  }

  lemma {:induction false} RowsAfterNumbered(log: seq<Row>, dropped: nat, since: nat)
    requires forall i :: 0 <= i < |log| ==> log[i].revision == dropped + i + 1
    requires dropped <= since
    ensures RowsAfter(log, since) == if since - dropped <= |log| then log[since - dropped..] else []
  {
    if log != [] {
      var init := log[..|log| - 1];
      RowsAfterNumbered(init, dropped, since);
      if since - dropped < |log| {
        assert log[since - dropped..] == init[since - dropped..] + [log[|log| - 1]];
      }
    }
  }

  /** What a client asks for, but at least one row and at most a thousand. */
  function PageSize(limit: int): (n: nat)
    ensures 1 <= n <= 1000 && (1 <= limit <= 1000 ==> n == limit)
  {
    if limit > 1000 then 1000 else if limit >= 1 then limit else 1
  }

  /** A reply that does not demand a resync holds exactly the issued rows after
      `since`, cut to the page size; a client whose position lies outside what the
      log can serve is told so. `since >= 1` or a non-empty log is all it needs. */
  lemma ReplyIsExact(history: seq<Row>, log: seq<Row>, since: int, limit: int)
    requires Numbered(history) && IsSuffix(log, history)
    requires since >= 1 || log != []
    ensures var reply := ChangesSince(log, since, limit);
            && (!reply.fullRequired <==> log != [] && |history| - |log| <= since <= |history|)
            && (!reply.fullRequired ==>
                  && since <= reply.nextRevision <= |history|
                  && reply.changes == history[since..reply.nextRevision]
                  && (reply.hasMore <==> reply.nextRevision < |history|)
                  && (reply.hasMore ==> reply.nextRevision > since))
  {
    if log != [] {
      assert Oldest(log) == |history| - |log| + 1;
      assert Current(log) == |history|;
      assert FullRequired(log, since) <==> !(|history| - |log| <= since <= |history|);
      if |history| - |log| <= since <= |history| {
        RowsAfterSuffix(log, history, since);
        PageIsExact(history, log, since, limit);
      }
    }
  }

  /** The page is the one asked for: full when there is more, and else the whole rest. */
  lemma PageIsFull(history: seq<Row>, log: seq<Row>, since: int, limit: int)
    requires Numbered(history) && IsSuffix(log, history) && log != [] && |history| - |log| <= since <= |history|
    ensures var reply := ChangesSince(log, since, limit);
            && (reply.hasMore <==> |history| - since > PageSize(limit))
            && |reply.changes| == if reply.hasMore then PageSize(limit) else |history| - since
  {
    hide RowsAfter, Numbered;
    ReplyIsExact(history, log, since, limit);
    RowsAfterSuffix(log, history, since);
  }

  lemma PageIsExact(history: seq<Row>, log: seq<Row>, since: nat, limit: int)
    requires Numbered(history) && since <= |history| && !FullRequired(log, since)
    requires RowsAfter(log, since) == history[since..]
    ensures var reply := ChangesSince(log, since, limit);
            && since <= reply.nextRevision <= |history|
            && reply.changes == history[since..reply.nextRevision]
            && (reply.hasMore <==> reply.nextRevision < |history|)
            && (reply.hasMore ==> reply.nextRevision > since)
  {
    var n := Clamp(limit);
    var rows := history[since..];
    if |rows| > n {
      assert rows[..n] == history[since..since + n];
      assert rows[..n][n - 1] == history[since + n - 1];
    } else if rows != [] {
      assert rows[|rows| - 1] == history[|history| - 1];
    }
  }

  // --------------------------------------------------- a client that follows

  /** `synced` counts the rows issued up to the client's last synchronisation, `taken` those
      issued before its last snapshot, and `basis` is what that was taken of. */
  datatype Client = Client(position: int, replica: Replica, synced: nat, taken: nat, basis: Documents)

  datatype World = World(server: Server, client: Client)

  datatype Step =
    | Save(key: string, value: Json, cs: seq<Change>, clock: Clock)
    | Reopen(clock: Clock)
    | Snapshot
    | Poll(limit: int)

  predicate InTime(s: Server, clock: Clock) {
    s.history == [] || s.history[|s.history| - 1].createdAt <= clock.now
  }

  /** A save inserts its changes in some order. */
  ghost predicate Possible(cfg: Config, w: World, step: Step) {
    step.Save? && !Unchanged(w.server, step.key, step.value) ==> Lists(step.cs, SaveDiff(cfg, w.server, step.key, step.value))
  }

  /** ... and clocks do not run backwards. */
  ghost predicate Enabled(cfg: Config, w: World, step: Step) {
    Possible(cfg, w, step) && (step.Save? || step.Reopen? ==> InTime(w.server, step.clock))
  }

  ghost function Receive(c: Client, reply: Reply): Client {
    if reply.fullRequired then c
    else c.(position := reply.nextRevision, replica := Replay(c.replica, reply.changes), synced := c.synced + |reply.changes|)
  }

  /** A client that has just taken a snapshot and keyed its lists. */
  ghost function SnapshotClient(cfg: Config, s: Server): Client {
    Client(Current(s.log), Keyed(cfg, SnapshotOf(s.docs)), s.issued, s.issued, s.docs)
  }

  ghost function Next(cfg: Config, w: World, step: Step): World {
    match step
    case Save(key, value, cs, clock) => w.(server := SaveWith(cfg, w.server, key, value, cs, clock))
    case Reopen(clock) => w.(server := Restart(cfg, w.server, clock))
    case Snapshot => w.(client := SnapshotClient(cfg, w.server))
    case Poll(limit) => w.(client := Receive(w.client, ChangesSince(w.server.log, w.client.position, limit)))
  }

  ghost function Run(cfg: Config, w: World, steps: seq<Step>): World {
    if steps == [] then w else Next(cfg, Run(cfg, w, steps[..|steps| - 1]), steps[|steps| - 1])
  }

  ghost predicate ValidRun(cfg: Config, w: World, steps: seq<Step>) {
    forall i :: 0 <= i < |steps| ==> Enabled(cfg, Run(cfg, w, steps[..i]), steps[i])
  }

  /** A new database over migrated documents, and a client that took a snapshot. */
  ghost function Init(cfg: Config, docs: Documents, clock: Clock): World {
    var s := Restart(cfg, Server(docs, [], 0, 0, []), clock);
    World(s, SnapshotClient(cfg, s))
  }

  /** A client holds its last snapshot and the rows since, up to `synced`. */
  ghost predicate ClientOk(cfg: Config, base: Replica, s: Server, c: Client) {
    && c.taken <= c.synced <= |s.history|
    && c.replica == Replay(Keyed(cfg, SnapshotOf(c.basis)), s.history[c.taken..c.synced])
    && Normal(Replay(base, s.history[..c.taken])) == Normal(View(cfg, c.basis))
    && (c.position == c.synced || (c.position == 0 && c.synced <= |s.history| - |s.log|))
  }

  ghost predicate WorldOk(cfg: Config, base: Replica, w: World) {
    ServerOk(cfg, base, w.server) && ClientOk(cfg, base, w.server, w.client)
  }

  lemma SnapshotOk(cfg: Config, base: Replica, s: Server)
    requires ServerOk(cfg, base, s)
    ensures ClientOk(cfg, base, s, SnapshotClient(cfg, s))
  {
    hide Normal, View, Keyed, SnapshotOf;
    assert s.history[..s.issued] == s.history && ChangesOf(s.history[s.issued..s.issued]) == [];
    assert s.log != [] ==> Current(s.log) == |s.history|;
  }

  lemma InitOk(cfg: Config, docs: Documents, clock: Clock)
    ensures WorldOk(cfg, View(cfg, docs), Init(cfg, docs, clock))
  {
    var base := View(cfg, docs);
    var s := Server(docs, [], 0, 0, []);
    assert ChangesOf([]) == [];
    RestartKeepsServer(cfg, base, s, clock);
    SnapshotOk(cfg, base, Restart(cfg, s, clock));
  }

  lemma ClientSurvives(cfg: Config, base: Replica, s: Server, t: Server, c: Client)
    requires ClientOk(cfg, base, s, c)
    requires s.history <= t.history && |s.history| - |s.log| <= |t.history| - |t.log|
    ensures ClientOk(cfg, base, t, c)
  {
    hide Normal, View, Keyed, SnapshotOf, Replay;
    assert t.history[c.taken..c.synced] == s.history[c.taken..c.synced];
    assert t.history[..c.taken] == s.history[..c.taken];
  }

  lemma ServerGrows(cfg: Config, base: Replica, s: Server, cs: seq<Change>, clock: Clock, docs: Documents, force: bool)
    requires ServerOk(cfg, base, s) && InTime(s, clock)
    ensures var t := Prune(cfg, Append(s.(docs := docs), cs, clock.now), clock, force);
            s.history <= t.history && |s.history| - |s.log| <= |t.history| - |t.log|
  {
    AppendOk(s.(docs := docs), cs, clock.now);
    PruneKeepsSuffix(cfg, Append(s.(docs := docs), cs, clock.now), clock, force);
  }

  lemma ReceiveRows(k: Replica, history: seq<Row>, taken: nat, from: nat, to: nat)
    requires taken <= from <= to <= |history|
    ensures Replay(Replay(k, history[taken..from]), history[from..to]) == Replay(k, history[taken..to])
  {
    assert history[taken..to] == history[taken..from] + history[from..to];
    ReplayAppend(k, history[taken..from], history[from..to]);
  }

  /** What an accepted poll hands over. */
  lemma AcceptedPoll(cfg: Config, base: Replica, s: Server, c: Client, limit: int)
    requires Numbered(s.history) && |s.history| == s.issued && IsSuffix(s.log, s.history)
    requires ClientOk(cfg, base, s, c)
    requires c.position >= 1 || s.log != []
    ensures var reply := ChangesSince(s.log, c.position, limit);
            !reply.fullRequired ==>
              && c.position == c.synced <= reply.nextRevision <= s.issued
              && reply.changes == s.history[c.synced..reply.nextRevision]
              && (reply.hasMore <==> reply.nextRevision < s.issued)
  {
    ReplyIsExact(s.history, s.log, c.position, limit);
  }

  lemma EmptyPoll(c: Client, limit: int)
    requires c.position == 0
    ensures Receive(c, ChangesSince([], c.position, limit)) == c
  {
    assert ChangesOf([]) == [];
  }

  lemma PollKeepsClient(cfg: Config, base: Replica, s: Server, c: Client, limit: int)
    requires Numbered(s.history) && |s.history| == s.issued && IsSuffix(s.log, s.history)
    requires ClientOk(cfg, base, s, c)
    ensures ClientOk(cfg, base, s, Receive(c, ChangesSince(s.log, c.position, limit)))
  {
    hide ChangesSince, Numbered, IsSuffix, Normal, Replay, Keyed, SnapshotOf, View;
    var reply := ChangesSince(s.log, c.position, limit);
    if !reply.fullRequired {
      if c.position >= 1 || s.log != [] {
        AcceptedPoll(cfg, base, s, c, limit);
        ReceiveRows(Keyed(cfg, SnapshotOf(c.basis)), s.history, c.taken, c.synced, reply.nextRevision);
      } else {
        EmptyPoll(c, limit);
      }
    }
  }

  lemma SaveKeepsWorld(cfg: Config, base: Replica, w: World, key: string, value: Json, cs: seq<Change>, clock: Clock)
    requires WorldOk(cfg, base, w) && InTime(w.server, clock)
    requires !Unchanged(w.server, key, value) ==> Lists(cs, SaveDiff(cfg, w.server, key, value))
    ensures WorldOk(cfg, base, w.(server := SaveWith(cfg, w.server, key, value, cs, clock)))
  {
    SaveKeepsServer(cfg, base, w.server, key, value, cs, clock);
    SaveKeepsClient(cfg, base, w.server, w.client, key, value, cs, clock);
  }

  lemma SaveKeepsClient(cfg: Config, base: Replica, s: Server, c: Client, key: string, value: Json, cs: seq<Change>, clock: Clock)
    requires ServerOk(cfg, base, s) && ClientOk(cfg, base, s, c) && InTime(s, clock)
    ensures ClientOk(cfg, base, SaveWith(cfg, s, key, value, cs, clock), c)
  {
    if !Unchanged(s, key, value) {
      ServerGrows(cfg, base, s, cs, clock, s.docs[key := value], false);
      ClientSurvives(cfg, base, s, SaveWith(cfg, s, key, value, cs, clock), c);
    }
  }

  lemma RestartKeepsClient(cfg: Config, base: Replica, s: Server, c: Client, clock: Clock)
    requires ServerOk(cfg, base, s) && ClientOk(cfg, base, s, c) && InTime(s, clock)
    ensures ClientOk(cfg, base, Restart(cfg, s, clock), c)
  {
    var cs := if Current(s.log) == 0 then [BASELINE_CHANGE] else [];
    assert Append(s, [], clock.now) == s;
    ServerGrows(cfg, base, s, cs, clock, s.docs, true);
    ClientSurvives(cfg, base, s, Restart(cfg, s, clock), c);
  }

  lemma StepKeepsWorld(cfg: Config, base: Replica, w: World, step: Step)
    requires WorldOk(cfg, base, w) && Enabled(cfg, w, step)
    ensures WorldOk(cfg, base, Next(cfg, w, step))
  {
    match step
    case Save(key, value, cs, clock) =>
      SaveKeepsWorld(cfg, base, w, key, value, cs, clock);
    case Reopen(clock) =>
      RestartKeepsServer(cfg, base, w.server, clock);
      RestartKeepsClient(cfg, base, w.server, w.client, clock);
    case Snapshot =>
      SnapshotOk(cfg, base, w.server);
    case Poll(limit) =>
      PollKeepsClient(cfg, base, w.server, w.client, limit);
  }

  lemma {:induction false} RunKeepsWorld(cfg: Config, base: Replica, w: World, steps: seq<Step>)
    requires WorldOk(cfg, base, w) && ValidRun(cfg, w, steps)
    ensures WorldOk(cfg, base, Run(cfg, w, steps))
  {
    hide WorldOk, Next, Enabled;
    if steps != [] {
      var init := steps[..|steps| - 1];
      forall i | 0 <= i < |init| ensures Enabled(cfg, Run(cfg, w, init[..i]), init[i]) {
        assert init[..i] == steps[..i];
      }
      RunKeepsWorld(cfg, base, w, init);
      StepKeepsWorld(cfg, base, Run(cfg, w, init), steps[|steps| - 1]);
    }
  }

  /** The client's snapshot agreed on the entity, or a row issued since concerns it. */
  ghost predicate Follows(cfg: Config, w: World, id: EntityKey)
    requires w.client.taken <= |w.server.history|
  {
    || AgreesAt(Keyed(cfg, SnapshotOf(w.client.basis)), View(cfg, w.client.basis), id)
    || SomeConcerns(ChangesOf(w.server.history[w.client.taken..]), id)
  }

  /** Incremental sync is complete. After any interleaving of saves, prunes, restarts,
      snapshots and polls, the next poll of a client at a position >= 1 (or of any
      client while the log is not empty) either demands a resync or returns exactly the
      issued rows the client lacks, cut to the page size. When it says there is no more,
      the client agrees with the documents on an entity, up to volatile and stripped
      fields, if and only if its snapshot did or a row issued since concerns the entity. */
  lemma SyncIsComplete(cfg: Config, docs: Documents, clock: Clock, steps: seq<Step>, limit: int)
    requires ValidRun(cfg, Init(cfg, docs, clock), steps)
    ensures var w := Run(cfg, Init(cfg, docs, clock), steps);
            var reply := ChangesSince(w.server.log, w.client.position, limit);
            !reply.fullRequired && (w.client.position >= 1 || reply.revision > 0) ==>
              DeliversWhatIsMissing(cfg, w, reply)
  {
    hide Init, Run, ValidRun, DeliversWhatIsMissing, ChangesSince;
    var w0 := Init(cfg, docs, clock);
    InitOk(cfg, docs, clock);
    RunKeepsWorld(cfg, View(cfg, docs), w0, steps);
    PollCompletes(cfg, View(cfg, docs), Run(cfg, w0, steps), limit);
  }

  /** The reply holds the rows the client lacks, and once there is no more the client
      agrees on exactly the entities it follows. */
  ghost predicate DeliversWhatIsMissing(cfg: Config, w: World, reply: Reply) {
    && w.client.taken <= w.client.synced <= reply.nextRevision <= |w.server.history|
    && reply.changes == w.server.history[w.client.synced..reply.nextRevision]
    && (reply.hasMore <==> reply.nextRevision < |w.server.history|)
    && (!reply.hasMore ==> AgreesOnWhatItFollows(cfg, w, Receive(w.client, reply).replica))
  }

  ghost predicate AgreesOnWhatItFollows(cfg: Config, w: World, r: Replica)
    requires w.client.taken <= |w.server.history|
  {
    forall id: EntityKey :: InSnapshots(id.0) ==> (AgreesAt(r, View(cfg, w.server.docs), id) <==> Follows(cfg, w, id))
  }

  /** A client that has been told there is no more and follows all rows of a list shows
      the list a fresh snapshot would if and only if each row of it is the last with its
      key; one that follows everything shows what the whole snapshot would, likewise. */
  lemma SyncedListsIff(cfg: Config, w: World, reply: Reply)
    requires DeliversWhatIsMissing(cfg, w, reply) && !reply.hasMore
    ensures var r, shown := Receive(w.client, reply).replica, SnapshotOf(w.server.docs);
            && (forall e: Entity :: IsListEntity(e) && (forall k: string :: Follows(cfg, w, (e, k))) ==>
                  (SameList(r, e, ListOf(shown, e)) <==> EachLast(cfg, e, ItemsOf(w.server.docs, e))))
            && ((forall id: EntityKey :: InSnapshots(id.0) ==> Follows(cfg, w, id)) ==>
                  (ShowsTheSame(r, shown) <==> WellKeyed(cfg, w.server.docs)))
  {
    hide AgreesAt, Follows, View, SameList, EachLast, ItemsOf, SnapshotOf, ShowsTheSame, WellKeyed, Receive;
    var r := Receive(w.client, reply).replica;
    forall e: Entity | IsListEntity(e) && forall k: string :: Follows(cfg, w, (e, k))
      ensures SameList(r, e, ListOf(SnapshotOf(w.server.docs), e)) <==> EachLast(cfg, e, ItemsOf(w.server.docs, e))
    {
      forall k: string ensures AgreesAt(r, View(cfg, w.server.docs), (e, k)) {
        assert Follows(cfg, w, (e, k));
      }
      ListFollowsIff(cfg, w.server.docs, r, e);
    }
    if forall id: EntityKey :: InSnapshots(id.0) ==> Follows(cfg, w, id) {
      ShowsTheSameIff(cfg, w.server.docs, r);
    }
  }

  lemma RevisionMeansLog(log: seq<Row>, since: int, limit: int)
    ensures ChangesSince(log, since, limit).revision > 0 ==> log != []
  {
  }

  lemma PollCompletes(cfg: Config, base: Replica, w: World, limit: int)
    requires WorldOk(cfg, base, w)
    ensures var reply := ChangesSince(w.server.log, w.client.position, limit);
            !reply.fullRequired && (w.client.position >= 1 || reply.revision > 0) ==>
              DeliversWhatIsMissing(cfg, w, reply)
  {
    hide Normal, View, Replay, ChangesSince, Numbered, Ordered, IsSuffix, SnapshotOf, Keyed, AgreesOnWhatItFollows;
    RevisionMeansLog(w.server.log, w.client.position, limit);
    var reply := ChangesSince(w.server.log, w.client.position, limit);
    if !reply.fullRequired && (w.client.position >= 1 || reply.revision > 0) {
      AcceptedPoll(cfg, base, w.server, w.client, limit);
      if !reply.hasMore {
        assert w.server.history[w.client.synced..|w.server.history|] == reply.changes;
        ReceiveRows(Keyed(cfg, SnapshotOf(w.client.basis)), w.server.history, w.client.taken, w.client.synced,
            |w.server.history|);
        FollowedAgree(cfg, base, w);
      }
    }
  }

  /** All rows since the snapshot, replayed over it. */
  ghost function CaughtUp(cfg: Config, w: World): Replica
    requires w.client.taken <= |w.server.history|
  {
    Replay(Keyed(cfg, SnapshotOf(w.client.basis)), w.server.history[w.client.taken..|w.server.history|])
  }

  lemma FollowedAgree(cfg: Config, base: Replica, w: World)
    requires WorldOk(cfg, base, w)
    ensures AgreesOnWhatItFollows(cfg, w, CaughtUp(cfg, w))
  {
    hide Normal, View, ReplayChanges, Numbered, Ordered, IsSuffix, SnapshotOf, Keyed, AgreesAt, SomeConcerns;
    var c, history := w.client, w.server.history;
    var since := history[c.taken..];
    assert history == history[..c.taken] + since && since == history[c.taken..|history|];
    ReplayAppend(base, history[..c.taken], since);
    forall id: EntityKey | InSnapshots(id.0)
      ensures AgreesAt(CaughtUp(cfg, w), View(cfg, w.server.docs), id) <==> Follows(cfg, w, id)
    {
      var before := Replay(base, history[..c.taken]);
      ReplayAgreesIff(Keyed(cfg, SnapshotOf(c.basis)), before, ChangesOf(since), id);
      SameViewAgrees(Keyed(cfg, SnapshotOf(c.basis)), before, View(cfg, c.basis), id);
      SameViewAgrees(CaughtUp(cfg, w), Replay(base, history), View(cfg, w.server.docs), id);
    }
  }

  lemma SameViewAgrees(r: Replica, u: Replica, v: Replica, id: EntityKey)
    requires Normal(u) == Normal(v) && InSnapshots(id.0)
    ensures AgreesAt(r, u, id) <==> AgreesAt(r, v, id)
  {
    hide Normal, Project;
    NormalIffAgrees(u, v);
    assert AgreesAt(u, v, id);
  }

  /** The one reply that proves nothing is "nothing new" from an emptied log to a client
      at position 0. After it the client agrees on an entity if and only if it follows it
      and the rows it never got leave the entity as the client has it. */
  lemma EmptyLogReply(cfg: Config, docs: Documents, clock: Clock, steps: seq<Step>, limit: int)
    requires ValidRun(cfg, Init(cfg, docs, clock), steps)
    ensures var w := Run(cfg, Init(cfg, docs, clock), steps);
            var reply := ChangesSince(w.server.log, w.client.position, limit);
            w.client.position == 0 && reply.revision == 0 ==>
              && !reply.fullRequired && !reply.hasMore
              && w.client.taken <= w.client.synced <= |w.server.history|
              && forall id: EntityKey :: InSnapshots(id.0) ==>
                   var r := Receive(w.client, reply).replica;
                   (AgreesAt(r, View(cfg, w.server.docs), id)
                    <==> Follows(cfg, w, id) && AgreesAt(r, Replay(r, w.server.history[w.client.synced..]), id))
  {
    hide Init, Next, Normal, View, Replay, ValidRun, Run, Ordered, Follows, AgreesAt, Keyed, SnapshotOf;
    var w0 := Init(cfg, docs, clock);
    InitOk(cfg, docs, clock);
    RunKeepsWorld(cfg, View(cfg, docs), w0, steps);
    var w := Run(cfg, w0, steps);
    assert w.server.log != [] ==> Current(w.server.log) == |w.server.history|;
    if w.client.position == 0 && w.server.log == [] {
      EmptyPoll(w.client, limit);
      forall id: EntityKey | InSnapshots(id.0)
        ensures var r := w.client.replica;
                AgreesAt(r, View(cfg, w.server.docs), id)
                <==> Follows(cfg, w, id) && AgreesAt(r, Replay(r, w.server.history[w.client.synced..]), id)
      {
        MissedRows(cfg, View(cfg, docs), w, id);
      }
    }
  }

  /** Without a row that concerns it an entity stays as the snapshot had it, on both sides. */
  lemma AgreedFollows(cfg: Config, base: Replica, w: World, id: EntityKey)
    requires WorldOk(cfg, base, w) && InSnapshots(id.0) && AgreesAt(w.client.replica, View(cfg, w.server.docs), id)
    ensures Follows(cfg, w, id)
  {
    hide Normal, View, ReplayChanges, Numbered, Ordered, IsSuffix, SnapshotOf, Keyed, Project;
    var c, history := w.client, w.server.history;
    var since, got := history[c.taken..], history[c.taken..c.synced];
    if !SomeConcerns(ChangesOf(since), id) {
      var k, before := Keyed(cfg, SnapshotOf(c.basis)), Replay(base, history[..c.taken]);
      assert forall i :: 0 <= i < |got| ==> ChangesOf(got)[i] == ChangesOf(since)[i];
      UnconcernedStays(k, ChangesOf(got), id);
      UnconcernedStays(before, ChangesOf(since), id);
      assert history == history[..c.taken] + since;
      ReplayAppend(base, history[..c.taken], since);
      SameViewAgrees(c.replica, Replay(base, history), View(cfg, w.server.docs), id);
      SameViewAgrees(k, before, View(cfg, c.basis), id);
    }
  }

  lemma MissedRows(cfg: Config, base: Replica, w: World, id: EntityKey)
    requires WorldOk(cfg, base, w) && InSnapshots(id.0)
    ensures var r := w.client.replica;
            AgreesAt(r, View(cfg, w.server.docs), id)
            <==> Follows(cfg, w, id) && AgreesAt(r, Replay(r, w.server.history[w.client.synced..]), id)
  {
    hide Normal, View, Replay, Numbered, Ordered, IsSuffix, SnapshotOf, Keyed, Project, Follows;
    var c, history := w.client, w.server.history;
    FollowedAgree(cfg, base, w);
    assert history[c.synced..] == history[c.synced..|history|];
    ReceiveRows(Keyed(cfg, SnapshotOf(c.basis)), history, c.taken, c.synced, |history|);
    if AgreesAt(c.replica, View(cfg, w.server.docs), id) {
      AgreedFollows(cfg, base, w, id);
    }
  }

  // A run in which the log ages out, a snapshot hands out position 0, an event is added
  // and ages out of the log as well.

  const EVENT: RowFields := map["id" := Num(1)]
  const STALE_ROW_1 := Row(1, BASELINE_CHANGE, 0)
  const STALE_DOCS_1: Documents := map["geo_cache.json" := Num(1)]
  const STALE_DOCS_3: Documents := map["geo_cache.json" := Num(1), "events.json" := List([Obj(EVENT)])]
  const STALE_DOCS_4: Documents := map["geo_cache.json" := Num(2), "events.json" := List([Obj(EVENT)])]
  const STALE_SERVER_0 := Server(map[], [STALE_ROW_1], 1, 0, [STALE_ROW_1])
  const STALE_SERVER_1 := Server(STALE_DOCS_1, [], 1, 1000, [STALE_ROW_1])

  function EventChange(cfg: Config): Change {
    Change(Event, Upsert, cfg.keyOf(EVENT, 0), Obj(EVENT))
  }

  function StaleRow2(cfg: Config): Row {
    Row(2, EventChange(cfg), 200001)
  }

  function StaleServer3(cfg: Config): Server {
    Server(STALE_DOCS_3, [StaleRow2(cfg)], 2, 1000, [STALE_ROW_1, StaleRow2(cfg)])
  }

  function StaleServer4(cfg: Config): Server {
    Server(STALE_DOCS_4, [], 2, 2000, [STALE_ROW_1, StaleRow2(cfg)])
  }

  ghost predicate DefaultLimits(cfg: Config) {
    cfg.maxRows == 1500 && cfg.maxAge == 172800 && cfg.pruneInterval == 300
  }

  lemma CacheSaves(cfg: Config, s: Server, value: Json)
    ensures Lists([], SaveDiff(cfg, s, "geo_cache.json", value))
  {
    assert "geo_cache.json" in NON_REVISION_DOCUMENTS;
  }

  /** Adding the first event logs it. */
  lemma EventIsLogged(cfg: Config, s: Server)
    requires "events.json" !in s.docs
    ensures SaveDiff(cfg, s, "events.json", List([Obj(EVENT)])) == map[(Event, cfg.keyOf(EVENT, 0)) := EventChange(cfg)]
    ensures Lists([EventChange(cfg)], SaveDiff(cfg, s, "events.json", List([Obj(EVENT)])))
  {
    SpecialKeysAreRevisioned();
    assert RowMap(cfg, [Obj(EVENT)], 1) == map[cfg.keyOf(EVENT, 0) := EVENT] by {
      assert RowMap(cfg, [Obj(EVENT)], 0) == map[];
    }
    assert EventRows(cfg, Null) == map[];
    assert DiffOf(Event, map[], map[cfg.keyOf(EVENT, 0) := EVENT]) == map[(Event, cfg.keyOf(EVENT, 0)) := EventChange(cfg)];
    assert EventChange(cfg) in [EventChange(cfg)];
  }

  lemma StaleStart(cfg: Config)
    requires DefaultLimits(cfg)
    ensures Init(cfg, map[], Clock(0, 0)).server == STALE_SERVER_0
  {
    SilentStart(cfg, map[]);
  }

  lemma StaleSave1(cfg: Config)
    requires DefaultLimits(cfg)
    ensures SaveWith(cfg, STALE_SERVER_0, "geo_cache.json", Num(1), [], Clock(200000, 1000)) == STALE_SERVER_1
  {
    assert Number([], 1, 200000) == [];
    assert KeepRecent([STALE_ROW_1], 200000 - 172800) == [];
  }

  lemma StaleSave3(cfg: Config)
    requires DefaultLimits(cfg)
    ensures SaveWith(cfg, STALE_SERVER_1, "events.json", List([Obj(EVENT)]), [EventChange(cfg)], Clock(200001, 1001))
            == StaleServer3(cfg)
  {
    hide EventChange;
    assert Number([EventChange(cfg)], 1, 200001) == [StaleRow2(cfg)];
    assert [STALE_ROW_1] + [StaleRow2(cfg)] == [STALE_ROW_1, StaleRow2(cfg)];
    assert [] + [StaleRow2(cfg)] == [StaleRow2(cfg)];
  }

  lemma StaleSave4(cfg: Config)
    requires DefaultLimits(cfg)
    ensures SaveWith(cfg, StaleServer3(cfg), "geo_cache.json", Num(2), [], Clock(400000, 2000)) == StaleServer4(cfg)
  {
    hide EventChange;
    assert Number([], 2, 400000) == [];
    assert KeepRecent([StaleRow2(cfg)], 400000 - 172800) == [];
    assert STALE_DOCS_3["geo_cache.json" := Num(2)] == STALE_DOCS_4;
  }

  function StaleSteps(cfg: Config): seq<Step> {
    [Save("geo_cache.json", Num(1), [], Clock(200000, 1000)), Snapshot,
     Save("events.json", List([Obj(EVENT)]), [EventChange(cfg)], Clock(200001, 1001)),
     Save("geo_cache.json", Num(2), [], Clock(400000, 2000))]
  }

  ghost function StaleClient(cfg: Config): Client {
    Client(0, Keyed(cfg, SnapshotOf(STALE_DOCS_1)), 1, 1, STALE_DOCS_1)
  }

  lemma StaleRun(cfg: Config, w0: World)
    requires DefaultLimits(cfg) && w0.server == STALE_SERVER_0
    ensures ValidRun(cfg, w0, StaleSteps(cfg))
    ensures Run(cfg, w0, StaleSteps(cfg)) == World(StaleServer4(cfg), StaleClient(cfg))
  {
    hide SaveWith, SaveDiff, Keyed, SnapshotOf, EventChange, Lists;
    var steps := StaleSteps(cfg);
    assert steps[..0] == [] && steps[..1][..0] == [] && steps[..2][..1] == steps[..1];
    assert steps[..3][..2] == steps[..2] && steps[..4][..3] == steps[..3] && steps[..4] == steps;
    StaleSave1(cfg);
    StaleSave3(cfg);
    StaleSave4(cfg);
    CacheSaves(cfg, STALE_SERVER_0, Num(1));
    EventIsLogged(cfg, STALE_SERVER_1);
    CacheSaves(cfg, StaleServer3(cfg), Num(2));
    assert Run(cfg, w0, steps[..0]) == w0;
    assert Run(cfg, w0, steps[..1]) == w0.(server := STALE_SERVER_1);
    assert Run(cfg, w0, steps[..2]) == World(STALE_SERVER_1, StaleClient(cfg));
    assert Run(cfg, w0, steps[..3]) == World(StaleServer3(cfg), StaleClient(cfg));
    assert Run(cfg, w0, steps[..4]) == World(StaleServer4(cfg), StaleClient(cfg));
  }

  lemma OneShown()
    ensures SnapshotOf(STALE_DOCS_4).events == [Obj(EVENT)]
  {
    hide DeviceMetaOf;
    var items := [Obj(EVENT)];
    assert ItemsOf(STALE_DOCS_4, Event) == items;
    assert ShownIndexes(Event, items, 0) == [] && ShownIndexes(Event, items, 1) == [0];
    assert ShownRows(Event, items) == items;
  }

  lemma NoRowsYet(e: Entity)
    requires IsListEntity(e)
    ensures ItemsOf(STALE_DOCS_1, e) == [] && ListOf(SnapshotOf(STALE_DOCS_1), e) == []
  {
    hide DeviceMetaOf;
  }

  lemma NoEventHeld(cfg: Config, k: string)
    ensures (Event, k) !in StaleClient(cfg).replica
  {
    NoRowsYet(Event);
    assert RowMap(cfg, [], 0) == map[];
  }

  /** The client of the run holds no event; the server shows one. */
  lemma StaleListsDiffer(cfg: Config)
    ensures NoneHidden(cfg, STALE_DOCS_1)
    ensures !ShowsTheSame(StaleClient(cfg).replica, SnapshotOf(STALE_DOCS_4))
  {
    hide SnapshotOf, Keyed, StaleClient, ItemsOf;
    forall e: Entity | IsListEntity(e) ensures ItemsOf(STALE_DOCS_1, e) == [] {
      NoRowsYet(e);
    }
    OneShown();
    var r := StaleClient(cfg).replica;
    forall keys: seq<string> ensures !Arranges(r, Event, [Obj(EVENT)], keys) {
      if |keys| == 1 {
        assert keys[0] in keys;
        NoEventHeld(cfg, keys[0]);
      }
    }
    assert IsListEntity(Event) && ListOf(SnapshotOf(STALE_DOCS_4), Event) == [Obj(EVENT)];
  }

  /** Such a reply does go stale: the log ages out, a snapshot hands out position 0, an
      event is added, the log ages out again, and the poll says "nothing new". */
  lemma PositionZeroGoesStale(cfg: Config)
    requires DefaultLimits(cfg)
    ensures var w0 := Init(cfg, map[], Clock(0, 0));
            var w := Run(cfg, w0, StaleSteps(cfg));
            var reply := ChangesSince(w.server.log, w.client.position, 500);
            && ValidRun(cfg, w0, StaleSteps(cfg)) && NoneHidden(cfg, w.client.basis)
            && w.client.position == 0 && !reply.fullRequired && !reply.hasMore
            && SnapshotOf(w.server.docs).events == [Obj(EVENT)]
            && !ShowsTheSame(Receive(w.client, reply).replica, SnapshotOf(w.server.docs))
  {
    hide Init, Run, ValidRun, StaleSteps, ShowsTheSame, NoneHidden, SnapshotOf, Keyed;
    var w0 := Init(cfg, map[], Clock(0, 0));
    StaleStart(cfg);
    StaleRun(cfg, w0);
    StaleListsDiffer(cfg);
    OneShown();
    EmptyPoll(StaleClient(cfg), 500);
  }

  // ---------------------------------------------------- an event deleted unseen

  /** A row with a MAC address is keyed by it, wherever it stands. */
  ghost predicate KeysByMac(cfg: Config) {
    forall f: RowFields, g: RowFields, m: nat, n: nat ::
      "mac" in f && "mac" in g && f["mac"] == g["mac"] && Truthy(f["mac"]) ==> cfg.keyOf(f, m) == cfg.keyOf(g, n)
  }

  /** DELETE /api/events/<id> */
  function Marked(f: RowFields, at: string): RowFields {
    f["deleted" := Bool(true)]["deletedAt" := Str(at)]
  }

  function DeviceEvent(id: int, mac: string): RowFields {
    map["id" := Num(id), "mac" := Str(mac)]
  }

  lemma DeletionIsUnlogged(cfg: Config, mac: string, at: string)
    requires KeysByMac(cfg) && mac != ""
    ensures var e1, e2 := DeviceEvent(1, mac), DeviceEvent(2, mac);
            DocumentDiff(cfg, "events.json", List([Obj(e1), Obj(e2)]), List([Obj(Marked(e1, at)), Obj(e2)])) == map[]
  {
    var e1, e2 := DeviceEvent(1, mac), DeviceEvent(2, mac);
    var items, gone := [Obj(e1), Obj(e2)], Marked(e1, at);
    assert items[0 := Obj(gone)] == [Obj(gone), Obj(e2)];
    assert cfg.keyOf(gone, 0) == cfg.keyOf(e1, 0) == cfg.keyOf(e2, 1);
    assert !Deleted(e1) && Deleted(gone);
    assert LastIndex(cfg, items, 2, cfg.keyOf(e1, 0)) == 1;
    EventDeletionLoggedIff(cfg, items, 0, gone);
  }

  lemma TwoIndexes(e1: RowFields, e2: RowFields)
    requires !Deleted(e2)
    ensures ShownIndexes(Event, [Obj(e1), Obj(e2)], 2) == if Deleted(e1) then [1] else [0, 1]
  {
    hide Deleted;
    var items := [Obj(e1), Obj(e2)];
    assert ShownIndexes(Event, items, 0) == [];
    assert ShownIndexes(Event, items, 1) == if Deleted(e1) then [] else [0];
  }

  lemma ShownTwo(e1: RowFields, e2: RowFields, docs: Documents)
    requires !Deleted(e2) && "events.json" in docs && docs["events.json"] == List([Obj(e1), Obj(e2)])
    ensures SnapshotOf(docs).events == if Deleted(e1) then [Obj(e2)] else [Obj(e1), Obj(e2)]
  {
    hide DeviceMetaOf, Deleted, ShownIndexes;
    TwoIndexes(e1, e2);
    assert ItemsOf(docs, Event) == [Obj(e1), Obj(e2)];
  }

  /** Deleting an event that is not its device's last is silent: the poll after it is the
      poll before it, to the letter, while the snapshots differ. So no client, however it
      keeps its copy, can follow. */
  lemma EventDeletionIsSilent(cfg: Config, mac: string, at: string, limit: int)
    requires DefaultLimits(cfg) && KeysByMac(cfg) && mac != ""
    ensures var e1, e2 := DeviceEvent(1, mac), DeviceEvent(2, mac);
            var after := List([Obj(Marked(e1, at)), Obj(e2)]);
            var w0 := Init(cfg, map["events.json" := List([Obj(e1), Obj(e2)])], Clock(0, 0));
            var steps := [Save("events.json", after, [], Clock(1, 1))];
            var w := Run(cfg, w0, steps);
            var reply := ChangesSince(w.server.log, w.client.position, limit);
            && ValidRun(cfg, w0, steps) && w.client.position == 1
            && !reply.fullRequired && !reply.hasMore && reply.changes == []
            && reply == ChangesSince(w0.server.log, w0.client.position, limit)
            && SnapshotOf(w0.server.docs).events == [Obj(e1), Obj(e2)] && SnapshotOf(w.server.docs).events == [Obj(e2)]
  {
    hide Keyed, SnapshotOf, DocumentDiff;
    var e1, e2 := DeviceEvent(1, mac), DeviceEvent(2, mac);
    var before, after := List([Obj(e1), Obj(e2)]), List([Obj(Marked(e1, at)), Obj(e2)]);
    var docs0: Documents := map["events.json" := before];
    var w0 := Init(cfg, docs0, Clock(0, 0));
    var steps := [Save("events.json", after, [], Clock(1, 1))];
    SilentStart(cfg, docs0);
    assert w0.server == Server(docs0, [STALE_ROW_1], 1, 0, [STALE_ROW_1]);
    DeletionIsUnlogged(cfg, mac, at);
    assert Lists([], SaveDiff(cfg, w0.server, "events.json", after));
    assert Number([], 1, 1) == [];
    assert "deleted" !in e1 && Field(Marked(e1, at), "deleted") == Bool(true);
    var w := Next(cfg, w0, steps[0]);
    assert w.server == Server(docs0["events.json" := after], [STALE_ROW_1], 1, 0, [STALE_ROW_1]);
    assert steps[..0] == [] && Run(cfg, w0, steps[..0]) == w0 && Run(cfg, w0, steps) == w;
    ShownTwo(e1, e2, docs0);
    ShownTwo(Marked(e1, at), e2, w.server.docs);
    assert RowsAfter([STALE_ROW_1], 1) == [];
  }

  lemma SilentStart(cfg: Config, docs: Documents)
    requires DefaultLimits(cfg)
    ensures Restart(cfg, Server(docs, [], 0, 0, []), Clock(0, 0)) == Server(docs, [STALE_ROW_1], 1, 0, [STALE_ROW_1])
  {
    assert Number([BASELINE_CHANGE], 0, 0) == [STALE_ROW_1];
    assert KeepRecent([STALE_ROW_1], -172800) == [STALE_ROW_1];
  }

  /** The other side of it: with its newest event deleted a device's earlier ones are still
      shown, while the log says there is none; so a client that takes a snapshot of them and
      is told there is no more disagrees about that device's events, and it alone. */
  lemma DeletedNewestHides(cfg: Config, mac: string, at: string, limit: int, id: EntityKey)
    requires DefaultLimits(cfg) && KeysByMac(cfg) && mac != "" && InSnapshots(id.0)
    ensures var e1, e2 := DeviceEvent(1, mac), DeviceEvent(2, mac);
            var w := Init(cfg, map["events.json" := List([Obj(e1), Obj(Marked(e2, at))])], Clock(0, 0));
            var reply := ChangesSince(w.server.log, w.client.position, limit);
            && w.client.position == 1 && !reply.fullRequired && !reply.hasMore
            && (AgreesAt(Receive(w.client, reply).replica, View(cfg, w.server.docs), id) <==> id != (Event, cfg.keyOf(e1, 0)))
  {
    hide Keyed, SnapshotOf, View, AgreesAt, KeyFits, ItemsOf, Deleted, Restart, DeviceEvent, Marked;
    var e1, e2 := DeviceEvent(1, mac), Marked(DeviceEvent(2, mac), at);
    var docs: Documents := map["events.json" := List([Obj(e1), Obj(e2)])];
    FreshPoll(cfg, docs, limit);
    SnapshotAgreesAtIff(cfg, docs, id);
    MarkedIsDeleted(cfg, mac, at);
    if IsListEntity(id.0) {
      HiddenEventFits(cfg, docs, e1, e2, id);
    }
  }

  lemma MarkedIsDeleted(cfg: Config, mac: string, at: string)
    requires KeysByMac(cfg) && mac != ""
    ensures var e1, e2 := DeviceEvent(1, mac), Marked(DeviceEvent(2, mac), at);
            !Deleted(e1) && Deleted(e2) && cfg.keyOf(e2, 1) == cfg.keyOf(e1, 0)
  {
  }

  /** A client that has just taken the first snapshot is told there is no more, and keeps it. */
  lemma FreshPoll(cfg: Config, docs: Documents, limit: int)
    requires DefaultLimits(cfg)
    ensures var w := Init(cfg, docs, Clock(0, 0)); var reply := ChangesSince(w.server.log, w.client.position, limit);
            && w.server.docs == docs && w.client.position == 1 && !reply.fullRequired && !reply.hasMore
            && Receive(w.client, reply).replica == Keyed(cfg, SnapshotOf(docs))
  {
    hide Keyed, SnapshotOf, Restart;
    SilentStart(cfg, docs);
    assert RowsAfter([STALE_ROW_1], 1) == [] && ChangesOf([]) == [];
  }

  lemma HiddenEventFits(cfg: Config, docs: Documents, e1: RowFields, e2: RowFields, id: EntityKey)
    requires docs == map["events.json" := List([Obj(e1), Obj(e2)])] && IsListEntity(id.0)
    requires !Deleted(e1) && Deleted(e2) && cfg.keyOf(e2, 1) == cfg.keyOf(e1, 0)
    ensures KeyFits(cfg, id.0, ItemsOf(docs, id.0), id.1) <==> id != (Event, cfg.keyOf(e1, 0))
  {
    hide Project, Deleted;
    var items := ItemsOf(docs, id.0);
    if id.0 == Event {
      assert items == [Obj(e1), Obj(e2)];
      assert ShownIndexes(Event, items, 1) == [0] && ShownIndexes(Event, items, 2) == [0];
      assert ShownRows(Event, items) == [Obj(e1)];
      assert LastIndex(cfg, [Obj(e1)], 1, id.1) == if id.1 == cfg.keyOf(e1, 0) then 0 else -1;
      assert LastIndex(cfg, items, 2, id.1) == if id.1 == cfg.keyOf(e1, 0) then 1 else -1;
    } else {
      assert items == [] && ShownRows(id.0, items) == [];
    }
  }

  // ------------------------------------------------------------- pagination

  /** Ask again from nextRevision until there is no more. */
  ghost function FollowPages(history: seq<Row>, log: seq<Row>, since: int, limit: int): seq<Row>
    requires Numbered(history) && IsSuffix(log, history)
    requires since >= 1 || log != []
    decreases |history| - since
  {
    ReplyIsExact(history, log, since, limit);
    var reply := ChangesSince(log, since, limit);
    if reply.fullRequired || !reply.hasMore then reply.changes
    else reply.changes + FollowPages(history, log, reply.nextRevision, limit)
  }

  /** Paging with any limit ends and concatenates to the single-shot suffix. */
  lemma {:induction false} PagesConcatenate(history: seq<Row>, log: seq<Row>, since: int, limit: int)
    requires Numbered(history) && IsSuffix(log, history)
    requires since >= 1 || log != []
    requires !FullRequired(log, since)
    ensures FollowPages(history, log, since, limit) == RowsAfter(log, since)
    decreases |history| - since
  {
    hide ChangesSince, RowsAfter;
    ReplyIsExact(history, log, since, limit);
    var reply := ChangesSince(log, since, limit);
    RowsAfterSuffix(log, history, since);
    if reply.hasMore {
      ReplyIsExact(history, log, reply.nextRevision, limit);
      PagesConcatenate(history, log, reply.nextRevision, limit);
      RowsAfterSuffix(log, history, reply.nextRevision);
      assert history[since..] == history[since..reply.nextRevision] + history[reply.nextRevision..];
    }
  }

  // ------------------------------------------------- clocks that run backwards

  /** Some retained rows of the history, in order, after arbitrary age pruning. */
  ghost predicate IsSublog(log: seq<Row>, history: seq<Row>) {
    && (forall i :: 0 <= i < |log| ==> 1 <= log[i].revision <= |history| && log[i] == history[log[i].revision - 1])
    && (forall i, j :: 0 <= i < j < |log| ==> log[i].revision < log[j].revision)
  }

  /** No hole between the oldest row and the newest one issued. */
  predicate Gapless(log: seq<Row>, issued: nat) {
    log == [] || (|log| == Current(log) - Oldest(log) + 1 && Current(log) == issued)
  }

  lemma {:induction false} RowsAfterLength(log: seq<Row>, since: int)
    requires forall i, j :: 0 <= i < j < |log| ==> log[i].revision < log[j].revision
    requires log != [] && since == log[0].revision
    ensures RowsAfter(log, since) == log[1..]
  {
    var init := log[..|log| - 1];
    if |log| == 1 {
      assert RowsAfter(init, since) == [];
    } else {
      RowsAfterLength(init, since);
      assert log[1..] == init[1..] + [log[|log| - 1]];
    }
  }

  lemma {:induction false} SublogSpan(log: seq<Row>, history: seq<Row>, i: nat, j: nat)
    requires IsSublog(log, history) && i <= j < |log|
    ensures log[j].revision - log[i].revision >= j - i
    decreases j
  {
    if i < j {
      SublogSpan(log, history, i, j - 1);
    }
  }

  /** Under any clock, every accepted position >= 1 gets exactly the issued rows it
      lacks if and only if the retained log has no hole. */
  lemma ExactIffGapless(log: seq<Row>, history: seq<Row>)
    requires Numbered(history) && IsSublog(log, history)
    ensures (forall since: int :: since >= 1 && !FullRequired(log, since) ==> RowsAfter(log, since) == history[since..])
            <==> Gapless(log, |history|)
  {
    if Gapless(log, |history|) {
      forall i | 0 <= i < |log| ensures log[i].revision == Oldest(log) + i {
        SublogSpan(log, history, 0, i);
        SublogSpan(log, history, i, |log| - 1);
      }
      assert log == history[|history| - |log|..];
      forall since: int | since >= 1 && !FullRequired(log, since)
        ensures RowsAfter(log, since) == history[since..]
      {
        RowsAfterSuffix(log, history, since);
      }
    } else {
      var since: int := log[0].revision;
      SublogSpan(log, history, 0, |log| - 1);
      assert since >= 1 && !FullRequired(log, since);
      RowsAfterLength(log, since);
    }
  }

  lemma {:induction false} KeepRecentIsSublog(log: seq<Row>, history: seq<Row>, cutoff: int)
    requires IsSublog(log, history)
    ensures IsSublog(KeepRecent(log, cutoff), history)
  {
    if log != [] {
      var init, last := log[..|log| - 1], log[|log| - 1];
      KeepRecentIsSublog(init, history, cutoff);
      var rest := KeepRecent(init, cutoff);
      KeepRecentBelow(log, cutoff, rest, last);
      SublogSnoc(rest, last, history);
    }
  }

  lemma KeepRecentBelow(log: seq<Row>, cutoff: int, rest: seq<Row>, last: Row)
    requires log != [] && forall i, j :: 0 <= i < j < |log| ==> log[i].revision < log[j].revision
    requires rest == KeepRecent(log[..|log| - 1], cutoff) && last == log[|log| - 1]
    ensures forall i :: 0 <= i < |rest| ==> rest[i].revision < last.revision
  {
    var init := log[..|log| - 1];
    forall i | 0 <= i < |rest| ensures rest[i].revision < last.revision {
      KeepRecentMember(init, cutoff, i);
      var j :| 0 <= j < |init| && init[j] == rest[i];
      assert log[j].revision < log[|log| - 1].revision;
    }
  }

  lemma SublogSnoc(rest: seq<Row>, last: Row, history: seq<Row>)
    requires IsSublog(rest, history)
    requires 1 <= last.revision <= |history| && last == history[last.revision - 1]
    requires forall i :: 0 <= i < |rest| ==> rest[i].revision < last.revision
    ensures IsSublog(rest + [last], history)
  {
  }

  lemma SublogDropsPrefix(log: seq<Row>, history: seq<Row>, n: nat)
    requires IsSublog(log, history) && n <= |log|
    ensures IsSublog(log[n..], history)
  {
  }

  lemma SublogAppend(s: Server, cs: seq<Change>, now: int)
    requires Numbered(s.history) && |s.history| == s.issued && IsSublog(s.log, s.history)
    ensures var t := Append(s, cs, now); Numbered(t.history) && |t.history| == t.issued && IsSublog(t.log, t.history)
  {
    var t := Append(s, cs, now);
    forall i | 0 <= i < |t.log|
      ensures 1 <= t.log[i].revision <= |t.history| && t.log[i] == t.history[t.log[i].revision - 1]
      ensures i < |s.log| ==> t.log[i].revision <= s.issued
      ensures i >= |s.log| ==> t.log[i].revision == s.issued + 1 + i - |s.log|
    {
      if i < |s.log| {
        assert t.log[i] == s.log[i];
      } else {
        assert t.log[i] == Number(cs, s.issued, now)[i - |s.log|];
      }
    }
    forall i, j | 0 <= i < j < |t.log| ensures t.log[i].revision < t.log[j].revision {
      if j < |s.log| {
        assert s.log[i].revision < s.log[j].revision;
      }
    }
  }

  /** Whatever the clocks do, the log holds rows of the history, in order. */
  lemma AnyClockKeepsSublog(cfg: Config, s: Server, cs: seq<Change>, clock: Clock, force: bool)
    requires Numbered(s.history) && |s.history| == s.issued && IsSublog(s.log, s.history)
    ensures var t := Prune(cfg, Append(s, cs, clock.now), clock, force);
            Numbered(t.history) && |t.history| == t.issued && IsSublog(t.log, t.history)
  {
    hide IsSublog, KeepRecent, Numbered;
    SublogAppend(s, cs, clock.now);
    var t := Append(s, cs, clock.now);
    KeepRecentIsSublog(t.log, t.history, clock.now - cfg.maxAge);
    var recent := KeepRecent(t.log, clock.now - cfg.maxAge);
    if |recent| > cfg.maxRows {
      SublogDropsPrefix(recent, t.history, |recent| - cfg.maxRows);
    }
  }

  // A run in which the clock is set back for one save: an event logged then ages out
  // before the rows around it.

  const STATUS_CHANGE := Change(Status, Replace, "status", Num(1))
  const HOLE_ROW_1 := Row(1, BASELINE_CHANGE, 1000)
  const HOLE_ROW_3 := Row(3, STATUS_CHANGE, 1000)
  const HOLE_DOCS_1: Documents := map["events.json" := List([Obj(EVENT)])]
  const HOLE_DOCS_2: Documents := map["events.json" := List([Obj(EVENT)]), "state.json" := Num(1)]
  const HOLE_DOCS_3: Documents := map["events.json" := List([Obj(EVENT)]), "state.json" := Num(1), "geo_cache.json" := Num(1)]
  const HOLE_SERVER_0 := Server(map[], [HOLE_ROW_1], 1, 0, [HOLE_ROW_1])

  function HoleRow2(cfg: Config): Row {
    Row(2, EventChange(cfg), 0)
  }

  function HoleServer1(cfg: Config): Server {
    Server(HOLE_DOCS_1, [HOLE_ROW_1, HoleRow2(cfg)], 2, 0, [HOLE_ROW_1, HoleRow2(cfg)])
  }

  function HoleServer2(cfg: Config): Server {
    Server(HOLE_DOCS_2, [HOLE_ROW_1, HoleRow2(cfg), HOLE_ROW_3], 3, 0, [HOLE_ROW_1, HoleRow2(cfg), HOLE_ROW_3])
  }

  function HoleServer3(cfg: Config): Server {
    Server(HOLE_DOCS_3, [HOLE_ROW_1, HOLE_ROW_3], 3, 1000, [HOLE_ROW_1, HoleRow2(cfg), HOLE_ROW_3])
  }

  function HoleSteps(cfg: Config): seq<Step> {
    [Save("events.json", List([Obj(EVENT)]), [EventChange(cfg)], Clock(0, 100)),
     Save("state.json", Num(1), [STATUS_CHANGE], Clock(1000, 200)),
     Save("geo_cache.json", Num(1), [], Clock(173000, 1000))]
  }

  lemma HoleStart(cfg: Config)
    requires DefaultLimits(cfg)
    ensures Restart(cfg, Server(map[], [], 0, 0, []), Clock(1000, 0)) == HOLE_SERVER_0
  {
    assert Number([BASELINE_CHANGE], 0, 1000) == [HOLE_ROW_1];
    assert KeepRecent([HOLE_ROW_1], 1000 - 172800) == [HOLE_ROW_1];
  }

  lemma HoleSaves(cfg: Config)
    requires DefaultLimits(cfg)
    ensures SaveWith(cfg, HOLE_SERVER_0, "events.json", List([Obj(EVENT)]), [EventChange(cfg)], Clock(0, 100)) == HoleServer1(cfg)
    ensures SaveWith(cfg, HoleServer1(cfg), "state.json", Num(1), [STATUS_CHANGE], Clock(1000, 200)) == HoleServer2(cfg)
  {
    hide EventChange;
    assert Number([EventChange(cfg)], 1, 0) == [HoleRow2(cfg)];
    assert [HOLE_ROW_1] + [HoleRow2(cfg)] == [HOLE_ROW_1, HoleRow2(cfg)];
    assert Number([STATUS_CHANGE], 2, 1000) == [HOLE_ROW_3];
    assert [HOLE_ROW_1, HoleRow2(cfg)] + [HOLE_ROW_3] == [HOLE_ROW_1, HoleRow2(cfg), HOLE_ROW_3];
    assert HOLE_DOCS_1["state.json" := Num(1)] == HOLE_DOCS_2;
  }

  lemma HolePrune(cfg: Config)
    requires DefaultLimits(cfg)
    ensures SaveWith(cfg, HoleServer2(cfg), "geo_cache.json", Num(1), [], Clock(173000, 1000)) == HoleServer3(cfg)
  {
    hide EventChange, KeepRecent;
    assert Number([], 3, 173000) == [];
    assert HoleServer2(cfg).log + [] == HoleServer2(cfg).log;
    assert HOLE_DOCS_2["geo_cache.json" := Num(1)] == HOLE_DOCS_3;
    HoleAfterPruning(HOLE_ROW_1, HoleRow2(cfg), HOLE_ROW_3);
  }

  lemma StatusIsLogged(cfg: Config, s: Server)
    requires "state.json" !in s.docs
    ensures Lists([STATUS_CHANGE], SaveDiff(cfg, s, "state.json", Num(1)))
  {
    SpecialKeysAreRevisioned();
    assert SaveDiff(cfg, s, "state.json", Num(1)) == map[(Status, "status") := STATUS_CHANGE];
    assert STATUS_CHANGE in [STATUS_CHANGE];
  }

  /** A run in which clocks may be set back. */
  ghost predicate PossibleRun(cfg: Config, w: World, steps: seq<Step>) {
    forall i :: 0 <= i < |steps| ==> Possible(cfg, Run(cfg, w, steps[..i]), steps[i])
  }

  lemma HoleRun(cfg: Config, w0: World)
    requires DefaultLimits(cfg) && w0.server == HOLE_SERVER_0
    ensures var steps := HoleSteps(cfg);
            && Run(cfg, w0, steps) == w0.(server := HoleServer3(cfg))
            && PossibleRun(cfg, w0, steps)
  {
    hide SaveWith, SaveDiff, EventChange, Lists;
    var steps := HoleSteps(cfg);
    assert steps[..0] == [] && steps[..1][..0] == [] && steps[..2][..1] == steps[..1];
    assert steps[..3][..2] == steps[..2] && steps[..3] == steps;
    HoleSaves(cfg);
    HolePrune(cfg);
    EventIsLogged(cfg, HOLE_SERVER_0);
    StatusIsLogged(cfg, HoleServer1(cfg));
    CacheSaves(cfg, HoleServer2(cfg), Num(1));
    assert Run(cfg, w0, steps[..0]) == w0;
    assert Run(cfg, w0, steps[..1]) == w0.(server := HoleServer1(cfg));
    assert Run(cfg, w0, steps[..2]) == w0.(server := HoleServer2(cfg));
    assert Run(cfg, w0, steps[..3]) == w0.(server := HoleServer3(cfg));
  }

  /** A run possible but for the clock: a row inserted while the clock was set back ages
      out before its elder, and the poll of a client at position 1 passes over it. */
  lemma BackwardClockLosesRow(cfg: Config)
    requires DefaultLimits(cfg)
    ensures var w0, steps := Init(cfg, map[], Clock(1000, 0)), HoleSteps(cfg);
            var w := Run(cfg, w0, steps);
            var reply := ChangesSince(w.server.log, w.client.position, 500);
            && PossibleRun(cfg, w0, steps) && w.client.position == 1 && !reply.fullRequired && !reply.hasMore
            && w.server.history == [HOLE_ROW_1, HoleRow2(cfg), HOLE_ROW_3] && reply.changes == [HOLE_ROW_3]
            && !Gapless(w.server.log, w.server.issued)
  {
    hide Run, PossibleRun, Keyed, SnapshotOf, EventChange, HoleSteps, KeepRecent;
    var w0 := Init(cfg, map[], Clock(1000, 0));
    HoleStart(cfg);
    HoleRun(cfg, w0);
    HoleAfterPruning(HOLE_ROW_1, HoleRow2(cfg), HOLE_ROW_3);
  }

  lemma HoleAfterPruning(a: Row, b: Row, d: Row)
    requires a.revision == 1 && b.revision == 2 && d.revision == 3
    requires a.createdAt >= 200 && b.createdAt < 200 && d.createdAt >= 200
    ensures KeepRecent([a, b, d], 200) == [a, d]
    ensures RowsAfter([a, d], 1) == [d]
  {
    assert [a, b, d][..2] == [a, b] && [a, b][..1] == [a] && [a][..0] == [] && [a, d][..1] == [a];
    assert KeepRecent([a], 200) == [a];
    assert KeepRecent([a, b], 200) == [a];
    assert RowsAfter([a], 1) == [];
  }
}
