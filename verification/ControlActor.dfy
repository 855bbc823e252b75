/** Every router call through one worker: submitters, a bounded priority queue and the
    worker interleave step by step (router_control_actor_patch.py). */
module ControlActor {
  import opened Wrappers

  const PRIORITY_BACKGROUND := 50
  const MAX_QUEUED := 96

  datatype Item = Item(priority: int, sequence: nat) {
    predicate Foreground() { priority < PRIORITY_BACKGROUND }

    /** The queue's order: priority, then age. */
    predicate Before(other: Item) {
      priority < other.priority || (priority == other.priority && sequence < other.sequence)
    }
  }

  /** Where the worker is between two of its lock regions. */
  datatype Worker = Idle | Holding(item: Item) | Running(item: Item)

  /** `admitted`: past the admission check, no number yet; `putting`: numbered, not in the
      queue; `refused`: the put timed out, not yet uncounted; `started`: begun, oldest first. */
  datatype State = State(
    pending: int, active: Option<int>, nextSequence: nat,
    admitted: seq<int>, putting: set<Item>, queued: set<Item>, refused: set<Item>,
    worker: Worker, started: seq<Item>)

  datatype Step =
    | Admit(priority: int)
    | Draw(k: nat)
    | Put(item: Item)
    | Full(item: Item)
    | Uncount(item: Item)
    | Take(item: Item)
    | Count
    | Finish

  predicate Defers(s: State, priority: int) {
    priority >= PRIORITY_BACKGROUND && (s.active.Some? || s.pending > 0 || s.queued != {})
  }

  predicate IsFirst(items: set<Item>, item: Item) {
    item in items && forall other :: other in items && other != item ==> item.Before(other)
  }

  predicate Enabled(s: State, step: Step) {
    match step
    case Admit(priority) => !Defers(s, priority)
    case Draw(k) => k < |s.admitted|
    case Put(item) => item in s.putting && |s.queued| < MAX_QUEUED
    case Full(item) => item in s.putting && |s.queued| >= MAX_QUEUED
    case Uncount(item) => item in s.refused
    case Take(item) => s.worker.Idle? && IsFirst(s.queued, item)
    case Count => s.worker.Holding?
    case Finish => s.worker.Running?
  }

  /** Counting down, stopped at zero. */
  function Less(pending: int): nat {
    if pending - 1 > 0 then pending - 1 else 0
  }

  /** One step; a step that is not enabled is never taken. */
  function Next(s: State, step: Step): State {
    match step
    case Admit(priority) =>
      s.(pending := if priority < PRIORITY_BACKGROUND then s.pending + 1 else s.pending, admitted := s.admitted + [priority])
    case Draw(k) => if k >= |s.admitted| then s else
      s.(putting := s.putting + {Item(s.admitted[k], s.nextSequence)}, nextSequence := s.nextSequence + 1,
         admitted := s.admitted[..k] + s.admitted[k + 1..])
    case Put(item) => s.(putting := s.putting - {item}, queued := s.queued + {item})
    case Full(item) => s.(putting := s.putting - {item}, refused := s.refused + {item})
    case Uncount(item) =>
      s.(refused := s.refused - {item}, pending := if item.Foreground() then Less(s.pending) else s.pending)
    case Take(item) => s.(queued := s.queued - {item}, worker := Holding(item))
    case Count => if !s.worker.Holding? then s else
      var item := s.worker.item;
      s.(active := Some(item.priority), pending := if item.Foreground() then Less(s.pending) else s.pending,
         worker := Running(item), started := s.started + [item])
    case Finish => s.(active := None, worker := Idle)
  }

  const START := State(0, None, 0, [], {}, {}, {}, Idle, [])

  /** The states a schedule passes through. */
  ghost predicate Schedule(states: seq<State>, steps: seq<Step>) {
    && |states| == |steps| + 1
    && forall i :: 0 <= i < |steps| ==> Enabled(states[i], steps[i]) && states[i + 1] == Next(states[i], steps[i])
  }

  // --------------------------------------------------------------- accounting

  function CountForeground(priorities: seq<int>): nat {
    if priorities == [] then 0
    else (if priorities[0] < PRIORITY_BACKGROUND then 1 else 0) + CountForeground(priorities[1..])
  }

  function Foreground(items: set<Item>): set<Item> {
    set i | i in items && i.Foreground()
  }

  function HeldForeground(w: Worker): nat {
    if w.Holding? && w.item.Foreground() then 1 else 0
  }

  /** Foreground work admitted and neither counted by the worker nor uncounted after a refusal. */
  function Outstanding(s: State): nat {
    CountForeground(s.admitted) + |Foreground(s.putting)| + |Foreground(s.queued)|
    + |Foreground(s.refused)| + HeldForeground(s.worker)
  }

  /** The item may still start, or is refused. */
  predicate Alive(s: State, i: Item) {
    i in s.putting || i in s.queued || i in s.refused || (s.worker.Holding? && s.worker.item == i)
  }

  ghost predicate Apart(s: State) {
    && (forall i :: i in s.putting ==> i !in s.queued && i !in s.refused)
    && (forall i :: i in s.queued ==> i !in s.refused)
    && (s.worker.Holding? ==> s.worker.item !in s.putting && s.worker.item !in s.queued && s.worker.item !in s.refused)
  }

  /** Sequence numbers name items, and nothing started is still around to start again. */
  ghost predicate Named(s: State) {
    && (forall i :: Alive(s, i) ==> i.sequence < s.nextSequence)
    && (forall i, j :: Alive(s, i) && Alive(s, j) && i.sequence == j.sequence ==> i == j)
    && (forall k :: 0 <= k < |s.started| ==> s.started[k].sequence < s.nextSequence)
    && (forall i, k :: Alive(s, i) && 0 <= k < |s.started| ==> s.started[k].sequence != i.sequence)
    && (forall k, l :: 0 <= k < l < |s.started| ==> s.started[k].sequence != s.started[l].sequence)
  }

  ghost predicate StateOk(s: State) {
    s.pending == Outstanding(s) && Apart(s) && Named(s) && Steady(s)
  }

  lemma {:induction false} CountSplit(a: seq<int>, b: seq<int>)
    ensures CountForeground(a + b) == CountForeground(a) + CountForeground(b)
  {
    if a == [] {
      assert a + b == b;
    } else {
      CountSplit(a[1..], b);
      assert (a + b)[1..] == a[1..] + b;
    }
  }

  lemma ForegroundAdd(items: set<Item>, item: Item)
    requires item !in items
    ensures |Foreground(items + {item})| == |Foreground(items)| + if item.Foreground() then 1 else 0
  {
    if item.Foreground() {
      assert Foreground(items + {item}) == Foreground(items) + {item};
    } else {
      assert Foreground(items + {item}) == Foreground(items);
    }
  }

  lemma ForegroundRemove(items: set<Item>, item: Item)
    requires item in items
    ensures |Foreground(items)| == |Foreground(items - {item})| + if item.Foreground() then 1 else 0
  {
    ForegroundAdd(items - {item}, item);
    assert items - {item} + {item} == items;
  }

  lemma AccountingKept(s: State, step: Step)
    requires StateOk(s) && Enabled(s, step)
    ensures Next(s, step).pending == Outstanding(Next(s, step))
  {
    hide Named, Foreground;
    match step
    case Admit(priority) =>
      CountSplit(s.admitted, [priority]);
      assert CountForeground([priority]) == if priority < PRIORITY_BACKGROUND then 1 else 0;
    case Draw(k) => DrawKept(s, k);
    case Put(item) =>
      ForegroundRemove(s.putting, item);
      ForegroundAdd(s.queued, item);
    case Full(item) =>
      ForegroundRemove(s.putting, item);
      ForegroundAdd(s.refused, item);
    case Uncount(item) => ForegroundRemove(s.refused, item);
    case Take(item) =>
      ForegroundRemove(s.queued, item);
    case Count =>
    case Finish =>
  }

  lemma DrawKept(s: State, k: nat)
    requires StateOk(s) && Enabled(s, Draw(k))
    ensures Outstanding(Next(s, Draw(k))) == Outstanding(s)
  {
    hide Foreground;
    var a, p, b := s.admitted[..k], s.admitted[k], s.admitted[k + 1..];
    assert s.admitted == a + ([p] + b);
    CountSplit(a, [p] + b);
    CountSplit([p], b);
    CountSplit(a, b);
    assert CountForeground([p]) == if p < PRIORITY_BACKGROUND then 1 else 0;
    assert !Alive(s, Item(p, s.nextSequence));
    ForegroundAdd(s.putting, Item(p, s.nextSequence));
  }

  lemma PlacesKept(s: State, step: Step)
    requires StateOk(s) && Enabled(s, step)
    ensures Apart(Next(s, step))
  {
    hide Outstanding;
    match step
    case Draw(k) => assert !Alive(s, Item(s.admitted[k], s.nextSequence));
    case _ => hide Named, Alive;
  }

  ghost predicate Steady(s: State) {
    && |s.queued| <= MAX_QUEUED && (s.active.Some? <==> s.worker.Running?)
    && (s.active.Some? ==> s.active.value == s.worker.item.priority)
  }

  lemma SteadyKept(s: State, step: Step)
    requires Steady(s) && Enabled(s, step)
    ensures Steady(Next(s, step))
  {
  }

  lemma SameNames(s: State, s': State)
    requires Named(s) && (forall i :: Alive(s', i) <==> Alive(s, i)) && s'.started == s.started
             && s'.nextSequence == s.nextSequence
    ensures Named(s')
  {
    hide Alive;
  }

  lemma FewerNames(s: State, s': State, item: Item)
    requires Named(s) && Alive(s, item) && (forall i :: Alive(s', i) <==> Alive(s, i) && i != item)
             && s'.nextSequence == s.nextSequence
    requires s'.started == s.started || s'.started == s.started + [item]
    ensures Named(s')
  {
    hide Alive;
  }

  lemma OneMoreName(s: State, s': State, item: Item)
    requires Named(s) && item.sequence == s.nextSequence && (forall i :: Alive(s', i) <==> Alive(s, i) || i == item)
    requires s'.started == s.started && s'.nextSequence == s.nextSequence + 1
    ensures Named(s')
  {
    hide Alive;
  }

  lemma NamesKept(s: State, step: Step)
    requires StateOk(s) && Enabled(s, step)
    ensures Named(Next(s, step))
  {
    hide Outstanding, Named;
    var s' := Next(s, step);
    match step
    case Draw(k) => OneMoreName(s, s', Item(s.admitted[k], s.nextSequence));
    case Uncount(item) => FewerNames(s, s', item);
    case Count => FewerNames(s, s', s.worker.item);
    case _ => SameNames(s, s');
  }

  /** Whatever the interleaving, the counter is exactly the outstanding foreground work,
      and every item has one place. */
  lemma NextKeepsState(s: State, step: Step)
    requires StateOk(s) && Enabled(s, step)
    ensures StateOk(Next(s, step))
  {
    hide Enabled, Next, Apart, Named, Steady, Outstanding;
    AccountingKept(s, step);
    SteadyKept(s, step);
    PlacesKept(s, step);
    NamesKept(s, step);
  }

  lemma {:induction false} ScheduleKeepsState(states: seq<State>, steps: seq<Step>, k: nat)
    requires Schedule(states, steps) && StateOk(states[0]) && k < |states|
    ensures StateOk(states[k])
  {
    hide StateOk, Enabled, Next;
    if k > 0 {
      ScheduleKeepsState(states, steps, k - 1);
      NextKeepsState(states[k - 1], steps[k - 1]);
    }
  }

  lemma StartOk()
    ensures StateOk(START)
  {
  }

  // ------------------------------------------------------------- consequences

  /** In every reachable state the clamp at zero changes nothing. */
  lemma ClampNeverFires(states: seq<State>, steps: seq<Step>, k: nat)
    requires Schedule(states, steps) && states[0] == START && k < |steps|
    requires steps[k].Count? || steps[k].Uncount?
    ensures var item := if steps[k].Count? then states[k].worker.item else steps[k].item;
            item.Foreground() ==> states[k + 1].pending == states[k].pending - 1 >= 0
  {
    hide Named, Apart;
    StartOk();
    ScheduleKeepsState(states, steps, k);
    var s := states[k];
    if steps[k].Uncount? && steps[k].item.Foreground() {
      ForegroundRemove(s.refused, steps[k].item);
    }
  }

  /** A background call is let in only when no foreground call is anywhere between its
      admission and its start, nothing is queued and nothing runs. */
  lemma BackgroundYields(states: seq<State>, steps: seq<Step>, k: nat)
    requires Schedule(states, steps) && states[0] == START && k < |steps|
    requires steps[k].Admit? && steps[k].priority >= PRIORITY_BACKGROUND
    ensures var s := states[k];
            && s.queued == {} && !s.worker.Running? && CountForeground(s.admitted) == 0
            && (s.worker.Holding? ==> !s.worker.item.Foreground())
            && forall i :: i in s.putting + s.refused ==> !i.Foreground()
  {
    hide Named;
    StartOk();
    ScheduleKeepsState(states, steps, k);
    var s := states[k];
    forall i | i in s.putting + s.refused ensures !i.Foreground() {
      assert i.Foreground() ==> i in Foreground(s.putting) || i in Foreground(s.refused);
    }
  }

  /** Nothing runs, nothing is queued, and no foreground call is anywhere on its way. */
  ghost predicate AtRest(s: State) {
    && s.queued == {} && !s.worker.Running? && (s.worker.Holding? ==> s.worker.item.priority >= 50)
    && (forall k :: 0 <= k < |s.admitted| ==> s.admitted[k] >= 50)
    && (forall i :: i in s.putting + s.refused ==> i.priority >= 50)
  }

  /** A call is let in if and only if it is a foreground call, or the actor is at rest. */
  lemma AdmittedIff(states: seq<State>, steps: seq<Step>, k: nat, priority: int)
    requires Schedule(states, steps) && states[0] == START && k < |states|
    ensures Enabled(states[k], Admit(priority)) <==> priority < 50 || AtRest(states[k])
  {
    hide Named, Apart, Foreground;
    StartOk();
    ScheduleKeepsState(states, steps, k);
    var s := states[k];
    NoneCountedIff(s.admitted);
    NoForegroundIff(s.putting);
    NoForegroundIff(s.queued);
    NoForegroundIff(s.refused);
  }

  lemma {:induction false} NoneCountedIff(priorities: seq<int>)
    ensures CountForeground(priorities) == 0 <==> forall k :: 0 <= k < |priorities| ==> priorities[k] >= 50
  {
    if priorities != [] {
      NoneCountedIff(priorities[1..]);
      assert forall k :: 0 < k < |priorities| ==> priorities[k] == priorities[1..][k - 1];
    }
  }

  lemma NoForegroundIff(items: set<Item>)
    ensures |Foreground(items)| == 0 <==> forall i :: i in items ==> i.priority >= 50
  {
    if i :| i in items && i.priority < 50 {
      assert i in Foreground(items);
    } else {
      assert Foreground(items) == {};
    }
  }

  lemma {:induction false} QueueIsBounded(states: seq<State>, steps: seq<Step>, k: nat)
    requires Schedule(states, steps) && states[0] == START && k < |states|
    ensures |states[k].queued| <= 96
  {
    if k > 0 {
      QueueIsBounded(states, steps, k - 1);
      var s, step := states[k - 1], steps[k - 1];
      assert Enabled(s, step) && states[k] == Next(s, step);
      if step.Take? {
        SmallerSet(s.queued - {step.item}, s.queued);
      }
    }
  }

  /** A call is refused a place only while exactly ninety-six are queued. */
  lemma RefusedWhenFull(states: seq<State>, steps: seq<Step>, k: nat)
    requires Schedule(states, steps) && states[0] == START && k < |steps| && steps[k].Full?
    ensures |states[k].queued| == 96
  {
    QueueIsBounded(states, steps, k);
    assert Enabled(states[k], steps[k]);
  }

  /** No item starts twice. */
  lemma StartedOnce(states: seq<State>, steps: seq<Step>, k: nat)
    requires Schedule(states, steps) && states[0] == START && k < |states|
    ensures forall i, j :: 0 <= i < j < |states[k].started| ==> states[k].started[i] != states[k].started[j]
  {
    hide Apart, Outstanding;
    StartOk();
    ScheduleKeepsState(states, steps, k);
  }

  /** The worker never takes a background item while a foreground one is queued. */
  lemma ForegroundTakenFirst(s: State, item: Item)
    requires Enabled(s, Take(item)) && !item.Foreground()
    ensures Foreground(s.queued) == {}
  {
  }

  /** While the worker holds a background item it took, a foreground item is queued if and
      only if one was put since the take; so exactly then the start passes it over. */
  lemma {:induction false} PassedOverIff(states: seq<State>, steps: seq<Step>, background: Item, j: nat, k: nat)
    requires Schedule(states, steps) && j < k < |states| && steps[j] == Take(background) && !background.Foreground()
    requires forall m :: j < m <= k ==> states[m].worker == Holding(background)
    ensures Foreground(states[k].queued) != {} <==> exists m :: j < m < k && steps[m].Put? && steps[m].item.Foreground()
  {
    hide Next, Enabled, Foreground;
    if k == j + 1 {
      TakenFirst(states[j], background);
      assert Enabled(states[j], steps[j]) && states[k] == Next(states[j], steps[j]);
    } else {
      PassedOverIff(states, steps, background, j, k - 1);
      assert Enabled(states[k - 1], steps[k - 1]) && states[k] == Next(states[k - 1], steps[k - 1]);
      HeldStep(states[k - 1], steps[k - 1]);
    }
  }

  lemma HeldStep(s: State, step: Step)
    requires Enabled(s, step) && s.worker.Holding? && Next(s, step).worker == s.worker
    ensures Foreground(Next(s, step).queued) != {} <==> Foreground(s.queued) != {} || (step.Put? && step.item.Foreground())
  {
    hide IsFirst, Defers;
    if step.Put? {
      var after := s.queued + {step.item};
      assert forall i :: i in Foreground(after) <==> i in Foreground(s.queued) || (i == step.item && i.Foreground());
      if Foreground(s.queued) != {} {
        var i :| i in Foreground(s.queued);
        assert i in Foreground(after);
      }
      if step.item.Foreground() {
        assert step.item in Foreground(after);
      }
    }
  }

  lemma TakenFirst(s: State, item: Item)
    requires Enabled(s, Take(item)) && !item.Foreground()
    ensures Foreground(Next(s, Take(item)).queued) == {}
  {
  }

  /** ... as it can be: the foreground call may arrive between the take and the start. */
  lemma ForegroundMayArriveInBetween()
    ensures var background, foreground := Item(50, 0), Item(10, 1);
            var steps := [Admit(50), Draw(0), Put(background), Take(background), Admit(10), Draw(0), Put(foreground), Count];
            exists states: seq<State> :: Schedule(states, steps) && states[0] == START
              && states[8].started == [background] && states[8].queued == {foreground}
  {
    var b, f := Item(50, 0), Item(10, 1);
    var steps := [Admit(50), Draw(0), Put(b), Take(b), Admit(10), Draw(0), Put(f), Count];
    var s1 := START.(admitted := [50]);
    var s2 := START.(nextSequence := 1, putting := {b});
    var s3 := START.(nextSequence := 1, queued := {b});
    var s4 := START.(nextSequence := 1, worker := Holding(b));
    var s5 := s4.(pending := 1, admitted := [10]);
    var s6 := s4.(pending := 1, nextSequence := 2, putting := {f});
    var s7 := s4.(pending := 1, nextSequence := 2, queued := {f});
    var s8 := s7.(active := Some(50), worker := Running(b), started := [b]);
    var states := [START, s1, s2, s3, s4, s5, s6, s7, s8];
    assert [50][..0] + [50][1..] == [] && [10][..0] + [10][1..] == [];
    FirstSteps(b, s1, s2, s3, s4);
    LastSteps(b, f, s4, s5, s6, s7, s8);
    assert Schedule(states, steps);
  }

  lemma FirstSteps(b: Item, s1: State, s2: State, s3: State, s4: State)
    requires b == Item(50, 0) && s1 == START.(admitted := [50]) && s2 == START.(nextSequence := 1, putting := {b})
    requires s3 == START.(nextSequence := 1, queued := {b}) && s4 == START.(nextSequence := 1, worker := Holding(b))
    ensures Enabled(START, Admit(50)) && Next(START, Admit(50)) == s1
    ensures Enabled(s1, Draw(0)) && Next(s1, Draw(0)) == s2
    ensures Enabled(s2, Put(b)) && Next(s2, Put(b)) == s3
    ensures Enabled(s3, Take(b)) && Next(s3, Take(b)) == s4
  {
    assert [50][..0] + [50][1..] == [];
    assert {b} - {b} == {} && {} + {b} == {b};
  }

  lemma LastSteps(b: Item, f: Item, s4: State, s5: State, s6: State, s7: State, s8: State)
    requires b == Item(50, 0) && f == Item(10, 1) && s4 == START.(nextSequence := 1, worker := Holding(b))
    requires s5 == s4.(pending := 1, admitted := [10]) && s6 == s4.(pending := 1, nextSequence := 2, putting := {f})
    requires s7 == s4.(pending := 1, nextSequence := 2, queued := {f})
    requires s8 == s7.(active := Some(50), worker := Running(b), started := [b])
    ensures Enabled(s4, Admit(10)) && Next(s4, Admit(10)) == s5
    ensures Enabled(s5, Draw(0)) && Next(s5, Draw(0)) == s6
    ensures Enabled(s6, Put(f)) && Next(s6, Put(f)) == s7
    ensures Enabled(s7, Count) && Next(s7, Count) == s8
  {
    assert [10][..0] + [10][1..] == [];
    assert {f} - {f} == {} && {} + {f} == {f};
  }

  // ---------------------------------------------------------- bounded overtaking

  /** The items that can still be taken before x. */
  function Ahead(s: State, x: Item): set<Item> {
    set i | i in s.putting + s.queued && i.Before(x)
  }

  function TakesIn(steps: seq<Step>): nat {
    if steps == [] then 0 else (if steps[|steps| - 1].Take? then 1 else 0) + TakesIn(steps[..|steps| - 1])
  }

  lemma StepKeepsAhead(s: State, step: Step, x: Item)
    requires StateOk(s) && Enabled(s, step)
    requires x in s.queued && x in Next(s, step).queued
    requires forall k :: 0 <= k < |s.admitted| ==> s.admitted[k] >= x.priority
    ensures Ahead(Next(s, step), x) <= Ahead(s, x)
    ensures step.Take? ==> Ahead(Next(s, step), x) < Ahead(s, x)
  {
    hide Outstanding;
    assert Alive(s, x);
    if step.Take? {
      assert step.item in Ahead(s, x) && step.item !in Ahead(Next(s, step), x);
    }
  }

  /** While x waits in the queue and nothing more urgent than x is submitted, the worker
      takes at most as many other items as were ahead of x: no later call overtakes it. */
  lemma {:induction false} BoundedOvertaking(states: seq<State>, steps: seq<Step>, x: Item)
    requires Schedule(states, steps) && StateOk(states[0])
    requires forall i :: 0 <= i < |states| ==> x in states[i].queued
    requires forall i, k :: 0 <= i < |states| && 0 <= k < |states[i].admitted| ==> states[i].admitted[k] >= x.priority
    ensures TakesIn(steps) + |Ahead(states[|steps|], x)| <= |Ahead(states[0], x)|
  {
    hide StateOk, Enabled, Next, Ahead;
    if steps != [] {
      var n := |steps| - 1;
      BoundedOvertaking(states[..n + 1], steps[..n], x);
      ScheduleKeepsState(states, steps, n);
      assert x in states[n].queued && x in states[n + 1].queued;
      StepKeepsAhead(states[n], steps[n], x);
      SmallerSet(Ahead(states[n + 1], x), Ahead(states[n], x));
    }
  }

  lemma SmallerSet<T>(a: set<T>, b: set<T>)
    requires a <= b
    ensures |a| <= |b| && (a < b ==> |a| < |b|)
  {
    assert b == a + (b - a);
    assert |b| == |a| + |b - a|;
  }

  // ------------------------------------------------------------------ the object

  /** The actor's shared fields; each method is one atomic step of some thread. */
  class RouterControlActor {
    var foregroundPending: int
    var activePriority: Option<int>
    var sequence: nat
    var queue: set<Item>
    var held: Worker
    ghost var admitted: seq<int>
    ghost var putting: set<Item>
    ghost var refused: set<Item>
    ghost var started: seq<Item>

    ghost function Now(): State
      reads this
      requires foregroundPending >= 0
    {
      State(foregroundPending, activePriority, sequence, admitted, putting, queue, refused, held, started)
    }

    ghost predicate Valid()
      reads this
    {
      foregroundPending >= 0 && StateOk(Now())
    }

    constructor ()
      ensures Valid() && Now() == START
    {
      foregroundPending, activePriority, sequence, queue, held := 0, None, 0, {}, Idle;
      admitted, putting, refused, started := [], {}, {}, [];
    }

    /** submit, first lock region: defer background work, count foreground work. */
    method Admit(priority: int) returns (ok: bool)
      requires Valid()
      modifies this
      ensures Valid() && ok == !Defers(old(Now()), priority)
      ensures Now() == if ok then Next(old(Now()), Step.Admit(priority)) else old(Now())
    {
      hide StateOk;
      if priority >= PRIORITY_BACKGROUND && (activePriority.Some? || foregroundPending > 0 || queue != {}) {
        return false;
      }
      NextKeepsState(Now(), Step.Admit(priority));
      if priority < PRIORITY_BACKGROUND {
        foregroundPending := foregroundPending + 1;
      }
      admitted := admitted + [priority];
      ok := true;
    }

    /** submit: build the item with the next sequence number. */
    method Draw(priority: int, ghost k: nat) returns (item: Item)
      requires Valid() && k < |admitted| && admitted[k] == priority
      modifies this
      ensures Valid() && Now() == Next(old(Now()), Step.Draw(k)) && item == Item(priority, old(sequence))
    {
      hide StateOk;
      NextKeepsState(Now(), Step.Draw(k));
      item := Item(priority, sequence);
      sequence := sequence + 1;
      putting, admitted := putting + {item}, admitted[..k] + admitted[k + 1..];
    }

    /** submit: put, or give up when the queue stays full. */
    method Put(item: Item) returns (ok: bool)
      requires Valid() && item in putting
      modifies this
      ensures Valid() && ok == (|old(queue)| < MAX_QUEUED)
      ensures Now() == Next(old(Now()), if ok then Step.Put(item) else Step.Full(item))
    {
      hide StateOk;
      ok := |queue| < MAX_QUEUED;
      NextKeepsState(Now(), if ok then Step.Put(item) else Step.Full(item));
      putting := putting - {item};
      if ok {
        queue := queue + {item};
      } else {
        refused := refused + {item};
      }
    }

    /** submit, second lock region: a refused foreground call is uncounted. */
    method Uncount(item: Item)
      requires Valid() && item in refused
      modifies this
      ensures Valid() && Now() == Next(old(Now()), Step.Uncount(item))
      ensures item.Foreground() ==> foregroundPending == old(foregroundPending) - 1
    {
      hide Named, Apart;
      NextKeepsState(Now(), Step.Uncount(item));
      ForegroundRemove(refused, item);
      if item.Foreground() {
        foregroundPending := if foregroundPending - 1 > 0 then foregroundPending - 1 else 0;
      }
      refused := refused - {item};
    }

    /** The worker takes the most urgent, oldest item. */
    method Take() returns (item: Item)
      requires Valid() && queue != {} && held.Idle?
      modifies this
      ensures Valid() && IsFirst(old(queue), item) && Now() == Next(old(Now()), Step.Take(item))
    {
      hide Outstanding;
      item :| item in queue;
      var rest := queue - {item};
      while rest != {}
        invariant item in queue && rest <= queue && item !in rest
        invariant forall other :: other in queue && other !in rest && other != item ==> item.Before(other)
        invariant Now() == old(Now())
        decreases |rest|
      {
        var other :| other in rest;
        assert Alive(Now(), other) && Alive(Now(), item);
        assert other.sequence != item.sequence;
        rest := rest - {other};
        if !item.Before(other) {
          assert other.Before(item);
          item := other;
        }
      }
      NextKeepsState(Now(), Step.Take(item));
      queue := queue - {item};
      held := Holding(item);
    }

    /** The worker's lock region before the call: it becomes active and is uncounted. */
    method CountHeld()
      requires Valid() && held.Holding?
      modifies this
      ensures Valid() && Now() == Next(old(Now()), Count)
      ensures old(held.item).Foreground() ==> foregroundPending == old(foregroundPending) - 1
    {
      hide Named, Apart;
      NextKeepsState(Now(), Count);
      var item := held.item;
      activePriority := Some(item.priority);
      if item.Foreground() {
        foregroundPending := if foregroundPending - 1 > 0 then foregroundPending - 1 else 0;
      }
      held := Running(item);
      started := started + [item];
    }

    /** ... and after it. */
    method FinishRunning()
      requires Valid() && held.Running?
      modifies this
      ensures Valid() && Now() == Next(old(Now()), Finish)
    {
      hide StateOk;
      NextKeepsState(Now(), Finish);
      activePriority := None;
      held := Idle;
    }
  }
}
