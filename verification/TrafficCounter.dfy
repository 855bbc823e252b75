/** Daily traffic totals out of a router counter that may restart (device_history_patch.py _advance_counter). */
module TrafficCounter {
  datatype Counter = Counter(last: nat, total: nat)

  function Advance(c: Counter, current: nat): Counter {
    if c.last == 0 then Counter(current, if c.total >= current then c.total else current)
    else if current >= c.last then Counter(current, c.total + current - c.last)
    else Counter(current, c.total + current)
  }

  /** A day's entry after its samples, oldest first. */
  function AdvanceAll(samples: seq<nat>): Counter {
    if samples == [] then Counter(0, 0) else Advance(AdvanceAll(samples[..|samples| - 1]), samples[|samples| - 1])
  }

  /** The sum of the final values of the maximal nondecreasing runs. */
  function RunSum(samples: seq<nat>): nat {
    if samples == [] then 0
    else if |samples| == 1 then samples[0]
    else (if samples[1] < samples[0] then samples[0] else 0) + RunSum(samples[1..])
  }

  lemma {:induction false} RunSumSnoc(samples: seq<nat>, c: nat)
    requires samples != []
    ensures var last := samples[|samples| - 1];
            RunSum(samples + [c]) == RunSum(samples) + if c >= last then c - last else c
    ensures RunSum(samples) >= samples[|samples| - 1]
  {
    if |samples| == 1 {
      assert (samples + [c])[1..] == [c];
    } else {
      RunSumSnoc(samples[1..], c);
      assert (samples + [c])[1..] == samples[1..] + [c];
    }
  }

  /** A zero between two positive samples: the counter was read as lost, not as restarted. */
  ghost predicate HasGap(samples: seq<nat>) {
    exists i, j, k :: 0 <= i < j < k < |samples| && samples[i] > 0 && samples[j] == 0 && samples[k] > 0
  }

  ghost predicate AnyPositive(samples: seq<nat>) {
    exists i :: 0 <= i < |samples| && samples[i] > 0
  }

  ghost predicate DropsToZero(samples: seq<nat>) {
    exists i, j :: 0 <= i < j < |samples| && samples[i] > 0 && samples[j] == 0
  }

  lemma PositiveSnoc(samples: seq<nat>, c: nat)
    ensures AnyPositive(samples + [c]) <==> AnyPositive(samples) || c > 0
  {
    var all := samples + [c];
    if AnyPositive(samples) {
      var i :| 0 <= i < |samples| && samples[i] > 0;
      assert all[i] > 0;
    }
    assert c > 0 ==> all[|samples|] > 0;
  }

  lemma DropSnoc(samples: seq<nat>, c: nat)
    ensures DropsToZero(samples + [c]) <==> DropsToZero(samples) || (c == 0 && AnyPositive(samples))
  {
    var all := samples + [c];
    if DropsToZero(samples) {
      var i, j :| 0 <= i < j < |samples| && samples[i] > 0 && samples[j] == 0;
      assert all[i] > 0 && all[j] == 0;
    }
    if c == 0 && AnyPositive(samples) {
      var i :| 0 <= i < |samples| && samples[i] > 0;
      assert all[i] > 0 && all[|samples|] == 0;
    }
    if DropsToZero(all) {
      var i, j :| 0 <= i < j < |all| && all[i] > 0 && all[j] == 0;
      assert samples[i] > 0 && (j < |samples| ==> samples[j] == 0);
    }
  }

  lemma GapGrows(samples: seq<nat>, c: nat)
    requires HasGap(samples)
    ensures HasGap(samples + [c])
  {
    var i, j, k :| 0 <= i < j < k < |samples| && samples[i] > 0 && samples[j] == 0 && samples[k] > 0;
    var all := samples + [c];
    assert all[i] > 0 && all[j] == 0 && all[k] > 0;
  }

  lemma GapCloses(samples: seq<nat>, c: nat)
    requires DropsToZero(samples) && c > 0
    ensures HasGap(samples + [c])
  {
    var i, j :| 0 <= i < j < |samples| && samples[i] > 0 && samples[j] == 0;
    var all := samples + [c];
    assert all[i] > 0 && all[j] == 0 && all[|samples|] > 0;
  }

  lemma GapSplits(samples: seq<nat>, c: nat)
    requires HasGap(samples + [c])
    ensures HasGap(samples) || (c > 0 && DropsToZero(samples))
  {
    var all := samples + [c];
    var i, j, k :| 0 <= i < j < k < |all| && all[i] > 0 && all[j] == 0 && all[k] > 0;
    assert samples[i] > 0 && samples[j] == 0;
    assert k < |samples| ==> samples[k] > 0;
  }

  /** Adding a sample closes a gap exactly when it is positive and the samples before it
      rose and fell back to zero. */
  lemma GapSnoc(samples: seq<nat>, c: nat)
    ensures HasGap(samples + [c]) <==> HasGap(samples) || (c > 0 && DropsToZero(samples))
  {
    hide HasGap, DropsToZero;
    if HasGap(samples) {
      GapGrows(samples, c);
    } else if c > 0 && DropsToZero(samples) {
      GapCloses(samples, c);
    } else if HasGap(samples + [c]) {
      GapSplits(samples, c);
    }
  }

  /** The total is the run sum if and only if no zero separates positive samples; it is
      never more, and after such a gap it stays short by at least as much. */
  lemma {:induction false} TotalIsRunSumIff(samples: seq<nat>)
    ensures var c := AdvanceAll(samples);
            && c.total <= RunSum(samples)
            && (c.total == RunSum(samples) <==> !HasGap(samples))
            && (samples != [] ==> c.last == samples[|samples| - 1])
            && (c.total > 0 <==> AnyPositive(samples)) && c.total >= c.last
            && (DropsToZero(samples) ==> AnyPositive(samples) && (c.last == 0 || HasGap(samples)))
            && (c.last == 0 && AnyPositive(samples) ==> DropsToZero(samples))
  {
    hide HasGap, DropsToZero, AnyPositive, RunSum;
    if samples == [] {
      NothingYet();
    } else {
      var init, c := samples[..|samples| - 1], samples[|samples| - 1];
      assert samples == init + [c];
      TotalIsRunSumIff(init);
      GapSnoc(init, c);
      DropSnoc(init, c);
      PositiveSnoc(init, c);
      if init == [] {
        NothingYet();
        assert samples == [c];
        RunSumOne(c);
      } else {
        RunSumSnoc(init, c);
      }
    }
  }

  lemma NothingYet()
    ensures !HasGap([]) && !DropsToZero([]) && !AnyPositive([]) && RunSum([]) == 0
  {
  }

  lemma RunSumOne(c: nat)
    ensures RunSum([c]) == c
  {
  }

  /** With no restart at all the total is the last sample. */
  lemma {:induction false} NoRestart(samples: seq<nat>)
    requires samples != [] && forall i :: 0 < i < |samples| ==> samples[i - 1] <= samples[i]
    ensures AdvanceAll(samples).total == samples[|samples| - 1]
  {
    if |samples| == 1 {
      assert samples[..0] == [];
    } else {
      var init := samples[..|samples| - 1];
      NoRestart(init);
      TotalIsRunSumIff(init);
      assert samples[|samples| - 2] <= samples[|samples| - 1];
    }
  }

  /** Whatever the samples, the total never shrinks and covers the counter just read. */
  lemma {:induction false} TotalGrows(samples: seq<nat>, i: nat)
    requires i <= |samples|
    ensures AdvanceAll(samples[..i]).total <= AdvanceAll(samples).total
    ensures forall k :: 0 <= k < |samples| ==> samples[k] <= AdvanceAll(samples).total
  {
    if samples == [] {
      assert samples[..i] == [];
    } else {
      var init := samples[..|samples| - 1];
      TotalGrows(init, if i < |samples| then i else |init|);
      if i < |samples| {
        assert init[..i] == samples[..i];
      } else {
        assert samples[..i] == samples;
      }
      forall k | 0 <= k < |samples| ensures samples[k] <= AdvanceAll(samples).total {
        assert k < |init| ==> init[k] == samples[k];
      }
    }
  }

  /** One field of a day's entry, advanced in place. */
  class TrafficField {
    var last: nat
    var total: nat
    ghost var samples: seq<nat>

    ghost predicate Valid()
      reads this
    {
      AdvanceAll(samples) == Counter(last, total)
    }

    constructor ()
      ensures Valid() && samples == []
    {
      last, total, samples := 0, 0, [];
    }

    method Advance(current: nat)
      requires Valid()
      modifies this
      ensures Valid() && samples == old(samples) + [current]
      ensures last == current && total >= old(total) && total >= current
      ensures !HasGap(samples) ==> total == RunSum(samples)
    {
      if last <= 0 {
        total := if total >= current then total else current;
      } else if current >= last {
        total := total + current - last;
      } else {
        total := total + current;
      }
      last := current;
      samples := samples + [current];
      assert samples[..|samples| - 1] == old(samples);
      TotalIsRunSumIff(samples);
    }
  }
}
