/** Handing out the first due commands of a queue, marking them where they stand: the loop
    both command routes run. */
module PagedFetch {
  /** The queue with its first `limit` due commands marked, and those commands as they were. */
  function Fetch<C>(q: seq<C>, due: C -> bool, mark: C -> C, limit: nat): (seq<C>, seq<C>) {
    if q == [] || limit == 0 then (q, [])
    else
      var (rest, selected) := Fetch(q[1..], due, mark, if due(q[0]) then limit - 1 else limit);
      if due(q[0]) then ([mark(q[0])] + rest, [q[0]] + selected) else ([q[0]] + rest, selected)
  }

  /** What a fetch that has reached index i still has to add. */
  ghost predicate SoFar<C>(q: seq<C>, due: C -> bool, mark: C -> C, limit: nat, i: nat, sent: seq<C>, selected: seq<C>)
    requires i <= |q| && |selected| <= limit
  {
    var rest := Fetch(q[i..], due, mark, limit - |selected|);
    Fetch(q, due, mark, limit) == (sent + rest.0, selected + rest.1)
  }

  lemma Starts<C>(q: seq<C>, due: C -> bool, mark: C -> C, limit: nat)
    ensures SoFar(q, due, mark, limit, 0, [], [])
  {
    assert q[0..] == q;
    var r := Fetch(q, due, mark, limit);
    assert [] + r.0 == r.0 && [] + r.1 == r.1;
  }

  /** One command on: marked and selected, or passed over. */
  lemma Advances<C>(q: seq<C>, due: C -> bool, mark: C -> C, limit: nat, i: nat, sent: seq<C>, selected: seq<C>)
    requires i < |q| && |selected| < limit && SoFar(q, due, mark, limit, i, sent, selected)
    ensures due(q[i]) ==> SoFar(q, due, mark, limit, i + 1, sent + [mark(q[i])], selected + [q[i]])
    ensures !due(q[i]) ==> SoFar(q, due, mark, limit, i + 1, sent + [q[i]], selected)
  {
    assert q[i..][1..] == q[i + 1..];
    if due(q[i]) {
      var rest := Fetch(q[i + 1..], due, mark, limit - |selected| - 1);
      assert sent + ([mark(q[i])] + rest.0) == sent + [mark(q[i])] + rest.0;
      assert selected + ([q[i]] + rest.1) == selected + [q[i]] + rest.1;
    } else {
      var rest := Fetch(q[i + 1..], due, mark, limit - |selected|);
      assert sent + ([q[i]] + rest.0) == sent + [q[i]] + rest.0;
    }
  }

  lemma Ends<C>(q: seq<C>, due: C -> bool, mark: C -> C, limit: nat, i: nat, done: seq<C>, selected: seq<C>)
    requires i <= |q| == |done| && |selected| <= limit && (i == |q| || |selected| == limit) && done[i..] == q[i..]
    requires SoFar(q, due, mark, limit, i, done[..i], selected)
    ensures (done, selected) == Fetch(q, due, mark, limit)
  {
    assert Fetch(q[i..], due, mark, limit - |selected|) == (q[i..], []);
    assert done == done[..i] + done[i..] && selected + [] == selected;
  }
}
