/** Numbered items sent in order, each some number of times in a row. */
module Schedules {

  function Repeat<T>(p: T, n: nat): (r: seq<T>)
    ensures |r| == n && forall i :: 0 <= i < n ==> r[i] == p
  {
    seq(n, _ => p)
  }

  /** Item `first + i` is repeated `counts[i]` times. */
  function Schedule<T>(item: nat -> T, first: nat, counts: seq<nat>): seq<T> {
    if counts == [] then []
    else
      var n := |counts| - 1;
      Schedule(item, first, counts[..n]) + Repeat(item(first + n), counts[n])
  }

  lemma OneMore<T>(item: nat -> T, first: nat, counts: seq<nat>)
    requires counts != []
    ensures var n := |counts| - 1;
            Schedule(item, first, counts[n := counts[n] + 1]) == Schedule(item, first, counts) + [item(first + n)]
  {
    var n := |counts| - 1;
    assert counts[n := counts[n] + 1][..n] == counts[..n];
    assert Repeat(item(first + n), counts[n] + 1) == Repeat(item(first + n), counts[n]) + [item(first + n)];
  }

  lemma NextItem<T>(item: nat -> T, first: nat, counts: seq<nat>)
    ensures Schedule(item, first, counts + [1]) == Schedule(item, first, counts) + [item(first + |counts|)]
  {
    assert (counts + [1])[..|counts|] == counts;
    assert Repeat(item(first + |counts|), 1) == [item(first + |counts|)];
  }

  lemma CountInRepeat<T>(p: T, n: nat, q: T)
    ensures multiset(Repeat(p, n))[q] == if p == q then n else 0
  {
    if n > 0 {
      assert Repeat(p, n) == Repeat(p, n - 1) + [p];
      CountInRepeat(p, n - 1, q);
    } else {
      assert Repeat(p, 0) == [];
    }
  }

  predicate Distinct<T(==)>(item: nat -> T, first: nat, n: nat) {
    forall i, j :: first <= i < first + n && first <= j < first + n && item(i) == item(j) ==> i == j
  }

  lemma {:induction false} NotInSchedule<T>(item: nat -> T, first: nat, counts: seq<nat>, q: T)
    requires forall k :: first <= k < first + |counts| ==> item(k) != q
    ensures q !in Schedule(item, first, counts)
  {
    if counts != [] {
      NotInSchedule(item, first, counts[..|counts| - 1], q);
    }
  }

  /** When the items are different, `counts` says how often each occurs in the schedule. */
  lemma {:induction false} CountInSchedule<T>(item: nat -> T, first: nat, counts: seq<nat>, i: nat)
    requires i < |counts| && Distinct(item, first, |counts|)
    ensures multiset(Schedule(item, first, counts))[item(first + i)] == counts[i]
  {
    var n, q := |counts| - 1, item(first + i);
    var front, back := Schedule(item, first, counts[..n]), Repeat(item(first + n), counts[n]);
    assert multiset(front + back) == multiset(front) + multiset(back);
    CountInRepeat(item(first + n), counts[n], q);
    if i == n {
      NotInSchedule(item, first, counts[..n], q);
    } else {
      CountInSchedule(item, first, counts[..n], i);
    }
  }
}
