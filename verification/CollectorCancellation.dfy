/** What a collection answers when the caller cancels it: the plan without the queries that were passed over. */
module CollectorCancellation {
  import opened Wrappers
  import opened Collector
  import opened CollectorTheorems
  import opened CollectorConfluence

  // ------------------------------------------------------------- exactly what is missing

  /** The indexes below n that were not passed over, in plan order. */
  function Remaining(skipped: seq<nat>, n: nat): seq<nat> {
    if n == 0 then [] else Remaining(skipped, n - 1) + (if n - 1 in skipped then [] else [n - 1])
  }

  function Indexes(items: seq<Item>): (r: seq<nat>)
    ensures |r| == |items| && forall k :: 0 <= k < |r| ==> r[k] == items[k].index
  {
    seq(|items|, k requires 0 <= k < |items| => items[k].index)
  }

  lemma {:induction false} CountedIndex(xs: seq<nat>, i: nat)
    ensures SumIndexes(xs, One(i)) >= 0 && (SumIndexes(xs, One(i)) > 0 <==> i in xs)
  {
    if xs != [] {
      CountedIndex(xs[1..], i);
    }
  }

  /** One of the items is of this index. */
  ghost predicate Mentions(items: seq<Item>, i: nat) {
    exists k :: 0 <= k < |items| && items[k].index == i
  }

  lemma {:induction false} CountedItem(items: seq<Item>, i: nat)
    ensures SumItems(items, One(i)) >= 0
    ensures SumItems(items, One(i)) > 0 <==> Mentions(items, i)
  {
    if items != [] {
      CountedItem(items[1..], i);
      if k :| 0 <= k < |items[1..]| && items[1..][k].index == i {
        assert items[k + 1].index == i;
      }
      if k :| 0 <= k < |items| && items[k].index == i && k > 0 {
        assert items[1..][k - 1].index == i;
      }
    }
  }

  /** No two items are of one index. */
  ghost predicate Once(items: seq<Item>) {
    forall i, j :: 0 <= i < j < |items| ==> items[i].index != items[j].index
  }

  /** A book without an issue holds exactly the items booked into it. */
  lemma {:induction false} BookHolds(budget: Budget, items: seq<Item>)
    requires AbsorbAll(budget, items).issue.None? && Once(items)
    ensures var done := AbsorbAll(budget, items).done;
            (forall i :: i in done <==> Mentions(items, i))
            && forall k :: 0 <= k < |items| ==> items[k].index in done && done[items[k].index] == items[k].outcome
  {
    if items != [] {
      var front, last := items[..|items| - 1], items[|items| - 1];
      assert items == front + [last];
      BookHolds(budget, front);
      assert last.index in AbsorbAll(budget, items).done;
      forall i | i in AbsorbAll(budget, front).done
        ensures Mentions(items, i)
      {
        var k :| 0 <= k < |front| && front[k].index == i;
        assert items[k].index == i;
      }
    }
  }

  lemma {:induction false} TwiceIsTwo(items: seq<Item>, i: nat, j: nat)
    requires i < j < |items| && items[i].index == items[j].index
    ensures SumItems(items, One(items[i].index)) >= 2
  {
    if i == 0 {
      CountedItem(items[1..], items[0].index);
      assert items[1..][j - 1].index == items[0].index;
    } else {
      TwiceIsTwo(items[1..], i - 1, j - 1);
    }
  }

  /** At the end each index of the plan was drained once or passed over, and nothing else was. */
  lemma EndPartitions(work: Work, es: seq<Event>)
    requires Schedule(work, es) && work.outcomes != [] && Final(After(work, es))
    ensures Once(After(work, es).drained)
    ensures forall i: nat :: Mentions(After(work, es).drained, i) <==> i < |work.outcomes| && i !in After(work, es).skipped
    ensures forall i :: i in After(work, es).skipped ==> i < |work.outcomes|
  {
    hide Schedule, After, Final, SumItems, SumIndexes;
    var p, n := After(work, es), |work.outcomes|;
    forall i: nat
      ensures SumItems(p.drained, One(i)) + SumIndexes(p.skipped, One(i)) == if i < n then 1 else 0
    {
      EndHasAll(work, es, One(i));
      OneInRange(0, n, i);
    }
    forall i: nat
      ensures Mentions(p.drained, i) <==> i < n && i !in p.skipped
      ensures i in p.skipped ==> i < n
    {
      CountedItem(p.drained, i);
      CountedIndex(p.skipped, i);
    }
    forall i, j | 0 <= i < j < |p.drained|
      ensures p.drained[i].index != p.drained[j].index
    {
      CountedIndex(p.skipped, p.drained[i].index);
      if p.drained[i].index == p.drained[j].index {
        TwiceIsTwo(p.drained, i, j);
      }
    }
  }

  lemma {:induction false} OrderedKeys(done: map<nat, Outcome>, skipped: seq<nat>, n: nat)
    requires forall i: nat :: i < n ==> (i in done <==> i !in skipped)
    ensures Indexes(InPlanOrder(done, n)) == Remaining(skipped, n)
  {
    if n > 0 {
      OrderedKeys(done, skipped, n - 1);
    }
  }

  /**
    Cancelled or not, a collection that ends without an issue answers exactly the plan without the queries that were
    passed over, in plan order.
   */
  lemma AnswersWhatWasNotSkipped(work: Work, es: seq<Event>)
    requires Schedule(work, es) && work.outcomes != [] && Final(After(work, es))
    requires BookOf(work, After(work, es)).issue.None?
    ensures var answer := Answer(BookOf(work, After(work, es)), |work.outcomes|);
            answer.Some? && Indexes(answer.value) == Remaining(After(work, es).skipped, |work.outcomes|)
  {
    hide Schedule, After, Final, AbsorbAll, InPlanOrder, Remaining;
    var p := After(work, es);
    EndPartitions(work, es);
    BookHolds(work.budget, p.drained);
    OrderedKeys(BookOf(work, p).done, p.skipped, |work.outcomes|);
  }

  lemma {:induction false} FewerRemain(skipped: seq<nat>, n: nat)
    ensures |Remaining(skipped, n)| <= n
    ensures |Remaining(skipped, n)| == n <==> forall i :: 0 <= i < n ==> i !in skipped
  {
    if n > 0 {
      FewerRemain(skipped, n - 1);
    }
  }

  lemma {:induction false} OrderedHolds(work: Work, done: map<nat, Outcome>, n: nat, i: nat)
    requires i < n <= |work.outcomes| && InPlanOrder(done, n) == AllResults(work)[..n]
    requires forall k :: 0 <= k < n ==> k in done
    ensures done[i] == work.outcomes[i]
  {
    var last := AllResults(work)[n - 1];
    var ordered := InPlanOrder(done, n);
    assert ordered == InPlanOrder(done, n - 1) + [Item(n - 1, done[n - 1])];
    assert ordered[n - 1] == last && ordered[..n - 1] == AllResults(work)[..n - 1];
    assert |InPlanOrder(done, n - 1)| == n - 1;
    assert InPlanOrder(done, n - 1) == AllResults(work)[..n - 1];
    if i < n - 1 {
      OrderedHolds(work, done, n - 1, i);
    }
  }

  /** The drained items of a plan none of which was passed over: one for each index. */
  lemma NothingSkipped(work: Work, es: seq<Event>)
    requires Schedule(work, es) && work.outcomes != [] && Final(After(work, es)) && After(work, es).skipped == []
    requires BookOf(work, After(work, es)).issue.None?
    ensures var p, done := After(work, es), BookOf(work, After(work, es)).done;
            (forall k :: 0 <= k < |p.drained| ==>
               p.drained[k].index < |work.outcomes| && p.drained[k].index in done
               && done[p.drained[k].index] == p.drained[k].outcome)
            && (forall i: nat :: i < |work.outcomes| ==> i in done)
  {
    hide Schedule, After, Final, AbsorbAll;
    var p := After(work, es);
    EndPartitions(work, es);
    BookHolds(work.budget, p.drained);
    forall k | 0 <= k < |p.drained|
      ensures p.drained[k].index < |work.outcomes|
    {
      assert Mentions(p.drained, p.drained[k].index);
    }
  }

  lemma GenuinelyBooked(work: Work, es: seq<Event>)
    requires Schedule(work, es) && work.outcomes != [] && Final(After(work, es)) && After(work, es).skipped == []
    requires BookOf(work, After(work, es)).issue.None?
    requires forall k :: 0 <= k < |After(work, es).drained| ==> Genuine(work, After(work, es).drained[k])
    ensures InPlanOrder(BookOf(work, After(work, es)).done, |work.outcomes|) == AllResults(work)
  {
    hide Schedule, After, Final, AbsorbAll, InPlanOrder, AllResults;
    var p, n := After(work, es), |work.outcomes|;
    var done := BookOf(work, p).done;
    EndPartitions(work, es);
    NothingSkipped(work, es);
    forall i: nat | i < n
      ensures i in done && done[i] == work.outcomes[i]
    {
      assert Mentions(p.drained, i);
      var k :| 0 <= k < |p.drained| && p.drained[k].index == i;
    }
    InOrderIsAll(work, done, n);
    AllResultsWhole(work);
  }

  /** It answers all results exactly when no query was passed over and none was cut short by the cancellation. */
  lemma AllResultsExactlyWhen(work: Work, es: seq<Event>)
    requires Schedule(work, es) && work.outcomes != [] && Final(After(work, es))
    requires BookOf(work, After(work, es)).issue.None?
    ensures Answer(BookOf(work, After(work, es)), |work.outcomes|) == Some(AllResults(work)) <==>
            After(work, es).skipped == []
            && forall k :: 0 <= k < |After(work, es).drained| ==> Genuine(work, After(work, es).drained[k])
  {
    hide Schedule, After, Final, AbsorbAll, InPlanOrder, Remaining, AllResults;
    var p, n := After(work, es), |work.outcomes|;
    var done := BookOf(work, p).done;
    var answer := InPlanOrder(done, n);
    if p.skipped == [] && forall k :: 0 <= k < |p.drained| ==> Genuine(work, p.drained[k]) {
      GenuinelyBooked(work, es);
    }
    if answer == AllResults(work) {
      AnswersWhatWasNotSkipped(work, es);
      FewerRemain(p.skipped, n);
      EndPartitions(work, es);
      AllResultsWhole(work);
      assert |Indexes(answer)| == n;
      NoneIsEmpty(p.skipped);
      NothingSkipped(work, es);
      forall k | 0 <= k < |p.drained|
        ensures Genuine(work, p.drained[k])
      {
        OrderedHolds(work, done, n, p.drained[k].index);
      }
    }
  }

  lemma NoneIsEmpty(xs: seq<nat>)
    ensures xs == [] <==> forall x :: x !in xs
  {
    if xs != [] {
      assert xs[0] in xs;
    }
  }

  lemma AllResultsWhole(work: Work)
    ensures |AllResults(work)| == |work.outcomes| && AllResults(work)[..|work.outcomes|] == AllResults(work)
  {
  }

  // ------------------------------------------------------------------- everything missing

  /** A schedule that has led to this state. */
  ghost predicate Reaches(work: Work, es: seq<Event>, p: Pool) {
    Schedule(work, es) && After(work, es) == p
  }

  lemma Extends(work: Work, es: seq<Event>, p: Pool, e: Event)
    requires Reaches(work, es, p) && Enabled(work, p, e)
    ensures Reaches(work, es + [e], Step(work, p, e))
  {
    assert (es + [e])[..|es|] == es;
  }

  function UpTo(lo: nat, n: nat): (r: seq<nat>)
    requires lo <= n
    ensures |r| == n - lo && forall k :: 0 <= k < |r| ==> r[k] == lo + k
  {
    seq(n - lo, k => lo + k)
  }

  function Workers(work: Work, exited: nat): (ws: seq<Worker>) {
    seq(EffectiveConcurrency(work.budget, |work.outcomes|) as nat, w => if w < exited then Exited else Idle)
  }

  /** Cancelled at once: fed indexes have been put into the channel, taken of them passed over. */
  function CancelledPool(work: Work, fed: nat, closed: bool, taken: nat, exited: nat): Pool
    requires taken <= fed && work.outcomes != []
  {
    Pool(
      fed, UpTo(taken, fed), closed, Workers(work, exited), [], false, true, false, false, [], UpTo(0, taken),
      fed - taken, 0)
  }

  lemma {:induction false} FedWhileCancelled(work: Work, fed: nat) returns (es: seq<Event>)
    requires work.outcomes != [] && fed <= |work.outcomes|
    ensures Reaches(work, es, CancelledPool(work, fed, false, 0, 0))
  {
    hide Reaches;
    if fed == 0 {
      StartReaches(work);
      Extends(work, [], Start(work), CancelOuter);
      es := [] + [CancelOuter];
      assert Workers(work, 0) == Start(work).workers && UpTo(0, 0) == [];
    } else {
      var before := FedWhileCancelled(work, fed - 1);
      var p := CancelledPool(work, fed - 1, false, 0, 0);
      Extends(work, before, p, Feed);
      assert UpTo(0, fed) == UpTo(0, fed - 1) + [fed - 1];
      es := before + [Feed];
    }
  }

  lemma StartReaches(work: Work)
    ensures Reaches(work, [], Start(work))
  {
  }

  lemma {:induction false} PassedOver(work: Work, taken: nat) returns (es: seq<Event>)
    requires work.outcomes != [] && taken <= |work.outcomes|
    ensures Reaches(work, es, CancelledPool(work, |work.outcomes|, true, taken, 0))
  {
    hide Reaches;
    var n := |work.outcomes|;
    if taken == 0 {
      var before := FedWhileCancelled(work, n);
      Extends(work, before, CancelledPool(work, n, false, 0, 0), CloseJobs);
      es := before + [CloseJobs];
    } else {
      var before := PassedOver(work, taken - 1);
      var p := CancelledPool(work, n, true, taken - 1, 0);
      Extends(work, before, p, Take(0));
      var q := Step(work, p, Take(0));
      Extends(work, before + [Take(0)], q, Check(0));
      assert p.jobs[1..] == UpTo(taken, n);
      assert UpTo(0, taken) == UpTo(0, taken - 1) + [taken - 1];
      assert p.workers[0 := Took(taken - 1)][0 := Idle] == p.workers;
      es := before + [Take(0)] + [Check(0)];
    }
  }

  lemma {:induction false} AllExited(work: Work, exited: nat) returns (es: seq<Event>)
    requires work.outcomes != [] && exited <= EffectiveConcurrency(work.budget, |work.outcomes|)
    ensures Reaches(work, es, CancelledPool(work, |work.outcomes|, true, |work.outcomes|, exited))
  {
    hide Reaches;
    var n := |work.outcomes|;
    if exited == 0 {
      es := PassedOver(work, n);
    } else {
      var before := AllExited(work, exited - 1);
      var p := CancelledPool(work, n, true, n, exited - 1);
      Extends(work, before, p, Exit(exited - 1));
      assert p.workers[exited - 1 := Exited] == Workers(work, exited);
      es := before + [Exit(exited - 1)];
    }
  }

  lemma {:induction false} NothingInOrder(n: nat)
    ensures InPlanOrder(map[], n) == []
  {
    if n > 0 {
      NothingInOrder(n - 1);
    }
  }

  /** Whatever the plan, its outcomes and its budget, a cancelled collection can succeed with no result at all. */
  lemma CancellationCanDropEverything(work: Work) returns (es: seq<Event>)
    requires work.outcomes != []
    ensures Schedule(work, es) && Final(After(work, es))
    ensures Answer(BookOf(work, After(work, es)), |work.outcomes|) == Some([])
  {
    hide Schedule, After;
    var n := |work.outcomes|;
    var before := AllExited(work, EffectiveConcurrency(work.budget, n) as nat);
    var p := CancelledPool(work, n, true, n, EffectiveConcurrency(work.budget, n) as nat);
    Extends(work, before, p, CloseResults);
    es := before + [CloseResults];
    NothingInOrder(n);
    assert BookOf(work, After(work, es)) == EMPTY_BOOK;
  }
}
