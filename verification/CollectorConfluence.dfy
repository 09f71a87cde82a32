/** The answer of the collector depends on the queries alone, not on the schedule, unless the caller cancels. */
module CollectorConfluence {
  import opened Wrappers
  import opened Collector
  import opened CollectorTheorems

  function Dur(work: Work): nat -> int {
    (i: nat) => if i < |work.outcomes| then work.outcomes[i].duration else 0
  }

  function Size(work: Work): nat -> int {
    (i: nat) => if i < |work.outcomes| then work.outcomes[i].bytes else 0
  }

  /** No query fails, and all of them together stay within the cumulative budgets. */
  predicate Succeeds(work: Work) {
    (forall i :: 0 <= i < |work.outcomes| ==> work.outcomes[i].issue.None?)
    && (work.budget.maxDuration <= 0 || SumRange(0, |work.outcomes|, Dur(work)) <= work.budget.maxDuration)
    && (work.budget.maxBytes <= 0 || SumRange(0, |work.outcomes|, Size(work)) <= work.budget.maxBytes)
  }

  /** All results in plan order. */
  function AllResults(work: Work): (r: seq<Item>)
    ensures |r| == |work.outcomes|
  {
    seq(|work.outcomes|, i requires 0 <= i < |work.outcomes| => Item(i, work.outcomes[i]))
  }

  predicate Genuine(work: Work, item: Item) {
    item.index < |work.outcomes| && item.outcome == work.outcomes[item.index]
  }

  predicate GenuineWorker(work: Work, worker: Worker) {
    match worker
    case Idle => true
    case Exited => true
    case Took(i) => i < |work.outcomes|
    case Ready(i) => i < |work.outcomes|
    case Querying(i) => i < |work.outcomes|
    case Sending(i, outcome) => Genuine(work, Item(i, outcome))
  }

  /** Until the first issue nothing was skipped, and every result on its way is what its query gives. */
  ghost predicate Genuinely(work: Work, p: Pool) {
    p.skipped == []
    && (forall k :: 0 <= k < |p.jobs| ==> p.jobs[k] < |work.outcomes|)
    && (forall w :: 0 <= w < |p.workers| ==> GenuineWorker(work, p.workers[w]))
    && (forall k :: 0 <= k < |p.results| ==> Genuine(work, p.results[k]))
    && (forall k :: 0 <= k < |p.drained| ==> Genuine(work, p.drained[k]))
  }

  // ------------------------------------------------------------------- the books

  /** A book that agrees with the genuine results booked into it. */
  ghost predicate Clean(work: Work, items: seq<Item>, book: Book) {
    book.duration == SumItems(items, Dur(work)) && book.bytes == SumItems(items, Size(work))
    && !Exceeds(work.budget.maxDuration, book.duration) && !Exceeds(work.budget.maxBytes, book.bytes)
    && (forall k :: 0 <= k < |items| ==> items[k].outcome.issue.None? && items[k].index in book.done)
    && forall i :: i in book.done ==> i < |work.outcomes| && book.done[i] == work.outcomes[i]
  }

  lemma CleanStep(work: Work, items: seq<Item>, book: Book, item: Item)
    requires Clean(work, items, book) && Genuine(work, item) && book.issue.None?
    requires Absorb(work.budget, book, item).issue.None?
    ensures Clean(work, items + [item], Absorb(work.budget, book, item))
  {
    hide SumItems;
    SumItemsAppend(items, item, Dur(work));
    SumItemsAppend(items, item, Size(work));
  }

  /** What a book without an issue says about genuine results. */
  lemma {:induction false} CleanBook(work: Work, items: seq<Item>)
    requires forall k :: 0 <= k < |items| ==> Genuine(work, items[k])
    requires AbsorbAll(work.budget, items).issue.None?
    ensures Clean(work, items, AbsorbAll(work.budget, items))
  {
    if items != [] {
      hide Clean;
      var front, last := items[..|items| - 1], items[|items| - 1];
      CleanBook(work, front);
      assert items == front + [last];
      CleanStep(work, front, AbsorbAll(work.budget, front), last);
    }
  }

  lemma {:induction false} IssueStays(budget: Budget, items: seq<Item>, item: Item)
    ensures AbsorbAll(budget, items + [item]) == Absorb(budget, AbsorbAll(budget, items), item)
  {
    assert (items + [item])[..|items|] == items;
  }

  function TotalDuration(items: seq<Item>): int {
    if items == [] then 0 else TotalDuration(items[..|items| - 1]) + items[|items| - 1].outcome.duration
  }

  function TotalBytes(items: seq<Item>): int {
    if items == [] then 0 else TotalBytes(items[..|items| - 1]) + items[|items| - 1].outcome.bytes
  }

  /** What stops the drain loop at result k, if nothing before did: its query, the time so far, or the bytes so far. */
  function StopsAt(budget: Budget, items: seq<Item>, k: nat): Option<Issue>
    requires k < |items|
  {
    if items[k].outcome.issue.Some? then items[k].outcome.issue
    else if 0 < budget.maxDuration < TotalDuration(items[..k + 1]) then Some(DurationExceeded)
    else if 0 < budget.maxBytes < TotalBytes(items[..k + 1]) then Some(BytesExceeded)
    else None
  }

  /** The issue of a collection is that of the first result that stops the loop, in the order of arrival. */
  lemma {:induction false} FirstIssueExactlyWhen(budget: Budget, items: seq<Item>)
    ensures AbsorbAll(budget, items).issue.None? <==> forall k :: 0 <= k < |items| ==> StopsAt(budget, items, k).None?
    ensures forall k :: 0 <= k < |items| && StopsAt(budget, items, k).Some?
                        && (forall j :: 0 <= j < k ==> StopsAt(budget, items, j).None?) ==>
              AbsorbAll(budget, items).issue == StopsAt(budget, items, k)
    ensures AbsorbAll(budget, items).issue.None? ==>
              AbsorbAll(budget, items).duration == TotalDuration(items) && AbsorbAll(budget, items).bytes == TotalBytes(items)
  {
    if items != [] {
      var front, n := items[..|items| - 1], |items| - 1;
      FirstIssueExactlyWhen(budget, front);
      forall k | 0 <= k < n
        ensures StopsAt(budget, items, k) == StopsAt(budget, front, k)
      {
        assert items[..k + 1] == front[..k + 1];
      }
      assert items[..n + 1] == items;
      LastStops(budget, front, items[n]);
      assert items == front + [items[n]];
    }
  }

  lemma LastStops(budget: Budget, front: seq<Item>, item: Item)
    requires AbsorbAll(budget, front).issue.None?  ==>
               AbsorbAll(budget, front).duration == TotalDuration(front) && AbsorbAll(budget, front).bytes == TotalBytes(front)
    ensures var items := front + [item];
            AbsorbAll(budget, items).issue
            == if AbsorbAll(budget, front).issue.Some? then AbsorbAll(budget, front).issue
               else StopsAt(budget, items, |front|)
    ensures var items := front + [item];
            AbsorbAll(budget, items).issue.None? ==>
              AbsorbAll(budget, items).duration == TotalDuration(items) && AbsorbAll(budget, items).bytes == TotalBytes(items)
  {
    var items := front + [item];
    assert items[..|front|] == front && items[..|front| + 1] == items;
  }

  lemma BookedSumsAreBounded(work: Work, es: seq<Event>, f: nat -> int)
    requires Schedule(work, es) && forall i :: f(i) >= 0
    ensures SumItems(After(work, es).drained, f) + SumItems(After(work, es).results, f)
         <= SumRange(0, |work.outcomes|, f)
  {
    hide Schedule, After;
    var p := After(work, es);
    Conserved(work, es, f);
    if p.fed <= |work.outcomes| {
      SumRangeNonNegative(p.fed, |work.outcomes|, f);
    }
    SumIndexesNonNegative(p.jobs, f);
    SumHeldNonNegative(p.workers, f);
    SumIndexesNonNegative(p.skipped, f);
  }

  // ------------------------------------------------------------------ along a schedule

  lemma StepStaysGenuine(work: Work, p: Pool, e: Event)
    requires Enabled(work, p, e) && !e.CancelOuter? && !e.Drain?
    requires !Cancelled(p) && Genuinely(work, p)
    ensures Genuinely(work, Step(work, p, e))
  {
    hide AbsorbAll;
  }

  lemma DrainStaysGenuine(work: Work, p: Pool)
    requires Enabled(work, p, Drain) && Genuinely(work, p)
    ensures Genuinely(work, Step(work, p, Drain)) && Genuine(work, p.results[0])
  {
    hide AbsorbAll;
  }

  lemma OnlyDrainBooks(work: Work, p: Pool, e: Event)
    requires Enabled(work, p, e) && !e.Drain? && !e.CancelOuter?
    ensures var r := Step(work, p, e);
            BookOf(work, r) == BookOf(work, p) && r.outer == p.outer && Stopped(r) == Stopped(p)
  {
    hide AbsorbAll;
  }

  /** Booking a genuine result finds an issue only if the work as a whole cannot succeed. */
  lemma DrainedIssueIsReal(work: Work, es: seq<Event>)
    requires Schedule(work, es) && Enabled(work, After(work, es), Drain)
    requires BookOf(work, After(work, es)).issue.None? && Genuinely(work, After(work, es))
    ensures BookOf(work, Step(work, After(work, es), Drain)).issue.Some? ==> !Succeeds(work)
  {
    hide Schedule, After, AbsorbAll;
    var p := After(work, es);
    var item := p.results[0];
    CleanBook(work, p.drained);
    IssueStays(work.budget, p.drained, item);
    DrainStaysGenuine(work, p);
    BookedSumsAreBounded(work, es, Dur(work));
    BookedSumsAreBounded(work, es, Size(work));
    SumItemsNonNegative(p.results[1..], Dur(work));
    SumItemsNonNegative(p.results[1..], Size(work));
  }

  /** The drain loop has called cancel, or does so next. */
  predicate Stopped(p: Pool) {
    p.cancelled || p.mustCancel
  }

  /** Until the caller cancels: only an issue stops the queries, and only work that cannot succeed has one. */
  ghost predicate Honest(work: Work, p: Pool) {
    var issue := BookOf(work, p).issue;
    !p.outer && (Stopped(p) ==> issue.Some?)
    && (issue.None? ==> Genuinely(work, p)) && (issue.Some? ==> !Succeeds(work))
  }

  predicate Uncancelled(es: seq<Event>) {
    forall k :: 0 <= k < |es| ==> !es[k].CancelOuter?
  }

  lemma {:induction false} AlwaysHonest(work: Work, es: seq<Event>)
    requires Schedule(work, es) && Uncancelled(es)
    ensures Honest(work, After(work, es))
  {
    hide Step, Enabled, Genuinely, Succeeds, Start;
    if es == [] {
      StartIsIdle(work);
      StartIsGenuine(work);
    } else {
      var before := es[..|es| - 1];
      AlwaysHonest(work, before);
      HonestStep(work, before, es[|es| - 1]);
    }
  }

  lemma StartIsGenuine(work: Work)
    ensures Genuinely(work, Start(work)) && BookOf(work, Start(work)).issue.None?
  {
  }

  lemma HonestStep(work: Work, es: seq<Event>, e: Event)
    requires Schedule(work, es) && Enabled(work, After(work, es), e) && !e.CancelOuter?
    requires Honest(work, After(work, es))
    ensures Honest(work, Step(work, After(work, es), e))
  {
    hide Schedule, After, Genuinely, Succeeds, AbsorbAll;
    var p := After(work, es);
    if e.Drain? {
      IssueStays(work.budget, p.drained, p.results[0]);
      if BookOf(work, p).issue.None? {
        DrainedIssueIsReal(work, es);
        DrainStaysGenuine(work, p);
      }
    } else {
      OnlyDrainBooks(work, p, e);
      if BookOf(work, p).issue.None? {
        StepStaysGenuine(work, p, e);
      }
    }
  }

  // ------------------------------------------------------------------------ at the end

  lemma {:induction false} OneInRange(lo: nat, n: nat, i: nat)
    requires lo <= n
    ensures SumRange(lo, n, One(i)) == if lo <= i < n then 1 else 0
    decreases n - lo
  {
    if lo < n {
      OneInRange(lo + 1, n, i);
    }
  }

  lemma {:induction false} PositiveSumHas(items: seq<Item>, i: nat)
    requires SumItems(items, One(i)) > 0
    ensures exists k :: 0 <= k < |items| && items[k].index == i
  {
    if items[0].index != i {
      PositiveSumHas(items[1..], i);
      var k :| 0 <= k < |items[1..]| && items[1..][k].index == i;
      assert items[k + 1].index == i;
    }
  }

  /** At the end every index has been drained or passed over, once. */
  lemma EndHasAll(work: Work, es: seq<Event>, f: nat -> int)
    requires Schedule(work, es) && work.outcomes != [] && Final(After(work, es))
    ensures SumItems(After(work, es).drained, f) + SumIndexes(After(work, es).skipped, f)
         == SumRange(0, |work.outcomes|, f)
  {
    hide Schedule, After, SumOf;
    var p := After(work, es);
    Conserved(work, es, f);
    AlwaysConsistent(work, es);
    assert p.workers[0].Exited?;
    IdleHoldNothing(p.workers, f);
  }

  lemma {:induction false} InOrderIsAll(work: Work, done: map<nat, Outcome>, n: nat)
    requires n <= |work.outcomes| && forall i :: 0 <= i < n ==> i in done && done[i] == work.outcomes[i]
    ensures InPlanOrder(done, n) == AllResults(work)[..n]
  {
    if n > 0 {
      InOrderIsAll(work, done, n - 1);
      assert AllResults(work)[..n] == AllResults(work)[..n - 1] + [AllResults(work)[n - 1]];
    }
  }

  lemma CleanEnd(work: Work, es: seq<Event>)
    requires Schedule(work, es) && work.outcomes != [] && Final(After(work, es))
    requires BookOf(work, After(work, es)).issue.None? && Genuinely(work, After(work, es))
    ensures Succeeds(work) && InPlanOrder(BookOf(work, After(work, es)).done, |work.outcomes|) == AllResults(work)
  {
    hide Schedule, After, AbsorbAll, SumItems, InPlanOrder;
    var p, n := After(work, es), |work.outcomes|;
    CleanBook(work, p.drained);
    EndHasAll(work, es, Dur(work));
    EndHasAll(work, es, Size(work));
    var done := BookOf(work, p).done;
    forall i | 0 <= i < n
      ensures i in done && done[i] == work.outcomes[i] && work.outcomes[i].issue.None?
    {
      EndHasAll(work, es, One(i));
      OneInRange(0, n, i);
      PositiveSumHas(p.drained, i);
    }
    InOrderIsAll(work, done, n);
    assert AllResults(work)[..n] == AllResults(work);
  }

  /**
    Whatever the schedule, a collection that the caller does not cancel ends with all results in plan order, exactly
    when no query fails and the totals stay within the budgets, and with an issue otherwise.
   */
  lemma EveryScheduleAnswers(work: Work, es: seq<Event>)
    requires Schedule(work, es) && Uncancelled(es) && work.outcomes != [] && Final(After(work, es))
    ensures Answer(BookOf(work, After(work, es)), |work.outcomes|)
         == if Succeeds(work) then Some(AllResults(work)) else None
  {
    hide Schedule, After, Genuinely, Succeeds, AbsorbAll, Final, InPlanOrder;
    AlwaysHonest(work, es);
    if BookOf(work, After(work, es)).issue.None? {
      CleanEnd(work, es);
    }
  }

  /** Two schedules of the same work answer the same. */
  lemma SchedulesAgree(work: Work, es: seq<Event>, fs: seq<Event>)
    requires Schedule(work, es) && Uncancelled(es) && Final(After(work, es))
    requires Schedule(work, fs) && Uncancelled(fs) && Final(After(work, fs))
    requires work.outcomes != []
    ensures Answer(BookOf(work, After(work, es)), |work.outcomes|)
         == Answer(BookOf(work, After(work, fs)), |work.outcomes|)
  {
    hide Schedule, After, Succeeds, Answer;
    EveryScheduleAnswers(work, es);
    EveryScheduleAnswers(work, fs);
  }
}
