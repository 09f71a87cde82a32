/** Every schedule of the collector ends, and all of them end with the same answer. */
module CollectorTheorems {
  import opened Wrappers
  import opened Collector

  // ---------------------------------------------------------------------- counting

  /** The weight of a worker, given that of the index it holds. */
  function Held(worker: Worker, f: nat -> int): int {
    match worker
    case Idle => 0
    case Exited => 0
    case Took(i) => f(i)
    case Ready(i) => f(i)
    case Querying(i) => f(i)
    case Sending(i, _) => f(i)
  }

  function SumHeld(ws: seq<Worker>, f: nat -> int): int {
    if ws == [] then 0 else Held(ws[0], f) + SumHeld(ws[1..], f)
  }

  function SumIndexes(xs: seq<nat>, f: nat -> int): int {
    if xs == [] then 0 else f(xs[0]) + SumIndexes(xs[1..], f)
  }

  function SumItems(xs: seq<Item>, f: nat -> int): int {
    if xs == [] then 0 else f(xs[0].index) + SumItems(xs[1..], f)
  }

  /** The sum over the indexes lo up to n. */
  function SumRange(lo: nat, n: nat, f: nat -> int): int
    requires lo <= n
    decreases n - lo
  {
    if lo == n then 0 else f(lo) + SumRange(lo + 1, n, f)
  }

  lemma {:induction false} SumHeldUpdate(ws: seq<Worker>, w: nat, x: Worker, f: nat -> int)
    requires w < |ws|
    ensures SumHeld(ws[w := x], f) == SumHeld(ws, f) - Held(ws[w], f) + Held(x, f)
  {
    if w == 0 {
      assert ws[0 := x][1..] == ws[1..];
    } else {
      assert ws[w := x][1..] == ws[1..][w - 1 := x];
      SumHeldUpdate(ws[1..], w - 1, x, f);
    }
  }

  lemma {:induction false} SumIndexesAppend(xs: seq<nat>, x: nat, f: nat -> int)
    ensures SumIndexes(xs + [x], f) == SumIndexes(xs, f) + f(x)
  {
    if xs == [] {
      assert xs + [x] == [x];
    } else {
      assert (xs + [x])[1..] == xs[1..] + [x];
      SumIndexesAppend(xs[1..], x, f);
    }
  }

  lemma {:induction false} SumItemsAppend(xs: seq<Item>, x: Item, f: nat -> int)
    ensures SumItems(xs + [x], f) == SumItems(xs, f) + f(x.index)
  {
    if xs == [] {
      assert xs + [x] == [x];
    } else {
      assert (xs + [x])[1..] == xs[1..] + [x];
      SumItemsAppend(xs[1..], x, f);
    }
  }

  /** The weight of all indexes, wherever they are. */
  function Everywhere(work: Work, p: Pool, f: nat -> int): int {
    (if p.fed <= |work.outcomes| then SumRange(p.fed, |work.outcomes|, f) else 0)
    + SumIndexes(p.jobs, f) + SumHeld(p.workers, f) + SumItems(p.results, f) + SumItems(p.drained, f)
    + SumIndexes(p.skipped, f)
  }

  /** No event loses, repeats or invents an index: every weighting of the indexes is conserved. */
  lemma StepConserves(work: Work, p: Pool, e: Event, f: nat -> int)
    requires Enabled(work, p, e)
    ensures Everywhere(work, Step(work, p, e), f) == Everywhere(work, p, f)
  {
    hide AbsorbAll, SumHeld;
    var r := Step(work, p, e);
    match e
    case Feed => SumIndexesAppend(p.jobs, p.fed, f);
    case Take(w) => SumHeldUpdate(p.workers, w, Took(p.jobs[0]), f);
    case Check(w) =>
      SumIndexesAppend(p.skipped, p.workers[w].index, f);
      SumHeldUpdate(p.workers, w, r.workers[w], f);
    case Begin(w) => SumHeldUpdate(p.workers, w, r.workers[w], f);
    case Finish(w, _) => SumHeldUpdate(p.workers, w, r.workers[w], f);
    case Send(w) =>
      SumItemsAppend(p.results, Item(p.workers[w].index, p.workers[w].outcome), f);
      SumHeldUpdate(p.workers, w, Idle, f);
    case Exit(w) => SumHeldUpdate(p.workers, w, Exited, f);
    case Drain => SumItemsAppend(p.drained, p.results[0], f);
    case _ =>
  }

  lemma {:induction false} IdleHoldNothing(ws: seq<Worker>, f: nat -> int)
    requires forall w :: 0 <= w < |ws| ==> ws[w].Idle? || ws[w].Exited?
    ensures SumHeld(ws, f) == 0
  {
    if ws != [] {
      IdleHoldNothing(ws[1..], f);
    }
  }

  lemma {:induction false} Conserved(work: Work, es: seq<Event>, f: nat -> int)
    requires Schedule(work, es)
    ensures Everywhere(work, After(work, es), f) == SumRange(0, |work.outcomes|, f)
  {
    hide Step, Enabled, Start;
    if es == [] {
      StartIsIdle(work);
      IdleHoldNothing(Start(work).workers, f);
    } else {
      Conserved(work, es[..|es| - 1], f);
      StepConserves(work, After(work, es[..|es| - 1]), es[|es| - 1], f);
    }
  }

  lemma StartIsIdle(work: Work)
    ensures var p := Start(work);
            p.fed == 0 && p.jobs == [] && p.results == [] && p.drained == [] && p.skipped == []
            && !p.outer && !p.mustCancel && !p.cancelled && p.depth == 0 && p.inFlight == 0 && !p.closed && !p.resultsClosed
            && |p.workers| == EffectiveConcurrency(work.budget, |work.outcomes|)
            && forall w :: 0 <= w < |p.workers| ==> p.workers[w].Idle?
  {
  }

  lemma {:induction false} SumIndexesNonNegative(xs: seq<nat>, f: nat -> int)
    requires forall i :: f(i) >= 0
    ensures SumIndexes(xs, f) >= 0
    ensures forall x :: x in xs ==> SumIndexes(xs, f) >= f(x)
  {
    if xs != [] {
      SumIndexesNonNegative(xs[1..], f);
    }
  }

  lemma {:induction false} SumItemsNonNegative(xs: seq<Item>, f: nat -> int)
    requires forall i :: f(i) >= 0
    ensures SumItems(xs, f) >= 0
    ensures forall x :: x in xs ==> SumItems(xs, f) >= f(x.index)
  {
    if xs != [] {
      SumItemsNonNegative(xs[1..], f);
    }
  }

  lemma {:induction false} SumHeldNonNegative(ws: seq<Worker>, f: nat -> int)
    requires forall i :: f(i) >= 0
    ensures SumHeld(ws, f) >= 0
    ensures forall w :: 0 <= w < |ws| ==> SumHeld(ws, f) >= Held(ws[w], f) >= 0
  {
    if ws != [] {
      SumHeldNonNegative(ws[1..], f);
      assert forall w :: 0 < w < |ws| ==> ws[w] == ws[1..][w - 1];
    }
  }

  lemma {:induction false} SumRangeNonNegative(lo: nat, n: nat, f: nat -> int)
    requires lo <= n && forall i :: f(i) >= 0
    ensures SumRange(lo, n, f) >= 0
    ensures forall i :: lo <= i < n ==> SumRange(lo, n, f) >= f(i)
    decreases n - lo
  {
    if lo < n {
      SumRangeNonNegative(lo + 1, n, f);
    }
  }

  // -------------------------------------------------------------------- the invariant

  function One(i: nat): nat -> int {
    (j: nat) => if j == i then 1 else 0
  }

  function Queries(worker: Worker): int {
    if worker.Querying? then 1 else 0
  }

  function Waits(worker: Worker): int {
    if worker.Took? then 1 else 0
  }

  function SumOf(ws: seq<Worker>, g: Worker -> int): int {
    if ws == [] then 0 else g(ws[0]) + SumOf(ws[1..], g)
  }

  lemma {:induction false} SumOfUpdate(ws: seq<Worker>, w: nat, x: Worker, g: Worker -> int)
    requires w < |ws|
    ensures SumOf(ws[w := x], g) == SumOf(ws, g) - g(ws[w]) + g(x)
  {
    if w == 0 {
      assert ws[0 := x][1..] == ws[1..];
    } else {
      assert ws[w := x][1..] == ws[1..][w - 1 := x];
      SumOfUpdate(ws[1..], w - 1, x, g);
    }
  }

  lemma {:induction false} SumOfBound(ws: seq<Worker>, g: Worker -> int)
    requires forall x :: 0 <= g(x) <= 1
    ensures 0 <= SumOf(ws, g) <= |ws|
    ensures (forall w :: 0 <= w < |ws| ==> g(ws[w]) == 0) ==> SumOf(ws, g) == 0
  {
    if ws != [] {
      SumOfBound(ws[1..], g);
    }
  }

  /** The gauges and the channels are consistent with where the workers are. */
  ghost predicate Consistent(work: Work, p: Pool) {
    |p.workers| == EffectiveConcurrency(work.budget, |work.outcomes|)
    && p.fed <= |work.outcomes|
    && (p.closed ==> p.fed == |work.outcomes|)
    && p.depth == |p.jobs| + SumOf(p.workers, Waits)
    && p.inFlight == SumOf(p.workers, Queries)
    && (forall w :: 0 <= w < |p.workers| && p.workers[w].Exited? ==> p.closed && p.jobs == [])
    && (p.resultsClosed ==> p.closed && forall w :: 0 <= w < |p.workers| ==> p.workers[w].Exited?)
  }

  lemma StepKeepsConsistent(work: Work, p: Pool, e: Event)
    requires Consistent(work, p) && Enabled(work, p, e)
    ensures Consistent(work, Step(work, p, e))
  {
    hide AbsorbAll, SumOf;
    var r := Step(work, p, e);
    if e.Take? || e.Check? || e.Begin? || e.Finish? || e.Send? || e.Exit? {
      SumOfUpdate(p.workers, e.w, r.workers[e.w], Waits);
      SumOfUpdate(p.workers, e.w, r.workers[e.w], Queries);
    }
  }

  lemma {:induction false} AlwaysConsistent(work: Work, es: seq<Event>)
    requires Schedule(work, es)
    ensures Consistent(work, After(work, es))
  {
    hide Step, Enabled, Consistent, Start;
    if es == [] {
      StartIsIdle(work);
      StartIsConsistent(work);
    } else {
      AlwaysConsistent(work, es[..|es| - 1]);
      StepKeepsConsistent(work, After(work, es[..|es| - 1]), es[|es| - 1]);
    }
  }

  lemma StartIsConsistent(work: Work)
    ensures Consistent(work, Start(work))
  {
    hide SumOf;
    SumOfBound(Start(work).workers, Waits);
    SumOfBound(Start(work).workers, Queries);
  }

  /** There are never more queries under way than the effective concurrency. */
  lemma InFlightIsBounded(work: Work, es: seq<Event>)
    requires Schedule(work, es)
    ensures 0 <= After(work, es).inFlight <= EffectiveConcurrency(work.budget, |work.outcomes|)
    ensures 0 <= After(work, es).depth
  {
    hide Schedule, After, SumOf;
    AlwaysConsistent(work, es);
    SumOfBound(After(work, es).workers, Queries);
    SumOfBound(After(work, es).workers, Waits);
  }

  /** At the end both gauges are back where they started, whether or not anything was cancelled. */
  lemma GaugesReturnToZero(work: Work, es: seq<Event>)
    requires Schedule(work, es) && work.outcomes != [] && After(work, es).resultsClosed
    ensures After(work, es).depth == 0 && After(work, es).inFlight == 0
  {
    hide Schedule, After, SumOf;
    var p := After(work, es);
    AlwaysConsistent(work, es);
    SumOfBound(p.workers, Queries);
    SumOfBound(p.workers, Waits);
    assert p.workers[0].Exited?;
  }

  // --------------------------------------------------------------------- termination

  function Distance(worker: Worker): int {
    match worker
    case Idle => 1
    case Took(_) => 7
    case Ready(_) => 6
    case Querying(_) => 5
    case Sending(_, _) => 4
    case Exited => 0
  }

  /** How far a pool is from its end. */
  function Remaining(work: Work, p: Pool): int {
    8 * (|work.outcomes| - p.fed) + 7 * |p.jobs| + SumOf(p.workers, Distance) + 2 * |p.results|
    + (if p.mustCancel then 1 else 0) + (if p.closed then 0 else 1) + (if p.resultsClosed then 0 else 1)
    + (if p.outer then 0 else 1)
  }

  lemma StepComesCloser(work: Work, p: Pool, e: Event)
    requires Consistent(work, p) && Enabled(work, p, e)
    ensures Remaining(work, Step(work, p, e)) < Remaining(work, p)
  {
    hide AbsorbAll, SumOf;
    var r := Step(work, p, e);
    if e.Take? || e.Check? || e.Begin? || e.Finish? || e.Send? || e.Exit? {
      SumOfUpdate(p.workers, e.w, r.workers[e.w], Distance);
    }
  }

  lemma {:induction false} SumOfNonNegative(ws: seq<Worker>)
    ensures SumOf(ws, Distance) >= 0
  {
    if ws != [] {
      SumOfNonNegative(ws[1..]);
    }
  }

  /** Every schedule is finite, with a bound that only the plan and the concurrency give. */
  lemma {:induction false} SchedulesEnd(work: Work, es: seq<Event>)
    requires Schedule(work, es)
    ensures |es| + Remaining(work, After(work, es)) <= Remaining(work, Start(work))
    ensures Remaining(work, After(work, es)) >= 0
  {
    hide Step, Enabled, Consistent, Remaining, Start;
    AlwaysConsistent(work, es);
    RemainingIsNonNegative(work, After(work, es));
    if es != [] {
      var before := es[..|es| - 1];
      SchedulesEnd(work, before);
      AlwaysConsistent(work, before);
      StepComesCloser(work, After(work, before), es[|es| - 1]);
    }
  }

  lemma RemainingIsNonNegative(work: Work, p: Pool)
    requires Consistent(work, p)
    ensures Remaining(work, p) >= 0
  {
    SumOfNonNegative(p.workers);
  }

  function Each(i: nat): int {
    1
  }

  lemma {:induction false} EachCounts(xs: seq<nat>, items: seq<Item>, lo: nat, n: nat)
    requires lo <= n
    ensures SumIndexes(xs, Each) == |xs| && SumItems(items, Each) == |items| && SumRange(lo, n, Each) == n - lo
    decreases |xs| + |items| + n - lo
  {
    if xs != [] {
      EachCounts(xs[1..], items, lo, n);
    } else if items != [] {
      EachCounts(xs, items[1..], lo, n);
    } else if lo < n {
      EachCounts(xs, items, lo + 1, n);
    }
  }

  /**
    Although nothing is drained before the last index is fed, the feeder always finds room in the jobs channel, and a
    worker with a result always finds room in the results channel.
   */
  lemma ChannelsNeverBlock(work: Work, es: seq<Event>)
    requires Schedule(work, es)
    ensures After(work, es).fed < |work.outcomes| ==> Enabled(work, After(work, es), Feed)
    ensures forall w :: 0 <= w < |After(work, es).workers| && After(work, es).workers[w].Sending? ==>
              Enabled(work, After(work, es), Send(w))
  {
    hide Schedule, After, SumOf, SumHeld, SumIndexes, SumItems, SumRange;
    var p, n := After(work, es), |work.outcomes|;
    AlwaysConsistent(work, es);
    Conserved(work, es, Each);
    EachCounts(p.jobs, p.results, p.fed, n);
    EachCounts(p.skipped, p.drained, 0, n);
    SumHeldNonNegative(p.workers, Each);
  }

  /** No schedule gets stuck before the drain loop has ended. */
  lemma NeverStuck(work: Work, es: seq<Event>)
    requires Schedule(work, es) && work.outcomes != [] && !Final(After(work, es))
    ensures exists e :: Enabled(work, After(work, es), e) && !e.CancelOuter?
  {
    hide Schedule, After, Step, SumOf;
    var p := After(work, es);
    AlwaysConsistent(work, es);
    ChannelsNeverBlock(work, es);
    if p.mustCancel {
      assert Enabled(work, p, CallCancel);
    } else if p.fed < |work.outcomes| {
      assert Enabled(work, p, Feed);
    } else if !p.closed {
      assert Enabled(work, p, CloseJobs);
    } else if p.results != [] {
      assert Enabled(work, p, Drain);
    } else if w :| 0 <= w < |p.workers| && !p.workers[w].Exited? {
      WorkerCanMove(work, p, w);
    } else {
      assert Enabled(work, p, CloseResults);
    }
  }

  lemma WorkerCanMove(work: Work, p: Pool, w: nat)
    requires p.closed && w < |p.workers| && !p.workers[w].Exited?
    requires p.workers[w].Sending? ==> Enabled(work, p, Send(w))
    ensures exists e :: Enabled(work, p, e) && !e.CancelOuter?
  {
    var move :=
      match p.workers[w]
      case Idle => if p.jobs != [] then Take(w) else Exit(w)
      case Took(_) => Check(w)
      case Ready(_) => Begin(w)
      case Querying(_) => Finish(w, Outcome(0, 0, None))
      case Sending(_, _) => Send(w)
      case Exited => CloseJobs;
    assert Enabled(work, p, move);
  }
}
