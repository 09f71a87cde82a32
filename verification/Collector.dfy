/**
  The bounded concurrent collector of datasource queries: a feeder, a pool of workers over buffered channels, and one
  drain loop that books the results against cumulative budgets and cancels the rest on the first issue.
 */
module Collector {
  import opened Wrappers

  datatype Issue = QueryFailed(reason: string) | DurationExceeded | BytesExceeded

  datatype Outcome = Outcome(duration: nat, bytes: nat, issue: Option<Issue>)

  /** A limit that is not positive is no limit. */
  datatype Budget = Budget(maxConcurrent: int, maxDuration: int, maxBytes: int)

  datatype Item = Item(index: nat, outcome: Outcome)

  function EffectiveConcurrency(budget: Budget, planSize: int): (c: int)
    ensures planSize > 0 ==> 1 <= c <= planSize
    ensures planSize > 0 && budget.maxConcurrent > 0 ==>
              c <= budget.maxConcurrent && (c == planSize || c == budget.maxConcurrent)
    ensures planSize > 0 && budget.maxConcurrent <= 0 ==> c == 1
    ensures planSize <= 0 ==> c == 0
  {
    if planSize <= 0 then 0
    else
      var wanted := if budget.maxConcurrent <= 0 then 1 else budget.maxConcurrent;
      if wanted > planSize then planSize else wanted
  }

  // ---------------------------------------------------------------------- the books

  datatype Book = Book(issue: Option<Issue>, duration: nat, bytes: nat, done: map<nat, Outcome>)

  const EMPTY_BOOK := Book(None, 0, 0, map[])

  predicate Exceeds(limit: int, value: int) {
    limit > 0 && value > limit
  }

  /** One result is booked; after the first issue results are only drained. */
  function Absorb(budget: Budget, book: Book, item: Item): Book {
    if book.issue.Some? then book
    else if item.outcome.issue.Some? then book.(issue := item.outcome.issue)
    else
      var duration := book.duration + item.outcome.duration;
      if Exceeds(budget.maxDuration, duration) then book.(issue := Some(DurationExceeded), duration := duration)
      else
        var bytes := book.bytes + item.outcome.bytes;
        if Exceeds(budget.maxBytes, bytes) then
          book.(issue := Some(BytesExceeded), duration := duration, bytes := bytes)
        else Book(None, duration, bytes, book.done[item.index := item.outcome])
  }

  function AbsorbAll(budget: Budget, items: seq<Item>): Book {
    if items == [] then EMPTY_BOOK
    else Absorb(budget, AbsorbAll(budget, items[..|items| - 1]), items[|items| - 1])
  }

  /** The booked results in plan order. */
  function InPlanOrder(done: map<nat, Outcome>, n: nat): seq<Item> {
    if n == 0 then []
    else InPlanOrder(done, n - 1) + (if n - 1 in done then [Item(n - 1, done[n - 1])] else [])
  }

  function Answer(book: Book, n: nat): Option<seq<Item>> {
    if book.issue.Some? then None else Some(InPlanOrder(book.done, n))
  }

  /** The drain loop, over the results in the order in which they arrive. */
  method DrainResults(budget: Budget, n: nat, arrivals: seq<Item>) returns (out: seq<Item>, firstIssue: Option<Issue>)
    requires forall k :: 0 <= k < |arrivals| ==> arrivals[k].index < n
    ensures firstIssue == AbsorbAll(budget, arrivals).issue
    ensures Answer(AbsorbAll(budget, arrivals), n) == if firstIssue.None? then Some(out) else None
  {
    var collected := new Item[n](_ => Item(0, Outcome(0, 0, None)));
    var completed := new bool[n](_ => false);
    var duration, bytes := 0, 0;
    firstIssue := None;
    for k := 0 to |arrivals|
      invariant AbsorbAll(budget, arrivals[..k]).issue == firstIssue
      invariant firstIssue.None? ==>
        AbsorbAll(budget, arrivals[..k]).duration == duration && AbsorbAll(budget, arrivals[..k]).bytes == bytes
      invariant firstIssue.None? ==> Books(AbsorbAll(budget, arrivals[..k]).done, completed[..], collected[..])
    {
      assert arrivals[..k + 1][..k] == arrivals[..k];
      var queryResult := arrivals[k];
      if firstIssue.Some? {
        continue;
      }
      if queryResult.outcome.issue.Some? {
        firstIssue := queryResult.outcome.issue;
        continue;
      }
      duration := duration + queryResult.outcome.duration;
      if budget.maxDuration > 0 && duration > budget.maxDuration {
        firstIssue := Some(DurationExceeded);
        continue;
      }
      bytes := bytes + queryResult.outcome.bytes;
      if budget.maxBytes > 0 && bytes > budget.maxBytes {
        firstIssue := Some(BytesExceeded);
        continue;
      }
      collected[queryResult.index] := queryResult;
      completed[queryResult.index] := true;
    }
    assert arrivals[..|arrivals|] == arrivals;
    out := [];
    if firstIssue.Some? {
      return;
    }
    for index := 0 to n
      invariant out == InPlanOrder(AbsorbAll(budget, arrivals).done, index)
    {
      if completed[index] {
        out := out + [collected[index]];
      }
    }
  }

  /** The two arrays hold exactly what is booked. */
  ghost predicate Books(done: map<nat, Outcome>, completed: seq<bool>, collected: seq<Item>) {
    |completed| == |collected|
    && (forall i :: i in done ==> i < |completed|)
    && forall i :: 0 <= i < |completed| ==>
         (completed[i] <==> i in done) && (completed[i] ==> collected[i] == Item(i, done[i]))
  }

  // ------------------------------------------------------------------------ the pool

  datatype Worker =
    | Idle
    | Took(index: nat)
    | Ready(index: nat)
    | Querying(index: nat)
    | Sending(index: nat, outcome: Outcome)
    | Exited

  /**
    The feeder has put fed indexes into the jobs channel; drained and skipped log what the drain loop has booked and
    what workers passed over after cancellation. outer tells that the caller's context was cancelled; mustCancel that
    the drain loop has just set the first issue and calls cancel next; cancelled that it has done so.
   */
  datatype Pool = Pool(
    fed: nat, jobs: seq<nat>, closed: bool, workers: seq<Worker>, results: seq<Item>, resultsClosed: bool,
    outer: bool, mustCancel: bool, cancelled: bool, drained: seq<Item>, skipped: seq<nat>, depth: int, inFlight: int)

  /** The size of the plan, its budget and what each query gives while nothing is cancelled. */
  datatype Work = Work(budget: Budget, outcomes: seq<Outcome>)

  datatype Event =
    | Feed
    | CloseJobs
    | Take(w: nat)
    | Check(w: nat)
    | Begin(w: nat)
    | Finish(w: nat, late: Outcome)
    | Send(w: nat)
    | Exit(w: nat)
    | CloseResults
    | Drain
    | CallCancel
    | CancelOuter

  function BookOf(work: Work, p: Pool): Book {
    AbsorbAll(work.budget, p.drained)
  }

  /** The context of the queries is done. */
  predicate Cancelled(p: Pool) {
    p.outer || p.cancelled
  }

  /** Both channels are buffered for as many elements as the plan has. */
  function Capacity(work: Work): nat {
    |work.outcomes|
  }

  predicate At(p: Pool, w: nat) {
    w < |p.workers|
  }

  predicate Enabled(work: Work, p: Pool, e: Event) {
    match e
    case Feed => p.fed < |work.outcomes| && |p.jobs| < Capacity(work)
    case CloseJobs => p.fed == |work.outcomes| && !p.closed
    case Take(w) => At(p, w) && p.workers[w].Idle? && p.jobs != []
    case Check(w) => At(p, w) && p.workers[w].Took?
    case Begin(w) => At(p, w) && p.workers[w].Ready?
    case Finish(w, _) => At(p, w) && p.workers[w].Querying?
    case Send(w) => At(p, w) && p.workers[w].Sending? && |p.results| < Capacity(work)
    case Exit(w) => At(p, w) && p.workers[w].Idle? && p.jobs == [] && p.closed
    case CloseResults => p.closed && !p.resultsClosed && forall w :: 0 <= w < |p.workers| ==> p.workers[w].Exited?
    case Drain => p.closed && p.results != [] && !p.mustCancel
    case CallCancel => p.mustCancel
    case CancelOuter => !p.outer
  }

  function Put(p: Pool, w: nat, worker: Worker): Pool
    requires At(p, w)
  {
    p.(workers := p.workers[w := worker])
  }

  function Step(work: Work, p: Pool, e: Event): Pool
    requires Enabled(work, p, e)
  {
    match e
    case Feed => p.(fed := p.fed + 1, jobs := p.jobs + [p.fed], depth := p.depth + 1)
    case CloseJobs => p.(closed := true)
    case Take(w) => Put(p, w, Took(p.jobs[0])).(jobs := p.jobs[1..])
    case Check(w) =>
      var index := p.workers[w].index;
      if Cancelled(p) then Put(p, w, Idle).(depth := p.depth - 1, skipped := p.skipped + [index])
      else Put(p, w, Ready(index)).(depth := p.depth - 1)
    case Begin(w) => Put(p, w, Querying(p.workers[w].index)).(inFlight := p.inFlight + 1)
    case Finish(w, late) =>
      var index := p.workers[w].index;
      var outcome := if Cancelled(p) || index >= |work.outcomes| then late else work.outcomes[index];
      Put(p, w, Sending(index, outcome)).(inFlight := p.inFlight - 1)
    case Send(w) => Put(p, w, Idle).(results := p.results + [Item(p.workers[w].index, p.workers[w].outcome)])
    case Exit(w) => Put(p, w, Exited)
    case CloseResults => p.(resultsClosed := true)
    case Drain =>
      var r := p.(results := p.results[1..], drained := p.drained + [p.results[0]]);
      r.(mustCancel := BookOf(work, p).issue.None? && BookOf(work, r).issue.Some?)
    case CallCancel => p.(mustCancel := false, cancelled := true)
    case CancelOuter => p.(outer := true)
  }

  function Start(work: Work): Pool {
    var c := EffectiveConcurrency(work.budget, |work.outcomes|);
    Pool(0, [], false, seq(c, _ => Idle), [], false, false, false, false, [], [], 0, 0)
  }

  /** The drain loop has ended: the channel is closed and empty, and no call of cancel is left. */
  predicate Final(p: Pool) {
    p.resultsClosed && p.results == [] && !p.mustCancel
  }

  /** Every event of the schedule was possible when it came. */
  predicate Schedule(work: Work, es: seq<Event>)
    decreases |es|, 0
  {
    es == []
    || (Schedule(work, es[..|es| - 1]) && Enabled(work, After(work, es[..|es| - 1]), es[|es| - 1]))
  }

  function After(work: Work, es: seq<Event>): Pool
    requires Schedule(work, es)
    decreases |es|, 1
  {
    if es == [] then Start(work) else Step(work, After(work, es[..|es| - 1]), es[|es| - 1])
  }
}
