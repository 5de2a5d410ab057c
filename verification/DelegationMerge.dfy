/** Running the batches on the parent agent and merging what the workers report. */
module DelegationMerge {
  import opened Wrappers
  import opened DelegationBatches

  const MAX_BATCH_TASKS := 20

  /** The batch-local task index a worker's result gives, if it gives one that is a number. */
  datatype Reported = Unnamed | Index(value: int) | Unreadable

  datatype Item = Item(reported: Reported, payload: string)

  datatype Reply = Results(items: seq<Item>) | Failure(error: string) | Raised

  datatype Entry = Entry(task: nat, payload: string)

  /** Unresolved: handing the classification of the tasks to the event loop raised.
      Propagated: a call or the merge of its reply did.  NotApplied: the decision of the
      next batch did, outside the block that restores the agent's settings. */
  datatype Report =
    | TooDeep | TooMany | Unresolved | Direct(reply: Reply) | Merged(entries: seq<Entry>) | Propagated | NotApplied

  /** One delegate call: the agent's settings and relay at that moment, and the tasks, or
      the request as it came. */
  datatype Call =
    | Call(settings: Settings, indices: seq<nat>, relay: Option<seq<nat>>)
    | AsItCame(settings: Settings, relay: Option<seq<nat>>)

  /** A list of tasks, or a single goal, blank or not. */
  datatype Request = Tasks(n: nat) | Single(blank: bool)

  /** The batch-local index an item stands for; none if it is unreadable. */
  function Local(items: seq<Item>, k: nat): int
    requires k < |items|
  {
    match items[k].reported
    case Unnamed => k
    case Index(value) => value
    case Unreadable => -1
  }

  /** The index is no number, or both fallbacks are out of range: the merge raises. */
  predicate Unplaced(width: nat, items: seq<Item>, k: nat)
    requires k < |items|
  {
    items[k].reported.Unreadable? || (!(0 <= Local(items, k) < width) && k >= width)
  }

  function Placed(indexMap: seq<nat>, items: seq<Item>, k: nat): nat
    requires k < |items| && !Unplaced(|indexMap|, items, k)
  {
    if 0 <= Local(items, k) < |indexMap| then indexMap[Local(items, k)] else indexMap[k]
  }

  predicate Mergeable(indexMap: seq<nat>, reply: Reply) {
    match reply
    case Results(items) => forall k | 0 <= k < |items| :: !Unplaced(|indexMap|, items, k)
    case Failure(_) => true
    case Raised => false
  }

  /** The entries one batch contributes. */
  function BatchEntries(indexMap: seq<nat>, reply: Reply): seq<Entry>
    requires Mergeable(indexMap, reply)
  {
    match reply
    case Results(items) =>
      seq(|items|, k requires 0 <= k < |items| => Entry(Placed(indexMap, items, k), items[k].payload))
    case Failure(error) => seq(|indexMap|, k requires 0 <= k < |indexMap| => Entry(indexMap[k], error))
  }

  /** What the k-th delegate call returns; a call beyond the script raises. */
  function ReplyAt(replies: seq<Reply>, k: nat): Reply { if k < |replies| then replies[k] else Raised }

  /** The first `k` replies can be merged. */
  predicate AllMergeable(batches: seq<Batch>, replies: seq<Reply>, k: nat)
    requires k <= |batches|
  {
    k == 0 || (AllMergeable(batches, replies, k - 1) && Mergeable(batches[k - 1].indices, ReplyAt(replies, k - 1)))
  }

  /** What the first `k` batches contribute, in the order they ran. */
  function AllEntries(batches: seq<Batch>, replies: seq<Reply>, k: nat): seq<Entry>
    requires k <= |batches| && AllMergeable(batches, replies, k)
  {
    if k == 0 then [] else AllEntries(batches, replies, k - 1) + BatchEntries(batches[k - 1].indices, ReplyAt(replies, k - 1))
  }

  /** Python's stable `sorted` by task index. */
  function Insert(e: Entry, sorted: seq<Entry>): seq<Entry> {
    if sorted == [] || sorted[|sorted| - 1].task <= e.task then sorted + [e]
    else Insert(e, sorted[..|sorted| - 1]) + [sorted[|sorted| - 1]]
  }

  function SortByTask(entries: seq<Entry>): seq<Entry> {
    if entries == [] then [] else Insert(entries[|entries| - 1], SortByTask(entries[..|entries| - 1]))
  }

  predicate Ordered(entries: seq<Entry>) {
    forall i, j | 0 <= i < j < |entries| :: entries[i].task <= entries[j].task
  }

  /** How often the entries report task `x`. */
  function Reports(entries: seq<Entry>, x: nat): nat {
    if entries == [] then 0
    else Reports(entries[..|entries| - 1], x) + (if entries[|entries| - 1].task == x then 1 else 0)
  }

  lemma ReportsSnoc(entries: seq<Entry>, e: Entry, x: nat)
    ensures Reports(entries + [e], x) == Reports(entries, x) + if e.task == x then 1 else 0
  {
    assert (entries + [e])[..|entries|] == entries;
  }

  lemma {:induction false} ReportsConcat(a: seq<Entry>, b: seq<Entry>, x: nat)
    ensures Reports(a + b, x) == Reports(a, x) + Reports(b, x)
    decreases |b|
  {
    if b == [] {
      assert a + b == a;
    } else {
      var init := b[..|b| - 1];
      ReportsConcat(a, init, x);
      assert (a + b)[..|a + b| - 1] == a + init;
    }
  }

  predicate Below(entries: seq<Entry>, m: nat) { forall i | 0 <= i < |entries| :: entries[i].task <= m }

  lemma {:induction false} InsertSorts(e: Entry, sorted: seq<Entry>, m: nat)
    requires Ordered(sorted)
    ensures Ordered(Insert(e, sorted)) && |Insert(e, sorted)| == |sorted| + 1
    ensures Below(sorted, m) && e.task <= m ==> Below(Insert(e, sorted), m)
    decreases |sorted|
  {
    if sorted != [] && sorted[|sorted| - 1].task > e.task {
      var init, last := sorted[..|sorted| - 1], sorted[|sorted| - 1];
      InsertSorts(e, init, m);
      InsertSorts(e, init, last.task);
    }
  }

  lemma {:induction false} InsertReports(e: Entry, sorted: seq<Entry>, x: nat)
    ensures Reports(Insert(e, sorted), x) == Reports(sorted, x) + if e.task == x then 1 else 0
    decreases |sorted|
  {
    if sorted == [] || sorted[|sorted| - 1].task <= e.task {
      ReportsSnoc(sorted, e, x);
    } else {
      var init := sorted[..|sorted| - 1];
      InsertReports(e, init, x);
      ReportsSnoc(Insert(e, init), sorted[|sorted| - 1], x);
    }
  }

  lemma {:induction false} SortSorts(entries: seq<Entry>, x: nat)
    ensures Ordered(SortByTask(entries)) && Reports(SortByTask(entries), x) == Reports(entries, x)
    decreases |entries|
  {
    if entries != [] {
      var init, last := entries[..|entries| - 1], entries[|entries| - 1];
      SortSorts(init, x);
      InsertSorts(last, SortByTask(init), 0);
      InsertReports(last, SortByTask(init), x);
    }
  }

  lemma {:induction false} ReportedSomewhere(entries: seq<Entry>, x: nat)
    ensures Reports(entries, x) > 0 <==> exists i :: 0 <= i < |entries| && entries[i].task == x
    decreases |entries|
  {
    if entries != [] {
      var init := entries[..|entries| - 1];
      ReportedSomewhere(init, x);
      if Reports(entries, x) > 0 && entries[|entries| - 1].task != x {
        var i :| 0 <= i < |init| && init[i].task == x;
        assert entries[i].task == x;
      }
    }
  }

  /** In task order with every task 0..n-1 once: entry i is task i. */
  lemma {:induction false} OrderedOnceIsIota(entries: seq<Entry>, n: nat)
    requires Ordered(entries) && forall x: nat :: Reports(entries, x) == if x < n then 1 else 0
    ensures |entries| == n && forall i | 0 <= i < n :: entries[i].task == i
    decreases n
  {
    if entries != [] {
      ReportedSomewhere(entries, entries[|entries| - 1].task);
    }
    if n > 0 {
      ReportedSomewhere(entries, n - 1);
      var init := entries[..|entries| - 1];
      assert forall x: nat :: Reports(entries, x) == Reports(init, x) + if x == n - 1 then 1 else 0;
      OrderedOnceIsIota(init, n - 1);
    }
  }

  lemma {:induction false} IotaReportsOnce(entries: seq<Entry>, n: nat, x: nat)
    requires |entries| == n && forall i | 0 <= i < n :: entries[i].task == i
    ensures Reports(entries, x) == if x < n then 1 else 0
  {
    if n > 0 {
      IotaReportsOnce(entries[..n - 1], n - 1, x);
    }
  }

  /** The batch's report has one entry for each of its tasks and no other. */
  ghost predicate Complete(indexMap: seq<nat>, reply: Reply)
    requires Mergeable(indexMap, reply)
  {
    forall x: nat :: Reports(BatchEntries(indexMap, reply), x) == Times(indexMap, x)
  }

  lemma {:induction false} InTimes(s: seq<nat>, x: nat)
    ensures Times(s, x) > 0 <==> x in s
    decreases |s|
  {
    if s != [] {
      InTimes(s[..|s| - 1], x);
      assert s == s[..|s| - 1] + [s[|s| - 1]];
    }
  }

  lemma PlacedInBatch(indexMap: seq<nat>, reply: Reply, x: nat)
    requires Mergeable(indexMap, reply) && Reports(BatchEntries(indexMap, reply), x) > 0
    ensures Times(indexMap, x) > 0
  {
    var entries := BatchEntries(indexMap, reply);
    ReportedSomewhere(entries, x);
    var i :| 0 <= i < |entries| && entries[i].task == x;
    if reply.Results? {
      assert entries[i].task == Placed(indexMap, reply.items, i);
      assert !Unplaced(|indexMap|, reply.items, i);
      var j := if 0 <= Local(reply.items, i) < |indexMap| then Local(reply.items, i) else i;
      assert x == indexMap[j];
    } else {
      assert x == indexMap[i];
    }
    InTimes(indexMap, x);
  }

  ghost predicate AllComplete(batches: seq<Batch>, replies: seq<Reply>, k: nat)
    requires k <= |batches| && AllMergeable(batches, replies, k)
  {
    k == 0 || (AllComplete(batches, replies, k - 1) && Complete(batches[k - 1].indices, ReplyAt(replies, k - 1)))
  }

  lemma AllEntriesLast(batches: seq<Batch>, replies: seq<Reply>, k: nat, x: nat)
    requires 0 < k <= |batches| && AllMergeable(batches, replies, k)
    ensures Reports(AllEntries(batches, replies, k), x)
            == Reports(AllEntries(batches, replies, k - 1), x)
               + Reports(BatchEntries(batches[k - 1].indices, ReplyAt(replies, k - 1)), x)
    ensures OwnersUpTo(batches, k, x) == OwnersUpTo(batches, k - 1, x) + Times(batches[k - 1].indices, x)
  {
    ReportsConcat(AllEntries(batches, replies, k - 1), BatchEntries(batches[k - 1].indices, ReplyAt(replies, k - 1)), x);
  }

  lemma {:induction false} OnlyOwnersReport(batches: seq<Batch>, replies: seq<Reply>, k: nat, x: nat)
    requires k <= |batches| && AllMergeable(batches, replies, k)
    ensures Reports(AllEntries(batches, replies, k), x) > 0 ==> OwnersUpTo(batches, k, x) > 0
    decreases k
  {
    if k > 0 {
      OnlyOwnersReport(batches, replies, k - 1, x);
      AllEntriesLast(batches, replies, k, x);
      ReportedIsOwned(batches[k - 1].indices, ReplyAt(replies, k - 1), x);
    }
  }

  lemma ReportedIsOwned(indexMap: seq<nat>, reply: Reply, x: nat)
    requires Mergeable(indexMap, reply)
    ensures Reports(BatchEntries(indexMap, reply), x) > 0 ==> Times(indexMap, x) > 0
  {
    if Reports(BatchEntries(indexMap, reply), x) > 0 {
      PlacedInBatch(indexMap, reply, x);
    }
  }

  lemma {:induction false} CompleteBatchesAddUp(batches: seq<Batch>, replies: seq<Reply>, k: nat, x: nat)
    requires k <= |batches| && AllMergeable(batches, replies, k) && AllComplete(batches, replies, k)
    ensures Reports(AllEntries(batches, replies, k), x) == OwnersUpTo(batches, k, x)
    decreases k
  {
    if k > 0 {
      CompleteBatchesAddUp(batches, replies, k - 1, x);
      AllEntriesLast(batches, replies, k, x);
    }
  }

  ghost predicate AtMostOnce(batches: seq<Batch>, k: nat)
    requires k <= |batches|
  {
    forall x: nat :: OwnersUpTo(batches, k, x) <= 1
  }

  ghost predicate AddsUp(batches: seq<Batch>, replies: seq<Reply>, k: nat)
    requires k <= |batches| && AllMergeable(batches, replies, k)
  {
    forall x: nat :: Reports(AllEntries(batches, replies, k), x) == OwnersUpTo(batches, k, x)
  }

  lemma LastAddsUp(batches: seq<Batch>, replies: seq<Reply>, k: nat)
    requires 0 < k <= |batches| && AllMergeable(batches, replies, k)
    requires AtMostOnce(batches, k) && AddsUp(batches, replies, k)
    ensures Complete(batches[k - 1].indices, ReplyAt(replies, k - 1))
    ensures AtMostOnce(batches, k - 1) && AddsUp(batches, replies, k - 1)
  {
    var m := k - 1;
    var own := BatchEntries(batches[m].indices, ReplyAt(replies, m));
    forall x: nat
      ensures Reports(own, x) == Times(batches[m].indices, x)
      ensures Reports(AllEntries(batches, replies, m), x) == OwnersUpTo(batches, m, x)
      ensures OwnersUpTo(batches, m, x) <= 1
    {
      AllEntriesLast(batches, replies, k, x);
      OnlyOwnersReport(batches, replies, m, x);
      if Reports(own, x) > 0 {
        PlacedInBatch(batches[m].indices, ReplyAt(replies, m), x);
      }
      assert OwnersUpTo(batches, k, x) <= 1;
    }
  }

  lemma {:induction false} AddingUpMeansComplete(batches: seq<Batch>, replies: seq<Reply>, k: nat)
    requires k <= |batches| && AllMergeable(batches, replies, k)
    requires AtMostOnce(batches, k) && AddsUp(batches, replies, k)
    ensures AllComplete(batches, replies, k)
    decreases k
  {
    if k > 0 {
      LastAddsUp(batches, replies, k);
      AddingUpMeansComplete(batches, replies, k - 1);
    }
  }

  predicate OnePerTask(entries: seq<Entry>, n: nat) {
    |entries| == n && forall i | 0 <= i < n :: entries[i].task == i
  }

  /** The merged output is one entry per task, in task order, exactly when
      every batch's report has one entry for each of its tasks. */
  lemma MergeIsExact(n: nat, batches: seq<Batch>, replies: seq<Reply>)
    requires Partition(batches, n) && AllMergeable(batches, replies, |batches|)
    ensures OnePerTask(SortByTask(AllEntries(batches, replies, |batches|)), n)
            <==> AllComplete(batches, replies, |batches|)
  {
    var entries := AllEntries(batches, replies, |batches|);
    var merged := SortByTask(entries);
    SortSorts(entries, 0);
    if AllComplete(batches, replies, |batches|) {
      forall x: nat
        ensures Reports(merged, x) == if x < n then 1 else 0
      {
        CompleteBatchesAddUp(batches, replies, |batches|, x);
        SortSorts(entries, x);
        assert Owners(batches, x) == if x < n then 1 else 0;
      }
      OrderedOnceIsIota(merged, n);
    }
    if OnePerTask(merged, n) {
      ExactAddsUp(n, batches, replies, merged);
      AddingUpMeansComplete(batches, replies, |batches|);
    }
  }

  lemma ExactAddsUp(n: nat, batches: seq<Batch>, replies: seq<Reply>, merged: seq<Entry>)
    requires Partition(batches, n) && AllMergeable(batches, replies, |batches|)
    requires merged == SortByTask(AllEntries(batches, replies, |batches|)) && OnePerTask(merged, n)
    ensures AtMostOnce(batches, |batches|) && AddsUp(batches, replies, |batches|)
  {
    forall x: nat
      ensures Reports(AllEntries(batches, replies, |batches|), x) == OwnersUpTo(batches, |batches|, x) <= 1
    {
      IotaReportsOnce(merged, n, x);
      SortSorts(AllEntries(batches, replies, |batches|), x);
      assert Owners(batches, x) == if x < n then 1 else 0;
    }
  }

  predicate InRange(width: nat, items: seq<Item>) { forall k | 0 <= k < |items| :: 0 <= Local(items, k) < width }

  function Locals(width: nat, items: seq<Item>): seq<nat>
    requires InRange(width, items)
  {
    seq(|items|, k requires 0 <= k < |items| => Local(items, k))
  }

  /** The worker answered once for each of its local tasks, in any order, or failed as a whole. */
  predicate Answers(width: nat, reply: Reply) {
    match reply
    case Results(items) =>
      InRange(width, items) && forall j: nat | j < width :: Times(Locals(width, items), j) == 1
    case Failure(_) => true
    case Raised => false
  }

  predicate Indexes(indexMap: seq<nat>, locals: seq<nat>) {
    forall k | 0 <= k < |locals| :: locals[k] < |indexMap|
  }

  /** How many locals stand for task `x`. */
  function Hits(indexMap: seq<nat>, locals: seq<nat>, x: nat): nat
    requires Indexes(indexMap, locals)
  {
    if locals == [] then 0
    else Hits(indexMap, locals[..|locals| - 1], x) + (if indexMap[locals[|locals| - 1]] == x then 1 else 0)
  }

  function Weight(indexMap: seq<nat>, locals: seq<nat>, x: nat, w: nat): nat
    requires w <= |indexMap|
  {
    if w == 0 then 0
    else Weight(indexMap, locals, x, w - 1) + (if indexMap[w - 1] == x then Times(locals, w - 1) else 0)
  }

  lemma {:induction false} WeightSnoc(indexMap: seq<nat>, locals: seq<nat>, j: nat, x: nat, w: nat)
    requires w <= |indexMap| && j < |indexMap|
    ensures Weight(indexMap, locals + [j], x, w)
            == Weight(indexMap, locals, x, w) + if j < w && indexMap[j] == x then 1 else 0
  {
    if w > 0 {
      WeightSnoc(indexMap, locals, j, x, w - 1);
      TimesSnoc(locals, j, w - 1);
    }
  }

  lemma {:induction false} WeightNone(indexMap: seq<nat>, x: nat, w: nat)
    requires w <= |indexMap|
    ensures Weight(indexMap, [], x, w) == 0
  {
    if w > 0 { WeightNone(indexMap, x, w - 1); }
  }

  /** Counting the hits item by item or index by index gives the same. */
  lemma {:induction false} HitsAreWeight(indexMap: seq<nat>, locals: seq<nat>, x: nat)
    requires Indexes(indexMap, locals)
    ensures Hits(indexMap, locals, x) == Weight(indexMap, locals, x, |indexMap|)
    decreases |locals|
  {
    if locals == [] {
      WeightNone(indexMap, x, |indexMap|);
    } else {
      var init, j := locals[..|locals| - 1], locals[|locals| - 1];
      assert locals == init + [j];
      HitsAreWeight(indexMap, init, x);
      WeightSnoc(indexMap, init, j, x, |indexMap|);
    }
  }

  lemma {:induction false} WeightOfOnce(indexMap: seq<nat>, locals: seq<nat>, x: nat, w: nat)
    requires w <= |indexMap| && forall j: nat | j < |indexMap| :: Times(locals, j) == 1
    ensures Weight(indexMap, locals, x, w) == Times(indexMap[..w], x)
  {
    if w > 0 {
      WeightOfOnce(indexMap, locals, x, w - 1);
      assert indexMap[..w] == indexMap[..w - 1] + [indexMap[w - 1]];
      TimesSnoc(indexMap[..w - 1], indexMap[w - 1], x);
    }
  }

  lemma {:induction false} ReportsAreHits(indexMap: seq<nat>, locals: seq<nat>, entries: seq<Entry>, x: nat)
    requires Indexes(indexMap, locals) && |entries| == |locals|
    requires forall k | 0 <= k < |entries| :: entries[k].task == indexMap[locals[k]]
    ensures Reports(entries, x) == Hits(indexMap, locals, x)
    decreases |entries|
  {
    if entries != [] {
      ReportsAreHits(indexMap, locals[..|locals| - 1], entries[..|entries| - 1], x);
    }
  }

  lemma {:induction false} FailureReportsAll(indexMap: seq<nat>, entries: seq<Entry>, x: nat)
    requires |entries| == |indexMap| && forall k | 0 <= k < |entries| :: entries[k].task == indexMap[k]
    ensures Reports(entries, x) == Times(indexMap, x)
    decreases |entries|
  {
    if entries != [] {
      FailureReportsAll(indexMap[..|indexMap| - 1], entries[..|entries| - 1], x);
    }
  }

  /** A permutation of the local indices, or a failure of the whole call, is complete. */
  lemma AnswersAreComplete(indexMap: seq<nat>, reply: Reply)
    requires Answers(|indexMap|, reply)
    ensures Mergeable(indexMap, reply) && Complete(indexMap, reply)
  {
    AnswersAreMergeable(indexMap, reply);
    forall x: nat ensures Reports(BatchEntries(indexMap, reply), x) == Times(indexMap, x) {
      if reply.Results? {
        AnswersReportOnce(indexMap, reply.items, BatchEntries(indexMap, reply), x);
      } else {
        FailureReportsAll(indexMap, BatchEntries(indexMap, reply), x);
      }
    }
  }

  lemma AnswersAreMergeable(indexMap: seq<nat>, reply: Reply)
    requires Answers(|indexMap|, reply)
    ensures Mergeable(indexMap, reply)
  {
    if reply.Results? {
      forall k | 0 <= k < |reply.items| ensures !Unplaced(|indexMap|, reply.items, k) {
        assert 0 <= Local(reply.items, k) < |indexMap|;
      }
    }
  }

  lemma AnswersReportOnce(indexMap: seq<nat>, items: seq<Item>, entries: seq<Entry>, x: nat)
    requires Answers(|indexMap|, Results(items)) && |entries| == |items|
    requires forall k | 0 <= k < |items| ::
      !Unplaced(|indexMap|, items, k) && entries[k].task == Placed(indexMap, items, k)
    ensures Reports(entries, x) == Times(indexMap, x)
  {
    var locals := Locals(|indexMap|, items);
    forall k | 0 <= k < |entries| ensures entries[k].task == indexMap[locals[k]] {
      assert !Unplaced(|indexMap|, items, k) && 0 <= Local(items, k) < |indexMap|;
    }
    ReportsAreHits(indexMap, locals, entries, x);
    HitsAreWeight(indexMap, locals, x);
    WeightOfOnce(indexMap, locals, x, |indexMap|);
    assert indexMap[..|indexMap|] == indexMap;
  }

  predicate CallsBatch(c: Call, b: Batch, own: Settings, parse: string -> Parsing) {
    c.Call? && c.indices == b.indices && c.settings == Effective(own, b.decision, parse) && Applies(b.decision, parse)
  }

  /** The calls made so far ran the batches in order, each under its own settings. */
  predicate Followed(calls: seq<Call>, batches: seq<Batch>, own: Settings, parse: string -> Parsing) {
    |calls| <= |batches| && forall k | 0 <= k < |calls| :: CallsBatch(calls[k], batches[k], own, parse)
  }

  /** Progress of each call was relayed with its batch's task indices. */
  predicate Relayed(calls: seq<Call>, batches: seq<Batch>) {
    |calls| <= |batches| && forall k | 0 <= k < |calls| :: calls[k].relay == Some(batches[k].indices)
  }

  /** One more wave. */
  lemma FollowedNext(before: seq<Call>, calls: seq<Call>, batches: seq<Batch>, own: Settings, parse: string -> Parsing)
    requires |before| < |batches| && Followed(before, batches, own, parse) && Relayed(before, batches)
    requires Applies(batches[|before|].decision, parse)
    requires var b := batches[|before|];
      calls == before + [Call(Effective(own, b.decision, parse), b.indices, Some(b.indices))]
    ensures Followed(calls, batches, own, parse) && Relayed(calls, batches)
  {
  }

  /** How running the batches ends, and what is reported then. */
  predicate Outcome(r: Report, calls: seq<Call>, batches: seq<Batch>, parse: string -> Parsing, replies: seq<Reply>) {
    match r
    case Direct(reply) => |calls| == |batches| == 1 && reply == ReplyAt(replies, 0)
    case Merged(entries) =>
      && |calls| == |batches| && Relayed(calls, batches) && AllMergeable(batches, replies, |batches|)
      && entries == SortByTask(AllEntries(batches, replies, |batches|))
    case Propagated =>
      && 0 < |calls| <= |batches| && AllMergeable(batches, replies, |calls| - 1)
      && !Mergeable(batches[|calls| - 1].indices, ReplyAt(replies, |calls| - 1))
    case NotApplied =>
      && |calls| < |batches| && AllMergeable(batches, replies, |calls|)
      && !Applies(batches[|calls|].decision, parse)
    case TooDeep | TooMany | Unresolved => false
  }

  /** The tasks were partitioned into batches of one key each, the calls ran these in
      order, each under its own settings, and the report is what came of it. */
  ghost predicate Ran(r: Report, calls: seq<Call>, batches: seq<Batch>, n: nat, slots: nat,
                      decisions: seq<Option<Decision>>, own: Settings, parse: string -> Parsing, replies: seq<Reply>)
  {
    && Partition(batches, n) && (forall b <- batches :: GoodBatch(b, n, slots, decisions, own.model))
    && Arranged(batches, n, slots, decisions, own.model)
    && Followed(calls, batches, own, parse) && Outcome(r, calls, batches, parse, replies)
    && (r.Direct? ==> batches[0].indices == Iota(n))
  }

  /** The settings the agent is left with: its own, unless a decision was half applied. */
  function Left(r: Report, calls: seq<Call>, batches: seq<Batch>, own: Settings): Settings {
    if r.NotApplied? && |calls| < |batches| then HalfApplied(own, batches[|calls|].decision) else own
  }

  /** The parent agent, with a log of the delegate calls made on it. */
  class Agent {
    var model: string
    var reasoning: string
    var relay: Option<seq<nat>>   // the progress callback: None is the agent's own
    ghost var calls: seq<Call>

    constructor (model: string, reasoning: string)
      ensures this.model == model && this.reasoning == reasoning && relay == None && calls == []
    {
      this.model, this.reasoning, relay, calls := model, reasoning, None, [];
    }

    function Own(): Settings
      reads this
    {
      Settings(model, reasoning)
    }

    /** The settings the decision asks for hold during the call only.  A decision that
        raises while it is applied ends the batch before the call, half applied. */
    method RunBatch(decision: Option<Decision>, indices: seq<nat>, parse: string -> Parsing) returns (applied: bool)
      modifies this
      ensures applied == Applies(decision, parse) && relay == old(relay)
      ensures applied ==>
        && Own() == old(Own())
        && calls == old(calls) + [Call(Effective(old(Own()), decision, parse), indices, relay)]
      ensures !applied ==> Own() == HalfApplied(old(Own()), decision) && calls == old(calls)
    {
      var originalModel, originalReasoning := model, reasoning;
      if decision.Some? {
        if decision.value.model != "" { model := decision.value.model; }
        if decision.value.reasoning != "" {
          var parsed := parse(decision.value.reasoning);
          if parsed.Raises? { return false; }
          if parsed.Parsed? { reasoning := parsed.value; }
        }
      }
      calls := calls + [Call(Settings(model, reasoning), indices, relay)];
      model, reasoning := originalModel, originalReasoning;
      return true;
    }

    /** The entries of one batch, in the order the worker listed them. */
    method MergeBatch(indexMap: seq<nat>, reply: Reply, combined: seq<Entry>)
      returns (r: Option<seq<Entry>>)
      requires !reply.Raised?
      ensures r.Some? <==> Mergeable(indexMap, reply)
      ensures r.Some? ==> r.value == combined + BatchEntries(indexMap, reply)
    {
      var entries: seq<Entry> := [];
      match reply {
        case Results(items) =>
          for k := 0 to |items|
            invariant forall j | 0 <= j < k :: !Unplaced(|indexMap|, items, j)
            invariant |entries| == k
            invariant forall j | 0 <= j < k :: entries[j] == Entry(Placed(indexMap, items, j), items[j].payload)
          {
            if items[k].reported.Unreadable? {
              assert Unplaced(|indexMap|, items, k);
              return None;
            }
            var reported := if items[k].reported.Index? then items[k].reported.value else k;
            if 0 <= reported < |indexMap| {
              entries := entries + [Entry(indexMap[reported], items[k].payload)];
            } else if k < |indexMap| {
              entries := entries + [Entry(indexMap[k], items[k].payload)];
            } else {
              assert Unplaced(|indexMap|, items, k);
              return None;
            }
          }
        case Failure(error) =>
          for k := 0 to |indexMap|
            invariant |entries| == k && forall j | 0 <= j < k :: entries[j] == Entry(indexMap[j], error)
          {
            entries := entries + [Entry(indexMap[k], error)];
          }
      }
      assert entries == BatchEntries(indexMap, reply);
      return Some(combined + entries);
    }

    /** One wave: the relay is in place during the call, the agent's own after it. */
    method RunWave(batch: Batch, raw: Reply, parse: string -> Parsing, combined: seq<Entry>)
      returns (applied: bool, merged: Option<seq<Entry>>)
      requires relay == None
      modifies this
      ensures applied == Applies(batch.decision, parse) && relay == None
      ensures applied ==>
        && Own() == old(Own())
        && calls == old(calls) + [Call(Effective(old(Own()), batch.decision, parse), batch.indices, Some(batch.indices))]
        && (merged.Some? <==> Mergeable(batch.indices, raw))
        && (merged.Some? ==> merged.value == combined + BatchEntries(batch.indices, raw))
      ensures !applied ==> Own() == HalfApplied(old(Own()), batch.decision) && calls == old(calls)
    {
      relay, merged := Some(batch.indices), None;
      applied := RunBatch(batch.decision, batch.indices, parse);
      relay := None;
      if !applied || raw.Raised? { return; }
      merged := MergeBatch(batch.indices, raw, combined);
    }

    /** Batches the tasks, runs them and merges; `replies[k]` is what the k-th
        delegate call returns. */
    method RunBatches(n: nat, slots: nat, decisions: seq<Option<Decision>>,
                      parse: string -> Parsing, replies: seq<Reply>)
      returns (r: Report, batches: seq<Batch>)
      requires slots >= 1 && relay == None && calls == []
      modifies this
      ensures relay == None
      ensures Ran(r, calls, batches, n, slots, decisions, old(Own()), parse, replies)
      ensures Own() == Left(r, calls, batches, old(Own()))
    {
      batches := Split(n, slots, decisions, model);
      if |batches| == 1 && batches[0].indices == Iota(n) {
        var applied := RunBatch(batches[0].decision, batches[0].indices, parse);
        r := if applied then Direct(ReplyAt(replies, 0)) else NotApplied;
        return;
      }
      r := RunWaves(batches, parse, replies);
    }

    method RunWaves(batches: seq<Batch>, parse: string -> Parsing, replies: seq<Reply>) returns (r: Report)
      requires relay == None && calls == []
      modifies this
      ensures relay == None && !r.Direct?
      ensures Followed(calls, batches, old(Own()), parse) && Outcome(r, calls, batches, parse, replies)
      ensures Own() == Left(r, calls, batches, old(Own()))
    {
      hide Applies, Effective, HalfApplied, Mergeable, BatchEntries, SortByTask;
      ghost var own := Own();
      var combined: seq<Entry> := [];
      for k := 0 to |batches|
        invariant Own() == own && relay == None
        invariant |calls| == k && Followed(calls, batches, own, parse) && Relayed(calls, batches)
        invariant AllMergeable(batches, replies, k) && combined == AllEntries(batches, replies, k)
      {
        ghost var before := calls;
        var applied, merged := RunWave(batches[k], ReplyAt(replies, k), parse, combined);
        if !applied { return NotApplied; }
        FollowedNext(before, calls, batches, own, parse);
        if merged.None? { return Propagated; }
        combined := merged.value;
      }
      r := Merged(SortByTask(combined));
    }

    /** The delegate tool.  `pinned`: the configuration fixes the workers' model.
        `resolved` holds the decisions, or is None if the event loop takes no call. */
    method Dispatch(request: Request, tooDeep: bool, slots: nat, smartRoute: bool, pinned: bool,
                    resolved: Option<seq<Option<Decision>>>, parse: string -> Parsing, replies: seq<Reply>)
      returns (r: Report)
      requires slots >= 1 && relay == None && calls == []
      modifies this
      ensures relay == None
      ensures
        var n := if request.Tasks? then request.n else 1;
        var decisions := if smartRoute && !pinned && resolved.Some? then resolved.value else [];
        if tooDeep then r == TooDeep && calls == [] && Own() == old(Own())
        else if request.Single? && (!smartRoute || request.blank) then
          r == Direct(ReplyAt(replies, 0)) && calls == [AsItCame(old(Own()), None)] && Own() == old(Own())
        else if n == 0 || (!smartRoute && n <= slots && request.Tasks?) then
          r == Direct(ReplyAt(replies, 0)) && calls == [Call(old(Own()), Iota(n), None)] && Own() == old(Own())
        else if n > MAX_BATCH_TASKS then r == TooMany && calls == [] && Own() == old(Own())
        else if smartRoute && !pinned && resolved.None? then r == Unresolved && calls == [] && Own() == old(Own())
        else exists batches ::
          && Ran(r, calls, batches, n, slots, decisions, old(Own()), parse, replies)
          && Own() == Left(r, calls, batches, old(Own()))
    {
      if tooDeep { return TooDeep; }
      var n := 1;
      if request.Tasks? {
        n := request.n;
      } else if !smartRoute || request.blank {
        calls := calls + [AsItCame(Own(), relay)];
        return Direct(ReplyAt(replies, 0));
      }
      if (!smartRoute && n <= slots) || n == 0 {
        var applied := RunBatch(None, Iota(n), parse);
        return Direct(ReplyAt(replies, 0));
      }
      if n > MAX_BATCH_TASKS { return TooMany; }
      var decisions := [];
      if smartRoute && !pinned {
        if resolved.None? { return Unresolved; }
        decisions := resolved.value;
      }
      var batches;
      r, batches := RunBatches(n, slots, decisions, parse, replies);
    }
  }

  /** Sharing a batch never changes the settings a task runs under: each runs
      under its own decision's, even when the batch was made for another's. */
  lemma EachTaskKeepsItsDecision(c: Call, b: Batch, n: nat, slots: nat, decisions: seq<Option<Decision>>,
                                 own: Settings, parse: string -> Parsing, i: nat)
    requires GoodBatch(b, n, slots, decisions, own.model) && CallsBatch(c, b, own, parse) && i in c.indices
    ensures c.settings == Effective(own, DecisionAt(decisions, i), parse)
  {
    SameKeySameSettings(own, b.decision, DecisionAt(decisions, i), parse);
  }

  // Which task gets which answer.

  /** What the entries say of task `x`, in order. */
  function Said(entries: seq<Entry>, x: nat): seq<string> {
    if entries == [] then []
    else
      var last := entries[|entries| - 1];
      Said(entries[..|entries| - 1], x) + if last.task == x then [last.payload] else []
  }

  lemma SaidSnoc(entries: seq<Entry>, e: Entry, x: nat)
    ensures Said(entries + [e], x) == Said(entries, x) + if e.task == x then [e.payload] else []
  {
    assert (entries + [e])[..|entries|] == entries;
  }

  lemma {:induction false} NothingSaidAbove(entries: seq<Entry>, m: nat, x: nat)
    requires Below(entries, m) && m < x
    ensures Said(entries, x) == []
    decreases |entries|
  {
    if entries != [] {
      NothingSaidAbove(entries[..|entries| - 1], m, x);
    }
  }

  lemma {:induction false} InsertSays(e: Entry, sorted: seq<Entry>, x: nat)
    ensures Said(Insert(e, sorted), x) == Said(sorted + [e], x)
    ensures multiset(Insert(e, sorted)) == multiset(sorted) + multiset{e}
    decreases |sorted|
  {
    if sorted != [] && sorted[|sorted| - 1].task > e.task {
      var (init, last) := (sorted[..|sorted| - 1], sorted[|sorted| - 1]);
      assert sorted == init + [last];
      InsertSays(e, init, x);
      SaidSnoc(Insert(e, init), last, x);
      SaidSnoc(init, e, x);
      SaidSnoc(init, last, x);
      SaidSnoc(sorted, e, x);
    }
  }

  /** Sorting loses and invents no entry, and keeps the order of those of one task. */
  lemma {:induction false} SortIsStable(entries: seq<Entry>, x: nat)
    ensures multiset(SortByTask(entries)) == multiset(entries)
    ensures Said(SortByTask(entries), x) == Said(entries, x)
    decreases |entries|
  {
    if entries != [] {
      var (init, last) := (entries[..|entries| - 1], entries[|entries| - 1]);
      assert entries == init + [last];
      SortIsStable(init, x);
      InsertSays(last, SortByTask(init), x);
      SaidSnoc(SortByTask(init), last, x);
    }
  }

  /** The item goes to the task at the local index it names, if there is one, and else to
      the task at its own position. */
  predicate GoesTo(indexMap: seq<nat>, item: Item, k: nat, task: nat) {
    if item.reported.Index? && 0 <= item.reported.value < |indexMap| then task == indexMap[item.reported.value]
    else !item.reported.Unreadable? && k < |indexMap| && task == indexMap[k]
  }

  ghost predicate BelongsSomewhere(indexMap: seq<nat>, item: Item, k: nat) {
    exists task :: GoesTo(indexMap, item, k, task)
  }

  /** Every item's payload goes where the item belongs, and the merge raises exactly if one
      belongs nowhere; a batch that failed says its error of every task. */
  lemma EntriesFollowTheReply(indexMap: seq<nat>, reply: Reply, k: nat)
    ensures reply.Results? ==> (Mergeable(indexMap, reply) <==>
      forall i | 0 <= i < |reply.items| :: BelongsSomewhere(indexMap, reply.items[i], i))
    ensures !reply.Results? ==> (Mergeable(indexMap, reply) <==> reply.Failure?)
    ensures Mergeable(indexMap, reply) ==>
      var entries := BatchEntries(indexMap, reply);
      match reply
      case Results(items) =>
        && |entries| == |items|
        && (k < |items| ==> entries[k].payload == items[k].payload && GoesTo(indexMap, items[k], k, entries[k].task))
      case Failure(error) => |entries| == |indexMap| && (k < |indexMap| ==> entries[k] == Entry(indexMap[k], error))
      case Raised => true
  {
    if reply.Results? {
      var items := reply.items;
      forall i | 0 <= i < |items|
        ensures !Unplaced(|indexMap|, items, i) <==> BelongsSomewhere(indexMap, items[i], i)
      {
        if !Unplaced(|indexMap|, items, i) {
          assert GoesTo(indexMap, items[i], i, Placed(indexMap, items, i));
        }
      }
      assert Mergeable(indexMap, reply) && k < |reply.items| ==> !Unplaced(|indexMap|, reply.items, k);
    }
  }

  /** `e` is what this batch's worker reports of the task at local index `j`. */
  predicate AnswersFor(indexMap: seq<nat>, reply: Reply, j: nat, e: Entry)
    requires j < |indexMap|
  {
    match reply
    case Results(items) =>
      exists k | 0 <= k < |items| :: Local(items, k) == j && e == Entry(indexMap[j], items[k].payload)
    case Failure(error) => e == Entry(indexMap[j], error)
    case Raised => false
  }

  lemma AnswerIsAmongTheEntries(indexMap: seq<nat>, reply: Reply, j: nat, e: Entry)
    requires Mergeable(indexMap, reply) && j < |indexMap| && AnswersFor(indexMap, reply, j, e)
    ensures e in BatchEntries(indexMap, reply)
  {
    var entries := BatchEntries(indexMap, reply);
    if reply.Results? {
      var k :| 0 <= k < |reply.items| && Local(reply.items, k) == j && e == Entry(indexMap[j], reply.items[k].payload);
      EntriesFollowTheReply(indexMap, reply, k);
      assert !Unplaced(|indexMap|, reply.items, k) && entries[k] == e;
    } else {
      EntriesFollowTheReply(indexMap, reply, j);
      assert entries[j] == e;
    }
  }

  lemma {:induction false} BatchIsAmongAll(batches: seq<Batch>, replies: seq<Reply>, k: nat, m: nat, e: Entry)
    requires m < k <= |batches| && AllMergeable(batches, replies, k)
    requires Mergeable(batches[m].indices, ReplyAt(replies, m)) && e in BatchEntries(batches[m].indices, ReplyAt(replies, m))
    ensures e in AllEntries(batches, replies, k)
    decreases k
  {
    if m < k - 1 {
      BatchIsAmongAll(batches, replies, k - 1, m, e);
    }
  }

  predicate AllAnswer(batches: seq<Batch>, replies: seq<Reply>, k: nat)
    requires k <= |batches|
  {
    k == 0 || (AllAnswer(batches, replies, k - 1) && Answers(|batches[k - 1].indices|, ReplyAt(replies, k - 1)))
  }

  /** Workers that answer each of their tasks once, in any order, or fail as a
      whole, give a merged report of one entry per task in task order. */
  lemma AnsweredTasksMergeExactly(n: nat, batches: seq<Batch>, replies: seq<Reply>)
    requires Partition(batches, n) && AllAnswer(batches, replies, |batches|)
    ensures AllMergeable(batches, replies, |batches|)
    ensures OnePerTask(SortByTask(AllEntries(batches, replies, |batches|)), n)
  {
    AnswersCompleteAll(batches, replies, |batches|);
    MergeIsExact(n, batches, replies);
  }

  /** And entry by entry: task `x` gets what its own worker reported of it. */
  lemma EachTaskGetsItsOwnAnswer(n: nat, batches: seq<Batch>, replies: seq<Reply>, m: nat, j: nat, e: Entry)
    requires Partition(batches, n) && AllAnswer(batches, replies, |batches|)
    requires m < |batches| && j < |batches[m].indices| && AnswersFor(batches[m].indices, ReplyAt(replies, m), j, e)
    ensures AllMergeable(batches, replies, |batches|)
    ensures var merged := SortByTask(AllEntries(batches, replies, |batches|));
      |merged| == n && e.task == batches[m].indices[j] < n && merged[e.task] == e
  {
    AnsweredTasksMergeExactly(n, batches, replies);
    var all := AllEntries(batches, replies, |batches|);
    OneMergeable(batches, replies, |batches|, m);
    AnswerIsAmongTheEntries(batches[m].indices, ReplyAt(replies, m), j, e);
    BatchIsAmongAll(batches, replies, |batches|, m, e);
    SortIsStable(all, 0);
    assert e in multiset(all);
    assert e in multiset(SortByTask(all));
  }

  lemma {:induction false} OneMergeable(batches: seq<Batch>, replies: seq<Reply>, k: nat, m: nat)
    requires m < k <= |batches| && AllMergeable(batches, replies, k)
    ensures Mergeable(batches[m].indices, ReplyAt(replies, m))
    decreases k
  {
    if m < k - 1 {
      OneMergeable(batches, replies, k - 1, m);
    }
  }

  lemma {:induction false} AnswersCompleteAll(batches: seq<Batch>, replies: seq<Reply>, k: nat)
    requires k <= |batches| && AllAnswer(batches, replies, k)
    ensures AllMergeable(batches, replies, k) && AllComplete(batches, replies, k)
    decreases k
  {
    if k > 0 {
      AnswersCompleteAll(batches, replies, k - 1);
      AnswersAreComplete(batches[k - 1].indices, ReplyAt(replies, k - 1));
    }
  }
}
