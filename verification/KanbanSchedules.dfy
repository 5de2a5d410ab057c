/** Recurring task schedules: racing, crashing dispatcher ticks that read a due
    row, create its occurrence task under an idempotency key, and then move the
    row on by compare-and-swap.  Each database transaction is one step. */
module KanbanSchedules {
  import opened Wrappers

  const MIN_INTERVAL := 60

  datatype Recurrence = Once | Interval

  /** The scheduled task itself; Released stands for every status but the named ones. */
  datatype Status = Scheduled | Released | Archived | Absent

  datatype Row = Row(recurrence: Recurrence, next: Option<int>, interval: int, enabled: bool, count: nat)

  predicate Due(r: Row, now: int) { r.enabled && r.next.Some? && r.next.value <= now }

  // The grid of a repeating schedule.

  /** The first of `x`, `x + interval`, ... that lies after `now`. */
  function Next(x: int, interval: int, now: int): (n: int)
    requires interval >= MIN_INTERVAL
    decreases now - x
  {
    if x > now then x else Next(x + interval, interval, now)
  }

  ghost predicate OnGrid(slot: int, interval: int, x: int) { exists k: nat :: k > 0 && x == slot + k * interval }

  /** The new due time is the least grid point after `now`. */
  lemma NextIsLeast(slot: int, interval: int, now: int)
    requires interval >= MIN_INTERVAL
    ensures var n := Next(slot + interval, interval, now);
      n > now && OnGrid(slot, interval, n) && forall x | OnGrid(slot, interval, x) && x > now :: n <= x
  {
    assert slot + interval == slot + 1 * interval;
    NextFrom(slot, interval, now, 1);
    var n := Next(slot + interval, interval, now);
    forall x | OnGrid(slot, interval, x) && x > now ensures n <= x {
      var k: nat :| k > 0 && x == slot + k * interval;
      NextIsFirst(slot, interval, now, 1, k);
    }
  }

  lemma {:induction false} NextFrom(slot: int, interval: int, now: int, k: nat)
    requires interval >= MIN_INTERVAL && k > 0
    ensures Next(slot + k * interval, interval, now) > now
    ensures OnGrid(slot, interval, Next(slot + k * interval, interval, now))
    decreases now - (slot + k * interval)
  {
    if slot + k * interval <= now {
      assert slot + (k + 1) * interval == slot + k * interval + interval;
      NextFrom(slot, interval, now, k + 1);
    }
  }

  lemma {:induction false} NextIsFirst(slot: int, interval: int, now: int, j: nat, k: nat)
    requires interval >= MIN_INTERVAL && slot + k * interval > now && j <= k
    ensures Next(slot + j * interval, interval, now) <= slot + k * interval
    decreases k - j
  {
    if j < k && slot + j * interval <= now {
      assert slot + (j + 1) * interval == slot + j * interval + interval;
      NextIsFirst(slot, interval, now, j + 1, k);
    } else if j < k {
      assert k * interval == j * interval + (k - j) * interval;
    }
  }

  /** The catch-up loop. */
  method CatchUp(slot: int, interval: int, now: int) returns (next: int)
    requires interval >= MIN_INTERVAL
    ensures next > now && next == Next(slot + interval, interval, now)
  {
    next := slot + interval;
    while next <= now
      invariant Next(next, interval, now) == Next(slot + interval, interval, now)
      decreases now - next
    {
      next := next + interval;
    }
  }

  // One schedule under any number of dispatcher ticks.

  /** Where one tick stands with the row it read. */
  datatype Tick =
    | Idle
    | Seen(recurrence: Recurrence, slot: int, interval: int, now: int)
    | Retiring(slot: int)
    | Unblocking(slot: int)
    | Unblocked(slot: int)
    | Making(slot: int, interval: int, now: int)
    | Made(slot: int, interval: int, now: int, task: nat)

  /** A successful swap; a one-shot schedule releases its own task. */
  datatype Firing = Firing(slot: int, task: Option<nat>)

  /** `made` holds the occurrence of each idempotency key, `minted` counts the
      tasks created, `fired` lists the successful swaps. */
  datatype World = World(
    time: int, row: Row, status: Status, ticks: map<nat, Tick>,
    made: map<int, nat>, minted: nat, fired: seq<Firing>)

  /** A put and a run-now read the clock (`asked`, `now`) before they write, and so
      does a tick before its query. */
  datatype Step =
    | Wait(seconds: nat) | Change(status: Status) | Toggle(enabled: bool)
    | Put(recurrence: Recurrence, next: int, interval: int, allowElapsed: bool, asked: int)
    | RunNow(now: int)
    | Observe(tick: nat, now: int) | Look(tick: nat) | Unblock(tick: nat, refused: bool)
    | Make(tick: nat) | Swap(tick: nat) | Stop(tick: nat)

  function At(w: World, i: nat): Tick { if i in w.ticks then w.ticks[i] else Idle }

  predicate Enabled(w: World, s: Step) {
    match s
    case Wait(_) | Change(_) | Toggle(_) | Stop(_) => true
    case Put(recurrence, next, interval, allowElapsed, asked) =>
      && asked <= w.time && (allowElapsed || next > asked) && (recurrence == Interval ==> interval >= MIN_INTERVAL)
      && w.status != Absent
    case RunNow(now) =>
      && now <= w.time
      && w.status != Absent && w.status != Archived && (w.row.recurrence == Once ==> w.status == Scheduled)
    case Observe(i, now) => now <= w.time && At(w, i).Idle? && Due(w.row, now)
    case Look(i) => At(w, i).Seen?
    case Unblock(i, _) => At(w, i).Unblocking?
    case Make(i) => At(w, i).Making?
    case Swap(i) => At(w, i).Retiring? || At(w, i).Unblocked? || At(w, i).Made?
  }

  function LookAt(t: Tick, status: Status): Tick
    requires t.Seen?
  {
    if status == Absent || status == Archived then Retiring(t.slot)
    else if t.recurrence == Once then if status == Scheduled then Unblocking(t.slot) else Unblocked(t.slot)
    else if t.interval < MIN_INTERVAL || status != Scheduled then Idle
    else Making(t.slot, t.interval, t.now)
  }

  function Occurrence(w: World, slot: int): nat { if slot in w.made then w.made[slot] else w.minted }

  /** UPDATE ... WHERE next_run_at = slot. */
  function SwapRow(r: Row, t: Tick): Row
    requires t.Retiring? || t.Unblocked? || (t.Made? && t.interval >= MIN_INTERVAL)
  {
    if r.next != Some(t.slot) then r
    else match t
      case Retiring(_) => r.(enabled := false, next := None)
      case Unblocked(_) => r.(enabled := false, next := None, count := r.count + 1)
      case Made(slot, interval, now, _) => r.(next := Some(Next(slot + interval, interval, now)), count := r.count + 1)
  }

  predicate Sound(w: World, i: nat) {
    match At(w, i)
    case Idle => true
    case Seen(_, slot, _, now) => slot <= now <= w.time
    case Retiring(_) | Unblocking(_) | Unblocked(_) => At(w, i).slot <= w.time
    case Making(slot, interval, now) => slot <= now <= w.time && interval >= MIN_INTERVAL
    case Made(slot, interval, now, task) =>
      slot <= now <= w.time && interval >= MIN_INTERVAL && slot in w.made && w.made[slot] == task
  }

  function Apply(w: World, s: Step): World
    requires Enabled(w, s) && (s.Swap? ==> Sound(w, s.tick))
  {
    match s
    case Wait(seconds) => w.(time := w.time + seconds)
    case Change(status) => w.(status := status)
    case Toggle(enabled) => w.(row := w.row.(enabled := enabled))
    case Put(recurrence, next, interval, _, _) =>
      w.(row := Row(recurrence, Some(next), interval, true, w.row.count))
    case RunNow(now) => w.(row := w.row.(enabled := true, next := Some(now)))
    case Observe(i, now) =>
      w.(ticks := w.ticks[i := Seen(w.row.recurrence, w.row.next.value, w.row.interval, now)])
    case Look(i) => w.(ticks := w.ticks[i := LookAt(At(w, i), w.status)])
    case Unblock(i, refused) =>
      if w.status == Scheduled && !refused then w.(status := Released, ticks := w.ticks[i := Unblocked(At(w, i).slot)])
      else w.(ticks := w.ticks[i := Idle])
    case Make(i) =>
      var t := At(w, i);
      w.(made := w.made[t.slot := Occurrence(w, t.slot)],
         minted := if t.slot in w.made then w.minted else w.minted + 1,
         ticks := w.ticks[i := Made(t.slot, t.interval, t.now, Occurrence(w, t.slot))])
    case Swap(i) =>
      var t := At(w, i);
      w.(row := SwapRow(w.row, t), ticks := w.ticks[i := Idle],
         fired := if t.Retiring? || w.row.next != Some(t.slot) then w.fired
                  else w.fired + [Firing(t.slot, if t.Made? then Some(t.task) else None)])
    case Stop(i) => w.(ticks := w.ticks[i := Idle])
  }

  // What every run keeps.

  /** Occurrences are numbered by creation, one for each slot. */
  ghost predicate MadeOnce(w: World) {
    && |w.made| == w.minted
    && (forall s | s in w.made :: w.made[s] < w.minted)
    && (forall s, t | s in w.made && t in w.made && w.made[s] == w.made[t] :: s == t)
  }

  predicate FiringSound(w: World, f: Firing) {
    f.slot <= w.time && (f.task.Some? ==> f.slot in w.made && w.made[f.slot] == f.task.value)
  }

  ghost predicate Safe(w: World) {
    && MadeOnce(w)
    && (forall i :: Sound(w, i))
    && (forall k | 0 <= k < |w.fired| :: FiringSound(w, w.fired[k]))
    && w.row.count == |w.fired|
  }

  lemma StepKeepsSafe(w: World, s: Step)
    requires Safe(w) && Enabled(w, s)
    ensures Safe(Apply(w, s))
    ensures forall slot | slot in w.made :: slot in Apply(w, s).made && Apply(w, s).made[slot] == w.made[slot]
  {
    var v := Apply(w, s);
    StepKeepsMade(w, s);
    forall i ensures Sound(v, i) {
      StepKeepsSound(w, s, i);
    }
    forall k | 0 <= k < |v.fired| ensures FiringSound(v, v.fired[k]) {
      if k < |w.fired| {
        assert FiringSound(w, w.fired[k]);
      } else {
        assert Sound(w, s.tick);
      }
    }
  }

  lemma StepKeepsMade(w: World, s: Step)
    requires MadeOnce(w) && Enabled(w, s) && (s.Swap? ==> Sound(w, s.tick))
    ensures MadeOnce(Apply(w, s))
    ensures forall slot | slot in w.made :: slot in Apply(w, s).made && Apply(w, s).made[slot] == w.made[slot]
    ensures w.time <= Apply(w, s).time
  {
    if s.Make? && At(w, s.tick).slot !in w.made {
      assert Apply(w, s).made.Keys == w.made.Keys + {At(w, s.tick).slot};
    }
  }

  lemma StepKeepsSound(w: World, s: Step, i: nat)
    requires Enabled(w, s) && Sound(w, i) && (s.Swap? ==> Sound(w, s.tick))
    requires s.Look? || s.Unblock? || s.Make? ==> Sound(w, s.tick)
    ensures Sound(Apply(w, s), i)
  {
  }

  function Initial(time: int, recurrence: Recurrence, next: int, interval: int): World {
    World(time, Row(recurrence, Some(next), interval, true, 0), Scheduled, map[], map[], 0, [])
  }

  /** Every fired slot lies below the armed one, and the slots ascend. */
  ghost predicate Ordered(w: World) {
    && (forall j, k | 0 <= j < k < |w.fired| :: w.fired[j].slot < w.fired[k].slot)
    && (w.row.next.Some? ==> forall k | 0 <= k < |w.fired| :: w.fired[k].slot < w.row.next.value)
  }

  /** What a caller must check before it rearms a schedule: no slot from `next` on has fired. */
  predicate Fresh(w: World, next: int) { forall k | 0 <= k < |w.fired| :: w.fired[k].slot < next }

  predicate ArmsFresh(w: World, s: Step) {
    match s
    case RunNow(now) => Fresh(w, now)
    case Put(_, next, _, _, _) => Fresh(w, next)
    case _ => true
  }

  /** A time still in the future when it is written is always fresh. */
  lemma FutureIsFresh(w: World, next: int)
    requires Safe(w) && next > w.time
    ensures Fresh(w, next)
  {
    forall k | 0 <= k < |w.fired| ensures w.fired[k].slot < next {
      assert FiringSound(w, w.fired[k]);
    }
  }

  lemma StepKeepsOrdered(w: World, s: Step)
    requires Safe(w) && Ordered(w) && Enabled(w, s) && ArmsFresh(w, s)
    ensures Ordered(Apply(w, s))
  {
    match s
    case Swap(i) =>
      assert Sound(w, i);
      var t := At(w, i);
      if t.Made? {
        NextIsLeast(t.slot, t.interval, t.now);
      }
    case _ =>
  }

  ghost predicate Legal(w: World, run: seq<Step>)
    requires Safe(w)
    decreases |run|
  {
    run == [] ||
    (Enabled(w, run[0]) && (StepKeepsSafe(w, run[0]); Legal(Apply(w, run[0]), run[1..])))
  }

  ghost function End(w: World, run: seq<Step>): World
    requires Safe(w) && Legal(w, run)
    decreases |run|
  {
    if run == [] then w else StepKeepsSafe(w, run[0]); End(Apply(w, run[0]), run[1..])
  }

  ghost predicate AllFresh(w: World, run: seq<Step>)
    requires Safe(w) && Legal(w, run)
    decreases |run|
  {
    run == [] || (ArmsFresh(w, run[0]) && (StepKeepsSafe(w, run[0]); AllFresh(Apply(w, run[0]), run[1..])))
  }

  /** Over any run, with any crashes and races: each occurrence belongs to one slot,
      stays that slot's, and the count is the number of swaps that won. */
  lemma {:induction false} RunKeepsSafe(w: World, run: seq<Step>)
    requires Safe(w) && Legal(w, run)
    ensures Safe(End(w, run))
    ensures forall slot | slot in w.made :: slot in End(w, run).made && End(w, run).made[slot] == w.made[slot]
    decreases |run|
  {
    if run != [] {
      StepKeepsSafe(w, run[0]);
      RunKeepsSafe(Apply(w, run[0]), run[1..]);
    }
  }

  lemma {:induction false} RunKeepsOrdered(w: World, run: seq<Step>)
    requires Safe(w) && Ordered(w) && Legal(w, run) && AllFresh(w, run)
    ensures Ordered(End(w, run))
    decreases |run|
  {
    if run != [] {
      StepKeepsSafe(w, run[0]);
      StepKeepsOrdered(w, run[0]);
      RunKeepsOrdered(Apply(w, run[0]), run[1..]);
    }
  }

  /** Under fresh rearming the slots fire in ascending order: the count is the number of
      distinct slots, and each slot that fired as a repetition has a task of its own. */
  lemma FreshSlotsAscend(time: int, recurrence: Recurrence, next: int, interval: int, run: seq<Step>)
    requires Legal(Initial(time, recurrence, next, interval), run)
    requires AllFresh(Initial(time, recurrence, next, interval), run)
    ensures var w := End(Initial(time, recurrence, next, interval), run);
      && w.row.count == |set k | 0 <= k < |w.fired| :: w.fired[k].slot|
      && (forall j, k | 0 <= j < k < |w.fired| :: w.fired[j].slot < w.fired[k].slot)
      && (forall j, k | 0 <= j < k < |w.fired| && w.fired[j].task.Some? :: w.fired[j].task != w.fired[k].task)
  {
    RunKeepsSafe(Initial(time, recurrence, next, interval), run);
    RunKeepsOrdered(Initial(time, recurrence, next, interval), run);
    var w := End(Initial(time, recurrence, next, interval), run);
    DistinctSlots(w.fired);
    forall j, k | 0 <= j < k < |w.fired| && w.fired[j].task.Some? ensures w.fired[j].task != w.fired[k].task {
      assert FiringSound(w, w.fired[j]) && FiringSound(w, w.fired[k]);
    }
  }

  lemma {:induction false} DistinctSlots(fired: seq<Firing>)
    requires forall j, k | 0 <= j < k < |fired| :: fired[j].slot < fired[k].slot
    ensures |set k | 0 <= k < |fired| :: fired[k].slot| == |fired|
  {
    var slots := set k | 0 <= k < |fired| :: fired[k].slot;
    if |fired| == 0 {
      assert slots == {};
    } else {
      var last := |fired| - 1;
      DistinctSlots(fired[..last]);
      assert slots == (set k | 0 <= k < last :: fired[..last][k].slot) + {fired[last].slot};
    }
  }

  /** Whatever ticks crash or race after it, an occurrence once made is the one every
      later tick of that slot gets. */
  lemma RetriesShareTheOccurrence(w: World, i: nat, run: seq<Step>)
    requires Safe(w) && At(w, i).Made? && Legal(w, run)
    ensures Occurrence(End(w, run), At(w, i).slot) == At(w, i).task
  {
    assert Sound(w, i);
    RunKeepsSafe(w, run);
  }

  // One undisturbed tick.

  /** What a tick that nothing interrupts still does after its look. */
  function Rest(t: Tick, i: nat, refused: bool): seq<Step> {
    match t
    case Retiring(_) | Unblocked(_) | Made(_, _, _, _) => [Swap(i)]
    case Unblocking(_) => if refused then [Unblock(i, true)] else [Unblock(i, false), Swap(i)]
    case Making(_, _, _) => [Make(i), Swap(i)]
    case _ => []
  }

  function TickSteps(r: Row, s: Status, i: nat, now: int, refused: bool): seq<Step>
    requires r.next.Some?
  {
    [Observe(i, now)] + ([Look(i)] + Rest(LookAt(Seen(r.recurrence, r.next.value, r.interval, now), s), i, refused))
  }

  /** The row is released, unless unblocking its own task is `refused`. */
  predicate Fires(r: Row, s: Status, refused: bool) {
    && s != Absent && s != Archived
    && (r.recurrence == Interval ==> r.interval >= MIN_INTERVAL && s == Scheduled)
    && (r.recurrence == Once && s == Scheduled ==> !refused)
  }

  function TickRow(r: Row, s: Status, now: int, refused: bool): Row
    requires r.next.Some?
  {
    if s == Absent || s == Archived then r.(enabled := false, next := None)
    else if !Fires(r, s, refused) then r
    else if r.recurrence == Once then r.(enabled := false, next := None, count := r.count + 1)
    else r.(next := Some(Next(r.next.value + r.interval, r.interval, now)), count := r.count + 1)
  }

  /** Where the endings of an undisturbed tick `i` lead. */
  predicate AfterRest(w: World, i: nat, t: Tick, v: World, refused: bool)
    requires t.Making? ==> t.interval >= MIN_INTERVAL
    requires t.Made? ==> t.interval >= MIN_INTERVAL
    requires !t.Seen?
  {
    v.time == w.time && At(v, i).Idle? && (!t.Unblocking? ==> v.status == w.status) &&
    match t
    case Idle => v == w
    case Making(slot, interval, now) =>
      && v.row == SwapRow(w.row, Made(slot, interval, now, Occurrence(w, slot)))
      && v.fired == w.fired + [Firing(slot, Some(Occurrence(w, slot)))]
      && v.minted == (if slot in w.made then w.minted else w.minted + 1)
    case Unblocking(slot) => v.row == if refused then w.row else SwapRow(w.row, Unblocked(slot))
    case _ => v.row == SwapRow(w.row, t)
  }

  lemma UndisturbedRest(w: World, i: nat, refused: bool)
    requires Safe(w) && (At(w, i).Unblocking? ==> w.status == Scheduled)
    requires Sound(w, i) && !At(w, i).Seen? && (At(w, i).Idle? || w.row.next == Some(At(w, i).slot))
    ensures Legal(w, Rest(At(w, i), i, refused))
    ensures AfterRest(w, i, At(w, i), End(w, Rest(At(w, i), i, refused)), refused)
  {
    var run := Rest(At(w, i), i, refused);
    assert Sound(w, i);
    if |run| == 1 {
      Chain(w, run, Apply(w, run[0]));
    } else if |run| == 2 {
      StepKeepsSafe(w, run[0]);
      var v := Apply(w, run[0]);
      Chain(v, [Swap(i)], Apply(v, Swap(i)));
      Prepend(w, run[0], [Swap(i)]);
    }
  }

  function AfterLook(w: World, i: nat, now: int): World
    requires Enabled(w, Observe(i, now))
  {
    Apply(Apply(w, Observe(i, now)), Look(i))
  }

  lemma ObserveAndLook(w: World, i: nat, now: int, rest: seq<Step>)
    requires Safe(w) && Enabled(w, Observe(i, now))
    ensures var u := AfterLook(w, i, now);
      && Safe(u)
      && At(u, i) == LookAt(Seen(w.row.recurrence, w.row.next.value, w.row.interval, now), w.status)
      && u.(ticks := w.ticks) == w
      && (Legal(u, rest) ==>
            var run := [Observe(i, now)] + ([Look(i)] + rest); Legal(w, run) && End(w, run) == End(u, rest))
  {
    var v := Apply(w, Observe(i, now));
    StepKeepsSafe(w, Observe(i, now));
    StepKeepsSafe(v, Look(i));
    if Legal(AfterLook(w, i, now), rest) {
      Prepend(v, Look(i), rest);
      Prepend(w, Observe(i, now), [Look(i)] + rest);
    }
  }

  /** What an undisturbed tick of a due row leaves: TickRow, and for a repeating slot
      a firing under that slot's one occurrence. */
  ghost predicate Ticked(w: World, i: nat, v: World, now: int, refused: bool)
    requires w.row.next.Some?
  {
    && v.time == w.time && At(v, i).Idle? && (w.row.recurrence == Interval ==> v.status == w.status)
    && v.row == TickRow(w.row, w.status, now, refused)
    && (Fires(w.row, w.status, refused) && w.row.recurrence == Interval ==>
          var slot := w.row.next.value;
          && v.fired == w.fired + [Firing(slot, Some(Occurrence(w, slot)))]
          && v.minted == (if slot in w.made then w.minted else w.minted + 1))
  }

  lemma RestTicks(w: World, i: nat, u: World, v: World, now: int, refused: bool)
    requires w.row.next.Some? && u.(ticks := w.ticks) == w
    requires var t := LookAt(Seen(w.row.recurrence, w.row.next.value, w.row.interval, now), w.status);
      AfterRest(u, i, t, v, refused)
    ensures Ticked(w, i, v, now, refused)
  {
  }

  lemma UndisturbedTick(w: World, i: nat, now: int, refused: bool)
    requires Safe(w) && At(w, i).Idle? && now <= w.time && Due(w.row, now)
    ensures var run := TickSteps(w.row, w.status, i, now, refused);
      Legal(w, run) && Ticked(w, i, End(w, run), now, refused)
  {
    var u := AfterLook(w, i, now);
    ObserveAndLook(w, i, now, []);
    assert Sound(u, i);
    UndisturbedRest(u, i, refused);
    var rest := Rest(At(u, i), i, refused);
    ObserveAndLook(w, i, now, rest);
    RestTicks(w, i, u, End(u, rest), now, refused);
  }

  /** Run-now on a repeating task, undisturbed: it always raises the count, but creates
      a task exactly when no tick has yet made one for this second. */
  lemma RunNowCreatesExactlyOncePerSecond(w: World, i: nat, now: int)
    requires Safe(w) && w.status == Scheduled && w.row.recurrence == Interval && now <= w.time
    requires w.row.interval >= MIN_INTERVAL && At(w, i).Idle?
    ensures var armed := w.row.(enabled := true, next := Some(now));
      var run := [RunNow(now)] + TickSteps(armed, w.status, i, now, false);
      && Legal(w, run)
      && End(w, run).row.count == w.row.count + 1
      && (End(w, run).minted == w.minted + 1 <==> now !in w.made)
      && End(w, run).fired == w.fired + [Firing(now, Some(Occurrence(w, now)))]
      && Ticked(Apply(w, RunNow(now)), i, End(w, run), now, false)
  {
    var v := Apply(w, RunNow(now));
    StepKeepsSafe(w, RunNow(now));
    UndisturbedTick(v, i, now, false);
    Prepend(w, RunNow(now), TickSteps(v.row, v.status, i, now, false));
  }

  lemma Chain(w: World, run: seq<Step>, v: World)
    requires Safe(w) && |run| == 1 && Enabled(w, run[0]) && v == Apply(w, run[0])
    ensures Legal(w, run) && End(w, run) == v
  {
    StepKeepsSafe(w, run[0]);
    assert run[1..] == [];
  }

  lemma Prepend(w: World, s: Step, run: seq<Step>)
    requires Safe(w) && Enabled(w, s) && Safe(Apply(w, s)) && Legal(Apply(w, s), run)
    ensures Legal(w, [s] + run) && End(w, [s] + run) == End(Apply(w, s), run)
  {
    assert ([s] + run)[1..] == run;
  }

  // A whole dispatcher pass over the board.

  const QUERY_LIMIT := 100

  /** ORDER BY next_run_at, task_id. */
  predicate Before(rows: map<nat, Row>, a: nat, b: nat)
    requires a in rows && b in rows && rows[a].next.Some? && rows[b].next.Some?
  {
    rows[a].next.value < rows[b].next.value || (rows[a].next.value == rows[b].next.value && a < b)
  }

  /** `due` is the answer to the query: the first hundred due rows, in order. */
  ghost predicate Query(rows: map<nat, Row>, now: int, due: seq<nat>) {
    && |due| <= QUERY_LIMIT
    && (forall i | 0 <= i < |due| :: due[i] in rows && Due(rows[due[i]], now))
    && (forall i, j | 0 <= i < j < |due| :: Before(rows, due[i], due[j]))
    && (forall id | id in rows && Due(rows[id], now) && id !in due ::
          |due| == QUERY_LIMIT && forall i | 0 <= i < |due| :: Before(rows, due[i], id))
  }

  function StatusOf(status: map<nat, Status>, id: nat): Status { if id in status then status[id] else Absent }

  predicate Reported(rows: map<nat, Row>, status: map<nat, Status>, held: set<nat>, stuck: set<nat>, id: nat)
    requires id in rows
  {
    id !in held && Fires(rows[id], StatusOf(status, id), id in stuck)
  }

  /** The ids a pass reports: the scheduled one itself, or the occurrence made for the slot. */
  function Report(rows: map<nat, Row>, status: map<nat, Status>, held: set<nat>, stuck: set<nat>,
                  made: map<(nat, int), nat>, due: seq<nat>): seq<nat>
    requires forall i | 0 <= i < |due| :: due[i] in rows && rows[due[i]].next.Some?
  {
    if due == [] then []
    else
      var (rest, id) := (due[..|due| - 1], due[|due| - 1]);
      var key := (id, rows[id].next.value);
      Report(rows, status, held, stuck, made, rest) +
      (if !Reported(rows, status, held, stuck, id) then []
       else if rows[id].recurrence == Once then [id]
       else if key in made then [made[key]] else [])
  }

  /** Every released row moved on, each from the row the query saw. */
  function RowsAfter(rows: map<nat, Row>, status: map<nat, Status>, held: set<nat>, stuck: set<nat>, now: int, due: seq<nat>)
    : map<nat, Row>
    requires forall i | 0 <= i < |due| :: due[i] in rows && rows[due[i]].next.Some?
  {
    if due == [] then rows
    else
      var (rest, id) := (RowsAfter(rows, status, held, stuck, now, due[..|due| - 1]), due[|due| - 1]);
      if id in held then rest else rest[id := TickRow(rows[id], StatusOf(status, id), now, id in stuck)]
  }

  lemma {:induction false} RowsAfterAt(rows: map<nat, Row>, status: map<nat, Status>, held: set<nat>, stuck: set<nat>,
                                       now: int, due: seq<nat>, id: nat)
    requires forall i | 0 <= i < |due| :: due[i] in rows && rows[due[i]].next.Some?
    requires id in rows
    ensures var after := RowsAfter(rows, status, held, stuck, now, due);
      && after.Keys == rows.Keys
      && after[id] == if id in due && id !in held then TickRow(rows[id], StatusOf(status, id), now, id in stuck) else rows[id]
  {
    if due != [] {
      var last := |due| - 1;
      RowsAfterAt(rows, status, held, stuck, now, due[..last], id);
      assert due == due[..last] + [due[last]];
    }
  }

  /** Every occurrence a reported repetition needs has been made. */
  ghost predicate AllMade(rows: map<nat, Row>, status: map<nat, Status>, held: set<nat>, stuck: set<nat>,
                          made: map<(nat, int), nat>, due: seq<nat>)
    requires forall i | 0 <= i < |due| :: due[i] in rows && rows[due[i]].next.Some?
  {
    forall i | 0 <= i < |due| && Reported(rows, status, held, stuck, due[i]) && rows[due[i]].recurrence == Interval ::
      (due[i], rows[due[i]].next.value) in made
  }

  datatype ScheduleError = NotInTheFuture | IntervalTooShort | NoTask | NoSchedule | ArchivedTask | AlreadyRun

  /** INSERT ... ON CONFLICT DO UPDATE, which leaves the count alone. */
  function PutRow(rows: map<nat, Row>, id: nat, recurrence: Recurrence, next: int, interval: Option<int>): Row {
    Row(recurrence, Some(next), if interval.Some? then interval.value else 0, true, if id in rows then rows[id].count else 0)
  }

  function DueNow(r: Row, now: int): Row { r.(enabled := true, next := Some(now)) }

  /** Why a schedule may not be put. */
  function PutError(status: Status, recurrence: Recurrence, next: int, interval: Option<int>, allowElapsed: bool, now: int)
    : Option<ScheduleError>
  {
    if !allowElapsed && next <= now then Some(NotInTheFuture)
    else if recurrence == Interval && (interval.None? || interval.value < MIN_INTERVAL) then Some(IntervalTooShort)
    else if status == Absent then Some(NoTask)
    else None
  }

  /** Why a schedule may not be fired by hand. */
  function HandError(rows: map<nat, Row>, status: Status, id: nat): Option<ScheduleError> {
    if id !in rows then Some(NoSchedule)
    else if status == Absent then Some(NoTask)
    else if status == Archived then Some(ArchivedTask)
    else if rows[id].recurrence == Once && status != Scheduled then Some(AlreadyRun)
    else None
  }

  // The programs are the protocol's steps.

  /** The world of one schedule, as an operation that has read the clock finds it. */
  predicate Finds(w: World, row: Row, status: Status, now: int) { w.row == row && w.status == status && now <= w.time }

  /** A put is accepted exactly when the protocol's step is possible, and leaves its row. */
  lemma PutIsTheStep(w: World, rows: map<nat, Row>, id: nat, recurrence: Recurrence, next: int, interval: int,
                     allowElapsed: bool, now: int)
    requires id in rows && Finds(w, rows[id], w.status, now)
    ensures var s := Step.Put(recurrence, next, interval, allowElapsed, now);
      && (PutError(w.status, recurrence, next, Some(interval), allowElapsed, now).None? <==> Enabled(w, s))
      && (Enabled(w, s) ==> Apply(w, s).row == PutRow(rows, id, recurrence, next, Some(interval)))
    ensures var error := PutError(w.status, recurrence, next, Some(interval), allowElapsed, now);
      && (error == Some(NotInTheFuture) <==> !allowElapsed && next <= now)
      && (error == Some(IntervalTooShort) ==> recurrence == Interval && interval < MIN_INTERVAL)
      && (error == Some(NoTask) ==> w.status == Absent)
  {
  }

  /** A new schedule starts as the theorems about whole runs begin. */
  lemma FirstPutIsInitial(rows: map<nat, Row>, id: nat, recurrence: Recurrence, next: int, interval: int, time: int)
    requires id !in rows
    ensures PutRow(rows, id, recurrence, next, Some(interval)) == Initial(time, recurrence, next, interval).row
  {
  }

  /** A schedule that was put is due from its time on, also if it was paused before. */
  lemma PutArms(rows: map<nat, Row>, id: nat, recurrence: Recurrence, next: int, interval: Option<int>, now: int)
    ensures var row := PutRow(rows, id, recurrence, next, interval);
      && (Due(row, now) <==> next <= now) && row.recurrence == recurrence
      && (interval.Some? ==> row.interval == interval.value)
      && row.count == if id in rows then rows[id].count else 0
  {
  }

  /** So is a run by hand; and when the pass that follows handles the row, it leaves it as
      the step and an undisturbed tick do. */
  lemma RunNowIsTheStep(w: World, i: nat, rows: map<nat, Row>, status: map<nat, Status>, id: nat, now: int,
                        due: seq<nat>, held: set<nat>, stuck: set<nat>)
    requires id in rows && Finds(w, rows[id], StatusOf(status, id), now)
    ensures HandError(rows, w.status, id).None? <==> Enabled(w, RunNow(now))
    ensures HandError(rows, w.status, id) == Some(NoTask) <==> w.status == Absent
    ensures HandError(rows, w.status, id) == Some(ArchivedTask) <==> w.status == Archived
    ensures Enabled(w, RunNow(now)) ==>
      var armed := rows[id := DueNow(rows[id], now)];
      && Apply(w, RunNow(now)).row == armed[id] && Due(armed[id], now)
      && (Safe(w) && At(w, i).Idle? && Query(armed, now, due) && id in due && id !in held ==>
            var run := [RunNow(now)] + TickSteps(armed[id], w.status, i, now, id in stuck);
            var after := RowsAfter(armed, status, held, stuck, now, due);
            Legal(w, run) && id in after && after[id] == End(w, run).row)
  {
    if Enabled(w, RunNow(now)) {
      var armed := rows[id := DueNow(rows[id], now)];
      if Safe(w) && At(w, i).Idle? && Query(armed, now, due) && id in due && id !in held {
        var v := Apply(w, RunNow(now));
        StepKeepsSafe(w, RunNow(now));
        UndisturbedTick(v, i, now, id in stuck);
        Prepend(w, RunNow(now), TickSteps(v.row, v.status, i, now, id in stuck));
        RowsAfterAt(armed, status, held, stuck, now, due, id);
      }
    }
  }

  class Board {
    var rows: map<nat, Row>
    var status: map<nat, Status>
    var made: map<(nat, int), nat>
    var minted: nat

    constructor ()
      ensures rows == map[] && status == map[] && made == map[] && minted == 0
    {
      rows, status, made, minted := map[], map[], map[], 0;
    }

    /** Set or replace a schedule; an occurrence count survives. */
    method Put(id: nat, recurrence: Recurrence, next: int, interval: Option<int>, allowElapsed: bool, now: int)
      returns (error: Option<ScheduleError>)
      modifies this`rows
      ensures error == PutError(StatusOf(status, id), recurrence, next, interval, allowElapsed, now)
      ensures rows == if error.Some? then old(rows) else old(rows)[id := PutRow(old(rows), id, recurrence, next, interval)]
    {
      if !allowElapsed && next <= now { return Some(NotInTheFuture); }
      if recurrence == Interval && (interval.None? || interval.value < MIN_INTERVAL) { return Some(IntervalTooShort); }
      if StatusOf(status, id) == Absent { return Some(NoTask); }
      var count := if id in rows then rows[id].count else 0;
      rows := rows[id := Row(recurrence, Some(next), if interval.Some? then interval.value else 0, true, count)];
      return None;
    }

    /** Pause or resume a schedule. */
    method SetEnabled(id: nat, enabled: bool) returns (error: Option<ScheduleError>)
      modifies this`rows
      ensures error == if id in old(rows) then None else Some(NoSchedule)
      ensures id !in old(rows) ==> rows == old(rows)
      ensures id in old(rows) ==>
        && id in rows && rows == old(rows)[id := rows[id]]
        && forall w: World | w.row == old(rows)[id] :: rows[id] == Apply(w, Toggle(enabled)).row
    {
      if id !in rows { return Some(NoSchedule); }
      rows := rows[id := rows[id].(enabled := enabled)];
      return None;
    }

    /** Fire a schedule by hand: it becomes due now, and a pass follows. */
    method RunTaskNow(id: nat, now: int, due: seq<nat>, held: set<nat>, stuck: set<nat>)
      returns (released: Result<seq<nat>, ScheduleError>)
      requires id in rows ==> Query(rows[id := DueNow(rows[id], now)], now, due)
      modifies this
      ensures released.Err? ==> rows == old(rows) && made == old(made) && status == old(status)
      ensures released.Err? <==> HandError(old(rows), StatusOf(old(status), id), id).Some?
      ensures released.Err? ==> Some(released.error) == HandError(old(rows), StatusOf(old(status), id), id)
      ensures released.Ok? ==>
        var armed := old(rows)[id := DueNow(old(rows)[id], now)];
        && rows == RowsAfter(armed, old(status), held, stuck, now, due)
        && released.value == Report(armed, old(status), held, stuck, made, due)
    {
      if id !in rows { return Err(NoSchedule); }
      var state := StatusOf(status, id);
      if state == Absent { return Err(NoTask); }
      if state == Archived { return Err(ArchivedTask); }
      if rows[id].recurrence == Once && state != Scheduled { return Err(AlreadyRun); }
      rows := rows[id := DueNow(rows[id], now)];
      var tasks := ReleaseDue(now, due, held, stuck);
      return Ok(tasks);
    }

    /** create_task under the key of this slot. */
    method CreateOccurrence(id: nat, slot: int) returns (task: nat)
      modifies this`made, this`minted
      ensures made == old(made)[(id, slot) := task]
      ensures (id, slot) in old(made) ==> task == old(made)[(id, slot)] && minted == old(minted)
      ensures (id, slot) !in old(made) ==> task == old(minted) && minted == old(minted) + 1
    {
      if (id, slot) in made {
        task := made[(id, slot)];
        assert made == made[(id, slot) := task];
      } else {
        task := minted;
        made, minted := made[(id, slot) := task], minted + 1;
      }
    }

    /** One due row; `reported` is what to report, if the row fired.  Unblocking its own
        task may be `refused`. */
    method ReleaseRow(id: nat, now: int, refused: bool) returns (reported: Option<nat>)
      requires id in rows && Due(rows[id], now)
      modifies this
      ensures rows == old(rows)[id := TickRow(old(rows[id]), StatusOf(old(status), id), now, refused)]
      ensures forall x | x != id :: StatusOf(status, x) == StatusOf(old(status), x)
      ensures reported.Some? <==> Fires(old(rows[id]), StatusOf(old(status), id), refused)
      ensures StatusOf(old(status), id) == Absent || StatusOf(old(status), id) == Archived ==>
        reported == None && !rows[id].enabled && rows[id].next == None
      ensures reported.Some? && old(rows[id]).recurrence == Once ==>
        reported.value == id && made == old(made) && StatusOf(status, id) != Scheduled
      ensures reported.Some? && old(rows[id]).recurrence == Interval ==>
        made == old(made)[(id, old(rows[id]).next.value) := reported.value]
      ensures forall key | key in old(made) :: key in made && made[key] == old(made)[key]
      ensures reported.None? ==> made == old(made) && status == old(status)
    {
      var row, state := rows[id], StatusOf(status, id);
      var slot := row.next.value;
      reported := None;
      if state == Absent || state == Archived {
        rows := rows[id := row.(enabled := false, next := None)];
      } else if row.recurrence == Once {
        if state == Scheduled {
          if refused { return; }
          status := status[id := Released];
        }
        rows := rows[id := row.(enabled := false, next := None, count := row.count + 1)];
        reported := Some(id);
      } else if row.interval < MIN_INTERVAL || state != Scheduled {
        assert rows == rows[id := row];
      } else {
        var task := CreateOccurrence(id, slot);
        var next := CatchUp(slot, row.interval, now);
        rows := rows[id := row.(next := Some(next), count := row.count + 1)];
        reported := Some(task);
      }
    }

    /** One pass; `held` are the tasks whose delegation is not complete, `stuck` those whose
        unblocking is refused. */
    method ReleaseDue(now: int, due: seq<nat>, held: set<nat>, stuck: set<nat>) returns (released: seq<nat>)
      requires Query(rows, now, due)
      modifies this
      ensures rows == RowsAfter(old(rows), old(status), held, stuck, now, due)
      ensures forall key | key in old(made) :: key in made && made[key] == old(made)[key]
      ensures AllMade(old(rows), old(status), held, stuck, made, due)
      ensures released == Report(old(rows), old(status), held, stuck, made, due)
    {
      released := [];
      ghost var start := Snapshot(rows, status, made);
      for n := 0 to |due|
        invariant Progress(start, held, stuck, now, due[..n], Snapshot(rows, status, made), released)
      {
        var id := due[n];
        ghost var before, so := Snapshot(rows, status, made), released;
        assert due[..n + 1] == due[..n] + [id] && id !in due[..n];
        RowsAfterAt(start.rows, start.status, held, stuck, now, due[..n], id);
        if id !in held {
          var reported := ReleaseRow(id, now, id in stuck);
          ProgressNext(start, held, stuck, now, due[..n], id, before, so, Snapshot(rows, status, made), reported);
          if reported.Some? { released := released + [reported.value]; }
        } else {
          ProgressSkips(start, held, stuck, now, due[..n], id, before, so);
        }
      }
      assert due[..|due|] == due;
    }
  }

  /** The board's tables at one moment. */
  datatype Snapshot = Snapshot(rows: map<nat, Row>, status: map<nat, Status>, made: map<(nat, int), nat>)

  /** What a pass has done after the rows `due`. */
  ghost predicate Progress(
    start: Snapshot, held: set<nat>, stuck: set<nat>, now: int, due: seq<nat>, at: Snapshot, released: seq<nat>)
  {
    && (forall i | 0 <= i < |due| :: due[i] in start.rows && start.rows[due[i]].next.Some?)
    && at.rows == RowsAfter(start.rows, start.status, held, stuck, now, due)
    && (forall id | id !in due :: StatusOf(at.status, id) == StatusOf(start.status, id))
    && (forall key | key in start.made :: key in at.made && at.made[key] == start.made[key])
    && AllMade(start.rows, start.status, held, stuck, at.made, due)
    && released == Report(start.rows, start.status, held, stuck, at.made, due)
  }

  lemma ProgressSkips(start: Snapshot, held: set<nat>, stuck: set<nat>, now: int, due: seq<nat>, id: nat,
                      at: Snapshot, released: seq<nat>)
    requires Progress(start, held, stuck, now, due, at, released)
    requires id in held && id in start.rows && start.rows[id].next.Some?
    ensures Progress(start, held, stuck, now, due + [id], at, released)
  {
    assert (due + [id])[..|due|] == due;
  }

  lemma ProgressNext(start: Snapshot, held: set<nat>, stuck: set<nat>, now: int, due: seq<nat>, id: nat,
                     at: Snapshot, released: seq<nat>, next: Snapshot, reported: Option<nat>)
    requires Progress(start, held, stuck, now, due, at, released)
    requires id !in held && id !in due && id in start.rows && start.rows[id].next.Some?
    requires next.rows == at.rows[id := TickRow(start.rows[id], StatusOf(start.status, id), now, id in stuck)]
    requires forall x | x != id :: StatusOf(next.status, x) == StatusOf(at.status, x)
    requires reported.Some? <==> Fires(start.rows[id], StatusOf(start.status, id), id in stuck)
    requires reported.Some? && start.rows[id].recurrence == Once ==> reported.value == id && next.made == at.made
    requires reported.Some? && start.rows[id].recurrence == Interval ==>
      next.made == at.made[(id, start.rows[id].next.value) := reported.value]
    requires forall key | key in at.made :: key in next.made && next.made[key] == at.made[key]
    ensures Progress(start, held, stuck, now, due + [id], next,
                     if reported.Some? then released + [reported.value] else released)
  {
    assert (due + [id])[..|due|] == due;
    ReportKept(start.rows, start.status, held, stuck, at.made, next.made, due);
    assert AllMade(start.rows, start.status, held, stuck, next.made, due + [id]);
  }

  /** Later occurrences do not change what has been reported. */
  lemma {:induction false} ReportKept(rows: map<nat, Row>, status: map<nat, Status>, held: set<nat>, stuck: set<nat>,
                                      made: map<(nat, int), nat>, more: map<(nat, int), nat>, due: seq<nat>)
    requires forall i | 0 <= i < |due| :: due[i] in rows && rows[due[i]].next.Some?
    requires forall key | key in made :: key in more && more[key] == made[key]
    requires AllMade(rows, status, held, stuck, made, due)
    ensures Report(rows, status, held, stuck, more, due) == Report(rows, status, held, stuck, made, due)
  {
    if due != [] {
      ReportKept(rows, status, held, stuck, made, more, due[..|due| - 1]);
    }
  }

  /** A pass that skips nothing and was not cut off leaves no row due. */
  lemma NothingStaysDue(rows: map<nat, Row>, status: map<nat, Status>, held: set<nat>, stuck: set<nat>,
                        now: int, due: seq<nat>, id: nat)
    requires Query(rows, now, due) && |due| < QUERY_LIMIT && id in rows
    requires forall i | 0 <= i < |due| ::
      due[i] !in held && !Skipped(rows[due[i]], StatusOf(status, due[i]), due[i] in stuck)
    ensures var after := RowsAfter(rows, status, held, stuck, now, due);
      id in after && !Due(after[id], now)
  {
    RowsAfterAt(rows, status, held, stuck, now, due, id);
    if id in due && rows[id].recurrence == Interval && rows[id].interval >= MIN_INTERVAL {
      NextIsLeast(rows[id].next.value, rows[id].interval, now);
    }
  }

  predicate Skipped(r: Row, s: Status, refused: bool) { s != Absent && s != Archived && !Fires(r, s, refused) }
}
