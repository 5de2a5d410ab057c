/** When a schedule's slot fires twice.  A put or a run-now may point a schedule back
    at a time whose slot has fired; whether that slot then fires again depends on where
    the grid, and the ticks still in flight, can lead from there. */
module KanbanRearming {
  import opened Wrappers
  import opened KanbanSchedules

  predicate Rearms(s: Step) { s.Put? || s.RunNow? }

  ghost predicate NoRearm(run: seq<Step>) { forall k | 0 <= k < |run| :: !Rearms(run[k]) }

  /** No slot has fired twice. */
  predicate Distinct(fired: seq<Firing>) { forall j, k | 0 <= j < k < |fired| :: fired[j].slot != fired[k].slot }

  /** Some continuation without further rearming makes a slot fire twice. */
  ghost predicate CanRepeat(w: World)
    requires Safe(w)
  {
    exists run :: Legal(w, run) && NoRearm(run) && !Distinct(End(w, run).fired)
  }

  // Where the row can lead.

  predicate HasSlot(t: Tick, slot: int) { !t.Idle? && t.slot == slot }

  /** The tick may still fire its slot. */
  predicate MayEnd(t: Tick) {
    match t
    case Idle | Retiring(_) => false
    case Seen(recurrence, _, interval, _) => recurrence == Once || interval >= MIN_INTERVAL
    case _ => true
  }

  /** The tick may still move the row from its slot to `b`. */
  predicate MovesTo(t: Tick, b: int) {
    match t
    case Seen(recurrence, slot, interval, now) =>
      recurrence == Interval && interval >= MIN_INTERVAL && b == Next(slot + interval, interval, now)
    case Making(slot, interval, now) => interval >= MIN_INTERVAL && b == Next(slot + interval, interval, now)
    case Made(slot, interval, now, _) => interval >= MIN_INTERVAL && b == Next(slot + interval, interval, now)
    case _ => false
  }

  predicate Repeats(r: Row) { r.recurrence == Interval && r.interval >= MIN_INTERVAL }

  /** A tick can fire slot `a`: one yet to come, or one in flight. */
  predicate MayFire(w: World, a: int) {
    w.row.recurrence == Once || Repeats(w.row) || exists i | i in w.ticks :: HasSlot(w.ticks[i], a) && MayEnd(w.ticks[i])
  }

  /** Firing slot `a` can move the row to `b`. */
  ghost predicate Edge(w: World, a: int, b: int) {
    || (Repeats(w.row) && OnGrid(a, w.row.interval, b))
    || exists i | i in w.ticks :: HasSlot(w.ticks[i], a) && MovesTo(w.ticks[i], b)
  }

  ghost predicate Leads(w: World, a: int, b: int)
    decreases b - a
  {
    a == b || exists m :: a < m <= b && Edge(w, a, m) && Leads(w, m, b)
  }

  /** The row leads back to a slot that has fired and can fire again. */
  ghost predicate LedBack(w: World) {
    w.row.next.Some? && exists k | 0 <= k < |w.fired| ::
      Leads(w, w.row.next.value, w.fired[k].slot) && MayFire(w, w.fired[k].slot)
  }

  lemma {:induction false} LeadsOn(w: World, a: int, b: int, c: int)
    requires Leads(w, a, b) && b < c && Edge(w, b, c)
    ensures a <= b && Leads(w, a, c)
    decreases b - a
  {
    if a == b {
      assert Leads(w, c, c);
    } else {
      var m :| a < m <= b && Edge(w, a, m) && Leads(w, m, b);
      LeadsOn(w, m, b, c);
    }
  }

  lemma LeadsUp(w: World, a: int, b: int)
    requires Leads(w, a, b)
    ensures a <= b
  {
  }

  // Nothing fires twice unless the row leads back.

  /** What a tick may do, the world it started from foresees. */
  ghost predicate Foreseen(o: World, t: Tick) {
    && (MayEnd(t) ==> MayFire(o, t.slot))
    && (forall b | MovesTo(t, b) :: Edge(o, t.slot, b))
  }

  /** The firings since `o` ascend along the grid, up to where the row stands. */
  ghost predicate Onward(o: World, t: int, x: World) {
    && x.row.recurrence == o.row.recurrence && x.row.interval == o.row.interval
    && (forall i :: Foreseen(o, At(x, i)))
    && (x.row.next.Some? ==> Leads(o, t, x.row.next.value))
    && o.fired <= x.fired
    && (forall k | |o.fired| <= k < |x.fired| :: Leads(o, t, x.fired[k].slot) && MayFire(o, x.fired[k].slot))
    && (forall j, k | |o.fired| <= j < k < |x.fired| :: x.fired[j].slot < x.fired[k].slot)
    && (x.row.next.Some? ==> forall k | |o.fired| <= k < |x.fired| :: x.fired[k].slot < x.row.next.value)
  }

  lemma StartsOnward(o: World)
    requires o.row.next.Some?
    ensures Onward(o, o.row.next.value, o)
  {
    forall i ensures Foreseen(o, At(o, i)) {
      if i in o.ticks && !o.ticks[i].Idle? {
        assert HasSlot(o.ticks[i], o.ticks[i].slot);
      }
    }
  }

  lemma SeenIsForeseen(o: World, x: World, now: int)
    requires x.row.recurrence == o.row.recurrence && x.row.interval == o.row.interval && Due(x.row, now)
    ensures Foreseen(o, Seen(x.row.recurrence, x.row.next.value, x.row.interval, now))
  {
    if Repeats(x.row) {
      NextIsLeast(x.row.next.value, x.row.interval, now);
    }
  }

  lemma StepKeepsForeseen(o: World, x: World, s: Step, i: nat)
    requires Safe(x) && Enabled(x, s) && !Rearms(s)
    requires x.row.recurrence == o.row.recurrence && x.row.interval == o.row.interval && Foreseen(o, At(x, i))
    ensures Foreseen(o, At(Apply(x, s), i))
  {
    assert s.Swap? ==> Sound(x, s.tick);
    if s.Observe? && s.tick == i {
      SeenIsForeseen(o, x, s.now);
    }
  }

  /** A winning swap fires the slot the row stands at and moves on. */
  lemma SwapGoesOn(o: World, t: int, x: World, i: nat)
    requires Safe(x) && Enabled(x, Swap(i)) && Onward(o, t, x) && x.row.next == Some(At(x, i).slot)
    ensures var y := Apply(x, Swap(i));
      && (y.row.next.Some? ==> y.row.next.value > At(x, i).slot && Leads(o, t, y.row.next.value))
      && (!At(x, i).Retiring? ==> MayFire(o, At(x, i).slot))
  {
    assert Sound(x, i) && Foreseen(o, At(x, i));
    var tick := At(x, i);
    if tick.Made? {
      NextIsLeast(tick.slot, tick.interval, tick.now);
      var b := Next(tick.slot + tick.interval, tick.interval, tick.now);
      assert MovesTo(tick, b);
      LeadsOn(o, t, tick.slot, b);
    }
  }

  lemma StepKeepsOnward(o: World, t: int, x: World, s: Step)
    requires Safe(x) && Enabled(x, s) && !Rearms(s) && Onward(o, t, x)
    ensures Onward(o, t, Apply(x, s))
  {
    assert s.Swap? ==> Sound(x, s.tick);
    var y := Apply(x, s);
    forall i ensures Foreseen(o, At(y, i)) {
      assert Foreseen(o, At(x, i));
      StepKeepsForeseen(o, x, s, i);
    }
    if s.Swap? && x.row.next == Some(At(x, s.tick).slot) {
      SwapGoesOn(o, t, x, s.tick);
    }
  }

  lemma {:induction false} RunKeepsOnward(o: World, t: int, x: World, run: seq<Step>)
    requires Safe(x) && Legal(x, run) && NoRearm(run) && Onward(o, t, x)
    ensures Onward(o, t, End(x, run))
    decreases |run|
  {
    if run != [] {
      StepKeepsSafe(x, run[0]);
      assert !Rearms(run[0]);
      StepKeepsOnward(o, t, x, run[0]);
      RunKeepsOnward(o, t, Apply(x, run[0]), run[1..]);
    }
  }

  /** With nothing armed nothing fires. */
  lemma {:induction false} UnarmedStays(x: World, run: seq<Step>)
    requires Safe(x) && Legal(x, run) && NoRearm(run) && x.row.next.None?
    ensures End(x, run).fired == x.fired
    decreases |run|
  {
    if run != [] {
      StepKeepsSafe(x, run[0]);
      assert !Rearms(run[0]);
      UnarmedStays(Apply(x, run[0]), run[1..]);
    }
  }

  lemma StillDistinct(before: seq<Firing>, after: seq<Firing>, j: nat, k: nat)
    requires before <= after && Distinct(before) && j < k < |after| && after[j].slot == after[k].slot
    ensures k >= |before|
  {
    assert forall n | 0 <= n < |before| :: before[n] == after[n];
  }

  lemma RepeatsOnlyWhenLedBack(w: World, run: seq<Step>)
    requires Safe(w) && Distinct(w.fired) && Legal(w, run) && NoRearm(run) && !Distinct(End(w, run).fired)
    ensures LedBack(w)
  {
    var x := End(w, run);
    if w.row.next.None? {
      UnarmedStays(w, run);
    } else {
      StartsOnward(w);
      RunKeepsOnward(w, w.row.next.value, w, run);
      var j, k :| 0 <= j < k < |x.fired| && x.fired[j].slot == x.fired[k].slot;
      StillDistinct(w.fired, x.fired, j, k);
      assert j < |w.fired| && w.fired[j] == x.fired[j];
    }
  }

  // Whenever the row leads back, a slot can fire twice.

  /** `y` can follow `x` without a rearming. */
  ghost predicate Reaches(x: World, y: World)
    requires Safe(x)
  {
    exists run :: Legal(x, run) && NoRearm(run) && End(x, run) == y
  }

  lemma ReachesNext(x: World, s: Step)
    requires Safe(x) && Enabled(x, s) && !Rearms(s)
    ensures Safe(Apply(x, s)) && Reaches(x, Apply(x, s))
  {
    StepKeepsSafe(x, s);
    Chain(x, [s], Apply(x, s));
    assert NoRearm([s]);
  }

  lemma {:induction false} Joined(x: World, run: seq<Step>, more: seq<Step>)
    requires Safe(x) && Legal(x, run) && Safe(End(x, run)) && Legal(End(x, run), more)
    ensures Legal(x, run + more) && End(x, run + more) == End(End(x, run), more)
    decreases |run|
  {
    if run == [] {
      assert run + more == more;
    } else {
      StepKeepsSafe(x, run[0]);
      RunKeepsSafe(Apply(x, run[0]), run[1..]);
      Joined(Apply(x, run[0]), run[1..], more);
      assert run + more == [run[0]] + (run[1..] + more);
      Prepend(x, run[0], run[1..] + more);
    }
  }

  lemma ReachesOn(x: World, y: World, z: World)
    requires Safe(x) && Reaches(x, y) && Safe(y) && Reaches(y, z)
    ensures Reaches(x, z) && Safe(z)
  {
    var a :| Legal(x, a) && NoRearm(a) && End(x, a) == y;
    var b :| Legal(y, b) && NoRearm(b) && End(y, b) == z;
    Joined(x, a, b);
    RunKeepsSafe(x, a + b);
    assert NoRearm(a + b);
  }

  lemma ReachesThen(x: World, y: World, s: Step)
    requires Safe(x) && Reaches(x, y) && Safe(y) && Enabled(y, s) && !Rearms(s)
    ensures Safe(Apply(y, s)) && Reaches(x, Apply(y, s))
  {
    ReachesNext(y, s);
    ReachesOn(x, y, Apply(y, s));
  }

  lemma {:induction false} CountBelow(s: set<nat>, n: nat)
    requires forall i: nat | i < n :: i in s
    ensures |s| >= n
  {
    if n > 0 {
      CountBelow(s - {n - 1}, n - 1);
    }
  }

  lemma UnusedTick(ticks: map<nat, Tick>) returns (i: nat)
    ensures i !in ticks
  {
    if forall i: nat | i < |ticks.Keys| + 1 :: i in ticks.Keys {
      CountBelow(ticks.Keys, |ticks.Keys| + 1);
    }
    i :| i < |ticks.Keys| + 1 && i !in ticks.Keys;
  }

  /** Ticks from `o` at slots from `a` on have not moved, and nothing fired since is lost. */
  ghost predicate Unspent(o: World, a: int, x: World) {
    && Safe(x) && x.row.recurrence == o.row.recurrence && x.row.interval == o.row.interval
    && o.fired <= x.fired
    && forall i | i in o.ticks && !o.ticks[i].Idle? && o.ticks[i].slot >= a :: At(x, i) == o.ticks[i]
  }

  /** Tick `i` has won with the slot the row stood at, and nothing else has moved. */
  ghost predicate Won(x: World, i: nat, y: World) {
    && Safe(y) && y.row.recurrence == x.row.recurrence && y.row.interval == x.row.interval
    && |y.fired| == |x.fired| + 1 && x.fired <= y.fired && x.row.next == Some(y.fired[|x.fired|].slot)
    && (forall j | j != i :: At(y, j) == At(x, j))
    && (forall b | MovesTo(At(x, i), b) :: y.row.next == Some(b))
  }

  lemma SwapWins(x: World, i: nat)
    requires Safe(x) && (At(x, i).Unblocked? || At(x, i).Made?) && x.row.next == Some(At(x, i).slot)
    ensures Enabled(x, Swap(i)) && Reaches(x, Apply(x, Swap(i))) && Won(x, i, Apply(x, Swap(i)))
  {
    assert Sound(x, i);
    ReachesNext(x, Swap(i));
  }

  /** The second last step, with the task unblocked or the occurrence made. */
  lemma StepThenWins(x: World, i: nat) returns (y: World)
    requires Safe(x) && (At(x, i).Unblocking? || At(x, i).Making?) && x.row.next == Some(At(x, i).slot)
    requires x.status == Scheduled
    ensures Reaches(x, y) && Won(x, i, y)
  {
    var s := if At(x, i).Making? then Make(i) else Unblock(i, false);
    ReachesNext(x, s);
    var u := Apply(x, s);
    SwapWins(u, i);
    y := Apply(u, Swap(i));
    ReachesOn(x, u, y);
  }

  lemma SeenWins(x: World, i: nat) returns (y: World)
    requires Safe(x) && At(x, i).Seen? && MayEnd(At(x, i)) && x.row.next == Some(At(x, i).slot)
    requires x.status == Scheduled
    ensures Reaches(x, y) && Won(x, i, y)
  {
    ReachesNext(x, Look(i));
    var u := Apply(x, Look(i));
    y := StepThenWins(u, i);
    ReachesOn(x, u, y);
  }

  /** A tick that may fire the slot the row stands at can do so. */
  lemma TickWins(x: World, i: nat) returns (y: World)
    requires Safe(x) && MayEnd(At(x, i)) && x.row.next == Some(At(x, i).slot)
    ensures Reaches(x, y) && Won(x, i, y)
  {
    if At(x, i).Unblocked? || At(x, i).Made? {
      SwapWins(x, i);
      y := Apply(x, Swap(i));
    } else {
      ReachesNext(x, Change(Scheduled));
      var u := Apply(x, Change(Scheduled));
      if At(x, i).Seen? {
        y := SeenWins(u, i);
      } else {
        y := StepThenWins(u, i);
      }
      ReachesOn(x, u, y);
    }
  }

  /** A tick yet to come reads the row at a time of its choice. */
  lemma ObservesAt(x: World, now: int) returns (i: nat, y: World)
    requires Safe(x) && x.row.next.Some? && x.row.next.value <= now
    ensures Safe(y) && Reaches(x, y) && i !in x.ticks && y.row == x.row.(enabled := true) && y.fired == x.fired
    ensures y.ticks == x.ticks[i := Seen(x.row.recurrence, x.row.next.value, x.row.interval, now)]
  {
    var wait := if now > x.time then now - x.time else 0;
    ReachesNext(x, Wait(wait));
    var u := Apply(x, Wait(wait));
    ReachesThen(x, u, Toggle(true));
    var v := Apply(u, Toggle(true));
    i := UnusedTick(x.ticks);
    ReachesThen(x, v, Observe(i, now));
    y := Apply(v, Observe(i, now));
  }

  lemma WonIsUnspent(o: World, a: int, x: World, i: nat, y: World)
    requires Unspent(o, a, x) && Won(x, i, y)
    requires i in o.ticks && !o.ticks[i].Idle? ==> o.ticks[i].slot <= a
    ensures Unspent(o, a + 1, y)
  {
  }

  /** A tick yet to come can fire the slot the row stands at, reading the clock at `now`. */
  lemma NewTickFires(o: World, a: int, x: World, now: int) returns (y: World)
    requires Unspent(o, a, x) && x.row.next == Some(a) && a <= now && (x.row.recurrence == Once || Repeats(x.row))
    ensures Reaches(x, y) && Unspent(o, a + 1, y)
    ensures |y.fired| == |x.fired| + 1 && x.fired <= y.fired && y.fired[|x.fired|].slot == a
    ensures Repeats(x.row) ==> y.row.next == Some(Next(a + x.row.interval, x.row.interval, now))
  {
    var i, u := ObservesAt(x, now);
    assert At(x, i).Idle?;
    assert Unspent(o, a, u);
    y := TickWins(u, i);
    WonIsUnspent(o, a, u, i, y);
    ReachesOn(x, u, y);
    if Repeats(x.row) {
      assert MovesTo(At(u, i), Next(a + x.row.interval, x.row.interval, now));
    }
  }

  /** So can a tick that was in flight in `o`. */
  lemma OldTickFires(o: World, a: int, x: World, i: nat) returns (y: World)
    requires Unspent(o, a, x) && x.row.next == Some(a)
    requires i in o.ticks && HasSlot(o.ticks[i], a) && MayEnd(o.ticks[i])
    ensures Reaches(x, y) && Unspent(o, a + 1, y)
    ensures |y.fired| == |x.fired| + 1 && x.fired <= y.fired && y.fired[|x.fired|].slot == a
    ensures forall b | MovesTo(o.ticks[i], b) :: y.row.next == Some(b)
  {
    y := TickWins(x, i);
    WonIsUnspent(o, a, x, i, y);
  }

  lemma SlotFires(o: World, a: int, x: World) returns (y: World)
    requires Unspent(o, a, x) && x.row.next == Some(a) && MayFire(o, a)
    ensures Reaches(x, y) && Unspent(o, a + 1, y)
    ensures |y.fired| == |x.fired| + 1 && x.fired <= y.fired && y.fired[|x.fired|].slot == a
  {
    if o.row.recurrence == Once || Repeats(o.row) {
      y := NewTickFires(o, a, x, a);
    } else {
      var i :| i in o.ticks && HasSlot(o.ticks[i], a) && MayEnd(o.ticks[i]);
      y := OldTickFires(o, a, x, i);
    }
  }

  /** A tick that reads the clock just before a grid point moves the row to it. */
  lemma JustBefore(slot: int, interval: int, b: int)
    requires interval >= MIN_INTERVAL && OnGrid(slot, interval, b)
    ensures slot < b && Next(slot + interval, interval, b - 1) == b
  {
    var k: nat :| k > 0 && b == slot + k * interval;
    assert k * interval >= interval by {
      assert k * interval == interval + (k - 1) * interval;
    }
    NextIsLeast(slot, interval, b - 1);
    assert b > b - 1;
  }

  lemma EdgeIsTaken(o: World, a: int, b: int, x: World) returns (y: World)
    requires Unspent(o, a, x) && x.row.next == Some(a) && Edge(o, a, b) && a < b
    ensures Reaches(x, y) && Unspent(o, a + 1, y) && y.row.next == Some(b)
  {
    if Repeats(o.row) && OnGrid(a, o.row.interval, b) {
      JustBefore(a, o.row.interval, b);
      y := NewTickFires(o, a, x, b - 1);
    } else {
      var i :| i in o.ticks && HasSlot(o.ticks[i], a) && MovesTo(o.ticks[i], b);
      y := OldTickFires(o, a, x, i);
    }
  }

  lemma {:induction false} RowGetsThere(o: World, a: int, f: int, x: World) returns (y: World)
    requires Unspent(o, a, x) && x.row.next == Some(a) && Leads(o, a, f) && MayFire(o, f)
    ensures Safe(y) && Reaches(x, y) && o.fired <= y.fired
    ensures exists k | |o.fired| <= k < |y.fired| :: y.fired[k].slot == f
    decreases f - a
  {
    if a == f {
      y := SlotFires(o, a, x);
      assert y.fired[|x.fired|].slot == f;
    } else {
      var m :| a < m <= f && Edge(o, a, m) && Leads(o, m, f);
      var u := EdgeIsTaken(o, a, m, x);
      assert Unspent(o, m, u);
      y := RowGetsThere(o, m, f, u);
      ReachesOn(x, u, y);
    }
  }

  /** From any state: some run without further rearming has a slot fire twice exactly when
      one has already, or the row leads back to a slot that has fired and can fire again. */
  lemma RepeatsExactlyWhenLedBack(w: World)
    requires Safe(w)
    ensures CanRepeat(w) <==> !Distinct(w.fired) || LedBack(w)
  {
    if !Distinct(w.fired) {
      assert Legal(w, []) && NoRearm([]) && End(w, []) == w;
    } else if CanRepeat(w) {
      var run :| Legal(w, run) && NoRearm(run) && !Distinct(End(w, run).fired);
      RepeatsOnlyWhenLedBack(w, run);
    }
    if LedBack(w) {
      var k :| 0 <= k < |w.fired| && Leads(w, w.row.next.value, w.fired[k].slot) && MayFire(w, w.fired[k].slot);
      assert Unspent(w, w.row.next.value, w);
      var y := RowGetsThere(w, w.row.next.value, w.fired[k].slot, w);
      var n :| |w.fired| <= n < |y.fired| && y.fired[n].slot == w.fired[k].slot;
      assert y.fired[k] == w.fired[k] && !Distinct(y.fired);
      var run :| Legal(w, run) && NoRearm(run) && End(w, run) == y;
    }
  }

  // What this means for a caller that rearms a schedule.

  predicate NoTickInFlight(w: World) { forall i | i in w.ticks :: w.ticks[i].Idle? }

  lemma {:induction false} LeadsAlongTheGrid(w: World, a: int, b: int)
    requires NoTickInFlight(w) && Leads(w, a, b)
    ensures a == b || (Repeats(w.row) && OnGrid(a, w.row.interval, b))
    decreases b - a
  {
    if a != b {
      var m :| a < m <= b && Edge(w, a, m) && Leads(w, m, b);
      LeadsAlongTheGrid(w, m, b);
      if m != b {
        GridGoesOn(a, w.row.interval, m, b);
      }
    }
  }

  lemma GridGoesOn(a: int, interval: int, m: int, b: int)
    requires OnGrid(a, interval, m) && OnGrid(m, interval, b)
    ensures OnGrid(a, interval, b)
  {
    var j: nat :| j > 0 && m == a + j * interval;
    var k: nat :| k > 0 && b == m + k * interval;
    assert b == a + (j + k) * interval;
  }

  /** With no tick in flight, a put or a run-now lets a slot fire twice exactly when its
      time, or for a repetition a grid point of its time, has fired already. */
  lemma RearmRepeatsExactlyOnItsGrid(w: World, s: Step)
    requires Safe(w) && Distinct(w.fired) && Enabled(w, s) && Rearms(s) && NoTickInFlight(w)
    ensures Safe(Apply(w, s))
    ensures var t := if s.Put? then s.next else s.now;
      var row := Apply(w, s).row;
      CanRepeat(Apply(w, s)) <==>
        && (row.recurrence == Once || Repeats(row))
        && exists k | 0 <= k < |w.fired| ::
             w.fired[k].slot == t || (Repeats(row) && OnGrid(t, row.interval, w.fired[k].slot))
  {
    StepKeepsSafe(w, s);
    var v := Apply(w, s);
    RepeatsExactlyWhenLedBack(v);
    var t := v.row.next.value;
    forall f ensures Leads(v, t, f) <==> t == f || (Repeats(v.row) && OnGrid(t, v.row.interval, f)) {
      if Leads(v, t, f) {
        LeadsAlongTheGrid(v, t, f);
      }
      if Repeats(v.row) && OnGrid(t, v.row.interval, f) {
        JustBefore(t, v.row.interval, f);
        assert Edge(v, t, f) && Leads(v, f, f);
      }
    }
  }

  /** A time after every fired slot leads back to none, whatever ticks are in flight. */
  lemma FreshTimeNeverRepeats(w: World, s: Step)
    requires Safe(w) && Distinct(w.fired) && Enabled(w, s) && Rearms(s) && ArmsFresh(w, s)
    ensures Safe(Apply(w, s)) && !CanRepeat(Apply(w, s))
  {
    StepKeepsSafe(w, s);
    var v := Apply(w, s);
    RepeatsExactlyWhenLedBack(v);
    if LedBack(v) {
      var k :| 0 <= k < |v.fired| && Leads(v, v.row.next.value, v.fired[k].slot) && MayFire(v, v.fired[k].slot);
      LeadsUp(v, v.row.next.value, v.fired[k].slot);
    }
  }

  // Over whole runs.

  /** No rearming along the run leads the row back. */
  ghost predicate AllClear(w: World, run: seq<Step>)
    requires Safe(w) && Legal(w, run)
    decreases |run|
  {
    run == [] ||
    ((Rearms(run[0]) ==> !LedBack(Apply(w, run[0]))) && (StepKeepsSafe(w, run[0]); AllClear(Apply(w, run[0]), run[1..])))
  }

  /** A slot fires twice after `n` steps of the run and a tail that rearms nothing. */
  ghost predicate RepeatsAfter(w: World, run: seq<Step>, n: nat, tail: seq<Step>)
    requires Safe(w) && n <= |run|
  {
    Legal(w, run[..n] + tail) && NoRearm(tail) && !Distinct(End(w, run[..n] + tail).fired)
  }

  lemma NoRepeatMeansDistinct(w: World)
    requires Safe(w) && !CanRepeat(w)
    ensures Distinct(w.fired)
  {
    assert Legal(w, []) && NoRearm([]) && End(w, []) == w;
  }

  lemma ClearStep(w: World, s: Step)
    requires Safe(w) && !CanRepeat(w) && Enabled(w, s) && (Rearms(s) ==> !LedBack(Apply(w, s)))
    ensures Safe(Apply(w, s)) && !CanRepeat(Apply(w, s))
  {
    StepKeepsSafe(w, s);
    var v := Apply(w, s);
    if Rearms(s) {
      NoRepeatMeansDistinct(w);
      RepeatsExactlyWhenLedBack(v);
    } else if CanRepeat(v) {
      RepeatsSooner(w, s);
    }
  }

  lemma RepeatsSooner(w: World, s: Step)
    requires Safe(w) && Enabled(w, s) && !Rearms(s) && Safe(Apply(w, s)) && CanRepeat(Apply(w, s))
    ensures CanRepeat(w)
  {
    var run :| Legal(Apply(w, s), run) && NoRearm(run) && !Distinct(End(Apply(w, s), run).fired);
    Prepend(w, s, run);
    assert NoRearm([s] + run);
  }

  lemma {:induction false} ClearRunsNeverRepeat(w: World, run: seq<Step>, n: nat, tail: seq<Step>)
    requires Safe(w) && !CanRepeat(w) && Legal(w, run) && AllClear(w, run) && n <= |run|
    ensures !RepeatsAfter(w, run, n, tail)
    decreases |run|
  {
    if n == 0 {
      assert run[..0] + tail == tail;
    } else {
      ClearStep(w, run[0]);
      ClearRunsNeverRepeat(Apply(w, run[0]), run[1..], n - 1, tail);
      assert (run[..n] + tail)[0] == run[0] && (run[..n] + tail)[1..] == run[1..][..n - 1] + tail;
    }
  }

  lemma {:induction false} OtherRunsCanRepeat(w: World, run: seq<Step>) returns (n: nat, tail: seq<Step>)
    requires Safe(w) && !CanRepeat(w) && Legal(w, run) && !AllClear(w, run)
    ensures n <= |run| && RepeatsAfter(w, run, n, tail)
    decreases |run|
  {
    StepKeepsSafe(w, run[0]);
    var v := Apply(w, run[0]);
    if Rearms(run[0]) && LedBack(v) {
      NoRepeatMeansDistinct(w);
      RepeatsExactlyWhenLedBack(v);
      tail :| Legal(v, tail) && NoRearm(tail) && !Distinct(End(v, tail).fired);
      n := 0;
      assert run[1..][..0] + tail == tail;
    } else {
      ClearStep(w, run[0]);
      n, tail := OtherRunsCanRepeat(v, run[1..]);
    }
    RepeatsEarlier(w, run, n, tail);
    n := n + 1;
  }

  lemma RepeatsEarlier(w: World, run: seq<Step>, n: nat, tail: seq<Step>)
    requires Safe(w) && run != [] && Enabled(w, run[0]) && n < |run| && Safe(Apply(w, run[0]))
    requires RepeatsAfter(Apply(w, run[0]), run[1..], n, tail)
    ensures RepeatsAfter(w, run, n + 1, tail)
  {
    var rest := run[1..][..n] + tail;
    assert run[..n + 1] + tail == [run[0]] + rest;
    Prepend(w, run[0], rest);
  }

  /** From a new schedule on, through races, crashes and rearmings: no slot fires twice,
      then or in any continuation without rearming, from any point of the run, exactly as
      long as no rearming leads the row back. */
  lemma EachSlotFiresOnceExactlyWhenClear(time: int, recurrence: Recurrence, next: int, interval: int, run: seq<Step>)
    requires Safe(Initial(time, recurrence, next, interval)) && Legal(Initial(time, recurrence, next, interval), run)
    ensures var w := Initial(time, recurrence, next, interval);
      AllClear(w, run) <==> forall n, tail | 0 <= n <= |run| :: !RepeatsAfter(w, run, n, tail)
    ensures var w := Initial(time, recurrence, next, interval);
      AllClear(w, run) ==> Distinct(End(w, run).fired) && EachHasItsTask(End(w, run))
  {
    var w := Initial(time, recurrence, next, interval);
    RepeatsExactlyWhenLedBack(w);
    if AllClear(w, run) {
      forall n, tail | 0 <= n <= |run| ensures !RepeatsAfter(w, run, n, tail) {
        ClearRunsNeverRepeat(w, run, n, tail);
      }
      assert run[..|run|] + [] == run;
      assert !RepeatsAfter(w, run, |run|, []);
      RunKeepsSafe(w, run);
      DistinctFirings(End(w, run));
    } else {
      var n, tail := OtherRunsCanRepeat(w, run);
    }
  }

  /** The count is the number of slots, and each repetition has a task of its own. */
  predicate EachHasItsTask(w: World) {
    && w.row.count == |set k | 0 <= k < |w.fired| :: w.fired[k].slot|
    && forall j, k | 0 <= j < k < |w.fired| && w.fired[j].task.Some? :: w.fired[j].task != w.fired[k].task
  }

  lemma DistinctFirings(w: World)
    requires Safe(w) && Distinct(w.fired)
    ensures EachHasItsTask(w)
  {
    SlotsCount(w.fired);
    forall j, k | 0 <= j < k < |w.fired| && w.fired[j].task.Some? ensures w.fired[j].task != w.fired[k].task {
      assert FiringSound(w, w.fired[j]) && FiringSound(w, w.fired[k]);
    }
  }

  lemma {:induction false} SlotsCount(fired: seq<Firing>)
    requires Distinct(fired)
    ensures |set k | 0 <= k < |fired| :: fired[k].slot| == |fired|
  {
    var slots := set k | 0 <= k < |fired| :: fired[k].slot;
    if |fired| == 0 {
      assert slots == {};
    } else {
      var last := |fired| - 1;
      SlotsCount(fired[..last]);
      assert slots == (set k | 0 <= k < last :: fired[..last][k].slot) + {fired[last].slot};
    }
  }

  /** Run-now at `now`, and an undisturbed tick. */
  function RunNowSteps(w: World, now: int): seq<Step> {
    [RunNow(now)] + TickSteps(w.row.(enabled := true, next := Some(now)), w.status, 0, now, false)
  }

  /** The failure itself: a repeating schedule is run by hand twice within one second, and
      the second tick fires the slot of that second again, under the same task. */
  lemma SlotFiresTwice(now: int, next: int, interval: int)
    requires interval >= MIN_INTERVAL
    ensures var w := Initial(now, Interval, next, interval);
      var once := RunNowSteps(w, now);
      && Safe(w) && Legal(w, once)
      && var run := once + RunNowSteps(End(w, once), now);
      && Legal(w, run)
      && End(w, run).fired == [Firing(now, Some(0)), Firing(now, Some(0))]
      && End(w, run).row.count == 2 && End(w, run).minted == 1
  {
    var w := Initial(now, Interval, next, interval);
    var once := RunNowSteps(w, now);
    RunNowCreatesExactlyOncePerSecond(w, 0, now);
    var u := End(w, once);
    RunKeepsSafe(w, once);
    assert u.fired[0] == Firing(now, Some(0)) && FiringSound(u, u.fired[0]);
    RunNowCreatesExactlyOncePerSecond(u, 0, now);
    Joined(w, once, RunNowSteps(u, now));
  }
}
