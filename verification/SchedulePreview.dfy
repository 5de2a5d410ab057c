/** Calendar previews across daylight-saving transitions: wall times that do not
    exist are skipped, and of two instants with the same wall time the earlier wins. */
module SchedulePreview {
  import opened Wrappers

  const MAX_CANDIDATES := 10000

  // The years 1 to 9999, in microseconds.
  const FIRST_TIME := -62135596800000000
  const LAST_TIME := 253402300799999999

  /** UTC transition times, and the offset of each segment between them. */
  datatype Zone = Zone(at: seq<int>, offset: seq<int>)

  /** The table a conversion searches: UTC instants, or the wall times of a fold. */
  datatype Ruler = Utc | Fold0 | Fold1

  /** The cutoff as it comes in: a wall time, and its offset if it has a zone. */
  datatype Stamp = Naive | Aware(wall: int, offset: int)

  datatype Error =
    | NotAware | BadCount | BadShape | UnknownZone | CutoffOutOfRange | BadExpression
    | OutOfRange | Horizon | NoPreview

  function Max(a: int, b: int): int { if a < b then b else a }

  function Min(a: int, b: int): int { if a < b then a else b }

  /** Fold 0 takes a transition as passed late, fold 1 soon. */
  function Edge(z: Zone, r: Ruler, i: nat): int
    requires |z.offset| == |z.at| + 1 && i < |z.at|
  {
    match r
    case Utc => z.at[i]
    case Fold0 => z.at[i] + Max(z.offset[i], z.offset[i + 1])
    case Fold1 => z.at[i] + Min(z.offset[i], z.offset[i + 1])
  }

  /** Transitions lie further apart than the jumps they make, so that the
      doubtful wall times of one end before those of the next begin. */
  predicate Spaced(z: Zone) {
    |z.offset| == |z.at| + 1 && forall i | 0 <= i < |z.at| :: Apart(z, i)
  }

  /** Transition `i` and the one before it. */
  predicate Apart(z: Zone, i: nat)
    requires |z.offset| == |z.at| + 1 && i < |z.at|
  {
    i == 0 || (z.at[i - 1] < z.at[i] && Edge(z, Fold0, i - 1) <= Edge(z, Fold1, i))
  }

  /** `bisect_right` among the first `n` transitions. */
  function Segment(z: Zone, r: Ruler, x: int, n: nat): (k: nat)
    requires |z.offset| == |z.at| + 1 && n <= |z.at|
    ensures k <= n && (k > 0 ==> Edge(z, r, k - 1) <= x) && (k < n ==> Edge(z, r, k) > x)
  {
    if n == 0 then 0 else if Edge(z, r, n - 1) <= x then n else Segment(z, r, x, n - 1)
  }

  /** `instant.astimezone(zone)` without its tzinfo. */
  function Local(z: Zone, u: int): int
    requires Spaced(z)
  {
    u + z.offset[Segment(z, Utc, u, |z.at|)]
  }

  /** `wall.replace(tzinfo=zone, fold=fold).astimezone(utc)`. */
  function ToUtc(z: Zone, w: int, fold: Ruler): int
    requires Spaced(z)
  {
    w - z.offset[Segment(z, fold, w, |z.at|)]
  }

  predicate InCalendar(x: int) { FIRST_TIME <= x <= LAST_TIME }

  /** Converting the wall time to an instant and back stays in the calendar. */
  predicate FoldConverts(z: Zone, w: int, fold: Ruler)
    requires Spaced(z)
  {
    InCalendar(ToUtc(z, w, fold)) && InCalendar(Local(z, ToUtc(z, w, fold)))
  }

  predicate Converts(z: Zone, w: int)
    requires Spaced(z)
  {
    FoldConverts(z, w, Fold0) && FoldConverts(z, w, Fold1)
  }

  lemma {:induction false} EdgesAscend(z: Zone, i: nat, j: nat)
    requires Spaced(z) && i <= j < |z.at|
    ensures forall r :: Edge(z, r, i) <= Edge(z, r, j)
    ensures i < j ==> Edge(z, Utc, i) < Edge(z, Utc, j) && Edge(z, Fold0, i) <= Edge(z, Fold1, j)
    decreases j - i
  {
    if i < j {
      EdgesAscend(z, i, j - 1);
      assert Apart(z, j);
    }
  }

  /** The one segment whose edges enclose `x`. */
  lemma SegmentIs(z: Zone, r: Ruler, x: int, k: nat)
    requires Spaced(z) && k <= |z.at|
    requires k > 0 ==> Edge(z, r, k - 1) <= x
    requires k < |z.at| ==> x < Edge(z, r, k)
    ensures Segment(z, r, x, |z.at|) == k
  {
    var m := Segment(z, r, x, |z.at|);
    if m < k {
      EdgesAscend(z, m, k - 1);
    } else if k < m {
      EdgesAscend(z, k, m - 1);
    }
  }

  /** Both folds agree, or fold 1 is one segment ahead. */
  lemma FoldsAreAdjacent(z: Zone, w: int)
    requires Spaced(z)
    ensures var k := Segment(z, Fold0, w, |z.at|); k <= Segment(z, Fold1, w, |z.at|) <= k + 1
  {
    var k0, k1 := Segment(z, Fold0, w, |z.at|), Segment(z, Fold1, w, |z.at|);
    if k1 < k0 {
      EdgesAscend(z, k1, k0 - 1);
    } else if k0 + 1 < k1 {
      EdgesAscend(z, k0, k1 - 1);
    }
  }

  lemma FoldsEnclose(z: Zone, w: int, k: nat)
    requires Spaced(z) && k <= |z.at|
    requires k > 0 ==> Edge(z, Fold1, k - 1) <= w
    requires k < |z.at| ==> w < Edge(z, Fold0, k)
    ensures Segment(z, Fold0, w, |z.at|) <= k <= Segment(z, Fold1, w, |z.at|)
  {
    var k0, k1 := Segment(z, Fold0, w, |z.at|), Segment(z, Fold1, w, |z.at|);
    if k1 < k {
      EdgesAscend(z, k1, k - 1);
    }
    if k < k0 {
      EdgesAscend(z, k, k0 - 1);
    }
  }

  /** The two fold conversions find every instant with this wall time. */
  lemma EveryInstantIsAFold(z: Zone, u: int)
    requires Spaced(z)
    ensures u == ToUtc(z, Local(z, u), Fold0) || u == ToUtc(z, Local(z, u), Fold1)
  {
    var k, w := Segment(z, Utc, u, |z.at|), Local(z, u);
    FoldsAreAdjacent(z, w);
    assert k > 0 ==> Edge(z, Fold1, k - 1) <= w;
    assert k < |z.at| ==> w < Edge(z, Fold0, k);
    FoldsEnclose(z, w, k);
  }

  /** `u` is the first instant showing its wall time. */
  ghost predicate Earliest(z: Zone, u: int)
    requires Spaced(z)
  {
    forall v | Local(z, v) == Local(z, u) :: u <= v
  }

  /** Later wall times have later first instants: the order of the walls is the order of the runs. */
  lemma WallOrderIsInstantOrder(z: Zone, u: int, v: int)
    requires Spaced(z) && Earliest(z, u) && Earliest(z, v)
    ensures Local(z, u) < Local(z, v) <==> u < v
  {
    if Local(z, u) < Local(z, v) {
      Ordered(z, u, v);
    } else if Local(z, v) < Local(z, u) {
      Ordered(z, v, u);
    }
  }

  lemma Ordered(z: Zone, u: int, v: int)
    requires Spaced(z) && Earliest(z, u) && Local(z, u) < Local(z, v)
    ensures u < v
  {
    var j, k := Segment(z, Utc, u, |z.at|), Segment(z, Utc, v, |z.at|);
    if j < k {
      EdgesAscend(z, j, k - 1);
    } else if k < j {
      EdgesAscend(z, k, j - 1);
      assert Apart(z, k);
      TwinShows(z, Local(z, u), k);
    }
  }

  /** The instant of segment `k` with this wall time. */
  lemma TwinShows(z: Zone, w: int, k: nat)
    requires Spaced(z) && k <= |z.at|
    requires k > 0 ==> Edge(z, Utc, k - 1) <= w - z.offset[k]
    requires k < |z.at| ==> w - z.offset[k] < Edge(z, Utc, k)
    ensures Local(z, w - z.offset[k]) == w
  {
    SegmentIs(z, Utc, w - z.offset[k], k);
  }

  /** Walls up to the cutoff's own have their first instant by the cutoff. */
  lemma NothingBeforeTheStart(z: Zone, cutoff: int, u: int)
    requires Spaced(z) && Earliest(z, u) && Local(z, u) <= Local(z, cutoff)
    ensures u <= cutoff
  {
    if Local(z, u) < Local(z, cutoff) {
      Ordered(z, u, cutoff);
    }
  }

  /** The distinct instants found for one candidate: both folds, kept if they read back as
      it.  None at all if a conversion leaves the calendar. */
  method Instants(z: Zone, candidate: int) returns (instants: Option<seq<int>>)
    requires Spaced(z)
    ensures instants.Some? <==> Converts(z, candidate)
    ensures instants.Some? <==>
      && FIRST_TIME <= ToUtc(z, candidate, Fold0) <= LAST_TIME && FIRST_TIME <= ToUtc(z, candidate, Fold1) <= LAST_TIME
      && FIRST_TIME <= Local(z, ToUtc(z, candidate, Fold0)) <= LAST_TIME
      && FIRST_TIME <= Local(z, ToUtc(z, candidate, Fold1)) <= LAST_TIME
    ensures instants.Some? ==> forall u :: u in instants.value <==> Local(z, u) == candidate
  {
    var found: seq<int> := [];
    var fold := 0;
    while fold < 2
      invariant fold <= 2
      invariant fold > 0 ==> FoldConverts(z, candidate, Fold0)
      invariant fold > 1 ==> FoldConverts(z, candidate, Fold1)
      invariant forall u | u in found :: Local(z, u) == candidate
      invariant forall u | Local(z, u) == candidate ::
        (fold > 0 && u == ToUtc(z, candidate, Fold0)) || (fold > 1 && u == ToUtc(z, candidate, Fold1)) ==> u in found
    {
      var ruler := if fold == 0 then Fold0 else Fold1;
      var instant := ToUtc(z, candidate, ruler);
      if !InCalendar(instant) || !InCalendar(Local(z, instant)) {
        assert !FoldConverts(z, candidate, ruler);
        return None;
      }
      if Local(z, instant) == candidate && instant !in found { found := found + [instant]; }
      fold := fold + 1;
    }
    forall u | Local(z, u) == candidate ensures u in found {
      EveryInstantIsAFold(z, u);
    }
    return Some(found);
  }

  /** `min` of the instants found. */
  method Least(s: seq<int>) returns (least: int)
    requires s != []
    ensures least in s && forall x | x in s :: least <= x
  {
    least := s[0];
    for i := 1 to |s|
      invariant least in s && forall j | 0 <= j < i :: least <= s[j]
    {
      if s[i] < least { least := s[i]; }
    }
  }

  /** `first` is the first instant of a wall time, or there is none. */
  ghost predicate IsFirst(z: Zone, w: int, first: Option<int>)
    requires Spaced(z)
  {
    if first.Some? then Local(z, first.value) == w && Earliest(z, first.value) else forall u :: Local(z, u) != w
  }

  lemma OneFirst(z: Zone, w: int, a: Option<int>, b: Option<int>)
    requires Spaced(z) && IsFirst(z, w, a) && IsFirst(z, w, b)
    ensures a == b
  {
    if a.Some? && b.Some? {
      OneFirstInstant(z, a.value, b.value);
    }
  }

  /** A wall time that is no gap has a first instant: one of its two folds. */
  lemma FirstExists(z: Zone, w: int) returns (first: Option<int>)
    requires Spaced(z)
    ensures IsFirst(z, w, first)
  {
    var a, b := ToUtc(z, w, Fold0), ToUtc(z, w, Fold1);
    forall u | Local(z, u) == w ensures u == a || u == b {
      EveryInstantIsAFold(z, u);
    }
    if Local(z, a) == w && Local(z, b) == w {
      first := Some(Min(a, b));
    } else if Local(z, a) == w {
      first := Some(a);
    } else if Local(z, b) == w {
      first := Some(b);
    } else {
      first := None;
    }
  }

  /** The run a candidate stands for: None if a conversion leaves the calendar. */
  method FirstInstant(z: Zone, candidate: int, ghost first: Option<int>) returns (found: Option<Option<int>>)
    requires Spaced(z) && IsFirst(z, candidate, first)
    ensures found == if Converts(z, candidate) then Some(first) else None
  {
    var instants := Instants(z, candidate);
    if instants.None? { return None; }
    if instants.value == [] {
      OneFirst(z, candidate, first, None);
      return Some(None);
    }
    var instant := Least(instants.value);
    assert Local(z, instant) == candidate && Earliest(z, instant);
    OneFirst(z, candidate, first, Some(instant));
    return Some(Some(instant));
  }

  /** The first instant of a wall time is unique. */
  lemma OneFirstInstant(z: Zone, u: int, v: int)
    requires Spaced(z) && Earliest(z, u) && Earliest(z, v) && Local(z, u) == Local(z, v)
    ensures u == v
  {
  }

  /** A run of the schedule: the first instant of an admissible wall time, after the cutoff. */
  ghost predicate Occurs(z: Zone, admissible: iset<int>, cutoff: int, u: int)
    requires Spaced(z)
  {
    Local(z, u) in admissible && Earliest(z, u) && cutoff < u
  }

  /** The iterator's promise: from `start` on, every admissible wall time in order. */
  ghost predicate Streams(admissible: iset<int>, start: int, walls: seq<int>) {
    && (forall i, j | 0 <= i < j < |walls| :: walls[i] < walls[j])
    && (forall i | 0 <= i < |walls| :: start < walls[i] && walls[i] in admissible)
    && (|walls| > 0 ==> forall w | w in admissible && start < w <= walls[|walls| - 1] :: w in walls)
  }

  predicate Ascending(s: seq<int>) { forall i, j | 0 <= i < j < |s| :: s[i] < s[j] }

  /** `result` is every run whose wall time is among the first `n` candidates. */
  ghost predicate Covers(z: Zone, cutoff: int, walls: seq<int>, n: nat, result: seq<int>)
    requires Spaced(z) && n <= |walls|
  {
    && Ascending(result)
    && (forall i | 0 <= i < |result| :: Earliest(z, result[i]) && cutoff < result[i] && Local(z, result[i]) in walls[..n])
    && (forall u | Earliest(z, u) && cutoff < u && Local(z, u) in walls[..n] :: u in result)
  }

  lemma AscendingNext(z: Zone, cutoff: int, walls: seq<int>, n: nat, result: seq<int>, found: int)
    requires Spaced(z) && n < |walls| && Ascending(walls) && Covers(z, cutoff, walls, n, result)
    requires Local(z, found) == walls[n] && Earliest(z, found)
    ensures Ascending(result + [found])
  {
    forall i | 0 <= i < |result| ensures result[i] < found {
      assert Local(z, result[i]) in walls[..n];
      var k :| 0 <= k < n && walls[..n][k] == Local(z, result[i]);
      WallOrderIsInstantOrder(z, result[i], found);
    }
  }

  /** One candidate extends the result by its first instant after the cutoff, or by nothing. */
  function WithFirst(first: Option<int>, cutoff: int, result: seq<int>): seq<int> {
    if first.Some? && cutoff < first.value then result + [first.value] else result
  }

  lemma CoversNext(z: Zone, cutoff: int, walls: seq<int>, n: nat, result: seq<int>, first: Option<int>)
    requires Spaced(z) && n < |walls| && Ascending(walls) && Covers(z, cutoff, walls, n, result)
    requires IsFirst(z, walls[n], first)
    ensures Covers(z, cutoff, walls, n + 1, WithFirst(first, cutoff, result))
  {
    var more := WithFirst(first, cutoff, result);
    assert walls[..n + 1] == walls[..n] + [walls[n]];
    if first.Some? {
      AscendingNext(z, cutoff, walls, n, result, first.value);
    }
    forall i | 0 <= i < |more|
      ensures Earliest(z, more[i]) && cutoff < more[i] && Local(z, more[i]) in walls[..n + 1]
    {
      if i < |result| {
        assert more[i] == result[i];
      } else {
        assert more[i] == first.value;
      }
    }
    forall u | Earliest(z, u) && cutoff < u && Local(z, u) in walls[..n + 1] ensures u in more {
      FoundByNow(z, cutoff, walls, n, result, first, u);
    }
  }

  lemma FoundByNow(z: Zone, cutoff: int, walls: seq<int>, n: nat, result: seq<int>, first: Option<int>, u: int)
    requires Spaced(z) && n < |walls| && Covers(z, cutoff, walls, n, result) && IsFirst(z, walls[n], first)
    requires Earliest(z, u) && cutoff < u && (Local(z, u) in walls[..n] || Local(z, u) == walls[n])
    ensures u in WithFirst(first, cutoff, result)
  {
    if Local(z, u) == walls[n] {
      OneFirst(z, walls[n], first, Some(u));
    }
  }

  ghost predicate AreFirsts(z: Zone, walls: seq<int>, firsts: seq<Option<int>>)
    requires Spaced(z)
  {
    |firsts| == |walls| &&
    forall i {:trigger IsFirst(z, walls[i], firsts[i])} | 0 <= i < |walls| :: IsFirst(z, walls[i], firsts[i])
  }

  lemma {:induction false} FirstsExist(z: Zone, walls: seq<int>) returns (firsts: seq<Option<int>>)
    requires Spaced(z)
    ensures AreFirsts(z, walls, firsts)
    decreases |walls|
  {
    if walls == [] {
      firsts := [];
    } else {
      var last := |walls| - 1;
      var rest := FirstsExist(z, walls[..last]);
      var first := FirstExists(z, walls[last]);
      firsts := rest + [first];
      forall i | 0 <= i < |walls| ensures IsFirst(z, walls[i], firsts[i]) {
        if i < last {
          assert IsFirst(z, walls[..last][i], rest[i]);
        }
      }
    }
  }

  /** The runs among the first `n` candidates, in their order. */
  function RunsOf(firsts: seq<Option<int>>, cutoff: int, n: nat): seq<int>
    requires n <= |firsts|
  {
    if n == 0 then [] else WithFirst(firsts[n - 1], cutoff, RunsOf(firsts, cutoff, n - 1))
  }

  lemma {:induction false} RunsCover(
    z: Zone, cutoff: int, walls: seq<int>, firsts: seq<Option<int>>, n: nat, result: seq<int>)
    requires Spaced(z) && n <= |walls| && Ascending(walls) && AreFirsts(z, walls, firsts)
    requires result == RunsOf(firsts, cutoff, n)
    ensures Covers(z, cutoff, walls, n, result)
  {
    if n == 0 {
      assert walls[..0] == [];
    } else {
      var before := RunsOf(firsts, cutoff, n - 1);
      RunsCover(z, cutoff, walls, firsts, n - 1, before);
      assert IsFirst(z, walls[n - 1], firsts[n - 1]);
      CoversThen(z, cutoff, walls, n - 1, before, firsts[n - 1], result);
    }
  }

  lemma CoversThen(z: Zone, cutoff: int, walls: seq<int>, n: nat, before: seq<int>, first: Option<int>, result: seq<int>)
    requires Spaced(z) && n < |walls| && Ascending(walls) && Covers(z, cutoff, walls, n, before)
    requires IsFirst(z, walls[n], first) && result == WithFirst(first, cutoff, before)
    ensures Covers(z, cutoff, walls, n + 1, result)
  {
    CoversNext(z, cutoff, walls, n, before, first);
  }

  lemma {:induction false} RunsOnlyGrow(firsts: seq<Option<int>>, cutoff: int, n: nat, m: nat)
    requires n <= m <= |firsts|
    ensures RunsOf(firsts, cutoff, n) <= RunsOf(firsts, cutoff, m)
  {
    if n < m {
      RunsOnlyGrow(firsts, cutoff, n, m - 1);
    }
  }

  /** Exactly the first runs after the cutoff, up to the last one returned. */
  ghost predicate FirstRuns(z: Zone, admissible: iset<int>, cutoff: int, result: seq<int>)
    requires Spaced(z)
  {
    && Ascending(result)
    && (|result| > 0 ==> forall u | u <= result[|result| - 1] :: Occurs(z, admissible, cutoff, u) <==> u in result)
  }

  lemma CoveredRunsAreFirst(z: Zone, admissible: iset<int>, cutoff: int, walls: seq<int>, n: nat, result: seq<int>)
    requires Spaced(z) && n <= |walls| && Streams(admissible, Local(z, cutoff), walls)
    requires Covers(z, cutoff, walls, n, result)
    ensures FirstRuns(z, admissible, cutoff, result)
  {
    if |result| > 0 {
      var last := result[|result| - 1];
      forall u | u <= last ensures Occurs(z, admissible, cutoff, u) <==> u in result {
        if Occurs(z, admissible, cutoff, u) {
          if Local(z, u) <= Local(z, cutoff) {
            NothingBeforeTheStart(z, cutoff, u);
          }
          WallOrderIsInstantOrder(z, last, u);
          SeenByThen(walls, n, Local(z, u), Local(z, last));
        }
      }
    }
  }

  /** In an ascending list, what lies below a prefix member is in that prefix. */
  lemma SeenByThen(walls: seq<int>, n: nat, w: int, last: int)
    requires Ascending(walls) && n <= |walls| && last in walls[..n] && w <= last
    ensures |walls| > 0 && w <= walls[|walls| - 1]
    ensures w in walls ==> w in walls[..n]
  {
    var i :| 0 <= i < n && walls[i] == last;
    if w in walls {
      var j :| 0 <= j < |walls| && walls[j] == w;
      assert walls[..n][j] == w;
    }
  }

  /** Where the loop stops at the latest: at a candidate that does not convert, when the
      iterator raises, or after its last round. */
  predicate Reach(z: Zone, walls: seq<int>, n: nat)
    requires Spaced(z)
  {
    && n <= |walls| && n <= MAX_CANDIDATES && (forall i | 0 <= i < n :: Converts(z, walls[i]))
    && (n == |walls| || n == MAX_CANDIDATES || !Converts(z, walls[n]))
  }

  /** What the loop gives: the first `count` runs among the candidates within reach, or
      else the error of the place where it stops. */
  predicate Gives(firsts: seq<Option<int>>, cutoff: int, count: int, n: nat, runs: Result<seq<int>, Error>)
    requires n <= |firsts| && count >= 0
  {
    var all := RunsOf(firsts, cutoff, n);
    runs == if |all| >= count then Ok(all[..count]) else Err(ErrorAt(n, |firsts|))
  }

  function ErrorAt(n: nat, length: nat): Error {
    if n == MAX_CANDIDATES then NoPreview else if n == length then Horizon else OutOfRange
  }

  /** The result is what the candidates within reach give. */
  ghost predicate Explained(z: Zone, cutoff: int, count: int, walls: seq<int>, runs: Result<seq<int>, Error>)
    requires Spaced(z) && count >= 0
  {
    exists n: nat, firsts :: Reach(z, walls, n) && AreFirsts(z, walls, firsts) && Gives(firsts, cutoff, count, n, runs)
  }

  /** And a result is the first `count` runs of the schedule. */
  ghost predicate Answered(
    z: Zone, cutoff: int, count: int, walls: seq<int>, admissible: iset<int>, runs: Result<seq<int>, Error>)
    requires Spaced(z) && count >= 0
  {
    && Explained(z, cutoff, count, walls, runs)
    && (runs.Ok? ==> |runs.value| == count && FirstRuns(z, admissible, cutoff, runs.value))
  }

  /** Which error the loop ends with: nothing left to try, a candidate that does not
      convert, or ten thousand candidates and still too few runs. */
  predicate StopsAs(z: Zone, walls: seq<int>, n: nat, error: Error)
    requires Spaced(z) && n <= |walls| && n <= MAX_CANDIDATES && forall i | 0 <= i < n :: Converts(z, walls[i])
  {
    match error
    case Horizon => |walls| < MAX_CANDIDATES && n == |walls|
    case OutOfRange => n < MAX_CANDIDATES && n < |walls| && !Converts(z, walls[n])
    case NoPreview => n == MAX_CANDIDATES
    case _ => false
  }

  ghost predicate Stops(z: Zone, walls: seq<int>, error: Error)
    requires Spaced(z)
  {
    exists n: nat ::
      && n <= |walls| && n <= MAX_CANDIDATES && (forall i | 0 <= i < n :: Converts(z, walls[i]))
      && StopsAs(z, walls, n, error)
  }

  /** The checks before the loop. */
  function Refusal(zone: Option<Zone>, after: Stamp, count: int, shape: bool, cron: bool): Option<Error>
    requires zone.Some? ==> Spaced(zone.value)
  {
    if after.Naive? then Some(NotAware)
    else if !(1 <= count <= 20) then Some(BadCount)
    else if !shape then Some(BadShape)
    else if zone.None? then Some(UnknownZone)
    else if !InCalendar(after.wall - after.offset) || !InCalendar(Local(zone.value, after.wall - after.offset)) then
      Some(CutoffOutOfRange)
    else if !cron then Some(BadExpression)
    else None
  }

  /** The cutoff is a time of the years 1 to 9999, in UTC and in the zone. */
  predicate CutoffFits(z: Zone, after: Stamp)
    requires Spaced(z) && after.Aware?
  {
    var cutoff := after.wall - after.offset;
    FIRST_TIME <= cutoff <= LAST_TIME && FIRST_TIME <= Local(z, cutoff) <= LAST_TIME
  }

  /** `walls` is what the iterator yields before it raises, `shape` and `cron` whether the
      expression passes the checks made here and those of the iterator. */
  method Preview(zone: Option<Zone>, after: Stamp, count: int, shape: bool, cron: bool, walls: seq<int>,
                 ghost admissible: iset<int>)
      returns (runs: Result<seq<int>, Error>)
    requires zone.Some? ==> Spaced(zone.value)
    requires zone.Some? && after.Aware? ==>
      Streams(admissible, Local(zone.value, after.wall - after.offset), walls)
    ensures var refusal := Refusal(zone, after, count, shape, cron);
      if refusal.Some? then runs == Err(refusal.value)
      else
        && Answered(zone.value, after.wall - after.offset, count, walls, admissible, runs)
        && (runs.Err? ==> Stops(zone.value, walls, runs.error))
    ensures runs == Err(NotAware) <==> after == Naive
    ensures runs == Err(BadCount) <==> after != Naive && (count < 1 || 20 < count)
    ensures runs == Err(BadShape) <==> after != Naive && 1 <= count && count <= 20 && shape == false
    ensures runs == Err(UnknownZone) <==> after != Naive && 1 <= count && count <= 20 && shape && zone == None
    ensures runs == Err(BadExpression) ==> shape && zone != None && cron == false
    ensures runs == Err(CutoffOutOfRange) ==> zone != None && after != Naive && !CutoffFits(zone.value, after)
    ensures runs.Ok? ==> shape && cron && zone != None && after != Naive && CutoffFits(zone.value, after)
  {
    if after.Naive? { return Err(NotAware); }
    if !(1 <= count <= 20) { return Err(BadCount); }
    if !shape { return Err(BadShape); }
    if zone.None? { return Err(UnknownZone); }
    var z, cutoff := zone.value, after.wall - after.offset;
    if !InCalendar(cutoff) || !InCalendar(Local(z, cutoff)) { return Err(CutoffOutOfRange); }
    if !cron { return Err(BadExpression); }
    runs := Runs(z, cutoff, count, walls, admissible);
  }

  /** The loop, and what its result means. */
  method Runs(z: Zone, cutoff: int, count: int, walls: seq<int>, ghost admissible: iset<int>)
    returns (runs: Result<seq<int>, Error>)
    requires Spaced(z) && count >= 1 && Streams(admissible, Local(z, cutoff), walls)
    ensures Answered(z, cutoff, count, walls, admissible, runs)
    ensures runs.Err? ==> Stops(z, walls, runs.error)
  {
    ghost var firsts := FirstsExist(z, walls);
    var n;
    runs, n := Collect(z, cutoff, count, walls, firsts);
    LoopExplained(z, cutoff, count, walls, firsts, n, runs);
    if runs.Ok? {
      RunsCover(z, cutoff, walls, firsts, n, runs.value);
      CoveredRunsAreFirst(z, admissible, cutoff, walls, n, runs.value);
    }
  }

  lemma LoopExplained(
    z: Zone, cutoff: int, count: nat, walls: seq<int>, firsts: seq<Option<int>>, n: nat, runs: Result<seq<int>, Error>)
    requires Spaced(z) && AreFirsts(z, walls, firsts)
    requires n <= |walls| && n <= MAX_CANDIDATES && forall i | 0 <= i < n :: Converts(z, walls[i])
    requires runs.Ok? ==> runs.value == RunsOf(firsts, cutoff, n) && |runs.value| == count
    requires runs.Err? ==>
      |RunsOf(firsts, cutoff, n)| < count && Reach(z, walls, n) && runs.error == ErrorAt(n, |walls|)
    ensures Explained(z, cutoff, count, walls, runs)
  {
    var m := FarthestReach(z, walls, n);
    GivesFrom(firsts, cutoff, count, n, m, runs);
    assert Reach(z, walls, m) && AreFirsts(z, walls, firsts) && Gives(firsts, cutoff, count, m, runs);
  }

  /** Candidates after the last one taken change nothing. */
  lemma GivesFrom(firsts: seq<Option<int>>, cutoff: int, count: nat, n: nat, m: nat, runs: Result<seq<int>, Error>)
    requires n <= m <= |firsts| && (runs.Err? ==> m == n)
    requires runs.Ok? ==> runs.value == RunsOf(firsts, cutoff, n) && |runs.value| == count
    requires runs.Err? ==> |RunsOf(firsts, cutoff, n)| < count && runs.error == ErrorAt(n, |firsts|)
    ensures Gives(firsts, cutoff, count, m, runs)
  {
    RunsOnlyGrow(firsts, cutoff, n, m);
    if runs.Ok? {
      assert RunsOf(firsts, cutoff, m)[..count] == runs.value;
    }
  }

  /** The loop over the candidates; `n` of them were taken. */
  method Collect(z: Zone, cutoff: int, count: int, walls: seq<int>, ghost firsts: seq<Option<int>>)
    returns (runs: Result<seq<int>, Error>, n: nat)
    requires Spaced(z) && count >= 1 && AreFirsts(z, walls, firsts)
    ensures n <= |walls| && n <= MAX_CANDIDATES && forall i | 0 <= i < n :: Converts(z, walls[i])
    ensures runs.Ok? ==> runs.value == RunsOf(firsts, cutoff, n) && |runs.value| == count
    ensures runs.Err? ==> |RunsOf(firsts, cutoff, n)| < count && Reach(z, walls, n)
    ensures runs.Err? ==> runs.error == ErrorAt(n, |walls|) && StopsAs(z, walls, n, runs.error)
  {
    var result := [];
    n := 0;
    while n < MAX_CANDIDATES
      invariant n <= MAX_CANDIDATES && n <= |walls| && |result| < count
      invariant forall i | 0 <= i < n :: Converts(z, walls[i])
      invariant result == RunsOf(firsts, cutoff, n)
    {
      if n == |walls| { return Err(Horizon), n; }
      assert IsFirst(z, walls[n], firsts[n]);
      var found := FirstInstant(z, walls[n], firsts[n]);
      if found.None? { return Err(OutOfRange), n; }
      if found.value.Some? && cutoff < found.value.value { result := result + [found.value.value]; }
      n := n + 1;
      if |result| == count { return Ok(result), n; }
    }
    return Err(NoPreview), n;
  }

  lemma {:induction false} FarthestReach(z: Zone, walls: seq<int>, n: nat) returns (m: nat)
    requires Spaced(z) && n <= |walls| && n <= MAX_CANDIDATES && forall i | 0 <= i < n :: Converts(z, walls[i])
    ensures n <= m && Reach(z, walls, m)
    ensures Reach(z, walls, n) ==> m == n
    decreases |walls| - n
  {
    if n == |walls| || n == MAX_CANDIDATES || !Converts(z, walls[n]) {
      m := n;
    } else {
      m := FarthestReach(z, walls, n + 1);
    }
  }
}
