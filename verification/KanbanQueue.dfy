/** Which due schedules a dispatcher pass reaches.  The query returns the first hundred
    due rows, and a row that the pass skips stays due: enough of them hide the rest. */
module KanbanQueue {
  import opened Wrappers
  import opened KanbanSchedules

  /** The due rows that come before `id`. */
  function Ahead(rows: map<nat, Row>, now: int, id: nat): set<nat>
    requires id in rows && rows[id].next.Some?
  {
    set x | x in rows && Due(rows[x], now) && Before(rows, x, id)
  }

  lemma {:induction false} Elements(s: seq<nat>)
    requires forall i, j | 0 <= i < j < |s| :: s[i] != s[j]
    ensures |set i | 0 <= i < |s| :: s[i]| == |s|
  {
    var all := set i | 0 <= i < |s| :: s[i];
    if s == [] {
      assert all == {};
    } else {
      var last := |s| - 1;
      Elements(s[..last]);
      assert all == (set i | 0 <= i < last :: s[..last][i]) + {s[last]};
    }
  }

  lemma Smaller(a: set<nat>, b: set<nat>)
    requires a <= b
    ensures |a| <= |b|
  {
    assert a + (b - a) == b;
  }

  lemma AnswerIsDistinct(rows: map<nat, Row>, now: int, due: seq<nat>, n: nat)
    requires Query(rows, now, due) && n <= |due|
    ensures |set i | 0 <= i < n :: due[i]| == n
  {
    var s := due[..n];
    forall i, j | 0 <= i < j < |s| ensures s[i] != s[j] {
      assert Before(rows, due[i], due[j]);
    }
    Elements(s);
    assert (set i | 0 <= i < |s| :: s[i]) == set i | 0 <= i < n :: due[i];
  }

  /** The answer holds exactly the due rows with fewer than a hundred due rows ahead. */
  lemma AnswerIsTheFirstHundred(rows: map<nat, Row>, now: int, due: seq<nat>, id: nat)
    requires Query(rows, now, due) && id in rows && Due(rows[id], now)
    ensures id in due <==> |Ahead(rows, now, id)| < QUERY_LIMIT
  {
    if id in due {
      var p :| 0 <= p < |due| && due[p] == id;
      forall x | x in Ahead(rows, now, id) ensures x in set i | 0 <= i < p :: due[i] {
        ComesEarlier(rows, now, due, x, p);
      }
      AnswerIsDistinct(rows, now, due, p);
      Smaller(Ahead(rows, now, id), set i | 0 <= i < p :: due[i]);
    } else {
      AnswerIsDistinct(rows, now, due, |due|);
      Smaller(set i | 0 <= i < |due| :: due[i], Ahead(rows, now, id));
    }
  }

  lemma ComesEarlier(rows: map<nat, Row>, now: int, due: seq<nat>, x: nat, p: nat)
    requires Query(rows, now, due) && p < |due| && x in Ahead(rows, now, due[p])
    ensures exists q | 0 <= q < p :: due[q] == x
  {
    assert x in due;
    var q :| 0 <= q < |due| && due[q] == x;
    assert q < p || q == p || Before(rows, due[p], due[q]);
  }

  /** What a pass leaves of a due row that is not held: it is handled, or, with a hundred
      due rows ahead, untouched. */
  lemma ReachedExactlyWithinAHundred(
    rows: map<nat, Row>, status: map<nat, Status>, held: set<nat>, stuck: set<nat>, now: int, due: seq<nat>, id: nat)
    requires Query(rows, now, due) && id in rows && Due(rows[id], now) && id !in held
    ensures var after := RowsAfter(rows, status, held, stuck, now, due);
      id in after && after[id] == if |Ahead(rows, now, id)| < QUERY_LIMIT
        then TickRow(rows[id], StatusOf(status, id), now, id in stuck) else rows[id]
  {
    RowsAfterAt(rows, status, held, stuck, now, due, id);
    AnswerIsTheFirstHundred(rows, now, due, id);
  }

  // Any sequence of passes.

  /** One pass, and what is edited before it. */
  datatype Pass = Pass(
    edits: map<nat, Row>, status: map<nat, Status>, held: set<nat>, stuck: set<nat>, now: int, due: seq<nat>)

  function Passed(rows: map<nat, Row>, p: Pass): map<nat, Row>
    requires Query(rows + p.edits, p.now, p.due)
  {
    RowsAfter(rows + p.edits, p.status, p.held, p.stuck, p.now, p.due)
  }

  ghost predicate Passes(rows: map<nat, Row>, ps: seq<Pass>)
    decreases |ps|
  {
    ps == [] || (Query(rows + ps[0].edits, ps[0].now, ps[0].due) && Passes(Passed(rows, ps[0]), ps[1..]))
  }

  ghost function RowsEnd(rows: map<nat, Row>, ps: seq<Pass>): map<nat, Row>
    requires Passes(rows, ps)
    decreases |ps|
  {
    if ps == [] then rows else RowsEnd(Passed(rows, ps[0]), ps[1..])
  }

  /** The pass does nothing with row `x`, should it come to it. */
  predicate Spurns(rows: map<nat, Row>, p: Pass, x: nat)
    requires x in rows
  {
    x in p.held || Skipped(rows[x], StatusOf(p.status, x), x in p.stuck)
  }

  /** The pass comes no earlier than `since`, edits no row of `s` and spurns them all. */
  predicate LeavesAlone(rows: map<nat, Row>, p: Pass, s: set<nat>, id: nat, since: int) {
    && since <= p.now && id !in p.edits
    && forall x | x in s :: x in rows && x !in p.edits && Spurns(rows, p, x)
  }

  /** The rows of `s` were due at `since` and come before `id`. */
  predicate InFront(rows: map<nat, Row>, s: set<nat>, id: nat, since: int) {
    id in rows && rows[id].next.Some? && forall x | x in s :: x in rows && Due(rows[x], since) && Before(rows, x, id)
  }

  lemma PassIsBlocked(rows: map<nat, Row>, p: Pass, s: set<nat>, id: nat, since: int)
    requires |s| >= QUERY_LIMIT && InFront(rows, s, id, since) && LeavesAlone(rows, p, s, id, since)
    requires Query(rows + p.edits, p.now, p.due)
    ensures id !in p.due
    ensures var after := Passed(rows, p);
      id in after && after[id] == rows[id] && forall x | x in s :: x in after && after[x] == rows[x]
  {
    var edited := rows + p.edits;
    forall x | x in s ensures x in Passed(rows, p) && Passed(rows, p)[x] == rows[x] {
      RowsAfterAt(edited, p.status, p.held, p.stuck, p.now, p.due, x);
    }
    forall x | x in s ensures x in Ahead(edited, p.now, id) {
      assert Due(rows[x], since) && Before(rows, x, id);
    }
    Smaller(s, Ahead(edited, p.now, id));
    RowsAfterAt(edited, p.status, p.held, p.stuck, p.now, p.due, id);
    if Due(edited[id], p.now) {
      AnswerIsTheFirstHundred(edited, p.now, p.due, id);
    }
  }

  /** As long as every pass spurns a hundred due rows that come before it and nobody edits
      them, a row is never reached, whatever happens to all the others. */
  lemma {:induction false} SkippedRowsBlockTheQueue(rows: map<nat, Row>, ps: seq<Pass>, s: set<nat>, id: nat, since: int)
    requires Passes(rows, ps) && |s| >= QUERY_LIMIT && InFront(rows, s, id, since)
    requires forall k | 0 <= k < |ps| :: LeavesAlone(rows, ps[k], s, id, since)
    ensures forall k | 0 <= k < |ps| :: id !in ps[k].due
    ensures id in RowsEnd(rows, ps) && RowsEnd(rows, ps)[id] == rows[id]
    decreases |ps|
  {
    if ps != [] {
      assert LeavesAlone(rows, ps[0], s, id, since);
      PassIsBlocked(rows, ps[0], s, id, since);
      var after := Passed(rows, ps[0]);
      var rest := ps[1..];
      forall k | 0 <= k < |rest| ensures LeavesAlone(after, rest[k], s, id, since) {
        assert rest[k] == ps[k + 1] && LeavesAlone(rows, ps[k + 1], s, id, since);
        forall x | x in s ensures x in after && x !in rest[k].edits && Spurns(after, rest[k], x) {
          assert Spurns(rows, ps[k + 1], x);
        }
      }
      assert InFront(after, s, id, since);
      SkippedRowsBlockTheQueue(after, rest, s, id, since);
      forall k | 0 <= k < |ps| ensures id !in ps[k].due {
        if k > 0 {
          assert rest[k - 1] == ps[k];
        }
      }
    }
  }

  // The failure itself.

  function Numbers(n: nat): (s: set<nat>)
    ensures |s| == n && forall i: nat :: i in s <==> i < n
  {
    if n == 0 then {} else Numbers(n - 1) + {n - 1}
  }

  /** `n` repeating schedules of tasks that are not waiting, and one behind them that is. */
  function CrowdRow(n: nat, i: nat): Row { Row(Interval, Some(if i < n then 0 else 1), MIN_INTERVAL, true, 0) }

  function Crowd(n: nat): map<nat, Row> { map i | i in Numbers(n) + {n} :: CrowdRow(n, i) }

  function CrowdStatus(n: nat): map<nat, Status> { map i | i in Numbers(n) + {n} :: if i < n then Released else Scheduled }

  predicate OverTheCrowd(n: nat, p: Pass) { p.edits == map[] && p.status == CrowdStatus(n) && p.now >= 1 }

  lemma CrowdIsInFront(n: nat)
    ensures InFront(Crowd(n), Numbers(n), n, 1)
  {
  }

  lemma CrowdIsLeftAlone(n: nat, p: Pass)
    requires OverTheCrowd(n, p)
    ensures LeavesAlone(Crowd(n), p, Numbers(n), n, 1)
  {
    var (rows, s) := (Crowd(n), Numbers(n));
    forall x | x in s ensures x in rows && x !in p.edits && Spurns(rows, p, x) {
      assert p.status[x] == Released && rows[x] == CrowdRow(n, x);
    }
  }

  /** The row behind a hundred or more is due and would be released, but no pass ever reaches it. */
  lemma ReleasableRowStarves(n: nat, ps: seq<Pass>)
    requires n >= QUERY_LIMIT && Passes(Crowd(n), ps) && forall k | 0 <= k < |ps| :: OverTheCrowd(n, ps[k])
    ensures n in Crowd(n) && Due(Crowd(n)[n], 1) && Fires(Crowd(n)[n], StatusOf(CrowdStatus(n), n), false)
    ensures forall k | 0 <= k < |ps| :: n !in ps[k].due
    ensures n in RowsEnd(Crowd(n), ps) && RowsEnd(Crowd(n), ps)[n] == Crowd(n)[n]
  {
    CrowdIsInFront(n);
    forall k | 0 <= k < |ps| ensures LeavesAlone(Crowd(n), ps[k], Numbers(n), n, 1) {
      CrowdIsLeftAlone(n, ps[k]);
    }
    SkippedRowsBlockTheQueue(Crowd(n), ps, Numbers(n), n, 1);
  }

  /** Such passes exist: the query answers with the first hundred of the crowd. */
  lemma CrowdIsTheAnswer(n: nat, now: int)
    requires n >= QUERY_LIMIT && now >= 1
    ensures Query(Crowd(n), now, seq(QUERY_LIMIT, i => i))
  {
    var due: seq<nat> := seq(QUERY_LIMIT, i => i);
    forall i | 0 <= i < |due| ensures due[i] in Crowd(n) && Crowd(n)[due[i]] == CrowdRow(n, i) {
      assert i in Numbers(n);
    }
    forall i, j | 0 <= i < j < |due| ensures Before(Crowd(n), due[i], due[j]) {
    }
    forall i | 0 <= i < QUERY_LIMIT ensures i in due {
      assert due[i] == i;
    }
  }
}
