/** When a reconcile pass loses sight of a grant: the row it read before it took the
    fence names an admission, and Control may by then hold another one. */
module AdmissionLeaks {
  import opened Wrappers
  import opened AdmissionProtocol
  import opened AdmissionControl

  /** Control holds a grant, and the row says that the intent waits or is settled. */
  ghost predicate Leaked(w: World, c: Ledger) {
    && w.row.Some? && (w.row.value.state == Waiting || w.row.value.state == Settled)
    && exists i :: HeldIn(c, i)
  }

  /** The writes and calls of one program. */
  predicate OwnEffects(moves: seq<Move>) { forall k | 0 <= k < |moves| :: moves[k].step.Write? || moves[k].step.Call? }

  /** A reconcile pass with this row, against an honest Control, ends with a leak. */
  ghost predicate PassLeaks(w: World, c: Ledger, snapshot: Row, abandoned: bool, c1: Ledger, moves: seq<Move>) {
    var pass := [Move(ReconAcquire(snapshot, abandoned), c1)] + moves;
    && OwnEffects(moves) && HonestRun(w, c, pass)
    && Leaked(End(w, c, pass).0, End(w, c, pass).1)
  }

  ghost predicate CanLeak(w: World, c: Ledger, snapshot: Row, abandoned: bool) {
    exists c1, moves :: PassLeaks(w, c, snapshot, abandoned, c1, moves)
  }

  // A pass that is not misled leaks nothing.

  lemma NoLeakMeansNotLeaked(w: World, c: Ledger)
    requires NoLeak(w, c)
    ensures !Leaked(w, c)
  {
    forall i | HeldIn(c, i) ensures RowAccounts(w.row, i) {
      assert Accounted(w, i);
    }
  }

  lemma EffectKeepsRetiring(w: World, s: Step)
    requires Enabled(w, s) && (s.Write? || s.Call?) && (w.ran ==> Retiring(w.pc))
    ensures Apply(w, s).ran ==> Retiring(Apply(w, s).pc)
  {
    if s.Write? {
      assert WrittenState(w.pc) == Finished ==> w.pc.FinishSave?;
    }
  }

  lemma {:induction false} EffectsKeepNoLeak(w: World, c: Ledger, moves: seq<Move>)
    requires (w.ran ==> Retiring(w.pc)) && Carried(w) && NoLeak(w, c)
    requires HonestRun(w, c, moves) && OwnEffects(moves)
    ensures NoLeak(End(w, c, moves).0, End(w, c, moves).1)
    decreases |moves|
  {
    if moves != [] {
      var s := moves[0].step;
      assert s.Write? || s.Call?;
      StepKeepsCarried(w, s);
      StepKeepsNoLeak(w, s, c, moves[0].after);
      EffectKeepsRetiring(w, s);
      EffectsKeepNoLeak(Apply(w, s), moves[0].after, moves[1..]);
    }
  }

  /** The programs a reconciler can be in; none of them claims. */
  predicate Reconciling(pc: Pc) {
    || pc == Free || pc.AbortSave? || pc == AbortAsk || pc.AbortTell? || pc.AbortSettle?
    || pc.FinishSave? || pc.FinishTell? || pc.FinishSettle?
    || pc.ReconAsk? || pc.ReconKeep? || pc.DeferTell? || pc == DeferWait || pc.DeferClaim?
  }

  lemma {:induction false} NothingHeldStays(w: World, c: Ledger, moves: seq<Move>)
    requires HonestRun(w, c, moves) && OwnEffects(moves) && Reconciling(w.pc) && forall i :: !HeldIn(c, i)
    ensures forall i :: !HeldIn(End(w, c, moves).1, i)
    decreases |moves|
  {
    if moves != [] {
      assert moves[0].step.Write? || moves[0].step.Call?;
      NothingHeldStays(Apply(w, moves[0].step), moves[0].after, moves[1..]);
    }
  }

  lemma PassBegins(w: World, c: Ledger, snapshot: Row, abandoned: bool, c1: Ledger, moves: seq<Move>)
    requires PassLeaks(w, c, snapshot, abandoned, c1, moves)
    ensures var entry := ReconAcquire(snapshot, abandoned);
      && Enabled(w, entry) && Honest(w, entry, c, c1) && OwnEffects(moves)
      && HonestRun(Apply(w, entry), c1, moves)
      && Leaked(End(Apply(w, entry), c1, moves).0, End(Apply(w, entry), c1, moves).1)
  {
    var pass := [Move(ReconAcquire(snapshot, abandoned), c1)] + moves;
    assert pass[0] == Move(ReconAcquire(snapshot, abandoned), c1) && pass[1..] == moves;
  }

  lemma RestOfPassIsClean(v: World, c: Ledger, moves: seq<Move>)
    requires Carried(v) && NoLeak(v, c) && HonestRun(v, c, moves) && OwnEffects(moves)
    requires (v.ran ==> Retiring(v.pc)) || (Reconciling(v.pc) && forall i :: !HeldIn(c, i))
    ensures !Leaked(End(v, c, moves).0, End(v, c, moves).1)
  {
    if v.ran ==> Retiring(v.pc) {
      EffectsKeepNoLeak(v, c, moves);
      NoLeakMeansNotLeaked(End(v, c, moves).0, End(v, c, moves).1);
    } else {
      NothingHeldStays(v, c, moves);
    }
  }

  /** What a reconciler that is not misled begins with. */
  lemma EntryIsClean(w: World, c: Ledger, snapshot: Row, abandoned: bool, c1: Ledger)
    requires Carried(w) && NoLeak(w, c) && FenceFree(w) && snapshot in w.past
    requires Honest(w, ReconAcquire(snapshot, abandoned), c, c1) && !Misled(w, c, snapshot, abandoned)
    ensures var v := Apply(w, ReconAcquire(snapshot, abandoned));
      && Carried(v) && NoLeak(v, c1)
      && ((v.ran ==> Retiring(v.pc)) || (Reconciling(v.pc) && forall i :: !HeldIn(c1, i)))
  {
    var entry := ReconAcquire(snapshot, abandoned);
    StepKeepsCarried(w, entry);
    StepKeepsNoLeak(w, entry, c, c1);
    forall i | HeldIn(c1, i) ensures HeldIn(c, i) {
    }
  }

  lemma OnlyTheMisledLeak(w: World, c: Ledger, snapshot: Row, abandoned: bool, c1: Ledger, moves: seq<Move>)
    requires Carried(w) && NoLeak(w, c) && FenceFree(w) && snapshot in w.past
    requires PassLeaks(w, c, snapshot, abandoned, c1, moves)
    ensures Misled(w, c, snapshot, abandoned)
  {
    PassBegins(w, c, snapshot, abandoned, c1, moves);
    if !Misled(w, c, snapshot, abandoned) {
      EntryIsClean(w, c, snapshot, abandoned, c1);
      RestOfPassIsClean(Apply(w, ReconAcquire(snapshot, abandoned)), c1, moves);
    }
  }

  // A pass that is misled can leak.

  /** From `v` on, the writes and calls of one program can lead to a leak. */
  ghost predicate Leaks(v: World, c: Ledger) {
    exists moves :: OwnEffects(moves) && HonestRun(v, c, moves) && Leaked(End(v, c, moves).0, End(v, c, moves).1)
  }

  lemma LeaksAlready(v: World, c: Ledger)
    requires Leaked(v, c)
    ensures Leaks(v, c)
  {
    assert OwnEffects([]) && HonestRun(v, c, []) && End(v, c, []) == (v, c);
  }

  lemma LeaksSoon(v: World, c: Ledger, s: Step, c': Ledger)
    requires Enabled(v, s) && Honest(v, s, c, c') && (s.Write? || s.Call?) && Leaks(Apply(v, s), c')
    ensures Leaks(v, c)
  {
    var u := Apply(v, s);
    var moves :| OwnEffects(moves) && HonestRun(u, c', moves) && Leaked(End(u, c', moves).0, End(u, c', moves).1);
    var all := [Move(s, c')] + moves;
    assert all[0] == Move(s, c') && all[1..] == moves;
    assert OwnEffects(all);
  }

  /** The last write of the pass. */
  lemma LastWriteLeaks(v: World, c: Ledger, i: nat)
    requires Writing(v.pc) && (WrittenState(v.pc) == Waiting || WrittenState(v.pc) == Settled) && HeldIn(c, i)
    requires c[i] == Active ==> v.ran
    ensures Leaks(v, c)
  {
    LeaksAlready(Apply(v, Write), c);
    LeaksSoon(v, c, Write, c);
  }

  /** Giving up another admission leaves this one behind. */
  lemma GivingUpLeaks(v: World, c: Ledger, i: nat)
    requires (v.pc.AbortTell? || v.pc.FinishTell?) && v.pc.own.Grant? && v.pc.own.id != i && HeldIn(c, i)
    requires c[i] == Active ==> v.ran
    ensures Leaks(v, c)
  {
    var c' := c[v.pc.own.id := Dropped];
    var s := Call(Answer(v.pc.own.id, Dropped));
    LastWriteLeaks(Apply(v, s), c', i);
    LeaksSoon(v, c, s, c');
  }

  /** The same, from the program's first write on. */
  lemma AbortLeaks(v: World, c: Ledger, i: nat)
    requires (v.pc.AbortSave? || v.pc.FinishSave?) && v.pc.own.Grant? && v.pc.own.id != i && HeldIn(c, i)
    requires c[i] == Active ==> v.ran
    ensures Leaks(v, c)
  {
    var u := Apply(v, Write);
    GivingUpLeaks(u, c, i);
    LeaksSoon(v, c, Write, c);
  }

  /** And so does putting a claim back: another grant is held, or the claimed one has run. */
  lemma KeepingLeaks(v: World, c: Ledger, i: nat)
    requires v.pc.ReconAsk? && v.pc.own.Grant? && HeldIn(c, i)
    requires v.pc.own.id != i || v.ran
    requires c[i] == Active ==> v.ran
    ensures Leaks(v, c)
  {
    var o := v.pc.own.id;
    var grade := if o == i then Active else Queued;
    var c' := c[o := grade];
    var s := Call(Answer(o, grade));
    LastWriteLeaks(Apply(v, s), c', i);
    LeaksSoon(v, c, s, c');
  }

  lemma TheMisledCanLeak(w: World, c: Ledger, snapshot: Row, abandoned: bool)
    requires Carried(w) && NoLeak(w, c) && FenceFree(w) && snapshot in w.past && Misled(w, c, snapshot, abandoned)
    ensures CanLeak(w, c, snapshot, abandoned)
  {
    var i :| HeldIn(c, i) && (!Names(snapshot.admission, i) || (snapshot.state == Claiming && w.ran));
    assert Named(snapshot);
    var entry := ReconAcquire(snapshot, abandoned);
    var v := Apply(w, entry);
    if v.pc.ReconAsk? {
      KeepingLeaks(v, c, i);
    } else {
      AbortLeaks(v, c, i);
    }
    var moves :| OwnEffects(moves) && HonestRun(v, c, moves) && Leaked(End(v, c, moves).0, End(v, c, moves).1);
    var pass := [Move(entry, c)] + moves;
    assert pass[0] == Move(entry, c) && pass[1..] == moves;
    assert PassLeaks(w, c, snapshot, abandoned, c, moves);
  }

  /** From any state in which every grant is accounted for: a reconcile pass with a row
      it read earlier can leave a grant behind a waiting or settled row exactly when it is
      misled, that is, when it acts under an admission and Control holds another grant than
      that, or one the row calls claiming although the intent has run. */
  lemma LeaksExactlyWhenMisled(w: World, c: Ledger, snapshot: Row, abandoned: bool)
    requires Carried(w) && NoLeak(w, c) && FenceFree(w) && snapshot in w.past
    ensures CanLeak(w, c, snapshot, abandoned) <==> Misled(w, c, snapshot, abandoned)
  {
    if CanLeak(w, c, snapshot, abandoned) {
      var c1, moves :| PassLeaks(w, c, snapshot, abandoned, c1, moves);
      OnlyTheMisledLeak(w, c, snapshot, abandoned, c1, moves);
    }
    if Misled(w, c, snapshot, abandoned) {
      TheMisledCanLeak(w, c, snapshot, abandoned);
    }
  }

  /** A reconciler that finds the row as it read it is neither misled nor late. */
  lemma CurrentRowMisleadsNobody(w: World, c: Ledger, snapshot: Row, abandoned: bool)
    requires Safe(w) && NoLeak(w, c) && w.row == Some(snapshot)
    ensures !Misled(w, c, snapshot, abandoned) && !StaleClaim(w, snapshot)
  {
    forall i | HeldIn(c, i) ensures RowAccounts(w.row, i) {
      assert Accounted(w, i);
    }
  }

  // A run from the start that leaks.

  /** The first claim is journalled and made, and its reply is lost. */
  lemma FirstClaimLost() returns (v: World)
    ensures Reachable(Cron, v, map[1 := Claimed]) && FenceFree(v) && v.kind == Cron && v.handoffs == 0
    ensures v.row == Some(Row(Claiming, Grant(1, Offered))) && v.row.value in v.past
  {
    var d: Ledger := map[];
    v := Initial(Cron);
    assert Reachable(Cron, v, d) by {
      assert HonestRun(v, d, []) && End(v, d, []) == (v, d);
    }
    v := Take(v, d, PollAcquire, d);
    v := Take(v, d, Write, d);
    v := OfferLost(v, d, 1, map[1 := Offered], map[1 := Claimed]);
  }

  /** A poll registers admission `i`, is offered it, and loses the reply to its claim. */
  lemma OfferLost(v: World, d: Ledger, i: nat, offered: Ledger, claimed: Ledger) returns (v': World)
    requires Reachable(Cron, v, d) && v.pc == Asking && v.gate == Empty && v.kind == Cron
    requires forall j | j in offered :: !Held(offered[j])
    requires i in offered && offered[i] == Offered && claimed == offered[i := Claimed]
    ensures Reachable(Cron, v', claimed) && v'.pc == Free && v'.worker == v.worker && v'.kind == Cron
    ensures v'.row == Some(Row(Claiming, Grant(i, Offered))) && v.past <= v'.past && v'.row.value in v'.past
    ensures v'.handoffs == v.handoffs
  {
    v' := Take(v, d, Call(Answer(i, Offered)), offered);
    v' := ClaimLost(v', offered, i, claimed);
  }

  lemma ClaimLost(v: World, offered: Ledger, i: nat, claimed: Ledger) returns (v': World)
    requires Reachable(Cron, v, offered) && v.pc == Keeping && v.gate == Grant(i, Offered) && v.kind == Cron
    requires i in offered && offered[i] == Offered && claimed == offered[i := Claimed]
    ensures Reachable(Cron, v', claimed) && v'.pc == Free && v'.worker == v.worker && v'.kind == Cron
    ensures v'.row == Some(Row(Claiming, Grant(i, Offered))) && v.past <= v'.past && v'.row.value in v'.past
    ensures v'.handoffs == v.handoffs
  {
    v' := Take(v, offered, Write, offered);
    v' := Take(v', offered, Write, offered);
    v' := Take(v', offered, Call(Unavailable), claimed);
  }

  /** The next poll finds the grant, gives it back, and the intent waits again. */
  lemma ClaimGivenBack(v: World) returns (v': World)
    requires Reachable(Cron, v, map[1 := Claimed]) && FenceFree(v) && v.kind == Cron
    requires v.row == Some(Row(Claiming, Grant(1, Offered)))
    ensures Reachable(Cron, v', map[1 := Dropped]) && FenceFree(v') && v'.kind == Cron && v'.handoffs == v.handoffs
    ensures v'.row == Some(Row(Waiting, Empty)) && v.past <= v'.past
  {
    v' := Take(v, map[1 := Claimed], PollAcquire, map[1 := Claimed]);
    v' := Take(v', map[1 := Claimed], Call(Answer(1, Claimed)), map[1 := Claimed]);
    v' := Take(v', map[1 := Claimed], Call(Answer(1, Dropped)), map[1 := Dropped]);
    v' := Take(v', map[1 := Dropped], Write, map[1 := Dropped]);
  }

  lemma SecondClaimLost(v: World) returns (v': World)
    requires Reachable(Cron, v, map[1 := Dropped]) && FenceFree(v) && v.kind == Cron
    requires v.row == Some(Row(Waiting, Empty))
    ensures Reachable(Cron, v', map[1 := Dropped, 2 := Claimed]) && FenceFree(v') && v'.kind == Cron
    ensures v'.row == Some(Row(Claiming, Grant(2, Offered))) && v.past <= v'.past && v'.handoffs == v.handoffs
  {
    var d: Ledger := map[1 := Dropped];
    v' := Take(v, d, PollAcquire, d);
    v' := OfferLost(v', d, 2, map[1 := Dropped, 2 := Offered], map[1 := Dropped, 2 := Claimed]);
  }

  /** A reconciler that read the first claim puts the intent back under its admission. */
  lemma OldClaimPutBack(v: World) returns (v': World)
    requires Reachable(Cron, v, map[1 := Dropped, 2 := Claimed]) && FenceFree(v) && v.kind == Cron
    requires Row(Claiming, Grant(1, Offered)) in v.past
    ensures Reachable(Cron, v', map[1 := Dropped, 2 := Claimed])
    ensures v'.row == Some(Row(Waiting, Grant(1, Dropped))) && FenceFree(v')
  {
    var d: Ledger := map[1 := Dropped, 2 := Claimed];
    v' := Take(v, d, ReconAcquire(Row(Claiming, Grant(1, Offered)), false), d);
    v' := Take(v', d, Call(Answer(1, Dropped)), d);
    v' := Take(v', d, Write, d);
  }

  /** Even against an honest Control, and although the row the reconciler read is no stale
      claim: two claims whose replies are lost, and a reconciler that read the first, leave
      the intent waiting while Control holds the second grant. */
  lemma LateReconcileLeaks()
    ensures exists v, w, c ::
      && Reachable(Cron, v, c) && FenceFree(v) && Row(Claiming, Grant(1, Offered)) in v.past
      && !StaleClaim(v, Row(Claiming, Grant(1, Offered)))
      && Reachable(Cron, w, c) && w.row == Some(Row(Waiting, Grant(1, Dropped))) && Leaked(w, c)
  {
    var v := FirstClaimLost();
    v := ClaimGivenBack(v);
    v := SecondClaimLost(v);
    var w := OldClaimPutBack(v);
    var c: Ledger := map[1 := Dropped, 2 := Claimed];
    assert HeldIn(c, 2);
    assert Leaked(w, c);
  }
}
