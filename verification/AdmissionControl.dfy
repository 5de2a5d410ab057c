/** What an honest Control service adds to the admission protocol: grants are
    accounted for, so that none stays behind once a row is waiting or settled. */
module AdmissionControl {
  import opened Wrappers
  import opened AdmissionProtocol

  /** Control's own table of the admissions registered for this intent. */
  type Ledger = map<nat, Grade>

  predicate Held(g: Grade) { g == Claimed || g == Active }

  ghost predicate HeldIn(c: Ledger, i: nat) { i in c && Held(c[i]) }

  /** Control may queue, offer, drop or expire, but never grants by itself. */
  ghost predicate NoNewGrant(c: Ledger, c': Ledger) {
    forall i :: HeldIn(c', i) ==> HeldIn(c, i)
  }

  /** A delivered answer tells the ledger's state; a lost one says nothing. */
  predicate Truthful(asked: Admission, r: Reply, c': Ledger) {
    r.Answer? ==> r.id in c' && c'[r.id] == r.grade && (asked.Grant? ==> r.id == asked.id)
  }

  /** A final receipt was accepted; refused or lost, it may or may not have been applied. */
  predicate Retired(a: Admission, r: Reply, c': Ledger) {
    r.Answer? && a.Grant? && a.id in c' ==> !Held(c'[a.id])
  }

  /** An admission becomes Active only by a running receipt, sent once the journal said running. */
  ghost predicate ActiveOnlyIfRan(w: World, c: Ledger, c': Ledger) {
    forall i :: i in c' && c'[i] == Active ==> (i in c && c[i] == Active) || w.ran
  }

  /** One step of the runtime with the change it makes in Control.  Each call
      takes effect at its step or never; its reply may be lost either way. */
  ghost predicate Honest(w: World, s: Step, c: Ledger, c': Ledger)
    requires Enabled(w, s)
  {
    && ActiveOnlyIfRan(w, c, c')
    && match s
       case Call(r) =>
         if w.pc == ClaimCall then Grants(w.gate, r, c, c')
         else NoNewGrant(c, c') && HonestCall(w, r, c')
       case StrayAsked(r) => NoNewGrant(c, c') && ByIdentity(r, c')
       case StrayTold(r) => NoNewGrant(c, c') && Retired(w.stray.own, r, c')
       case _ => NoNewGrant(c, c')
  }

  /** A claim grants only what is on offer. */
  ghost predicate Grants(a: Admission, r: Reply, c: Ledger, c': Ledger) {
    && (forall i :: HeldIn(c', i) ==> HeldIn(c, i) || (a.Grant? && i == a.id && i in c && c[i] == Offered))
    && Truthful(a, r, c')
  }

  /** Asked for an intent by its own identity, Control answers with the grant it holds for
      it, if it holds one, and denies knowing the intent only if it holds none. */
  ghost predicate ByIdentity(r: Reply, c': Ledger) {
    && Truthful(Empty, r, c')
    && (r.Answer? ==> forall i :: HeldIn(c', i) ==> i == r.id)
    && (r.Missing? ==> forall i :: !HeldIn(c', i))
  }

  ghost predicate HonestCall(w: World, r: Reply, c': Ledger)
    requires Calling(w.pc)
  {
    match w.pc
    case Asking => Truthful(w.gate, r, c')     // observe(id), or register(run)
    case AbortAsk => ByIdentity(r, c')
    case ReconAsk(own) => Truthful(own, r, c')
    case Unclaiming => Retired(w.gate, r, c')
    case FinishTell(own) => Retired(own, r, c')
    case AbortTell(own) => Retired(own, r, c')
    case DeferTell(own) => Retired(own, r, c')
    case _ => true
  }

  /** Points of a poll, from taking the fence to its answer. */
  predicate Polling(pc: Pc) {
    || pc == Intent || pc == Asking || pc == Ending || pc == Unclaiming || pc == Requeueing
    || pc == Keeping || pc == Offering || pc == ClaimCall || pc == Winning || pc == Losing
  }

  /** The reconciler does something under the admission its row names, and that is not
      the grant Control holds, or its row says claiming of one that has since run. */
  ghost predicate Misled(w: World, c: Ledger, snapshot: Row, abandoned: bool) {
    && ReconEntry(snapshot, abandoned) != Free && snapshot.admission.Grant?
    && exists i :: HeldIn(c, i) && (!Names(snapshot.admission, i) || (snapshot.state == Claiming && w.ran))
  }

  /** Reconcilers are not misled; whoever aborts without the fence because it was
      interrupted between two polls gives up its own last admission, and nobody polls
      while an abort without the fence goes on. */
  ghost predicate Tidy(w: World, s: Step, c: Ledger) {
    match s
    case ReconAcquire(snapshot, abandoned) => !Misled(w, c, snapshot, abandoned)
    case StrayCancel(lost) => lost == w.gate && lost.Grant? && !Polling(w.pc) && !UsesGate(w.pc)
    case PollAcquire => w.stray == NoStray
    case _ => true
  }

  predicate Names(a: Admission, i: nat) { a.Grant? && a.id == i }

  /** Grant `i` may be held while the program stands here. */
  predicate PcAccounts(pc: Pc, i: nat) {
    match pc
    case Intent | Ending | Requeueing | Keeping | Offering | Losing => false
    case AbortSettle(_) | FinishSettle(_) | DeferWait | ReconKeep(_) => false
    case FinishSave(own) => Names(own, i)
    case FinishTell(own) => Names(own, i)
    case AbortSave(own) => own == Empty || Names(own, i)
    case AbortTell(own) => Names(own, i)
    case DeferTell(own) => Names(own, i)
    case DeferClaim(own) => Names(own, i)
    case ReconAsk(own) => Names(own, i)
    case _ => true
  }

  /** A cancelled row without an admission makes the reconciler ask by identity. */
  predicate RowAccounts(row: Option<Row>, i: nat) {
    && row.Some? && row.value.state != Waiting && row.value.state != Settled
    && (Names(row.value.admission, i) || row.value == Row(Cancelled, Empty))
  }

  /** The journal row still leads a reconciler to grant `i`. */
  predicate Accounted(w: World, i: nat) {
    && RowAccounts(w.row, i) && Names(w.gate, i) && PcAccounts(w.pc, i)
    && (w.stray.StraySave? ==> w.stray.own == Empty || Names(w.stray.own, i))
    && (w.stray.StrayTell? ==> Names(w.stray.own, i)) && !w.stray.StraySettle?
  }

  ghost predicate Ledgered(w: World, c: Ledger) {
    && (forall i :: HeldIn(c, i) ==> Accounted(w, i))
    && (forall i :: i in c && c[i] == Active ==> w.ran)
  }

  predicate Composed(w: World) {
    && (w.pc == ClaimCall || w.pc == Winning ==>
          && w.gate.Grant? && w.row.Some? && Names(w.row.value.admission, w.gate.id)
          && w.row.value.state == Claiming)
    && (Polling(w.pc) ==> w.stray == NoStray)
  }

  ghost predicate NoLeak(w: World, c: Ledger) { Ledgered(w, c) && Composed(w) }

  /** What honesty says of one grant that is held, with grade `g`, after the step. */
  predicate HonestFor(w: World, s: Step, i: nat, g: Grade)
    requires Enabled(w, s)
  {
    && Held(g) && (g == Active ==> w.ran)
    && match s
       case Call(r) =>
         && (w.pc == AbortAsk ==> IdentityFor(r, i))
         && (r.Answer? ==>
               match w.pc
               case Asking => EchoFor(w.gate, r, i, g)
               case ClaimCall => EchoFor(w.gate, r, i, g)
               case ReconAsk(own) => EchoFor(own, r, i, g)
               case Unclaiming => !Names(w.gate, i)
               case FinishTell(own) => !Names(own, i)
               case AbortTell(own) => !Names(own, i)
               case DeferTell(own) => !Names(own, i)
               case _ => true)
       case StrayAsked(r) => IdentityFor(r, i)
       case StrayTold(r) => r.Answer? ==> !Names(w.stray.own, i)
       case _ => true
  }

  predicate IdentityFor(r: Reply, i: nat) { !r.Missing? && (r.Answer? ==> r.id == i) }

  predicate EchoFor(a: Admission, r: Reply, i: nat, g: Grade)
    requires r.Answer?
  {
    (a.Grant? ==> r.id == a.id) && (r.id == i ==> r.grade == g)
  }

  lemma StepKeepsComposed(w: World, s: Step, c: Ledger)
    requires Composed(w) && Enabled(w, s) && Tidy(w, s, c) && (UsesGate(w.pc) ==> w.gate.Grant?)
    requires w.pc == ClaimCall && s.Call? && s.reply.Answer? ==> s.reply.id == w.gate.id
    ensures Composed(Apply(w, s))
  {
    match s {
      case Write => WriteKeepsComposed(w);
      case Call(r) => CallKeepsComposed(w, r);
      case StrayCancel(lost) => StrayKeepsComposed(w, s, c);
      case StraySaved => StrayKeepsComposed(w, s, c);
      case StrayAsked(_) => StrayKeepsComposed(w, s, c);
      case StrayTold(_) => StrayKeepsComposed(w, s, c);
      case StrayDone => StrayKeepsComposed(w, s, c);
      case WorkerExit => assert Apply(w, s).pc == w.pc && Apply(w, s).row == w.row;
      case StrayCrash => assert Apply(w, s).pc == w.pc && Apply(w, s).row == w.row;
      case Remind(_) => assert Apply(w, s) == w;
      case _ => OtherKeepsComposed(w, s, c);
    }
  }

  lemma OtherKeepsComposed(w: World, s: Step, c: Ledger)
    requires Composed(w) && Enabled(w, s) && Tidy(w, s, c)
    requires !s.Write? && !s.Call? && !s.StrayCancel? && !s.StrayTold? && !s.StrayDone? && !s.WorkerExit?
    requires !s.StraySaved? && !s.StrayAsked? && !s.StrayCrash? && !s.Remind?
    ensures Composed(Apply(w, s))
  {
    var pc := Apply(w, s).pc;
    assert pc != ClaimCall && pc != Winning && (Apply(w, s).stray == w.stray || !Polling(pc));
    assert Polling(pc) ==> s.PollAcquire?;
  }

  lemma StrayKeepsComposed(w: World, s: Step, c: Ledger)
    requires Composed(w) && Enabled(w, s) && Tidy(w, s, c)
    requires s.StrayCancel? || s.StraySaved? || s.StrayAsked? || s.StrayTold? || s.StrayDone?
    ensures Composed(Apply(w, s))
  {
    assert Apply(w, s).pc == w.pc && !Polling(w.pc);
  }

  lemma WriteKeepsComposed(w: World)
    requires Composed(w) && Writing(w.pc) && (UsesGate(w.pc) ==> w.gate.Grant?)
    ensures Composed(Apply(w, Write))
  {
  }

  lemma CallKeepsComposed(w: World, r: Reply)
    requires Composed(w) && Calling(w.pc) && (UsesGate(w.pc) ==> w.gate.Grant?)
    requires w.pc == ClaimCall && r.Answer? ==> r.id == w.gate.id
    ensures Composed(Apply(w, Call(r)))
  {
  }

  lemma GrantStaysAccounted(w: World, s: Step, c: Ledger, i: nat, g: Grade)
    requires Composed(w) && Enabled(w, s) && Tidy(w, s, c) && HonestFor(w, s, i, g)
    requires w.ran ==> Retiring(w.pc)
    requires s.ReconAcquire? ==> HeldIn(c, i)
    requires Accounted(w, i) || (s.Call? && w.pc == ClaimCall && Names(w.gate, i))
    ensures Accounted(Apply(w, s), i)
  {
    if s.Write? {
    } else if s.Call? {
    } else {
    }
  }

  lemma StepKeepsNoLeak(w: World, s: Step, c: Ledger, c': Ledger)
    requires (w.ran ==> Retiring(w.pc)) && Carried(w) && NoLeak(w, c)
    requires Enabled(w, s) && Tidy(w, s, c) && Honest(w, s, c, c')
    ensures NoLeak(Apply(w, s), c')
  {
    var v := Apply(w, s);
    StepKeepsComposed(w, s, c);
    forall i | HeldIn(c', i)
      ensures Accounted(v, i)
    {
      HonestyIsPointwise(w, s, c, c', i);
      GrantStaysAccounted(w, s, c, i, c'[i]);
    }
    RanStays(w, s);
  }

  lemma RanStays(w: World, s: Step)
    requires Enabled(w, s)
    ensures w.ran ==> Apply(w, s).ran
  {
  }

  lemma HonestyIsPointwise(w: World, s: Step, c: Ledger, c': Ledger, i: nat)
    requires NoLeak(w, c) && Enabled(w, s) && Honest(w, s, c, c') && HeldIn(c', i)
    ensures HonestFor(w, s, i, c'[i])
    ensures s.ReconAcquire? ==> HeldIn(c, i)
    ensures Accounted(w, i) || (s.Call? && w.pc == ClaimCall && Names(w.gate, i))
  {
  }

  /** A step and Control's table after it. */
  datatype Move = Move(step: Step, after: Ledger)

  ghost predicate HonestRun(w: World, c: Ledger, moves: seq<Move>)
    decreases |moves|
  {
    moves == [] ||
    (&& Enabled(w, moves[0].step) && Honest(w, moves[0].step, c, moves[0].after)
     && HonestRun(Apply(w, moves[0].step), moves[0].after, moves[1..]))
  }

  ghost predicate TidyRun(w: World, c: Ledger, moves: seq<Move>)
    requires HonestRun(w, c, moves)
    decreases |moves|
  {
    moves == [] ||
    (&& Tidy(w, moves[0].step, c) && (moves[0].step.ReconAcquire? ==> !StaleClaim(w, moves[0].step.snapshot))
     && TidyRun(Apply(w, moves[0].step), moves[0].after, moves[1..]))
  }

  ghost function End(w: World, c: Ledger, moves: seq<Move>): (World, Ledger)
    requires HonestRun(w, c, moves)
    decreases |moves|
  {
    if moves == [] then (w, c) else End(Apply(w, moves[0].step), moves[0].after, moves[1..])
  }

  lemma {:induction false} RunKeepsNoLeak(w: World, c: Ledger, moves: seq<Move>)
    requires Safe(w) && Carried(w) && NoLeak(w, c)
    requires HonestRun(w, c, moves) && TidyRun(w, c, moves)
    ensures var (v, d) := End(w, c, moves); Safe(v) && Carried(v) && NoLeak(v, d)
    decreases |moves|
  {
    if moves != [] {
      var s := moves[0].step;
      StepKeepsSafe(w, s);
      StepKeepsCarried(w, s);
      StepKeepsNoLeak(w, s, c, moves[0].after);
      RunKeepsNoLeak(Apply(w, s), moves[0].after, moves[1..]);
    }
  }

  /** No grant outlives the journal's interest in it: whenever the row is
      absent, waiting or settled, Control holds none; whatever it still holds
      is the one admission the row names, or the row is cancelled without one and
      Control is to be asked by identity. */
  lemma NoGrantLeaks(kind: Kind, moves: seq<Move>)
    requires HonestRun(Initial(kind), map[], moves) && TidyRun(Initial(kind), map[], moves)
    ensures var (w, c) := End(Initial(kind), map[], moves);
      && (w.row.None? || w.row.value.state == Waiting || w.row.value.state == Settled ==>
            forall i :: !HeldIn(c, i))
      && (forall i :: HeldIn(c, i) ==>
            w.row.Some? && (Names(w.row.value.admission, i) || w.row.value == Row(Cancelled, Empty)))
      && w.handoffs <= 1
  {
    RunKeepsNoLeak(Initial(kind), map[], moves);
    var (w, c) := End(Initial(kind), map[], moves);
    forall i | HeldIn(c, i)
      ensures RowAccounts(w.row, i)
    {
      assert Accounted(w, i);
    }
  }

  lemma {:induction false} Extend(w: World, c: Ledger, moves: seq<Move>, m: Move)
    requires HonestRun(w, c, moves)
    requires var (v, d) := End(w, c, moves); Enabled(v, m.step) && Honest(v, m.step, d, m.after)
    ensures HonestRun(w, c, moves + [m])
    ensures End(w, c, moves + [m]) == (Apply(End(w, c, moves).0, m.step), m.after)
    decreases |moves|
  {
    if moves == [] {
      assert moves + [m] == [m] && [m][1..] == [];
    } else {
      Extend(Apply(w, moves[0].step), moves[0].after, moves[1..], m);
      assert (moves + [m])[0] == moves[0] && (moves + [m])[1..] == moves[1..] + [m];
    }
  }

  ghost predicate Reachable(kind: Kind, v: World, d: Ledger) {
    exists moves ::
      HonestRun(Initial(kind), map[], moves) && End(Initial(kind), map[], moves) == (v, d)
  }

  lemma Take(v: World, d: Ledger, s: Step, d': Ledger) returns (v': World)
    requires Reachable(Cron, v, d) && Enabled(v, s) && Honest(v, s, d, d')
    ensures Reachable(Cron, v', d') && v' == Apply(v, s)
  {
    var moves :| HonestRun(Initial(Cron), map[], moves) && End(Initial(Cron), map[], moves) == (v, d);
    Extend(Initial(Cron), map[], moves, Move(s, d'));
    v' := Apply(v, s);
  }

  lemma HonestOffer(v: World, d: Ledger) returns (v': World)
    requires Reachable(Cron, v, d) && v.pc == Asking && v.gate == Empty && v.kind == Cron
    requires forall i :: !HeldIn(d, i)
    ensures Reachable(Cron, v', map[1 := Offered])
    ensures v'.pc == ClaimCall && v'.kind == Cron && v'.handoffs == v.handoffs && v'.worker == v.worker
    ensures v'.gate == Grant(1, Offered) && Row(Claiming, Grant(1, Offered)) in v'.past
  {
    var offered := map[1 := Offered];
    v' := Take(v, d, Call(Answer(1, Offered)), offered);
    v' := Take(v', offered, Write, offered);
    v' := Take(v', offered, Write, offered);
  }

  lemma HonestClaim(v: World) returns (v': World)
    requires Reachable(Cron, v, map[1 := Offered]) && v.pc == ClaimCall && v.gate == Grant(1, Offered)
    ensures Reachable(Cron, v', map[1 := Claimed]) && v'.pc == Granted && v'.kind == v.kind
    ensures v'.handoffs == v.handoffs && v'.worker == v.worker && v.past <= v'.past
  {
    v' := Take(v, map[1 := Offered], Call(Answer(1, Claimed)), map[1 := Claimed]);
    v' := Take(v', map[1 := Claimed], Write, map[1 := Claimed]);
  }

  /** Offered and claimed. */
  lemma HonestGrant(v: World, d: Ledger) returns (v': World)
    requires Reachable(Cron, v, d) && v.pc == Asking && v.gate == Empty && v.kind == Cron
    requires forall i :: !HeldIn(d, i)
    ensures Reachable(Cron, v', map[1 := Claimed])
    ensures v'.pc == Granted && v'.kind == Cron && v'.handoffs == v.handoffs && v'.worker == v.worker
    ensures Row(Claiming, Grant(1, Offered)) in v'.past
  {
    v' := HonestOffer(v, d);
    v' := HonestClaim(v');
  }

  /** Started with the running receipt lost; then the host dies. */
  lemma StartAndCrash(v: World, d: Ledger) returns (v': World)
    requires Reachable(Cron, v, d) && v.pc == Granted && v.kind == Cron
    ensures Reachable(Cron, v', d) && v'.pc == Free && v'.worker == v.worker && v'.kind == Cron
    ensures v'.handoffs == v.handoffs + 1 && v.past <= v'.past
  {
    v' := Take(v, d, Start, d);
    v' := Take(v', d, Call(Unavailable), d);
    v' := Take(v', d, Begin, d);
    v' := Take(v', d, Crash, d);
  }

  /** A reconciler that acts on the claim it read long ago. */
  lemma LateReconcile(v: World) returns (v': World)
    requires Reachable(Cron, v, map[1 := Claimed]) && FenceFree(v) && v.kind == Cron
    requires Row(Claiming, Grant(1, Offered)) in v.past
    ensures Reachable(Cron, v', map[1 := Claimed]) && v'.pc == DeferTell(Grant(1, Claimed))
    ensures v'.kind == Cron && v'.worker == v.worker && v'.handoffs == v.handoffs
  {
    var d := map[1 := Claimed];
    v' := Take(v, d, ReconAcquire(Row(Claiming, Grant(1, Offered)), false), d);
    v' := Take(v', d, Call(Answer(1, Claimed)), d);
  }

  lemma LateDefer(v: World) returns (v': World)
    requires Reachable(Cron, v, map[1 := Claimed]) && v.pc == DeferTell(Grant(1, Claimed))
    ensures Reachable(Cron, v', map[1 := Queued]) && v'.pc == Free && v'.row == Some(Row(Waiting, Empty))
    ensures v'.kind == v.kind && v'.worker == v.worker && v'.handoffs == v.handoffs
  {
    v' := Take(v, map[1 := Claimed], Call(Answer(1, Queued)), map[1 := Queued]);
    v' := Take(v', map[1 := Queued], Write, map[1 := Queued]);
  }

  /** One full life of an intent whose first claim a reconciler read. */
  lemma FirstHandoff() returns (v: World)
    ensures Reachable(Cron, v, map[1 := Claimed]) && FenceFree(v) && v.kind == Cron && v.handoffs == 1
    ensures Row(Claiming, Grant(1, Offered)) in v.past
  {
    var d: Ledger := map[];
    v := Initial(Cron);
    assert Reachable(Cron, v, d) by {
      assert HonestRun(v, d, []) && End(v, d, []) == (v, d);
    }
    v := Take(v, d, PollAcquire, d);
    v := Take(v, d, Write, d);
    v := HonestGrant(v, d);
    v := StartAndCrash(v, map[1 := Claimed]);
  }

  /** Even against an honest Control the unguarded property fails: a
      reconciler that read the row during the first claim, and takes the fence
      after the executor's host has died with its running receipt lost, puts
      the intent back and a second executor starts. */
  lemma StaleReconcileRunsTwice()
    ensures exists v, d :: Reachable(Cron, v, d) && v.handoffs == 2
  {
    var v := FirstHandoff();
    v := LateReconcile(v);
    v := LateDefer(v);
    v := Take(v, map[1 := Queued], PollAcquire, map[1 := Queued]);
    v := HonestGrant(v, map[1 := Queued]);
    v := StartAndCrash(v, map[1 := Claimed]);
  }
}
