/** The journalled admission protocol of one native intent, as a transition
    system.  Every durable journal write and every Control call is a step of
    its own, so a crash or an interfering actor can come between any two.
    Control's replies are step parameters: nothing is assumed about them here. */
module AdmissionProtocol {
  import opened Wrappers

  /** The `state` column of the journal. */
  datatype Journal = Waiting | Claiming | Starting | Running | Finished | Cancelled | Settled

  /** The `state` field of a Control reply. */
  datatype Grade = Queued | Offered | Claimed | Active | Done | Dropped | Rejected

  datatype Admission = Empty | Grant(id: nat, grade: Grade)

  datatype Row = Row(state: Journal, admission: Admission)

  /** Control's answer to one call; Missing is an HTTP 400 or 404. */
  datatype Reply = Answer(id: nat, grade: Grade) | Missing | Unavailable

  datatype Kind = Kanban | Cron | Cli

  /** Where the program that holds the fence stands: the next effect it performs. */
  datatype Pc =
    | Free
    | Intent | Asking | Ending | Unclaiming | Requeueing | Keeping
    | Offering | ClaimCall | Winning | Losing
    | Granted | Spawned | Announced | Ready | Executing
    | FinishSave(own: Admission) | FinishTell(own: Admission) | FinishSettle(own: Admission)
    | AbortSave(own: Admission) | AbortAsk | AbortTell(own: Admission) | AbortSettle(own: Admission)
    | DeferTell(own: Admission) | DeferWait | DeferClaim(own: Admission)
    | ReconAsk(own: Admission) | ReconKeep(own: Admission)

  /** An abort without the fence: of a CLI turn that was interrupted while waiting, or of
      a dispatcher whose defer could not be stored. */
  datatype Stray =
    | NoStray | StraySave(own: Admission) | StrayAsk | StrayTell(own: Admission) | StraySettle(own: Admission)

  /** `gate` is the admission in the dispatcher's memory, `worker` a spawned
      process that inherited the fence, `past` every row a reconciler may have
      read, `handoffs` how often an executor was started for this intent, and
      `ran` whether the journal was ever running or finished. */
  datatype World = World(
    kind: Kind, row: Option<Row>, gate: Admission, pc: Pc, worker: bool, stray: Stray,
    past: set<Row>, handoffs: nat, ran: bool)

  /** Write and Call perform the next effect of the program at `pc`; a reconciler that
      cannot take the fence may remind Control of the running row it read. */
  datatype Step =
    | Write | Call(reply: Reply)
    | PollAcquire | CancelWaiting | ReconAcquire(snapshot: Row, abandoned: bool)
    | Spawn | Start | Begin | Complete | GiveUp | Postpone
    | WorkerExit | Crash
    | StrayCancel(lost: Admission) | DeferFails | StraySaved
    | StrayAsked(reply: Reply) | StrayTold(reply: Reply) | StrayDone | StrayCrash
    | Remind(snapshot: Row)

  function Initial(kind: Kind): World {
    World(kind, None, Empty, Free, false, NoStray, {}, 0, false)
  }

  predicate Open(j: Journal) { j == Waiting || j == Claiming }

  predicate FenceFree(w: World) { w.pc == Free && !w.worker }

  /** The row is absent or may still be offered for execution. */
  predicate Pollable(w: World) { w.row.Some? ==> Open(w.row.value.state) }

  function Put(w: World, state: Journal, admission: Admission, pc: Pc): World {
    var row := Row(state, admission);
    w.(row := Some(row), past := w.past + {row}, pc := pc,
       ran := w.ran || state == Running || state == Finished)
  }

  /** Which program the reconciler enters for the row it read before locking. */
  function ReconEntry(snapshot: Row, abandoned: bool): Pc {
    if snapshot.admission == Empty && snapshot.state == Cancelled then AbortSave(Empty)
    else if snapshot.admission == Empty && snapshot.state != Waiting then Free
    else match snapshot.state
      case Waiting => if abandoned then AbortSave(snapshot.admission) else Free
      case Claiming => ReconAsk(snapshot.admission)
      case Starting | Cancelled => AbortSave(snapshot.admission)
      case Running | Finished | Settled => FinishSave(snapshot.admission)
  }

  /** Programs whose next effect is a journal write. */
  predicate Writing(pc: Pc) {
    match pc
    case Intent | Ending | Requeueing | Keeping | Offering | Winning | Losing => true
    case FinishSave(_) | FinishSettle(_) | AbortSave(_) | AbortSettle(_) => true
    case DeferWait | DeferClaim(_) | ReconKeep(_) => true
    case _ => false
  }

  /** Programs whose next effect is a call to Control. */
  predicate Calling(pc: Pc) {
    match pc
    case Asking | Unclaiming | ClaimCall | Announced => true
    case FinishTell(_) | AbortAsk | AbortTell(_) | DeferTell(_) | ReconAsk(_) => true
    case _ => false
  }

  function WrittenState(pc: Pc): Journal
    requires Writing(pc)
  {
    match pc
    case Intent | Requeueing | Keeping | Losing | DeferWait | ReconKeep(_) => Waiting
    case Offering | DeferClaim(_) => Claiming
    case Winning => Starting
    case FinishSave(_) => Finished
    case AbortSave(_) => Cancelled
    case Ending | FinishSettle(_) | AbortSettle(_) => Settled
  }

  function WrittenAdmission(pc: Pc, gate: Admission): Admission
    requires Writing(pc)
  {
    match pc
    case Intent | Requeueing | DeferWait => Empty
    case Ending | Keeping | Offering | Winning | Losing => gate
    case FinishSave(_) | FinishSettle(_) | AbortSave(_) | AbortSettle(_) | DeferClaim(_) | ReconKeep(_) => pc.own
  }

  function AfterWrite(pc: Pc, gate: Admission): Pc
    requires Writing(pc)
  {
    match pc
    case Intent => Asking
    case Keeping => if gate.Grant? && gate.grade == Offered then Offering else Free
    case Offering => ClaimCall
    case Winning => Granted
    case FinishSave(own) => FinishTell(own)
    case AbortSave(own) => if own == Empty then AbortAsk else AbortTell(own)
    case _ => Free
  }

  /** Only a poll's own calls change the admission it remembers. */
  function GateAfterCall(pc: Pc, gate: Admission, r: Reply): Admission {
    if !r.Answer? then gate
    else if pc == Asking || pc == ClaimCall then Grant(r.id, r.grade)
    else if pc == Unclaiming then Empty
    else gate
  }

  function AfterCall(kind: Kind, pc: Pc, r: Reply): Pc
    requires Calling(pc)
  {
    match pc
    case Announced => if kind == Kanban then Free else Ready
    case AbortAsk =>
      (match r
       case Answer(id, grade) => AbortTell(Grant(id, grade))
       case Missing => AbortSettle(Empty)
       case Unavailable => Free)
    case DeferTell(own) => if r.Answer? then DeferWait else DeferClaim(own)
    case _ => if r.Answer? then AfterAnswer(pc, r.id, r.grade) else Free
  }

  function AfterAnswer(pc: Pc, id: nat, grade: Grade): Pc {
    match pc
    case Asking =>
      (match grade
       case Dropped | Done | Rejected => Ending
       case Claimed => Unclaiming
       case Queued | Offered | Active => Keeping)
    case Unclaiming => Requeueing
    case ClaimCall => if grade == Claimed then Winning else Losing
    case FinishTell(own) => FinishSettle(own)
    case AbortTell(own) => AbortSettle(own)
    case ReconAsk(_) => if grade == Claimed then DeferTell(Grant(id, grade)) else ReconKeep(Grant(id, grade))
    case _ => Free
  }

  predicate Enabled(w: World, s: Step) {
    match s
    case Write => Writing(w.pc)
    case Call(_) => Calling(w.pc)
    case PollAcquire => FenceFree(w) && Pollable(w)
    case CancelWaiting => FenceFree(w) && w.row.Some? && Open(w.row.value.state)
    case ReconAcquire(snapshot, _) => FenceFree(w) && snapshot in w.past
    case Spawn => w.pc == Granted && w.kind == Kanban
    case Start => if w.kind == Kanban then w.pc == Spawned else w.pc == Granted
    case Begin => w.pc == Ready
    case Complete => w.pc == Ready || w.pc == Executing || (w.pc == Granted && w.kind != Kanban)
    case GiveUp => w.pc == Granted || w.pc == Spawned || w.pc == Announced
    case Postpone => w.pc == Granted
    case WorkerExit => w.worker
    case Crash => true
    case StrayCancel(_) => w.row.Some? && w.stray == NoStray
    case DeferFails => w.kind == Kanban && (w.pc == DeferWait || w.pc.DeferClaim?) && w.stray == NoStray
    case StraySaved => w.stray.StraySave?
    case StrayAsked(_) => w.stray.StrayAsk?
    case StrayTold(_) => w.stray.StrayTell?
    case StrayDone => w.stray.StraySettle?
    case StrayCrash => true
    case Remind(snapshot) => snapshot in w.past && snapshot.state == Running
  }

  function Apply(w: World, s: Step): World
    requires Enabled(w, s)
  {
    match s
    case Write => Put(w, WrittenState(w.pc), WrittenAdmission(w.pc, w.gate), AfterWrite(w.pc, w.gate))
    case Call(r) => w.(gate := GateAfterCall(w.pc, w.gate, r), pc := AfterCall(w.kind, w.pc, r))
    case PollAcquire =>
      if w.row.None? then w.(gate := Empty, pc := Intent)
      else w.(gate := w.row.value.admission, pc := Asking)
    case CancelWaiting => w.(pc := AbortSave(w.row.value.admission))
    case ReconAcquire(snapshot, abandoned) => w.(pc := ReconEntry(snapshot, abandoned))
    case Spawn => w.(worker := true, handoffs := w.handoffs + 1, pc := Spawned)
    case Start => Put(w, Running, w.gate, Announced)
    case Begin => w.(handoffs := w.handoffs + 1, pc := Executing)
    case Complete => w.(pc := FinishSave(w.gate))
    case GiveUp => w.(pc := AbortSave(w.gate))
    case Postpone => w.(pc := DeferTell(w.gate))
    case WorkerExit => w.(worker := false)
    case Crash => w.(pc := Free)
    case StrayCancel(lost) => w.(stray := StraySave(lost))
    case DeferFails => w.(pc := Free, stray := StraySave(if w.pc == DeferWait then Empty else w.pc.own))
    case StraySaved =>
      Put(w, Cancelled, w.stray.own, w.pc).(stray := if w.stray.own == Empty then StrayAsk else StrayTell(w.stray.own))
    case StrayAsked(r) =>
      w.(stray := match r
                  case Answer(id, grade) => StrayTell(Grant(id, grade))
                  case Missing => StraySettle(Empty)
                  case Unavailable => NoStray)
    case StrayTold(r) => w.(stray := if r.Answer? then StraySettle(w.stray.own) else NoStray)
    case StrayDone => Put(w, Settled, w.stray.own, w.pc).(stray := NoStray)
    case StrayCrash => w.(stray := NoStray)
    case Remind(_) => w
  }

  predicate Legal(w: World, steps: seq<Step>)
    decreases |steps|
  {
    steps == [] || (Enabled(w, steps[0]) && Legal(Apply(w, steps[0]), steps[1..]))
  }

  function Run(w: World, steps: seq<Step>): World
    requires Legal(w, steps)
    decreases |steps|
  {
    if steps == [] then w else Run(Apply(w, steps[0]), steps[1..])
  }

  /** The reconciler's row is stale in the one way that matters: it says
      claiming although the journal has since moved past waiting and claiming. */
  predicate StaleClaim(w: World, snapshot: Row) {
    && snapshot.state == Claiming && snapshot.admission.Grant?
    && w.row.Some? && !Open(w.row.value.state)
  }

  /** Every reconciler that takes the fence does so with a row that is not stale. */
  predicate Timely(w: World, steps: seq<Step>)
    requires Legal(w, steps)
    decreases |steps|
  {
    steps == [] ||
    (&& (steps[0].ReconAcquire? ==> !StaleClaim(w, steps[0].snapshot))
     && Timely(Apply(w, steps[0]), steps[1..]))
  }

  /** An executor was started, or the journal has recorded one. */
  predicate Spent(w: World) { w.handoffs > 0 || w.ran }

  /** Programs that never write waiting or claiming and never start an executor again. */
  predicate Retiring(pc: Pc) {
    || pc == Free || pc == Spawned || pc == Announced || pc == Ready || pc == Executing
    || pc.FinishSave? || pc.FinishTell? || pc.FinishSettle?
    || pc.AbortSave? || pc == AbortAsk || pc.AbortTell? || pc.AbortSettle?
  }

  ghost predicate Safe(w: World) {
    && w.handoffs <= 1
    && (Spent(w) ==> w.row.Some? && !Open(w.row.value.state) && Retiring(w.pc))
    && (w.pc == Spawned || w.pc == Executing ==> w.handoffs == 1)
    && (w.pc == Announced || w.pc == Ready ==> w.ran && (w.kind != Kanban ==> w.handoffs == 0))
    && (w.kind == Kanban ==> w.pc != Ready && w.pc != Executing)
    && (w.worker ==> w.handoffs == 1)
    && (w.pc == Granted ==> w.row.Some? && !Open(w.row.value.state))
  }

  lemma WriteKeepsSafe(w: World)
    requires Safe(w) && Writing(w.pc)
    ensures Safe(Apply(w, Write))
  {
  }

  lemma CallKeepsSafe(w: World, r: Reply)
    requires Safe(w) && Calling(w.pc)
    ensures Safe(Apply(w, Call(r)))
  {
  }

  lemma StepKeepsSafe(w: World, s: Step)
    requires Safe(w) && Enabled(w, s)
    requires s.ReconAcquire? ==> !StaleClaim(w, s.snapshot)
    ensures Safe(Apply(w, s))
    ensures Spent(w) ==> Spent(Apply(w, s))
  {
    match s {
      case Write => WriteKeepsSafe(w);
      case Call(r) => CallKeepsSafe(w, r);
      case _ =>
    }
  }

  lemma {:induction false} RunKeepsSafe(w: World, steps: seq<Step>)
    requires Safe(w) && Legal(w, steps) && Timely(w, steps)
    ensures Safe(Run(w, steps))
    ensures Spent(w) ==> Spent(Run(w, steps))
    decreases |steps|
  {
    if steps != [] {
      StepKeepsSafe(w, steps[0]);
      RunKeepsSafe(Apply(w, steps[0]), steps[1..]);
    }
  }

  /** Whatever Control answers, wherever programs crash and however polls,
      hand-offs, cancels and reconciles interleave: one hand-off at most, and a
      journal that was ever running or finished is never offered again. */
  lemma AtMostOneHandoff(kind: Kind, steps: seq<Step>)
    requires Legal(Initial(kind), steps) && Timely(Initial(kind), steps)
    ensures var w := Run(Initial(kind), steps);
      w.handoffs <= 1 && (Spent(w) ==> !Pollable(w) && !Enabled(w, PollAcquire))
  {
    RunKeepsSafe(Initial(kind), steps);
  }

  lemma {:induction false} RunConcat(w: World, a: seq<Step>, b: seq<Step>)
    requires Legal(w, a) && Legal(Run(w, a), b)
    ensures Legal(w, a + b) && Run(w, a + b) == Run(Run(w, a), b)
    decreases |a|
  {
    if a == [] {
      assert a + b == b;
    } else {
      RunConcat(Apply(w, a[0]), a[1..], b);
      assert (a + b)[0] == a[0] && (a + b)[1..] == a[1..] + b;
    }
  }

  lemma RunOne(w: World, a: seq<Step>, s: Step)
    requires Legal(w, a) && Enabled(Run(w, a), s)
    ensures Legal(w, a + [s]) && Run(w, a + [s]) == Apply(Run(w, a), s)
  {
    OneStep(Run(w, a), s);
    RunConcat(w, a, [s]);
  }

  lemma OneStep(w: World, s: Step)
    requires Enabled(w, s)
    ensures Legal(w, [s]) && Run(w, [s]) == Apply(w, s)
  {
    var v := Apply(w, s);
    assert [s][0] == s && [s][1..] == [];
    assert Legal(v, []) && Run(v, []) == v;
  }

  predicate Settles(steps: seq<Step>) { forall s <- steps :: !s.ReconAcquire? }

  lemma {:induction false} SettlesIsTimely(w: World, steps: seq<Step>)
    requires Legal(w, steps) && Settles(steps)
    ensures Timely(w, steps)
    decreases |steps|
  {
    if steps != [] {
      SettlesIsTimely(Apply(w, steps[0]), steps[1..]);
    }
  }

  /** A pass of the reconciler, then any activity without another reconcile. */
  ghost predicate SecondHandoffAfter(w: World, snapshot: Row, rest: seq<Step>) {
    && Settles(rest)
    && Legal(w, [ReconAcquire(snapshot, false)] + rest)
    && Run(w, [ReconAcquire(snapshot, false)] + rest).handoffs > 1
  }

  /** The reconciler reads the row before it takes the fence
      (native_admission.py:200-204).  After an executor has been handed the
      intent, a reconcile with that row can lead to a second hand-off exactly
      when the row is a stale claim. */
  lemma SecondHandoffExactlyWhenStale(w: World, snapshot: Row)
    requires Safe(w) && w.handoffs == 1 && FenceFree(w) && snapshot in w.past
    ensures (exists rest :: SecondHandoffAfter(w, snapshot, rest)) <==> StaleClaim(w, snapshot)
  {
    var entry := ReconAcquire(snapshot, false);
    if StaleClaim(w, snapshot) {
      var rest := StaleReplay(w, snapshot);
      assert SecondHandoffAfter(w, snapshot, rest);
    } else {
      forall rest | SecondHandoffAfter(w, snapshot, rest)
        ensures false
      {
        var steps := [entry] + rest;
        assert steps[0] == entry && steps[1..] == rest;
        SettlesIsTimely(Apply(w, entry), rest);
        RunKeepsSafe(w, steps);
      }
    }
  }

  /** The interleaving that replays: reconcile to waiting, then an ordinary poll and hand-off. */
  lemma StaleReplay(w: World, snapshot: Row) returns (rest: seq<Step>)
    requires w.handoffs == 1 && FenceFree(w) && snapshot in w.past && StaleClaim(w, snapshot)
    ensures SecondHandoffAfter(w, snapshot, rest)
  {
    var entry := ReconAcquire(snapshot, false);
    var w1 := Apply(w, entry);
    var back := Reopen(w1);
    var w2 := Run(w1, back);
    var claim := Regrant(w2);
    var w3 := Run(w2, claim);
    var hand := HandOff(w3);
    RunConcat(w1, back, claim);
    RunConcat(w1, back + claim, hand);
    rest := back + claim + hand;
    assert ([entry] + rest)[0] == entry && ([entry] + rest)[1..] == rest;
  }

  lemma Reopen(w: World) returns (steps: seq<Step>)
    requires w.pc.ReconAsk? && w.pc.own.Grant?
    ensures Legal(w, steps) && Settles(steps)
    ensures Run(w, steps) == Put(w, Waiting, Grant(w.pc.own.id, Queued), Free)
  {
    steps := [Call(Answer(w.pc.own.id, Queued)), Write];
    RunTwo(w, steps[0], steps[1]);
  }

  lemma Regrant(w: World) returns (steps: seq<Step>)
    requires FenceFree(w) && w.row.Some? && w.row.value.state == Waiting && w.row.value.admission.Grant?
    ensures Legal(w, steps) && Settles(steps)
    ensures var v := Run(w, steps); v.pc == Granted && v.kind == w.kind && v.handoffs == w.handoffs
  {
    var id := w.row.value.admission.id;
    var v := w;
    steps := [];
    steps, v := Further(w, steps, v, PollAcquire);
    steps, v := Further(w, steps, v, Call(Answer(id, Offered)));
    steps, v := Further(w, steps, v, Write);
    steps, v := Further(w, steps, v, Write);
    steps, v := Further(w, steps, v, Call(Answer(id, Claimed)));
    steps, v := Further(w, steps, v, Write);
  }

  /** One more step of a run that leads from `w` to `v`. */
  lemma Further(w: World, steps: seq<Step>, v: World, s: Step) returns (more: seq<Step>, next: World)
    requires Legal(w, steps) && Run(w, steps) == v && Settles(steps) && Enabled(v, s) && !s.ReconAcquire?
    ensures Legal(w, more) && Run(w, more) == next && Settles(more) && next == Apply(v, s)
  {
    RunOne(w, steps, s);
    more, next := steps + [s], Apply(v, s);
  }

  lemma HandOff(w: World) returns (steps: seq<Step>)
    requires w.pc == Granted
    ensures Legal(w, steps) && Settles(steps)
    ensures Run(w, steps).handoffs == w.handoffs + 1
  {
    if w.kind == Kanban {
      RunTwo(w, Spawn, Crash);
      steps := [Spawn, Crash];
    } else {
      RunTwo(w, Start, Call(Unavailable));
      steps := [Start, Call(Unavailable)];
      RunOne(w, steps, Begin);
      steps := steps + [Begin];
    }
  }

  lemma RunTwo(w: World, s: Step, t: Step)
    requires Enabled(w, s) && Enabled(Apply(w, s), t)
    ensures Legal(w, [s, t]) && Run(w, [s, t]) == Apply(Apply(w, s), t)
  {
    RunOne(w, [], s);
    RunOne(w, [s], t);
    assert [] + [s] == [s] && [s] + [t] == [s, t];
  }

  predicate Committed(j: Journal) { j == Claiming || j == Starting || j == Running || j == Finished }

  /** Programs that commit the dispatcher's admission, or their own. */
  predicate UsesGate(pc: Pc) {
    || pc == Keeping || pc == Offering || pc == ClaimCall || pc == Winning || pc == Granted
    || pc == Spawned || pc == Announced || pc == Ready || pc == Executing
  }

  predicate UsesOwn(pc: Pc) {
    || pc.FinishSave? || pc.FinishTell? || pc.DeferTell? || pc.DeferClaim? || pc.ReconAsk? || pc.ReconKeep?
  }

  predicate Named(r: Row) { Committed(r.state) ==> r.admission.Grant? }

  /** Rows that commit Control's grant name it, now and in every row ever read. */
  ghost predicate Carried(w: World) {
    && (w.row.Some? ==> w.row.value in w.past)
    && (forall r <- w.past :: Named(r))
    && (UsesGate(w.pc) ==> w.gate.Grant?)
    && (UsesOwn(w.pc) ==> w.pc.own.Grant?)
  }

  lemma StepKeepsCarried(w: World, s: Step)
    requires Carried(w) && Enabled(w, s)
    ensures Carried(Apply(w, s))
  {
    match s {
      case Write => WriteKeepsCarried(w);
      case Call(r) => CallKeepsCarried(w, r);
      case ReconAcquire(snapshot, _) => assert Named(snapshot);
      case Start => assert Apply(w, s).past == w.past + {Row(Running, w.gate)};
      case StraySaved => assert Apply(w, s).past == w.past + {Row(Cancelled, w.stray.own)};
      case StrayDone => assert Apply(w, s).past == w.past + {Row(Settled, w.stray.own)};
      case _ => QuietKeepsCarried(w, s);
    }
  }

  /** Steps that leave the journal alone. */
  lemma QuietKeepsCarried(w: World, s: Step)
    requires Carried(w) && Enabled(w, s)
    requires !s.Write? && !s.Call? && !s.ReconAcquire? && !s.Start? && !s.StraySaved? && !s.StrayDone?
    ensures Carried(Apply(w, s))
  {
    assert Apply(w, s).past == w.past && Apply(w, s).row == w.row;
  }

  lemma WriteKeepsCarried(w: World)
    requires Carried(w) && Writing(w.pc)
    ensures Carried(Apply(w, Write))
  {
    var row := Row(WrittenState(w.pc), WrittenAdmission(w.pc, w.gate));
    assert Apply(w, Write).past == w.past + {row} && Named(row);
  }

  lemma CallKeepsCarried(w: World, r: Reply)
    requires Carried(w) && Calling(w.pc)
    ensures Carried(Apply(w, Call(r)))
  {
  }

  /** In every run, however late or wrong Control's replies are. */
  lemma {:induction false} CommittedRowsNameTheirGrant(w: World, steps: seq<Step>)
    requires Carried(w) && Legal(w, steps)
    ensures Carried(Run(w, steps))
    decreases |steps|
  {
    if steps != [] {
      StepKeepsCarried(w, steps[0]);
      CommittedRowsNameTheirGrant(Apply(w, steps[0]), steps[1..]);
    }
  }
}
