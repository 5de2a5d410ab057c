/** What Control is told: the receipts that the programs send, delivered or not, and what
    the journal makes of the answers. */
module AdmissionReceipts {
  import opened Wrappers
  import opened AdmissionProtocol

  datatype Receipt = ToldRunning | ToldFinished | ToldCancelled | ToldAborted

  datatype Note = Note(receipt: Receipt, admission: Admission)

  /** The receipt that is sent in this step, if it sends one. */
  function NoteOf(w: World, s: Step): seq<Note>
    requires Enabled(w, s)
  {
    match s
    case Call(_) => CallNote(w.pc, w.gate)
    case StrayTold(_) => [Note(ToldCancelled, w.stray.own)]
    case Remind(snapshot) => [Note(ToldRunning, snapshot.admission)]
    case _ => []
  }

  function CallNote(pc: Pc, gate: Admission): seq<Note> {
    match pc
    case Announced => [Note(ToldRunning, gate)]
    case Unclaiming => [Note(ToldAborted, gate)]
    case FinishTell(own) => [Note(ToldFinished, own)]
    case AbortTell(own) => [Note(ToldCancelled, own)]
    case DeferTell(own) => [Note(ToldAborted, own)]
    case _ => []
  }

  function Sent(w: World, steps: seq<Step>): seq<Note>
    requires Legal(w, steps)
    decreases |steps|
  {
    if steps == [] then [] else NoteOf(w, steps[0]) + Sent(Apply(w, steps[0]), steps[1..])
  }

  lemma {:induction false} SentSnoc(w: World, steps: seq<Step>, s: Step)
    requires Legal(w, steps) && Enabled(Run(w, steps), s)
    ensures Legal(w, steps + [s]) && Sent(w, steps + [s]) == Sent(w, steps) + NoteOf(Run(w, steps), s)
    decreases |steps|
  {
    if steps == [] {
      OneStep(w, s);
      assert [] + [s] == [s] && [s][1..] == [];
      assert Sent(Apply(w, s), []) == [];
    } else {
      SentSnoc(Apply(w, steps[0]), steps[1..], s);
      assert (steps + [s])[0] == steps[0] && (steps + [s])[1..] == steps[1..] + [s];
    }
  }

  // Receipts say what happened.

  predicate HasRun(j: Journal) { j == Running || j == Finished }

  /** A row that says the executor ran was written only once it had been recorded. */
  ghost predicate Recorded(w: World) {
    && (forall r <- w.past :: HasRun(r.state) ==> w.ran)
    && (w.pc == Announced || w.pc.FinishTell? ==> w.ran)
    && (w.pc.AbortTell? || w.pc == AbortAsk || w.stray.StrayTell? || w.stray.StrayAsk? ==>
          exists r <- w.past :: r.state == Cancelled)
  }

  lemma StepKeepsRecorded(w: World, s: Step)
    requires Recorded(w) && Enabled(w, s)
    ensures Recorded(Apply(w, s))
  {
    var v := Apply(w, s);
    if s.Write? {
      var row := Row(WrittenState(w.pc), WrittenAdmission(w.pc, w.gate));
      assert v.past == w.past + {row} && row in v.past;
    } else if s.Start? {
      assert v.past == w.past + {Row(Running, w.gate)};
    } else if s.StraySaved? {
      assert v.past == w.past + {Row(Cancelled, w.stray.own)} && Row(Cancelled, w.stray.own) in v.past;
    } else if s.StrayDone? {
      assert v.past == w.past + {Row(Settled, w.stray.own)};
    } else {
      assert v.past == w.past && v.ran == w.ran;
    }
    if r :| r in w.past && r.state == Cancelled {
      assert r in v.past;
    }
  }

  /** Aborted: nothing was handed to an executor, so the intent may be offered again.
      Running and finished: the journal has said so.  Cancelled: it has said that. */
  ghost predicate Honestly(w: World, n: Note) {
    match n.receipt
    case ToldAborted => !Spent(w)
    case ToldRunning | ToldFinished => w.ran
    case ToldCancelled => exists r <- w.past :: r.state == Cancelled
  }

  ghost predicate TellsTheTruth(w: World, steps: seq<Step>)
    requires Legal(w, steps)
    decreases |steps|
  {
    steps == [] ||
    ((forall n <- NoteOf(w, steps[0]) :: Honestly(w, n)) && TellsTheTruth(Apply(w, steps[0]), steps[1..]))
  }

  /** In every run in which no reconciler takes the fence with a stale claim, every receipt
      is true of the intent when it is sent. */
  lemma {:induction false} ReceiptsAreTrue(w: World, steps: seq<Step>)
    requires Safe(w) && Recorded(w) && Legal(w, steps) && Timely(w, steps)
    ensures TellsTheTruth(w, steps)
    decreases |steps|
  {
    if steps != [] {
      NoteIsTrue(w, steps[0]);
      StepKeepsSafe(w, steps[0]);
      StepKeepsRecorded(w, steps[0]);
      ReceiptsAreTrue(Apply(w, steps[0]), steps[1..]);
    }
  }

  lemma NoteIsTrue(w: World, s: Step)
    requires Safe(w) && Recorded(w) && Enabled(w, s)
    ensures forall n <- NoteOf(w, s) :: Honestly(w, n)
  {
    if s.Remind? {
      assert HasRun(s.snapshot.state);
    }
  }

  // An intent is settled only once that is settled with Control.

  predicate Ended(g: Grade) { g == Dropped || g == Done || g == Rejected }

  /** Control acknowledges the end of the intent, says it has ended, or does not know it. */
  predicate Closes(w: World, s: Step) {
    match s
    case Call(r) =>
      || ((w.pc.FinishTell? || w.pc.AbortTell?) && r.Answer?)
      || (w.pc == Asking && r.Answer? && Ended(r.grade))
      || (w.pc == AbortAsk && r.Missing?)
    case StrayTold(r) => r.Answer?
    case StrayAsked(r) => r.Missing?
    case _ => false
  }

  predicate ClosedIn(w: World, steps: seq<Step>)
    requires Legal(w, steps)
    decreases |steps|
  {
    steps != [] && (Closes(w, steps[0]) || ClosedIn(Apply(w, steps[0]), steps[1..]))
  }

  /** The journal says settled, or a program is about to. */
  predicate Settling(w: World) {
    || (w.row.Some? && w.row.value.state == Settled)
    || w.pc == Ending || w.pc.FinishSettle? || w.pc.AbortSettle? || w.stray.StraySettle?
  }

  lemma SettlingNeedsClosing(w: World, s: Step)
    requires Enabled(w, s) && !Settling(w) && Settling(Apply(w, s))
    ensures Closes(w, s)
  {
  }

  lemma {:induction false} SettledRunIsClosed(w: World, steps: seq<Step>)
    requires Legal(w, steps) && Settling(Run(w, steps)) && !Settling(w)
    ensures ClosedIn(w, steps)
    decreases |steps|
  {
    if steps != [] {
      if Settling(Apply(w, steps[0])) {
        SettlingNeedsClosing(w, steps[0]);
      } else {
        SettledRunIsClosed(Apply(w, steps[0]), steps[1..]);
      }
    }
  }

  /** However programs interleave and crash and whatever Control answers: a settled journal
      row means that Control acknowledged the end, said the intent had ended, or denied
      knowing it. */
  lemma SettledMeansClosed(kind: Kind, steps: seq<Step>)
    requires Legal(Initial(kind), steps)
    requires var row := Run(Initial(kind), steps).row; row.Some? && row.value.state == Settled
    ensures ClosedIn(Initial(kind), steps)
  {
    SettledRunIsClosed(Initial(kind), steps);
  }

  // What one reconcile pass says and leaves.

  /** The writes and calls of one program. */
  predicate Effects(steps: seq<Step>) { forall s <- steps :: s.Write? || s.Call? }

  /** The notes are all of this kind, and about this admission unless it is unknown. */
  predicate AllNotes(notes: seq<Note>, receipt: Receipt, about: Admission) {
    forall n <- notes :: n.receipt == receipt && (about.Grant? ==> n.admission == about)
  }

  /** The row is as it was, or says `midway` or `end` under this admission. */
  predicate LeftAs(before: Option<Row>, after: Option<Row>, midway: Journal, end: Journal, about: Admission) {
    after == before ||
    (after.Some? && (after.value.state == midway || after.value.state == end) &&
     (about.Grant? ==> after.value.admission == about))
  }

  predicate FinishesAs(pc: Pc, own: Admission) {
    pc == Free || pc == FinishSave(own) || pc == FinishTell(own) || pc == FinishSettle(own)
  }

  lemma {:induction false} FinishingTellsFinished(w: World, own: Admission, steps: seq<Step>)
    requires FinishesAs(w.pc, own) && Legal(w, steps) && Effects(steps)
    ensures AllNotes(Sent(w, steps), ToldFinished, own)
    ensures LeftAs(w.row, Run(w, steps).row, Finished, Settled, own)
    decreases |steps|
  {
    if steps != [] {
      assert steps[0] in steps && forall s <- steps[1..] :: s in steps;
      FinishingTellsFinished(Apply(w, steps[0]), own, steps[1..]);
    }
  }

  predicate AbortsAs(pc: Pc, own: Admission) {
    || pc == Free || pc == AbortSave(own) || (own == Empty && pc == AbortAsk)
    || ((pc.AbortTell? || pc.AbortSettle?) && (own.Grant? ==> pc.own == own))
  }

  lemma {:induction false} AbortingTellsCancelled(w: World, own: Admission, steps: seq<Step>)
    requires AbortsAs(w.pc, own) && Legal(w, steps) && Effects(steps)
    ensures AllNotes(Sent(w, steps), ToldCancelled, own)
    ensures LeftAs(w.row, Run(w, steps).row, Cancelled, Settled, own)
    decreases |steps|
  {
    if steps != [] {
      assert steps[0] in steps && forall s <- steps[1..] :: s in steps;
      AbortingTellsCancelled(Apply(w, steps[0]), own, steps[1..]);
    }
  }

  predicate PutsBack(pc: Pc) {
    pc == Free || pc.ReconAsk? || pc.ReconKeep? || pc.DeferTell? || pc == DeferWait || pc.DeferClaim?
  }

  lemma {:induction false} PuttingBackTellsAborted(w: World, steps: seq<Step>)
    requires PutsBack(w.pc) && Legal(w, steps) && Effects(steps)
    ensures AllNotes(Sent(w, steps), ToldAborted, Empty)
    ensures LeftAs(w.row, Run(w, steps).row, Waiting, Claiming, Empty)
    decreases |steps|
  {
    if steps != [] {
      assert steps[0] in steps && forall s <- steps[1..] :: s in steps;
      PuttingBackTellsAborted(Apply(w, steps[0]), steps[1..]);
    }
  }

  /** A reconcile pass, cut short anywhere and whatever Control answers, finishes what ran,
      cancels what was starting or given up, and puts back what was only claimed: it sends
      no other receipt and leaves no other row. */
  lemma ReconcilersCloseWhatRan(w: World, snapshot: Row, abandoned: bool, steps: seq<Step>)
    requires Enabled(w, ReconAcquire(snapshot, abandoned)) && Effects(steps)
    requires Legal(Apply(w, ReconAcquire(snapshot, abandoned)), steps)
    ensures var v := Apply(w, ReconAcquire(snapshot, abandoned));
      var (notes, row, own) := (Sent(v, steps), Run(v, steps).row, snapshot.admission);
      match snapshot.state
      case Running | Finished => AllNotes(notes, ToldFinished, own) && LeftAs(w.row, row, Finished, Settled, own)
      case Starting | Cancelled => AllNotes(notes, ToldCancelled, own) && LeftAs(w.row, row, Cancelled, Settled, own)
      case Waiting =>
        && AllNotes(notes, ToldCancelled, own) && LeftAs(w.row, row, Cancelled, Settled, own)
        && (!abandoned ==> notes == [] && row == w.row)
      case Claiming => AllNotes(notes, ToldAborted, Empty) && LeftAs(w.row, row, Waiting, Claiming, Empty)
      case Settled => AllNotes(notes, ToldFinished, own) && LeftAs(w.row, row, Finished, Settled, own)
  {
    var v := Apply(w, ReconAcquire(snapshot, abandoned));
    if v.pc == Free {
      NothingLeftToDo(v, steps);
    } else {
      match snapshot.state {
        case Running | Finished | Settled => FinishingTellsFinished(v, snapshot.admission, steps);
        case Starting | Cancelled | Waiting => AbortingTellsCancelled(v, snapshot.admission, steps);
        case Claiming => PuttingBackTellsAborted(v, steps);
      }
    }
  }

  lemma NothingLeftToDo(w: World, steps: seq<Step>)
    requires w.pc == Free && Legal(w, steps) && Effects(steps)
    ensures Sent(w, steps) == [] && Run(w, steps) == w
  {
    assert forall k | 0 <= k < |steps| :: steps[k] in steps;
  }
}
