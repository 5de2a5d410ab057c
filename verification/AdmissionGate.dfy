/** The programs that drive the admission protocol, in the source's own shape.
    Each performs legal protocol steps only, one for every journal write and
    Control call, so what AdmissionProtocol proves of all runs holds when any of
    them is interrupted at any point. */
module AdmissionGate {
  import opened Wrappers
  import opened AdmissionProtocol
  import opened AdmissionReceipts

  /** The row one poll leaves, from the row it found under the fence. */
  function PolledRow(found: Option<Row>, recorded: bool, observed: Reply, unclaimed: Reply, claimed: Reply)
    : Option<Row>
  {
    if found.None? && !recorded then None
    else ConsultedRow(if found.None? then Some(Row(Waiting, Empty)) else found, observed, unclaimed, claimed)
  }

  /** The row left by acting on Control's answer about a recorded intent. */
  function ConsultedRow(known: Option<Row>, observed: Reply, unclaimed: Reply, claimed: Reply): Option<Row> {
    match observed
    case Missing | Unavailable => known
    case Answer(id, grade) =>
      match grade
      case Dropped | Done | Rejected => Some(Row(Settled, Grant(id, grade)))
      case Claimed => if unclaimed.Answer? then Some(Row(Waiting, Empty)) else known
      case Queued | Active => Some(Row(Waiting, Grant(id, grade)))
      case Offered => Some(ClaimedRow(Grant(id, grade), claimed))
  }

  /** The row left by a claim. */
  function ClaimedRow(offer: Admission, claimed: Reply): Row {
    if !claimed.Answer? then Row(Claiming, offer)
    else Row(if claimed.grade == Claimed then Starting else Waiting, Grant(claimed.id, claimed.grade))
  }

  /** The row left by giving up admission `own`, or whatever Control says the intent has. */
  function AbortedRow(own: Admission, observed: Reply, told: Reply): Row {
    if own.Grant? then Row(if told.Answer? then Settled else Cancelled, own)
    else match observed
      case Missing => Row(Settled, Empty)
      case Unavailable => Row(Cancelled, Empty)
      case Answer(id, grade) => if told.Answer? then Row(Settled, Grant(id, grade)) else Row(Cancelled, Empty)
  }

  /** The row left by putting an intent back. */
  function DeferredRow(own: Admission, told: Reply): Row {
    if told.Answer? then Row(Waiting, Empty) else Row(Claiming, own)
  }

  function FinishedRow(own: Admission, told: Reply): Row { Row(if told.Answer? then Settled else Finished, own) }

  /** The row a reconciler leaves, from the row it finds and the one it read before it locked. */
  function ReconciledRow(found: Option<Row>, snapshot: Row, abandoned: bool, observed: Reply, told: Reply): Option<Row> {
    var own := snapshot.admission;
    if own == Empty && snapshot.state == Cancelled then Some(AbortedRow(Empty, observed, told))
    else if own == Empty && snapshot.state != Waiting then found
    else match snapshot.state
      case Waiting => if abandoned then Some(AbortedRow(own, observed, told)) else found
      case Claiming =>
        if !observed.Answer? then found
        else if observed.grade == Claimed then Some(DeferredRow(Grant(observed.id, Claimed), told))
        else Some(Row(Waiting, Grant(observed.id, observed.grade)))
      case Starting | Cancelled => Some(AbortedRow(own, observed, told))
      case Running | Finished | Settled => Some(FinishedRow(own, told))
  }

  /** A reconciler whose row is current and whom Control answers leaves no intent midway. */
  lemma CurrentRowsAreReconciled(snapshot: Row, abandoned: bool, observed: Reply, told: Reply)
    requires Named(snapshot) && observed.Answer? && told.Answer?
    ensures var row := ReconciledRow(Some(snapshot), snapshot, abandoned, observed, told);
      row.Some? &&
      match snapshot.state
      case Waiting => if abandoned then row.value.state == Settled else row == Some(snapshot)
      case Claiming => row.value.state == Waiting
      case Starting | Running | Finished => row.value.state == Settled && row.value.admission == snapshot.admission
      case Cancelled | Settled => row.value.state == Settled
  {
  }

  /** What a poll that may enter and has recorded its intent tells Control. */
  function PolledNotes(observed: Reply): seq<Note> {
    if Grants(observed) then [Note(ToldAborted, GrantOf(observed))] else []
  }

  /** What giving up admission `own` tells Control. */
  function AbortedNotes(own: Admission, observed: Reply): seq<Note> {
    if own.Grant? then [Note(ToldCancelled, own)]
    else if observed.Answer? then [Note(ToldCancelled, GrantOf(observed))] else []
  }

  /** What a reconciler with the fence tells Control. */
  function ReconciledNotes(snapshot: Row, abandoned: bool, observed: Reply): seq<Note> {
    var own := snapshot.admission;
    match snapshot.state
    case Waiting => if abandoned then AbortedNotes(own, observed) else []
    case Claiming => if own.Grant? && Grants(observed) then [Note(ToldAborted, GrantOf(observed))] else []
    case Starting => if own.Grant? then AbortedNotes(own, observed) else []
    case Cancelled => AbortedNotes(own, observed)
    case Running | Finished | Settled => if own.Grant? then [Note(ToldFinished, own)] else []
  }

  /** A row that Control is told to end: what is left says how, and settled only if Control
      has acknowledged, or does not know an intent whose admission nobody knows. */
  predicate EndedAs(left: Option<Row>, midway: Journal, own: Admission, observed: Reply, told: Reply) {
    && left.Some? && (left.value.state == midway || left.value.state == Settled)
    && (left.value.state == Settled <==> if own.Grant? || observed.Answer? then told.Answer? else observed.Missing?)
    && (own.Grant? ==> left.value.admission == own)
  }

  /** The row and the receipts of a whole pass, by what the row said when it was read: what
      ran is finished and never called cancelled, what was starting or given up is cancelled
      and never called finished, and what waits or was only claimed is never closed. */
  lemma PassesEndByState(found: Option<Row>, snapshot: Row, abandoned: bool, observed: Reply, told: Reply)
    requires Named(snapshot)
    ensures var left := ReconciledRow(found, snapshot, abandoned, observed, told);
      var (notes, own) := (ReconciledNotes(snapshot, abandoned, observed), snapshot.admission);
      match snapshot.state
      case Running | Finished => EndedAs(left, Finished, own, observed, told) && notes == [Note(ToldFinished, own)]
      case Starting =>
        EndedAs(left, Cancelled, own, observed, told) && notes == [Note(ToldCancelled, own)]
      case Cancelled =>
        && EndedAs(left, Cancelled, own, observed, told) && AllNotes(notes, ToldCancelled, own)
        && (notes != [] <==> own.Grant? || observed.Answer?)
      case Waiting =>
        if abandoned then EndedAs(left, Cancelled, own, observed, told) && AllNotes(notes, ToldCancelled, own)
        else left == found && notes == []
      case Claiming =>
        if !observed.Answer? then left == found && notes == []
        else
          && left.Some? && (left.value.state == Claiming <==> Grants(observed) && !told.Answer?)
          && (left.value.state == Waiting <==> !Grants(observed) || told.Answer?)
          && left.value.admission == (if Grants(observed) && told.Answer? then Empty else GrantOf(observed))
          && notes == if Grants(observed) then [Note(ToldAborted, GrantOf(observed))] else []
      case Settled => own.Grant? ==> EndedAs(left, Finished, own, observed, told)
  {
  }

  /** After a poll the row is settled exactly if Control says the intent has ended, starting
      exactly if a claim was granted, and claiming exactly if the claim got no answer or the
      row was claiming and Control says nothing new; it carries the last admission that
      Control named, and none once a claim has been given back. */
  lemma PollsEndByAnswer(found: Option<Row>, recorded: bool, observed: Reply, unclaimed: Reply, claimed: Reply)
    requires if found.Some? then Open(found.value.state) else recorded
    ensures var left := PolledRow(found, recorded, observed, unclaimed, claimed);
      var stays := !observed.Answer? || (Grants(observed) && !unclaimed.Answer?);
      && left.Some?
      && (stays ==> left.value == if found.Some? then found.value else Row(Waiting, Empty))
      && (!stays ==>
            && (left.value.state == Settled <==> Ended(observed.grade))
            && (left.value.state == Starting <==> Offers(observed) && Grants(claimed))
            && (left.value.state == Claiming <==> Offers(observed) && !claimed.Answer?)
            && left.value.state != Running && left.value.state != Finished && left.value.state != Cancelled
            && left.value.admission ==
               if Grants(observed) then Empty
               else if Offers(observed) && claimed.Answer? then GrantOf(claimed) else GrantOf(observed))
  {
  }

  /** How spawning a worker ends: no process comes to be, one does but the handler still
      gives up, before or after the row says running, or all is well. */
  datatype Spawning = NoProcess | Orphaned(saved: bool) | Handed

  /** How the dispatcher's own claim of the task ends, once the intent is admitted. */
  datatype TaskClaim = Taken | NotTaken | ClaimRaises

  function GrantOf(r: Reply): Admission { if r.Answer? then Grant(r.id, r.grade) else Empty }

  predicate Offers(r: Reply) { r.Answer? && r.grade == Offered }

  predicate Grants(r: Reply) { r.Answer? && r.grade == Claimed }

  class NativeAdmission {
    var row: Option<Row>        // the durable journal row of this intent
    var admission: Admission    // self.admission; Empty is the empty dict
    var descriptor: bool        // the fence is held
    const kind: Kind
    ghost const origin: World
    ghost var world: World
    ghost var trail: seq<Step>
    ghost var notes: seq<Note>  // the receipts sent, delivered or not

    /** The trail is a legal run of the protocol that leads to this state, and sends these receipts. */
    ghost predicate Traced()
      reads this`world, this`trail, this`notes
    {
      Legal(origin, trail) && Run(origin, trail) == world && Sent(origin, trail) == notes
    }

    ghost predicate Valid()
      reads this
    {
      Traced() && row == world.row && kind == world.kind && (descriptor ==> world.pc != Free)
    }

    constructor (ghost w: World, kind: Kind, stored: Option<Row>)
      requires stored == w.row && kind == w.kind
      ensures Valid() && world == w && origin == w && trail == [] && notes == []
      ensures row == stored && admission == Empty && !descriptor
    {
      this.kind := kind;
      row, admission, descriptor := stored, Empty, false;
      origin, world, trail, notes := w, w, [], [];
    }

    ghost method Do(s: Step)
      requires Traced() && Enabled(world, s)
      modifies this`world, this`trail, this`notes
      ensures Traced()
      ensures world == Apply(old(world), s) && trail == old(trail) + [s]
      ensures notes == old(notes) + old(NoteOf(world, s))
    {
      RunOne(origin, trail, s);
      SentSnoc(origin, trail, s);
      world, trail, notes := Apply(world, s), trail + [s], notes + NoteOf(world, s);
    }

    ghost method DoWrite()
      requires Traced() && Writing(world.pc)
      modifies this`world, this`trail, this`notes
      ensures Traced() && trail == old(trail) + [Write] && notes == old(notes)
      ensures world == old(Put(world, WrittenState(world.pc), WrittenAdmission(world.pc, world.gate),
                               AfterWrite(world.pc, world.gate)))
    {
      Do(Write);
    }

    /** A call that asks, or claims. */
    ghost method DoCall(r: Reply)
      requires Traced() && Calling(world.pc) && CallNote(world.pc, world.gate) == []
      modifies this`world, this`trail, this`notes
      ensures Traced() && trail == old(trail) + [Call(r)] && notes == old(notes)
      ensures world == old(world.(gate := GateAfterCall(world.pc, world.gate, r),
                                  pc := AfterCall(world.kind, world.pc, r)))
    {
      Do(Call(r));
    }

    /** Send a receipt about the admission at hand. */
    ghost method Tell(receipt: Receipt, r: Reply)
      requires Traced() && Calling(world.pc) && CallNote(world.pc, world.gate) == [Note(receipt, admission)]
      modifies this`world, this`trail, this`notes
      ensures Traced() && trail == old(trail) + [Call(r)] && notes == old(notes) + [Note(receipt, admission)]
      ensures world == old(world.(gate := GateAfterCall(world.pc, world.gate, r),
                                  pc := AfterCall(world.kind, world.pc, r)))
    {
      Do(Call(r));
    }

    method Save(state: Journal)
      modifies this`row
      ensures row == Some(Row(state, admission))
    {
      row := Some(Row(state, admission));
    }

    /** `reachable`: storage, maintenance and the fence all let the poll in. */
    method Poll(reachable: bool, recorded: bool, observed: Reply, unclaimed: Reply, claimed: Reply)
      returns (admitted: bool)
      requires Valid() && !descriptor && FenceFree(world)
      modifies this
      ensures Valid()
      ensures world.handoffs == old(world.handoffs) && world.stray == old(world.stray)
      ensures row == if reachable && old(Pollable(world))
                     then PolledRow(old(row), recorded, observed, unclaimed, claimed) else old(row)
      ensures notes == old(notes) +
        if reachable && old(Pollable(world)) && (old(row).None? ==> recorded) then PolledNotes(observed) else []
      ensures admitted <==>
        && reachable && old(Pollable(world)) && (old(row).None? ==> recorded)
        && Offers(observed) && Grants(claimed)
      ensures admitted ==> descriptor && world.pc == Granted && world.gate == admission
      ensures admitted ==> admission == Grant(claimed.id, Claimed)
      ensures !admitted ==> !descriptor && world.pc == Free
    {
      admitted := false;
      if !reachable { return; }
      if row.Some? && row.value.state != Waiting && row.value.state != Claiming { return; }
      var asking := Enter(recorded);
      if !asking { return; }
      admitted := Consult(observed, unclaimed, claimed);
    }

    /** Take the fence, and record the intent if it is new. */
    method Enter(recorded: bool) returns (asking: bool)
      requires Valid() && !descriptor && FenceFree(world) && Pollable(world)
      modifies this
      ensures Valid() && world.handoffs == old(world.handoffs) && world.stray == old(world.stray)
      ensures notes == old(notes)
      ensures asking <==> old(row).Some? || recorded
      ensures asking ==> descriptor && world.pc == Asking && row == if old(row).None? then Some(Row(Waiting, Empty)) else old(row)
      ensures !asking ==> !descriptor && world.pc == Free && row == old(row)
    {
      Do(PollAcquire);
      descriptor := true;
      admission := if row.Some? then row.value.admission else Empty;
      asking := row.Some? || recorded;
      if !asking {
        Close();
      } else if row.None? {
        Record();
      }
    }

    /** The first journal row, before Control hears of the intent. */
    method Record()
      requires Valid() && descriptor && world.pc == Intent && admission == Empty
      modifies this
      ensures Valid() && descriptor && world.pc == Asking && world.handoffs == old(world.handoffs) && world.stray == old(world.stray)
      ensures row == Some(Row(Waiting, Empty)) && notes == old(notes)
    {
      DoWrite();
      Save(Waiting);
    }

    /** Observe or register, then act on Control's answer. */
    method Consult(observed: Reply, unclaimed: Reply, claimed: Reply) returns (admitted: bool)
      requires Valid() && descriptor && world.pc == Asking && row.Some?
      modifies this
      ensures Valid() && world.handoffs == old(world.handoffs) && world.stray == old(world.stray)
      ensures row == ConsultedRow(old(row), observed, unclaimed, claimed)
      ensures notes == old(notes) + PolledNotes(observed)
      ensures admitted <==> Offers(observed) && Grants(claimed)
      ensures admitted ==> descriptor && world.pc == Granted && world.gate == admission
      ensures admitted ==> admission == Grant(claimed.id, Claimed)
      ensures !admitted ==> !descriptor && world.pc == Free
    {
      hide Traced;
      admitted := false;
      DoCall(observed);
      if !observed.Answer? { Release(); return; }
      admission := Grant(observed.id, observed.grade);
      if observed.grade == Dropped || observed.grade == Done || observed.grade == Rejected {
        End(Settled);
        return;
      }
      if observed.grade == Claimed {
        Unclaim(unclaimed);
        return;
      }
      admitted := Keep(claimed);
    }

    /** Keep the intent waiting, and claim it if it is on offer. */
    method Keep(claimed: Reply) returns (admitted: bool)
      requires Valid() && descriptor && world.pc == Keeping && world.gate == admission && admission.Grant?
      modifies this
      ensures Valid() && world.handoffs == old(world.handoffs) && world.stray == old(world.stray)
      ensures row == Some(if old(admission).grade == Offered then ClaimedRow(old(admission), claimed)
                          else Row(Waiting, old(admission)))
      ensures notes == old(notes)
      ensures admitted <==> old(admission).grade == Offered && Grants(claimed)
      ensures admitted ==> descriptor && world.pc == Granted && world.gate == admission
      ensures admitted ==> admission == Grant(claimed.id, Claimed)
      ensures !admitted ==> !descriptor && world.pc == Free
    {
      admitted := false;
      DoWrite();
      Save(Waiting);
      if admission.grade != Offered { Release(); return; }
      admitted := Claim(claimed);
    }

    /** A lost claim reply, before any hand-off: give the grant back. */
    method Unclaim(unclaimed: Reply)
      requires Valid() && descriptor && world.pc == Unclaiming && world.gate == admission
      modifies this
      ensures Valid() && !descriptor && world.pc == Free && notes == old(notes) + [Note(ToldAborted, old(admission))]
      ensures row == if unclaimed.Answer? then Some(Row(Waiting, Empty)) else old(row)
      ensures world.handoffs == old(world.handoffs) && world.stray == old(world.stray)
    {
      Tell(ToldAborted, unclaimed);
      if !unclaimed.Answer? { Release(); return; }
      admission := Empty;
      End(Waiting);
    }

    /** A program's last journal write, and the release of the fence. */
    method End(state: Journal)
      requires Traced() && row == world.row && kind == world.kind
      requires Writing(world.pc) && AfterWrite(world.pc, world.gate) == Free
      requires WrittenState(world.pc) == state && WrittenAdmission(world.pc, world.gate) == admission
      modifies this
      ensures Valid() && !descriptor && world.pc == Free
      ensures row == Some(Row(state, admission)) && world.handoffs == old(world.handoffs) && world.stray == old(world.stray)
      ensures admission == old(admission) && world.worker == old(world.worker) && notes == old(notes)
    {
      DoWrite();
      Save(state);
      Release();
    }

    /** Journal the claim, then make it. */
    method Claim(claimed: Reply) returns (admitted: bool)
      requires Valid() && descriptor && world.pc == Offering && world.gate == admission
      modifies this
      ensures Valid()
      ensures world.handoffs == old(world.handoffs) && world.stray == old(world.stray)
      ensures admitted <==> Grants(claimed)
      ensures row == Some(ClaimedRow(old(admission), claimed)) && notes == old(notes)
      ensures admitted ==> descriptor && world.pc == Granted && world.gate == admission
      ensures admitted ==> admission == Grant(claimed.id, Claimed)
      ensures !admitted ==> !descriptor && world.pc == Free
    {
      hide Traced;
      DoWrite();
      Save(Claiming);
      DoCall(claimed);
      admitted := false;
      if !claimed.Answer? { Release(); return; }
      admission := Grant(claimed.id, claimed.grade);
      if claimed.grade != Claimed {
        End(Waiting);
        return;
      }
      DoWrite();
      Save(Starting);
      admitted := true;
    }

    /** Close after the program's last effect. */
    method Release()
      requires Traced() && row == world.row && kind == world.kind && world.pc == Free
      modifies this`descriptor
      ensures Valid() && !descriptor
    {
      descriptor := false;
    }

    /** Close in the middle of a program: it stops where it stands. */
    method Close()
      requires Valid()
      modifies this
      ensures Valid() && !descriptor && world == old(world).(pc := Free)
      ensures row == old(row) && admission == old(admission) && notes == old(notes)
    {
      Do(Crash);
      descriptor := false;
    }

    method Started(told: Reply)
      requires Valid() && descriptor && admission == world.gate
      requires Enabled(world, Start)
      modifies this
      ensures Valid() && descriptor == (kind != Kanban)
      ensures row == Some(Row(Running, admission)) && admission == old(admission)
      ensures notes == old(notes) + [Note(ToldRunning, admission)]
      ensures world.pc == (if kind == Kanban then Free else Ready) && world.handoffs == old(world.handoffs)
      ensures world.gate == admission && world.worker == old(world.worker)
    {
      hide Traced;
      Do(Start);
      Save(Running);
      Tell(ToldRunning, told);
      if kind == Kanban { descriptor := false; }
    }

    method Finish(told: Reply)
      requires Valid() && world.pc == FinishSave(admission)
      modifies this
      ensures Valid() && !descriptor && world.pc == Free
      ensures row == Some(FinishedRow(admission, told)) && notes == old(notes) + [Note(ToldFinished, admission)]
      ensures admission == old(admission) && world.handoffs == old(world.handoffs)
    {
      hide Traced;
      DoWrite();
      Save(Finished);
      Tell(ToldFinished, told);
      if told.Answer? { End(Settled); } else { Release(); }
    }

    /** Settled only once Control has acknowledged, or does not know the intent. */
    method Abort(observed: Reply, told: Reply)
      requires Valid() && world.pc == AbortSave(admission)
      modifies this
      ensures Valid() && !descriptor && world.pc == Free
      ensures row == Some(AbortedRow(old(admission), observed, told))
      ensures notes == old(notes) + AbortedNotes(old(admission), observed)
      ensures world.handoffs == old(world.handoffs) && world.worker == old(world.worker)
    {
      DoWrite();
      Save(Cancelled);
      if admission == Empty {
        var known := Identify(observed);
        if !known { return; }
      }
      Relinquish(told);
    }

    /** Ask Control for the intent's admission; one it does not know is settled. */
    method Identify(observed: Reply) returns (known: bool)
      requires Valid() && world.pc == AbortAsk && admission == Empty && row == Some(Row(Cancelled, Empty))
      modifies this
      ensures Valid() && world.handoffs == old(world.handoffs) && world.worker == old(world.worker)
      ensures notes == old(notes) && known == observed.Answer?
      ensures known ==> row == old(row) && admission == Grant(observed.id, observed.grade) && world.pc == AbortTell(admission)
      ensures !known ==> !descriptor && world.pc == Free
      ensures !known ==> row == Some(Row(if observed.Missing? then Settled else Cancelled, Empty))
    {
      DoCall(observed);
      known := observed.Answer?;
      if known {
        admission := Grant(observed.id, observed.grade);
      } else if observed.Missing? {
        End(Settled);
      } else {
        Release();
      }
    }

    /** Tell Control to drop the admission, and settle once it has agreed. */
    method Relinquish(told: Reply)
      requires Valid() && world.pc == AbortTell(admission) && row.Some? && row.value.state == Cancelled
      modifies this
      ensures Valid() && !descriptor && world.pc == Free
      ensures row == if told.Answer? then Some(Row(Settled, old(admission))) else old(row)
      ensures notes == old(notes) + [Note(ToldCancelled, old(admission))]
      ensures world.handoffs == old(world.handoffs) && world.worker == old(world.worker)
    {
      Tell(ToldCancelled, told);
      if told.Answer? { End(Settled); } else { Release(); }
    }

    /** Retain the intent; without an acknowledgement it stays claiming for the reconciler. */
    method Defer(told: Reply)
      requires Valid() && world.pc == DeferTell(admission)
      modifies this
      ensures Valid() && !descriptor && world.pc == Free
      ensures row == Some(DeferredRow(old(admission), told))
      ensures notes == old(notes) + [Note(ToldAborted, old(admission))]
      ensures world.handoffs == old(world.handoffs)
    {
      hide Traced;
      Tell(ToldAborted, told);
      if told.Answer? {
        admission := Empty;
        End(Waiting);
      } else {
        End(Claiming);
      }
    }

    /** `native_root` around a cron run: it runs at most once, under a running journal row,
        and the row is closed afterwards whatever the run does.  Without `starts` the
        journal does not take the running row, and the admission is finished unused. */
    method NativeRoot(reachable: bool, recorded: bool, observed: Reply, unclaimed: Reply, claimed: Reply,
                      activity: bool, aborted: Reply, starts: bool, running: Reply, finished: Reply)
      returns (ran: bool)
      requires Valid() && !descriptor && FenceFree(world) && kind != Kanban
      modifies this
      ensures Valid() && !descriptor && world.pc == Free
      ensures var entered := reachable && old(Pollable(world));
        var admitted := entered && (old(row).None? ==> recorded) && Offers(observed) && Grants(claimed);
        && (ran <==> admitted && activity && starts)
        && world.handoffs == old(world.handoffs) + (if ran then 1 else 0)
        && row == if !entered then old(row)
                  else if !admitted then PolledRow(old(row), recorded, observed, unclaimed, claimed)
                  else if !activity then Some(DeferredRow(Grant(claimed.id, Claimed), aborted))
                  else Some(FinishedRow(Grant(claimed.id, Claimed), finished))
      ensures var entered := reachable && old(Pollable(world)) && (old(row).None? ==> recorded);
        var own := GrantOf(claimed);
        notes == old(notes) +
          if !entered then []
          else if !(Offers(observed) && Grants(claimed)) then PolledNotes(observed)
          else if !activity then [Note(ToldAborted, own)]
          else if starts then [Note(ToldRunning, own), Note(ToldFinished, own)] else [Note(ToldFinished, own)]
    {
      hide Traced;
      var admitted := Poll(reachable, recorded, observed, unclaimed, claimed);
      if !admitted { return false; }
      if !activity {
        Do(Postpone);
        Defer(aborted);
        return false;
      }
      RunAdmitted(starts, running, finished);
      return starts;
    }

    /** The run itself, between started and finish. */
    method RunAdmitted(starts: bool, running: Reply, finished: Reply)
      requires Valid() && descriptor && world.pc == Granted && kind != Kanban && world.gate == admission
      modifies this
      ensures Valid() && !descriptor && world.pc == Free
      ensures world.handoffs == old(world.handoffs) + if starts then 1 else 0
      ensures row == Some(FinishedRow(old(admission), finished))
      ensures notes == old(notes) + (if starts then [Note(ToldRunning, old(admission))] else []) +
                       [Note(ToldFinished, old(admission))]
    {
      if starts {
        Started(running);
        Execute();
      } else {
        Do(Complete);
      }
      Finish(finished);
    }

    method Execute()
      requires Valid() && world.pc == Ready && world.gate == admission
      modifies this
      ensures Valid() && world.pc == FinishSave(admission) && world.handoffs == old(world.handoffs) + 1
      ensures admission == old(admission) && row == old(row) && descriptor == old(descriptor) && notes == old(notes)
    {
      Do(Begin);
      Do(Complete);
    }

    /** The spawner of a claimed task: the worker inherits the fence, or the admission is
        given up, even if a worker has come to be. */
    method SpawnWorker(fate: Spawning, running: Reply, observed: Reply, cancelled: Reply) returns (spawned: bool)
      requires Valid() && descriptor && world.pc == Granted && kind == Kanban && world.gate == admission
      modifies this
      ensures Valid() && !descriptor && world.pc == Free && spawned == fate.Handed?
      ensures world.handoffs == old(world.handoffs) + if fate.NoProcess? then 0 else 1
      ensures world.worker == (old(world.worker) || !fate.NoProcess?)
      ensures row == Some(if spawned then Row(Running, old(admission))
                          else AbortedRow(old(admission), observed, cancelled))
      ensures notes == old(notes) +
        if spawned then [Note(ToldRunning, old(admission))] else AbortedNotes(old(admission), observed)
    {
      hide Traced;
      if !fate.NoProcess? { Do(Spawn); }
      if fate.Handed? {
        Started(running);
        return true;
      }
      if fate.Orphaned? && fate.saved {
        Do(Start);
        Save(Running);
      }
      Do(GiveUp);
      Abort(observed, cancelled);
      return false;
    }

    /** The dispatcher's wrapper around the claim of a task: the admission is kept for the
        spawner, put back, or given up; if putting it back is not `stored`, it is given
        up without the fence, which the defer has released. */
    method ClaimTask(reachable: bool, recorded: bool, observed: Reply, unclaimed: Reply, claimed: Reply,
                     claim: TaskClaim, stored: bool, deferred: Reply, asked: Reply, told: Reply)
      returns (taken: bool)
      requires Valid() && !descriptor && FenceFree(world) && kind == Kanban && world.stray == NoStray
      modifies this
      ensures Valid() && world.handoffs == old(world.handoffs)
      ensures var entered := reachable && old(Pollable(world));
        var admitted := entered && (old(row).None? ==> recorded) && Offers(observed) && Grants(claimed);
        var own := GrantOf(claimed);
        && (taken <==> admitted && claim == Taken)
        && (taken ==> descriptor && world.pc == Granted && admission == world.gate == own)
        && (!taken ==> !descriptor && world.pc == Free)
        && row == if !entered then old(row)
                  else if !admitted then PolledRow(old(row), recorded, observed, unclaimed, claimed)
                  else Some(match claim
                            case Taken => Row(Starting, own)
                            case NotTaken =>
                              if stored then DeferredRow(own, deferred)
                              else AbortedRow(if deferred.Answer? then Empty else own, asked, told)
                            case ClaimRaises => AbortedRow(own, asked, told))
      ensures var entered := reachable && old(Pollable(world)) && (old(row).None? ==> recorded);
        var own := GrantOf(claimed);
        notes == old(notes) +
          if !entered then []
          else if !(Offers(observed) && Grants(claimed)) then PolledNotes(observed)
          else match claim
               case Taken => []
               case NotTaken =>
                 [Note(ToldAborted, own)] +
                 if stored then [] else AbortedNotes(if deferred.Answer? then Empty else own, asked)
               case ClaimRaises => [Note(ToldCancelled, own)]
    {
      hide Traced;
      taken := Poll(reachable, recorded, observed, unclaimed, claimed);
      if !taken { return; }
      match claim {
        case Taken =>
        case NotTaken =>
          Do(Postpone);
          PutBack(stored, deferred, asked, told);
          taken := false;
        case ClaimRaises =>
          Do(GiveUp);
          Abort(asked, told);
          taken := false;
      }
    }

    method PutBack(stored: bool, deferred: Reply, asked: Reply, told: Reply)
      requires Valid() && world.pc == DeferTell(admission) && kind == Kanban && world.stray == NoStray
      modifies this
      ensures Valid() && !descriptor && world.pc == Free && world.handoffs == old(world.handoffs)
      ensures row == Some(if stored then DeferredRow(old(admission), deferred)
                          else AbortedRow(if deferred.Answer? then Empty else old(admission), asked, told))
      ensures notes == old(notes) + [Note(ToldAborted, old(admission))] +
        if stored then [] else AbortedNotes(if deferred.Answer? then Empty else old(admission), asked)
    {
      hide Traced;
      if stored {
        Defer(deferred);
        return;
      }
      Tell(ToldAborted, deferred);
      if deferred.Answer? { admission := Empty; }
      Do(DeferFails);
      descriptor := false;
      AbortUnfenced(asked, told);
    }

    /** `abort` without the fence. */
    method AbortUnfenced(asked: Reply, told: Reply)
      requires Valid() && !descriptor && world.stray == StraySave(admission)
      modifies this
      ensures Valid() && !descriptor && world.stray == NoStray
      ensures world.pc == old(world.pc) && world.handoffs == old(world.handoffs)
      ensures row == Some(AbortedRow(old(admission), asked, told))
      ensures notes == old(notes) + AbortedNotes(old(admission), asked)
    {
      Do(StraySaved);
      Save(Cancelled);
      if admission == Empty {
        var known := IdentifyUnfenced(asked);
        if !known { return; }
      }
      RelinquishUnfenced(told);
    }

    method IdentifyUnfenced(asked: Reply) returns (known: bool)
      requires Valid() && !descriptor && world.stray == StrayAsk && admission == Empty
      requires row == Some(Row(Cancelled, Empty))
      modifies this
      ensures Valid() && !descriptor && world.pc == old(world.pc) && world.handoffs == old(world.handoffs)
      ensures notes == old(notes) && known == asked.Answer?
      ensures known ==> row == old(row) && admission == GrantOf(asked) && world.stray == StrayTell(admission)
      ensures !known ==> world.stray == NoStray
      ensures !known ==> row == Some(Row(if asked.Missing? then Settled else Cancelled, Empty))
    {
      Do(StrayAsked(asked));
      known := asked.Answer?;
      if known {
        admission := Grant(asked.id, asked.grade);
      } else if asked.Missing? {
        SettleUnfenced();
      }
    }

    method RelinquishUnfenced(told: Reply)
      requires Valid() && !descriptor && world.stray == StrayTell(admission)
      modifies this
      ensures Valid() && !descriptor && world.stray == NoStray
      ensures world.pc == old(world.pc) && world.handoffs == old(world.handoffs)
      ensures row == if told.Answer? then Some(Row(Settled, old(admission))) else old(row)
      ensures notes == old(notes) + [Note(ToldCancelled, old(admission))]
    {
      Do(StrayTold(told));
      if told.Answer? { SettleUnfenced(); }
    }

    method SettleUnfenced()
      requires Valid() && !descriptor && world.stray == StraySettle(admission)
      modifies this
      ensures Valid() && !descriptor && world.stray == NoStray
      ensures world.pc == old(world.pc) && world.handoffs == old(world.handoffs)
      ensures row == Some(Row(Settled, old(admission))) && notes == old(notes)
    {
      Do(StrayDone);
      Save(Settled);
    }

    /** `cancel_waiting`: only an intent that may still be offered is cancelled. */
    method Cancel(observed: Reply, told: Reply) returns (cancelled: bool)
      requires Valid() && !descriptor && FenceFree(world)
      modifies this
      ensures Valid() && !descriptor && world.handoffs == old(world.handoffs)
      ensures cancelled <==> old(row).Some? && Open(old(row).value.state)
      ensures cancelled ==> row == Some(AbortedRow(old(row).value.admission, observed, told))
      ensures !cancelled ==> row == old(row) && world == old(world)
      ensures notes == old(notes) + if cancelled then AbortedNotes(old(row).value.admission, observed) else []
    {
      if row.None? || !Open(row.value.state) { return false; }
      Do(CancelWaiting);
      descriptor := true;
      admission := row.value.admission;
      Abort(observed, told);
      return true;
    }

    /** A claim whose program died: Control says whether it was granted. */
    method ReconcileClaim(observed: Reply, told: Reply)
      requires Valid() && world.pc == ReconAsk(admission)
      modifies this
      ensures Valid() && !descriptor && world.pc == Free && world.handoffs == old(world.handoffs)
      ensures row == if !observed.Answer? then old(row)
        else if observed.grade == Claimed then Some(DeferredRow(Grant(observed.id, Claimed), told))
        else Some(Row(Waiting, Grant(observed.id, observed.grade)))
      ensures notes == old(notes) + if Grants(observed) then [Note(ToldAborted, GrantOf(observed))] else []
    {
      DoCall(observed);
      if !observed.Answer? { Release(); return; }
      admission := Grant(observed.id, observed.grade);
      if observed.grade == Claimed {
        Defer(told);
      } else {
        End(Waiting);
      }
    }

    /** One iteration of the reconciler, with the row it read before locking.  If somebody
        holds the fence, Control is only reminded of what runs. */
    method ReconcileRow(snapshot: Row, free: bool, abandoned: bool, observed: Reply, told: Reply)
      requires Valid() && !descriptor && snapshot in world.past
      requires free ==> FenceFree(world)
      modifies this
      ensures Valid() && !descriptor && world.handoffs == old(world.handoffs)
      ensures !free ==> row == old(row) && world == old(world)
      ensures free ==> world.pc == Free && row == ReconciledRow(old(row), snapshot, abandoned, observed, told)
      ensures notes == old(notes) +
        if free then ReconciledNotes(snapshot, abandoned, observed)
        else if snapshot.state == Running then [Note(ToldRunning, snapshot.admission)] else []
    {
      hide Traced;
      if !free {
        if snapshot.state == Running { Do(Remind(snapshot)); }
        return;
      }
      Do(ReconAcquire(snapshot, abandoned));
      admission := snapshot.admission;
      descriptor := true;
      Settle(snapshot, abandoned, observed, told);
    }

    /** What the reconciler does for the row it read, once it has the fence. */
    method Settle(snapshot: Row, abandoned: bool, observed: Reply, told: Reply)
      requires Traced() && row == world.row && kind == world.kind
      requires world.pc == ReconEntry(snapshot, abandoned) && admission == snapshot.admission
      modifies this
      ensures Valid() && !descriptor && world.pc == Free && world.handoffs == old(world.handoffs)
      ensures row == ReconciledRow(old(row), snapshot, abandoned, observed, told)
      ensures notes == old(notes) + ReconciledNotes(snapshot, abandoned, observed)
    {
      hide Traced;
      if admission == Empty && snapshot.state == Cancelled {
        Abort(observed, told);
        return;
      }
      if admission == Empty && snapshot.state != Waiting { Release(); return; }
      match snapshot.state {
        case Waiting =>
          if abandoned { Abort(observed, told); } else { Release(); }
        case Claiming => ReconcileClaim(observed, told);
        case Starting | Cancelled => Abort(observed, told);
        case Running | Finished | Settled => Finish(told);
      }
    }
  }
}
