/** The offline source-update checkpoint: one immutable evidence file, then the
    maintenance record, then the operation record.  Each is a separate atomic
    durable write, and a run may be cut short before any of them. */
module SourceCheckpoint {
  import opened Wrappers
  import M = DurableManifest

  datatype Binding = Binding(operation: string, generation: int, target: string)

  /** The SHA-256 of the binding and the manifest, as an injective name. */
  datatype CheckpointId = CheckpointId(binding: Binding, manifest: M.Manifest)

  datatype Evidence = Evidence(binding: Binding, id: CheckpointId, manifest: M.Manifest, createdAt: int)

  datatype Phase = Draining | Drained | Checkpointed | Resumed

  datatype Maintenance = Maintenance(
    binding: Binding, sourceUpdate: bool, paused: bool, phase: Phase, checkpoint: Option<CheckpointId>)

  datatype Operation = Operation(
    binding: Binding, drained: bool, checkpoint: Option<Evidence>, restoreReady: Option<CheckpointId>, closed: bool)

  /** The durable data root; `flushes` counts flush-and-measure passes over the data. */
  datatype Disk = Disk(
    maintenance: Option<Maintenance>,
    operations: map<string, Operation>,
    checkpoints: map<CheckpointId, Evidence>,
    flushes: nat)

  datatype Failure =
    | MaintenanceMismatch | OperationMismatch | IdentityMismatch | NotDrained
    | OwnershipMismatch | Ambiguous | SnapshotExists | RestoreMismatch | Unverified | DataChanged

  datatype Outcome = Returned(id: CheckpointId) | Failed(why: Failure) | Crashed

  /** Evidence files that claim this operation, by whatever name. */
  function Claims(files: map<CheckpointId, Evidence>, operation: string): set<CheckpointId> {
    set k | k in files && files[k].binding.operation == operation
  }

  predicate Genuine(files: map<CheckpointId, Evidence>, k: CheckpointId, b: Binding)
    requires k in files
  {
    files[k].binding == b && files[k].id == k
  }

  /** What an attempt finds before it touches the data: the evidence to publish, or none yet. */
  ghost function Decide(d: Disk, b: Binding): (r: Result<Option<Evidence>, Failure>) {
    if d.maintenance.None? || !d.maintenance.value.paused || d.maintenance.value.binding != b then
      Err(MaintenanceMismatch)
    else if b.operation !in d.operations || d.operations[b.operation].binding != b then
      Err(OperationMismatch)
    else
      var m, op := d.maintenance.value, d.operations[b.operation];
      if op.checkpoint.Some? || m.checkpoint.Some? then
        var id := if m.checkpoint.Some? then m.checkpoint.value else op.checkpoint.value.id;
        if id !in d.checkpoints || !Genuine(d.checkpoints, id, b)
           || (op.checkpoint.Some? && op.checkpoint.value != d.checkpoints[id])
        then Err(IdentityMismatch)
        else Ok(Some(d.checkpoints[id]))
      else if m.phase != Drained || !op.drained then Err(NotDrained)
      else
        var claims := Claims(d.checkpoints, b.operation);
        if exists k <- claims :: !Genuine(d.checkpoints, k, b) then Err(OwnershipMismatch)
        else if exists j, k :: j in claims && k in claims && j != k then Err(Ambiguous)
        else if claims != {} then
          var k :| k in claims;
          Ok(Some(d.checkpoints[k]))
        else Ok(None)
  }

  /** The two pointers, written after the evidence.  `writes` durable writes
      are left before the process dies. */
  function Publish(d: Disk, b: Binding, c: Evidence, writes: nat): (Disk, Outcome)
    requires d.maintenance.Some? && b.operation in d.operations
  {
    if writes == 0 then (d, Crashed)
    else
      var d1 := d.(maintenance := Some(d.maintenance.value.(phase := Checkpointed, checkpoint := Some(c.id))));
      if writes == 1 then (d1, Crashed)
      else
        var op := d.operations[b.operation].(checkpoint := Some(c));
        (d1.(operations := d.operations[b.operation := op]), Returned(c.id))
  }

  /** One attempt: `measured` is the manifest the data would give now. */
  ghost function Attempt(d: Disk, b: Binding, measured: M.Manifest, now: int, writes: nat): (Disk, Outcome) {
    match Decide(d, b)
    case Err(e) => (d, Failed(e))
    case Ok(Some(c)) => Publish(d, b, c, writes)
    case Ok(None) =>
      var id := CheckpointId(b, measured);
      var d1 := d.(flushes := d.flushes + 1);
      if id in d.checkpoints then (d1, Failed(SnapshotExists))
      else if writes == 0 then (d1, Crashed)
      else
        var c := Evidence(b, id, measured, now);
        Publish(d1.(checkpoints := d.checkpoints[id := c]), b, c, writes - 1)
  }

  /** Proof, while stopped, that the data still is what the evidence measured. */
  predicate MayRestore(d: Disk, b: Binding, id: CheckpointId) {
    && d.maintenance.Some? && d.maintenance.value.sourceUpdate
    && d.maintenance.value.phase == Checkpointed && d.maintenance.value.paused
    && d.maintenance.value.checkpoint == Some(id) && d.maintenance.value.binding == b
    && b.operation in d.operations && d.operations[b.operation].binding == b
    && !d.operations[b.operation].closed
  }

  function Restore(d: Disk, b: Binding, id: CheckpointId, data: Option<M.Files>): (Disk, Outcome) {
    if !MayRestore(d, b, id) then (d, Failed(RestoreMismatch))
    else if id !in d.checkpoints || !Genuine(d.checkpoints, id, b)
         || d.operations[b.operation].checkpoint != Some(d.checkpoints[id])
    then (d, Failed(RestoreMismatch))
    else if M.Checked(d.checkpoints[id].manifest, data).None? then (d, Failed(Unverified))
    else if !M.Checked(d.checkpoints[id].manifest, data).value then (d, Failed(DataChanged))
    else (d.(operations := d.operations[b.operation := d.operations[b.operation].(restoreReady := Some(id))]), Returned(id))
  }

  // Which attempts do anything, and how the others fail.

  /** Maintenance stands still for this binding. */
  predicate Owned(d: Disk, b: Binding) {
    d.maintenance.Some? && d.maintenance.value.paused && d.maintenance.value.binding == b
  }

  predicate Bound(d: Disk, b: Binding) { b.operation in d.operations && d.operations[b.operation].binding == b }

  /** One of the two records points at evidence. */
  predicate Pointed(d: Disk, b: Binding)
    requires Owned(d, b) && Bound(d, b)
  {
    d.maintenance.value.checkpoint.Some? || d.operations[b.operation].checkpoint.Some?
  }

  /** `c` is what is stored under its own name for this binding, and every pointer there is names it. */
  predicate PointedAt(d: Disk, b: Binding, c: Evidence)
    requires Owned(d, b) && Bound(d, b)
  {
    && c.id in d.checkpoints && d.checkpoints[c.id] == c && c.binding == b
    && (d.operations[b.operation].checkpoint.Some? ==> d.operations[b.operation].checkpoint == Some(c))
    && (d.maintenance.value.checkpoint.Some? ==> d.maintenance.value.checkpoint == Some(c.id))
  }

  /** Both records say that the runtime was drained. */
  predicate DrainedFor(d: Disk, b: Binding)
    requires Owned(d, b) && Bound(d, b)
  {
    d.maintenance.value.phase == Drained && d.operations[b.operation].drained
  }

  /** A file claims the operation under another binding or name. */
  ghost predicate Foreign(d: Disk, b: Binding, k: CheckpointId) {
    && k in d.checkpoints && d.checkpoints[k].binding.operation == b.operation
    && !(d.checkpoints[k].binding == b && d.checkpoints[k].id == k)
  }

  ghost predicate Rivals(d: Disk, b: Binding, j: CheckpointId, k: CheckpointId) {
    && j != k && j in d.checkpoints && k in d.checkpoints
    && d.checkpoints[j].binding.operation == d.checkpoints[k].binding.operation == b.operation
  }

  /** What a checkpoint may be taken or completed for. */
  ghost predicate Entitled(d: Disk, b: Binding) {
    && Owned(d, b) && Bound(d, b)
    && if Pointed(d, b) then exists c :: PointedAt(d, b, c)
       else
         && DrainedFor(d, b) && (forall k :: !Foreign(d, b, k)) && (forall j, k :: !Rivals(d, b, j, k))
  }

  ghost predicate FailsWith(d: Disk, b: Binding, why: Failure) {
    match why
    case MaintenanceMismatch => !Owned(d, b)
    case OperationMismatch => Owned(d, b) && !Bound(d, b)
    case IdentityMismatch => Owned(d, b) && Bound(d, b) && Pointed(d, b) && forall c :: !PointedAt(d, b, c)
    case NotDrained => Owned(d, b) && Bound(d, b) && !Pointed(d, b) && !DrainedFor(d, b)
    case OwnershipMismatch =>
      Owned(d, b) && Bound(d, b) && !Pointed(d, b) && DrainedFor(d, b) && exists k :: Foreign(d, b, k)
    case Ambiguous =>
      && Owned(d, b) && Bound(d, b) && !Pointed(d, b) && DrainedFor(d, b)
      && (forall k :: !Foreign(d, b, k)) && exists j, k :: Rivals(d, b, j, k)
    case _ => false
  }

  lemma PointerIsDecided(d: Disk, b: Binding)
    requires Owned(d, b) && Bound(d, b) && Pointed(d, b)
    ensures Decide(d, b).Ok? ==> Decide(d, b).value.Some? && PointedAt(d, b, Decide(d, b).value.value)
    ensures Decide(d, b).Err? ==> Decide(d, b).error == IdentityMismatch && forall c :: !PointedAt(d, b, c)
  {
  }

  lemma ScanIsDecided(d: Disk, b: Binding)
    requires Owned(d, b) && Bound(d, b) && !Pointed(d, b) && DrainedFor(d, b)
    ensures Decide(d, b).Ok? <==> (forall k :: !Foreign(d, b, k)) && (forall j, k :: !Rivals(d, b, j, k))
    ensures Decide(d, b).Err? ==> FailsWith(d, b, Decide(d, b).error)
    ensures Decide(d, b).Ok? && Decide(d, b).value.Some? ==> PointedAt(d, b, Decide(d, b).value.value)
    ensures Decide(d, b) == Ok(None) <==> !HasEvidence(d, b.operation)
  {
    var claims := Claims(d.checkpoints, b.operation);
    if k :| k in claims && !Genuine(d.checkpoints, k, b) {
      assert Foreign(d, b, k);
    } else if j, k :| j in claims && k in claims && j != k {
      assert Rivals(d, b, j, k);
    }
    forall k | Foreign(d, b, k) ensures k in claims && !Genuine(d.checkpoints, k, b) {
    }
    forall j, k | Rivals(d, b, j, k) ensures j in claims && k in claims {
    }
  }

  /** The data is flushed, a record written or an id returned only for a drained operation
      that owns maintenance, or one whose evidence is already pointed at.  Every other
      attempt fails, for exactly the stated reason, and leaves the disk as it was. */
  lemma OnlyTheEntitledCheckpoint(d: Disk, b: Binding, measured: M.Manifest, now: int, writes: nat, why: Failure)
    ensures var (d', r) := Attempt(d, b, measured, now, writes);
      && (d' != d || r.Returned? || r.Crashed? ==> Entitled(d, b))
      && (d'.flushes == d.flushes + (if Entitled(d, b) && !Pointed(d, b) && !HasEvidence(d, b.operation) then 1 else 0))
      && (why != SnapshotExists ==> (r == Failed(why) <==> FailsWith(d, b, why)))
      && (r == Failed(SnapshotExists) <==>
            && Entitled(d, b) && !Pointed(d, b) && !HasEvidence(d, b.operation)
            && CheckpointId(b, measured) in d.checkpoints)
      && (r.Failed? ==> d' == d.(flushes := d'.flushes))
  {
    if Owned(d, b) && Bound(d, b) {
      if Pointed(d, b) {
        PointerIsDecided(d, b);
      } else if DrainedFor(d, b) {
        ScanIsDecided(d, b);
      }
    }
  }

  /** An entitled attempt goes as far as its writes reach: with new evidence there are
      three, with evidence found two. */
  lemma WritesDecideTheRest(d: Disk, b: Binding, measured: M.Manifest, now: int, writes: nat)
    requires Entitled(d, b)
    ensures var (d', r) := Attempt(d, b, measured, now, writes);
      var anew := !Pointed(d, b) && !HasEvidence(d, b.operation);
      !(anew && CheckpointId(b, measured) in d.checkpoints) ==>
        && (r.Returned? <==> writes >= if anew then 3 else 2)
        && (r.Crashed? <==> writes < if anew then 3 else 2)
        && (anew && writes > 0 ==>
              d'.checkpoints == d.checkpoints[CheckpointId(b, measured) := Evidence(b, CheckpointId(b, measured), measured, now)])
        && (!anew || writes == 0 ==> d'.checkpoints == d.checkpoints)
  {
    if Pointed(d, b) {
      PointerIsDecided(d, b);
    } else {
      ScanIsDecided(d, b);
    }
  }

  /** Restore is confirmed only while everything stands still after a completed checkpoint
      of this operation, and only for its data. */
  lemma OnlyTheCheckpointedRestore(d: Disk, b: Binding, id: CheckpointId, data: Option<M.Files>)
    ensures var (d', r) := Restore(d, b, id, data);
      && (r == Failed(RestoreMismatch) <==> !exists c :: Restorable(d, b, c) && c.id == id)
      && (forall c | Restorable(d, b, c) && c.id == id ::
            && (r == Returned(id) <==> M.Checked(c.manifest, data) == Some(true))
            && (r == Failed(DataChanged) <==> M.Checked(c.manifest, data) == Some(false))
            && (r == Failed(Unverified) <==> M.Checked(c.manifest, data) == None))
      && (!r.Returned? ==> d' == d)
  {
    if MayRestore(d, b, id) && id in d.checkpoints && Genuine(d.checkpoints, id, b)
       && d.operations[b.operation].checkpoint == Some(d.checkpoints[id]) {
      assert Restorable(d, b, d.checkpoints[id]);
    }
  }

  /** The checkpoint is complete and its operation is open. */
  predicate Restorable(d: Disk, b: Binding, c: Evidence) {
    && Owned(d, b) && Bound(d, b) && d.maintenance.value.sourceUpdate && d.maintenance.value.phase == Checkpointed
    && d.maintenance.value.checkpoint == Some(c.id) && d.operations[b.operation].checkpoint == Some(c)
    && PointedAt(d, b, c) && !d.operations[b.operation].closed
  }

  /** Any command of any operation, in any order, each possibly cut short. */
  datatype Command =
    | CheckpointCommand(binding: Binding, measured: M.Manifest, now: int, writes: nat)
    | RestoreCommand(binding: Binding, id: CheckpointId, data: Option<M.Files>)

  ghost function Execute(d: Disk, cmd: Command): (Disk, Outcome) {
    match cmd
    case CheckpointCommand(b, measured, now, writes) => Attempt(d, b, measured, now, writes)
    case RestoreCommand(b, id, data) => Restore(d, b, id, data)
  }

  ghost function Run(d: Disk, cmds: seq<Command>): Disk
    decreases |cmds|
  {
    if cmds == [] then d else Run(Execute(d, cmds[0]).0, cmds[1..])
  }

  ghost predicate OneEach(d: Disk) {
    forall j, k | j in d.checkpoints && k in d.checkpoints ::
      d.checkpoints[j].binding.operation == d.checkpoints[k].binding.operation ==> j == k
  }

  predicate Extends(a: map<CheckpointId, Evidence>, b: map<CheckpointId, Evidence>) {
    forall k <- a :: k in b && b[k] == a[k]
  }

  ghost predicate HasEvidence(d: Disk, operation: string) { Claims(d.checkpoints, operation) != {} }

  lemma AttemptKeepsEvidence(d: Disk, b: Binding, measured: M.Manifest, now: int, writes: nat)
    requires OneEach(d)
    ensures var (d', r) := Attempt(d, b, measured, now, writes);
      && OneEach(d') && Extends(d.checkpoints, d'.checkpoints)
      && (HasEvidence(d, b.operation) ==> d'.flushes == d.flushes && d'.checkpoints == d.checkpoints)
      && (r.Returned? ==>
            && r.id in d'.checkpoints && Genuine(d'.checkpoints, r.id, b)
            && d'.maintenance.Some? && d'.maintenance.value.checkpoint == Some(r.id)
            && b.operation in d'.operations && d'.operations[b.operation].checkpoint == Some(d'.checkpoints[r.id]))
  {
    var claims := Claims(d.checkpoints, b.operation);
    if Decide(d, b) == Ok(None) {
      assert claims == {};
      assert forall k | k in d.checkpoints :: d.checkpoints[k].binding.operation != b.operation by {
        forall k | k in d.checkpoints ensures d.checkpoints[k].binding.operation != b.operation {
          assert k !in claims;
        }
      }
    } else if HasEvidence(d, b.operation) {
      assert Decide(d, b).Ok? ==> Decide(d, b).value.Some?;
    }
  }

  lemma {:induction false} RunKeepsEvidence(d: Disk, cmds: seq<Command>)
    requires OneEach(d)
    ensures OneEach(Run(d, cmds)) && Extends(d.checkpoints, Run(d, cmds).checkpoints)
    decreases |cmds|
  {
    if cmds != [] {
      match cmds[0] {
        case CheckpointCommand(b, measured, now, writes) => AttemptKeepsEvidence(d, b, measured, now, writes);
        case RestoreCommand(_, _, _) =>
      }
      RunKeepsEvidence(Execute(d, cmds[0]).0, cmds[1..]);
    }
  }

  function Subject(cmd: Command): Binding { cmd.binding }

  /** Whatever happens between two successful commands of an operation, both
      give the same id, and the evidence behind it is the same file. */
  lemma EverySuccessAgrees(d: Disk, first: Command, between: seq<Command>, second: Command)
    requires OneEach(d) && Subject(first).operation == Subject(second).operation
    requires Execute(d, first).1.Returned?
    requires Execute(Run(Execute(d, first).0, between), second).1.Returned?
    ensures var (d1, r1) := Execute(d, first);
      var (d2, r2) := Execute(Run(d1, between), second);
      r1.id == r2.id && r1.id in d1.checkpoints && r1.id in d2.checkpoints
      && d1.checkpoints[r1.id] == d2.checkpoints[r1.id]
  {
    RunKeepsEvidence(d, [first]);
    var d1 := Execute(d, first).0;
    assert [first][1..] == [] && Run(d1, []) == d1;
    SuccessNamesEvidence(d, first);
    RunKeepsEvidence(d1, between);
    var e := Run(d1, between);
    SuccessNamesEvidence(e, second);
    RunKeepsEvidence(e, [second]);
    assert [second][1..] == [] && Run(Execute(e, second).0, []) == Execute(e, second).0;
  }

  lemma SuccessNamesEvidence(d: Disk, cmd: Command)
    requires OneEach(d) && Execute(d, cmd).1.Returned?
    ensures var (d', r) := Execute(d, cmd);
      r.id in d'.checkpoints && d'.checkpoints[r.id].binding.operation == Subject(cmd).operation
  {
    if cmd.CheckpointCommand? {
      AttemptKeepsEvidence(d, cmd.binding, cmd.measured, cmd.now, cmd.writes);
    }
  }

  /** Once an operation has evidence its data is never flushed, or measured for a new baseline, again. */
  lemma {:induction false} NeverRemeasured(d: Disk, operation: string, cmds: seq<Command>)
    requires OneEach(d) && HasEvidence(d, operation)
    requires forall c <- cmds :: Subject(c).operation == operation
    ensures Run(d, cmds).flushes == d.flushes && Run(d, cmds).checkpoints == d.checkpoints
    decreases |cmds|
  {
    if cmds != [] {
      assert cmds[0] in cmds;
      match cmds[0] {
        case CheckpointCommand(b, measured, now, writes) => AttemptKeepsEvidence(d, b, measured, now, writes);
        case RestoreCommand(_, _, _) =>
      }
      var d1 := Execute(d, cmds[0]).0;
      assert d1.checkpoints == d.checkpoints;
      assert Claims(d1.checkpoints, operation) == Claims(d.checkpoints, operation);
      assert forall c <- cmds[1..] :: c in cmds;
      NeverRemeasured(d1, operation, cmds[1..]);
    }
  }

  /** The drained operation owns maintenance, and whichever of the three
      writes were made, they are consistent. */
  ghost predicate Ready(d: Disk, b: Binding) {
    && OneEach(d)
    && (forall k <- d.checkpoints :: d.checkpoints[k].id == k && d.checkpoints[k].binding == k.binding)
    && (forall k <- Claims(d.checkpoints, b.operation) :: d.checkpoints[k].binding == b)
    && d.maintenance.Some? && d.maintenance.value.paused && d.maintenance.value.binding == b
    && b.operation in d.operations && d.operations[b.operation].binding == b
    && d.operations[b.operation].drained
    && var m, op := d.maintenance.value, d.operations[b.operation];
       if m.checkpoint.None? then op.checkpoint.None? && m.phase == Drained
       else
         && m.checkpoint.value in d.checkpoints && d.checkpoints[m.checkpoint.value].binding == b
         && (op.checkpoint.Some? ==> op.checkpoint.value == d.checkpoints[m.checkpoint.value])
  }

  lemma ReadyDecides(d: Disk, b: Binding)
    requires Ready(d, b)
    ensures Decide(d, b).Ok?
    ensures Decide(d, b) == Ok(None) <==> !HasEvidence(d, b.operation)
    ensures Decide(d, b).value.Some? ==>
      var c := Decide(d, b).value.value; c.id in d.checkpoints && d.checkpoints[c.id] == c && c.binding == b
  {
    var claims := Claims(d.checkpoints, b.operation);
    var m := d.maintenance.value;
    if m.checkpoint.Some? {
      assert m.checkpoint.value in claims;
    }
  }

  lemma AttemptKeepsReady(d: Disk, b: Binding, measured: M.Manifest, now: int, writes: nat)
    requires Ready(d, b)
    ensures Ready(Attempt(d, b, measured, now, writes).0, b)
  {
    ReadyDecides(d, b);
    AttemptKeepsEvidence(d, b, measured, now, writes);
    var d' := Attempt(d, b, measured, now, writes).0;
    forall k | k in Claims(d'.checkpoints, b.operation)
      ensures d'.checkpoints[k].binding == b
    {
      if k in d.checkpoints { assert k in Claims(d.checkpoints, b.operation); }
    }
  }

  lemma StepKeepsReady(d: Disk, b: Binding, cmd: Command)
    requires Ready(d, b)
    ensures Ready(Execute(d, cmd).0, b)
  {
    if cmd.CheckpointCommand? && cmd.binding == b {
      AttemptKeepsReady(d, b, cmd.measured, cmd.now, cmd.writes);
    } else {
      var d' := Execute(d, cmd).0;
      assert d'.checkpoints == d.checkpoints && d'.maintenance == d.maintenance;
    }
  }

  /** From any crash point of any number of attempts, one undisturbed retry
      returns the operation's single checkpoint with both pointers at it. */
  lemma {:induction false} RetryConverges(d: Disk, b: Binding, cmds: seq<Command>, measured: M.Manifest, now: int, writes: nat)
    requires Ready(d, b) && writes >= 3
    ensures var e := Run(d, cmds);
      var (d', r) := Attempt(e, b, measured, now, writes);
      && r.Returned? && Ready(d', b) && Claims(d'.checkpoints, b.operation) == {r.id}
      && d'.maintenance.value.checkpoint == Some(r.id)
      && d'.operations[b.operation].checkpoint == Some(d'.checkpoints[r.id])
    decreases |cmds|
  {
    if cmds == [] {
      ReadyDecides(d, b);
      AttemptKeepsEvidence(d, b, measured, now, writes);
      StepKeepsReady(d, b, CheckpointCommand(b, measured, now, writes));
      var id := CheckpointId(b, measured);
      assert id in d.checkpoints ==> id in Claims(d.checkpoints, b.operation);
    } else {
      StepKeepsReady(d, b, cmds[0]);
      RetryConverges(Execute(d, cmds[0]).0, b, cmds[1..], measured, now, writes);
    }
  }

  /** The completed checkpoint of an operation that is still open: both
      pointers name `c`. */
  ghost predicate Done(d: Disk, b: Binding, c: Evidence) {
    && Ready(d, b)
    && d.maintenance.value.sourceUpdate && d.maintenance.value.phase == Checkpointed
    && d.maintenance.value.checkpoint == Some(c.id)
    && c.id in d.checkpoints && d.checkpoints[c.id] == c && c.binding == b
    && d.operations[b.operation].checkpoint == Some(c) && !d.operations[b.operation].closed
  }

  lemma StepKeepsDone(d: Disk, b: Binding, c: Evidence, cmd: Command)
    requires Done(d, b, c)
    ensures Done(Execute(d, cmd).0, b, c)
  {
    StepKeepsReady(d, b, cmd);
    if cmd.CheckpointCommand? && cmd.binding == b {
      assert Decide(d, b) == Ok(Some(c));
    }
  }

  lemma {:induction false} RunKeepsDone(d: Disk, b: Binding, c: Evidence, cmds: seq<Command>)
    requires Done(d, b, c)
    ensures Done(Run(d, cmds), b, c)
    decreases |cmds|
  {
    if cmds != [] {
      StepKeepsDone(d, b, c, cmds[0]);
      RunKeepsDone(Execute(d, cmds[0]).0, b, c, cmds[1..]);
    }
  }

  lemma AttemptCompletes(d: Disk, b: Binding, measured: M.Manifest, now: int, writes: nat)
    requires Ready(d, b) && d.maintenance.value.sourceUpdate && !d.operations[b.operation].closed
    requires Attempt(d, b, measured, now, writes).1.Returned?
    ensures var (d', r) := Attempt(d, b, measured, now, writes);
      && r.id in d'.checkpoints && d'.checkpoints[r.id].id == r.id && Done(d', b, d'.checkpoints[r.id])
      && (!HasEvidence(d, b.operation) ==> d'.checkpoints[r.id].manifest == measured)
  {
    ReadyDecides(d, b);
    AttemptKeepsReady(d, b, measured, now, writes);
    AttemptKeepsEvidence(d, b, measured, now, writes);
  }

  /** After a successful checkpoint and whatever commands follow, in any order
      and each cut short anywhere, restore is confirmed exactly for the id that
      was returned and exactly while the verification policy finds the data
      preserved against its evidence, which is what the first attempt measured.
      Nothing else is written. */
  lemma RestoreConfirmsExactlyPreservedData(
    d: Disk, b: Binding, measured: M.Manifest, now: int, writes: nat, cmds: seq<Command>,
    id: CheckpointId, data: Option<M.Files>)
    requires Ready(d, b) && d.maintenance.value.sourceUpdate && !d.operations[b.operation].closed
    requires Attempt(d, b, measured, now, writes).1.Returned?
    ensures var (d1, r1) := Attempt(d, b, measured, now, writes);
      var e := Run(d1, cmds);
      var (e', r) := Restore(e, b, id, data);
      && r1.id in d1.checkpoints
      && (!HasEvidence(d, b.operation) ==> d1.checkpoints[r1.id].manifest == measured)
      && (r.Returned? <==> id == r1.id && M.Checked(d1.checkpoints[r1.id].manifest, data) == Some(true))
      && (r == Failed(DataChanged) <==> id == r1.id && M.Checked(d1.checkpoints[r1.id].manifest, data) == Some(false))
      && (r == Failed(Unverified) <==> id == r1.id && M.Checked(d1.checkpoints[r1.id].manifest, data) == None)
      && e' == (if !r.Returned? then e else
           e.(operations := e.operations[b.operation := e'.operations[b.operation]]))
      && (r.Returned? ==> e'.operations[b.operation].restoreReady == Some(id))
  {
    AttemptCompletes(d, b, measured, now, writes);
    var d1 := Attempt(d, b, measured, now, writes).0;
    var r1 := Attempt(d, b, measured, now, writes).1;
    RunKeepsDone(d1, b, d1.checkpoints[r1.id], cmds);
  }

  /** So the data that were measured can be restored, and after them exactly the data
      whose files are alike. */
  lemma AlikeDataCanBeRestored(
    d: Disk, b: Binding, files: M.Files, now: int, writes: nat, cmds: seq<Command>, data: M.Files)
    requires Ready(d, b) && d.maintenance.value.sourceUpdate && !d.operations[b.operation].closed
    requires !HasEvidence(d, b.operation)
    requires M.Recordable(M.MANIFEST_VERSION, files) && M.Recordable(M.MANIFEST_VERSION, data)
    requires Attempt(d, b, M.Measure(M.MANIFEST_VERSION, files), now, writes).1.Returned?
    ensures var (d1, r1) := Attempt(d, b, M.Measure(M.MANIFEST_VERSION, files), now, writes);
      && Restore(Run(d1, cmds), b, r1.id, Some(files)).1.Returned?
      && (Restore(Run(d1, cmds), b, r1.id, Some(data)).1.Returned? <==> AlikeData(files, data))
  {
    var measured := M.Measure(M.MANIFEST_VERSION, files);
    var r1 := Attempt(d, b, measured, now, writes).1;
    RestoreConfirmsExactlyPreservedData(d, b, measured, now, writes, cmds, r1.id, Some(files));
    RestoreConfirmsExactlyPreservedData(d, b, measured, now, writes, cmds, r1.id, Some(data));
    M.PreservedIsPreorder(M.MANIFEST_VERSION, files, files, files);
    M.PreservedExactlyWhenAlike(M.MANIFEST_VERSION, files, data);
  }

  /** The same paths outside the runtime's logs, and the file at each of them alike. */
  ghost predicate AlikeData(files: M.Files, data: M.Files) {
    && (forall p :: M.TrackedIn(M.MANIFEST_VERSION, files, p) <==> M.TrackedIn(M.MANIFEST_VERSION, data, p))
    && (forall p | M.TrackedIn(M.MANIFEST_VERSION, files, p) && M.TrackedIn(M.MANIFEST_VERSION, data, p) ::
          M.Alike(M.MANIFEST_VERSION, p, files[p], data[p]))
  }

  /** The offline command as it runs, record by record. */
  class Runtime {
    var maintenance: Option<Maintenance>
    var operations: map<string, Operation>
    var checkpoints: map<CheckpointId, Evidence>
    var flushes: nat

    function Contents(): Disk
      reads this
    {
      Disk(maintenance, operations, checkpoints, flushes)
    }

    /** The scan over the evidence files, in directory order. */
    method Reconcile(b: Binding) returns (r: Result<Option<Evidence>, Failure>)
      ensures var claims := Claims(checkpoints, b.operation);
        if exists k <- claims :: !Genuine(checkpoints, k, b) then r == Err(OwnershipMismatch)
        else if exists j, k :: j in claims && k in claims && j != k then r == Err(Ambiguous)
        else if claims == {} then r == Ok(None)
        else r.Ok? && r.value.Some? && exists k :: claims == {k} && r.value.value == checkpoints[k]
    {
      var matches: seq<CheckpointId> := [];
      var rest := checkpoints.Keys;
      while rest != {}
        invariant rest <= checkpoints.Keys
        invariant forall k :: k in matches <==> k in Claims(checkpoints, b.operation) && k !in rest
        invariant forall k <- matches :: k in checkpoints && Genuine(checkpoints, k, b)
        invariant forall i, j | 0 <= i < j < |matches| :: matches[i] != matches[j]
        decreases rest
      {
        var path :| path in rest;
        rest := rest - {path};
        if checkpoints[path].binding.operation == b.operation {
          if checkpoints[path].binding != b || checkpoints[path].id != path {
            assert path in Claims(checkpoints, b.operation);
            return Err(OwnershipMismatch);
          }
          matches := matches + [path];
        }
      }
      ghost var claims := Claims(checkpoints, b.operation);
      if |matches| > 1 {
        assert matches[0] in claims && matches[1] in claims;
        return Err(Ambiguous);
      }
      if |matches| == 0 {
        assert claims == {} by { assert forall k :: k in claims ==> k in matches; }
        return Ok(None);
      }
      assert claims == {matches[0]} by { assert forall k :: k in claims ==> k in matches; }
      return Ok(Some(checkpoints[matches[0]]));
    }

    method Checkpoint(b: Binding, measured: M.Manifest, now: int, writes: nat) returns (r: Outcome)
      modifies this
      ensures (Contents(), r) == old(Attempt(Contents(), b, measured, now, writes))
    {
      if maintenance.None? || !maintenance.value.paused || maintenance.value.binding != b {
        return Failed(MaintenanceMismatch);
      }
      if b.operation !in operations || operations[b.operation].binding != b {
        return Failed(OperationMismatch);
      }
      var operation := operations[b.operation];
      var completed: Option<Evidence> := None;
      var left := writes;
      if operation.checkpoint.Some? || maintenance.value.checkpoint.Some? {
        var id := if maintenance.value.checkpoint.Some? then maintenance.value.checkpoint.value
                  else operation.checkpoint.value.id;
        if id !in checkpoints || checkpoints[id].binding != b || checkpoints[id].id != id
           || (operation.checkpoint.Some? && operation.checkpoint.value != checkpoints[id]) {
          return Failed(IdentityMismatch);
        }
        completed := Some(checkpoints[id]);
      } else {
        if maintenance.value.phase != Drained || !operation.drained { return Failed(NotDrained); }
        var found := Reconcile(b);
        if found.Err? { return Failed(found.error); }
        completed := found.value;
      }
      if completed.None? {
        flushes := flushes + 1;
        var id := CheckpointId(b, measured);
        if id in checkpoints { return Failed(SnapshotExists); }
        if left == 0 { return Crashed; }
        left := left - 1;
        completed := Some(Evidence(b, id, measured, now));
        checkpoints := checkpoints[id := completed.value];
      }
      if left == 0 { return Crashed; }
      maintenance := Some(maintenance.value.(phase := Checkpointed, checkpoint := Some(completed.value.id)));
      if left == 1 { return Crashed; }
      operations := operations[b.operation := operation.(checkpoint := completed)];
      return Returned(completed.value.id);
    }

    /** `data` are the durable files now, if the inspection can read them. */
    method RestoreReady(b: Binding, id: CheckpointId, data: Option<M.Files>) returns (r: Outcome)
      modifies this
      ensures (Contents(), r) == old(Restore(Contents(), b, id, data))
      ensures maintenance == old(maintenance) && checkpoints == old(checkpoints) && flushes == old(flushes)
      ensures forall c | old(Done(Contents(), b, c)) :: r.Returned? <==> id == c.id && M.Checked(c.manifest, data) == Some(true)
    {
      if maintenance.None? || !maintenance.value.sourceUpdate || maintenance.value.phase != Checkpointed
         || !maintenance.value.paused || maintenance.value.checkpoint != Some(id) || maintenance.value.binding != b
         || b.operation !in operations || operations[b.operation].binding != b || operations[b.operation].closed {
        return Failed(RestoreMismatch);
      }
      if id !in checkpoints || checkpoints[id].id != id || checkpoints[id].binding != b
         || operations[b.operation].checkpoint != Some(checkpoints[id]) {
        return Failed(RestoreMismatch);
      }
      if data.None? { return Failed(Unverified); }
      var verification := M.Verify(checkpoints[id].manifest, data.value);
      if verification.None? { return Failed(Unverified); }
      if !verification.value.preserved { return Failed(DataChanged); }
      operations := operations[b.operation := operations[b.operation].(restoreReady := Some(id))];
      return Returned(id);
    }
  }
}
