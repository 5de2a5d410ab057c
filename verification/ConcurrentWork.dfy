/** Shared limits of one run: provider turns, child concurrency, depth and
    cancellation.  Every section under the coordinator's lock is one step, and
    any number of threads interleave their steps. */
module ConcurrentWork {
  import opened Wrappers

  datatype Limits = Limits(turns: nat, depth: nat, children: nat)

  datatype Error = TooDeep | Cancelled | NoTurnsLeft | TooManyChildren | EmitFailed | BodyRaised

  /** `inside` are the calls between acquire and release, `leaked` the ones whose
      acquire counted a child but then failed to report it. */
  datatype State = State(
    requests: set<string>, turns: nat, active: nat, peak: nat, cancelled: bool,
    inside: set<nat>, leaked: nat)

  /** `lost`: reporting the event raises. */
  datatype Step =
    | Cancel
    | Reserve(request: string, depth: nat, lost: bool)
    | Enter(call: nat, depth: nat, lost: bool)
    | Leave(call: nat, lost: bool)

  function Initial(): State { State({}, 0, 0, 0, false, {}, 0) }

  predicate Possible(s: State, step: Step) {
    match step
    case Enter(call, _, _) => call !in s.inside
    case Leave(call, _) => call in s.inside
    case _ => true
  }

  function Refusal(l: Limits, s: State, step: Step): Option<Error> {
    match step
    case Cancel => None
    case Reserve(request, depth, _) =>
      if depth > l.depth then Some(TooDeep)
      else if s.cancelled then Some(Cancelled)
      else if request in s.requests then None
      else if s.turns >= l.turns then Some(NoTurnsLeft)
      else None
    case Enter(_, depth, _) =>
      if depth > l.depth then Some(TooDeep)
      else if s.cancelled then Some(Cancelled)
      else if s.active >= l.children then Some(TooManyChildren)
      else None
    case Leave(_, _) => None
  }

  /** A provider request is let through below the depth limit of a run that goes on, if it
      was before or a turn is left; a child, if a place is left. */
  lemma LetThroughByCases(l: Limits, s: State, request: string, call: nat, depth: nat, lost: bool)
    ensures Refusal(l, s, Reserve(request, depth, lost)) == None <==>
      depth <= l.depth && !s.cancelled && (request in s.requests || s.turns < l.turns)
    ensures Refusal(l, s, Enter(call, depth, lost)) == None <==>
      depth <= l.depth && !s.cancelled && s.active < l.children
    ensures Refusal(l, s, Reserve(request, depth, lost)) == Some(NoTurnsLeft) ==> s.turns >= l.turns
    ensures Refusal(l, s, Enter(call, depth, lost)) == Some(TooManyChildren) ==> s.active >= l.children
    ensures forall step :: Refusal(l, s, step) == Some(Cancelled) ==> s.cancelled
  {
  }

  function Max(a: nat, b: nat): nat { if a < b then b else a }

  function Apply(l: Limits, s: State, step: Step): State
    requires Possible(s, step)
  {
    if Refusal(l, s, step).Some? then s
    else match step
      case Cancel => s.(cancelled := true)
      case Reserve(request, _, _) =>
        if request in s.requests then s else s.(requests := s.requests + {request}, turns := s.turns + 1)
      case Enter(call, _, lost) =>
        s.(active := s.active + 1, peak := Max(s.peak, s.active + 1),
           inside := if lost then s.inside else s.inside + {call}, leaked := if lost then s.leaked + 1 else s.leaked)
      case Leave(call, _) =>
        s.(active := if s.active > 0 then s.active - 1 else 0, inside := s.inside - {call})
  }

  ghost predicate Sound(l: Limits, s: State) {
    && s.turns == |s.requests| <= l.turns
    && s.active <= s.peak <= l.children
    && s.active == |s.inside| + s.leaked
  }

  ghost predicate Legal(l: Limits, s: State, run: seq<Step>)
    decreases |run|
  {
    run == [] || (Possible(s, run[0]) && Legal(l, Apply(l, s, run[0]), run[1..]))
  }

  ghost function End(l: Limits, s: State, run: seq<Step>): State
    requires Legal(l, s, run)
    decreases |run|
  {
    if run == [] then s else End(l, Apply(l, s, run[0]), run[1..])
  }

  lemma StepKeepsSound(l: Limits, s: State, step: Step)
    requires Sound(l, s) && Possible(s, step)
    ensures Sound(l, Apply(l, s, step))
  {
    match step
    case Leave(call, _) => assert s.inside == (s.inside - {call}) + {call};
    case _ =>
  }

  /** Over every run: the turns used are the distinct requests and stay within the
      limit, and the children counted are those inside plus the leaked ones. */
  lemma {:induction false} RunKeepsSound(l: Limits, s: State, run: seq<Step>)
    requires Sound(l, s) && Legal(l, s, run)
    ensures Sound(l, End(l, s, run))
    ensures s.requests <= End(l, s, run).requests && s.leaked <= End(l, s, run).leaked
    decreases |run|
  {
    if run != [] {
      StepKeepsSound(l, s, run[0]);
      RunKeepsSound(l, Apply(l, s, run[0]), run[1..]);
    }
  }

  /** A request once reserved is free from then on: it is refused only for depth or
      cancellation, and never costs a turn again. */
  lemma RetryIsFree(l: Limits, s: State, request: string, run: seq<Step>, again: Step)
    requires Sound(l, s) && request in s.requests && Legal(l, s, run)
    requires again.Reserve? && again.request == request
    ensures Apply(l, End(l, s, run), again) == End(l, s, run)
    ensures Refusal(l, End(l, s, run), again).Some? <==> again.depth > l.depth || End(l, s, run).cancelled
  {
    RunKeepsSound(l, s, run);
  }

  /** After a cancellation nothing is reserved and nobody enters; calls only leave. */
  lemma {:induction false} NothingAfterCancel(l: Limits, s: State, run: seq<Step>)
    requires s.cancelled && Legal(l, s, run)
    ensures var e := End(l, s, run);
      && e.cancelled && e.requests == s.requests && e.turns == s.turns && e.peak == s.peak
      && e.inside <= s.inside && e.active <= s.active && e.leaked == s.leaked
    decreases |run|
  {
    if run != [] {
      NothingAfterCancel(l, Apply(l, s, run[0]), run[1..]);
    }
  }

  /** Some enter step of the run counted a child but could not report it. */
  ghost predicate Leaks(l: Limits, s: State, run: seq<Step>)
    requires Legal(l, s, run)
    decreases |run|
  {
    run != [] &&
    ((run[0].Enter? && run[0].lost && Refusal(l, s, run[0]).None?) || Leaks(l, Apply(l, s, run[0]), run[1..]))
  }

  lemma {:induction false} LeakedGrows(l: Limits, s: State, run: seq<Step>)
    requires Legal(l, s, run)
    ensures End(l, s, run).leaked >= s.leaked
    ensures End(l, s, run).leaked > s.leaked <==> Leaks(l, s, run)
    decreases |run|
  {
    if run != [] {
      LeakedGrows(l, Apply(l, s, run[0]), run[1..]);
    }
  }

  /** The active count is the number of calls inside exactly when no acquire's report
      failed: acquire runs before the block that releases. */
  lemma ActiveIsInsideExactlyWithoutLeaks(l: Limits, run: seq<Step>)
    requires Legal(l, Initial(), run)
    ensures End(l, Initial(), run).active == |End(l, Initial(), run).inside| <==> !Leaks(l, Initial(), run)
  {
    RunKeepsSound(l, Initial(), run);
    LeakedGrows(l, Initial(), run);
  }

  /** Enough leaked children, and no call ever enters again. */
  lemma {:induction false} LeakedChildrenBlockTheRun(l: Limits, s: State, run: seq<Step>)
    requires Sound(l, s) && s.leaked == l.children && Legal(l, s, run)
    ensures End(l, s, run).active == l.children && End(l, s, run).inside == {}
    decreases |run|
  {
    assert s.inside == {};
    if run != [] {
      StepKeepsSound(l, s, run[0]);
      LeakedChildrenBlockTheRun(l, Apply(l, s, run[0]), run[1..]);
    }
  }

  /** The requests granted along a run: reserve steps that were not refused. */
  ghost function Granted(l: Limits, s: State, run: seq<Step>): set<string>
    requires Legal(l, s, run)
    decreases |run|
  {
    if run == [] then {}
    else
      (if run[0].Reserve? && Refusal(l, s, run[0]).None? then {run[0].request} else {}) +
      Granted(l, Apply(l, s, run[0]), run[1..])
  }

  /** The most calls ever counted at once along a run. */
  ghost function Busiest(l: Limits, s: State, run: seq<Step>): nat
    requires Legal(l, s, run)
    decreases |run|
  {
    if run == [] then s.active else Max(s.active, Busiest(l, Apply(l, s, run[0]), run[1..]))
  }

  /** What the counters record is exactly what happened. */
  lemma {:induction false} CountersRecordTheRun(l: Limits, s: State, run: seq<Step>)
    requires Legal(l, s, run) && s.active <= s.peak
    ensures End(l, s, run).requests == s.requests + Granted(l, s, run)
    ensures End(l, s, run).peak == Max(s.peak, Busiest(l, s, run))
    decreases |run|
  {
    if run != [] {
      CountersRecordTheRun(l, Apply(l, s, run[0]), run[1..]);
    }
  }

  // The coordinator itself.

  class RunExecutionCoordinator {
    const limits: Limits
    var requestIds: set<string>
    var turnsUsed: nat
    var activeChildren: nat
    var peakChildren: nat
    var cancelled: bool
    ghost var inside: set<nat>
    ghost var leaked: nat

    ghost function Current(): State
      reads this
    {
      State(requestIds, turnsUsed, activeChildren, peakChildren, cancelled, inside, leaked)
    }

    constructor (limits: Limits)
      ensures this.limits == limits && Current() == Initial()
    {
      this.limits := limits;
      requestIds, turnsUsed, activeChildren, peakChildren, cancelled := {}, 0, 0, 0, false;
      inside, leaked := {}, 0;
    }

    method RequestCancel()
      modifies this
      ensures Current() == Apply(limits, old(Current()), Cancel)
    {
      cancelled := true;
    }

    method ReserveProviderRequest(request: string, depth: nat, lost: bool) returns (error: Option<Error>)
      modifies this
      ensures var step := Reserve(request, depth, lost);
        && Current() == Apply(limits, old(Current()), step)
        && (Refusal(limits, old(Current()), step).Some? ==> error == Refusal(limits, old(Current()), step))
        && (Refusal(limits, old(Current()), step).None? ==>
              error == if lost && request !in old(requestIds) then Some(EmitFailed) else None)
    {
      if depth > limits.depth { return Some(TooDeep); }
      if cancelled { return Some(Cancelled); }
      if request in requestIds { return None; }
      if turnsUsed >= limits.turns { return Some(NoTurnsLeft); }
      requestIds := requestIds + {request};
      turnsUsed := turnsUsed + 1;
      if lost { return Some(EmitFailed); }
      return None;
    }

    method AcquireChild(ghost call: nat, lost: bool) returns (error: Option<Error>)
      requires call !in inside
      modifies this
      ensures Current() == Apply(limits, old(Current()), Enter(call, 0, lost))
      ensures error == if Refusal(limits, old(Current()), Enter(call, 0, lost)).Some?
                       then Refusal(limits, old(Current()), Enter(call, 0, lost))
                       else if lost then Some(EmitFailed) else None
    {
      if cancelled { return Some(Cancelled); }
      if activeChildren >= limits.children { return Some(TooManyChildren); }
      activeChildren := activeChildren + 1;
      peakChildren := if peakChildren < activeChildren then activeChildren else peakChildren;
      if lost {
        leaked := leaked + 1;
        return Some(EmitFailed);
      }
      inside := inside + {call};
      return None;
    }

    method ReleaseChild(ghost call: nat, lost: bool) returns (error: Option<Error>)
      requires call in inside
      modifies this
      ensures Current() == Apply(limits, old(Current()), Leave(call, lost))
      ensures error == if lost then Some(EmitFailed) else None
    {
      activeChildren := if activeChildren > 0 then activeChildren - 1 else 0;
      inside := inside - {call};
      return if lost then Some(EmitFailed) else None;
    }

    /** The wrapped run of one child, undisturbed: whatever its body does, the child is
        counted while it runs and given back afterwards.  A report of the release that
        raises ends the run, in place of what the body raised. */
    method CoordinatedRun(ghost call: nat, depth: nat, lost: bool, bodyRaises: bool, releaseLost: bool)
      returns (ran: bool, error: Option<Error>)
      requires call !in inside && Sound(limits, Current())
      modifies this
      ensures Sound(limits, Current())
      ensures ran <==> depth <= limits.depth && !lost && !old(cancelled) && old(activeChildren) < limits.children
      ensures inside == old(inside) && leaked >= old(leaked)
      ensures activeChildren == old(activeChildren) + (leaked - old(leaked))
      ensures leaked == old(leaked) + 1 <==>
        lost && depth <= limits.depth && !old(cancelled) && old(activeChildren) < limits.children
      ensures ran ==>
        error == if releaseLost then Some(EmitFailed) else if bodyRaises then Some(BodyRaised) else None
      ensures !ran ==> error.Some? && error != Some(BodyRaised)
      ensures ran ==> peakChildren == Max(old(peakChildren), old(activeChildren) + 1)
    {
      ran, error := false, None;
      if depth > limits.depth { return false, Some(TooDeep); }
      StepKeepsSound(limits, Current(), Enter(call, 0, lost));
      error := AcquireChild(call, lost);
      if error.Some? { return; }
      ran := true;
      StepKeepsSound(limits, Current(), Leave(call, releaseLost));
      error := ReleaseChild(call, releaseLost);
      if error.None? && bodyRaises { error := Some(BodyRaised); }
    }
  }
}
