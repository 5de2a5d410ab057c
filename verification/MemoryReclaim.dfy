/** The fenced page-cache eviction: a receipt is saved before and after the effect,
    and the helper can die at any point between its durable writes. */
module MemoryReclaim {
  import opened Wrappers

  const MAX_FENCE := 0x8000_0000_0000_0000

  datatype Phase = Executing | Skipped | Evicted

  datatype Receipt = Receipt(operation: string, fence: int, phase: Phase)

  datatype Error = Invalid | FenceMismatch | StaleFence

  predicate Word(c: char) { 'a' <= c <= 'z' || 'A' <= c <= 'Z' || '0' <= c <= '9' || c == '_' || c == '-' }

  /** mem_ and one to a hundred word characters. */
  predicate ValidId(operation: string) {
    5 <= |operation| <= 104 && operation[..4] == "mem_" && forall i | 4 <= i < |operation| :: Word(operation[i])
  }

  datatype Pc = Idle | Deciding(value: Receipt) | Reporting(value: Receipt)

  /** `effects` are the fences under which the cache was dropped, in order. */
  datatype World = World(receipt: Option<Receipt>, pc: Pc, effects: seq<int>)

  /** Begin is a request; the helper serves one at a time. */
  datatype Step = Begin(wellTyped: bool, operation: string, fence: int) | Effect(supported: bool) | Finish | Crash

  function Refusal(r: Option<Receipt>, wellTyped: bool, operation: string, fence: int): Option<Error> {
    if !wellTyped || !ValidId(operation) || !(1 <= fence < MAX_FENCE) then Some(Invalid)
    else if r.None? then None
    else if r.value.operation == operation then if r.value.fence != fence then Some(FenceMismatch) else None
    else if r.value.fence >= fence then Some(StaleFence)
    else None
  }

  /** "mem_", then one to a hundred ASCII letters, digits, underscores and dashes. */
  predicate Named(operation: string) {
    && 4 < |operation| < 105
    && operation[0] == 'm' && operation[1] == 'e' && operation[2] == 'm' && operation[3] == '_'
    && forall i | 4 <= i < |operation| ::
         var c := operation[i] as int;
         64 < c < 91 || 96 < c < 123 || 47 < c < 58 || c == 95 || c == 45
  }

  /** Each refusal has its own condition: a malformed request, an operation under another
      fence than before, and another operation under a fence that is not newer. */
  lemma RefusedByCases(r: Option<Receipt>, wellTyped: bool, operation: string, fence: int)
    ensures var valid := wellTyped && Named(operation) && 0 < fence <= 0x7fff_ffff_ffff_ffff;
      var why := Refusal(r, wellTyped, operation, fence);
      && (why == Some(Invalid) <==> !valid)
      && (why == Some(FenceMismatch) <==> valid && exists p :: r == Some(p) && p.operation == operation && p.fence != fence)
      && (why == Some(StaleFence) <==> valid && exists p :: r == Some(p) && p.operation != operation && fence <= p.fence)
  {
    assert ValidId(operation) <==> Named(operation) by {
      if |operation| >= 4 {
        assert operation[..4] == [operation[0], operation[1], operation[2], operation[3]];
      }
    }
  }

  /** The request is answered from the stored receipt. */
  predicate Replays(r: Option<Receipt>, operation: string) { r.Some? && r.value.operation == operation }

  predicate Enabled(w: World, s: Step) {
    match s
    case Begin(_, _, _) => w.pc.Idle?
    case Effect(_) => w.pc.Deciding?
    case Finish => w.pc.Reporting?
    case Crash => true
  }

  function Apply(w: World, s: Step): World
    requires Enabled(w, s)
  {
    match s
    case Begin(wellTyped, operation, fence) =>
      if Refusal(w.receipt, wellTyped, operation, fence).Some? || Replays(w.receipt, operation) then w
      else
        var value := Receipt(operation, fence, Executing);
        World(Some(value), Deciding(value), w.effects)
    case Effect(supported) =>
      if supported then World(w.receipt, Reporting(w.pc.value.(phase := Evicted)), w.effects + [w.pc.value.fence])
      else w.(pc := Reporting(w.pc.value.(phase := Skipped)))
    case Finish => w.(receipt := Some(w.pc.value), pc := Idle)
    case Crash => w.(pc := Idle)
  }

  ghost predicate Safe(w: World) {
    && (forall i, j | 0 <= i < j < |w.effects| :: w.effects[i] < w.effects[j])
    && (w.effects != [] ==> w.receipt.Some? && w.effects[|w.effects| - 1] <= w.receipt.value.fence)
    && (!w.pc.Idle? ==>
          && w.receipt.Some? && w.receipt.value == w.pc.value.(phase := Executing))
    && (w.pc.Deciding? && w.effects != [] ==> w.effects[|w.effects| - 1] < w.pc.value.fence)
    && (w.receipt.Some? && w.receipt.value.phase == Evicted ==>
          w.effects != [] && w.effects[|w.effects| - 1] == w.receipt.value.fence)
    && (w.pc.Reporting? && w.pc.value.phase == Evicted ==>
          w.effects != [] && w.effects[|w.effects| - 1] == w.pc.value.fence)
  }

  lemma StepKeepsSafe(w: World, s: Step)
    requires Safe(w) && Enabled(w, s)
    ensures Safe(Apply(w, s))
    ensures w.receipt.Some? ==> Apply(w, s).receipt.Some? && w.receipt.value.fence <= Apply(w, s).receipt.value.fence
    ensures w.effects <= Apply(w, s).effects
  {
  }

  ghost predicate Legal(w: World, run: seq<Step>)
    decreases |run|
  {
    run == [] || (Enabled(w, run[0]) && Legal(Apply(w, run[0]), run[1..]))
  }

  ghost function End(w: World, run: seq<Step>): World
    requires Legal(w, run)
    decreases |run|
  {
    if run == [] then w else End(Apply(w, run[0]), run[1..])
  }

  /** Over every run, with crashes anywhere: each fence drops the cache at most once, in
      strictly increasing order, and the stored fence never falls. */
  lemma {:induction false} RunKeepsSafe(w: World, run: seq<Step>)
    requires Safe(w) && Legal(w, run)
    ensures Safe(End(w, run)) && w.effects <= End(w, run).effects
    ensures w.receipt.Some? ==> End(w, run).receipt.Some? && w.receipt.value.fence <= End(w, run).receipt.value.fence
    decreases |run|
  {
    if run != [] {
      StepKeepsSafe(w, run[0]);
      RunKeepsSafe(Apply(w, run[0]), run[1..]);
    }
  }

  /** A fence at or below the stored one never drops the cache again. */
  lemma NoEffectForUsedFences(w: World, run: seq<Step>, k: nat)
    requires Safe(w) && w.pc.Idle? && w.receipt.Some? && Legal(w, run)
    requires |w.effects| <= k < |End(w, run).effects|
    ensures End(w, run).effects[k] > w.receipt.value.fence
  {
    EffectsAbove(w, run, w.receipt.value.fence, k);
  }

  lemma {:induction false} EffectsAbove(w: World, run: seq<Step>, fence: int, k: nat)
    requires Safe(w) && Legal(w, run) && |w.effects| <= k < |End(w, run).effects|
    requires w.receipt.Some? && fence <= w.receipt.value.fence
    requires w.pc.Deciding? ==> fence < w.pc.value.fence
    ensures End(w, run).effects[k] > fence
    decreases |run|
  {
    if run != [] {
      var v := Apply(w, run[0]);
      StepKeepsSafe(w, run[0]);
      RunKeepsSafe(v, run[1..]);
      if k < |v.effects| {
        assert v.effects[k] == End(w, run).effects[k];
      } else {
        EffectsAbove(v, run[1..], fence, k);
      }
    }
  }

  /** While no other operation is accepted, the latest one is only ever replayed: its
      receipt stays, even one left executing by a crash, and nothing is dropped. */
  lemma {:induction false} ReplaysNeverExecute(w: World, run: seq<Step>)
    requires w.pc.Idle? && w.receipt.Some? && Legal(w, run)
    requires forall i | 0 <= i < |run| && run[i].Begin? ::
      run[i].operation == w.receipt.value.operation || run[i].fence <= w.receipt.value.fence
    ensures End(w, run) == w
    decreases |run|
  {
    if run != [] {
      assert Apply(w, run[0]) == w;
      ReplaysNeverExecute(w, run[1..]);
    }
  }

  /** An operation is executed again exactly when another one has replaced its receipt
      in between and the new fence is higher still. */
  lemma ExecutesExactlyWhenNewer(w: World, operation: string, fence: int)
    requires w.pc.Idle? && ValidId(operation) && 1 <= fence < MAX_FENCE
    ensures Apply(w, Begin(true, operation, fence)).pc.Deciding? <==>
      (w.receipt.Some? ==> w.receipt.value.operation != operation && w.receipt.value.fence < fence)
  {
  }

  /** The steps of one request that is served to the end. */
  function Service(operation: string, fence: int): seq<Step> {
    [Begin(true, operation, fence)] + ([Effect(true)] + [Finish])
  }

  /** The fence bounds the effect, not the operation id: with another operation in
      between, the same id drops the cache twice. */
  lemma OneOperationTwice(first: string, second: string)
    requires ValidId(first) && ValidId(second) && first != second
    ensures var run := Service(first, 1) + (Service(second, 2) + Service(first, 3));
      Legal(World(None, Idle, []), run) && End(World(None, Idle, []), run).effects == [] + [1] + [2] + [3]
  {
    var w0 := World(None, Idle, []);
    var w1 := World(Some(Receipt(first, 1, Evicted)), Idle, [] + [1]);
    var w2 := World(Some(Receipt(second, 2, Evicted)), Idle, [] + [1] + [2]);
    Served(w2, first, 3, []);
    assert Service(first, 3) + [] == Service(first, 3);
    Served(w1, second, 2, Service(first, 3));
    Served(w0, first, 1, Service(second, 2) + Service(first, 3));
  }

  /** One request served to the end, and what follows. */
  lemma {:induction false} Served(w: World, operation: string, fence: int, rest: seq<Step>)
    requires w.pc.Idle? && ValidId(operation) && 1 <= fence < MAX_FENCE
    requires w.receipt.Some? ==> w.receipt.value.operation != operation && w.receipt.value.fence < fence
    requires Legal(World(Some(Receipt(operation, fence, Evicted)), Idle, w.effects + [fence]), rest)
    ensures var v := World(Some(Receipt(operation, fence, Evicted)), Idle, w.effects + [fence]);
      Legal(w, Service(operation, fence) + rest) && End(w, Service(operation, fence) + rest) == End(v, rest)
  {
    var a := Apply(w, Begin(true, operation, fence));
    var b := Apply(a, Effect(true));
    Then(b, Finish, rest);
    Then(a, Effect(true), [Finish] + rest);
    Then(w, Begin(true, operation, fence), [Effect(true)] + ([Finish] + rest));
    assert Service(operation, fence) + rest == [Begin(true, operation, fence)] + ([Effect(true)] + ([Finish] + rest));
  }

  lemma {:induction false} Then(w: World, s: Step, rest: seq<Step>)
    requires Enabled(w, s) && Legal(Apply(w, s), rest)
    ensures Legal(w, [s] + rest) && End(w, [s] + rest) == End(Apply(w, s), rest)
  {
    assert ([s] + rest)[1..] == rest;
  }

  // The helper.

  class Helper {
    var receipt: Option<Receipt>
    ghost var world: World

    ghost predicate Valid()
      reads this
    {
      world.receipt == receipt && world.pc.Idle? && Safe(world)
    }

    constructor ()
      ensures Valid() && world == World(None, Idle, [])
    {
      receipt, world := None, World(None, Idle, []);
    }

    method Save(value: Receipt)
      modifies this`receipt
      ensures receipt == Some(value)
    {
      receipt := Some(value);
    }

    ghost method Do(s: Step)
      requires Safe(world) && Enabled(world, s)
      modifies this`world
      ensures world == Apply(old(world), s) && Safe(world)
    {
      StepKeepsSafe(world, s);
      world := Apply(world, s);
    }

    /** One request; `lives` says how far the helper gets: 1 past the first save,
        2 past the effect, 3 past the second save. */
    method Execute(wellTyped: bool, operation: string, fence: int, supported: bool, lives: nat)
        returns (answer: Result<Receipt, Error>, ghost ran: bool)
      requires Valid()
      modifies this
      ensures Valid()
      ensures ran <==> Refusal(old(receipt), wellTyped, operation, fence).None? && !Replays(old(receipt), operation)
      ensures !ran ==> world == old(world)
      ensures !ran && answer.Ok? ==> old(receipt) == Some(answer.value) && answer.value.operation == operation
      ensures answer.Err? ==> !ran && Refusal(old(receipt), wellTyped, operation, fence) == Some(answer.error)
      ensures ran ==> receipt == Some(Receipt(operation, fence,
                                              if lives < 3 then Executing else if supported then Evicted else Skipped))
      ensures ran ==> world.effects == old(world.effects) + if lives >= 2 && supported then [fence] else []
    {
      ran := false;
      if !wellTyped || !ValidId(operation) || !(1 <= fence < MAX_FENCE) { return Err(Invalid), false; }
      if receipt.Some? && receipt.value.operation == operation {
        if receipt.value.fence != fence { return Err(FenceMismatch), false; }
        return Ok(receipt.value), false;
      }
      if receipt.Some? && receipt.value.fence >= fence { return Err(StaleFence), false; }
      ran := true;
      var value := Evict(operation, fence, supported, lives);
      answer := Ok(value);
    }

    /** The effect between its two receipts. */
    method Evict(operation: string, fence: int, supported: bool, lives: nat) returns (value: Receipt)
      requires Valid() && Enabled(world, Begin(true, operation, fence))
      requires Refusal(receipt, true, operation, fence).None? && !Replays(receipt, operation)
      modifies this
      ensures Valid()
      ensures receipt == Some(Receipt(operation, fence,
                                      if lives < 3 then Executing else if supported then Evicted else Skipped))
      ensures world.effects == old(world.effects) + if lives >= 2 && supported then [fence] else []
    {
      Do(Begin(true, operation, fence));
      value := Receipt(operation, fence, Executing);
      Save(value);
      if lives < 2 {
        Do(Crash);
        return;
      }
      Do(Effect(supported));
      value := value.(phase := if supported then Evicted else Skipped);
      if lives < 3 {
        Do(Crash);
        return;
      }
      Do(Finish);
      Save(value);
    }
  }
}
