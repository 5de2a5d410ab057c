/** Splitting delegated tasks into cost-homogeneous batches and merging the workers' reports. */
module DelegationBatches {
  import opened Wrappers

  datatype Decision = Decision(model: string, reasoning: string)

  /** The parent agent's settings that a batch may override. */
  datatype Settings = Settings(model: string, reasoning: string)

  type Key = (string, string)

  /** What parsing a reasoning effort gives; it may raise. */
  datatype Parsing = Parsed(value: string) | NotParsed | Raises

  datatype Batch = Batch(key: Key, decision: Option<Decision>, indices: seq<nat>)

  function Iota(n: nat): (s: seq<nat>)
    ensures |s| == n && forall i | 0 <= i < n :: s[i] == i
  {
    if n == 0 then [] else Iota(n - 1) + [n - 1]
  }

  /** How often `x` occurs. */
  function Times(s: seq<nat>, x: nat): nat {
    if s == [] then 0 else Times(s[..|s| - 1], x) + (if s[|s| - 1] == x then 1 else 0)
  }

  lemma TimesSnoc(s: seq<nat>, y: nat, x: nat)
    ensures Times(s + [y], x) == Times(s, x) + if y == x then 1 else 0
  {
    assert (s + [y])[..|s|] == s;
  }

  lemma {:induction false} TimesConcat(a: seq<nat>, b: seq<nat>, x: nat)
    ensures Times(a + b, x) == Times(a, x) + Times(b, x)
    decreases |b|
  {
    if b == [] {
      assert a + b == a;
    } else {
      var init := b[..|b| - 1];
      TimesConcat(a, init, x);
      assert (a + b)[..|a + b| - 1] == a + init;
    }
  }

  function DecisionAt(decisions: seq<Option<Decision>>, i: nat): Option<Decision> {
    if i < |decisions| then decisions[i] else None
  }

  function KeyOf(d: Option<Decision>, current: string): Key {
    if d.None? then (current, "")
    else (if d.value.model != "" then d.value.model else current, d.value.reasoning)
  }

  /** The settings under which a task with this decision is to run. */
  function Effective(own: Settings, d: Option<Decision>, parse: string -> Parsing): Settings {
    if d.None? then own
    else Settings(
      if d.value.model != "" then d.value.model else own.model,
      if d.value.reasoning != "" && parse(d.value.reasoning).Parsed? then parse(d.value.reasoning).value
      else own.reasoning)
  }

  /** The decision can be applied to the agent without raising. */
  predicate Applies(d: Option<Decision>, parse: string -> Parsing) {
    d.Some? && d.value.reasoning != "" ==> !parse(d.value.reasoning).Raises?
  }

  /** What is left of the agent's settings when it cannot: the model is set first. */
  function HalfApplied(own: Settings, d: Option<Decision>): Settings {
    if d.Some? && d.value.model != "" then own.(model := d.value.model) else own
  }

  lemma SameKeySameSettings(own: Settings, a: Option<Decision>, b: Option<Decision>, parse: string -> Parsing)
    requires KeyOf(a, own.model) == KeyOf(b, own.model)
    ensures Effective(own, a, parse) == Effective(own, b, parse) && Applies(a, parse) == Applies(b, parse)
  {
  }

  /** Field by field: a blank model or effort leaves the agent's own, and so does an effort
      that is not understood; one whose parsing raises leaves only the model changed. */
  lemma SettingsByField(own: Settings, model: string, effort: string, parse: string -> Parsing)
    ensures Effective(own, None, parse) == own && Applies(None, parse)
    ensures var d := Some(Decision(model, effort));
      && (Applies(d, parse) <==> effort == "" || parse(effort) != Raises)
      && Effective(own, d, parse).model == HalfApplied(own, d).model == (if model == "" then own.model else model)
      && HalfApplied(own, d).reasoning == own.reasoning
      && (effort == "" || parse(effort) == NotParsed ==> Effective(own, d, parse).reasoning == own.reasoning)
      && (effort != "" ==> forall v | parse(effort) == Parsed(v) :: Effective(own, d, parse).reasoning == v)
  {
  }

  /** How often the first `k` batches hold task `x`. */
  function OwnersUpTo(batches: seq<Batch>, k: nat, x: nat): nat
    requires k <= |batches|
  {
    if k == 0 then 0 else OwnersUpTo(batches, k - 1, x) + Times(batches[k - 1].indices, x)
  }

  function Owners(batches: seq<Batch>, x: nat): nat { OwnersUpTo(batches, |batches|, x) }

  lemma {:induction false} OwnersPrefix(batches: seq<Batch>, b: Batch, k: nat, x: nat)
    requires k <= |batches|
    ensures OwnersUpTo(batches + [b], k, x) == OwnersUpTo(batches, k, x)
  {
    if k > 0 { OwnersPrefix(batches, b, k - 1, x); }
  }

  lemma OwnersSnoc(batches: seq<Batch>, b: Batch, x: nat)
    ensures Owners(batches + [b], x) == Owners(batches, x) + Times(b.indices, x)
  {
    OwnersPrefix(batches, b, |batches|, x);
  }

  /** Task indices 0..n-1 are partitioned among the batches. */
  ghost predicate Partition(batches: seq<Batch>, n: nat) {
    forall x: nat :: Owners(batches, x) == if x < n then 1 else 0
  }

  /** How often the groups hold task `x`. */
  function Gather(order: seq<Key>, grouped: map<Key, seq<nat>>, x: nat): nat
    requires forall k <- order :: k in grouped
  {
    if order == [] then 0 else Times(grouped[order[0]], x) + Gather(order[1..], grouped, x)
  }

  predicate Distinct(order: seq<Key>) { forall i, j | 0 <= i < j < |order| :: order[i] != order[j] }

  lemma {:induction false} GatherOther(order: seq<Key>, grouped: map<Key, seq<nat>>, k: Key, s: seq<nat>, x: nat)
    requires (forall j <- order :: j in grouped) && k !in order
    ensures Gather(order, grouped[k := s], x) == Gather(order, grouped, x)
  {
    if order != [] {
      GatherOther(order[1..], grouped, k, s, x);
    }
  }

  lemma {:induction false} GatherSnoc(order: seq<Key>, grouped: map<Key, seq<nat>>, k: Key, x: nat)
    requires (forall j <- order :: j in grouped) && k in grouped
    ensures Gather(order + [k], grouped, x) == Gather(order, grouped, x) + Times(grouped[k], x)
  {
    if order == [] {
      assert [] + [k] == [k] && [k][1..] == [];
    } else {
      GatherSnoc(order[1..], grouped, k, x);
      assert (order + [k])[1..] == order[1..] + [k];
    }
  }

  lemma {:induction false} GatherAppend(order: seq<Key>, grouped: map<Key, seq<nat>>, k: Key, i: nat, x: nat)
    requires (forall j <- order :: j in grouped) && k in order && Distinct(order)
    ensures Gather(order, grouped[k := grouped[k] + [i]], x) == Gather(order, grouped, x) + if i == x then 1 else 0
  {
    if order[0] == k {
      assert k !in order[1..];
      GatherOther(order[1..], grouped, k, grouped[k] + [i], x);
      TimesSnoc(grouped[k], i, x);
    } else {
      GatherAppend(order[1..], grouped, k, i, x);
    }
  }

  predicate Increasing(s: seq<nat>) { forall i, j | 0 <= i < j < |s| :: s[i] < s[j] }

  /** Every task of the batch belongs to its key, in task order. */
  predicate Homogeneous(s: seq<nat>, key: Key, n: nat, decisions: seq<Option<Decision>>, current: string) {
    Increasing(s) && forall i <- s :: i < n && KeyOf(DecisionAt(decisions, i), current) == key
  }

  predicate GoodBatch(b: Batch, n: nat, slots: nat, decisions: seq<Option<Decision>>, current: string) {
    && 1 <= |b.indices| <= slots
    && Homogeneous(b.indices, b.key, n, decisions, current)
    && KeyOf(b.decision, current) == b.key
  }

  function KeyAt(decisions: seq<Option<Decision>>, current: string, i: nat): Key {
    KeyOf(DecisionAt(decisions, i), current)
  }

  /** Some task of key `a` comes before all tasks of key `b`. */
  predicate StartsBefore(a: Key, b: Key, n: nat, decisions: seq<Option<Decision>>, current: string) {
    exists x | 0 <= x < n ::
      KeyAt(decisions, current, x) == a && forall y | 0 <= y < n && KeyAt(decisions, current, y) == b :: x < y
  }

  /** Keys are served in the order of their first tasks, and the tasks of one key in order,
      in batches that are full but for the last. */
  predicate InOrder(a: Batch, b: Batch, n: nat, slots: nat, decisions: seq<Option<Decision>>, current: string) {
    if a.key == b.key then
      && |a.indices| == slots && a.indices != [] && b.indices != []
      && a.indices[|a.indices| - 1] < b.indices[0]
    else StartsBefore(a.key, b.key, n, decisions, current)
  }

  predicate Arranged(batches: seq<Batch>, n: nat, slots: nat, decisions: seq<Option<Decision>>, current: string) {
    forall i, j | 0 <= i < j < |batches| :: InOrder(batches[i], batches[j], n, slots, decisions, current)
  }

  /** The groups hold all tasks of their keys, and stand in the order of their first ones. */
  ghost predicate Listed(
    order: seq<Key>, grouped: map<Key, seq<nat>>, n: nat, decisions: seq<Option<Decision>>, current: string)
  {
    && (forall k <- order :: k in grouped && grouped[k] != [])
    && (forall g, h | 0 <= g < h < |order| :: grouped[order[g]][0] < grouped[order[h]][0])
    && (forall k <- grouped, x <- grouped[k] :: x < n)
    && (forall y | 0 <= y < n :: KeyAt(decisions, current, y) in grouped && y in grouped[KeyAt(decisions, current, y)])
  }

  lemma NothingListed(decisions: seq<Option<Decision>>, current: string)
    ensures Keyed([], map[]) && Listed([], map[], 0, decisions, current)
  {
  }

  lemma ListedNext(order: seq<Key>, grouped: map<Key, seq<nat>>, i: nat, decisions: seq<Option<Decision>>, current: string)
    requires Listed(order, grouped, i, decisions, current) && Keyed(order, grouped)
    ensures var key := KeyAt(decisions, current, i);
      var more := if key in grouped then grouped[key] + [i] else [i];
      Listed(if key in grouped then order else order + [key], grouped[key := more], i + 1, decisions, current)
  {
    var key := KeyAt(decisions, current, i);
    var more := if key in grouped then grouped[key] + [i] else [i];
    var (order', grouped') := (if key in grouped then order else order + [key], grouped[key := more]);
    forall g, h | 0 <= g < h < |order'| ensures grouped'[order'[g]][0] < grouped'[order'[h]][0] {
      assert order'[g] == order[g] && order[g] in order;
      if h == |order| {
        assert grouped[order[g]][0] in grouped[order[g]];
      } else {
        assert order[h] in order;
      }
    }
    forall y | 0 <= y < i + 1 ensures KeyAt(decisions, current, y) in grouped' && y in grouped'[KeyAt(decisions, current, y)] {
      assert y == i ==> more[|more| - 1] == i;
    }
  }

  predicate GoodGroup(s: seq<nat>, d: Option<Decision>, key: Key, n: nat, decisions: seq<Option<Decision>>, current: string) {
    s != [] && Homogeneous(s, key, n, decisions, current) && KeyOf(d, current) == key
  }

  lemma GroupAppend(s: seq<nat>, key: Key, i: nat, decisions: seq<Option<Decision>>, current: string)
    requires Homogeneous(s, key, i, decisions, current) && KeyOf(DecisionAt(decisions, i), current) == key
    ensures GoodGroup(s + [i], DecisionAt(decisions, i), key, i + 1, decisions, current)
  {
    assert forall j | 0 <= j < |s| :: s[j] in s;
  }

  lemma SliceHomogeneous(s: seq<nat>, lo: nat, hi: nat, key: Key, n: nat, decisions: seq<Option<Decision>>, current: string)
    requires Homogeneous(s, key, n, decisions, current) && lo <= hi <= |s|
    ensures Homogeneous(s[lo..hi], key, n, decisions, current)
  {
    assert forall x <- s[lo..hi] :: x in s;
  }

  /** Adding task `i` to its group; `more` is the group with it. */
  lemma GroupsStay(grouped: map<Key, seq<nat>>, chosen: map<Key, Option<Decision>>, more: seq<nat>,
                   i: nat, decisions: seq<Option<Decision>>, current: string)
    requires chosen.Keys == grouped.Keys
    requires forall k <- grouped :: GoodGroup(grouped[k], chosen[k], k, i, decisions, current)
    requires var d := DecisionAt(decisions, i);
      GoodGroup(more, d, KeyOf(d, current), i + 1, decisions, current)
    ensures var d := DecisionAt(decisions, i);
      var grouped', chosen' := grouped[KeyOf(d, current) := more], chosen[KeyOf(d, current) := d];
      forall k <- grouped' :: GoodGroup(grouped'[k], chosen'[k], k, i + 1, decisions, current)
  {
    var d := DecisionAt(decisions, i);
    var key := KeyOf(d, current);
    forall k | k in grouped && k != key
      ensures GoodGroup(grouped[k], chosen[k], k, i + 1, decisions, current)
    {
      assert GoodGroup(grouped[k], chosen[k], k, i, decisions, current);
    }
  }

  ghost predicate Keyed(order: seq<Key>, grouped: map<Key, seq<nat>>) {
    Distinct(order) && forall k :: k in order <==> k in grouped
  }

  lemma TaskJoins(order: seq<Key>, grouped: map<Key, seq<nat>>, key: Key, i: nat, more: seq<nat>, x: nat)
    requires Keyed(order, grouped) && more == if key in grouped then grouped[key] + [i] else [i]
    ensures var order' := if key in grouped then order else order + [key];
      Keyed(order', grouped[key := more])
      && Gather(order', grouped[key := more], x) == Gather(order, grouped, x) + if i == x then 1 else 0
  {
    if key in grouped {
      GatherAppend(order, grouped, key, i, x);
    } else {
      GatherOther(order, grouped, key, [i], x);
      GatherSnoc(order, grouped[key := [i]], key, x);
      assert [] + [i] == [i];
      TimesSnoc([], i, x);
    }
  }

  lemma TaskGroup(grouped: map<Key, seq<nat>>, chosen: map<Key, Option<Decision>>, more: seq<nat>,
                  i: nat, decisions: seq<Option<Decision>>, current: string)
    requires chosen.Keys == grouped.Keys
    requires forall k <- grouped :: GoodGroup(grouped[k], chosen[k], k, i, decisions, current)
    requires var key := KeyOf(DecisionAt(decisions, i), current);
      more == if key in grouped then grouped[key] + [i] else [i]
    ensures var d := DecisionAt(decisions, i);
      GoodGroup(more, d, KeyOf(d, current), i + 1, decisions, current)
  {
    var key := KeyOf(DecisionAt(decisions, i), current);
    if key in grouped {
      GroupAppend(grouped[key], key, i, decisions, current);
    } else {
      GroupAppend([], key, i, decisions, current);
      assert [] + [i] == [i];
    }
  }

  /** Grouping keeps dict insertion order: keys in order of their first task. */
  method Group(n: nat, decisions: seq<Option<Decision>>, current: string)
    returns (order: seq<Key>, grouped: map<Key, seq<nat>>, chosen: map<Key, Option<Decision>>)
    ensures Keyed(order, grouped) && chosen.Keys == grouped.Keys
    ensures forall x: nat :: Gather(order, grouped, x) == if x < n then 1 else 0
    ensures forall k <- grouped :: GoodGroup(grouped[k], chosen[k], k, n, decisions, current)
    ensures Listed(order, grouped, n, decisions, current)
  {
    hide Listed, GoodGroup;
    order, grouped, chosen := [], map[], map[];
    NothingListed(decisions, current);
    for i := 0 to n
      invariant Keyed(order, grouped) && chosen.Keys == grouped.Keys
      invariant forall x: nat :: Gather(order, grouped, x) == if x < i then 1 else 0
      invariant forall k <- grouped :: GoodGroup(grouped[k], chosen[k], k, i, decisions, current)
      invariant Listed(order, grouped, i, decisions, current)
    {
      ListedNext(order, grouped, i, decisions, current);
      var decision := DecisionAt(decisions, i);
      var key := KeyOf(decision, current);
      var more := if key in grouped then grouped[key] + [i] else [i];
      TaskGroup(grouped, chosen, more, i, decisions, current);
      GroupsStay(grouped, chosen, more, i, decisions, current);
      var order' := if key in grouped then order else order + [key];
      var grouped' := grouped[key := more];
      assert Keyed(order', grouped') by { TaskJoins(order, grouped, key, i, more, 0); }
      forall x: nat
        ensures Gather(order', grouped', x) == if x < i + 1 then 1 else 0
      {
        TaskJoins(order, grouped, key, i, more, x);
      }
      order := order';
      grouped := grouped';
      chosen := chosen[key := decision];
    }
  }

  lemma IsGood(b: Batch, n: nat, slots: nat, decisions: seq<Option<Decision>>, current: string)
    requires 1 <= |b.indices| <= slots && Homogeneous(b.indices, b.key, n, decisions, current)
    requires KeyOf(b.decision, current) == b.key
    ensures GoodBatch(b, n, slots, decisions, current)
  {
  }

  /** Batches of one key, in order, all but the last full. */
  predicate Slices(batches: seq<Batch>, key: Key, slots: nat) {
    && (forall i | 0 <= i < |batches| :: batches[i].key == key && batches[i].indices != [])
    && (forall i, j | 0 <= i < j < |batches| ::
          |batches[i].indices| == slots && batches[i].indices[|batches[i].indices| - 1] < batches[j].indices[0])
  }

  /** All of them are full, and end before `x`. */
  predicate Ends(batches: seq<Batch>, slots: nat, x: nat) {
    forall i | 0 <= i < |batches| ::
      |batches[i].indices| == slots && batches[i].indices != [] && batches[i].indices[|batches[i].indices| - 1] < x
  }

  lemma NoSlices(key: Key, slots: nat, x: nat)
    ensures Slices([], key, slots) && Ends([], slots, x)
  {
  }

  lemma SlicesNext(batches: seq<Batch>, b: Batch, key: Key, slots: nat, entries: seq<nat>, offset: nat, end: nat)
    requires Increasing(entries) && offset < end <= |entries| && (end < |entries| ==> end == offset + slots)
    requires b.key == key && b.indices == entries[offset..end]
    requires Slices(batches, key, slots) && Ends(batches, slots, entries[offset])
    ensures Slices(batches + [b], key, slots)
    ensures end < |entries| ==> Ends(batches + [b], slots, entries[end])
  {
    if end < |entries| {
      var all := batches + [b];
      forall i | 0 <= i < |all|
        ensures |all[i].indices| == slots && all[i].indices != [] && all[i].indices[|all[i].indices| - 1] < entries[end]
      {
        if i < |batches| {
          assert all[i] == batches[i];
        } else {
          assert all[i] == b && b.indices[|b.indices| - 1] == entries[end - 1];
        }
      }
    }
  }

  lemma ArrangedNext(batches: seq<Batch>, more: seq<Batch>, key: Key, before: set<Key>,
                     n: nat, slots: nat, decisions: seq<Option<Decision>>, current: string)
    requires Arranged(batches, n, slots, decisions, current) && Slices(more, key, slots)
    requires forall b <- batches :: b.key in before
    requires key !in before && forall k <- before :: StartsBefore(k, key, n, decisions, current)
    ensures Arranged(batches + more, n, slots, decisions, current)
  {
    var all := batches + more;
    forall i, j | 0 <= i < j < |all| ensures InOrder(all[i], all[j], n, slots, decisions, current) {
      if j < |batches| {
        assert InOrder(batches[i], batches[j], n, slots, decisions, current);
      } else if i < |batches| {
        assert batches[i] in batches && more[j - |batches|].key == key;
      } else {
        assert more[i - |batches|].key == key && more[j - |batches|].key == key;
      }
    }
  }

  lemma FirstTasks(order: seq<Key>, grouped: map<Key, seq<nat>>, chosen: map<Key, Option<Decision>>, g: nat, h: nat,
                   n: nat, decisions: seq<Option<Decision>>, current: string)
    requires Keyed(order, grouped) && chosen.Keys == grouped.Keys && Listed(order, grouped, n, decisions, current)
    requires forall k <- grouped :: GoodGroup(grouped[k], chosen[k], k, n, decisions, current)
    requires g < h < |order|
    ensures StartsBefore(order[g], order[h], n, decisions, current)
  {
    var (a, b) := (order[g], order[h]);
    assert a in order && b in order;
    var x := grouped[a][0];
    assert x in grouped[a] && KeyAt(decisions, current, x) == a;
    forall y | 0 <= y < n && KeyAt(decisions, current, y) == b ensures x < y {
      var k :| 0 <= k < |grouped[b]| && grouped[b][k] == y;
      assert Increasing(grouped[b]) && grouped[b][0] <= y;
    }
  }

  /** One group, cut into batches of at most `slots` tasks. */
  method Chunk(before: seq<Batch>, entries: seq<nat>, d: Option<Decision>, key: Key, slots: nat,
               ghost n: nat, ghost decisions: seq<Option<Decision>>, ghost current: string)
    returns (batches: seq<Batch>)
    requires slots >= 1 && GoodGroup(entries, d, key, n, decisions, current)
    requires forall b <- before :: GoodBatch(b, n, slots, decisions, current)
    ensures forall x :: Owners(batches, x) == Owners(before, x) + Times(entries, x)
    ensures forall b <- batches :: GoodBatch(b, n, slots, decisions, current)
    ensures before <= batches && Slices(batches[|before|..], key, slots)
  {
    hide Slices, Ends, GoodBatch;
    batches := before;
    var offset := 0;
    NoSlices(key, slots, entries[0]);
    assert before[|before|..] == [];
    while offset < |entries|
      invariant 0 <= offset <= |entries|
      invariant forall x :: Owners(batches, x) == Owners(before, x) + Times(entries[..offset], x)
      invariant forall b <- batches :: GoodBatch(b, n, slots, decisions, current)
      invariant before <= batches && Slices(batches[|before|..], key, slots)
      invariant offset < |entries| ==> Ends(batches[|before|..], slots, entries[offset])
    {
      var end := if offset + slots < |entries| then offset + slots else |entries|;
      var b := Batch(key, d, entries[offset..end]);
      SliceHomogeneous(entries, offset, end, key, n, decisions, current);
      assert entries[..end] == entries[..offset] + entries[offset..end];
      forall x
        ensures Owners(batches + [b], x) == Owners(before, x) + Times(entries[..end], x)
      {
        OwnersSnoc(batches, b, x);
        TimesConcat(entries[..offset], entries[offset..end], x);
      }
      SlicesNext(batches[|before|..], b, key, slots, entries, offset, end);
      IsGood(b, n, slots, decisions, current);
      assert (batches + [b])[|before|..] == batches[|before|..] + [b];
      batches := batches + [b];
      offset := end;
    }
    assert entries[..|entries|] == entries;
  }

  /** Every task is in exactly one batch; no batch exceeds the slots or mixes keys. */
  method Split(n: nat, slots: nat, decisions: seq<Option<Decision>>, current: string)
    returns (batches: seq<Batch>)
    requires slots >= 1
    ensures Partition(batches, n)
    ensures forall b <- batches :: GoodBatch(b, n, slots, decisions, current)
    ensures Arranged(batches, n, slots, decisions, current)
  {
    hide Listed, GoodGroup, GoodBatch, InOrder, StartsBefore;
    var order, grouped, chosen := Group(n, decisions, current);
    batches := [];
    ghost var rest := order;
    for g := 0 to |order|
      invariant rest == order[g..] && forall k <- rest :: k in grouped
      invariant forall x: nat :: Owners(batches, x) + Gather(rest, grouped, x) == if x < n then 1 else 0
      invariant forall b <- batches :: GoodBatch(b, n, slots, decisions, current)
      invariant Arranged(batches, n, slots, decisions, current) && forall b <- batches :: b.key in order[..g]
    {
      var key := order[g];
      ghost var served := set k | k in order[..g];
      forall k | k in served ensures k != key && StartsBefore(k, key, n, decisions, current) {
        var e :| 0 <= e < g && order[e] == k;
        FirstTasks(order, grouped, chosen, e, g, n, decisions, current);
      }
      ghost var so := batches;
      assert rest[0] == key && GoodGroup(grouped[key], chosen[key], key, n, decisions, current);
      batches := Chunk(batches, grouped[key], chosen[key], key, slots, n, decisions, current);
      ArrangedNext(so, batches[|so|..], key, served, n, slots, decisions, current);
      assert batches == so + batches[|so|..] && order[..g + 1] == order[..g] + [key];
      rest := rest[1..];
    }
  }
}
