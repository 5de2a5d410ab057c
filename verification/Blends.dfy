/** Model blends: sticky round-robin over a list, and Smart Route, which picks the
    first fitting model of the tier a message is judged to need. */
module Blends {
  import opened Wrappers

  // Round-robin.

  /** The position selected at counter value `index`; floor division and modulus. */
  function Position(index: int, sticky: nat, n: nat): (p: nat)
    requires sticky > 0 && n > 0
    ensures p < n
  {
    index / sticky % n
  }

  /** From zero on, each position is selected `sticky` times in a row, in their order. */
  lemma SelectsInBlocks(k: nat, r: nat, sticky: nat, n: nat)
    requires k < n && r < sticky
    ensures Position(k * sticky + r, sticky, n) == k
  {
    DivisionIs(k * sticky + r, sticky, k, r);
    DivisionIs(k, n, 0, k);
  }

  /** How often position `p` is selected by `len` selections from counter `start`. */
  function Picks(start: int, len: nat, sticky: nat, n: nat, p: nat): nat
    requires sticky > 0 && n > 0
  {
    if len == 0 then 0
    else Picks(start, len - 1, sticky, n, p) + (if Position(start + len - 1, sticky, n) == p then 1 else 0)
  }

  lemma DivisionShift(x: int, d: int, k: int)
    requires d > 0
    ensures (x + k * d) / d == x / d + k
  {
    var q, r := x / d, x % d;
    assert x + k * d == (q + k) * d + r;
    DivisionIs(x + k * d, d, q + k, r);
  }

  lemma DivisionIs(x: int, d: int, q: int, r: int)
    requires d > 0 && x == q * d + r && 0 <= r < d
    ensures x / d == q
  {
    var e := x / d - q;
    assert e * d == r - x % d by { assert x == x / d * d + x % d; }
    Multiples(e, d);
  }

  lemma {:induction false} AtLeastOnce(e: nat, d: nat)
    requires e > 0
    ensures e * d >= d
  {
    if e > 1 {
      AtLeastOnce(e - 1, d);
      assert e * d == (e - 1) * d + d;
    }
  }

  lemma Multiples(e: int, d: int)
    requires d > 0
    ensures e > 0 ==> e * d >= d
    ensures e < 0 ==> e * d <= -d
  {
    if e > 0 {
      AtLeastOnce(e, d);
    } else if e < 0 {
      AtLeastOnce(-e, d);
      assert e * d == -((-e) * d);
    }
  }

  /** A whole cycle later the same position is selected. */
  lemma Periodic(index: int, sticky: nat, n: nat)
    requires sticky > 0 && n > 0
    ensures Position(index + n * sticky, sticky, n) == Position(index, sticky, n)
  {
    DivisionShift(index, sticky, n);
    var q := index / sticky;
    DivisionShift(q, n, 1);
    assert (q + n) % n == q % n;
  }

  lemma {:induction false} PickFirst(start: int, len: nat, sticky: nat, n: nat, p: nat)
    requires sticky > 0 && n > 0
    ensures Picks(start, len + 1, sticky, n, p) ==
      (if Position(start, sticky, n) == p then 1 else 0) + Picks(start + 1, len, sticky, n, p)
  {
    if len > 0 {
      PickFirst(start, len - 1, sticky, n, p);
    }
  }

  /** Sliding the window by one trades a selection for its equal. */
  lemma Slide(start: int, sticky: nat, n: nat, p: nat)
    requires sticky > 0 && n > 0
    ensures Picks(start + 1, n * sticky, sticky, n, p) == Picks(start, n * sticky, sticky, n, p)
  {
    PickFirst(start, n * sticky, sticky, n, p);
    Periodic(start, sticky, n);
  }

  lemma {:induction false} AnyStart(start: int, sticky: nat, n: nat, p: nat)
    requires sticky > 0 && n > 0
    ensures Picks(start, n * sticky, sticky, n, p) == Picks(0, n * sticky, sticky, n, p)
    decreases if start < 0 then -start else start
  {
    if start > 0 {
      AnyStart(start - 1, sticky, n, p);
      Slide(start - 1, sticky, n, p);
    } else if start < 0 {
      AnyStart(start + 1, sticky, n, p);
      Slide(start, sticky, n, p);
    }
  }

  /** `r` selections into block `k`, counted from zero. */
  lemma {:induction false} Blocks(k: nat, r: nat, sticky: nat, n: nat, p: nat)
    requires sticky > 0 && k < n && r <= sticky && p < n
    ensures Picks(0, k * sticky + r, sticky, n, p) == if p < k then sticky else if p == k then r else 0
    decreases k, r
  {
    if r > 0 {
      Blocks(k, r - 1, sticky, n, p);
      DivisionIs(k * sticky + r - 1, sticky, k, r - 1);
      DivisionIs(k, n, 0, k);
    } else if k > 0 {
      Blocks(k - 1, sticky, sticky, n, p);
      assert k * sticky == (k - 1) * sticky + sticky;
    }
  }

  /** `n` whole blocks, counted from zero. */
  lemma WholeBlocks(len: nat, sticky: nat, n: nat, p: nat)
    requires sticky > 0 && p < n && len == (n - 1) * sticky + sticky
    ensures Picks(0, len, sticky, n, p) == sticky
  {
    Blocks(n - 1, sticky, sticky, n, p);
  }

  lemma OneMoreBlock(n: nat, sticky: nat)
    requires n > 0
    ensures (n - 1) * sticky + sticky == n * sticky
  {
  }

  /** Any n * sticky consecutive selections pick each of the n positions exactly sticky
      times, from whatever counter value they start. */
  lemma RoundRobinIsFair(start: int, sticky: nat, n: nat, p: nat)
    requires sticky > 0 && p < n
    ensures Picks(start, n * sticky, sticky, n, p) == sticky
  {
    OneMoreBlock(n, sticky);
    WholeBlocks(n * sticky, sticky, n, p);
    AnyStart(start, sticky, n, p);
  }

  // Smart Route.

  datatype Tier = Quick | Normal | Difficult

  function Rank(t: Tier): nat { if t.Quick? then 0 else if t.Normal? then 1 else 2 }

  /** A configured model; `context` is its known length, if it is a positive number. */
  datatype Item = Junk | Item(model: string, context: Option<nat>, reasoning: string)

  datatype Row = Row(model: string, context: Option<nat>, reasoning: string)

  predicate Fits(context: Option<nat>, required: int) { context.Some? ==> required <= context.value }

  predicate Usable(i: Item, required: int) { i.Item? && i.model != "" && Fits(i.context, required) }

  function Eligible(items: seq<Item>, required: int): seq<Row> {
    if items == [] then []
    else
      var i := items[|items| - 1];
      Eligible(items[..|items| - 1], required) +
      (if Usable(i, required) then [Row(i.model, i.context, if i.reasoning == "" then "auto" else i.reasoning)] else [])
  }

  method EligibleSmartModels(items: seq<Item>, required: int) returns (rows: seq<Row>)
    ensures rows == Eligible(items, required)
    ensures rows != [] <==> exists k :: 0 <= k < |items| && Usable(items[k], required)
    ensures forall k | 0 <= k < |rows| :: Fits(rows[k].context, required) && rows[k].model != ""
  {
    rows := [];
    for n := 0 to |items|
      invariant rows == Eligible(items[..n], required)
      invariant rows != [] <==> exists k :: 0 <= k < n && Usable(items[k], required)
      invariant forall k | 0 <= k < |rows| :: Fits(rows[k].context, required) && rows[k].model != ""
    {
      var item := items[n];
      assert items[..n + 1][..n] == items[..n];
      if !item.Item? || item.model == "" { continue; }
      if item.context.Some? && required > item.context.value { continue; }
      rows := rows + [Row(item.model, item.context, if item.reasoning == "" then "auto" else item.reasoning)];
    }
    assert items[..|items|] == items;
  }

  /** The row of an item as it is configured. */
  predicate Takes(row: Row, i: Item) {
    && i.Item? && row.model == i.model && row.context == i.context
    && (i.reasoning != "" ==> row.reasoning == i.reasoning) && (i.reasoning == "" ==> row.reasoning == "auto")
  }

  /** `at` are the places of the items that can be used, and the rows are those in order. */
  ghost predicate Lists(rows: seq<Row>, items: seq<Item>, required: int, at: seq<nat>) {
    && |at| == |rows| && (forall j, k | 0 <= j < k < |at| :: at[j] < at[k])
    && (forall k {:trigger rows[k]} {:trigger at[k]} | 0 <= k < |at| :: at[k] < |items| && Takes(rows[k], items[at[k]]))
    && (forall i | 0 <= i < |items| :: i in at <==> Fitting(items[i], required))
  }

  lemma ListsOneMore(rows: seq<Row>, items: seq<Item>, required: int, at: seq<nat>, i: Item)
    requires Lists(rows, items, required, at)
    ensures !Fitting(i, required) ==> Lists(rows, items + [i], required, at)
    ensures Fitting(i, required) ==> forall row | Takes(row, i) :: Lists(rows + [row], items + [i], required, at + [|items|])
  {
    var all := items + [i];
    assert forall k | 0 <= k < |items| :: all[k] == items[k];
    if Fitting(i, required) {
      forall row | Takes(row, i) ensures Lists(rows + [row], all, required, at + [|items|]) {
        var (more, places) := (rows + [row], at + [|items|]);
        forall k | 0 <= k < |places| ensures places[k] < |all| && Takes(more[k], all[places[k]]) {
          if k < |at| {
            assert more[k] == rows[k] && places[k] == at[k];
          }
        }
        forall k | 0 <= k < |all| ensures k in places <==> Fitting(all[k], required) {
          if k < |items| {
            assert k in places <==> k in at;
          } else {
            assert places[|at|] == k;
          }
        }
      }
    }
  }

  /** The usable items are kept, each as it is configured and in their order. */
  lemma {:induction false} EligibleKeepsOrder(items: seq<Item>, required: int) returns (at: seq<nat>)
    ensures Lists(Eligible(items, required), items, required, at)
  {
    if items == [] {
      at := [];
    } else {
      var (rest, i) := (items[..|items| - 1], items[|items| - 1]);
      assert items == rest + [i];
      at := EligibleKeepsOrder(rest, required);
      ListsOneMore(Eligible(rest, required), rest, required, at, i);
      if Fitting(i, required) {
        at := at + [|rest|];
      }
    }
  }

  /** Item `k` is the first of its group that can be used. */
  predicate FirstFit(items: seq<Item>, required: int, k: nat) {
    && k < |items| && Fitting(items[k], required)
    && forall j | 0 <= j < k :: !Fitting(items[j], required)
  }

  predicate Fitting(i: Item, required: int) {
    match i
    case Junk => false
    case Item(model, context, _) => model != "" && !(context.Some? && context.value < required)
  }

  /** The row is that of the first item that can be used. */
  ghost predicate OfTheFirst(items: seq<Item>, required: int, model: string, context: Option<nat>) {
    exists k: nat :: FirstFit(items, required, k) && items[k].model == model && items[k].context == context
  }

  lemma {:induction false} EligibleStartsWithTheFirst(items: seq<Item>, required: int, k: nat)
    requires FirstFit(items, required, k)
    ensures var rows := Eligible(items, required);
      rows != [] && rows[0].model == items[k].model && rows[0].context == items[k].context
  {
    if k < |items| - 1 {
      assert forall j | 0 <= j <= k :: items[..|items| - 1][j] == items[j];
      EligibleStartsWithTheFirst(items[..|items| - 1], required, k);
    } else {
      NothingFits(items[..k], required);
    }
  }

  lemma {:induction false} NothingFits(items: seq<Item>, required: int)
    ensures Eligible(items, required) == [] <==> forall k | 0 <= k < |items| :: !Fitting(items[k], required)
  {
    if items != [] {
      var last := |items| - 1;
      NothingFits(items[..last], required);
      assert forall k | 0 <= k < last :: items[..last][k] == items[k];
    }
  }

  datatype Groups = Groups(quick: seq<Row>, normal: seq<Row>, difficult: seq<Row>)

  function Of(g: Groups, t: Tier): seq<Row> {
    match t
    case Quick => g.quick
    case Normal => g.normal
    case Difficult => g.difficult
  }

  function Escalation(t: Tier): seq<Tier> {
    match t
    case Quick => [Quick, Normal, Difficult]
    case Normal => [Normal, Difficult, Quick]
    case Difficult => [Difficult, Normal, Quick]
  }

  /** The tier that serves when `wanted` is asked for: the least tier from it upwards
      that has a model, or else the greatest below it. */
  predicate Serves(g: Groups, wanted: Tier, t: Tier) {
    && Of(g, t) != []
    && (Rank(t) >= Rank(wanted) ==>
          forall u: Tier :: Rank(wanted) <= Rank(u) < Rank(t) ==> Of(g, u) == [])
    && (Rank(t) < Rank(wanted) ==>
          forall u: Tier :: Rank(t) < Rank(u) ==> Of(g, u) == [])
  }

  method SelectTier(g: Groups, wanted: Tier) returns (t: Tier)
    requires g.quick != [] || g.normal != [] || g.difficult != []
    ensures Serves(g, wanted, t) && forall u :: Serves(g, wanted, u) ==> u == t
    ensures t ==
      match wanted
      case Quick => if g.quick != [] then Quick else if g.normal != [] then Normal else Difficult
      case Normal => if g.normal != [] then Normal else if g.difficult != [] then Difficult else Quick
      case Difficult => if g.difficult != [] then Difficult else if g.normal != [] then Normal else Quick
  {
    var order := Escalation(wanted);
    var k := 0;
    while Of(g, order[k]) == []
      invariant k < 3 && forall j | 0 <= j < k :: Of(g, order[j]) == []
      decreases 3 - k
    {
      assert k == 2 ==> Of(g, order[0]) == [] && Of(g, order[1]) == [];
      k := k + 1;
    }
    assert k > 0 ==> Of(g, order[0]) == [];
    assert k > 1 ==> Of(g, order[1]) == [];
    t := order[k];
  }

  /** Classifier models in increasing task-cost order. */
  function AllRows(g: Groups): seq<Row> { g.quick + g.normal + g.difficult }

  /** What the first model that answers says; a model that is no key fails. */
  function FirstAnswer(models: seq<string>, answers: map<string, Tier>): Option<Tier> {
    if models == [] then None
    else
      var (before, m) := (FirstAnswer(models[..|models| - 1], answers), models[|models| - 1]);
      if before.Some? then before else if m in answers then Some(answers[m]) else None
  }

  function Models(rows: seq<Row>): seq<string> { seq(|rows|, k requires 0 <= k < |rows| => rows[k].model) }

  /** Each model once, where it first occurs. */
  function Distinct(models: seq<string>): (d: seq<string>)
    ensures forall m :: m in d <==> m in models
  {
    if models == [] then []
    else
      var (d, m) := (Distinct(models[..|models| - 1]), models[|models| - 1]);
      if m in d then d else d + [m]
  }

  lemma {:induction false} MemberAnswers(models: seq<string>, answers: map<string, Tier>, m: string)
    requires m in models && m in answers
    ensures FirstAnswer(models, answers).Some?
  {
    if m != models[|models| - 1] {
      MemberAnswers(models[..|models| - 1], answers, m);
    }
  }

  /** Asking each model once finds the answer the first row would give. */
  lemma {:induction false} AskingOnceIsEnough(models: seq<string>, answers: map<string, Tier>)
    ensures FirstAnswer(Distinct(models), answers) == FirstAnswer(models, answers)
  {
    if models != [] {
      var rest, m := models[..|models| - 1], models[|models| - 1];
      AskingOnceIsEnough(rest, answers);
      var d := Distinct(rest);
      if m in d {
        if m in answers {
          MemberAnswers(d, answers, m);
        }
      } else {
        assert (d + [m])[..|d|] == d;
      }
    }
  }

  lemma {:induction false} FirstAnswerStays(models: seq<string>, answers: map<string, Tier>, n: nat)
    requires n <= |models| && FirstAnswer(models[..n], answers).Some?
    ensures FirstAnswer(models, answers) == FirstAnswer(models[..n], answers)
    decreases |models| - n
  {
    if n == |models| {
      assert models[..n] == models;
    } else {
      assert models[..n + 1][..n] == models[..n];
      FirstAnswerStays(models, answers, n + 1);
    }
  }

  method Classifiers(rows: seq<Row>) returns (models: seq<string>)
    ensures models == Distinct(Models(rows))
  {
    models := [];
    for n := 0 to |rows|
      invariant models == Distinct(Models(rows[..n]))
    {
      assert Models(rows[..n + 1])[..n] == Models(rows[..n]);
      if rows[n].model !in models { models := models + [rows[n].model]; }
    }
    assert rows[..|rows|] == rows;
  }

  /** The first classifier that answers decides; asking stops there. */
  method Classify(rows: seq<Row>, answers: map<string, Tier>) returns (tier: Option<Tier>)
    ensures tier == FirstAnswer(Models(rows), answers)
  {
    var models := Classifiers(rows);
    AskingOnceIsEnough(Models(rows), answers);
    for n := 0 to |models|
      invariant FirstAnswer(models[..n], answers) == None
    {
      assert models[..n + 1][..n] == models[..n];
      if models[n] in answers {
        FirstAnswerStays(models, answers, n + 1);
        return Some(answers[models[n]]);
      }
    }
    assert models[..|models|] == models;
    return None;
  }

  datatype Smart = Smart(quick: seq<Item>, normal: seq<Item>, difficult: seq<Item>, uncertain: Option<Tier>)

  datatype Route = Route(model: string, tier: Tier, context: Option<nat>)

  datatype Error = ContextUnavailable | ModelUnavailable

  function GroupsOf(smart: Smart, required: int): Groups {
    Groups(Eligible(smart.quick, required), Eligible(smart.normal, required), Eligible(smart.difficult, required))
  }

  predicate NoModel(g: Groups) { g.quick == [] && g.normal == [] && g.difficult == [] }

  /** The only tier with models, if there is just one. */
  function OnlyTier(g: Groups): Option<Tier> {
    if g.quick != [] && g.normal == [] && g.difficult == [] then Some(Quick)
    else if g.quick == [] && g.normal != [] && g.difficult == [] then Some(Normal)
    else if g.quick == [] && g.normal == [] && g.difficult != [] then Some(Difficult)
    else None
  }

  lemma {:induction false} LeastFit(items: seq<Item>, required: int, n: nat) returns (k: nat)
    requires n < |items| && Fitting(items[n], required)
    ensures FirstFit(items, required, k)
  {
    if m :| 0 <= m < n && Fitting(items[m], required) {
      k := LeastFit(items, required, m);
    } else {
      k := n;
    }
  }

  lemma FirstOf(items: seq<Item>, required: int)
    requires Eligible(items, required) != []
    ensures OfTheFirst(items, required, Eligible(items, required)[0].model, Eligible(items, required)[0].context)
  {
    NothingFits(items, required);
    var n :| 0 <= n < |items| && Fitting(items[n], required);
    var k := LeastFit(items, required, n);
    EligibleStartsWithTheFirst(items, required, k);
  }

  /** The tier a message asks for: obvious, classified, or by default. */
  function Wanted(g: Groups, smart: Smart, obvious: Option<Tier>, answers: map<string, Tier>): Tier {
    var answer := FirstAnswer(Models(AllRows(g)), answers);
    var uncertain := if smart.uncertain == Some(Normal) then Normal else Difficult;
    if obvious.Some? then obvious.value
    else if answer.Some? then answer.value
    else if OnlyTier(g).Some? then OnlyTier(g).value
    else uncertain
  }

  function ItemsOf(smart: Smart, t: Tier): seq<Item> {
    match t
    case Quick => smart.quick
    case Normal => smart.normal
    case Difficult => smart.difficult
  }

  /** In increasing task cost: an earlier group, or an earlier place in the same one. */
  predicate Earlier(u: Tier, j: nat, t: Tier, k: nat) {
    (u == t && j < k) || (u != t && (u.Quick? || t.Difficult?))
  }

  /** A usable model at place `k` of group `t` answers. */
  predicate AnswersAt(smart: Smart, required: int, answers: map<string, Tier>, t: Tier, k: nat) {
    k < |ItemsOf(smart, t)| && Fitting(ItemsOf(smart, t)[k], required) && ItemsOf(smart, t)[k].model in answers
  }

  predicate HasFitting(smart: Smart, required: int, t: Tier) {
    exists k | 0 <= k < |ItemsOf(smart, t)| :: Fitting(ItemsOf(smart, t)[k], required)
  }

  lemma {:induction false} FirstAnswerOfBoth(a: seq<string>, b: seq<string>, answers: map<string, Tier>)
    ensures FirstAnswer(a + b, answers) ==
      if FirstAnswer(a, answers).Some? then FirstAnswer(a, answers) else FirstAnswer(b, answers)
    decreases |b|
  {
    if b == [] {
      assert a + b == a;
    } else {
      FirstAnswerOfBoth(a, b[..|b| - 1], answers);
      assert (a + b)[..|a + b| - 1] == a + b[..|b| - 1];
    }
  }

  /** What a group's own models say. */
  function Says(items: seq<Item>, required: int, answers: map<string, Tier>): Option<Tier> {
    FirstAnswer(Models(Eligible(items, required)), answers)
  }

  lemma {:induction false} GroupAnswers(items: seq<Item>, required: int, answers: map<string, Tier>)
    ensures Says(items, required, answers).None? <==>
      forall k | 0 <= k < |items| :: Fitting(items[k], required) ==> items[k].model !in answers
    ensures forall k | 0 <= k < |items| && Fitting(items[k], required) && items[k].model in answers ::
      (forall j | 0 <= j < k :: Fitting(items[j], required) ==> items[j].model !in answers) ==>
        Says(items, required, answers) == Some(answers[items[k].model])
  {
    if items != [] {
      var (rest, i) := (items[..|items| - 1], items[|items| - 1]);
      GroupAnswers(rest, required, answers);
      var (rows, all) := (Models(Eligible(rest, required)), Models(Eligible(items, required)));
      assert all == if Usable(i, required) then rows + [i.model] else rows;
      assert Usable(i, required) ==> all[..|rows|] == rows;
      assert forall k | 0 <= k < |rest| :: rest[k] == items[k];
    }
  }

  lemma AllRowsSay(g: Groups, smart: Smart, required: int, answers: map<string, Tier>)
    requires g == GroupsOf(smart, required)
    ensures var (q, n) := (Says(smart.quick, required, answers), Says(smart.normal, required, answers));
      FirstAnswer(Models(AllRows(g)), answers) ==
        if q.Some? then q else if n.Some? then n else Says(smart.difficult, required, answers)
  {
    var (q, n, d) := (Models(g.quick), Models(g.normal), Models(g.difficult));
    assert Models(AllRows(g)) == q + n + d;
    FirstAnswerOfBoth(q + n, d, answers);
    FirstAnswerOfBoth(q, n, answers);
  }

  /** The tier a message asks for: the obvious one; or else what the first usable model
      that answers says, by group and then by place; or else the only group with a usable
      model; or else the configured default. */
  lemma WantedByCases(smart: Smart, required: int, obvious: Option<Tier>, answers: map<string, Tier>, t: Tier, k: nat)
    ensures var wanted := Wanted(GroupsOf(smart, required), smart, obvious, answers);
      && (obvious.Some? ==> wanted == obvious.value)
      && (obvious.None? && AnswersAt(smart, required, answers, t, k) &&
          (forall u, j | Earlier(u, j, t, k) :: !AnswersAt(smart, required, answers, u, j)) ==>
            wanted == answers[ItemsOf(smart, t)[k].model])
      && (obvious.None? && (forall u, j :: !AnswersAt(smart, required, answers, u, j)) ==>
            && (HasFitting(smart, required, t) && (forall u | u != t :: !HasFitting(smart, required, u)) ==> wanted == t)
            && ((exists u | u != t :: HasFitting(smart, required, u) && HasFitting(smart, required, t)) ==>
                  wanted == if smart.uncertain == Some(Normal) then Normal else Difficult))
  {
    var g := GroupsOf(smart, required);
    AllRowsSay(g, smart, required, answers);
    GroupFits(smart, required, answers, Quick);
    GroupFits(smart, required, answers, Normal);
    GroupFits(smart, required, answers, Difficult);
    if AnswersAt(smart, required, answers, t, k) &&
       forall u, j | Earlier(u, j, t, k) :: !AnswersAt(smart, required, answers, u, j) {
      FirstToAnswer(smart, required, answers, t, k);
    }
  }

  /** A group with its usable models and what they say. */
  lemma GroupFits(smart: Smart, required: int, answers: map<string, Tier>, t: Tier)
    ensures Of(GroupsOf(smart, required), t) != [] <==> HasFitting(smart, required, t)
    ensures Says(ItemsOf(smart, t), required, answers).None? <==> forall j :: !AnswersAt(smart, required, answers, t, j)
  {
    NothingFits(ItemsOf(smart, t), required);
    GroupAnswers(ItemsOf(smart, t), required, answers);
    assert forall j | 0 <= j < |ItemsOf(smart, t)| ::
      AnswersAt(smart, required, answers, t, j) <==>
      Fitting(ItemsOf(smart, t)[j], required) && ItemsOf(smart, t)[j].model in answers;
  }

  lemma FirstToAnswer(smart: Smart, required: int, answers: map<string, Tier>, t: Tier, k: nat)
    requires AnswersAt(smart, required, answers, t, k)
    requires forall u, j | Earlier(u, j, t, k) :: !AnswersAt(smart, required, answers, u, j)
    ensures Says(ItemsOf(smart, t), required, answers) == Some(answers[ItemsOf(smart, t)[k].model])
    ensures forall u | u != t && (u.Quick? || t.Difficult?) :: Says(ItemsOf(smart, u), required, answers).None?
  {
    var items := ItemsOf(smart, t);
    GroupAnswers(items, required, answers);
    forall j | 0 <= j < k ensures Fitting(items[j], required) ==> items[j].model !in answers {
      assert Earlier(t, j, t, k) && !AnswersAt(smart, required, answers, t, j);
    }
    forall u | u != t && (u.Quick? || t.Difficult?) ensures Says(ItemsOf(smart, u), required, answers).None? {
      GroupFits(smart, required, answers, u);
      forall j: nat ensures !AnswersAt(smart, required, answers, u, j) {
        assert Earlier(u, j, t, k);
      }
    }
  }

  /** A route exists exactly when some configured model is usable; it is the first usable
      model of the tier that serves, and never one whose known context is too short. */
  method ResolveSmartRoute(smart: Option<Smart>, required: int, obvious: Option<Tier>, answers: map<string, Tier>)
      returns (route: Result<Option<Route>, Error>)
    ensures route == Ok(None) <==> smart.None?
    ensures route == Err(ContextUnavailable) <==>
      smart.Some? && (forall k | 0 <= k < |smart.value.quick| :: !Usable(smart.value.quick[k], required)) &&
      (forall k | 0 <= k < |smart.value.normal| :: !Usable(smart.value.normal[k], required)) &&
      (forall k | 0 <= k < |smart.value.difficult| :: !Usable(smart.value.difficult[k], required))
    ensures route.Err? ==> route.error == ContextUnavailable
    ensures route.Ok? && route.value.Some? ==>
      var g, r := GroupsOf(smart.value, required), route.value.value;
      && Serves(g, Wanted(g, smart.value, obvious, answers), r.tier)
      && r.model == Of(g, r.tier)[0].model && r.context == Of(g, r.tier)[0].context
    ensures route.Ok? && route.value.Some? ==>
      var r := route.value.value;
      && r.model != "" && (r.context.Some? ==> required <= r.context.value)
      && OfTheFirst(ItemsOf(smart.value, r.tier), required, r.model, r.context)
  {
    hide Eligible, FirstAnswer, Serves, OfTheFirst;
    if smart.None? { return Ok(None); }
    var quick := EligibleSmartModels(smart.value.quick, required);
    var normal := EligibleSmartModels(smart.value.normal, required);
    var difficult := EligibleSmartModels(smart.value.difficult, required);
    var g := Groups(quick, normal, difficult);
    if NoModel(g) { return Err(ContextUnavailable); }
    var uncertain := if smart.value.uncertain == Some(Normal) then Normal else Difficult;
    var tier;
    if obvious.Some? {
      tier := obvious.value;
    } else {
      tier := if OnlyTier(g).Some? then OnlyTier(g).value else uncertain;
      var answer := Classify(AllRows(g), answers);
      if answer.Some? { tier := answer.value; }
    }
    var selected := SelectTier(g, tier);
    var row := Of(g, selected)[0];
    FirstOf(ItemsOf(smart.value, selected), required);
    return Ok(Some(Route(row.model, selected, row.context)));
  }

  // All blends.

  datatype Strategy = Priority | RoundRobin | Fusion

  datatype Combo = Combo(id: string, models: seq<string>, strategy: Strategy, judge: string)

  class BlendState {
    var counters: map<string, int>
    var stickyLimit: int

    constructor (sticky: int)
      ensures counters == map[] && stickyLimit == sticky
    {
      counters, stickyLimit := map[], sticky;
    }

    function Counter(id: string): (index: int)
      reads this
      ensures id !in counters ==> index == 0
    {
      if id in counters then counters[id] else 0
    }

    function Sticky(): (s: nat)
      reads this
      ensures s >= 1 && (stickyLimit >= 1 ==> s == stickyLimit) && (stickyLimit < 1 ==> s == 1)
    {
      if stickyLimit < 1 then 1 else stickyLimit
    }

    /** The stored selection of a blend without Smart Route; empty names are skipped. */
    method ResolveBlendRoute(combo: Combo, ghost named: seq<string>) returns (model: Result<string, Error>)
      requires named == NonEmpty(combo.models)
      modifies this`counters
      ensures model.Err? <==> named == []
      ensures model.Err? ==> model.error == ModelUnavailable && counters == old(counters)
      ensures model.Ok? && combo.strategy == RoundRobin ==>
        && model.value == named[Position(old(Counter(combo.id)), Sticky(), |named|)]
        && counters == old(counters)[combo.id := old(Counter(combo.id)) + 1]
      ensures model.Ok? && combo.strategy != RoundRobin ==>
        && counters == old(counters)
        && model.value == if combo.strategy == Fusion && combo.judge != "" then combo.judge else named[0]
    {
      var models := [];
      for n := 0 to |combo.models|
        invariant models == NonEmpty(combo.models[..n]) && counters == old(counters)
      {
        assert combo.models[..n + 1][..n] == combo.models[..n];
        if combo.models[n] != "" { models := models + [combo.models[n]]; }
      }
      assert combo.models[..|combo.models|] == combo.models;
      if models == [] { return Err(ModelUnavailable); }
      if combo.strategy == RoundRobin {
        var index := Counter(combo.id);
        model := Ok(models[Position(index, Sticky(), |models|)]);
        counters := counters[combo.id := index + 1];
      } else if combo.strategy == Fusion && combo.judge != "" {
        model := Ok(combo.judge);
      } else {
        model := Ok(models[0]);
      }
    }
  }

  function NonEmpty(models: seq<string>): seq<string> {
    if models == [] then []
    else NonEmpty(models[..|models| - 1]) + (if models[|models| - 1] != "" then [models[|models| - 1]] else [])
  }

  /** Exactly the names that are not empty, in their order. */
  lemma {:induction false} NonEmptyKeepsOrder(models: seq<string>) returns (at: seq<nat>)
    ensures |at| == |NonEmpty(models)| && forall j, k | 0 <= j < k < |at| :: at[j] < at[k]
    ensures forall k | 0 <= k < |at| :: at[k] < |models| && NonEmpty(models)[k] == models[at[k]]
    ensures forall i | 0 <= i < |models| :: i in at <==> models[i] != ""
  {
    if models == [] {
      at := [];
    } else {
      var last := |models| - 1;
      var before := NonEmptyKeepsOrder(models[..last]);
      at := before;
      if models[last] != "" {
        at := at + [last];
        assert at[|before|] == last;
      }
      forall i | 0 <= i < |models| ensures i in at <==> models[i] != "" {
        assert i < last ==> models[..last][i] == models[i] && (i in at <==> i in before);
      }
    }
  }
}
