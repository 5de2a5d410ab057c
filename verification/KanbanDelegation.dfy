/** Durable bindings of native tasks to team executions: receipts arrive late,
    repeatedly and out of order, and are folded into one monotone record. */
module KanbanDelegation {
  import opened Wrappers

  const MAX_RECEIPT := 1000000
  const PAGE := 100

  datatype Status = Pending | Completed | Failed | Cancelled | Other(tag: nat)

  predicate Terminal(s: Status) { s.Completed? || s.Failed? || s.Cancelled? }

  /** A public receipt; `size` is the length of its encoding, `revision` 0 if it has none. */
  datatype Receipt = Receipt(id: string, status: Status, revision: int, body: nat, size: nat)

  /** One row; an empty `execution` stands for NULL as well. */
  datatype Binding = Binding(
    team: string, teamRevision: string, source: Option<string>, key: Option<string>,
    execution: string, status: Status, cancelRequested: bool, error: Option<bool>,
    receipt: Option<Receipt>, created: bool)

  datatype Error = OtherTeam | TooLarge | Unbound | IdentityChanged

  datatype Step =
    | Bind(team: string, teamRevision: string, intent: bool)
    | FinishCreation
    | Prepare(revision: string, key: string)
    | RequestCancel
    | Record(receipt: Receipt)
    | RecordError(denied: bool)

  function StoredRevision(b: Binding): int { if b.receipt.Some? then b.receipt.value.revision else 0 }

  function Refusal(row: Option<Binding>, s: Step): Option<Error> {
    match s
    case Bind(team, teamRevision, _) =>
      if row.Some? && (row.value.team, row.value.teamRevision) != (team, teamRevision) then Some(OtherTeam) else None
    case Record(receipt) =>
      if receipt.size > MAX_RECEIPT then Some(TooLarge)
      else if row.None? then Some(Unbound)
      else if row.value.execution != "" && row.value.execution != receipt.id then Some(IdentityChanged)
      else None
    case _ => None
  }

  /** The receipt is older than the stored one, or would reopen a closed execution. */
  predicate Stale(b: Binding, r: Receipt) {
    (Terminal(b.status) && !Terminal(r.status)) || StoredRevision(b) > r.revision
  }

  function Apply(row: Option<Binding>, s: Step): Option<Binding> {
    if Refusal(row, s).Some? then row
    else match s
      case Bind(team, teamRevision, intent) =>
        if row.Some? then row
        else Some(Binding(team, teamRevision, None, None, "", Pending, false, None, None, !intent))
      case _ =>
        if row.None? then None
        else
          var b := row.value;
          Some(match s
               case FinishCreation => b.(created := true)
               case Prepare(revision, key) => if b.key.Some? then b else b.(source := Some(revision), key := Some(key))
               case RequestCancel => b.(cancelRequested := true)
               case Record(r) =>
                 if Stale(b, r) then b
                 else b.(execution := r.id, status := r.status, receipt := Some(r), error := None)
               case RecordError(denied) => b.(error := Some(denied))
               case Bind(_, _, _) => b)
  }

  /** Nothing more is to come of an execution in this state. */
  predicate Closed(s: Status) {
    match s
    case Pending => false
    case Completed | Failed | Cancelled => true
    case Other(_) => false
  }

  /** A receipt is stored exactly if it is small enough, names the execution that is bound
      or the first one, does not reopen a closed execution and is no older than the last;
      it then replaces the last one, clears the error, and leaves all else as it was. */
  lemma ReceiptByCases(b: Binding, r: Receipt)
    ensures var after := Apply(Some(b), Record(r));
      var stored := r.size <= 1000000 && (b.execution == "" || b.execution == r.id) &&
        !(Closed(b.status) && !Closed(r.status)) && (b.receipt.Some? ==> b.receipt.value.revision <= r.revision) &&
        (b.receipt.None? ==> 0 <= r.revision);
      after == Some(
        if !stored then b
        else Binding(b.team, b.teamRevision, b.source, b.key, r.id, r.status, b.cancelRequested, None, Some(r), b.created))
    ensures var why := Refusal(Some(b), Record(r));
      && (why == Some(TooLarge) <==> 1000000 < r.size)
      && (why == Some(IdentityChanged) <==> r.size <= 1000000 && b.execution != "" && r.id != b.execution)
      && (why == None <==> r.size <= 1000000 && (b.execution == "" || r.id == b.execution))
  {
  }

  /** What the other calls leave: a first binding is bare, a key is set once, and each of
      the rest sets its own column. */
  lemma CallsByCases(
    b: Binding, team: string, teamRevision: string, intent: bool, revision: string, key: string, denied: bool)
    ensures Apply(None, Bind(team, teamRevision, intent)) ==
      Some(Binding(team, teamRevision, None, None, "", Pending, false, None, None, intent == false))
    ensures Apply(Some(b), Bind(team, teamRevision, intent)) == Some(b)
    ensures Refusal(Some(b), Bind(team, teamRevision, intent)) == None <==> team == b.team && teamRevision == b.teamRevision
    ensures b.key == None ==> Apply(Some(b), Prepare(revision, key)) == Some(b.(source := Some(revision), key := Some(key)))
    ensures b.key != None ==> Apply(Some(b), Prepare(revision, key)) == Some(b)
    ensures Apply(Some(b), FinishCreation) == Some(b.(created := true))
    ensures Apply(Some(b), RequestCancel) == Some(b.(cancelRequested := true))
    ensures Apply(Some(b), RecordError(denied)) == Some(b.(error := Some(denied)))
  {
  }

  /** What may never be undone. */
  predicate Grows(before: Option<Binding>, after: Option<Binding>) {
    before.Some? ==>
      after.Some? &&
      var (b, a) := (before.value, after.value);
      && a.team == b.team && a.teamRevision == b.teamRevision
      && (b.key.Some? ==> a.key == b.key && a.source == b.source)
      && (b.execution != "" ==> a.execution == b.execution)
      && StoredRevision(b) <= StoredRevision(a)
      && (Terminal(b.status) ==> Terminal(a.status))
      && (b.cancelRequested ==> a.cancelRequested)
      && (b.created ==> a.created)
      && (b.receipt.Some? ==> a.receipt.Some?)
  }

  /** The stored columns agree with the stored receipt. */
  predicate Coherent(row: Option<Binding>) {
    row.Some? ==>
      if row.value.receipt.Some? then
        var r := row.value.receipt.value;
        r.size <= MAX_RECEIPT && row.value.execution == r.id && row.value.status == r.status && r.revision >= 0
      else row.value.execution == "" && row.value.status == Pending
  }

  function End(row: Option<Binding>, run: seq<Step>): Option<Binding> {
    if run == [] then row else Apply(End(row, run[..|run| - 1]), run[|run| - 1])
  }

  lemma StepGrows(row: Option<Binding>, s: Step)
    requires Coherent(row)
    ensures Grows(row, Apply(row, s)) && Coherent(Apply(row, s))
  {
  }

  lemma GrowsOn(a: Option<Binding>, b: Option<Binding>, c: Option<Binding>)
    requires Grows(a, b) && Grows(b, c)
    ensures Grows(a, c)
  {
  }

  /** Over any sequence of calls, refused ones included: the team binding, the admission
      key and a non-empty execution id are write-once, the stored revision never falls,
      and a terminal status stays terminal. */
  lemma {:induction false} RunGrows(row: Option<Binding>, run: seq<Step>, n: nat)
    requires Coherent(row) && n <= |run|
    ensures Grows(End(row, run[..n]), End(row, run))
    ensures Coherent(End(row, run))
    decreases |run|
  {
    if run != [] {
      var last := |run| - 1;
      var m := if n < |run| then n else 0;
      RunGrows(row, run[..last], m);
      StepGrows(End(row, run[..last]), run[last]);
      if n < |run| {
        assert run[..last][..n] == run[..n];
        GrowsOn(End(row, run[..n]), End(row, run[..last]), End(row, run));
      } else {
        assert run[..n] == run;
      }
    }
  }

  // Out-of-order delivery.

  /** The receipts of one execution, as its service issues them: a revision names one
      receipt, and once terminal every later revision is terminal. */
  predicate Issued(receipts: seq<Receipt>) {
    forall i, j | 0 <= i < |receipts| && 0 <= j < |receipts| ::
      && receipts[i].id == receipts[j].id
      && (receipts[i].revision == receipts[j].revision ==> receipts[i] == receipts[j])
      && (Terminal(receipts[i].status) && receipts[i].revision <= receipts[j].revision ==> Terminal(receipts[j].status))
  }

  predicate Deliverable(receipts: seq<Receipt>) {
    forall i | 0 <= i < |receipts| :: receipts[i].id != "" && receipts[i].size <= MAX_RECEIPT && receipts[i].revision >= 0
  }

  predicate Untouched(b: Binding) { b.receipt.None? && b.execution == "" && b.status == Pending }

  function Records(receipts: seq<Receipt>): seq<Step> {
    seq(|receipts|, i requires 0 <= i < |receipts| => Record(receipts[i]))
  }

  predicate Latest(receipts: seq<Receipt>, r: Receipt) {
    r in receipts && forall i | 0 <= i < |receipts| :: receipts[i].revision <= r.revision
  }

  /** The record holds the latest of the receipts delivered so far. */
  predicate Holds(row: Option<Binding>, receipts: seq<Receipt>) {
    && row.Some? && row.value.receipt.Some? && Latest(receipts, row.value.receipt.value)
    && row.value.execution == row.value.receipt.value.id && row.value.status == row.value.receipt.value.status
  }

  lemma HoldsOneMore(row: Option<Binding>, rest: seq<Receipt>, r: Receipt)
    requires Holds(row, rest) && Issued(rest + [r]) && Deliverable(rest + [r])
    ensures Holds(Apply(row, Record(r)), rest + [r])
  {
    var all := rest + [r];
    var held := row.value.receipt.value;
    var i :| 0 <= i < |rest| && rest[i] == held;
    assert all[i] == held && all[|rest|] == r;
    forall k | 0 <= k < |all| ensures all[k].revision <= Max(held.revision, r.revision) {
      assert k < |rest| ==> all[k] == rest[k];
    }
  }

  function Max(a: int, b: int): int { if a < b then b else a }

  lemma {:induction false} RecordsSnoc(row: Option<Binding>, rest: seq<Receipt>, r: Receipt)
    ensures End(row, Records(rest + [r])) == Apply(End(row, Records(rest)), Record(r))
  {
    assert Records(rest + [r])[..|rest|] == Records(rest);
  }

  /** However the receipts arrive, the record ends as the one with the greatest revision. */
  lemma {:induction false} DeliveryOrderDoesNotMatter(b: Binding, receipts: seq<Receipt>)
    requires Issued(receipts) && Deliverable(receipts) && receipts != []
    requires Untouched(b)
    ensures Holds(End(Some(b), Records(receipts)), receipts)
  {
    var (rest, r) := (receipts[..|receipts| - 1], receipts[|receipts| - 1]);
    assert receipts == rest + [r];
    RecordsSnoc(Some(b), rest, r);
    if rest == [] {
      FirstIsHeld(b, r);
    } else {
      DeliveryOrderDoesNotMatter(b, rest);
      HoldsOneMore(End(Some(b), Records(rest)), rest, r);
    }
  }

  lemma {:induction false} FirstIsHeld(b: Binding, r: Receipt)
    requires Deliverable([r]) && Untouched(b)
    ensures Holds(Apply(Some(b), Record(r)), [r]) && End(Some(b), Records([])) == Some(b)
  {
    assert [r][0] == r;
  }

  /** A fresh record takes the receipt: it is neither too large nor of a negative revision. */
  predicate Storable(r: Receipt) { r.size <= MAX_RECEIPT && r.revision >= 0 }

  /** Two receipts of one execution give the same record in both orders exactly when one of
      them is never stored, they are the same, the later revision is terminal if the
      earlier one is, or at equal revisions exactly one of them is terminal. */
  lemma OrderMattersExactlyAfterATerminal(b: Binding, r: Receipt, s: Receipt)
    requires r.id == s.id
    requires Untouched(b)
    ensures Apply(Apply(Some(b), Record(r)), Record(s)) == Apply(Apply(Some(b), Record(s)), Record(r)) <==>
      || !Storable(r) || !Storable(s) || r == s
      || (r.revision < s.revision && (Terminal(r.status) ==> Terminal(s.status)))
      || (s.revision < r.revision && (Terminal(s.status) ==> Terminal(r.status)))
      || (r.revision == s.revision && Terminal(r.status) != Terminal(s.status))
  {
    if Storable(r) && Storable(s) {
      if r.revision < s.revision {
        LaterWinsUnlessBarred(b, r, s);
      } else if s.revision < r.revision {
        LaterWinsUnlessBarred(b, s, r);
      }
    }
  }

  lemma LaterWinsUnlessBarred(b: Binding, r: Receipt, s: Receipt)
    requires Storable(r) && Storable(s) && r.id == s.id && r.revision < s.revision
    requires Untouched(b)
    ensures Apply(Apply(Some(b), Record(r)), Record(s)).value.receipt ==
      Some(if Terminal(r.status) && !Terminal(s.status) then r else s)
    ensures Apply(Apply(Some(b), Record(s)), Record(r)).value.receipt == Some(s)
  {
  }

  /** Two deliveries of the same receipts, in whatever order and multiplicity, store the same one. */
  lemma {:induction false} DeliveriesAgree(b: Binding, first: seq<Receipt>, second: seq<Receipt>)
    requires first != [] && Issued(first) && Deliverable(first) && Issued(second) && Deliverable(second)
    requires forall r :: r in first <==> r in second
    requires Untouched(b)
    ensures Holds(End(Some(b), Records(first)), first) && Holds(End(Some(b), Records(second)), second)
    ensures End(Some(b), Records(first)).value.receipt == End(Some(b), Records(second)).value.receipt
  {
    assert first[0] in second;
    DeliveryOrderDoesNotMatter(b, first);
    DeliveryOrderDoesNotMatter(b, second);
    var x := End(Some(b), Records(first)).value.receipt.value;
    var y := End(Some(b), Records(second)).value.receipt.value;
    var i :| 0 <= i < |first| && first[i] == x;
    assert y in first;
    var j :| 0 <= j < |first| && first[j] == y;
    assert x in second && y in second;
  }

  // Any receipts at all, issued with or without discipline.

  /** A receipt that beats every other one that is ever stored: none has a greater
      revision, only a non-terminal one shares its revision, and then it is terminal,
      as it is when any is. */
  predicate Top(receipts: seq<Receipt>, m: Receipt) {
    && m in receipts && Storable(m)
    && forall x | x in receipts && Storable(x) ::
         && (Terminal(x.status) ==> Terminal(m.status))
         && (x == m || x.revision < m.revision
             || (x.revision == m.revision && Terminal(m.status) && !Terminal(x.status)))
  }

  predicate OfOne(receipts: seq<Receipt>, id: string) { forall r | r in receipts :: r.id == id }

  ghost predicate SameReceipts(a: seq<Receipt>, b: seq<Receipt>) { forall r :: r in a <==> r in b }

  function Stored(b: Binding, receipts: seq<Receipt>): Option<Receipt> {
    var row := End(Some(b), Records(receipts));
    if row.Some? then row.value.receipt else None
  }

  /** After any delivery the row holds one of the storable receipts delivered, or is untouched. */
  lemma {:induction false} StoredIsDelivered(b: Binding, receipts: seq<Receipt>, id: string)
    requires OfOne(receipts, id) && Untouched(b)
    ensures End(Some(b), Records(receipts)).Some?
    ensures var row := End(Some(b), Records(receipts)).value;
      if row.receipt.Some? then
        var r := row.receipt.value;
        r in receipts && Storable(r) && row.execution == r.id == id && row.status == r.status
      else Untouched(row) && forall x | x in receipts :: !Storable(x)
    decreases |receipts|
  {
    if receipts != [] {
      var (rest, r) := (receipts[..|receipts| - 1], receipts[|receipts| - 1]);
      assert receipts == rest + [r] && r in receipts;
      assert forall x | x in receipts :: x in rest || x == r;
      RecordsSnoc(Some(b), rest, r);
      StoredIsDelivered(b, rest, id);
    }
  }

  /** Once the top receipt has arrived it is what the row holds. */
  lemma {:induction false} TopIsStored(b: Binding, all: seq<Receipt>, delivered: seq<Receipt>, m: Receipt, id: string)
    requires OfOne(all, id) && Untouched(b) && Top(all, m)
    requires forall x | x in delivered :: x in all
    ensures m in delivered ==> Stored(b, delivered) == Some(m)
    decreases |delivered|
  {
    if delivered != [] {
      var (rest, r) := (delivered[..|delivered| - 1], delivered[|delivered| - 1]);
      assert delivered == rest + [r] && r in delivered;
      assert forall x | x in delivered :: x in rest || x == r;
      RecordsSnoc(Some(b), rest, r);
      StoredIsDelivered(b, rest, id);
      TopIsStored(b, all, rest, m, id);
    }
  }

  /** A storable receipt delivered first bounds what is stored in the end. */
  lemma FirstBoundsStored(b: Binding, x: Receipt, receipts: seq<Receipt>, id: string)
    requires Untouched(b) && Storable(x) && x.id == id && OfOne(receipts, id)
    ensures Stored(b, [x] + receipts).Some?
    ensures var f := Stored(b, [x] + receipts).value;
      x.revision <= f.revision && (Terminal(x.status) ==> Terminal(f.status))
  {
    var all := [x] + receipts;
    assert x in all && forall y | y in all :: y == x || y in receipts;
    StoredIsDelivered(b, all, id);
    var run := Records(all);
    RunGrows(Some(b), run, 1);
    assert run[..1] == [Record(x)] && run[..1][..0] == [];
    assert End(Some(b), run[..1]) == Apply(End(Some(b), []), Record(x)) == Apply(Some(b), Record(x));
  }

  /** A storable receipt delivered last is stored unless an older or a terminal one bars it. */
  lemma LastIsStored(b: Binding, receipts: seq<Receipt>, x: Receipt, id: string)
    requires Untouched(b) && Storable(x) && x.id == id && OfOne(receipts, id)
    requires Stored(b, receipts).Some?
    ensures var f := Stored(b, receipts).value;
      f.revision <= x.revision && (Terminal(f.status) ==> Terminal(x.status))
      ==> Stored(b, receipts + [x]) == Some(x)
  {
    StoredIsDelivered(b, receipts, id);
    RecordsSnoc(Some(b), receipts, x);
  }

  /** Every delivery of these receipts, in any order and with any repetition, stores the
      same one exactly when none of them can be stored or one of them tops the others. */
  lemma DeliveriesAgreeExactlyWithATop(b: Binding, receipts: seq<Receipt>, id: string)
    requires OfOne(receipts, id) && Untouched(b)
    ensures (forall a, c | SameReceipts(a, receipts) && SameReceipts(c, receipts) :: Stored(b, a) == Stored(b, c))
      <==> (forall x | x in receipts :: !Storable(x)) || exists m :: Top(receipts, m)
  {
    if (forall x | x in receipts :: !Storable(x)) || exists m :: Top(receipts, m) {
      forall a, c | SameReceipts(a, receipts) && SameReceipts(c, receipts) ensures Stored(b, a) == Stored(b, c) {
        StoredIsDelivered(b, a, id);
        StoredIsDelivered(b, c, id);
        if m :| Top(receipts, m) {
          TopIsStored(b, receipts, a, m, id);
          TopIsStored(b, receipts, c, m, id);
        }
      }
    } else {
      var x :| x in receipts && Storable(x);
      NoTopNoAgreement(b, receipts, id, x);
    }
  }

  lemma NoTopNoAgreement(b: Binding, receipts: seq<Receipt>, id: string, first: Receipt)
    requires OfOne(receipts, id) && Untouched(b) && first in receipts && Storable(first)
    requires !exists m :: Top(receipts, m)
    ensures exists a, c :: SameReceipts(a, receipts) && SameReceipts(c, receipts) && Stored(b, a) != Stored(b, c)
  {
    StoredIsDelivered(b, receipts, id);
    var f := Stored(b, receipts).value;
    assert SameReceipts(receipts, receipts);
    assert !Top(receipts, f);
    var x :| x in receipts && Storable(x) && !(
      && (Terminal(x.status) ==> Terminal(f.status))
      && (x == f || x.revision < f.revision
          || (x.revision == f.revision && Terminal(f.status) && !Terminal(x.status))));
    FirstBoundsStored(b, x, receipts, id);
    LastIsStored(b, receipts, x, id);
    assert SameReceipts([x] + receipts, receipts);
    assert SameReceipts(receipts + [x], receipts);
    assert Stored(b, [x] + receipts) != Some(f) || Stored(b, receipts + [x]) != Some(f);
  }

  // The reconciler's work list.

  /** The WHERE clause shared by both queries. */
  predicate Unresolved(b: Binding, ready: bool) { !b.created || ready || (b.key.Some? && !Terminal(b.status)) }

  /** A task is worked on while it is not fully created, is ready, or has been admitted and
      its execution is not closed. */
  lemma UnresolvedByCases(b: Binding, ready: bool)
    ensures Unresolved(b, ready) <==>
      !(b.created && !ready && (b.key == None || Closed(b.status)))
  {
  }

  predicate InFlight(row: Option<Binding>) { row.Some? && row.value.key.Some? && !Terminal(row.value.status) }

  /** The page holds the wanted tasks at the places `at` among the first `n`, in order, and
      leaves none out but behind a full page. */
  predicate FirstOf(page: seq<string>, order: seq<string>, wanted: seq<bool>, at: seq<nat>, n: nat) {
    && n <= |order| == |wanted| && |at| == |page| && (forall j, k | 0 <= j < k < |at| :: at[j] < at[k])
    && (forall k | 0 <= k < |at| :: at[k] < n && page[k] == order[at[k]] && wanted[at[k]])
    && (forall i | 0 <= i < n && wanted[i] :: i in at || (|at| == PAGE && forall k | 0 <= k < |at| :: at[k] < i))
  }

  lemma NothingOnThePage(order: seq<string>, wanted: seq<bool>)
    requires |order| == |wanted|
    ensures FirstOf([], order, wanted, [], 0)
  {
  }

  lemma OneMorePassedOver(page: seq<string>, order: seq<string>, wanted: seq<bool>, at: seq<nat>, n: nat)
    requires n < |order| && FirstOf(page, order, wanted, at, n) && !wanted[n]
    ensures FirstOf(page, order, wanted, at, n + 1)
  {
  }

  lemma OneMoreOnThePage(page: seq<string>, order: seq<string>, wanted: seq<bool>, at: seq<nat>, n: nat)
    requires n < |order| && |page| < PAGE && FirstOf(page, order, wanted, at, n) && wanted[n]
    ensures FirstOf(page + [order[n]], order, wanted, at + [n], n + 1)
    ensures |page| + 1 == PAGE ==> FirstOf(page + [order[n]], order, wanted, at + [n], |order|)
  {
    var places := at + [n];
    forall i | 0 <= i <= n && wanted[i] ensures i in places {
      assert places[|at|] == n && (i < n ==> i in at);
    }
  }

  class Ledger {
    var rows: map<string, Binding>

    function Row(task: string): Option<Binding>
      reads this
    {
      if task in rows then Some(rows[task]) else None
    }

    /** Only the row of `task` moves, by one step. */
    twostate predicate Moved(task: string, s: Step)
      reads this
    {
      && Row(task) == Apply(old(Row(task)), s)
      && forall other | other != task :: Row(other) == old(Row(other))
    }

    constructor ()
      ensures rows == map[]
    {
      rows := map[];
    }

    method Bind(task: string, team: string, teamRevision: string, intent: bool) returns (error: Option<Error>)
      modifies this
      ensures Moved(task, Step.Bind(team, teamRevision, intent))
      ensures error == Refusal(old(Row(task)), Step.Bind(team, teamRevision, intent))
    {
      if task in rows {
        return if rows[task].team != team || rows[task].teamRevision != teamRevision then Some(OtherTeam) else None;
      }
      rows := rows[task := Binding(team, teamRevision, None, None, "", Pending, false, None, None, !intent)];
      return None;
    }

    method FinishCreation(task: string)
      modifies this
      ensures Moved(task, Step.FinishCreation)
    {
      if task in rows { rows := rows[task := rows[task].(created := true)]; }
    }

    /** An occurrence inherits the binding of its template. */
    method CopyBinding(template: string, occurrence: string) returns (error: Option<Error>)
      modifies this
      ensures old(Row(template)).None? ==> rows == old(rows) && error.None?
      ensures old(Row(template)).Some? ==>
        && Moved(occurrence, Step.Bind(old(rows)[template].team, old(rows)[template].teamRevision, false))
        && (error.None? ==> Row(occurrence).Some? && Row(occurrence).value.team == old(rows)[template].team)
    {
      if template !in rows { return None; }
      error := Bind(occurrence, rows[template].team, rows[template].teamRevision, false);
    }

    method Prepare(task: string, revision: string, key: string) returns (row: Option<Binding>)
      modifies this
      ensures Moved(task, Step.Prepare(revision, key)) && row == Row(task)
      ensures row.Some? ==> row.value.key.Some?
    {
      if task in rows && rows[task].key.None? {
        rows := rows[task := rows[task].(source := Some(revision), key := Some(key))];
      }
      row := Row(task);
    }

    method RequestCancel(task: string)
      modifies this
      ensures Moved(task, Step.RequestCancel)
    {
      if task in rows { rows := rows[task := rows[task].(cancelRequested := true)]; }
    }

    method Record(task: string, receipt: Receipt) returns (error: Option<Error>)
      modifies this
      ensures Moved(task, Step.Record(receipt))
      ensures error == Refusal(old(Row(task)), Step.Record(receipt))
    {
      if receipt.size > MAX_RECEIPT { return Some(TooLarge); }
      if task !in rows { return Some(Unbound); }
      var current := rows[task];
      if current.execution != "" && current.execution != receipt.id { return Some(IdentityChanged); }
      var previous := if current.receipt.Some? then current.receipt.value.revision else 0;
      if (Terminal(current.status) && !Terminal(receipt.status)) || previous > receipt.revision { return None; }
      rows := rows[task := current.(
        execution := receipt.id, status := receipt.status, receipt := Some(receipt), error := None)];
      return None;
    }

    method RecordError(task: string, denied: bool)
      modifies this
      ensures Moved(task, Step.RecordError(denied))
    {
      if task in rows { rows := rows[task := rows[task].(error := Some(denied))]; }
    }

    /** `order` is every bound task that still exists, least recently updated first. */
    method Actionable(order: seq<string>, ready: set<string>) returns (page: seq<string>)
      requires forall i | 0 <= i < |order| :: order[i] in rows
      ensures |page| <= PAGE && forall i | 0 <= i < |page| :: page[i] in order && Unresolved(rows[page[i]], page[i] in ready)
      ensures |page| < PAGE ==> forall i | 0 <= i < |order| && Unresolved(rows[order[i]], order[i] in ready) :: order[i] in page
      ensures forall i | 0 <= i < |order| && InFlight(Row(order[i])) :: page != []
      ensures exists at: seq<nat> :: FirstOf(page, order, Wanted(order, ready), at, |order|)
    {
      hide FirstOf;
      page := [];
      ghost var at: seq<nat> := [];
      NothingOnThePage(order, Wanted(order, ready));
      for n := 0 to |order|
        invariant |page| < PAGE && FirstOf(page, order, Wanted(order, ready), at, n)
        invariant forall i | 0 <= i < |page| :: page[i] in order && Unresolved(rows[page[i]], page[i] in ready)
        invariant forall i | 0 <= i < n && Unresolved(rows[order[i]], order[i] in ready) :: order[i] in page
      {
        if Unresolved(rows[order[n]], order[n] in ready) {
          OneMoreOnThePage(page, order, Wanted(order, ready), at, n);
          page, at := page + [order[n]], at + [n];
          if |page| == PAGE { return; }
        } else {
          OneMorePassedOver(page, order, Wanted(order, ready), at, n);
        }
      }
    }

    function Wanted(order: seq<string>, ready: set<string>): seq<bool>
      requires forall i | 0 <= i < |order| :: order[i] in rows
      reads this
    {
      seq(|order|, i requires 0 <= i < |order| reads this requires order[i] in rows =>
        Unresolved(rows[order[i]], order[i] in ready))
    }

    method BoardHasUnresolvedWork(order: seq<string>, ready: set<string>) returns (found: bool)
      requires forall i | 0 <= i < |order| :: order[i] in rows
      ensures found <==> exists i | 0 <= i < |order| :: Unresolved(rows[order[i]], order[i] in ready)
    {
      var page := Actionable(order, ready);
      found := page != [];
      if found {
        assert page[0] in order;
      }
    }
  }
}
