/** Copying the common skill catalog into an agent's profile: the plan shown in the
    preview, the replacement tree that is built, and the swap that puts it in place. */
module SkillSync {
  import opened Wrappers

  /** Directory names below the skills root. */
  type Path = seq<nat>

  /** A directory that holds a SKILL.md, with the id and the text that gives it; a regular
      file; a symbolic link, which is copied as it is; or a named pipe or socket, which
      cannot be copied.  Other directories are there by what they hold. */
  datatype Node = Skill(id: string, doc: nat) | File(body: nat) | Link(text: nat) | Special

  /** What the links of the tree being built lead to: those at a path in `live` to a
      directory elsewhere, the others to none.  A copy through a live link fails for a
      destination in `closed`. */
  datatype Outside = Outside(live: set<Path>, closed: set<Path>)

  type Tree = map<Path, Node>

  const CONTROL_ID := "big-brother-control"
  const CONTROL_CATEGORY: nat := 0

  /** One inventory entry; `content` is what the digest covers and the copy takes. */
  datatype Item = Item(id: string, path: Path, enabled: bool, content: Tree)

  function At(t: Tree, q: Path): Option<Node> { if q in t then Some(t[q]) else None }

  predicate IsSkill(t: Tree, p: Path) { p in t && t[p].Skill? }

  /** Nothing lies below an entry that is no directory. */
  predicate WellFormed(t: Tree) { forall q {:trigger BareFile(t, q)} | q in t :: BareFile(t, q) }

  predicate BareFile(t: Tree, q: Path)
    requires q in t
  {
    !t[q].Skill? ==> forall r | r in t && q <= r :: q == r
  }

  /** Everything below a directory, by relative path. */
  function Under(t: Tree, p: Path): Tree {
    map r | r in (set q | q in t && p <= q :: q[|p|..]) && p + r in t :: t[p + r]
  }

  predicate Exists(t: Tree, p: Path) { exists q :: q in t && p <= q }

  /** What stands at `q` leaves no place for a directory at `p`, at or below `q`. */
  predicate Bars(t: Tree, q: Path, p: Path, o: Outside)
    requires q in t
  {
    t[q].File? || t[q].Special? || (t[q].Link? && (q == p || q !in o.live))
  }

  predicate Leads(t: Tree, q: Path, o: Outside)
    requires q in t
  {
    t[q].Link? && q in o.live
  }

  /** No directory can be put at this path, for what stands there or above. */
  predicate Blocked(t: Tree, p: Path, o: Outside) {
    exists q {:trigger Bars(t, q, p, o)} :: q in t && q <= p && Bars(t, q, p, o)
  }

  /** The way to this path follows a link out of the tree. */
  predicate Diverted(t: Tree, p: Path, o: Outside) {
    exists q {:trigger Leads(t, q, o)} :: q in t && q < p && Leads(t, q, o)
  }

  predicate HasSpecial(i: Item) { exists r :: r in i.content && i.content[r].Special? }

  function Without(t: Tree, p: Path): Tree { map q | q in t && !(p <= q) :: t[q] }

  function Placed(item: Item): Tree {
    map q | q in (set r | r in item.content :: item.path + r) && q[|item.path|..] in item.content
      :: item.content[q[|item.path|..]]
  }

  predicate Known(inv: seq<Item>, id: string) { exists k | 0 <= k < |inv| :: inv[k].id == id }

  /** `listing` is the sorted list of the directories with a SKILL.md. */
  predicate Listed(t: Tree, p: Path, inv: seq<Item>)
    requires IsSkill(t, p)
  {
    t[p].id != CONTROL_ID && !(|p| > 0 && p[0] == CONTROL_CATEGORY) && t[p].id != "" && !Known(inv, t[p].id)
  }

  /** The first directory that declares an id stands for it. */
  function InventoryOf(t: Tree, listing: seq<Path>, disabled: set<string>): seq<Item>
    requires forall k | 0 <= k < |listing| :: IsSkill(t, listing[k])
  {
    if listing == [] then []
    else
      var (inv, p) := (InventoryOf(t, listing[..|listing| - 1], disabled), listing[|listing| - 1]);
      if Listed(t, p, inv) then inv + [Item(t[p].id, p, t[p].id !in disabled, Under(t, p))] else inv
  }

  /** Ids are unique in an inventory. */
  predicate Keyed(inv: seq<Item>) { forall j, k | 0 <= j < k < |inv| :: inv[j].id != inv[k].id }

  predicate Faithful(t: Tree, disabled: set<string>, i: Item) {
    IsSkill(t, i.path) && i.id == t[i.path].id && i.enabled == (i.id !in disabled) && i.content == Under(t, i.path)
  }

  predicate Ordinary(t: Tree, p: Path)
    requires IsSkill(t, p)
  {
    t[p].id != CONTROL_ID && !(|p| > 0 && p[0] == CONTROL_CATEGORY) && t[p].id != ""
  }

  method Inventory(t: Tree, listing: seq<Path>, disabled: set<string>) returns (inventory: seq<Item>)
    requires forall k | 0 <= k < |listing| :: IsSkill(t, listing[k])
    ensures inventory == InventoryOf(t, listing, disabled)
  {
    inventory := [];
    for n := 0 to |listing|
      invariant inventory == InventoryOf(t, listing[..n], disabled)
    {
      var p := listing[n];
      assert listing[..n + 1][..n] == listing[..n];
      if t[p].id == CONTROL_ID || (|p| > 0 && p[0] == CONTROL_CATEGORY) { continue; }
      if t[p].id == "" || Known(inventory, t[p].id) { continue; }
      inventory := inventory + [Item(t[p].id, p, t[p].id !in disabled, Under(t, p))];
    }
    assert listing[..|listing|] == listing;
  }

  /** Each id once, and every ordinary directory's id is listed. */
  lemma {:induction false} InventoryIsComplete(t: Tree, listing: seq<Path>, disabled: set<string>)
    requires forall k | 0 <= k < |listing| :: IsSkill(t, listing[k])
    ensures var inv := InventoryOf(t, listing, disabled);
      && Keyed(inv)
      && (forall k | 0 <= k < |inv| :: Faithful(t, disabled, inv[k]) && Ordinary(t, inv[k].path) && inv[k].path in listing)
      && (forall k | 0 <= k < |listing| && Ordinary(t, listing[k]) :: Known(inv, t[listing[k]].id))
  {
    if listing != [] {
      var last := |listing| - 1;
      InventoryIsComplete(t, listing[..last], disabled);
      var (inv, p) := (InventoryOf(t, listing[..last], disabled), listing[last]);
      var all := InventoryOf(t, listing, disabled);
      assert forall k | 0 <= k < |inv| :: all[k] == inv[k];
      if Ordinary(t, p) && !Known(inv, t[p].id) {
        assert all[|inv|].id == t[p].id;
      }
      forall k | 0 <= k < |listing| && Ordinary(t, listing[k]) ensures Known(all, t[listing[k]].id) {
        if k < last {
          assert listing[..last][k] == listing[k];
        }
      }
    }
  }

  // The plan.

  datatype Plan = Plan(
    added: set<string>, updated: set<string>, removed: set<string>, preserved: set<string>, settled: set<string>)

  /** The two inventories agree on this skill. */
  predicate SameIn(target: seq<Item>, source: Item) {
    exists k | 0 <= k < |target| ::
      target[k].id == source.id && target[k].enabled && target[k].content == source.content && target[k].path == source.path
  }

  function PlanOf(common: seq<Item>, target: seq<Item>): Plan {
    Plan(
      set k | 0 <= k < |common| && common[k].enabled && !Known(target, common[k].id) :: common[k].id,
      set k | 0 <= k < |common| && common[k].enabled && Known(target, common[k].id) && !SameIn(target, common[k]) :: common[k].id,
      set k | 0 <= k < |common| && !common[k].enabled && Known(target, common[k].id) :: common[k].id,
      set k | 0 <= k < |target| && !Known(common, target[k].id) :: target[k].id,
      set k | 0 <= k < |common| && common[k].enabled && SameIn(target, common[k]) :: common[k].id)
  }

  function Ids(inv: seq<Item>, enabled: bool): set<string> {
    set k | 0 <= k < |inv| && inv[k].enabled == enabled :: inv[k].id
  }

  function AllIds(inv: seq<Item>): set<string> { set k | 0 <= k < |inv| :: inv[k].id }

  /** The five lists are disjoint, and between them name every enabled common skill
      and every target skill that is private or disabled in common. */
  lemma PlanPartitions(common: seq<Item>, target: seq<Item>)
    requires Keyed(common) && Keyed(target)
    ensures var p := PlanOf(common, target);
      && p.added !! p.updated !! p.removed !! p.preserved !! p.settled
      && p.added + p.updated + p.settled == Ids(common, true)
      && p.removed == AllIds(target) * Ids(common, false)
      && p.preserved == AllIds(target) - AllIds(common)
  {
  }

  // Building the replacement tree.

  predicate Private(common: seq<Item>, i: Item) { !Known(common, i.id) }

  /** copytree refuses an existing destination, and the root of the copy always exists. */
  function CopyPrivate(t: Tree, i: Item, o: Outside): Option<Tree> {
    if i.path == [] || Exists(t, i.path) || Blocked(t, i.path, o) || HasSpecial(i) then None
    else if Diverted(t, i.path, o) then CopyThrough(t, i, o)
    else Some(t + Placed(i))
  }

  /** An existing directory is removed first; anything else in the way makes the copy fail. */
  function CopyCommon(t: Tree, i: Item, o: Outside): Option<Tree> {
    if Blocked(t, i.path, o) || HasSpecial(i) then None
    else if Diverted(t, i.path, o) then CopyThrough(t, i, o)
    else Some(Without(t, i.path) + Placed(i))
  }

  /** A copy that lands elsewhere leaves the tree alone. */
  function CopyThrough(t: Tree, i: Item, o: Outside): Option<Tree> { if i.path in o.closed then None else Some(t) }

  function OnePrivate(common: seq<Item>, t: Tree, i: Item, o: Outside): Option<Tree> {
    if Private(common, i) then CopyPrivate(t, i, o) else Some(t)
  }

  function OneCommon(t: Tree, i: Item, o: Outside): Option<Tree> {
    if i.enabled then CopyCommon(t, i, o) else Some(t)
  }

  /** The private ones among the target items from `n` on, copied into `t`. */
  function Privates(common: seq<Item>, target: seq<Item>, o: Outside, n: nat, t: Tree): Option<Tree>
    requires n <= |target|
    decreases |target| - n
  {
    if n == |target| then Some(t)
    else
      var u := OnePrivate(common, t, target[n], o);
      if u.None? then None else Privates(common, target, o, n + 1, u.value)
  }

  /** The enabled ones among the common items from `n` on, copied over `t`. */
  function Overlaid(common: seq<Item>, o: Outside, n: nat, t: Tree): Option<Tree>
    requires n <= |common|
    decreases |common| - n
  {
    if n == |common| then Some(t)
    else
      var u := OneCommon(t, common[n], o);
      if u.None? then None else Overlaid(common, o, n + 1, u.value)
  }

  function Built(common: seq<Item>, target: seq<Item>, o: Outside): Option<Tree> {
    var t := Privates(common, target, o, 0, map[]);
    if t.None? then None else Overlaid(common, o, 0, t.value)
  }

  function PrivateDisabled(common: seq<Item>, target: seq<Item>): set<string> {
    set k | 0 <= k < |target| && Private(common, target[k]) && !target[k].enabled :: target[k].id
  }

  /** How the attempt to put the old tree back ends: it does, or removing the new tree
      fails halfway, or renaming the backup does. */
  datatype Recovery = Restored | NotRemoved(left: Tree) | NotRenamed

  /** Which call of the sync raises.  A failed config write leaves some list behind; a
      failed removal of the backup leaves some of it, or nothing if the second try succeeds. */
  datatype Fault =
    | NoFault | AtCopy | AtBackup | AtSwap(recovery: Recovery)
    | AtConfig(torn: set<string>, recovery: Recovery) | AtCleanup(left: Option<Tree>)

  /** Without a skills directory there is nothing to back up or to clean up. */
  predicate Raises(fault: Fault, hadSkills: bool) {
    !fault.NoFault? && ((fault.AtBackup? || fault.AtCleanup?) ==> hadSkills)
  }

  datatype SyncError = Occupied | Raised

  class Profile {
    var skills: Option<Tree>
    var temporary: Option<Tree>
    var backup: Option<Tree>
    var disabled: set<string>

    constructor (skills: Option<Tree>, disabled: set<string>)
      ensures this.skills == skills && this.disabled == disabled && temporary == None && backup == None
    {
      this.skills, this.disabled, temporary, backup := skills, disabled, None, None;
    }

    /** Both copy loops. */
    method Build(common: seq<Item>, target: seq<Item>, o: Outside) returns (ok: bool, privateDisabled: set<string>)
      modifies this`temporary
      ensures ok == Built(common, target, o).Some?
      ensures ok ==> temporary == Built(common, target, o) && privateDisabled == PrivateDisabled(common, target)
    {
      var t;
      ok, t, privateDisabled := CopyPrivates(common, target, o);
      temporary := Some(t);
      if !ok { return; }
      for n := 0 to |common|
        invariant temporary.Some? && Overlaid(common, o, n, temporary.value) == Overlaid(common, o, 0, t)
      {
        if common[n].enabled {
          var p := common[n].path;
          if Blocked(temporary.value, p, o) || HasSpecial(common[n]) { return false, privateDisabled; }
          if Diverted(temporary.value, p, o) {
            if p in o.closed { return false, privateDisabled; }
          } else {
            temporary := Some(Without(temporary.value, p) + Placed(common[n]));
          }
        }
      }
    }

    method CopyPrivates(common: seq<Item>, target: seq<Item>, o: Outside)
      returns (ok: bool, t: Tree, privateDisabled: set<string>)
      ensures ok == Privates(common, target, o, 0, map[]).Some?
      ensures ok ==> Privates(common, target, o, 0, map[]) == Some(t) && privateDisabled == PrivateDisabled(common, target)
    {
      t, privateDisabled := map[], {};
      for n := 0 to |target|
        invariant Privates(common, target, o, n, t) == Privates(common, target, o, 0, map[])
        invariant privateDisabled == PrivateDisabled(common, target[..n])
      {
        var i := target[n];
        DisabledSnoc(common, target, n);
        if Known(common, i.id) { continue; }
        if i.path == [] || Exists(t, i.path) || Blocked(t, i.path, o) || HasSpecial(i) {
          return false, t, privateDisabled;
        }
        if Diverted(t, i.path, o) {
          if i.path in o.closed { return false, t, privateDisabled; }
        } else {
          t := t + Placed(i);
        }
        if !i.enabled { privateDisabled := privateDisabled + {i.id}; }
      }
      assert target[..|target|] == target;
      return true, t, privateDisabled;
    }

    /** Replace the skills tree, or put the old one back.  `litter` is what a failing
        removal of the temporary tree leaves of it. */
    method Apply(common: seq<Item>, listing: seq<Path>, o: Outside, fault: Fault, litter: Option<Tree>)
      returns (done: Result<bool, SyncError>)
      requires temporary == None && backup == None
      requires forall k | 0 <= k < |listing| :: skills.Some? && IsSkill(skills.value, listing[k])
      modifies this
      ensures var target := if old(skills).Some? then InventoryOf(old(skills).value, listing, old(disabled)) else [];
        var built := Built(common, target, o);
        var committed := built.Some? && (fault.NoFault? || fault.AtBackup? || fault.AtCleanup?)
                         && (fault.AtBackup? ==> old(skills).None?);
        && (done.Ok? <==> built.Some? && !Raises(fault, old(skills).Some?))
        && (committed ==> skills == built && disabled == PrivateDisabled(common, target) && temporary == None)
        && (committed ==> backup == if Raises(fault, old(skills).Some?) then fault.left else None)
        && (!committed ==> done.Err? && (skills == old(skills) || backup == old(skills)))
        && (!committed && (built.None? || fault.AtCopy? || fault.AtBackup? || fault.recovery.Restored?) ==>
              skills == old(skills) && backup == None)
        && (!committed && !fault.AtConfig? ==> disabled == old(disabled))
        && (temporary == None || temporary == litter)
    {
      var target := [];
      if skills.Some? { target := Inventory(skills.value, listing, disabled); }
      var ok, privateDisabled := Build(common, target, o);
      var hadSkills := skills.Some?;
      if !ok || fault.AtCopy? || (hadSkills && fault.AtBackup?) {
        temporary := litter;
        return Err(if ok then Raised else Occupied);
      }
      if hadSkills { skills, backup := None, skills; }
      if fault.AtSwap? {
        PutBack(hadSkills, fault.recovery);
        temporary := litter;
        return Err(Raised);
      }
      skills, temporary := temporary, None;
      if fault.AtConfig? {
        disabled := fault.torn;
        PutBack(hadSkills, fault.recovery);
        return Err(Raised);
      }
      disabled := privateDisabled;
      if hadSkills {
        if fault.AtCleanup? {
          backup := fault.left;
          return Err(Raised);
        }
        backup := None;
      }
      return Ok(true);
    }

    /** The handler: remove what is in place of the old tree, and rename the backup. */
    method PutBack(hadSkills: bool, recovery: Recovery)
      requires backup.Some? <==> hadSkills
      modifies this`skills, this`backup
      ensures recovery.Restored? ==> skills == old(backup) && backup == None
      ensures skills == old(backup) || backup == old(backup)
    {
      if skills.Some? {
        if recovery.NotRemoved? {
          skills := Some(recovery.left);
          return;
        }
        skills := None;
      }
      if hadSkills && !recovery.NotRenamed? { skills, backup := backup, None; }
    }
  }

  lemma DisabledSnoc(common: seq<Item>, target: seq<Item>, n: nat)
    requires n < |target|
    ensures PrivateDisabled(common, target[..n + 1]) == PrivateDisabled(common, target[..n]) +
      if Private(common, target[n]) && !target[n].enabled then {target[n].id} else {}
  {
    var (now, before) := (target[..n + 1], target[..n]);
    forall k | 0 <= k < |now| ensures now[k] == if k < n then before[k] else target[n] {
    }
  }

  // What is in the built tree.

  predicate Comparable(p: Path, q: Path) { p <= q || q <= p }

  /** Every item shows a skill directory of `t` as it is. */
  predicate Showing(t: Tree, inv: seq<Item>) {
    forall k {:trigger Shows(t, inv[k])} | 0 <= k < |inv| :: Shows(t, inv[k])
  }

  predicate Shows(t: Tree, i: Item) { IsSkill(t, i.path) && i.id == t[i.path].id && i.content == Under(t, i.path) }

  predicate Covered(common: seq<Item>, target: seq<Item>, n: nat, q: Path)
    requires n <= |target|
  {
    exists j | 0 <= j < n :: Private(common, target[j]) && target[j].path <= q
  }

  predicate Over(common: seq<Item>, n: nat, q: Path)
    requires n <= |common|
  {
    exists k | 0 <= k < n :: common[k].enabled && common[k].path <= q
  }

  /** Copied so far: everything below a private directory, as it was. */
  ghost predicate CopiedBelow(t: Tree, common: seq<Item>, target: seq<Item>, n: nat, u: Tree)
    requires n <= |target|
  {
    forall q :: At(u, q) == if Covered(common, target, n, q) then At(t, q) else None
  }

  /** What the private skills hold, the common ones apart. */
  function PrivatePart(t: Tree, common: seq<Item>, target: seq<Item>): Tree {
    map q | q in t && Covered(common, target, |target|, q) :: t[q]
  }

  /** Enabled common skill `k` belongs below a live private link that no common skill
      before it has replaced. */
  predicate Led(base: Tree, common: seq<Item>, o: Outside, k: nat)
    requires k < |common|
  {
    common[k].enabled &&
    exists q {:trigger Leads(base, q, o)} :: q in base && q < common[k].path && Leads(base, q, o) && !Over(common, k, q)
  }

  /** One of the first `n` common skills is put at or above `q`, and not elsewhere. */
  predicate Direct(base: Tree, common: seq<Item>, o: Outside, n: nat, q: Path)
    requires n <= |common|
  {
    exists k | 0 <= k < n :: common[k].enabled && common[k].path <= q && !Led(base, common, o, k)
  }

  /** Below a common directory that was put there stands what the catalog has, and
      elsewhere what was there before. */
  ghost predicate LaidOver(base: Tree, root: Tree, common: seq<Item>, o: Outside, n: nat, u: Tree)
    requires n <= |common|
  {
    forall q :: At(u, q) == if Direct(base, common, o, n, q) then At(root, q) else At(base, q)
  }

  lemma PlacedAt(t: Tree, i: Item, q: Path)
    requires Shows(t, i)
    ensures At(Placed(i), q) == if i.path <= q then At(t, q) else None
  {
    if i.path <= q {
      assert q == i.path + q[|i.path|..];
      if q in t {
        assert q[|i.path|..] in i.content;
      }
    }
    if q in Placed(i) {
      assert q == i.path + q[|i.path|..];
    }
  }

  lemma CoveredSnoc(common: seq<Item>, target: seq<Item>, n: nat, q: Path)
    requires n < |target|
    ensures Covered(common, target, n + 1, q) <==>
      (Covered(common, target, n, q) || (Private(common, target[n]) && target[n].path <= q))
  {
  }

  lemma DirectSnoc(base: Tree, common: seq<Item>, o: Outside, n: nat, q: Path)
    requires n < |common|
    ensures Direct(base, common, o, n + 1, q) <==> (Direct(base, common, o, n, q) ||
      (common[n].enabled && common[n].path <= q && !Led(base, common, o, n)))
  {
  }

  /** No entry of a tree is below a link of it. */
  lemma DirectIsOver(base: Tree, common: seq<Item>, o: Outside, n: nat, q: Path)
    requires WellFormed(base) && n <= |common| && q in base
    ensures Direct(base, common, o, n, q) <==> Over(common, n, q)
  {
    forall k | 0 <= k < n && common[k].enabled && common[k].path <= q ensures !Led(base, common, o, k) {
      forall l | l in base && l < common[k].path ensures !Leads(base, l, o) {
        assert BareFile(base, l);
      }
    }
  }

  /** Nothing but skill directories stands at or above a skill directory. */
  lemma NoFileAbove(t: Tree, p: Path, q: Path)
    requires WellFormed(t) && IsSkill(t, p) && q <= p
    ensures q in t ==> t[q].Skill?
  {
    assert q in t ==> BareFile(t, q);
  }

  lemma {:induction false} PrivatesAreCopied(
    t: Tree, common: seq<Item>, target: seq<Item>, o: Outside, n: nat, u: Tree)
    requires Showing(t, target) && WellFormed(t) && n <= |target| && CopiedBelow(t, common, target, n, u)
    requires Privates(common, target, o, n, u).Some?
    ensures CopiedBelow(t, common, target, |target|, Privates(common, target, o, n, u).value)
    decreases |target| - n
  {
    if n < |target| {
      CopiedSnoc(t, common, target, o, n, u);
      PrivatesAreCopied(t, common, target, o, n + 1, OnePrivate(common, u, target[n], o).value);
    }
  }

  lemma CopiedSnoc(t: Tree, common: seq<Item>, target: seq<Item>, o: Outside, n: nat, u: Tree)
    requires Showing(t, target) && WellFormed(t) && n < |target| && CopiedBelow(t, common, target, n, u)
    ensures OnePrivate(common, u, target[n], o).Some? ==>
      CopiedBelow(t, common, target, n + 1, OnePrivate(common, u, target[n], o).value)
  {
    var u' := if Private(common, target[n]) then u + Placed(target[n]) else u;
    FreeWay(t, common, target, o, n, u);
    forall q ensures At(u', q) == if Covered(common, target, n + 1, q) then At(t, q) else None {
      PlacedAt(t, target[n], q);
      CoveredSnoc(common, target, n, q);
      assert At(u, q) == if Covered(common, target, n, q) then At(t, q) else None;
    }
  }

  /** Nothing that was copied bars the way to the next private skill, or leads elsewhere. */
  lemma FreeWay(t: Tree, common: seq<Item>, target: seq<Item>, o: Outside, n: nat, u: Tree)
    requires Showing(t, target) && WellFormed(t) && n < |target| && CopiedBelow(t, common, target, n, u)
    ensures !Blocked(u, target[n].path, o) && !Diverted(u, target[n].path, o)
  {
    var p := target[n].path;
    assert Shows(t, target[n]);
    forall q | q in u && q <= p ensures u[q].Skill? {
      assert At(u, q) == if Covered(common, target, n, q) then At(t, q) else None;
      NoFileAbove(t, p, q);
    }
  }

  lemma {:induction false} CommonIsLaid(base: Tree, root: Tree, common: seq<Item>, o: Outside, n: nat, u: Tree)
    requires Showing(root, common) && WellFormed(root) && WellFormed(base)
    requires n <= |common| && LaidOver(base, root, common, o, n, u) && Overlaid(common, o, n, u).Some?
    ensures LaidOver(base, root, common, o, |common|, Overlaid(common, o, n, u).value)
    decreases |common| - n
  {
    if n < |common| {
      LaidSnoc(base, root, common, o, n, u);
      CommonIsLaid(base, root, common, o, n + 1, OneCommon(u, common[n], o).value);
    }
  }

  lemma LaidSnoc(base: Tree, root: Tree, common: seq<Item>, o: Outside, n: nat, u: Tree)
    requires Showing(root, common) && WellFormed(root) && WellFormed(base)
    requires n < |common| && LaidOver(base, root, common, o, n, u)
    ensures OneCommon(u, common[n], o).Some? ==>
      LaidOver(base, root, common, o, n + 1, OneCommon(u, common[n], o).value)
  {
    var led := Led(base, common, o, n);
    var u' := if common[n].enabled && !led then Without(u, common[n].path) + Placed(common[n]) else u;
    if common[n].enabled {
      DivertedMeansLed(base, root, common, o, n, u);
    }
    forall q ensures At(u', q) == if Direct(base, common, o, n + 1, q) then At(root, q) else At(base, q) {
      PlacedAt(root, common[n], q);
      DirectSnoc(base, common, o, n, q);
      assert At(u, q) == if Direct(base, common, o, n, q) then At(root, q) else At(base, q);
    }
  }

  /** What is no skill directory above the next common skill is private, and not replaced yet. */
  lemma PrivateAbove(base: Tree, root: Tree, common: seq<Item>, o: Outside, n: nat, u: Tree, q: Path)
    requires Showing(root, common) && WellFormed(root) && WellFormed(base)
    requires n < |common| && LaidOver(base, root, common, o, n, u) && q <= common[n].path
    ensures q in u && !u[q].Skill? <==> q in base && !base[q].Skill? && !Over(common, n, q)
    ensures q in u && !u[q].Skill? ==> u[q] == base[q]
  {
    assert Shows(root, common[n]);
    assert At(u, q) == if Direct(base, common, o, n, q) then At(root, q) else At(base, q);
    NoFileAbove(root, common[n].path, q);
    if q in base {
      DirectIsOver(base, common, o, n, q);
    }
  }

  lemma DivertedMeansLed(base: Tree, root: Tree, common: seq<Item>, o: Outside, n: nat, u: Tree)
    requires Showing(root, common) && WellFormed(root) && WellFormed(base)
    requires n < |common| && common[n].enabled && LaidOver(base, root, common, o, n, u)
    ensures Diverted(u, common[n].path, o) <==> Led(base, common, o, n)
  {
    forall q | q < common[n].path
      ensures q in u && Leads(u, q, o) <==> q in base && Leads(base, q, o) && !Over(common, n, q)
    {
      PrivateAbove(base, root, common, o, n, u, q);
    }
  }

  /** The built tree, path by path. */
  lemma BuiltAt(t: Tree, root: Tree, common: seq<Item>, target: seq<Item>, o: Outside, q: Path)
    requires Showing(t, target) && Showing(root, common) && WellFormed(t) && WellFormed(root)
    requires Built(common, target, o).Some?
    ensures At(Built(common, target, o).value, q) ==
      if Direct(PrivatePart(t, common, target), common, o, |common|, q) then At(root, q)
      else if Covered(common, target, |target|, q) then At(t, q)
      else None
  {
    var base := Privates(common, target, o, 0, map[]).value;
    PrivatesAreCopied(t, common, target, o, 0, map[]);
    CopiedIsPrivate(t, common, target, base);
    CommonIsLaid(base, root, common, o, 0, base);
    assert At(base, q) == if Covered(common, target, |target|, q) then At(t, q) else None;
  }

  lemma CopiedIsPrivate(t: Tree, common: seq<Item>, target: seq<Item>, base: Tree)
    requires WellFormed(t) && CopiedBelow(t, common, target, |target|, base)
    ensures base == PrivatePart(t, common, target) && WellFormed(base)
  {
    var part := PrivatePart(t, common, target);
    forall q ensures At(base, q) == At(part, q) {
      assert At(base, q) == if Covered(common, target, |target|, q) then At(t, q) else None;
    }
    SameAt(base, part);
    PartIsWellFormed(t, common, target);
  }

  lemma PartIsWellFormed(t: Tree, common: seq<Item>, target: seq<Item>)
    requires WellFormed(t)
    ensures WellFormed(PrivatePart(t, common, target))
  {
    var part := PrivatePart(t, common, target);
    forall q | q in part ensures BareFile(part, q) {
      assert BareFile(t, q);
    }
  }

  // When the copy fails.

  /** Private skill `n` is the skills directory itself. */
  predicate AtRoot(common: seq<Item>, target: seq<Item>, n: nat)
    requires n < |target|
  {
    Private(common, target[n]) && target[n].path == []
  }

  /** The directory of private skill `n` lies within an earlier one's, or around it. */
  predicate Clashes(common: seq<Item>, target: seq<Item>, n: nat)
    requires n < |target|
  {
    Private(common, target[n]) &&
    exists j | 0 <= j < n :: Private(common, target[j]) && Comparable(target[j].path, target[n].path)
  }

  predicate Refused(common: seq<Item>, target: seq<Item>, n: nat)
    requires n < |target|
  {
    AtRoot(common, target, n) || Clashes(common, target, n) || (Private(common, target[n]) && HasSpecial(target[n]))
  }

  /** Enabled common skill `m` cannot be copied: it holds a special file; or what stands at
      its place or above is private, no directory, and not replaced by a common skill
      before it; or the copy lands elsewhere and fails there. */
  predicate Obstructed(base: Tree, common: seq<Item>, o: Outside, m: nat)
    requires m < |common|
  {
    common[m].enabled && (HasSpecial(common[m]) || Barred(base, common, o, m) ||
      (Led(base, common, o, m) && common[m].path in o.closed))
  }

  predicate Barred(base: Tree, common: seq<Item>, o: Outside, m: nat)
    requires m < |common|
  {
    var p := common[m].path;
    exists q {:trigger Over(common, m, q)} ::
      q in base && q <= p && NoWay(base[q], q == p, q in o.live) && !Over(common, m, q)
  }

  /** A regular or special file is no way to a directory; a link is one if it leads to a
      directory, but not at the directory's own place. */
  predicate NoWay(n: Node, atPlace: bool, live: bool) {
    match n
    case Skill(_, _) => false
    case File(_) => true
    case Special => true
    case Link(_) => atPlace || !live
  }

  predicate RefusedFrom(common: seq<Item>, target: seq<Item>, n: nat) {
    exists k | n <= k < |target| :: Refused(common, target, k)
  }

  predicate ObstructedFrom(base: Tree, common: seq<Item>, o: Outside, n: nat) {
    exists m | n <= m < |common| :: Obstructed(base, common, o, m)
  }

  lemma {:induction false} PrivateCopyFails(
    t: Tree, common: seq<Item>, target: seq<Item>, o: Outside, n: nat, u: Tree)
    requires Showing(t, target) && WellFormed(t) && n <= |target| && CopiedBelow(t, common, target, n, u)
    ensures Privates(common, target, o, n, u).None? <==> RefusedFrom(common, target, n)
    decreases |target| - n
  {
    if n < |target| {
      CopyRefused(t, common, target, o, n, u);
      var u' := OnePrivate(common, u, target[n], o);
      assert RefusedFrom(common, target, n) <==> Refused(common, target, n) || RefusedFrom(common, target, n + 1);
      if u'.Some? {
        CopiedSnoc(t, common, target, o, n, u);
        PrivateCopyFails(t, common, target, o, n + 1, u'.value);
      }
    }
  }

  lemma CopyRefused(t: Tree, common: seq<Item>, target: seq<Item>, o: Outside, n: nat, u: Tree)
    requires Showing(t, target) && WellFormed(t) && n < |target| && CopiedBelow(t, common, target, n, u)
    ensures OnePrivate(common, u, target[n], o).None? <==> Refused(common, target, n)
  {
    if Private(common, target[n]) {
      OccupiedMeansComparable(t, common, target, n, u);
      FreeWay(t, common, target, o, n, u);
    }
  }

  lemma OccupiedMeansComparable(t: Tree, common: seq<Item>, target: seq<Item>, n: nat, u: Tree)
    requires Showing(t, target) && n < |target| && CopiedBelow(t, common, target, n, u)
    requires Private(common, target[n])
    ensures Exists(u, target[n].path) <==> Clashes(common, target, n)
  {
    var p := target[n].path;
    assert Shows(t, target[n]);
    if Exists(u, p) {
      var q :| q in u && p <= q;
      assert At(u, q) == if Covered(common, target, n, q) then At(t, q) else None;
      var j :| 0 <= j < n && Private(common, target[j]) && target[j].path <= q;
      assert Comparable(target[j].path, p);
    }
    forall j | 0 <= j < n && Private(common, target[j]) && Comparable(target[j].path, p) ensures Exists(u, p) {
      var q := if p <= target[j].path then target[j].path else p;
      assert Shows(t, target[j]);
      assert target[j].path <= q && Covered(common, target, n, q);
      assert At(u, q) == At(t, q);
      assert q in u && p <= q;
    }
  }

  lemma {:induction false} CommonCopyFails(base: Tree, root: Tree, common: seq<Item>, o: Outside, n: nat, u: Tree)
    requires Showing(root, common) && WellFormed(root) && WellFormed(base)
    requires n <= |common| && LaidOver(base, root, common, o, n, u)
    ensures Overlaid(common, o, n, u).None? <==> ObstructedFrom(base, common, o, n)
    decreases |common| - n
  {
    if n < |common| {
      CopyObstructed(base, root, common, o, n, u);
      var u' := OneCommon(u, common[n], o);
      assert ObstructedFrom(base, common, o, n) <==>
        Obstructed(base, common, o, n) || ObstructedFrom(base, common, o, n + 1);
      if u'.Some? {
        LaidSnoc(base, root, common, o, n, u);
        CommonCopyFails(base, root, common, o, n + 1, u'.value);
      }
    }
  }

  lemma CopyObstructed(base: Tree, root: Tree, common: seq<Item>, o: Outside, n: nat, u: Tree)
    requires Showing(root, common) && WellFormed(root) && WellFormed(base)
    requires n < |common| && LaidOver(base, root, common, o, n, u)
    ensures OneCommon(u, common[n], o).None? <==> Obstructed(base, common, o, n)
  {
    if common[n].enabled {
      BlockedMeansBarred(base, root, common, o, n, u);
      DivertedMeansLed(base, root, common, o, n, u);
    }
  }

  lemma BlockedMeansBarred(base: Tree, root: Tree, common: seq<Item>, o: Outside, n: nat, u: Tree)
    requires Showing(root, common) && WellFormed(root) && WellFormed(base)
    requires n < |common| && LaidOver(base, root, common, o, n, u)
    ensures Blocked(u, common[n].path, o) <==> Barred(base, common, o, n)
  {
    var p := common[n].path;
    forall q | q <= p
      ensures q in u && Bars(u, q, p, o) <==> q in base && NoWay(base[q], q == p, q in o.live) && !Over(common, n, q)
    {
      PrivateAbove(base, root, common, o, n, u, q);
    }
    if q :| q in u && q <= p && Bars(u, q, p, o) {
      assert !Over(common, n, q);
    }
  }

  /** The sync fails to build exactly when a private skill is the skills directory itself,
      lies within another or holds a special file, or an enabled common skill cannot be copied. */
  lemma BuildFailsExactly(t: Tree, root: Tree, common: seq<Item>, target: seq<Item>, o: Outside)
    requires Showing(t, target) && Showing(root, common) && WellFormed(t) && WellFormed(root)
    ensures Built(common, target, o).None? <==>
      || (exists k | 0 <= k < |target| :: Refused(common, target, k))
      || (exists m | 0 <= m < |common| :: Obstructed(PrivatePart(t, common, target), common, o, m))
  {
    PrivateCopyFails(t, common, target, o, 0, map[]);
    if Privates(common, target, o, 0, map[]).Some? {
      PrivatesAreCopied(t, common, target, o, 0, map[]);
      var base := Privates(common, target, o, 0, map[]).value;
      CopiedIsPrivate(t, common, target, base);
      CommonCopyFails(base, root, common, o, 0, base);
    }
  }

  function Shown(t: Tree, p: Path): (i: Item)
    requires IsSkill(t, p)
    ensures Shows(t, i) && i.path == p
  {
    Item(t[p].id, p, true, Under(t, p))
  }

  // Each cause by itself: a skill at the root, one skill inside another, a special file,
  // and something else where a common skill belongs.

  /** The links of a tree lead nowhere. */
  const NOWHERE := Outside({}, {})

  lemma RootSkillFails()
    ensures var t: Tree := map[[] := Skill("a", 0)];
      var target := [Shown(t, [])];
      AtRoot([], target, 0) && !Clashes([], target, 0) && Built([], target, NOWHERE).None?
  {
    var t: Tree := map[[] := Skill("a", 0)];
    var target := [Shown(t, [])];
    PrivateCopyFails(t, [], target, NOWHERE, 0, map[]);
    assert Refused([], target, 0);
  }

  lemma NestedSkillsFail()
    ensures var t: Tree := map[[1] := Skill("a", 0), [1, 2] := Skill("b", 0)];
      var target := [Shown(t, [1]), Shown(t, [1, 2])];
      Clashes([], target, 1) && !AtRoot([], target, 0) && !AtRoot([], target, 1) && Built([], target, NOWHERE).None?
  {
    var t: Tree := map[[1] := Skill("a", 0), [1, 2] := Skill("b", 0)];
    PairClashes(t, Shown(t, [1]), Shown(t, [1, 2]));
  }

  lemma PairClashes(t: Tree, i: Item, j: Item)
    requires WellFormed(t) && Shows(t, i) && Shows(t, j) && i.path != [] && i.path <= j.path
    ensures Clashes([], [i, j], 1) && !AtRoot([], [i, j], 0) && !AtRoot([], [i, j], 1) && Built([], [i, j], NOWHERE).None?
  {
    var target := [i, j];
    assert Comparable(target[0].path, target[1].path);
    PrivateCopyFails(t, [], target, NOWHERE, 0, map[]);
    assert Refused([], target, 1);
  }

  lemma SpecialFileFails()
    ensures var t: Tree := map[[1] := Skill("a", 0), [1, 2] := Special];
      var target := [Shown(t, [1])];
      !AtRoot([], target, 0) && !Clashes([], target, 0) && Built([], target, NOWHERE).None?
  {
    var t: Tree := map[[1] := Skill("a", 0), [1, 2] := Special];
    var target := [Shown(t, [1])];
    UnderAt(t, [1], [2]);
    assert [1] + [2] == [1, 2];
    assert [2] in target[0].content && target[0].content[[2]].Special?;
    PrivateCopyFails(t, [], target, NOWHERE, 0, map[]);
    assert Refused([], target, 0);
  }

  lemma FileInTheWayFails()
    ensures var t: Tree := map[[1] := Skill("a", 0), [1, 2] := File(0)];
      var root: Tree := map[[1, 2] := Skill("b", 0)];
      var (common, target) := ([Shown(root, [1, 2])], [Shown(t, [1])]);
      && Barred(PrivatePart(t, common, target), common, NOWHERE, 0)
      && Built(common, target, NOWHERE).None?
  {
    var t: Tree := map[[1] := Skill("a", 0), [1, 2] := File(0)];
    var root: Tree := map[[1, 2] := Skill("b", 0)];
    assert "a" != "b";
    PairIsBarred(t, root, Shown(root, [1, 2]), Shown(t, [1]), NOWHERE, [1, 2]);
  }

  lemma PairIsBarred(t: Tree, root: Tree, c: Item, i: Item, o: Outside, q: Path)
    requires WellFormed(t) && WellFormed(root) && Shows(root, c) && Shows(t, i)
    requires c.enabled && c.id != i.id && i.path <= q <= c.path && q in t && Bars(t, q, c.path, o)
    ensures Barred(PrivatePart(t, [c], [i]), [c], o, 0) && Built([c], [i], o).None?
  {
    var (common, target) := ([c], [i]);
    var base := PrivatePart(t, common, target);
    assert Private(common, target[0]);
    assert Covered(common, target, 1, q) && !Over(common, 0, q);
    assert Bars(base, q, c.path, o);
    BuildFailsExactly(t, root, common, target, o);
    assert Obstructed(base, common, o, 0);
  }

  /** A common skill below a live private link is copied to where the link leads: the sync
      succeeds without it. */
  lemma LinkLeadsElsewhere()
    ensures var t: Tree := map[[1] := Skill("a", 0), [1, 2] := Link(0)];
      var root: Tree := map[[1, 2, 3] := Skill("b", 0)];
      var (common, target, o) := ([Shown(root, [1, 2, 3])], [Shown(t, [1])], Outside({[1, 2]}, {}));
      Built(common, target, o).Some? && [1, 2, 3] !in Built(common, target, o).value
  {
    var t: Tree := map[[1] := Skill("a", 0), [1, 2] := Link(0)];
    var root: Tree := map[[1, 2, 3] := Skill("b", 0)];
    assert "a" != "b";
    PairIsLed(t, root, Shown(root, [1, 2, 3]), Shown(t, [1]), Outside({[1, 2]}, {}), [1, 2]);
  }

  lemma PairIsLed(t: Tree, root: Tree, c: Item, i: Item, o: Outside, q: Path)
    requires WellFormed(t) && WellFormed(root) && Shows(root, c) && Shows(t, i)
    requires c.enabled && c.id != i.id && i.path != [] && i.path <= q < c.path && q in t && Leads(t, q, o)
    requires c.path !in o.closed && !HasSpecial(c) && !HasSpecial(i)
    ensures Built([c], [i], o).Some? && c.path !in Built([c], [i], o).value
  {
    var (common, target) := ([c], [i]);
    var base := PrivatePart(t, common, target);
    assert Private(common, target[0]);
    assert Covered(common, target, 1, q) && !Over(common, 0, q);
    assert Leads(base, q, o) && Led(base, common, o, 0);
    assert !Refused(common, target, 0);
    forall l | l in base && l <= c.path ensures !Bars(base, l, c.path, o) {
      assert BareFile(t, l) && BareFile(t, q);
      assert l <= q || q <= l;
    }
    assert !Obstructed(base, common, o, 0);
    BuildFailsExactly(t, root, common, target, o);
    BuiltAt(t, root, common, target, o, c.path);
    assert BareFile(t, q);
  }

  // Which skills keep their content.

  lemma UnderAt(t: Tree, p: Path, r: Path)
    ensures At(Under(t, p), r) == At(t, p + r)
  {
    if p + r in t {
      assert p <= p + r && (p + r)[|p|..] == r;
    }
  }

  /** Two trees agree below `p` exactly when they hold the same at every path below it. */
  lemma UnderEqual(t: Tree, u: Tree, p: Path)
    ensures Under(t, p) == Under(u, p) <==> forall q | p <= q :: At(t, q) == At(u, q)
  {
    if Under(t, p) == Under(u, p) {
      forall q | p <= q ensures At(t, q) == At(u, q) {
        assert q == p + q[|p|..];
        UnderAt(t, p, q[|p|..]);
        UnderAt(u, p, q[|p|..]);
      }
    }
    if forall q | p <= q :: At(t, q) == At(u, q) {
      forall r ensures At(Under(t, p), r) == At(Under(u, p), r) {
        UnderAt(t, p, r);
        UnderAt(u, p, r);
        assert p <= p + r;
      }
      SameAt(Under(t, p), Under(u, p));
    }
  }

  lemma SameAt(t: Tree, u: Tree)
    requires forall r :: At(t, r) == At(u, r)
    ensures t == u
  {
    forall r ensures r in t <==> r in u {
      assert At(t, r) == At(u, r);
    }
    forall r | r in t ensures t[r] == u[r] {
      assert At(t, r) == At(u, r);
    }
  }

  /** An enabled common skill stands in the new tree with its content in the catalog,
      exactly unless its copy landed elsewhere and no other one brought it along. */
  lemma CommonSkillsArrive(t: Tree, root: Tree, common: seq<Item>, target: seq<Item>, o: Outside, k: nat)
    requires Showing(t, target) && Showing(root, common) && WellFormed(t) && WellFormed(root)
    requires Built(common, target, o).Some? && k < |common| && common[k].enabled
    ensures Under(Built(common, target, o).value, common[k].path) == common[k].content <==>
      Direct(PrivatePart(t, common, target), common, o, |common|, common[k].path)
  {
    var (u, p, base) := (Built(common, target, o).value, common[k].path, PrivatePart(t, common, target));
    assert Shows(root, common[k]);
    UnderEqual(u, root, p);
    if Direct(base, common, o, |common|, p) {
      forall q | p <= q ensures At(u, q) == At(root, q) {
        BuiltAt(t, root, common, target, o, q);
        DirectBelow(base, common, o, |common|, p, q);
      }
    } else if Under(u, p) == common[k].content {
      assert At(u, p) == At(root, p);
      BuiltAt(t, root, common, target, o, p);
      assert p in base && Led(base, common, o, k);
      PartIsWellFormed(t, common, target);
      LedIsAbsent(base, common, o, k);
    }
  }

  lemma DirectBelow(base: Tree, common: seq<Item>, o: Outside, n: nat, p: Path, q: Path)
    requires n <= |common| && p <= q && Direct(base, common, o, n, p)
    ensures Direct(base, common, o, n, q)
  {
  }

  lemma LedIsAbsent(base: Tree, common: seq<Item>, o: Outside, k: nat)
    requires WellFormed(base) && k < |common| && Led(base, common, o, k)
    ensures forall q | common[k].path <= q :: q !in base
  {
    var l :| l in base && l < common[k].path && Leads(base, l, o) && !Over(common, k, l);
    assert BareFile(base, l);
  }

  /** The common skill is not put at or above `p`, and one put below it finds its own content there. */
  predicate Spares(t: Tree, c: Item, p: Path) {
    c.enabled ==> !(c.path <= p) && (p <= c.path ==> Under(t, c.path) == c.content)
  }

  /** A private skill keeps its content exactly when no enabled common skill is put at or
      above its directory, and each one put below it only replaces what already is the
      same; a copy that lands elsewhere takes nothing from it. */
  lemma PrivateStaysExactlyUnlessOverlaid(
    t: Tree, listing: seq<Path>, disabled: set<string>, root: Tree, rootListing: seq<Path>, rootDisabled: set<string>,
    o: Outside, n: nat)
    requires forall k | 0 <= k < |listing| :: IsSkill(t, listing[k])
    requires forall k | 0 <= k < |rootListing| :: IsSkill(root, rootListing[k])
    requires forall q | IsSkill(root, q) :: q in rootListing
    requires WellFormed(t) && WellFormed(root)
    requires var target := InventoryOf(t, listing, disabled);
      var common := InventoryOf(root, rootListing, rootDisabled);
      n < |target| && Private(common, target[n]) && Built(common, target, o).Some?
    ensures var target := InventoryOf(t, listing, disabled);
      var common := InventoryOf(root, rootListing, rootDisabled);
      Under(Built(common, target, o).value, target[n].path) == target[n].content <==>
        forall k | 0 <= k < |common| ::
          Led(PrivatePart(t, common, target), common, o, k) || Spares(t, common[k], target[n].path)
  {
    var target := InventoryOf(t, listing, disabled);
    var common := InventoryOf(root, rootListing, rootDisabled);
    InventoryShows(t, listing, disabled);
    InventoryShows(root, rootListing, rootDisabled);
    InventoryIsComplete(t, listing, disabled);
    assert Faithful(t, disabled, target[n]) && Ordinary(t, target[n].path);
    if At(root, target[n].path) == At(t, target[n].path) {
      CatalogKnows(root, rootListing, rootDisabled, target[n].path);
    }
    StaysExactly(t, root, common, target, o, n);
  }

  lemma InventoryShows(t: Tree, listing: seq<Path>, disabled: set<string>)
    requires forall k | 0 <= k < |listing| :: IsSkill(t, listing[k])
    ensures Showing(t, InventoryOf(t, listing, disabled))
  {
    InventoryIsComplete(t, listing, disabled);
    var inv := InventoryOf(t, listing, disabled);
    forall k | 0 <= k < |inv| ensures Shows(t, inv[k]) {
      assert Faithful(t, disabled, inv[k]);
    }
  }

  /** Every ordinary skill directory of the catalog has its id in the inventory. */
  lemma CatalogKnows(root: Tree, listing: seq<Path>, disabled: set<string>, p: Path)
    requires forall k | 0 <= k < |listing| :: IsSkill(root, listing[k])
    requires p in listing && IsSkill(root, p) && Ordinary(root, p)
    ensures Known(InventoryOf(root, listing, disabled), root[p].id)
  {
    InventoryIsComplete(root, listing, disabled);
    var k :| 0 <= k < |listing| && listing[k] == p;
    assert Ordinary(root, listing[k]);
  }

  lemma StaysExactly(t: Tree, root: Tree, common: seq<Item>, target: seq<Item>, o: Outside, n: nat)
    requires Showing(t, target) && Showing(root, common) && WellFormed(t) && WellFormed(root)
    requires Built(common, target, o).Some?
    requires n < |target| && Private(common, target[n]) && At(root, target[n].path) != At(t, target[n].path)
    ensures Under(Built(common, target, o).value, target[n].path) == target[n].content <==>
      forall k | 0 <= k < |common| ::
        Led(PrivatePart(t, common, target), common, o, k) || Spares(t, common[k], target[n].path)
  {
    var (u, p, base) := (Built(common, target, o).value, target[n].path, PrivatePart(t, common, target));
    assert Shows(t, target[n]);
    UnderEqual(t, u, p);
    if forall k | 0 <= k < |common| :: Led(base, common, o, k) || Spares(t, common[k], p) {
      forall q | p <= q ensures At(t, q) == At(u, q) {
        SparedAt(t, root, common, target, o, n, q);
      }
    }
    if forall q | p <= q :: At(t, q) == At(u, q) {
      forall k | 0 <= k < |common| ensures Led(base, common, o, k) || Spares(t, common[k], p) {
        if common[k].enabled && !Led(base, common, o, k) {
          SparesThen(t, root, common, target, o, p, k);
        }
      }
    }
  }

  lemma SparedAt(t: Tree, root: Tree, common: seq<Item>, target: seq<Item>, o: Outside, n: nat, q: Path)
    requires Showing(t, target) && Showing(root, common) && WellFormed(t) && WellFormed(root)
    requires Built(common, target, o).Some?
    requires n < |target| && Private(common, target[n]) && target[n].path <= q
    requires forall k | 0 <= k < |common| ::
      Led(PrivatePart(t, common, target), common, o, k) || Spares(t, common[k], target[n].path)
    ensures At(t, q) == At(Built(common, target, o).value, q)
  {
    var base := PrivatePart(t, common, target);
    BuiltAt(t, root, common, target, o, q);
    assert Covered(common, target, |target|, q);
    if Direct(base, common, o, |common|, q) {
      var k :| 0 <= k < |common| && common[k].enabled && common[k].path <= q && !Led(base, common, o, k);
      assert Spares(t, common[k], target[n].path) && Shows(root, common[k]);
      assert Comparable(common[k].path, target[n].path);
      UnderEqual(t, root, common[k].path);
    }
  }

  lemma SparesThen(t: Tree, root: Tree, common: seq<Item>, target: seq<Item>, o: Outside, p: Path, k: nat)
    requires Showing(t, target) && Showing(root, common) && WellFormed(t) && WellFormed(root)
    requires Built(common, target, o).Some? && k < |common| && common[k].enabled
    requires !Led(PrivatePart(t, common, target), common, o, k) && At(root, p) != At(t, p)
    requires forall q | p <= q :: At(t, q) == At(Built(common, target, o).value, q)
    ensures Spares(t, common[k], p)
  {
    var (u, base) := (Built(common, target, o).value, PrivatePart(t, common, target));
    BuiltAt(t, root, common, target, o, p);
    assert p <= p && At(t, p) == At(u, p) && !Direct(base, common, o, |common|, p);
    if p <= common[k].path {
      assert Direct(base, common, o, |common|, common[k].path);
      CommonSkillsArrive(t, root, common, target, o, k);
      forall q | common[k].path <= q ensures At(t, q) == At(u, q) {
        assert p <= q;
      }
      UnderEqual(t, u, common[k].path);
    }
  }

  // Planning again after the sync.

  /** `i` is what the sync copies: a private item, or an enabled common one. */
  predicate Copied(common: seq<Item>, target: seq<Item>, i: Item) {
    || (exists j | 0 <= j < |target| :: target[j] == i && Private(common, i))
    || (exists k | 0 <= k < |common| :: common[k] == i && i.enabled)
  }

  /** A skill directory with no other one inside. */
  predicate Lone(i: Item) { forall r | r in i.content && i.content[r].Skill? :: r == [] }

  /** No two copied directories overlap, and none has another skill inside. */
  ghost predicate Apart(common: seq<Item>, target: seq<Item>) {
    && (forall i | Copied(common, target, i) :: Lone(i))
    && (forall i, j | Copied(common, target, i) && Copied(common, target, j) && i != j :: !Comparable(i.path, j.path))
  }

  /** What an inventory gives: unique ids, none of them reserved. */
  predicate Clean(inv: seq<Item>) {
    Keyed(inv) && forall k | 0 <= k < |inv| :: Allowed(inv[k])
  }

  predicate Allowed(i: Item) { i.id != CONTROL_ID && i.id != "" && !(|i.path| > 0 && i.path[0] == CONTROL_CATEGORY) }

  lemma InventoryIsClean(t: Tree, listing: seq<Path>, disabled: set<string>)
    requires forall k | 0 <= k < |listing| :: IsSkill(t, listing[k])
    ensures Clean(InventoryOf(t, listing, disabled))
  {
    InventoryIsComplete(t, listing, disabled);
  }

  lemma CopyIdsAreUnique(common: seq<Item>, target: seq<Item>, i: Item, j: Item)
    requires Keyed(common) && Keyed(target) && i.id == j.id
    requires Copied(common, target, i) && Copied(common, target, j)
    ensures i == j
  {
  }

  /** The skills of the new tree are the copied items, each with its content. */
  ghost predicate Settled(common: seq<Item>, target: seq<Item>, u: Tree) {
    && (forall i | Copied(common, target, i) :: Shows(u, i) && Allowed(i))
    && (forall q | IsSkill(u, q) :: exists i :: Copied(common, target, i) && i.path == q)
  }

  /** Without overlaps no common skill lands below a private link. */
  lemma NothingIsLed(t: Tree, common: seq<Item>, target: seq<Item>, o: Outside, k: nat)
    requires Apart(common, target) && k < |common|
    ensures !Led(PrivatePart(t, common, target), common, o, k)
  {
    if common[k].enabled {
      assert Copied(common, target, common[k]);
      forall j | 0 <= j < |target| && Private(common, target[j]) ensures !(target[j].path <= common[k].path) {
        assert Copied(common, target, target[j]);
        assert !Comparable(target[j].path, common[k].path);
      }
    }
  }

  /** The new tree, path by path, without overlaps. */
  lemma ApartAt(t: Tree, root: Tree, common: seq<Item>, target: seq<Item>, o: Outside, q: Path)
    requires Showing(t, target) && Showing(root, common) && WellFormed(t) && WellFormed(root)
    requires Built(common, target, o).Some? && Apart(common, target)
    ensures At(Built(common, target, o).value, q) ==
      if Over(common, |common|, q) then At(root, q)
      else if Covered(common, target, |target|, q) then At(t, q)
      else None
  {
    BuiltAt(t, root, common, target, o, q);
    forall k | 0 <= k < |common| ensures !Led(PrivatePart(t, common, target), common, o, k) {
      NothingIsLed(t, common, target, o, k);
    }
  }

  lemma BuiltIsSettled(t: Tree, root: Tree, common: seq<Item>, target: seq<Item>, o: Outside)
    requires Showing(t, target) && Showing(root, common) && WellFormed(t) && WellFormed(root)
    requires Built(common, target, o).Some? && Clean(common) && Clean(target) && Apart(common, target)
    ensures Settled(common, target, Built(common, target, o).value)
  {
    var u := Built(common, target, o).value;
    forall i | Copied(common, target, i) ensures Shows(u, i) && Allowed(i) {
      CopyShows(t, root, common, target, o, i);
    }
    forall q | IsSkill(u, q) ensures exists i :: Copied(common, target, i) && i.path == q {
      SkillIsCopied(t, root, common, target, o, q);
    }
  }

  lemma CopyShows(t: Tree, root: Tree, common: seq<Item>, target: seq<Item>, o: Outside, i: Item)
    requires Showing(t, target) && Showing(root, common) && WellFormed(t) && WellFormed(root)
    requires Built(common, target, o).Some? && Apart(common, target) && Copied(common, target, i)
    ensures Shows(Built(common, target, o).value, i)
  {
    var u := Built(common, target, o).value;
    if k :| 0 <= k < |common| && common[k] == i && i.enabled {
      NothingIsLed(t, common, target, o, k);
      CommonSkillsArrive(t, root, common, target, o, k);
      SkillFirst(root, i);
    } else {
      var j :| 0 <= j < |target| && target[j] == i && Private(common, i);
      SkillFirst(t, i);
      forall q | i.path <= q ensures At(u, q) == At(t, q) {
        ApartAt(t, root, common, target, o, q);
        NotOver(common, target, i, q);
        assert Covered(common, target, |target|, q);
      }
      UnderEqual(u, t, i.path);
    }
    SkillAtItsPath(u, i);
  }

  lemma SkillFirst(t: Tree, i: Item)
    requires Shows(t, i)
    ensures [] in i.content && i.content[[]].Skill? && i.content[[]].id == i.id
  {
    UnderAt(t, i.path, []);
    assert i.path + [] == i.path;
  }

  lemma NotOver(common: seq<Item>, target: seq<Item>, i: Item, q: Path)
    requires Apart(common, target) && Copied(common, target, i) && Private(common, i) && i.path <= q
    ensures !Over(common, |common|, q)
  {
    if Over(common, |common|, q) {
      var k :| 0 <= k < |common| && common[k].enabled && common[k].path <= q;
      assert Copied(common, target, common[k]);
      assert Comparable(common[k].path, i.path);
    }
  }

  /** An item whose content is what lies below its path, and starts with its own skill, shows it. */
  lemma SkillAtItsPath(u: Tree, i: Item)
    requires Under(u, i.path) == i.content
    requires [] in i.content && i.content[[]].Skill? && i.content[[]].id == i.id
    ensures Shows(u, i)
  {
    UnderAt(u, i.path, []);
    assert i.path + [] == i.path;
  }

  /** A skill directory of the new tree is one that was copied. */
  lemma SkillIsCopied(t: Tree, root: Tree, common: seq<Item>, target: seq<Item>, o: Outside, q: Path)
    requires Showing(t, target) && Showing(root, common) && WellFormed(t) && WellFormed(root)
    requires Built(common, target, o).Some? && Apart(common, target) && IsSkill(Built(common, target, o).value, q)
    ensures exists i :: Copied(common, target, i) && i.path == q
  {
    ApartAt(t, root, common, target, o, q);
    if Over(common, |common|, q) {
      var k :| 0 <= k < |common| && common[k].enabled && common[k].path <= q;
      SkillWithin(root, common[k], q);
      assert Copied(common, target, common[k]);
    } else {
      var j :| 0 <= j < |target| && Private(common, target[j]) && target[j].path <= q;
      SkillWithin(t, target[j], q);
      assert Copied(common, target, target[j]);
    }
  }

  lemma SkillWithin(t: Tree, i: Item, q: Path)
    requires Shows(t, i) && i.path <= q && IsSkill(t, q)
    ensures q == i.path + q[|i.path|..] && IsSkill(i.content, q[|i.path|..])
    ensures Lone(i) ==> i.path == q
  {
    assert q == i.path + q[|i.path|..];
    UnderAt(t, i.path, q[|i.path|..]);
  }

  lemma EnabledIsKept(common: seq<Item>, target: seq<Item>, i: Item)
    requires Clean(common) && Clean(target) && Copied(common, target, i)
    ensures i.enabled == (i.id !in PrivateDisabled(common, target))
  {
  }

  /** Reading one directory of the new tree gives the item that was copied there. */
  lemma ReadsBack(common: seq<Item>, target: seq<Item>, u: Tree, r: Item, i: Item)
    requires Clean(common) && Clean(target) && Settled(common, target, u)
    requires Faithful(u, PrivateDisabled(common, target), r)
    requires Copied(common, target, i) && i.path == r.path
    ensures r == i
  {
    assert Shows(u, i);
    EnabledIsKept(common, target, i);
  }

  /** The same id, the same directory. */
  lemma Origin(common: seq<Item>, target: seq<Item>, u: Tree, r: Item, i: Item)
    requires Clean(common) && Clean(target) && Settled(common, target, u)
    requires Faithful(u, PrivateDisabled(common, target), r) && Copied(common, target, i) && r.id == i.id
    ensures r.path == i.path
  {
    var j :| Copied(common, target, j) && j.path == r.path;
    assert Shows(u, j);
    CopyIdsAreUnique(common, target, i, j);
  }

  /** After the sync the agent's inventory is what was copied: every private skill as it
      was, content and state, and every enabled common skill. */
  lemma SyncedInventory(
    t: Tree, root: Tree, common: seq<Item>, target: seq<Item>, o: Outside, listing: seq<Path>, i: Item)
    requires Showing(t, target) && Showing(root, common) && WellFormed(t) && WellFormed(root)
    requires Built(common, target, o).Some? && Clean(common) && Clean(target) && Apart(common, target)
    requires forall q :: q in listing <==> IsSkill(Built(common, target, o).value, q)
    ensures i in InventoryOf(Built(common, target, o).value, listing, PrivateDisabled(common, target))
      <==> Copied(common, target, i)
  {
    var (u, disabled) := (Built(common, target, o).value, PrivateDisabled(common, target));
    BuiltIsSettled(t, root, common, target, o);
    if Copied(common, target, i) {
      CopyIsListed(common, target, u, listing, i);
    }
    if i in InventoryOf(u, listing, disabled) {
      InventoryIsComplete(u, listing, disabled);
      assert Faithful(u, disabled, i);
      var j :| Copied(common, target, j) && j.path == i.path;
      ReadsBack(common, target, u, i, j);
    }
  }

  lemma CopyIsListed(common: seq<Item>, target: seq<Item>, u: Tree, listing: seq<Path>, i: Item)
    requires Clean(common) && Clean(target) && Settled(common, target, u) && Copied(common, target, i)
    requires forall q :: q in listing <==> IsSkill(u, q)
    ensures i in InventoryOf(u, listing, PrivateDisabled(common, target))
  {
    var disabled := PrivateDisabled(common, target);
    var inv := InventoryOf(u, listing, disabled);
    assert Shows(u, i) && Allowed(i);
    assert i.path in listing && Ordinary(u, i.path);
    CatalogKnows(u, listing, disabled, i.path);
    InventoryIsComplete(u, listing, disabled);
    var m :| 0 <= m < |inv| && inv[m].id == i.id;
    assert Faithful(u, disabled, inv[m]);
    Origin(common, target, u, inv[m], i);
    ReadsBack(common, target, u, inv[m], i);
  }

  /** Planning again from the tree and the list that a sync left finds nothing to add,
      update or remove. */
  lemma SyncedPlanIsEmpty(
    t: Tree, listing: seq<Path>, disabled: set<string>, root: Tree, rootListing: seq<Path>, rootDisabled: set<string>,
    o: Outside, u: Tree, after: set<string>, newListing: seq<Path>)
    requires WellFormed(t) && WellFormed(root)
    requires forall k | 0 <= k < |listing| :: IsSkill(t, listing[k])
    requires forall k | 0 <= k < |rootListing| :: IsSkill(root, rootListing[k])
    requires forall q :: q in newListing <==> IsSkill(u, q)
    requires var common := InventoryOf(root, rootListing, rootDisabled);
      var target := InventoryOf(t, listing, disabled);
      && Built(common, target, o) == Some(u) && after == PrivateDisabled(common, target)
      && Apart(common, target)
    ensures var common := InventoryOf(root, rootListing, rootDisabled);
      PlanOf(common, InventoryOf(u, newListing, after)) ==
        Plan({}, {}, {}, PlanOf(common, InventoryOf(t, listing, disabled)).preserved, Ids(common, true))
  {
    var common := InventoryOf(root, rootListing, rootDisabled);
    var target := InventoryOf(t, listing, disabled);
    InventoryShows(t, listing, disabled);
    InventoryShows(root, rootListing, rootDisabled);
    InventoryIsClean(t, listing, disabled);
    InventoryIsClean(root, rootListing, rootDisabled);
    forall i ensures i in InventoryOf(u, newListing, after) <==> Copied(common, target, i) {
      SyncedInventory(t, root, common, target, o, newListing, i);
    }
    PlanOfCopies(common, target, InventoryOf(u, newListing, after));
  }

  lemma PlanOfCopies(common: seq<Item>, target: seq<Item>, after: seq<Item>)
    requires Clean(common) && Clean(target)
    requires forall i :: i in after <==> Copied(common, target, i)
    ensures PlanOf(common, after) == Plan({}, {}, {}, PlanOf(common, target).preserved, Ids(common, true))
  {
    forall k | 0 <= k < |common| && common[k].enabled ensures SameIn(after, common[k]) && Known(after, common[k].id) {
      assert Copied(common, target, common[k]);
      assert common[k] in after;
    }
    forall k | 0 <= k < |common| && !common[k].enabled ensures !Known(after, common[k].id) {
      forall m | 0 <= m < |after| ensures after[m].id != common[k].id {
        assert after[m] in after;
      }
    }
    forall m | 0 <= m < |after| && !Known(common, after[m].id) ensures after[m].id in PlanOf(common, target).preserved {
      assert after[m] in after;
    }
    forall j | 0 <= j < |target| && !Known(common, target[j].id) ensures target[j].id in PlanOf(common, after).preserved {
      assert Copied(common, target, target[j]);
      assert target[j] in after;
    }
  }

  // What the plan announces is what the sync does.

  /** Both inventories have this id, and the items differ in content, place or state. */
  predicate ChangedIn(before: seq<Item>, now: seq<Item>, id: string) {
    exists i, j :: i in before && j in now && i.id == id && j.id == id && i != j
  }

  /** Both inventories have the same item under this id. */
  predicate SameInBoth(before: seq<Item>, now: seq<Item>, id: string) {
    exists i :: i in before && i in now && i.id == id
  }

  /** The five lists of a plan made from `before`, by what is there `now`. */
  predicate Tells(p: Plan, common: seq<Item>, before: seq<Item>, now: seq<Item>, id: string) {
    && (id in p.added <==> Known(now, id) && !Known(before, id))
    && (id in p.removed <==> Known(before, id) && !Known(now, id))
    && (id in p.updated <==> Known(common, id) && ChangedIn(before, now, id))
    && (id in p.settled <==> Known(common, id) && SameInBoth(before, now, id))
    && (id in p.preserved <==> Known(before, id) && !Known(common, id))
    && (id in p.preserved ==> SameInBoth(before, now, id))
  }

  /** The one item of an inventory with this id. */
  lemma ItemOf(inv: seq<Item>, id: string) returns (i: Item)
    requires Known(inv, id)
    ensures i in inv && i.id == id
  {
    var k :| 0 <= k < |inv| && inv[k].id == id;
    i := inv[k];
  }

  lemma KeyedItems(inv: seq<Item>, i: Item, j: Item)
    requires Keyed(inv) && i in inv && j in inv && i.id == j.id
    ensures i == j
  {
  }

  /** After the copies, by id: enabled common items stand as they are, disabled ones are
      gone, and private ones stay. */
  lemma CopiesById(common: seq<Item>, target: seq<Item>, now: seq<Item>, id: string)
    requires Keyed(common) && Keyed(target)
    requires forall i :: i in now <==> Copied(common, target, i)
    ensures forall c | c in common && c.id == id && c.enabled :: c in now && forall j | j in now && j.id == id :: j == c
    ensures forall c | c in common && c.id == id && !c.enabled :: !Known(now, id)
    ensures !Known(common, id) ==> forall i: Item | i.id == id :: i in now <==> i in target
  {
    forall c | c in common && c.id == id && c.enabled
      ensures c in now && forall j | j in now && j.id == id :: j == c
    {
      assert Copied(common, target, c);
      forall j | j in now && j.id == id ensures j == c {
        CopyIdsAreUnique(common, target, j, c);
      }
    }
    forall c | c in common && c.id == id && !c.enabled ensures !Known(now, id) {
      forall k | 0 <= k < |now| ensures now[k].id != id {
        assert now[k] in now;
      }
    }
  }

  lemma PlanTells(common: seq<Item>, target: seq<Item>, now: seq<Item>, id: string)
    requires Keyed(common) && Keyed(target)
    requires forall i :: i in now <==> Copied(common, target, i)
    ensures Tells(PlanOf(common, target), common, target, now, id)
  {
    CopiesById(common, target, now, id);
    if Known(common, id) {
      var c := ItemOf(common, id);
      assert c.enabled ==> c in now;
      KnownPlans(common, target, now, c);
    } else {
      PrivatePlans(common, target, now, id);
    }
  }

  lemma KnownPlans(common: seq<Item>, target: seq<Item>, now: seq<Item>, c: Item)
    requires Keyed(common) && Keyed(target) && c in common
    requires c.enabled ==> c in now && forall j | j in now && j.id == c.id :: j == c
    requires !c.enabled ==> !Known(now, c.id)
    ensures Tells(PlanOf(common, target), common, target, now, c.id)
  {
    var k :| 0 <= k < |common| && common[k] == c;
    assert Known(common, c.id);
    assert c.enabled ==> Known(now, c.id);
    if Known(target, c.id) {
      var i := ItemOf(target, c.id);
      assert c.enabled ==> (SameIn(target, c) <==> i == c);
      forall j | j in target && j.id == c.id ensures j == i {
        KeyedItems(target, i, j);
      }
    }
    forall m | 0 <= m < |common| && common[m].id == c.id ensures m == k {
    }
  }

  lemma PrivatePlans(common: seq<Item>, target: seq<Item>, now: seq<Item>, id: string)
    requires Keyed(target) && !Known(common, id)
    requires forall i: Item | i.id == id :: i in now <==> i in target
    ensures Tells(PlanOf(common, target), common, target, now, id)
  {
    if Known(target, id) {
      var i := ItemOf(target, id);
      assert i in now;
    }
    if Known(now, id) {
      var i := ItemOf(now, id);
      assert i in target;
    }
  }

  /** For catalogs and profiles without overlaps, the plan shown before a sync says what
      the sync then does to the inventory: what is added, removed, changed in content,
      place or state, left alone, and private. */
  lemma PlanSaysWhatTheSyncDoes(
    t: Tree, listing: seq<Path>, disabled: set<string>, root: Tree, rootListing: seq<Path>, rootDisabled: set<string>,
    o: Outside, u: Tree, after: set<string>, newListing: seq<Path>, id: string)
    requires WellFormed(t) && WellFormed(root)
    requires forall k | 0 <= k < |listing| :: IsSkill(t, listing[k])
    requires forall k | 0 <= k < |rootListing| :: IsSkill(root, rootListing[k])
    requires forall q :: q in newListing <==> IsSkill(u, q)
    requires var common := InventoryOf(root, rootListing, rootDisabled);
      var target := InventoryOf(t, listing, disabled);
      && Built(common, target, o) == Some(u) && after == PrivateDisabled(common, target)
      && Apart(common, target)
    ensures var common := InventoryOf(root, rootListing, rootDisabled);
      var before := InventoryOf(t, listing, disabled);
      Tells(PlanOf(common, before), common, before, InventoryOf(u, newListing, after), id)
  {
    var common := InventoryOf(root, rootListing, rootDisabled);
    var target := InventoryOf(t, listing, disabled);
    var now := InventoryOf(u, newListing, after);
    InventoryShows(t, listing, disabled);
    InventoryShows(root, rootListing, rootDisabled);
    InventoryIsClean(t, listing, disabled);
    InventoryIsClean(root, rootListing, rootDisabled);
    forall i ensures i in now <==> Copied(common, target, i) {
      SyncedInventory(t, root, common, target, o, newListing, i);
    }
    PlanTells(common, target, now, id);
  }
}
