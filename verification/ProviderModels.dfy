/** Collapsing reasoning-effort aliases of a model catalog into their base models. */
module ProviderModels {
  import opened Wrappers

  /** The efforts in canonical order; a level is a position in this list. */
  const LEVELS: seq<string> := ["none", "minimal", "low", "medium", "high", "xhigh", "max"]

  type Level = l: nat | l < 7

  function Suffix(l: Level): string { ['-'] + LEVELS[l] }

  /** A catalog row: its id, the levels its own metadata states, and everything else. */
  datatype Row = Row(id: string, explicit: set<Level>, rest: nat)

  /** A row that is kept, with the level list that replaces its own, if one does. */
  datatype Kept = Kept(row: Row, levels: Option<seq<Level>>)

  type Catalog = map<string, Row>

  predicate EndsWith(id: string, s: string) { |id| >= |s| && id[|id| - |s|..] == s }

  /** What follows the last dash. */
  function AfterDash(id: string): string {
    if id == [] || id[|id| - 1] == '-' then [] else AfterDash(id[..|id| - 1]) + [id[|id| - 1]]
  }

  lemma {:induction false} AfterDashIs(start: string, name: string)
    requires '-' !in name
    ensures AfterDash(start + ['-'] + name) == name
  {
    if name == [] {
      assert start + ['-'] + name == start + ['-'];
    } else {
      var init := name[..|name| - 1];
      AfterDashIs(start, init);
      assert (start + ['-'] + name)[..|start| + |name|] == start + ['-'] + init;
    }
  }

  /** At most one level name ends an id. */
  lemma OneSuffix(id: string, l: Level, m: Level)
    requires EndsWith(id, Suffix(l)) && EndsWith(id, Suffix(m))
    ensures l == m
  {
    EndsAfterDash(id, l);
    EndsAfterDash(id, m);
  }

  lemma EndsAfterDash(id: string, l: Level)
    requires EndsWith(id, Suffix(l))
    ensures AfterDash(id) == LEVELS[l]
  {
    var start := id[..|id| - |Suffix(l)|];
    AfterDashIs(start, LEVELS[l]);
    assert id == start + ['-'] + LEVELS[l];
  }

  /** The last row of each id; blank ids are skipped. */
  function ById(rows: seq<Row>): Catalog {
    if rows == [] then map[]
    else
      var r := rows[|rows| - 1];
      if r.id == "" then ById(rows[..|rows| - 1]) else ById(rows[..|rows| - 1])[r.id := r]
  }

  /** The levels under which a base model has an alias in the catalog. */
  function AliasLevels(c: Catalog, base: string): set<Level> { set l: Level | base + Suffix(l) in c }

  /** A real base model with several aliases, or with one and levels of its own. */
  predicate Collapsible(c: Catalog, base: string) {
    base in c && AliasLevels(c, base) != {} && (|AliasLevels(c, base)| >= 2 || c[base].explicit != {})
  }

  function Base(id: string, l: Level): string
    requires EndsWith(id, Suffix(l))
  {
    id[..|id| - |Suffix(l)|]
  }

  /** The row is an alias of a collapsible base. */
  predicate Dropped(c: Catalog, id: string) {
    id in c && exists l: Level :: EndsWith(id, Suffix(l)) && Collapsible(c, Base(id, l))
  }

  /** The members of a level set in canonical order. */
  function Ordered(levels: set<Level>, from: nat): (s: seq<Level>)
    requires from <= 7
    ensures forall l :: l in s <==> l in levels && l >= from
    ensures forall i | 0 <= i < |s| :: s[i] >= from
    ensures forall i, j | 0 <= i < j < |s| :: s[i] < s[j]
    decreases 7 - from
  {
    if from == 7 then [] else (if from in levels then [from as Level] else []) + Ordered(levels, from + 1)
  }

  function Normalized(c: Catalog, r: Row): Kept {
    Kept(r, if Collapsible(c, r.id) then Some(Ordered(r.explicit + AliasLevels(c, r.id), 0)) else None)
  }

  /** What becomes of one row. */
  function Fate(c: Catalog, r: Row): Option<Kept> { if Dropped(c, r.id) then None else Some(Normalized(c, r)) }

  function Fates(c: Catalog, rows: seq<Row>): seq<Option<Kept>> {
    seq(|rows|, i requires 0 <= i < |rows| => Fate(c, rows[i]))
  }

  /** The values among the first `n`, in order. */
  function Somes<T>(f: seq<Option<T>>, n: nat): seq<T>
    requires n <= |f|
  {
    if n == 0 then [] else if f[n - 1].None? then Somes(f, n - 1) else Somes(f, n - 1) + [f[n - 1].value]
  }

  function Collapsed(c: Catalog, rows: seq<Row>): seq<Kept> { Somes(Fates(c, rows), |rows|) }

  // The program.

  method IndexRows(rows: seq<Row>) returns (byId: Catalog, ids: seq<string>)
    ensures byId == ById(rows) && forall id :: id in ids <==> id in byId
  {
    byId, ids := map[], [];
    for n := 0 to |rows|
      invariant byId == ById(rows[..n]) && forall id :: id in ids <==> id in byId
    {
      assert rows[..n + 1][..n] == rows[..n];
      if rows[n].id != "" {
        if rows[n].id !in byId { ids := ids + [rows[n].id]; }
        byId := byId[rows[n].id := rows[n]];
      }
    }
    assert rows[..|rows|] == rows;
  }

  /** The first level whose suffix ends the id. */
  method FindLevel(id: string) returns (level: Option<Level>)
    ensures level.Some? ==> EndsWith(id, Suffix(level.value))
    ensures level.None? ==> forall l: Level :: !EndsWith(id, Suffix(l))
  {
    var l := 0;
    while l < 7
      invariant l <= 7 && forall m: Level | m < l :: !EndsWith(id, Suffix(m))
    {
      if EndsWith(id, Suffix(l)) { return Some(l); }
      l := l + 1;
    }
    return None;
  }

  /** `aliases[base]` holds the levels of the first `n` ids that are aliases of `base`. */
  ghost predicate Gathers(aliases: map<string, set<Level>>, c: Catalog, ids: seq<string>, n: nat)
    requires n <= |ids|
  {
    forall base, l: Level {:trigger GathersLevel(aliases, c, ids, n, base, l)} :: GathersLevel(aliases, c, ids, n, base, l)
  }

  predicate GathersLevel(aliases: map<string, set<Level>>, c: Catalog, ids: seq<string>, n: nat, base: string, l: Level)
    requires n <= |ids|
  {
    (base in aliases && l in aliases[base]) <==> (base in c && base + Suffix(l) in ids[..n])
  }

  method GatherAliases(byId: Catalog, ids: seq<string>) returns (aliases: map<string, set<Level>>)
    requires forall id :: id in ids <==> id in byId
    ensures Gathers(aliases, byId, ids, |ids|) && forall base | base in aliases :: aliases[base] != {}
  {
    aliases := map[];
    for n := 0 to |ids|
      invariant Gathers(aliases, byId, ids, n) && forall base | base in aliases :: aliases[base] != {}
    {
      var level := FindLevel(ids[n]);
      ghost var before := aliases;
      if level.Some? {
        var base := Base(ids[n], level.value);
        if base in byId {
          aliases := aliases[base := (if base in aliases then aliases[base] else {}) + {level.value}];
        }
      }
      GathersNext(before, aliases, byId, ids, n, level);
    }
  }

  lemma SuffixOf(base: string, l: Level)
    ensures EndsWith(base + Suffix(l), Suffix(l)) && Base(base + Suffix(l), l) == base
  {
  }

  lemma GathersNext(before: map<string, set<Level>>, after: map<string, set<Level>>, c: Catalog,
                    ids: seq<string>, n: nat, level: Option<Level>)
    requires n < |ids| && Gathers(before, c, ids, n)
    requires level.Some? ==> EndsWith(ids[n], Suffix(level.value))
    requires level.None? ==> forall l: Level :: !EndsWith(ids[n], Suffix(l))
    requires after == if level.Some? && Base(ids[n], level.value) in c
      then before[Base(ids[n], level.value) :=
             (if Base(ids[n], level.value) in before then before[Base(ids[n], level.value)] else {}) + {level.value}]
      else before
    ensures Gathers(after, c, ids, n + 1)
  {
    assert ids[..n + 1] == ids[..n] + [ids[n]];
    forall base, l: Level {:trigger GathersLevel(after, c, ids, n + 1, base, l)}
      ensures GathersLevel(after, c, ids, n + 1, base, l)
    {
      SuffixOf(base, l);
      if base + Suffix(l) == ids[n] {
        OneSuffix(ids[n], l, level.value);
      }
      assert GathersLevel(before, c, ids, n, base, l);
      if level.Some? && base == Base(ids[n], level.value) && l == level.value {
        assert base + Suffix(l) == ids[n];
      }
    }
  }

  method FindCollapsible(byId: Catalog, aliases: map<string, set<Level>>, ids: seq<string>)
    returns (collapsible: set<string>)
    requires forall id :: id in ids <==> id in byId
    requires Gathers(aliases, byId, ids, |ids|) && forall base | base in aliases :: aliases[base] != {}
    ensures forall base :: base in collapsible <==> Collapsible(byId, base)
    ensures forall base | base in collapsible :: base in aliases && aliases[base] == AliasLevels(byId, base)
  {
    assert ids[..|ids|] == ids;
    collapsible := set base | base in aliases && base in byId && (|aliases[base]| >= 2 || byId[base].explicit != {});
    forall base | base in byId && AliasLevels(byId, base) != {} ensures base in aliases {
      GatheredOnes(byId, aliases, ids, base);
    }
    forall base | base in aliases ensures base in byId && aliases[base] == AliasLevels(byId, base) {
      GatheredOnes(byId, aliases, ids, base);
    }
  }

  lemma GatheredOnes(c: Catalog, aliases: map<string, set<Level>>, ids: seq<string>, base: string)
    requires forall id :: id in ids <==> id in c
    requires Gathers(aliases, c, ids, |ids|) && forall b | b in aliases :: aliases[b] != {}
    ensures base in aliases ==> base in c && aliases[base] == AliasLevels(c, base)
    ensures base in c && AliasLevels(c, base) != {} ==> base in aliases
  {
    forall l: Level ensures (base in aliases && l in aliases[base]) <==> (base in c && l in AliasLevels(c, base)) {
      GatheredOne(c, aliases, ids, base, l);
    }
    if base in aliases {
      assert exists l: Level :: l in aliases[base];
      forall l | l in aliases[base] ensures l in AliasLevels(c, base) {
      }
      forall l | l in AliasLevels(c, base) ensures l in aliases[base] {
      }
    }
    if base in c && AliasLevels(c, base) != {} {
      var l: Level :| l in AliasLevels(c, base);
      assert base in aliases;
    }
  }

  lemma GatheredOne(c: Catalog, aliases: map<string, set<Level>>, ids: seq<string>, base: string, l: Level)
    requires forall id :: id in ids <==> id in c
    requires Gathers(aliases, c, ids, |ids|)
    ensures (base in aliases && l in aliases[base]) <==> (base in c && l in AliasLevels(c, base))
  {
    assert ids[..|ids|] == ids;
    assert GathersLevel(aliases, c, ids, |ids|, base, l);
  }

  /** The ids of the dropped aliases. */
  predicate IsCollapsedId(byId: Catalog, collapsible: set<string>, id: string) {
    id in byId && exists l: Level :: EndsWith(id, Suffix(l)) && Base(id, l) in collapsible
  }

  lemma CollapsedIdsAreDropped(byId: Catalog, collapsible: set<string>, id: string)
    requires forall base :: base in collapsible <==> Collapsible(byId, base)
    ensures IsCollapsedId(byId, collapsible, id) <==> Dropped(byId, id)
  {
  }

  /** One row: dropped, or kept with the levels of its group. */
  method CollapseRow(r: Row, byId: Catalog, aliases: map<string, set<Level>>, collapsible: set<string>)
    returns (fate: Option<Kept>)
    requires forall base :: base in collapsible <==> Collapsible(byId, base)
    requires forall base | base in collapsible :: base in aliases && aliases[base] == AliasLevels(byId, base)
    ensures fate == Fate(byId, r)
  {
    CollapsedIdsAreDropped(byId, collapsible, r.id);
    if IsCollapsedId(byId, collapsible, r.id) { return None; }
    if r.id in collapsible { return Some(Kept(r, Some(Ordered(r.explicit + aliases[r.id], 0)))); }
    return Some(Kept(r, None));
  }

  method ConnectionCatalogModels(rows: seq<Row>, collapse: bool) returns (result: seq<Kept>)
    ensures result == if collapse then Collapsed(ById(rows), rows)
                      else seq(|rows|, k requires 0 <= k < |rows| => Kept(rows[k], None))
  {
    if !collapse { return seq(|rows|, k requires 0 <= k < |rows| => Kept(rows[k], None)); }
    result := [];
    var byId, ids := IndexRows(rows);
    var aliases := GatherAliases(byId, ids);
    var collapsible := FindCollapsible(byId, aliases, ids);
    ghost var fates := Fates(byId, rows);
    for n := 0 to |rows|
      invariant result == Somes(fates, n)
    {
      var fate := CollapseRow(rows[n], byId, aliases, collapsible);
      assert fates[n] == fate;
      if fate.None? { continue; }
      result := result + [fate.value];
    }
  }

  // What collapsing keeps.

  /** The row an id ends up in: the base of a dropped alias, and so on. */
  ghost function Root(c: Catalog, id: string): string
    decreases |id|
  {
    if Dropped(c, id) then
      var l: Level :| EndsWith(id, Suffix(l)) && Collapsible(c, Base(id, l));
      Root(c, Base(id, l))
    else id
  }

  /** Every dropped alias leads, through strictly shorter bases, to a row that is kept. */
  lemma {:induction false} DroppedAliasesHaveAKeptBase(c: Catalog, id: string)
    requires id in c
    ensures Root(c, id) in c && !Dropped(c, Root(c, id)) && Root(c, id) <= id
    ensures Dropped(c, id) <==> |Root(c, id)| < |id|
    decreases |id|
  {
    if Dropped(c, id) {
      var l: Level :| EndsWith(id, Suffix(l)) && Collapsible(c, Base(id, l)) && Root(c, id) == Root(c, Base(id, l));
      DroppedAliasesHaveAKeptBase(c, Base(id, l));
    }
  }

  /** Where the values stand. */
  function Places<T>(f: seq<Option<T>>, n: nat): seq<nat>
    requires n <= |f|
  {
    if n == 0 then [] else if f[n - 1].None? then Places(f, n - 1) else Places(f, n - 1) + [n - 1]
  }

  lemma {:induction false} PlacesHold<T>(f: seq<Option<T>>, n: nat)
    requires n <= |f|
    ensures |Places(f, n)| == |Somes(f, n)|
    ensures forall k | 0 <= k < |Places(f, n)| ::
      Places(f, n)[k] < n && f[Places(f, n)[k]] == Some(Somes(f, n)[k])
    ensures forall j, k | 0 <= j < k < |Places(f, n)| :: Places(f, n)[j] < Places(f, n)[k]
    ensures forall i | 0 <= i < n && f[i].Some? :: i in Places(f, n)
  {
    if n > 0 {
      PlacesHold(f, n - 1);
      var (before, now) := (Places(f, n - 1), Places(f, n));
      if f[n - 1].Some? {
        assert now == before + [n - 1] && now[|before|] == n - 1;
        assert Somes(f, n) == Somes(f, n - 1) + [f[n - 1].value];
      } else {
        assert now == before && Somes(f, n) == Somes(f, n - 1);
      }
    }
  }

  /** The kept rows stand where they stood: none is added, reordered or lost but the aliases. */
  lemma OrderIsKept(c: Catalog, rows: seq<Row>)
    ensures var at := Places(Fates(c, rows), |rows|);
      && |at| == |Collapsed(c, rows)|
      && (forall k | 0 <= k < |at| :: at[k] < |rows| && Collapsed(c, rows)[k].row == rows[at[k]])
      && (forall j, k | 0 <= j < k < |at| :: at[j] < at[k])
      && (forall i | 0 <= i < |rows| :: i in at <==> !Dropped(c, rows[i].id))
  {
    var f := Fates(c, rows);
    PlacesHold(f, |rows|);
    var at := Places(f, |rows|);
    forall k | 0 <= k < |at| ensures Collapsed(c, rows)[k].row == rows[at[k]] {
      assert f[at[k]] == Fate(c, rows[at[k]]);
    }
    forall i | 0 <= i < |rows| ensures i in at <==> !Dropped(c, rows[i].id) {
      assert f[i] == Fate(c, rows[i]);
    }
  }

  /** What the row of a kept base lists: exactly its own levels and those of its aliases, in order. */
  lemma KeptRowsListTheirLevels(c: Catalog, rows: seq<Row>, k: nat)
    requires k < |Collapsed(c, rows)|
    ensures var kept := Collapsed(c, rows)[k];
      && kept.row in rows && !Dropped(c, kept.row.id)
      && (kept.levels.Some? <==> Collapsible(c, kept.row.id))
      && (kept.levels.Some? ==>
            && (forall l: Level :: l in kept.levels.value <==> l in kept.row.explicit || kept.row.id + Suffix(l) in c)
            && (forall i, j | 0 <= i < j < |kept.levels.value| :: kept.levels.value[i] < kept.levels.value[j]))
  {
    var f := Fates(c, rows);
    PlacesHold(f, |rows|);
    var r := rows[Places(f, |rows|)[k]];
    assert Some(Collapsed(c, rows)[k]) == Fate(c, r);
    assert forall l: Level :: l in AliasLevels(c, r.id) <==> r.id + Suffix(l) in c;
  }

  /** A name that merely ends in a level is kept when its base is missing, or has no other
      alias and states no levels. */
  lemma LoneSuffixIsNoAlias(c: Catalog, id: string, l: Level)
    requires id in c && EndsWith(id, Suffix(l))
    ensures Dropped(c, id) <==> Collapsible(c, Base(id, l))
  {
    if Dropped(c, id) {
      var m: Level :| EndsWith(id, Suffix(m)) && Collapsible(c, Base(id, m));
      OneSuffix(id, l, m);
    }
  }

  // The same in terms of the list of rows.

  predicate Named(rows: seq<Row>, id: string) { id != "" && exists k | 0 <= k < |rows| :: rows[k].id == id }

  /** Row `k` is the last one with its id. */
  predicate LastNamed(rows: seq<Row>, k: nat) {
    k < |rows| && forall j | k < j < |rows| :: rows[j].id != rows[k].id
  }

  /** Of the rows with one id the last is meant, and blank ids stand for none. */
  ghost predicate Means(rows: seq<Row>, id: string, r: Row) {
    exists k: nat :: LastNamed(rows, k) && rows[k] == r && r.id == id && id != ""
  }

  lemma {:induction false} IndexedByLastRow(rows: seq<Row>, id: string)
    ensures id in ById(rows) <==> Named(rows, id)
    ensures forall r :: Means(rows, id, r) <==> id in ById(rows) && ById(rows)[id] == r
  {
    if rows != [] {
      var (rest, last) := (rows[..|rows| - 1], |rows| - 1);
      IndexedByLastRow(rest, id);
      MeansOneMore(rest, rows[last], id);
      assert rows == rest + [rows[last]];
      if Named(rest, id) {
        var k :| 0 <= k < last && rest[k].id == id;
        assert rows[k].id == id;
      }
    }
  }

  lemma MeansOneMore(rest: seq<Row>, last: Row, id: string)
    ensures forall r :: Means(rest + [last], id, r) <==>
      if id == last.id && id != "" then r == last else Means(rest, id, r)
  {
    var rows := rest + [last];
    assert rows[|rest|] == last && LastNamed(rows, |rest|);
    forall r | Means(rows, id, r) ensures if id == last.id && id != "" then r == last else Means(rest, id, r) {
      var k: nat :| LastNamed(rows, k) && rows[k] == r && r.id == id && id != "";
      if k < |rest| {
        assert rest[k] == r && rows[|rest|].id != r.id;
        assert LastNamed(rest, k) by {
          forall j | k < j < |rest| ensures rest[j].id != rest[k].id {
            assert rows[j] == rest[j];
          }
        }
      }
    }
    forall r | id != last.id && Means(rest, id, r) ensures Means(rows, id, r) {
      var k: nat :| LastNamed(rest, k) && rest[k] == r && r.id == id && id != "";
      assert rows[k] == r;
      assert LastNamed(rows, k) by {
        forall j | k < j < |rows| ensures rows[j].id != rows[k].id {
          assert j < |rest| ==> rows[j] == rest[j];
        }
      }
    }
  }

  function Extended(base: string, l: Level): string { base + ['-'] + LEVELS[l] }

  ghost predicate HasAnother(rows: seq<Row>, base: string, l: Level) {
    exists m: Level :: m != l && Named(rows, Extended(base, m))
  }

  ghost predicate HasOwnLevels(rows: seq<Row>, base: string) { exists r :: Means(rows, base, r) && r.explicit != {} }

  /** The id extends a listed one by a level, and that one has another such extension, or
      its last row states levels of its own. */
  ghost predicate AliasOf(rows: seq<Row>, id: string, base: string, l: Level) {
    id == Extended(base, l) && Named(rows, base) && (HasAnother(rows, base, l) || HasOwnLevels(rows, base))
  }

  lemma AliasLevelsByRows(rows: seq<Row>, base: string, l: Level)
    ensures l in AliasLevels(ById(rows), base) <==> Named(rows, Extended(base, l))
  {
    IndexedByLastRow(rows, base + Suffix(l));
    assert base + Suffix(l) == Extended(base, l);
  }

  lemma TwoLevels(levels: set<Level>, l: Level)
    requires l in levels
    ensures |levels| >= 2 <==> exists m: Level :: m != l && m in levels
  {
    var others := levels - {l};
    assert levels == others + {l};
    if m: Level :| m != l && m in levels {
      assert m in others;
    } else {
      assert others == {};
    }
  }

  lemma CollapsibleByRows(rows: seq<Row>, base: string, l: Level)
    requires Named(rows, Extended(base, l))
    ensures Collapsible(ById(rows), base) <==> AliasOf(rows, Extended(base, l), base, l)
  {
    var (c, levels) := (ById(rows), AliasLevels(ById(rows), base));
    IndexedByLastRow(rows, base);
    AliasLevelsByRows(rows, base, l);
    TwoLevels(levels, l);
    assert HasAnother(rows, base, l) <==> |levels| >= 2 by {
      forall m: Level ensures m in levels <==> Named(rows, Extended(base, m)) {
        AliasLevelsByRows(rows, base, m);
      }
    }
    assert HasOwnLevels(rows, base) <==> base in c && c[base].explicit != {} by {
      if base in c {
        assert Means(rows, base, c[base]);
      }
    }
  }

  /** A listed row is left out of the collapsed catalog exactly if it is such an alias. */
  lemma AliasesAreDropped(rows: seq<Row>, i: nat)
    requires i < |rows|
    ensures Dropped(ById(rows), rows[i].id) <==>
      rows[i].id != "" && exists base, l: Level :: AliasOf(rows, rows[i].id, base, l)
  {
    IndexedByLastRow(rows, rows[i].id);
    if rows[i].id != "" {
      assert Named(rows, rows[i].id);
      NamedIsDropped(rows, rows[i].id);
    }
  }

  lemma NamedIsDropped(rows: seq<Row>, id: string)
    requires Named(rows, id) && id in ById(rows)
    ensures Dropped(ById(rows), id) <==> exists base, l: Level :: AliasOf(rows, id, base, l)
  {
    hide AliasOf, Collapsible, ById, Named;
    var c := ById(rows);
    if Dropped(c, id) {
      var l: Level :| EndsWith(id, Suffix(l)) && Collapsible(c, Base(id, l));
      DroppedByRows(rows, id, Base(id, l), l);
    }
    if base, l: Level :| AliasOf(rows, id, base, l) {
      AliasExtends(rows, id, base, l);
      DroppedByRows(rows, id, base, l);
    }
  }

  lemma AliasExtends(rows: seq<Row>, id: string, base: string, l: Level)
    requires AliasOf(rows, id, base, l)
    ensures id == base + Suffix(l)
  {
  }

  lemma DroppedByRows(rows: seq<Row>, id: string, base: string, l: Level)
    requires Named(rows, id) && id == base + Suffix(l)
    ensures Collapsible(ById(rows), base) <==> AliasOf(rows, id, base, l)
    ensures EndsWith(id, Suffix(l)) && Base(id, l) == base
  {
    SuffixOf(base, l);
    assert id == Extended(base, l);
    CollapsibleByRows(rows, base, l);
  }

  /** A row that is kept gets a level list exactly if one of the listed ids is its alias, and
      then its own levels and those of all its listed extensions. */
  lemma KeptLevelsByRows(rows: seq<Row>, k: nat)
    requires k < |Collapsed(ById(rows), rows)|
    ensures var kept := Collapsed(ById(rows), rows)[k];
      && (kept.levels.Some? <==> exists l: Level ::
            Named(rows, Extended(kept.row.id, l)) && AliasOf(rows, Extended(kept.row.id, l), kept.row.id, l))
      && (kept.levels.Some? ==> forall l: Level ::
            l in kept.levels.value <==> l in kept.row.explicit || Named(rows, Extended(kept.row.id, l)))
  {
    var c := ById(rows);
    KeptRowsListTheirLevels(c, rows, k);
    var base := Collapsed(c, rows)[k].row.id;
    forall l: Level ensures base + Suffix(l) in c <==> Named(rows, Extended(base, l)) {
      AliasLevelsByRows(rows, base, l);
    }
    forall l: Level | Named(rows, Extended(base, l))
      ensures Collapsible(c, base) <==> AliasOf(rows, Extended(base, l), base, l)
    {
      CollapsibleByRows(rows, base, l);
    }
    if Collapsible(c, base) {
      var l: Level :| l in AliasLevels(c, base);
      AliasLevelsByRows(rows, base, l);
    }
  }
}
