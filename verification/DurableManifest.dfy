/** What a source-update checkpoint records of the durable data, and which later data
    still count as preserved.  Digests are taken as the bytes they stand for. */
module DurableManifest {
  import opened Wrappers

  const CONTENT_DIGEST_MAX_BYTES := 1048576
  const MANIFEST_VERSION := 3

  /** A profile's own logs are known by their place. */
  datatype Place = Elsewhere | RuntimeLog | AgentLog

  datatype Path = Path(name: string, place: Place)

  datatype Meta = Meta(mode: nat, uid: nat, gid: nat)

  /** The rows and schema of a database, apart from one initialization marker. */
  datatype Snapshot = Snapshot(rows: nat, marker: Option<string>)

  const INITIALIZED := "1"

  /** `alias`: the link to the profiles directory; `Special`: a FIFO, socket or device. */
  datatype Body =
    | Regular(bytes: seq<nat>, mtime: int)
    | Database(content: seq<nat>, snapshot: Snapshot)
    | Link(text: seq<nat>, alias: bool)
    | Special(fileType: nat)

  /** `sidecar`: a write-ahead or shared-memory file of a database that is there. */
  datatype File = File(meta: Meta, body: Body, sidecar: bool)

  /** The durable files but for coordination files and excluded directories. */
  type Files = map<Path, File>

  /** What an entry says beside its metadata.  Its kind is the constructor, where
      Bytes and Stamp are both without one. */
  datatype Facts =
    | Bytes(content: seq<nat>)
    | Stamp(size: nat, mtime: int)
    | LinkText(text: seq<nat>)
    | FileType(fileType: nat)
    | Sqlite(whole: Option<seq<nat>>, snapshot: Snapshot)

  datatype Entry = Entry(meta: Meta, facts: Facts)

  datatype Manifest = Manifest(version: int, entries: map<Path, Entry>)

  predicate Supported(version: int) { 1 <= version <= 3 }

  predicate Tracked(version: int, p: Path, f: File) {
    && (version == 3 ==> p.place == Elsewhere)
    && (version >= 2 && !f.body.Link? ==> !f.sidecar)
    && (version == 1 && f.body.Link? ==> !f.body.alias)
  }

  /** Version by version: at first all but the link to the profiles directory; then no
      sidecar of a database that is there, unless it is a link; then no runtime log either. */
  lemma TrackedByVersion(p: Path, f: File)
    ensures Tracked(1, p, f) <==> forall text :: f.body != Link(text, true)
    ensures Tracked(2, p, f) <==> f.body.Link? || f.sidecar == false
    ensures Tracked(3, p, f) <==> p.place == Elsewhere && (f.body.Link? || f.sidecar == false)
  {
  }

  function Recorded(version: int, f: File): Entry {
    Entry(f.meta,
          match f.body
          case Regular(bytes, mtime) =>
            if version == 3 && |bytes| > CONTENT_DIGEST_MAX_BYTES then Stamp(|bytes|, mtime) else Bytes(bytes)
          case Database(content, snapshot) =>
            if version == 1 then Bytes(content)
            else Sqlite(if version == 3 then None else Some(content), snapshot)
          case Link(text, _) => if version == 1 then Bytes(text) else LinkText(text)
          case Special(fileType) => FileType(fileType))
  }

  /** Older manifests have no entry for a special file, and raise. */
  predicate Recordable(version: int, files: Files) {
    Supported(version) &&
    (version < 3 ==> forall p | p in files && Tracked(version, p, files[p]) :: !files[p].body.Special?)
  }

  function Measure(version: int, files: Files): Manifest {
    Manifest(version, map p | p in files && Tracked(version, p, files[p]) :: Recorded(version, files[p]))
  }

  // Comparing two manifests.

  predicate SameSnapshot(before: Snapshot, after: Snapshot) {
    before == after
    || (before.marker.None? && after.marker == Some(INITIALIZED) && before.rows == after.rows)
  }

  /** The same rows, and the same marker or just the marker of an initialization added. */
  lemma SnapshotsByCases(rows: nat, marker: Option<string>, after: Snapshot)
    ensures SameSnapshot(Snapshot(rows, marker), after) <==>
      after == Snapshot(rows, marker) || (marker == None && after == Snapshot(rows, Some("1")))
  {
  }

  datatype Verdict = Unchanged | Equivalent | Appended | Changed

  predicate SameKind(a: Facts, b: Facts) {
    match a
    case Bytes(_) | Stamp(_, _) => b.Bytes? || b.Stamp?
    case LinkText(_) => b.LinkText?
    case FileType(_) => b.FileType?
    case Sqlite(_, _) => b.Sqlite?
  }

  function Compare(version: int, p: Path, a: Entry, b: Entry): Verdict {
    if a == b then Unchanged
    else if a.meta != b.meta || !SameKind(a.facts, b.facts) then Changed
    else if a.facts.Sqlite? && SameSnapshot(a.facts.snapshot, b.facts.snapshot) then Equivalent
    else if version == 2 && p.place == AgentLog && a.facts.Bytes? && b.facts.Bytes?
            && a.facts.content <= b.facts.content
    then Appended
    else Changed
  }

  /** The verification policy: version 1 compares digests, the others entry by entry. */
  predicate Preserved(m: Manifest, n: Manifest) {
    if m.version == 1 then m.entries == n.entries
    else
      && m.entries.Keys == n.entries.Keys
      && forall p | p in m.entries :: !Compare(m.version, p, m.entries[p], n.entries[p]).Changed?
  }

  /** The verification of the data now: None if they cannot be read or recorded. */
  function Checked(baseline: Manifest, now: Option<Files>): Option<bool> {
    if now.None? || !Recordable(baseline.version, now.value) then None
    else Some(Preserved(baseline, Measure(baseline.version, now.value)))
  }

  /** Paths that both manifests have, with this verdict. */
  function Having(m: Manifest, n: Manifest, within: set<Path>, v: Verdict): set<Path> {
    set p | p in within && p in m.entries && p in n.entries && Compare(m.version, p, m.entries[p], n.entries[p]) == v
  }

  datatype Changes = Changes(added: nat, removed: nat, changed: nat, logAppends: nat, sqliteEquivalent: nat)

  datatype Verification = Verification(preserved: bool, changes: Option<Changes>)

  /** The counts over these common paths. */
  function Counted(m: Manifest, n: Manifest, within: set<Path>): Changes {
    Changes(|n.entries.Keys - m.entries.Keys|, |m.entries.Keys - n.entries.Keys|, |Having(m, n, within, Changed)|,
            |Having(m, n, within, Appended)|, |Having(m, n, within, Equivalent)|)
  }

  function OneMore(c: Changes, v: Verdict): Changes {
    match v
    case Unchanged => c
    case Equivalent => c.(sqliteEquivalent := c.sqliteEquivalent + 1)
    case Appended => c.(logAppends := c.logAppends + 1)
    case Changed => c.(changed := c.changed + 1)
  }

  lemma HavingOneMore(m: Manifest, n: Manifest, done: set<Path>, p: Path, v: Verdict)
    requires p !in done && p in m.entries && p in n.entries
    ensures |Having(m, n, done + {p}, v)| ==
      |Having(m, n, done, v)| + if Compare(m.version, p, m.entries[p], n.entries[p]) == v then 1 else 0
  {
    var (before, after) := (Having(m, n, done, v), Having(m, n, done + {p}, v));
    if Compare(m.version, p, m.entries[p], n.entries[p]) == v {
      assert after == before + {p};
    } else {
      assert after == before;
    }
  }

  lemma CountedNone(m: Manifest, n: Manifest)
    ensures Counted(m, n, {}) == Changes(|n.entries.Keys - m.entries.Keys|, |m.entries.Keys - n.entries.Keys|, 0, 0, 0)
  {
    assert forall v :: Having(m, n, {}, v) == {};
  }

  lemma CountedOneMore(m: Manifest, n: Manifest, done: set<Path>, p: Path)
    requires p !in done && p in m.entries && p in n.entries
    ensures Counted(m, n, done + {p}) == OneMore(Counted(m, n, done), Compare(m.version, p, m.entries[p], n.entries[p]))
  {
    HavingOneMore(m, n, done, p, Changed);
    HavingOneMore(m, n, done, p, Appended);
    HavingOneMore(m, n, done, p, Equivalent);
  }

  /** The data now against a baseline: None if they cannot be recorded in its version. */
  method Verify(baseline: Manifest, files: Files) returns (r: Option<Verification>)
    ensures r.Some? <==> Recordable(baseline.version, files)
    ensures r.Some? ==> r.value.preserved == Preserved(baseline, Measure(baseline.version, files))
    ensures r.Some? && baseline.version > 1 ==>
      var now := Measure(baseline.version, files);
      r.value.changes == Some(Counted(baseline, now, baseline.entries.Keys * now.entries.Keys))
  {
    if !Recordable(baseline.version, files) { return None; }
    var current := Measure(baseline.version, files);
    if baseline.version == 1 { return Some(Verification(current.entries == baseline.entries, None)); }
    var counts := Count(baseline, current);
    CountsDecide(baseline, current, baseline.entries.Keys * current.entries.Keys);
    return Some(Verification(counts.added == 0 && counts.changed == 0 && counts.removed == 0, Some(counts)));
  }

  method Count(baseline: Manifest, current: Manifest) returns (counts: Changes)
    ensures counts == Counted(baseline, current, baseline.entries.Keys * current.entries.Keys)
  {
    var before, after := baseline.entries, current.entries;
    counts := Changes(|after.Keys - before.Keys|, |before.Keys - after.Keys|, 0, 0, 0);
    CountedNone(baseline, current);
    ghost var done: set<Path> := {};
    var rest := before.Keys * after.Keys;
    while rest != {}
      invariant done !! rest && done + rest == before.Keys * after.Keys
      invariant counts == Counted(baseline, current, done)
      decreases rest
    {
      var name :| name in rest;
      CountedOneMore(baseline, current, done, name);
      counts := OneMore(counts, Compare(baseline.version, name, before[name], after[name]));
      rest, done := rest - {name}, done + {name};
    }
    assert done == before.Keys * after.Keys;
  }

  lemma CountsDecide(m: Manifest, n: Manifest, common: set<Path>)
    requires m.version != 1 && common == m.entries.Keys * n.entries.Keys
    ensures Preserved(m, n) <==>
      && |n.entries.Keys - m.entries.Keys| == |Having(m, n, common, Changed)| == |m.entries.Keys - n.entries.Keys| == 0
  {
    if Preserved(m, n) {
      assert n.entries.Keys - m.entries.Keys == {} && m.entries.Keys - n.entries.Keys == {};
      assert Having(m, n, common, Changed) == {};
    }
    if |n.entries.Keys - m.entries.Keys| == |Having(m, n, common, Changed)| == |m.entries.Keys - n.entries.Keys| == 0 {
      forall p ensures p in m.entries <==> p in n.entries {
        assert p !in n.entries.Keys - m.entries.Keys && p !in m.entries.Keys - n.entries.Keys;
      }
      forall p | p in m.entries ensures !Compare(m.version, p, m.entries[p], n.entries[p]).Changed? {
        assert p !in Having(m, n, common, Changed);
      }
    }
  }

  // What preserved means for the files themselves.

  /** What a digest is taken of. */
  function Raw(f: File): seq<nat> {
    match f.body
    case Regular(bytes, _) => bytes
    case Database(content, _) => content
    case Link(text, _) => text
    case Special(_) => []
  }

  /** One file then and now, as far as a manifest of this version tells. */
  predicate Alike(version: int, p: Path, a: File, b: File) {
    && a.meta == b.meta
    && if version == 1 then Raw(a) == Raw(b)
       else match a.body
         case Regular(bytes, mtime) =>
           b.body.Regular? &&
           (if version == 2 then bytes == b.body.bytes || (p.place == AgentLog && bytes <= b.body.bytes)
            else if |bytes| <= CONTENT_DIGEST_MAX_BYTES then bytes == b.body.bytes
            else |bytes| == |b.body.bytes| && mtime == b.body.mtime)
         case Database(_, snapshot) => b.body.Database? && SameSnapshot(snapshot, b.body.snapshot)
         case Link(text, _) => b.body.Link? && text == b.body.text
         case Special(fileType) => b.body.Special? && fileType == b.body.fileType
  }

  lemma AlikeFilesCompare(version: int, p: Path, a: File, b: File)
    requires Supported(version) && version != 1
    ensures Alike(version, p, a, b) <==> !Compare(version, p, Recorded(version, a), Recorded(version, b)).Changed?
  {
  }

  lemma AlikeFilesDigest(p: Path, a: File, b: File)
    requires !a.body.Special? && !b.body.Special?
    ensures Alike(1, p, a, b) <==> Recorded(1, a) == Recorded(1, b)
  {
  }

  predicate TrackedIn(version: int, files: Files, p: Path) { p in files && Tracked(version, p, files[p]) }

  /** Data are preserved exactly when the same paths are tracked, and at each of them the
      file then and the file now are alike. */
  lemma PreservedExactlyWhenAlike(version: int, then_: Files, now: Files)
    requires Recordable(version, then_) && Recordable(version, now)
    ensures Preserved(Measure(version, then_), Measure(version, now)) <==>
      && (forall p :: TrackedIn(version, then_, p) <==> TrackedIn(version, now, p))
      && (forall p | TrackedIn(version, then_, p) && TrackedIn(version, now, p) :: Alike(version, p, then_[p], now[p]))
  {
    var (m, n) := (Measure(version, then_), Measure(version, now));
    forall p ensures p in m.entries <==> TrackedIn(version, then_, p) {}
    forall p ensures p in n.entries <==> TrackedIn(version, now, p) {}
    forall p | p in m.entries && p in n.entries
      ensures Alike(version, p, then_[p], now[p]) <==>
        if version == 1 then m.entries[p] == n.entries[p] else !Compare(version, p, m.entries[p], n.entries[p]).Changed?
    {
      if version == 1 {
        AlikeFilesDigest(p, then_[p], now[p]);
      } else {
        AlikeFilesCompare(version, p, then_[p], now[p]);
      }
    }
    if version == 1 && (forall p :: TrackedIn(version, then_, p) <==> TrackedIn(version, now, p)) {
      assert m.entries.Keys == n.entries.Keys;
    }
  }

  /** Unchanged data are preserved, and what is preserved twice is preserved. */
  lemma PreservedIsPreorder(version: int, a: Files, b: Files, c: Files)
    requires Recordable(version, a) && Recordable(version, b) && Recordable(version, c)
    ensures Preserved(Measure(version, a), Measure(version, a))
    ensures Preserved(Measure(version, a), Measure(version, b)) && Preserved(Measure(version, b), Measure(version, c))
      ==> Preserved(Measure(version, a), Measure(version, c))
  {
    PreservedExactlyWhenAlike(version, a, a);
    PreservedExactlyWhenAlike(version, a, b);
    PreservedExactlyWhenAlike(version, b, c);
    PreservedExactlyWhenAlike(version, a, c);
    if Preserved(Measure(version, a), Measure(version, b)) && Preserved(Measure(version, b), Measure(version, c)) {
      forall p | TrackedIn(version, a, p) && TrackedIn(version, c, p) ensures Alike(version, p, a[p], c[p]) {
        assert TrackedIn(version, a, p) <==> TrackedIn(version, b, p);
        AlikeOn(version, p, a[p], b[p], c[p]);
      }
      forall p ensures TrackedIn(version, a, p) <==> TrackedIn(version, c, p) {
        assert TrackedIn(version, a, p) <==> TrackedIn(version, b, p);
        assert TrackedIn(version, b, p) <==> TrackedIn(version, c, p);
      }
    }
  }

  lemma AlikeOn(version: int, p: Path, a: File, b: File, c: File)
    requires Supported(version) && Alike(version, p, a, b) && Alike(version, p, b, c)
    ensures Alike(version, p, a, c)
  {
  }

  // Changes that the policy accepts although the manifest differs.

  /** A database that the next start initializes. */
  lemma MarkerIsAccepted(p: Path, meta: Meta, before: seq<nat>, after: seq<nat>, rows: nat)
    requires p.place == Elsewhere
    ensures var a: Files := map[p := File(meta, Database(before, Snapshot(rows, None)), false)];
      var b: Files := map[p := File(meta, Database(after, Snapshot(rows, Some(INITIALIZED))), false)];
      var (m, n) := (Measure(MANIFEST_VERSION, a), Measure(MANIFEST_VERSION, b));
      m != n && Preserved(m, n) && !Preserved(n, m)
  {
    var a := File(meta, Database(before, Snapshot(rows, None)), false);
    var b := File(meta, Database(after, Snapshot(rows, Some(INITIALIZED))), false);
    OneFile(p, a, b);
    OneFile(p, b, a);
  }

  lemma OneFile(p: Path, a: File, b: File)
    requires p.place == Elsewhere && !a.sidecar && !b.sidecar
    ensures var (m, n) := (Measure(MANIFEST_VERSION, map[p := a]), Measure(MANIFEST_VERSION, map[p := b]));
      && p in m.entries && m.entries[p] == Recorded(MANIFEST_VERSION, a)
      && p in n.entries && n.entries[p] == Recorded(MANIFEST_VERSION, b)
      && (Preserved(m, n) <==> Alike(MANIFEST_VERSION, p, a, b))
  {
    PreservedExactlyWhenAlike(MANIFEST_VERSION, map[p := a], map[p := b]);
    assert TrackedIn(MANIFEST_VERSION, map[p := a], p) && TrackedIn(MANIFEST_VERSION, map[p := b], p);
  }

  /** A file over the digest limit whose size and time stay: its content may be any other. */
  lemma LargeContentIsNotCompared(p: Path, meta: Meta, a: seq<nat>, b: seq<nat>, mtime: int)
    requires p.place == Elsewhere && |a| == |b| > CONTENT_DIGEST_MAX_BYTES
    ensures Preserved(
      Measure(MANIFEST_VERSION, map[p := File(meta, Regular(a, mtime), false)]),
      Measure(MANIFEST_VERSION, map[p := File(meta, Regular(b, mtime), false)]))
  {
    OneFile(p, File(meta, Regular(a, mtime), false), File(meta, Regular(b, mtime), false));
  }
}
