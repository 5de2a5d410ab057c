/** Archive validation before a restore: which archives are accepted, and why
    extracting an accepted one never leads through a link or a regular file. */
module ArchiveGraph {
  import opened Wrappers

  const MAX_MEMBERS := 1000000

  datatype Kind = File | Dir | Symlink | Hardlink | Special

  /** A path component: the two reserved volume marker names, "..", or any other name. */
  datatype Name = Marker | Initialized | Parent | Plain(text: string)

  /** A PurePosixPath: its parts, without a leading slash. */
  datatype Path = Path(absolute: bool, parts: seq<Name>)

  datatype Member = Member(path: Path, kind: Kind, linkname: Path)

  predicate Inside(p: Path) { !p.absolute && Parent !in p.parts }

  predicate Reserved(p: Path) {
    |p.parts| > 0 && (p.parts[|p.parts| - 1] == Marker || p.parts[|p.parts| - 1] == Initialized)
  }

  predicate Admissible(m: Member) { Inside(m.path) && !Reserved(m.path) && !m.kind.Special? }

  predicate ProperPrefix(a: Path, b: Path) { a.absolute == b.absolute && a.parts < b.parts }

  // What an archive must satisfy.

  predicate AllAdmissible(archive: seq<Member>) {
    forall i {:trigger Admissible(archive[i])} | 0 <= i < |archive| :: Admissible(archive[i])
  }

  /** No earlier member has this one's path. */
  predicate FirstOfItsPath(archive: seq<Member>, j: nat)
    requires j < |archive|
  {
    forall i | 0 <= i < j :: archive[i].path != archive[j].path
  }

  predicate DistinctPaths(archive: seq<Member>) {
    forall j {:trigger FirstOfItsPath(archive, j)} | 0 <= j < |archive| :: FirstOfItsPath(archive, j)
  }

  predicate ParentsOk(archive: seq<Member>, m: Member) {
    forall j | 0 <= j < |archive| :: ProperPrefix(archive[j].path, m.path) ==> archive[j].kind.Dir?
  }

  predicate ParentsAreDirs(archive: seq<Member>) {
    forall i {:trigger ParentsOk(archive, archive[i])} | 0 <= i < |archive| :: ParentsOk(archive, archive[i])
  }

  predicate Anchored(archive: seq<Member>, m: Member) {
    m.kind.Hardlink? ==>
      Inside(m.linkname) && exists j | 0 <= j < |archive| :: archive[j].path == m.linkname && archive[j].kind.File?
  }

  predicate AllAnchored(archive: seq<Member>) {
    forall i {:trigger Anchored(archive, archive[i])} | 0 <= i < |archive| :: Anchored(archive, archive[i])
  }

  predicate Accepted(archive: seq<Member>) {
    && |archive| <= MAX_MEMBERS && AllAdmissible(archive) && DistinctPaths(archive)
    && ParentsAreDirs(archive) && AllAnchored(archive)
  }

  // The same, member by member.

  /** A relative name that never leads upwards. */
  predicate StaysBelow(p: Path) { p.absolute == false && forall k | 0 <= k < |p.parts| :: !p.parts[k].Parent? }

  predicate Extractable(m: Member) {
    && StaysBelow(m.path)
    && (m.path.parts != [] ==> var last := m.path.parts[|m.path.parts| - 1]; !last.Marker? && !last.Initialized?)
    && (m.kind.File? || m.kind.Dir? || m.kind.Symlink? || m.kind.Hardlink?)
  }

  /** The archive has this path, and it is no directory. */
  predicate HasNoDirectoryAt(archive: seq<Member>, p: Path) {
    exists j | 0 <= j < |archive| :: archive[j].path == p && !archive[j].kind.Dir?
  }

  predicate HasFileAt(archive: seq<Member>, p: Path) {
    exists j | 0 <= j < |archive| :: archive[j].path == p && archive[j].kind.File?
  }

  predicate MemberFits(archive: seq<Member>, m: Member) {
    && Extractable(m)
    && (forall c | 0 <= c < |m.path.parts| :: !HasNoDirectoryAt(archive, Path(false, m.path.parts[..c])))
    && (m.kind.Hardlink? ==> StaysBelow(m.linkname) && HasFileAt(archive, m.linkname))
  }

  /** An accepted archive has at most a million members, all of different paths; each is a
      file, directory or link below the root and no marker, has only directories above it
      in the archive, and if it is a hard link leads to a file of the archive. */
  lemma AcceptedInFull(archive: seq<Member>)
    ensures Accepted(archive) <==>
      && |archive| <= 1000000 && (forall i | 0 <= i < |archive| :: MemberFits(archive, archive[i]))
      && forall i, j | 0 <= i < |archive| && 0 <= j < |archive| && i != j :: archive[i].path != archive[j].path
  {
    PathsDiffer(archive);
    forall i | 0 <= i < |archive|
      ensures MemberFits(archive, archive[i]) <==>
        Admissible(archive[i]) && ParentsOk(archive, archive[i]) && Anchored(archive, archive[i])
    {
      FitsInFull(archive, archive[i]);
    }
    if forall i | 0 <= i < |archive| :: MemberFits(archive, archive[i]) {
      forall i | 0 <= i < |archive|
        ensures Admissible(archive[i]) && ParentsOk(archive, archive[i]) && Anchored(archive, archive[i])
      {
        assert MemberFits(archive, archive[i]);
      }
    }
  }

  lemma PathsDiffer(archive: seq<Member>)
    ensures DistinctPaths(archive) <==>
      forall i, j | 0 <= i < |archive| && 0 <= j < |archive| && i != j :: archive[i].path != archive[j].path
  {
    if DistinctPaths(archive) {
      forall i, j | 0 <= i < |archive| && 0 <= j < |archive| && i != j ensures archive[i].path != archive[j].path {
        assert FirstOfItsPath(archive, i) && FirstOfItsPath(archive, j);
      }
    }
  }

  lemma FitsInFull(archive: seq<Member>, m: Member)
    ensures MemberFits(archive, m) <==> Admissible(m) && ParentsOk(archive, m) && Anchored(archive, m)
  {
    StaysBelowIsInside(m.path);
    StaysBelowIsInside(m.linkname);
    if Extractable(m) {
      forall j | 0 <= j < |archive| && ProperPrefix(archive[j].path, m.path)
        ensures archive[j].path == Path(false, m.path.parts[..|archive[j].path.parts|])
      {
      }
      forall c, j | 0 <= c < |m.path.parts| && 0 <= j < |archive| && archive[j].path == Path(false, m.path.parts[..c])
        ensures ProperPrefix(archive[j].path, m.path)
      {
      }
    }
  }

  lemma StaysBelowIsInside(p: Path)
    ensures StaysBelow(p) <==> Inside(p)
  {
  }

  // The validator.

  /** The dictionary of the first `n` members. */
  ghost predicate Indexes(members: map<Path, Member>, archive: seq<Member>, n: nat)
    requires n <= |archive|
  {
    && (forall i | 0 <= i < n :: archive[i].path in members && members[archive[i].path] == archive[i])
    && (forall p | p in members :: exists i | 0 <= i < n :: archive[i].path == p)
    && |members| == n
  }

  lemma FirstExactlyWhenNew(members: map<Path, Member>, archive: seq<Member>, n: nat)
    requires n < |archive| && Indexes(members, archive, n)
    ensures FirstOfItsPath(archive, n) <==> archive[n].path !in members
  {
  }

  lemma IndexesNext(members: map<Path, Member>, archive: seq<Member>, n: nat)
    requires n < |archive| && Indexes(members, archive, n) && archive[n].path !in members
    ensures Indexes(members[archive[n].path := archive[n]], archive, n + 1)
  {
    var more := members[archive[n].path := archive[n]];
    forall p | p in more ensures exists i | 0 <= i < n + 1 :: archive[i].path == p {
      if p != archive[n].path {
        var i :| 0 <= i < n && archive[i].path == p;
      }
    }
  }

  method CheckMember(members: map<Path, Member>, archive: seq<Member>, n: nat) returns (ok: bool)
    requires n < |archive| && Indexes(members, archive, n)
    ensures ok <==> Admissible(archive[n]) && FirstOfItsPath(archive, n)
    ensures ok ==> archive[n].path !in members
  {
    var m := archive[n];
    FirstExactlyWhenNew(members, archive, n);
    return !(!Inside(m.path) || Reserved(m.path) || m.path in members || m.kind.Special?);
  }

  method ReadMembers(archive: seq<Member>) returns (ok: bool, members: map<Path, Member>)
    ensures ok <==> |archive| <= MAX_MEMBERS && AllAdmissible(archive) && DistinctPaths(archive)
    ensures ok ==> Indexes(members, archive, |archive|)
  {
    members := map[];
    for n := 0 to |archive|
      invariant n <= MAX_MEMBERS && Indexes(members, archive, n)
      invariant forall i {:trigger Admissible(archive[i])} | 0 <= i < n :: Admissible(archive[i])
      invariant forall j {:trigger FirstOfItsPath(archive, j)} | 0 <= j < n :: FirstOfItsPath(archive, j)
    {
      var m := archive[n];
      var fine := CheckMember(members, archive, n);
      if !fine { return false, members; }
      if |members| >= MAX_MEMBERS { return false, members; }
      IndexesNext(members, archive, n);
      members := members[m.path := m];
    }
    return true, members;
  }

  method CheckParents(m: Member, members: map<Path, Member>, ghost archive: seq<Member>) returns (ok: bool)
    requires Indexes(members, archive, |archive|)
    ensures ok <==> ParentsOk(archive, m)
  {
    var k := |m.path.parts|;
    while k > 0
      invariant k <= |m.path.parts|
      invariant forall j | 0 <= j < |archive| ::
        ProperPrefix(archive[j].path, m.path) && |archive[j].path.parts| >= k ==> archive[j].kind.Dir?
    {
      k := k - 1;
      var parent := Path(m.path.absolute, m.path.parts[..k]);
      assert forall j | 0 <= j < |archive| ::
        ProperPrefix(archive[j].path, m.path) && |archive[j].path.parts| == k ==> archive[j].path == parent;
      if parent in members && !members[parent].kind.Dir? { return false; }
    }
    return true;
  }

  method CheckTarget(m: Member, members: map<Path, Member>, ghost archive: seq<Member>) returns (ok: bool)
    requires Indexes(members, archive, |archive|)
    ensures ok <==> Anchored(archive, m)
  {
    if !m.kind.Hardlink? { return true; }
    if !Inside(m.linkname) || m.linkname !in members { return false; }
    return members[m.linkname].kind.File?;
  }

  method CheckGraph(archive: seq<Member>, members: map<Path, Member>) returns (ok: bool)
    requires Indexes(members, archive, |archive|)
    ensures ok <==> ParentsAreDirs(archive) && AllAnchored(archive)
  {
    for n := 0 to |archive|
      invariant forall i {:trigger ParentsOk(archive, archive[i])} | 0 <= i < n :: ParentsOk(archive, archive[i])
      invariant forall i {:trigger Anchored(archive, archive[i])} | 0 <= i < n :: Anchored(archive, archive[i])
    {
      var parents := CheckParents(archive[n], members, archive);
      if !parents { return false; }
      var target := CheckTarget(archive[n], members, archive);
      if !target { return false; }
    }
    return true;
  }

  /** Exactly the archives that satisfy the rules are accepted. */
  method ValidateArchive(archive: seq<Member>) returns (accepted: bool)
    ensures accepted <==> Accepted(archive)
  {
    var ok, members := ReadMembers(archive);
    if !ok { return false; }
    accepted := CheckGraph(archive, members);
  }

  // Extraction.

  datatype Node = Directory | Regular | Link

  type Tree = map<Path, Node>

  function NodeOf(m: Member): Node {
    match m.kind
    case Dir => Directory
    case Symlink => Link
    case _ => Regular
  }

  /** A component above the path is no directory. */
  predicate Blocked(t: Tree, p: Path) { exists q :: q in t && ProperPrefix(q, p) && t[q] != Directory }

  function Above(p: Path): set<Path> { set k | 0 <= k < |p.parts| :: Path(p.absolute, p.parts[..k]) }

  /** Missing directories are made; a path that is there can only be a directory again. */
  function Place(t: Tree, m: Member): Option<Tree> {
    if Blocked(t, m.path) || (m.path in t && !(t[m.path] == Directory && m.kind.Dir?)) then None
    else Some((map q | q in t.Keys + Above(m.path) :: if q in t then t[q] else Directory)[m.path := NodeOf(m)])
  }

  function Extract(archive: seq<Member>): Option<Tree> {
    if archive == [] then Some(map[])
    else
      var t := Extract(archive[..|archive| - 1]);
      if t.None? then None else Place(t.value, archive[|archive| - 1])
  }

  /** Members as they are, directories above them, and nothing else. */
  ghost predicate Holds(t: Tree, archive: seq<Member>) {
    && (forall i | 0 <= i < |archive| :: archive[i].path in t && t[archive[i].path] == NodeOf(archive[i]))
    && (forall i, q | 0 <= i < |archive| && q in Above(archive[i].path) :: q in t)
    && (forall q | q in t :: Explained(t, archive, q))
  }

  lemma AboveIsPrefix(p: Path, q: Path)
    ensures q in Above(p) <==> ProperPrefix(q, p)
  {
    if ProperPrefix(q, p) {
      assert q == Path(p.absolute, p.parts[..|q.parts|]);
    }
  }

  /** One of the two lies below the other, and that other is no directory. */
  predicate Collide(a: Member, b: Member) {
    (ProperPrefix(a.path, b.path) && !a.kind.Dir?) || (ProperPrefix(b.path, a.path) && !b.kind.Dir?)
  }

  /** Placing the next member fails exactly when it and an earlier one have a non-directory parent. */
  lemma PlaceFailsExactlyOnBadParents(t: Tree, archive: seq<Member>, m: Member)
    requires Holds(t, archive) && forall i | 0 <= i < |archive| :: archive[i].path != m.path
    ensures Place(t, m).None? <==> exists i | 0 <= i < |archive| :: Collide(archive[i], m)
  {
    if Blocked(t, m.path) {
      var q :| q in t && ProperPrefix(q, m.path) && t[q] != Directory;
      assert Explained(t, archive, q);
      var i :| 0 <= i < |archive| && archive[i].path == q;
      assert Collide(archive[i], m);
    } else if m.path in t && !m.kind.Dir? {
      assert Explained(t, archive, m.path);
      var i :| 0 <= i < |archive| && m.path in Above(archive[i].path);
      AboveIsPrefix(archive[i].path, m.path);
      assert Collide(archive[i], m);
    }
    forall i | 0 <= i < |archive| && ProperPrefix(archive[i].path, m.path) && !archive[i].kind.Dir?
      ensures Blocked(t, m.path)
    {
      assert t[archive[i].path] != Directory;
    }
    forall i | 0 <= i < |archive| && ProperPrefix(m.path, archive[i].path) && !m.kind.Dir?
      ensures Place(t, m).None?
    {
      AboveIsPrefix(archive[i].path, m.path);
    }
  }

  /** Where a node of the tree comes from. */
  ghost predicate Explained(t: Tree, archive: seq<Member>, q: Path)
    requires q in t
  {
    || (exists i | 0 <= i < |archive| :: archive[i].path == q)
    || (t[q] == Directory && exists i | 0 <= i < |archive| :: q in Above(archive[i].path))
  }

  lemma StillExplained(t: Tree, u: Tree, archive: seq<Member>, m: Member, q: Path)
    requires q in t && q in u && u[q] == t[q] && Explained(t, archive, q)
    ensures Explained(u, archive + [m], q)
  {
    var all := archive + [m];
    if i :| 0 <= i < |archive| && archive[i].path == q {
      assert all[i].path == q;
    } else {
      var i :| 0 <= i < |archive| && q in Above(archive[i].path);
      assert q in Above(all[i].path);
    }
  }

  lemma PlaceHolds(t: Tree, archive: seq<Member>, m: Member)
    requires Holds(t, archive) && Place(t, m).Some?
    requires forall i | 0 <= i < |archive| :: archive[i].path != m.path
    ensures Holds(Place(t, m).value, archive + [m])
  {
    var u, all := Place(t, m).value, archive + [m];
    assert all[|archive|] == m && forall i | 0 <= i < |archive| :: all[i] == archive[i];
    assert m.path !in Above(m.path);
    forall q | q in u ensures Explained(u, all, q) {
      if q != m.path && q in t {
        StillExplained(t, u, archive, m, q);
      } else {
        assert q == m.path || q in Above(m.path);
      }
    }
  }

  /** In whatever order the members come, extraction meets no link or regular file on
      its way exactly when every member's parents in the archive are directories. */
  lemma {:induction false} ExtractsExactlyWhenParentsAreDirs(archive: seq<Member>)
    requires DistinctPaths(archive)
    ensures Extract(archive).Some? <==> ParentsAreDirs(archive)
    ensures Extract(archive).Some? ==> Holds(Extract(archive).value, archive)
  {
    if archive != [] {
      var rest, m := archive[..|archive| - 1], archive[|archive| - 1];
      assert archive == rest + [m];
      assert forall j | 0 <= j < |rest| :: FirstOfItsPath(archive, j) ==> FirstOfItsPath(rest, j);
      assert FirstOfItsPath(archive, |rest|);
      ExtractsExactlyWhenParentsAreDirs(rest);
      ParentsSnoc(rest, m);
      if Extract(rest).Some? {
        PlaceFailsExactlyOnBadParents(Extract(rest).value, rest, m);
        if Place(Extract(rest).value, m).Some? {
          PlaceHolds(Extract(rest).value, rest, m);
        }
      }
    }
  }

  lemma ParentsSnoc(rest: seq<Member>, m: Member)
    ensures ParentsAreDirs(rest + [m]) <==>
      ParentsAreDirs(rest) && !exists i | 0 <= i < |rest| :: Collide(rest[i], m)
  {
    var all := rest + [m];
    assert all[|rest|] == m && forall i | 0 <= i < |rest| :: all[i] == rest[i];
    if ParentsAreDirs(all) {
      forall i | 0 <= i < |rest| ensures ParentsOk(rest, rest[i]) && !Collide(rest[i], m) {
        assert ParentsOk(all, all[i]) && ParentsOk(all, all[|rest|]);
        assert forall j | 0 <= j < |rest| :: all[j] == rest[j];
      }
    }
    if ParentsAreDirs(rest) && !exists i | 0 <= i < |rest| :: Collide(rest[i], m) {
      forall i | 0 <= i < |all| ensures ParentsOk(all, all[i]) {
        assert i < |rest| ==> ParentsOk(rest, rest[i]);
        forall j | 0 <= j < |all| && ProperPrefix(all[j].path, all[i].path) ensures all[j].kind.Dir? {
          assert j < |rest| && i == |rest| ==> !Collide(rest[j], m);
          assert i < |rest| && j == |rest| ==> !Collide(rest[i], m);
        }
      }
    }
  }

  /** An accepted archive extracts, and every hard link's target is then a regular file
      of the archive with nothing but directories above it. */
  lemma AcceptedArchivesAreSafe(archive: seq<Member>)
    requires Accepted(archive)
    ensures Extract(archive).Some?
    ensures var t := Extract(archive).value;
      forall i | 0 <= i < |archive| && archive[i].kind.Hardlink? ::
        && archive[i].linkname in t && t[archive[i].linkname] == Regular
        && forall q | ProperPrefix(q, archive[i].linkname) :: q in t && t[q] == Directory
  {
    ExtractsExactlyWhenParentsAreDirs(archive);
    forall i | 0 <= i < |archive| && archive[i].kind.Hardlink?
      ensures TargetIsSafe(Extract(archive).value, archive[i].linkname)
    {
      assert Anchored(archive, archive[i]);
      var j :| 0 <= j < |archive| && archive[j].path == archive[i].linkname && archive[j].kind.File?;
      MemberIsReachable(Extract(archive).value, archive, j);
    }
  }

  ghost predicate TargetIsSafe(t: Tree, p: Path) {
    p in t && t[p] == Regular && forall q | ProperPrefix(q, p) :: q in t && t[q] == Directory
  }

  lemma MemberIsReachable(t: Tree, archive: seq<Member>, j: nat)
    requires j < |archive| && Holds(t, archive) && ParentsAreDirs(archive)
    ensures forall q | ProperPrefix(q, archive[j].path) :: q in t && t[q] == Directory
  {
    forall q | ProperPrefix(q, archive[j].path) ensures q in t && t[q] == Directory {
      AboveIsPrefix(archive[j].path, q);
      assert Explained(t, archive, q);
      if i :| 0 <= i < |archive| && archive[i].path == q {
        assert ParentsOk(archive, archive[j]);
      }
    }
  }
}
