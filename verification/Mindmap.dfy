/** Validation of a parsed mind map: which documents are accepted, and why. */
module Mindmap {
  import opened Wrappers
  import opened MindmapCycles

  const MAX_NODES := 40
  const MAX_EDGES := 80
  const MAX_LABEL := 200

  /** `plain`: only known attributes, no nested element, and the remaining
      attribute values in their required form. */
  datatype Node = Node(id: string, text: nat, parent: Option<string>, plain: bool)

  datatype Edge = Edge(id: string, source: string, target: string, plain: bool)

  datatype Document = Document(
    version: Option<string>, strayAttribute: bool, strayChild: bool, nodes: seq<Node>, edges: seq<Edge>)

  datatype Failure = Malformed | TooLarge | Unsupported

  type Parents = map<string, Option<string>>

  predicate Letter(c: char) { 'A' <= c <= 'Z' || 'a' <= c <= 'z' }

  predicate Identifier(s: string) {
    && 1 <= |s| <= 32 && Letter(s[0])
    && forall c <- s[1..] :: Letter(c) || '0' <= c <= '9' || c == '_' || c == '-'
  }

  /** The k-th ancestor. */
  function Up(parents: Parents, x: string, k: nat): Option<string>
    decreases k
  {
    if k == 0 then Some(x)
    else if x in parents && parents[x].Some? then Up(parents, parents[x].value, k - 1)
    else None
  }

  /** From every node, following parents reaches the root in fewer steps than there are nodes. */
  ghost predicate Tree(parents: Parents, root: string) {
    && root in parents && parents[root] == None
    && (forall x <- parents :: exists k :: 0 <= k < |parents| && Up(parents, x, k) == Some(root))
  }

  ghost predicate Rooted(parents: Parents) { exists root :: Tree(parents, root) }

  /** The child lists are the parent relation read backwards. */
  ghost predicate Inverts(children: Graph, parents: Parents) {
    && children.Keys == parents.Keys
    && (forall p, c {:trigger c in Children(children, p)} ::
          c in Children(children, p) <==> c in parents && parents[c] == Some(p))
  }

  lemma {:induction false} Ascends(parents: Parents, children: Graph, order: seq<string>, root: string, i: nat)
    requires Inverts(children, parents) && Finished(children, order) && i < |order|
    requires forall x <- parents :: x in order
    requires forall x <- order :: x in parents
    requires forall x <- parents :: parents[x] == None <==> x == root
    ensures exists k :: 0 <= k < |order| - i && Up(parents, order[i], k) == Some(root)
    decreases |order| - i
  {
    var x := order[i];
    if x == root {
      assert Up(parents, x, 0) == Some(root);
    } else {
      var p := parents[x].value;
      assert x in Children(children, p);
      var j :| 0 <= j < |order| && order[j] == p;
      assert x in order[..j];
      Ascends(parents, children, order, root, j);
      var k :| 0 <= k < |order| - j && Up(parents, p, k) == Some(root);
      assert Up(parents, x, k + 1) == Some(root);
    }
  }

  lemma {:induction false} DistinctCount(s: seq<string>)
    requires forall i, j | 0 <= i < j < |s| :: s[i] != s[j]
    ensures |Members(s)| == |s|
  {
    if s != [] {
      DistinctCount(s[1..]);
      assert Members(s) == {s[0]} + Members(s[1..]);
      assert s[0] !in Members(s[1..]) by {
        forall j | 0 <= j < |s[1..]| ensures s[1..][j] != s[0] { assert s[1..][j] == s[j + 1]; }
      }
    }
  }

  /** A parent map whose child graph the search finished is a tree. */
  lemma AcyclicIsTree(parents: Parents, children: Graph, order: seq<string>, root: string)
    requires Inverts(children, parents) && Finished(children, order)
    requires forall x <- parents :: x in order
    requires forall x <- order :: x in parents
    requires root in parents && forall x <- parents :: parents[x] == None <==> x == root
    ensures Tree(parents, root)
  {
    DistinctCount(order);
    assert Members(order) == parents.Keys;
    forall x | x in parents
      ensures exists k :: 0 <= k < |parents| && Up(parents, x, k) == Some(root)
    {
      var i :| 0 <= i < |order| && order[i] == x;
      Ascends(parents, children, order, root, i);
      var k :| 0 <= k < |order| - i && Up(parents, x, k) == Some(root);
    }
  }

  lemma {:induction false} UpAdd(parents: Parents, x: string, a: nat, b: nat)
    ensures Up(parents, x, a + b) == if Up(parents, x, a).Some? then Up(parents, Up(parents, x, a).value, b) else None
    decreases a
  {
    if a > 0 && x in parents && parents[x].Some? {
      UpAdd(parents, parents[x].value, a - 1, b);
    }
  }

  lemma {:induction false} LoopNeverEnds(parents: Parents, x: string, m: nat, j: nat)
    requires m >= 1 && Up(parents, x, m) == Some(x)
    ensures Up(parents, x, j).Some?
    decreases j
  {
    if j < m {
      UpAdd(parents, x, j, m - j);
    } else {
      LoopNeverEnds(parents, x, m, j - m);
      UpAdd(parents, x, m, j - m);
    }
  }

  lemma {:induction false} WalkClimbs(parents: Parents, children: Graph, p: seq<string>)
    requires Inverts(children, parents) && Walk(children, p) && |p| >= 1
    ensures Up(parents, p[|p| - 1], |p| - 1) == Some(p[0])
    decreases |p|
  {
    if |p| > 1 {
      var q := p[..|p| - 1];
      assert p[|p| - 2 + 1] in Children(children, p[|p| - 2]);
      forall i | 0 <= i < |q| - 1 ensures q[i + 1] in Children(children, q[i]) {
        assert p[i + 1] in Children(children, p[i]);
      }
      WalkClimbs(parents, children, q);
    }
  }

  /** A cycle in the child graph leaves some node without a way to the root. */
  lemma CyclicIsNoTree(parents: Parents, children: Graph)
    requires Inverts(children, parents) && Cyclic(children)
    ensures !Rooted(parents)
  {
    var p :| Cycle(children, p);
    var x, m := p[0], |p| - 1;
    WalkClimbs(parents, children, p);
    assert p[1] in Children(children, x);
    forall root | Tree(parents, root)
      ensures false
    {
      var k :| 0 <= k < |parents| && Up(parents, x, k) == Some(root);
      UpAdd(parents, x, k, 1);
      assert Up(parents, root, 1) == None;
      LoopNeverEnds(parents, x, m, k + 1);
    }
  }

  predicate GoodIds(nodes: seq<Node>) {
    && (forall i | 0 <= i < |nodes| :: Identifier(nodes[i].id) && nodes[i].text <= MAX_LABEL)
    && (forall i, j | 0 <= i < j < |nodes| :: nodes[i].id != nodes[j].id)
  }

  predicate HasId(nodes: seq<Node>, id: string) { exists i :: 0 <= i < |nodes| && nodes[i].id == id }

  /** The parent relation the nodes spell out. */
  predicate Describes(parents: Parents, nodes: seq<Node>) {
    && (forall i | 0 <= i < |nodes| :: nodes[i].id in parents && parents[nodes[i].id] == nodes[i].parent)
    && (forall x <- parents :: HasId(nodes, x))
  }

  predicate GoodNode(nodes: seq<Node>, n: Node) { n.plain && (n.parent.Some? ==> HasId(nodes, n.parent.value)) }

  predicate GoodNodes(nodes: seq<Node>) { forall i | 0 <= i < |nodes| :: GoodNode(nodes, nodes[i]) }

  predicate GoodEdge(nodes: seq<Node>, parents: Parents, e: Edge) {
    && e.plain && Identifier(e.id) && HasId(nodes, e.source) && HasId(nodes, e.target)
    && e.source != e.target && !(e.target in parents && parents[e.target] == Some(e.source))
  }

  predicate GoodEdges(nodes: seq<Node>, parents: Parents, edges: seq<Edge>) {
    && (forall i | 0 <= i < |edges| :: GoodEdge(nodes, parents, edges[i]))
    && (forall i, j | 0 <= i < j < |edges| ::
          edges[i].id != edges[j].id && (edges[i].source, edges[i].target) != (edges[j].source, edges[j].target))
  }

  predicate KnownVersion(v: Option<string>) { v == None || v == Some("2") }

  /** What an accepted mind map is, independently of how it is checked. */
  ghost predicate Accepted(doc: Document) {
    && !doc.strayAttribute && KnownVersion(doc.version) && !doc.strayChild
    && (doc.version == None ==> doc.edges == [])
    && |doc.nodes| <= MAX_NODES && |doc.edges| <= MAX_EDGES
    && GoodIds(doc.nodes) && GoodNodes(doc.nodes)
    && exists parents ::
         Describes(parents, doc.nodes) && Rooted(parents) && GoodEdges(doc.nodes, parents, doc.edges)
  }

  // The same in terms of the document alone.

  /** An ASCII letter, then at most 31 ASCII letters, digits, underscores and dashes. */
  predicate WellNamed(s: string) {
    && s != "" && |s| < 33 && (64 < s[0] as int < 91 || 96 < s[0] as int < 123)
    && forall i | 0 < i < |s| ::
         64 < s[i] as int < 91 || 96 < s[i] as int < 123 || 47 < s[i] as int < 58 || s[i] as int == 95 || s[i] as int == 45
  }

  lemma IdentifiersAreWellNamed(s: string)
    ensures Identifier(s) <==> WellNamed(s)
  {
    if s != "" {
      forall i | 0 < i < |s| ensures s[i] in s[1..] {
        assert s[1..][i - 1] == s[i];
      }
    }
  }

  /** Some node of this id names its parent, and so on for `k` steps, up to `root`. */
  ghost predicate LeadsTo(nodes: seq<Node>, id: string, k: nat, root: string)
    decreases k
  {
    if k == 0 then id == root
    else exists i | 0 <= i < |nodes| ::
           nodes[i].id == id && nodes[i].parent.Some? && LeadsTo(nodes, nodes[i].parent.value, k - 1, root)
  }

  /** One node names no parent, and every node leads to it in fewer steps than there are nodes. */
  ghost predicate RootedNodes(nodes: seq<Node>) {
    exists r | 0 <= r < |nodes| ::
      nodes[r].parent == None && forall i | 0 <= i < |nodes| :: LeadsUp(nodes, nodes[i].id, nodes[r].id)
  }

  ghost predicate LeadsUp(nodes: seq<Node>, id: string, root: string) {
    exists k: nat | k < |nodes| :: LeadsTo(nodes, id, k, root)
  }

  lemma {:induction false} LeadsIsUp(nodes: seq<Node>, parents: Parents, id: string, k: nat, root: string)
    requires Describes(parents, nodes) && GoodIds(nodes)
    ensures LeadsTo(nodes, id, k, root) <==> Up(parents, id, k) == Some(root)
    decreases k
  {
    if k > 0 {
      if i :| 0 <= i < |nodes| && nodes[i].id == id && nodes[i].parent.Some? {
        LeadsIsUp(nodes, parents, nodes[i].parent.value, k - 1, root);
        assert forall j | 0 <= j < |nodes| && nodes[j].id == id :: j == i;
      } else {
        assert id in parents ==> HasId(nodes, id);
      }
    }
  }

  lemma {:induction false} AsManyParents(nodes: seq<Node>, parents: Parents)
    requires Describes(parents, nodes) && GoodIds(nodes)
    ensures |parents| == |nodes|
  {
    var ids := seq(|nodes|, i requires 0 <= i < |nodes| => nodes[i].id);
    DistinctCount(ids);
    assert Members(ids) == parents.Keys by {
      forall x ensures x in Members(ids) <==> x in parents {
        if x in parents {
          var i :| 0 <= i < |nodes| && nodes[i].id == x;
          assert ids[i] == x;
        }
      }
    }
  }

  lemma RootedIsRootedNodes(nodes: seq<Node>, parents: Parents)
    requires Describes(parents, nodes) && GoodIds(nodes)
    ensures Rooted(parents) <==> RootedNodes(nodes)
  {
    AsManyParents(nodes, parents);
    forall i, k: nat, root | 0 <= i < |nodes|
      ensures LeadsTo(nodes, nodes[i].id, k, root) <==> Up(parents, nodes[i].id, k) == Some(root)
    {
      LeadsIsUp(nodes, parents, nodes[i].id, k, root);
    }
    if root :| Tree(parents, root) {
      var r :| 0 <= r < |nodes| && nodes[r].id == root;
      forall i | 0 <= i < |nodes| ensures LeadsUp(nodes, nodes[i].id, root) {
        var k :| 0 <= k < |parents| && Up(parents, nodes[i].id, k) == Some(root);
        assert LeadsTo(nodes, nodes[i].id, k, root);
      }
    }
    if r :| 0 <= r < |nodes| && nodes[r].parent == None &&
            forall i | 0 <= i < |nodes| :: LeadsUp(nodes, nodes[i].id, nodes[r].id) {
      forall x | x in parents ensures exists k :: 0 <= k < |parents| && Up(parents, x, k) == Some(nodes[r].id) {
        var i :| 0 <= i < |nodes| && nodes[i].id == x;
        assert LeadsUp(nodes, nodes[i].id, nodes[r].id);
        var k: nat :| k < |nodes| && LeadsTo(nodes, nodes[i].id, k, nodes[r].id);
        assert Up(parents, x, k) == Some(nodes[r].id);
      }
      assert Tree(parents, nodes[r].id);
    }
  }

  predicate GoodNodeIn(doc: Document, n: Node) {
    && WellNamed(n.id) && n.text <= 200 && n.plain
    && (n.parent != None ==> exists i | 0 <= i < |doc.nodes| :: Some(doc.nodes[i].id) == n.parent)
  }

  /** An edge joins two different nodes, the second no child of the first. */
  predicate GoodEdgeIn(doc: Document, e: Edge) {
    && WellNamed(e.id) && e.plain && e.source != e.target
    && (exists i | 0 <= i < |doc.nodes| :: doc.nodes[i].id == e.source)
    && (exists i | 0 <= i < |doc.nodes| :: doc.nodes[i].id == e.target && doc.nodes[i].parent != Some(e.source))
  }

  /** Every node is as it should be, and their names differ. */
  predicate NodesFit(doc: Document) {
    && (forall i | 0 <= i < |doc.nodes| :: GoodNodeIn(doc, doc.nodes[i]))
    && (forall i, j | 0 <= i < |doc.nodes| && 0 <= j < |doc.nodes| && i != j :: doc.nodes[i].id != doc.nodes[j].id)
  }

  /** Every edge is, and their names and their pairs of ends differ. */
  predicate EdgesFit(doc: Document) {
    && (forall i | 0 <= i < |doc.edges| :: GoodEdgeIn(doc, doc.edges[i]))
    && (forall i, j | 0 <= i < |doc.edges| && 0 <= j < |doc.edges| && i != j ::
          && doc.edges[i].id != doc.edges[j].id
          && (doc.edges[i].source != doc.edges[j].source || doc.edges[i].target != doc.edges[j].target))
  }

  /** An accepted document in full: its form, its names and sizes, one rooted tree of
      nodes, and edges that repeat neither each other nor the tree. */
  lemma AcceptedInFull(doc: Document)
    ensures Accepted(doc) <==>
      && !doc.strayAttribute && !doc.strayChild && |doc.nodes| <= 40 && |doc.edges| <= 80
      && (doc.version == Some("2") || (doc.version == None && doc.edges == []))
      && NodesFit(doc) && EdgesFit(doc)
      && RootedNodes(doc.nodes)
  {
    hide GoodIds, GoodNodes, Describes, Rooted, GoodEdges, NodesFit, EdgesFit, RootedNodes;
    var nodes := doc.nodes;
    NodesInFull(doc);
    if GoodIds(nodes) {
      var parents := ParentsOf(nodes, |nodes|);
      ParentsDescribeAll(nodes);
      RootedIsRootedNodes(nodes, parents);
      EdgesInFull(doc, parents);
      forall q | Describes(q, nodes) ensures q == parents {
        ParentsAreUnique(q, parents, nodes);
      }
    }
  }

  lemma NodesInFull(doc: Document)
    ensures GoodIds(doc.nodes) && GoodNodes(doc.nodes) <==> NodesFit(doc)
  {
    forall i | 0 <= i < |doc.nodes|
      ensures GoodNodeIn(doc, doc.nodes[i]) <==>
        Identifier(doc.nodes[i].id) && doc.nodes[i].text <= MAX_LABEL && GoodNode(doc.nodes, doc.nodes[i])
    {
      IdentifiersAreWellNamed(doc.nodes[i].id);
    }
  }

  lemma EdgesInFull(doc: Document, parents: Parents)
    requires GoodIds(doc.nodes) && Describes(parents, doc.nodes)
    ensures GoodEdges(doc.nodes, parents, doc.edges) <==> EdgesFit(doc)
  {
    forall i | 0 <= i < |doc.edges|
      ensures GoodEdgeIn(doc, doc.edges[i]) <==> GoodEdge(doc.nodes, parents, doc.edges[i])
    {
      EdgeInFull(doc, parents, doc.edges[i]);
    }
  }

  lemma EdgeInFull(doc: Document, parents: Parents, e: Edge)
    requires GoodIds(doc.nodes) && Describes(parents, doc.nodes)
    ensures GoodEdgeIn(doc, e) <==> GoodEdge(doc.nodes, parents, e)
  {
    IdentifiersAreWellNamed(e.id);
  }

  /** The parents of the first `n` nodes. */
  function ParentsOf(nodes: seq<Node>, n: nat): Parents
    requires n <= |nodes|
  {
    if n == 0 then map[] else ParentsOf(nodes, n - 1)[nodes[n - 1].id := nodes[n - 1].parent]
  }

  /** The map holds exactly the parents of the first `n` nodes. */
  predicate DescribesTo(parents: Parents, nodes: seq<Node>, n: nat)
    requires n <= |nodes|
  {
    && (forall i | 0 <= i < n :: nodes[i].id in parents && parents[nodes[i].id] == nodes[i].parent)
    && (forall x <- parents :: exists i :: 0 <= i < n && nodes[i].id == x)
  }

  lemma OneMoreParent(parents: Parents, nodes: seq<Node>, n: nat)
    requires n < |nodes| && DescribesTo(parents, nodes, n) && forall i | 0 <= i < n :: nodes[i].id != nodes[n].id
    ensures DescribesTo(parents[nodes[n].id := nodes[n].parent], nodes, n + 1)
  {
    var more := parents[nodes[n].id := nodes[n].parent];
    forall x | x in more ensures exists i :: 0 <= i < n + 1 && nodes[i].id == x {
      if x != nodes[n].id {
        var i :| 0 <= i < n && nodes[i].id == x;
      }
    }
  }

  lemma {:induction false} ParentsDescribe(nodes: seq<Node>, n: nat)
    requires GoodIds(nodes) && n <= |nodes|
    ensures DescribesTo(ParentsOf(nodes, n), nodes, n)
  {
    hide DescribesTo, Identifier;
    if n == 0 {
      NoParents(nodes);
    } else {
      ParentsDescribe(nodes, n - 1);
      OneMoreParent(ParentsOf(nodes, n - 1), nodes, n - 1);
    }
  }

  lemma NoParents(nodes: seq<Node>)
    ensures DescribesTo(map[], nodes, 0)
  {
  }

  lemma ParentsDescribeAll(nodes: seq<Node>)
    requires GoodIds(nodes)
    ensures Describes(ParentsOf(nodes, |nodes|), nodes)
  {
    ParentsDescribe(nodes, |nodes|);
  }

  /** The first node to be refused is node `i`, and for its label. */
  predicate LongAt(nodes: seq<Node>, i: nat) {
    && i < |nodes| && Identifier(nodes[i].id) && nodes[i].text > MAX_LABEL
    && (forall j | 0 <= j < i :: Identifier(nodes[j].id) && nodes[j].text <= MAX_LABEL)
    && (forall j, k | 0 <= j < k <= i :: nodes[j].id != nodes[k].id)
  }

  /** Nothing before the limits is wrong with the document. */
  predicate GoodHead(doc: Document) {
    && !doc.strayAttribute && KnownVersion(doc.version) && !doc.strayChild
    && (doc.version == None ==> doc.edges == [])
  }

  method ValidateIdsAndLabels(nodes: seq<Node>) returns (r: Result<set<string>, Failure>)
    ensures r.Ok? <==> GoodIds(nodes)
    ensures r.Ok? ==> forall x :: x in r.value <==> HasId(nodes, x)
    ensures r == Err(TooLarge) <==> exists i :: LongAt(nodes, i)
    ensures r.Err? ==> r.error != Unsupported
  {
    var ids: set<string> := {};
    for i := 0 to |nodes|
      invariant forall j | 0 <= j < i :: Identifier(nodes[j].id) && nodes[j].text <= MAX_LABEL
      invariant forall j, k | 0 <= j < k < i :: nodes[j].id != nodes[k].id
      invariant forall x :: x in ids <==> exists j :: 0 <= j < i && nodes[j].id == x
    {
      var ident := nodes[i].id;
      if !Identifier(ident) || ident in ids {
        assert forall n :: !LongAt(nodes, n);
        return Err(Malformed);
      }
      ids := ids + {ident};
      if nodes[i].text > MAX_LABEL {
        assert LongAt(nodes, i);
        return Err(TooLarge);
      }
    }
    return Ok(ids);
  }

  method ReadParents(nodes: seq<Node>, ids: set<string>) returns (r: Option<Parents>)
    requires GoodIds(nodes) && forall x :: x in ids <==> HasId(nodes, x)
    ensures r.Some? <==> GoodNodes(nodes)
    ensures r.Some? ==> Describes(r.value, nodes)
  {
    var parents: Parents := map[];
    for i := 0 to |nodes|
      invariant forall j | 0 <= j < i :: GoodNode(nodes, nodes[j])
      invariant forall j | 0 <= j < i :: nodes[j].id in parents && parents[nodes[j].id] == nodes[j].parent
      invariant forall x <- parents :: HasId(nodes, x)
    {
      var n := nodes[i];
      if !n.plain || (n.parent.Some? && n.parent.value !in ids) {
        assert !GoodNode(nodes, nodes[i]);
        return None;
      }
      assert HasId(nodes, n.id);
      parents := parents[n.id := n.parent];
    }
    return Some(parents);
  }

  lemma RootIsOnly(parents: Parents, root: string)
    requires Tree(parents, root)
    ensures OneRoot(parents, root)
  {
    forall x | x in parents && parents[x] == None
      ensures x == root
    {
      var k :| 0 <= k < |parents| && Up(parents, x, k) == Some(root);
    }
  }

  lemma ParentsAreUnique(p: Parents, q: Parents, nodes: seq<Node>)
    requires Describes(p, nodes) && Describes(q, nodes)
    ensures p == q
  {
    assert forall x <- p :: HasId(nodes, x);
    assert forall x <- q :: HasId(nodes, x);
  }

  predicate OneRoot(parents: Parents, root: string) {
    root in parents && forall x <- parents :: parents[x] == None <==> x == root
  }

  lemma RootListDecides(parents: Parents, roots: seq<string>)
    requires forall x :: x in roots <==> x in parents && parents[x] == None
    requires forall j, k | 0 <= j < k < |roots| :: roots[j] != roots[k]
    ensures |roots| == 1 ==> OneRoot(parents, roots[0])
    ensures |roots| != 1 ==> forall root :: !OneRoot(parents, root)
  {
    forall root | OneRoot(parents, root)
      ensures |roots| == 1
    {
      assert root in roots;
      DistinctCount(roots);
      assert Members(roots) == {root};
    }
    if |roots| == 1 {
      assert roots[0] in roots;
    }
  }

  /** The identifiers without a parent, in document order. */
  method FindRoots(nodes: seq<Node>, parents: Parents) returns (roots: seq<string>)
    requires GoodIds(nodes) && Describes(parents, nodes)
    ensures |roots| == 1 ==> OneRoot(parents, roots[0])
    ensures |roots| != 1 ==> forall root :: !OneRoot(parents, root)
  {
    roots := [];
    for i := 0 to |nodes|
      invariant forall x :: x in roots <==> exists j :: 0 <= j < i && nodes[j].id == x && nodes[j].parent.None?
      invariant forall j, k | 0 <= j < k < |roots| :: roots[j] != roots[k]
    {
      if nodes[i].parent.None? {
        assert nodes[i].id !in roots;
        roots := roots + [nodes[i].id];
      }
    }
    forall x | x in parents && parents[x] == None
      ensures x in roots
    {
      assert HasId(nodes, x);
    }
    RootListDecides(parents, roots);
  }

  /** One of the first `i` nodes has parent `p` and id `c`. */
  predicate Listed(nodes: seq<Node>, i: nat, p: string, c: string)
    requires i <= |nodes|
  {
    exists j :: 0 <= j < i && nodes[j].id == c && nodes[j].parent == Some(p)
  }

  method BuildChildren(nodes: seq<Node>, parents: Parents) returns (children: Graph)
    requires GoodIds(nodes) && GoodNodes(nodes) && Describes(parents, nodes)
    ensures Inverts(children, parents)
  {
    children := map x | x in parents :: [];
    for i := 0 to |nodes|
      invariant children.Keys == parents.Keys
      invariant forall p, c :: c in Children(children, p) <==> Listed(nodes, i, p, c)
    {
      var n := nodes[i];
      ghost var before := children;
      if n.parent.Some? {
        assert GoodNode(nodes, nodes[i]);
        children := AddChild(children, n.parent.value, n.id);
      }
      forall p, c
        ensures c in Children(children, p) <==> Listed(nodes, i + 1, p, c)
      {
        assert c in Children(before, p) <==> Listed(nodes, i, p, c);
        assert Listed(nodes, i + 1, p, c) <==> Listed(nodes, i, p, c) || (n.id == c && n.parent == Some(p));
      }
    }
    forall p, c
      ensures c in Children(children, p) <==> c in parents && parents[c] == Some(p)
    {
      assert c in Children(children, p) <==> Listed(nodes, |nodes|, p, c);
      assert c in parents ==> HasId(nodes, c);
    }
  }

  function AddChild(children: Graph, p: string, c: string): (r: Graph)
    requires p in children
    ensures r.Keys == children.Keys
    ensures forall q, x :: x in Children(r, q) <==> x in Children(children, q) || (q == p && x == c)
  {
    children[p := children[p] + [c]]
  }

  method CheckEdges(nodes: seq<Node>, ids: set<string>, parents: Parents, edges: seq<Edge>) returns (ok: bool)
    requires forall x :: x in ids <==> HasId(nodes, x)
    ensures ok <==> GoodEdges(nodes, parents, edges)
  {
    var edgeIds: set<string> := {};
    var pairs: set<(string, string)> := {};
    for i := 0 to |edges|
      invariant forall j | 0 <= j < i :: GoodEdge(nodes, parents, edges[j])
      invariant forall j, k | 0 <= j < k < i ::
        edges[j].id != edges[k].id && (edges[j].source, edges[j].target) != (edges[k].source, edges[k].target)
      invariant forall x :: x in edgeIds <==> exists j :: 0 <= j < i && edges[j].id == x
      invariant forall x :: x in pairs <==> exists j :: 0 <= j < i && (edges[j].source, edges[j].target) == x
    {
      var e := edges[i];
      var pair := (e.source, e.target);
      if !e.plain || !Identifier(e.id) || e.source !in ids || e.target !in ids || e.source == e.target
         || (e.target in parents && parents[e.target] == Some(e.source)) {
        assert !GoodEdge(nodes, parents, edges[i]);
        return false;
      }
      if e.id in edgeIds || pair in pairs { return false; }
      edgeIds := edgeIds + {e.id};
      pairs := pairs + {pair};
    }
    return true;
  }

  /** Accepts exactly the documents whose nodes form one rooted tree with valid references. */
  method ValidateMindmap(doc: Document) returns (r: Result<(nat, nat), Failure>)
    ensures r.Ok? <==> Accepted(doc)
    ensures r.Ok? ==> r.value == (|doc.nodes|, |doc.edges|)
    ensures r == Err(Unsupported) <==> !doc.strayAttribute && !KnownVersion(doc.version)
    ensures r == Err(TooLarge) <==>
      GoodHead(doc) && (|doc.nodes| > MAX_NODES || |doc.edges| > MAX_EDGES || exists i :: LongAt(doc.nodes, i))
    ensures r == Err(TooLarge) ==>
      |doc.nodes| > 40 || |doc.edges| > 80 || exists i | 0 <= i < |doc.nodes| :: doc.nodes[i].text > 200
    ensures |doc.nodes| > 40 || |doc.edges| > 80 ==> (r == Err(TooLarge) <==>
      && !doc.strayAttribute && !doc.strayChild
      && (doc.version == Some("2") || (doc.version == None && doc.edges == [])))
  {
    if doc.strayAttribute { return Err(Malformed); }
    if doc.version.Some? && doc.version.value != "2" { return Err(Unsupported); }
    if doc.strayChild { return Err(Malformed); }
    if doc.version.None? && doc.edges != [] { return Err(Malformed); }
    if |doc.nodes| > MAX_NODES || |doc.edges| > MAX_EDGES { return Err(TooLarge); }
    var ids := ValidateIdsAndLabels(doc.nodes);
    if ids.Err? { return Err(ids.error); }
    var read := ReadParents(doc.nodes, ids.value);
    if read.None? { return Err(Malformed); }
    var parents := read.value;
    assert forall q :: Describes(q, doc.nodes) ==> q == parents by {
      forall q | Describes(q, doc.nodes) ensures q == parents { ParentsAreUnique(q, parents, doc.nodes); }
    }
    var tree := CheckTree(doc.nodes, parents);
    if !tree { return Err(Malformed); }
    var edges := CheckEdges(doc.nodes, ids.value, parents, doc.edges);
    if !edges { return Err(Malformed); }
    return Ok((|doc.nodes|, |doc.edges|));
  }

  /** One root and no cycle, which together mean: a tree. */
  method CheckTree(nodes: seq<Node>, parents: Parents) returns (tree: bool)
    requires GoodIds(nodes) && GoodNodes(nodes) && Describes(parents, nodes)
    ensures tree <==> Rooted(parents)
  {
    var roots := FindRoots(nodes, parents);
    if |roots| != 1 {
      forall root | Tree(parents, root)
        ensures OneRoot(parents, root)
      {
        RootIsOnly(parents, root);
      }
      return false;
    }
    var children := BuildChildren(nodes, parents);
    var search := new CycleSearch(children);
    var found := search.HasCycle();
    if found {
      CyclicIsNoTree(parents, children);
      return false;
    }
    assert Nodes(children) <= parents.Keys by {
      forall k, c | k in children && c in children[k]
        ensures c in parents
      {
        assert c in Children(children, k);
      }
    }
    AcyclicIsTree(parents, children, search.order, roots[0]);
    return true;
  }
}
