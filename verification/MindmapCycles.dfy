/** The depth-first cycle search over a parent-to-child graph. */
module MindmapCycles {
  type Graph = map<string, seq<string>>

  function Children(g: Graph, x: string): seq<string> {
    if x in g then g[x] else []
  }

  predicate Walk(g: Graph, p: seq<string>) {
    forall i | 0 <= i < |p| - 1 :: p[i + 1] in Children(g, p[i])
  }

  predicate Cycle(g: Graph, p: seq<string>) {
    |p| >= 2 && p[0] == p[|p| - 1] && Walk(g, p)
  }

  ghost predicate Cyclic(g: Graph) { exists p :: Cycle(g, p) }

  /** An order in which every node comes after all of its children. */
  predicate Finished(g: Graph, order: seq<string>) {
    && (forall i, j | 0 <= i < j < |order| :: order[i] != order[j])
    && (forall i | 0 <= i < |order| :: forall c <- Children(g, order[i]) :: c in order[..i])
  }

  function Members(s: seq<string>): set<string> { set x | x in s }

  function Nodes(g: Graph): set<string> {
    g.Keys + set k, c | k in g && c in g[k] :: c
  }

  lemma {:induction false} WalkDescends(g: Graph, order: seq<string>, p: seq<string>, i: nat)
    requires Finished(g, order) && Walk(g, p) && |p| > 0
    requires i < |order| && order[i] == p[0]
    ensures exists j :: 0 <= j <= i && order[j] == p[|p| - 1] && (|p| > 1 ==> j < i)
    decreases |p|
  {
    if |p| == 1 {
      assert order[i] == p[|p| - 1];
    } else {
      assert p[1] in order[..i];
      var j :| 0 <= j < i && order[j] == p[1];
      assert Walk(g, p[1..]) by {
        forall k | 0 <= k < |p[1..]| - 1 ensures p[1..][k + 1] in Children(g, p[1..][k]) {
          assert p[k + 2] in Children(g, p[k + 1]);
        }
      }
      WalkDescends(g, order, p[1..], j);
    }
  }

  /** A finishing order over every node with children rules out all cycles. */
  lemma FinishedIsAcyclic(g: Graph, order: seq<string>)
    requires Finished(g, order) && forall k <- g :: k in order
    ensures !Cyclic(g)
  {
    forall p | Cycle(g, p)
      ensures false
    {
      assert p[1] in Children(g, p[0]);
      var i :| 0 <= i < |order| && order[i] == p[0];
      WalkDescends(g, order, p, i);
    }
  }

  lemma FinishOne(g: Graph, order: seq<string>, x: string)
    requires Finished(g, order) && x !in order && forall c <- Children(g, x) :: c in order
    ensures Finished(g, order + [x])
  {
    var next := order + [x];
    forall i | 0 <= i < |next|
      ensures forall c <- Children(g, next[i]) :: c in next[..i]
    {
      if i < |order| {
        assert next[i] == order[i] && next[..i] == order[..i];
      } else {
        assert next[..i] == order;
      }
    }
  }

  class CycleSearch {
    const children: Graph
    var visited: set<string>
    var path: set<string>
    ghost var stack: seq<string>
    ghost var order: seq<string>

    ghost predicate Valid()
      reads this
    {
      && visited == Members(order) + path && path == Members(stack)
      && path !! Members(order) && visited <= Nodes(children)
      && Finished(children, order) && Walk(children, stack)
    }

    constructor (children: Graph)
      ensures Valid() && this.children == children && stack == [] && order == []
    {
      this.children := children;
      visited, path, stack, order := {}, {}, [], [];
    }

    /** The node is on the search path: the stack from there on closes a cycle. */
    lemma BackEdge(ident: string)
      requires Valid() && ident in path && ident in Children(children, stack[|stack| - 1])
      ensures Cyclic(children)
    {
      var k :| 0 <= k < |stack| && stack[k] == ident;
      var p := stack[k..] + [ident];
      forall i | 0 <= i < |p| - 1
        ensures p[i + 1] in Children(children, p[i])
      {
        assert p[i] == stack[k + i];
      }
      assert Cycle(children, p);
    }

    method Search(ident: string) returns (found: bool)
      requires Valid() && ident in Nodes(children)
      requires stack != [] ==> ident in Children(children, stack[|stack| - 1])
      modifies this
      ensures found ==> Cyclic(children)
      ensures !found ==> Valid() && stack == old(stack) && path == old(path)
      ensures !found ==> ident in order && old(order) <= order
      ensures old(visited) <= visited
      decreases Nodes(children) - visited
    {
      if ident in path {
        BackEdge(ident);
        return true;
      }
      if ident in visited { return false; }
      Enter(ident);
      var next := if ident in children then children[ident] else [];
      var i := 0;
      while i < |next|
        invariant i <= |next| && Valid() && stack == old(stack) + [ident] && path == old(path) + {ident}
        invariant old(visited) < visited && old(order) <= order
        invariant forall c <- next[..i] :: c in order
      {
        var child := next[i];
        assert child in Children(children, ident) && child in Nodes(children);
        var deeper := Search(child);
        if deeper { return true; }
        assert next[..i + 1] == next[..i] + [child];
        i := i + 1;
      }
      assert next[..|next|] == next;
      Leave(ident);
      return false;
    }

    method Enter(ident: string)
      requires Valid() && ident in Nodes(children) && ident !in visited
      requires stack != [] ==> ident in Children(children, stack[|stack| - 1])
      modifies this
      ensures Valid() && visited == old(visited) + {ident} && path == old(path) + {ident}
      ensures stack == old(stack) + [ident] && order == old(order)
    {
      visited := visited + {ident};
      path := path + {ident};
      stack := stack + [ident];
    }

    method Leave(ident: string)
      requires Valid() && stack != [] && stack[|stack| - 1] == ident && ident !in stack[..|stack| - 1]
      requires forall c <- Children(children, ident) :: c in order
      modifies this
      ensures Valid() && visited == old(visited) && path == old(path) - {ident}
      ensures stack == old(stack)[..|old(stack)| - 1] && order == old(order) + [ident]
    {
      assert ident in Members(stack) && ident !in Members(order);
      FinishOne(children, order, ident);
      path := path - {ident};
      stack := stack[..|stack| - 1];
      order := order + [ident];
      assert Members(order) == old(Members(order)) + {ident};
      assert old(stack) == stack + [ident];
    }

    /** Exact, for any graph: a back edge is found if and only if there is a cycle. */
    method HasCycle() returns (found: bool)
      requires Valid() && visited == {} && stack == [] && order == []
      modifies this
      ensures found <==> Cyclic(children)
      ensures !found ==> Finished(children, order) && forall k <- children :: k in order
      ensures !found ==> forall x <- order :: x in Nodes(children)
    {
      var rest := children.Keys;
      while rest != {}
        invariant Valid() && stack == [] && rest <= children.Keys
        invariant forall k <- children :: k in rest || k in order
        decreases rest
      {
        var ident :| ident in rest;
        rest := rest - {ident};
        if ident !in visited {
          found := Search(ident);
          if found { return; }
        } else {
          assert ident in order;
        }
      }
      found := false;
      assert forall x <- order :: x in Members(order);
      FinishedIsAcyclic(children, order);
    }
  }
}
