/** The reachability loop that the placement-group checks run three times
    (tools/li_runtime_orchestration.py), against paths in the link graph. */
module Reachability {

  type Node = string

  datatype Pair = Pair(left: Node, right: Node)

  predicate Adjacent(pairs: seq<Pair>, a: Node, b: Node) {
    Pair(a, b) in pairs || Pair(b, a) in pairs
  }

  // `steps` leads from a to b: the nodes visited after a, the last of them b.
  predicate IsPath(pairs: seq<Pair>, a: Node, steps: seq<Node>, b: Node)
    decreases |steps|
  {
    if steps == [] then a == b
    else Adjacent(pairs, a, steps[0]) && IsPath(pairs, steps[0], steps[1..], b)
  }

  ghost predicate Joined(pairs: seq<Pair>, a: Node, b: Node) {
    exists steps :: IsPath(pairs, a, steps, b)
  }

  // ---------------------------------------------------------------- paths

  lemma {:induction false} PathConcat(pairs: seq<Pair>, a: Node, p: seq<Node>, b: Node, q: seq<Node>, c: Node)
    requires IsPath(pairs, a, p, b) && IsPath(pairs, b, q, c)
    ensures IsPath(pairs, a, p + q, c)
    decreases |p|
  {
    if p == [] {
      assert p + q == q;
    } else {
      PathConcat(pairs, p[0], p[1..], b, q, c);
      assert (p + q)[1..] == p[1..] + q;
    }
  }

  lemma JoinedStep(pairs: seq<Pair>, a: Node, b: Node, c: Node)
    requires Joined(pairs, a, b) && Adjacent(pairs, b, c)
    ensures Joined(pairs, a, c)
  {
    var p :| IsPath(pairs, a, p, b);
    assert IsPath(pairs, c, [], c) && [c][1..] == [];
    PathConcat(pairs, a, p, b, [c], c);
  }

  lemma JoinedTransitive(pairs: seq<Pair>, a: Node, b: Node, c: Node)
    requires Joined(pairs, a, b) && Joined(pairs, b, c)
    ensures Joined(pairs, a, c)
  {
    var p :| IsPath(pairs, a, p, b);
    var q :| IsPath(pairs, b, q, c);
    PathConcat(pairs, a, p, b, q, c);
  }

  lemma JoinedReflexive(pairs: seq<Pair>, a: Node)
    ensures Joined(pairs, a, a)
  {
    assert IsPath(pairs, a, [], a);
  }

  lemma {:induction false} PathReversed(pairs: seq<Pair>, a: Node, p: seq<Node>, b: Node)
    requires IsPath(pairs, a, p, b)
    ensures Joined(pairs, b, a)
    decreases |p|
  {
    if p == [] {
      JoinedReflexive(pairs, a);
    } else {
      PathReversed(pairs, p[0], p[1..], b);
      JoinedStep(pairs, b, p[0], a);
    }
  }

  lemma JoinedSymmetric(pairs: seq<Pair>, a: Node, b: Node)
    requires Joined(pairs, a, b)
    ensures Joined(pairs, b, a)
  {
    var p :| IsPath(pairs, a, p, b);
    PathReversed(pairs, a, p, b);
  }

  // ---------------------------------------------------------------- the fixpoint loop

  function Expand(pairs: seq<Pair>, reached: set<Node>): (e: set<Node>)
    ensures reached <= e
  {
    reached + (set p | p in pairs && (p.left in reached || p.right in reached) ::
                 if p.left in reached then p.right else p.left)
  }

  predicate Closed(pairs: seq<Pair>, reached: set<Node>) {
    forall p :: p in pairs ==> (p.left in reached <==> p.right in reached)
  }

  lemma ExpandFixed(pairs: seq<Pair>, reached: set<Node>)
    requires Expand(pairs, reached) == reached
    ensures Closed(pairs, reached)
  {
    forall p | p in pairs ensures p.left in reached <==> p.right in reached {
      if p.left in reached || p.right in reached {
        assert (if p.left in reached then p.right else p.left) in Expand(pairs, reached);
      }
    }
  }

  lemma {:induction false} PathStaysInside(pairs: seq<Pair>, reached: set<Node>, a: Node, steps: seq<Node>, b: Node)
    requires Closed(pairs, reached) && a in reached && IsPath(pairs, a, steps, b)
    ensures b in reached
    decreases |steps|
  {
    if steps != [] {
      assert steps[0] in reached by {
        if Pair(a, steps[0]) in pairs {} else { assert Pair(steps[0], a) in pairs; }
      }
      PathStaysInside(pairs, reached, steps[0], steps[1..], b);
    }
  }

  lemma ExpandSound(pairs: seq<Pair>, root: Node, reached: set<Node>)
    requires forall v :: v in reached ==> Joined(pairs, root, v)
    ensures forall v :: v in Expand(pairs, reached) ==> Joined(pairs, root, v)
  {
    hide Joined;
    forall v | v in Expand(pairs, reached) ensures Joined(pairs, root, v) {
      if v !in reached {
        var p :| p in pairs && (p.left in reached || p.right in reached)
          && v == (if p.left in reached then p.right else p.left);
        var u := if p.left in reached then p.left else p.right;
        assert Pair(p.left, p.right) == p;
        JoinedStep(pairs, root, u, v);
      }
    }
  }

  // Links both of whose ends are reached.
  function Inside(pairs: seq<Pair>, reached: set<Node>): set<Pair> {
    set p | p in pairs && p.left in reached && p.right in reached
  }

  // p joins a reached node to v, which is not reached.
  predicate Frontier(p: Pair, reached: set<Node>, v: Node) {
    (p.left in reached && p.right == v) || (p.right in reached && p.left == v)
  }

  // Every newly reached node brings a link of its own.
  lemma {:induction false} NewLinks(pairs: seq<Pair>, reached: set<Node>, added: set<Node>) returns (links: set<Pair>)
    requires added !! reached
    requires forall v :: v in added ==> exists p :: p in pairs && Frontier(p, reached, v)
    ensures |links| == |added|
    ensures forall p :: p in links ==> p in pairs && exists v :: v in added && Frontier(p, reached, v)
  {
    links := {};
    if added != {} {
      var v :| v in added;
      var rest := NewLinks(pairs, reached, added - {v});
      var p :| p in pairs && Frontier(p, reached, v);
      assert p !in rest;
      links := rest + {p};
    }
  }

  lemma ExpandCount(pairs: seq<Pair>, reached: set<Node>)
    ensures |Expand(pairs, reached)| + |Inside(pairs, reached)|
         <= |reached| + |Inside(pairs, Expand(pairs, reached))|
  {
    var wide := Expand(pairs, reached);
    var added := wide - reached;
    forall v | v in added ensures exists p :: p in pairs && Frontier(p, reached, v) {
      var p :| p in pairs && (p.left in reached || p.right in reached)
        && v == (if p.left in reached then p.right else p.left);
      assert Frontier(p, reached, v);
    }
    var links := NewLinks(pairs, reached, added);
    CountUnion(links, Inside(pairs, reached), Inside(pairs, wide));
    assert |wide| == |reached| + |added| by { assert wide == reached + added; }
  }

  lemma CountUnion(a: set<Pair>, b: set<Pair>, c: set<Pair>)
    requires a !! b && a <= c && b <= c
    ensures |a| + |b| <= |c|
  {
    assert |a + b| == |a| + |b|;
    Subset(a + b, c);
  }

  lemma {:induction false} Subset<T>(a: set<T>, b: set<T>)
    requires a <= b
    ensures |a| <= |b|
  {
    if a != {} {
      var x :| x in a;
      Subset(a - {x}, b - {x});
    }
  }

  function Ends(pairs: seq<Pair>): set<Node> {
    (set p | p in pairs :: p.left) + (set p | p in pairs :: p.right)
  }

  lemma ExpandWithin(pairs: seq<Pair>, reached: set<Node>)
    ensures Expand(pairs, reached) <= reached + Ends(pairs)
  {
  }

  // What the loop computes: expansion repeated until nothing changes.
  function Component(pairs: seq<Pair>, reached: set<Node>): set<Node>
    decreases Ends(pairs) - reached
  {
    ExpandWithin(pairs, reached);
    var expanded := Expand(pairs, reached);
    if expanded == reached then reached else Component(pairs, expanded)
  }

  method Reach(root: Node, pairs: seq<Pair>) returns (reached: set<Node>)
    ensures reached == Component(pairs, {root})
  {
    reached := {root};
    while true
      invariant Component(pairs, reached) == Component(pairs, {root})
      decreases Ends(pairs) - reached
    {
      var expanded := Expand(pairs, reached);
      ExpandWithin(pairs, reached);
      if expanded == reached {
        break;
      }
      reached := expanded;
    }
  }

  lemma {:induction false} ComponentGrows(pairs: seq<Pair>, root: Node, reached: set<Node>)
    requires root in reached && forall v :: v in reached ==> Joined(pairs, root, v)
    requires |reached| <= |Inside(pairs, reached)| + 1
    ensures var c := Component(pairs, reached);
      && (forall v :: v in c <==> Joined(pairs, root, v))
      && |c| <= |Inside(pairs, c)| + 1
    decreases Ends(pairs) - reached
  {
    hide Joined, Expand, Closed, Inside;
    ExpandWithin(pairs, reached);
    if Expand(pairs, reached) == reached {
      ExpandFixed(pairs, reached);
      forall v | Joined(pairs, root, v) ensures v in reached {
        ReachedAll(pairs, root, reached, v);
      }
    } else {
      ExpandSound(pairs, root, reached);
      ExpandCount(pairs, reached);
      ComponentGrows(pairs, root, Expand(pairs, reached));
    }
  }

  // It is exactly the connected component of its root, and it has at most one more node
  // than there are links inside it.
  lemma ComponentIsConnected(pairs: seq<Pair>, root: Node)
    ensures var c := Component(pairs, {root});
      && (forall v :: v in c <==> Joined(pairs, root, v))
      && |c| <= |Inside(pairs, c)| + 1
  {
    JoinedReflexive(pairs, root);
    ComponentGrows(pairs, root, {root});
  }

  lemma ReachedAll(pairs: seq<Pair>, root: Node, reached: set<Node>, v: Node)
    requires Closed(pairs, reached) && root in reached && Joined(pairs, root, v)
    ensures v in reached
  {
    var steps :| IsPath(pairs, root, steps, v);
    PathStaysInside(pairs, reached, root, steps, v);
  }

  // ---------------------------------------------------------------- whole groups

  function SetOf(nodes: seq<Node>): set<Node> { set n | n in nodes }

  predicate Distinct<T(==)>(s: seq<T>) { forall i, j :: 0 <= i < j < |s| ==> s[i] != s[j] }

  lemma {:induction false} DistinctSize(nodes: seq<Node>)
    requires Distinct(nodes)
    ensures |SetOf(nodes)| == |nodes|
  {
    if nodes != [] {
      var n := |nodes| - 1;
      DistinctSize(nodes[..n]);
      assert SetOf(nodes) == SetOf(nodes[..n]) + {nodes[n]};
    }
  }

  ghost predicate AllJoined(nodes: seq<Node>, pairs: seq<Pair>) {
    forall a, b :: a in nodes && b in nodes ==> Joined(pairs, a, b)
  }

  predicate Within(nodes: seq<Node>, pairs: seq<Pair>) {
    forall p :: p in pairs ==> p.left in nodes && p.right in nodes
  }

  lemma {:induction false} PathStaysWithin(nodes: seq<Node>, pairs: seq<Pair>, a: Node, steps: seq<Node>, b: Node)
    requires Within(nodes, pairs) && a in nodes && IsPath(pairs, a, steps, b)
    ensures b in nodes
    decreases |steps|
  {
    if steps != [] {
      PathStaysWithin(nodes, pairs, steps[0], steps[1..], b);
    }
  }

  // A group passes exactly when a path joins every two of its nodes.
  lemma ComponentDecides(nodes: seq<Node>, pairs: seq<Pair>)
    requires nodes != [] && Within(nodes, pairs)
    ensures Component(pairs, {nodes[0]}) == SetOf(nodes) <==> AllJoined(nodes, pairs)
  {
    hide Joined, Inside;
    var root := nodes[0];
    var reached := Component(pairs, {root});
    ComponentIsConnected(pairs, root);
    if reached == SetOf(nodes) {
      forall a, b | a in nodes && b in nodes ensures Joined(pairs, a, b) {
        JoinedSymmetric(pairs, root, a);
        JoinedTransitive(pairs, a, root, b);
      }
    } else {
      forall v | v in reached ensures v in nodes {
        ReachedWithin(nodes, pairs, root, v);
      }
      assert exists v :: v in nodes && v !in reached;
    }
  }

  // n distinct nodes that are all joined need at least n - 1 different links.
  lemma JoinedNeedsLinks(nodes: seq<Node>, pairs: seq<Pair>)
    requires nodes != [] && Within(nodes, pairs) && Distinct(nodes) && AllJoined(nodes, pairs)
    ensures |set p | p in pairs| >= |nodes| - 1
  {
    hide Joined, Inside;
    ComponentDecides(nodes, pairs);
    ComponentIsConnected(pairs, nodes[0]);
    DistinctSize(nodes);
    InsideSize(pairs, SetOf(nodes));
  }

  method JoinsEveryNode(nodes: seq<Node>, pairs: seq<Pair>) returns (ok: bool)
    requires nodes != [] && Within(nodes, pairs)
    ensures ok <==> AllJoined(nodes, pairs)
  {
    ComponentDecides(nodes, pairs);
    var reached := Reach(nodes[0], pairs);
    ok := reached == SetOf(nodes);
  }

  lemma InsideSize(pairs: seq<Pair>, reached: set<Node>)
    ensures |Inside(pairs, reached)| <= |set p | p in pairs|
  {
    Subset(Inside(pairs, reached), set p | p in pairs);
  }

  lemma ReachedWithin(nodes: seq<Node>, pairs: seq<Pair>, root: Node, v: Node)
    requires Within(nodes, pairs) && root in nodes && Joined(pairs, root, v)
    ensures v in nodes
  {
    var steps :| IsPath(pairs, root, steps, v);
    PathStaysWithin(nodes, pairs, root, steps, v);
  }
}
