/**
 `_publication_exception_link_is_acyclic`: a depth-first search with enter and leave
 marks over the graph of exception links, each exception having at most a context
 and a cause.
 */
module LinkGraph {
  import opened Options

  const MAX_LINKS: nat := 64

  type Node = nat

  datatype Links = Links(context: Option<Node>, cause: Option<Node>)

  type Graph = Node -> Links

  // ---- what is decided

  predicate Edge(g: Graph, a: Node, b: Node) {
    g(a).context == Some(b) || g(a).cause == Some(b)
  }

  predicate IsPath(g: Graph, p: seq<Node>) {
    p != [] && forall i :: 0 <= i < |p| - 1 ==> Edge(g, p[i], p[i + 1])
  }

  predicate Joins(g: Graph, p: seq<Node>, a: Node, b: Node) {
    IsPath(g, p) && p[0] == a && p[|p| - 1] == b
  }

  ghost predicate Reaches(g: Graph, a: Node, b: Node) {
    exists p :: Joins(g, p, a, b)
  }

  ghost predicate OnCycle(g: Graph, a: Node) {
    exists p :: Joins(g, p, a, a) && |p| > 1
  }

  /** No more than a bounded number of nodes are reachable. */
  ghost predicate ReachesAtMost(g: Graph, a: Node, limit: nat) {
    exists all: set<Node> :: |all| <= limit && Contains(g, a, all)
  }

  ghost predicate Contains(g: Graph, a: Node, all: set<Node>) {
    forall b :: Reaches(g, a, b) ==> b in all
  }

  ghost predicate Excludes(g: Graph, a: Node, forbidden: Node) {
    !Reaches(g, a, forbidden)
  }

  ghost predicate Acyclic(g: Graph, a: Node) {
    forall b :: Reaches(g, a, b) ==> !OnCycle(g, b)
  }

  ghost predicate Accepted(g: Graph, candidate: Option<Node>, forbidden: Node) {
    candidate.Some? ==>
      && Excludes(g, candidate.value, forbidden)
      && Acyclic(g, candidate.value)
      && ReachesAtMost(g, candidate.value, MAX_LINKS)
  }

  // ---- paths

  lemma {:induction false} ReachesItself(g: Graph, a: Node)
    ensures Reaches(g, a, a)
  {
    assert Joins(g, [a], a, a);
  }

  lemma {:induction false} PathGrows(g: Graph, p: seq<Node>, a: Node, b: Node, c: Node)
    requires Joins(g, p, a, b) && Edge(g, b, c)
    ensures Joins(g, p + [c], a, c)
  {
  }

  lemma {:induction false} ReachesOn(g: Graph, a: Node, b: Node, c: Node)
    requires Reaches(g, a, b) && Edge(g, b, c)
    ensures Reaches(g, a, c)
  {
    var p :| Joins(g, p, a, b);
    PathGrows(g, p, a, b, c);
  }

  /** A set closed under edges holds everything that is reachable from its members. */
  lemma {:induction false} ClosedContains(g: Graph, all: set<Node>, p: seq<Node>)
    requires IsPath(g, p) && p[0] in all
    requires forall a, b :: a in all && Edge(g, a, b) ==> b in all
    ensures p[|p| - 1] in all
  {
    if |p| > 1 {
      assert Edge(g, p[0], p[0 + 1]);
      forall i | 0 <= i < |p[1..]| - 1 ensures Edge(g, p[1..][i], p[1..][i + 1]) {
        assert Edge(g, p[i + 1], p[i + 1 + 1]);
      }
      ClosedContains(g, all, p[1..]);
    }
  }

  // ---- the order in which nodes are completed

  /** Every node comes after the nodes it links to. */
  ghost predicate Completed(g: Graph, order: seq<Node>) {
    forall i, b :: 0 <= i < |order| && Edge(g, order[i], b) ==> b in order[..i]
  }

  lemma {:induction false} PathGoesDown(g: Graph, order: seq<Node>, p: seq<Node>, i: nat) returns (j: nat)
    requires Completed(g, order) && IsPath(g, p) && i < |order| && order[i] == p[0]
    ensures j < |order| && order[j] == p[|p| - 1] && j <= i && (|p| > 1 ==> j < i)
  {
    if |p| == 1 {
      return i;
    }
    assert Edge(g, p[0], p[0 + 1]);
    var k :| 0 <= k < i && order[k] == p[1];
    forall n | 0 <= n < |p[1..]| - 1 ensures Edge(g, p[1..][n], p[1..][n + 1]) {
      assert Edge(g, p[n + 1], p[n + 1 + 1]);
    }
    j := PathGoesDown(g, order, p[1..], k);
  }

  ghost predicate NoRepeat(order: seq<Node>) {
    forall i, j :: 0 <= i < j < |order| ==> order[i] != order[j]
  }

  lemma {:induction false} CompletedIsAcyclic(g: Graph, order: seq<Node>, a: Node)
    requires Completed(g, order) && NoRepeat(order) && a in order
    ensures !OnCycle(g, a)
  {
    forall p | Joins(g, p, a, a) ensures |p| <= 1 {
      var i :| 0 <= i < |order| && order[i] == a;
      var j := PathGoesDown(g, order, p, i);
    }
  }

  // ---- the stack

  type Stack = seq<(Node, bool)>

  /** The node whose leave mark is nearest to the top. */
  function Top(stack: Stack): Option<Node> {
    if stack == [] then None
    else if stack[|stack| - 1].1 then Some(stack[|stack| - 1].0)
    else Top(stack[..|stack| - 1])
  }

  /** Everything on the stack but the candidate is linked to from the leave mark below it. */
  ghost predicate Linked(g: Graph, stack: Stack, candidate: Node) {
    stack == [] ||
    (var below, last := stack[..|stack| - 1], stack[|stack| - 1].0;
     && Linked(g, below, candidate)
     && match Top(below)
        case None => below == [] && last == candidate
        case Some(m) => Edge(g, m, last))
  }

  /** What a node being visited links to is completed, or on the stack above it. */
  ghost predicate Covered(g: Graph, stack: Stack, complete: set<Node>) {
    forall k, b :: 0 <= k < |stack| && stack[k].1 && Edge(g, stack[k].0, b) ==> IsAbove(stack, k, b) || b in complete
  }

  predicate IsAbove(stack: Stack, k: nat, b: Node) {
    exists j :: k < j < |stack| && stack[j].0 == b
  }

  ghost predicate MarksDiffer(stack: Stack) {
    forall j, k :: 0 <= j < k < |stack| && stack[j].1 && stack[k].1 ==> stack[j].0 != stack[k].0
  }

  /** `visiting` is the nodes whose leave mark is still on the stack. */
  ghost predicate IsVisiting(stack: Stack, visiting: set<Node>) {
    forall n :: n in visiting <==> (n, true) in stack
  }

  /** From any node being visited there is a path to the one visited last. */
  lemma {:induction false} MarkReachesTop(g: Graph, stack: Stack, candidate: Node, v: Node) returns (p: seq<Node>)
    requires Linked(g, stack, candidate) && (v, true) in stack
    ensures Top(stack).Some? && Joins(g, p, v, Top(stack).value)
  {
    var below, last := stack[..|stack| - 1], stack[|stack| - 1];
    assert stack == below + [last];
    if last == (v, true) {
      p := [v];
    } else {
      p := MarkReachesTop(g, below, candidate, v);
      if last.1 {
        PathGrows(g, p, v, Top(below).value, last.0);
        p := p + [last.0];
      }
    }
  }

  /** Everything on the stack is reachable. */
  lemma {:induction false} StackIsReachable(g: Graph, stack: Stack, candidate: Node)
    requires Linked(g, stack, candidate)
    ensures forall e :: e in stack ==> Reaches(g, candidate, e.0)
    ensures Top(stack).Some? ==> Reaches(g, candidate, Top(stack).value)
  {
    if stack != [] {
      var below, last := stack[..|stack| - 1], stack[|stack| - 1];
      assert stack == below + [last];
      StackIsReachable(g, below, candidate);
      match Top(below)
      case None => ReachesItself(g, candidate);
      case Some(m) => ReachesOn(g, candidate, m, last.0);
    }
  }

  // ---- the search

  ghost predicate StackAgrees(g: Graph, candidate: Node, stack: Stack, visiting: set<Node>, complete: set<Node>) {
    && Linked(g, stack, candidate) && Covered(g, stack, complete)
    && MarksDiffer(stack) && IsVisiting(stack, visiting)
    && (if stack == [] then candidate in complete else stack[0].0 == candidate)
  }

  ghost predicate OrderAgrees(g: Graph, candidate: Node, complete: set<Node>, order: seq<Node>) {
    && (forall n :: n in complete <==> n in order) && NoRepeat(order) && Completed(g, order)
    && (forall n :: n in complete ==> Reaches(g, candidate, n))
  }

  /** What holds whenever the loop comes round. */
  ghost predicate Searching(g: Graph, candidate: Node, forbidden: Node, stack: Stack,
                            visiting: set<Node>, complete: set<Node>, order: seq<Node>)
  {
    && StackAgrees(g, candidate, stack, visiting, complete)
    && OrderAgrees(g, candidate, complete, order)
    && visiting !! complete && |visiting| + |complete| <= MAX_LINKS
    && forbidden !in visiting && forbidden !in complete
  }

  /** Entering a node: its leave mark takes its place. */
  function Entered(stack: Stack): Stack
    requires stack != []
  {
    stack[..|stack| - 1] + [(stack[|stack| - 1].0, true)]
  }

  lemma {:induction false} EnteringLinks(g: Graph, candidate: Node, stack: Stack)
    requires stack != [] && Linked(g, stack, candidate)
    ensures Linked(g, Entered(stack), candidate) && Top(Entered(stack)) == Some(stack[|stack| - 1].0)
  {
    assert Entered(stack)[..|stack| - 1] == stack[..|stack| - 1];
  }

  lemma {:induction false} EnteringMarks(stack: Stack, visiting: set<Node>)
    requires stack != [] && !stack[|stack| - 1].1 && stack[|stack| - 1].0 !in visiting
    requires MarksDiffer(stack) && IsVisiting(stack, visiting)
    ensures MarksDiffer(Entered(stack)) && IsVisiting(Entered(stack), visiting + {stack[|stack| - 1].0})
  {
    var below, n, after := stack[..|stack| - 1], stack[|stack| - 1].0, Entered(stack);
    forall j, k | 0 <= j < k < |after| && after[j].1 && after[k].1 ensures after[j].0 != after[k].0 {
      assert after[j] == stack[j];
      assert stack[j] in stack;
      if k < |below| { assert after[k] == stack[k]; }
    }
    assert stack == below + [(n, false)];
  }

  /** All the nodes the new one links to are put above its mark. */
  lemma {:induction false} EnteringCovers(g: Graph, stack: Stack, above: Stack, complete: set<Node>)
    requires stack != [] && Covered(g, stack, complete) && forall e :: e in above ==> !e.1
    requires forall b: Node :: Edge(g, stack[|stack| - 1].0, b) ==> (b, false) in above
    ensures Covered(g, Entered(stack) + above, complete)
  {
    var after, last := Entered(stack) + above, |stack| - 1;
    forall k | |stack| <= k < |after| ensures !after[k].1 {
      assert after[k] == above[k - |stack|] && above[k - |stack|] in above;
    }
    forall k: nat, b | k < |after| && after[k].1 && Edge(g, after[k].0, b) ensures IsAbove(after, k, b) || b in complete {
      if k == last {
        var i :| 0 <= i < |above| && above[i] == (b, false);
        assert after[|stack| + i].0 == b;
      } else if k < last {
        assert after[k] == stack[k];
        if IsAbove(stack, k, b) {
          var j :| k < j < |stack| && stack[j].0 == b;
          assert after[j].0 == b;
        }
      }
    }
  }

  function Pushed(link: Option<Node>): Stack {
    if link.Some? then [(link.value, false)] else []
  }

  /** Pushing a node that the topmost mark links to. */
  lemma {:induction false} PushingLinks(g: Graph, candidate: Node, stack: Stack, link: Option<Node>, visiting: set<Node>)
    requires Linked(g, stack, candidate) && Top(stack).Some? && (link.Some? ==> Edge(g, Top(stack).value, link.value))
    requires MarksDiffer(stack) && IsVisiting(stack, visiting)
    ensures var after := stack + Pushed(link);
            && Linked(g, after, candidate) && Top(after) == Top(stack)
            && MarksDiffer(after) && IsVisiting(after, visiting)
  {
    var after := stack + Pushed(link);
    if link.Some? {
      assert after[..|after| - 1] == stack;
    } else {
      assert after == stack;
    }
  }

  /** The nodes pushed above the mark: the context, then the cause. */
  function Above(l: Links): Stack {
    Pushed(l.context) + Pushed(l.cause)
  }

  lemma {:induction false} AboveLinks(g: Graph, candidate: Node, stack: Stack, l: Links, visiting: set<Node>)
    requires Linked(g, stack, candidate) && Top(stack).Some? && l == g(Top(stack).value)
    requires MarksDiffer(stack) && IsVisiting(stack, visiting)
    ensures var after := stack + Above(l);
            Linked(g, after, candidate) && MarksDiffer(after) && IsVisiting(after, visiting)
  {
    PushingLinks(g, candidate, stack, l.context, visiting);
    PushingLinks(g, candidate, stack + Pushed(l.context), l.cause, visiting);
    assert stack + Above(l) == (stack + Pushed(l.context)) + Pushed(l.cause);
  }

  lemma {:induction false} EnterAgrees(g: Graph, candidate: Node, stack: Stack, visiting: set<Node>, complete: set<Node>)
    requires stack != [] && StackAgrees(g, candidate, stack, visiting, complete)
    requires var (n, leaving) := stack[|stack| - 1]; !leaving && n !in visiting
    ensures var n := stack[|stack| - 1].0;
            StackAgrees(g, candidate, Entered(stack) + Above(g(n)), visiting + {n}, complete)
  {
    var n := stack[|stack| - 1].0;
    EnteringLinks(g, candidate, stack);
    EnteringMarks(stack, visiting);
    EnteringCovers(g, stack, Above(g(n)), complete);
    AboveLinks(g, candidate, Entered(stack), g(n), visiting + {n});
  }

  /** A node that is already completed is dropped from the stack. */
  lemma {:induction false} DropAgrees(g: Graph, candidate: Node, stack: Stack, visiting: set<Node>, complete: set<Node>)
    requires stack != [] && StackAgrees(g, candidate, stack, visiting, complete)
    requires !stack[|stack| - 1].1 && stack[|stack| - 1].0 in complete
    ensures StackAgrees(g, candidate, stack[..|stack| - 1], visiting, complete)
  {
    var below, last := stack[..|stack| - 1], stack[|stack| - 1];
    assert stack == below + [last];
    forall k: nat, b | k < |below| && below[k].1 && Edge(g, below[k].0, b) ensures IsAbove(below, k, b) || b in complete {
      if IsAbove(stack, k, b) {
        var j :| k < j < |stack| && stack[j].0 == b;
        assert j < |below| ==> below[j].0 == b;
      }
    }
  }

  /** Leaving a node: everything it links to is completed by now. */
  lemma {:induction false} LeaveAgrees(g: Graph, candidate: Node, stack: Stack, visiting: set<Node>, complete: set<Node>)
    requires stack != [] && StackAgrees(g, candidate, stack, visiting, complete) && stack[|stack| - 1].1
    ensures var n := stack[|stack| - 1].0;
            && n in visiting
            && StackAgrees(g, candidate, stack[..|stack| - 1], visiting - {n}, complete + {n})
            && (forall b :: Edge(g, n, b) ==> b in complete)
  {
    var below, n := stack[..|stack| - 1], stack[|stack| - 1].0;
    assert stack == below + [(n, true)];
    forall b | Edge(g, n, b) ensures b in complete {
      assert !IsAbove(stack, |stack| - 1, b);
    }
    forall k: nat, b | k < |below| && below[k].1 && Edge(g, below[k].0, b)
      ensures IsAbove(below, k, b) || b in complete + {n}
    {
      if IsAbove(stack, k, b) {
        var j :| k < j < |stack| && stack[j].0 == b;
        assert j < |below| ==> below[j].0 == b;
      }
    }
    assert (n, true) !in below by {
      forall k | 0 <= k < |below| ensures below[k] != (n, true) {
        assert below[k] == stack[k];
      }
    }
  }

  lemma {:induction false} OrderGrows(g: Graph, candidate: Node, complete: set<Node>, order: seq<Node>, n: Node)
    requires OrderAgrees(g, candidate, complete, order) && n !in complete && Reaches(g, candidate, n)
    requires forall b :: Edge(g, n, b) ==> b in complete
    ensures OrderAgrees(g, candidate, complete + {n}, order + [n])
  {
    var more := order + [n];
    forall i: nat, b | i < |more| && Edge(g, more[i], b) ensures b in more[..i] {
      if i < |order| {
        assert more[..i] == order[..i] && more[i] == order[i];
      } else {
        assert more[..i] == order;
      }
    }
  }

  // ---- verdicts

  /** A node met again while it is being visited is on a cycle. */
  lemma {:induction false} MetAgain(g: Graph, candidate: Node, stack: Stack, visiting: set<Node>, complete: set<Node>)
    requires stack != [] && StackAgrees(g, candidate, stack, visiting, complete)
    requires !stack[|stack| - 1].1 && stack[|stack| - 1].0 in visiting
    ensures !Acyclic(g, candidate)
  {
    var below, n := stack[..|stack| - 1], stack[|stack| - 1].0;
    assert stack == below + [(n, false)];
    assert (n, true) in below;
    var p := MarkReachesTop(g, below, candidate, n);
    PathGrows(g, p, n, Top(below).value, n);
    assert Joins(g, p + [n], n, n) && |p + [n]| > 1;
    StackIsReachable(g, stack, candidate);
    assert Reaches(g, candidate, (n, false).0) && OnCycle(g, n);
  }

  lemma {:induction false} AllReachable(g: Graph, candidate: Node, stack: Stack,
                                        visiting: set<Node>, complete: set<Node>, order: seq<Node>, n: Node)
    requires StackAgrees(g, candidate, stack, visiting, complete) && OrderAgrees(g, candidate, complete, order)
    requires n in visiting || n in complete
    ensures Reaches(g, candidate, n)
  {
    if n in visiting {
      StackIsReachable(g, stack, candidate);
      assert (n, true) in stack;
      assert Reaches(g, candidate, (n, true).0);
    }
  }

  /** One node more than the limit is reachable. */
  lemma {:induction false} TooMany(g: Graph, candidate: Node, found: set<Node>)
    requires |found| > MAX_LINKS && forall n :: n in found ==> Reaches(g, candidate, n)
    ensures !ReachesAtMost(g, candidate, MAX_LINKS)
  {
    forall all: set<Node> | |all| <= MAX_LINKS ensures !Contains(g, candidate, all) {
      if Contains(g, candidate, all) {
        assert found <= all;
        Larger(found, all);
      }
    }
  }

  lemma {:induction false} Larger(a: set<Node>, b: set<Node>)
    requires a <= b
    ensures |a| <= |b|
  {
    assert |b| == |a| + |b - a| by { assert b == a + (b - a); }
  }

  /** With an empty stack everything reachable is completed, so the graph is accepted. */
  lemma {:induction false} Finished(g: Graph, candidate: Node, forbidden: Node, complete: set<Node>, order: seq<Node>)
    requires OrderAgrees(g, candidate, complete, order) && candidate in complete
    requires forbidden !in complete && |complete| <= MAX_LINKS
    ensures Accepted(g, Some(candidate), forbidden)
  {
    forall a, b | a in complete && Edge(g, a, b) ensures b in complete {
      var i :| 0 <= i < |order| && order[i] == a;
      assert b in order[..i];
    }
    forall b | Reaches(g, candidate, b) ensures b in complete && !OnCycle(g, b) {
      var p :| Joins(g, p, candidate, b);
      ClosedContains(g, complete, p);
      CompletedIsAcyclic(g, order, b);
    }
    assert Contains(g, candidate, complete);
  }

  /** Main result: true exactly when the graph reachable from the candidate excludes
      the forbidden node, has no cycle and has at most 64 nodes. */
  method IsAcyclic(g: Graph, candidate: Option<Node>, forbidden: Node) returns (ok: bool)
    ensures ok <==> Accepted(g, candidate, forbidden)
  {
    if candidate.None? {
      return true;
    }
    ghost var root := candidate.value;
    var pending: Stack := [(candidate.value, false)];
    var visiting, complete: set<Node> := {}, {};
    ghost var order: seq<Node> := [];
    while pending != []
      invariant Searching(g, root, forbidden, pending, visiting, complete, order)
      decreases MAX_LINKS - |visiting| - |complete|, |pending|
    {
      var (current, leaving) := pending[|pending| - 1];
      StackIsReachable(g, pending, root);
      assert pending[|pending| - 1] in pending;
      if leaving {
        LeaveAgrees(g, root, pending, visiting, complete);
        OrderGrows(g, root, complete, order, current);
        pending := pending[..|pending| - 1];
        visiting, complete := visiting - {current}, complete + {current};
        order := order + [current];
      } else if current == forbidden || current in visiting {
        if current in visiting {
          MetAgain(g, root, pending, visiting, complete);
        }
        return false;
      } else if current in complete {
        DropAgrees(g, root, pending, visiting, complete);
        pending := pending[..|pending| - 1];
      } else if |visiting| + |complete| >= MAX_LINKS {
        var found := visiting + complete + {current};
        forall n | n in found ensures Reaches(g, root, n) {
          if n != current {
            AllReachable(g, root, pending, visiting, complete, order, n);
          }
        }
        TooMany(g, root, found);
        return false;
      } else {
        EnterAgrees(g, root, pending, visiting, complete);
        visiting := visiting + {current};
        pending := Entered(pending) + Above(g(current));
      }
    }
    Finished(g, root, forbidden, complete, order);
    return true;
  }
}
