/** The two visitors of py_analysis.py: `SimpleContextCollector`, which maps
    every node to its innermost enclosing definition, and `LineToNodeMapper`,
    which indexes nodes by source line. Both are depth-first visitors whose
    `visit` records the node and then visits its children in order. */
module PyContext {
  import opened Wrappers
  import opened PySyntax

  /** node -> innermost enclosing definition (`node_to_context`). */
  type ContextMap = map<nat, Option<nat>>

  /** `node_to_context.get(node, None)`. */
  function Lookup(m: ContextMap, k: nat): Option<nat>
  {
    if k in m then m[k] else None
  }

  /** Entry `k` exists and names no definition, or a definition that comes
      strictly before `k` (so never `k` itself). */
  ghost predicate EntryOk(t: Tree, m: ContextMap, k: nat)
  {
    k in m && (m[k].Some? ==> m[k].value < k && m[k].value < |t| && IsDefinition(t[m[k].value].kind))
  }

  /** Every entry of the map is well formed; this is what makes walking up
      the context chain terminate. */
  ghost predicate ContextsOk(t: Tree, m: ContextMap)
  {
    forall k :: k in m ==> k < |t| && EntryOk(t, m, k)
  }

  /** The context a child of `k` gets: `k` itself if `k` is a definition,
      otherwise `k`'s own context. */
  function ChildContext(t: Tree, m: ContextMap, k: nat): Option<nat>
    requires k < |t|
  {
    if IsDefinition(t[k].kind) then Some(k) else Lookup(m, k)
  }

  /** Every child of a node in [lo, hi) maps to that node's child context. */
  ghost predicate ChildrenMapped(t: Tree, m: ContextMap, lo: nat, hi: nat)
  {
    forall x, j :: lo <= x < hi && x < |t| && 0 <= j < |t[x].children| ==>
      t[x].children[j] in m && m[t[x].children[j]] == ChildContext(t, m, x)
  }

  /** Entries outside [lo, hi) are as in `m0`. */
  ghost predicate SameOutside(m: ContextMap, m0: ContextMap, lo: nat, hi: nat)
  {
    forall k :: (k < lo || hi <= k) ==> (k in m <==> k in m0) && (k in m0 ==> m[k] == m0[k])
  }

  /** The map a whole-tree visit produces: one entry per node, the root maps
      to no context, and each child maps to its parent if the parent is a
      definition and to the parent's context otherwise. */
  ghost predicate IsContextMap(t: Tree, m: ContextMap)
    requires Wf(t)
  {
    && (forall k: nat :: k in m <==> k < |t|)
    && m[0] == None
    && ChildrenMapped(t, m, 0, |t|)
  }

  class SimpleContextCollector {
    /** The stack of enclosing definitions (`self.context`). */
    var context: seq<nat>
    var nodeToContext: ContextMap

    constructor ()
      ensures context == [] && nodeToContext == map[]
    {
      context := [];
      nodeToContext := map[];
    }

    /** `self.context[-1] if len(self.context) > 0 else None`. */
    function Top(): Option<nat>
      reads this
    {
      if |context| > 0 then Some(context[|context| - 1]) else None
    }

    /** The stack holds only definitions, all before node `below`. */
    ghost predicate StackBelow(t: Tree, below: nat)
      reads this
    {
      forall j :: 0 <= j < |context| ==> context[j] < below && context[j] < |t| && IsDefinition(t[context[j]].kind)
    }

    /** `visit(node)`: record the stack's top for the node, push the node if it
        is a definition, visit the children, pop. The stack comes back as it
        was, and the map is updated as `Visited` describes. */
    method Visit(t: Tree, i: nat)
      requires Wf(t) && i < |t|
      requires StackBelow(t, i)
      modifies this
      decreases |t| - i, 1
      ensures context == old(context)
      ensures Visited(t, old(nodeToContext), nodeToContext, i, old(Top()))
    {
      var top := Top();
      nodeToContext := nodeToContext[i := top];
      ProgressStart(t, old(nodeToContext), nodeToContext, i, top);
      var isContext := IsDefinition(t[i].kind);
      if isContext {
        context := context + [i];
      }
      VisitChildren(t, i, old(nodeToContext), top);
      if isContext {
        context := context[..|context| - 1];
      }
    }

    /** `generic_visit(node)`: visit the children in order. */
    method VisitChildren(t: Tree, i: nat, ghost m0: ContextMap, ghost top: Option<nat>)
      requires Wf(t) && i < |t|
      requires StackBelow(t, i + 1)
      requires Top() == ChildContext(t, nodeToContext, i)
      requires Progress(t, m0, nodeToContext, i, i + 1, top)
      modifies this
      decreases |t| - i, 0
      ensures context == old(context)
      ensures Visited(t, m0, nodeToContext, i, top)
    {
      assert NodeWf(t, i);
      var cs := t[i].children;
      var k := 0;
      var hi := i + 1;
      while k < |cs|
        invariant 0 <= k <= |cs|
        invariant hi == if k == 0 then i + 1 else t[cs[k - 1]].end
        invariant k < |cs| ==> cs[k] == hi
        invariant context == old(context)
        invariant Progress(t, m0, nodeToContext, i, hi, top)
      {
        ghost var before := nodeToContext;
        assert ChildContext(t, before, i) == Top();
        Visit(t, cs[k]);
        ProgressStep(t, m0, before, nodeToContext, i, k, top);
        k := k + 1;
        hi := t[cs[k - 1]].end;
      }
      ProgressDone(t, m0, nodeToContext, i, hi, top);
    }

    /** `get(tree)`: reset, visit the root, return the map. */
    method Get(t: Tree) returns (m: ContextMap)
      requires Wf(t)
      modifies this
      ensures context == [] && m == nodeToContext
      ensures IsContextMap(t, m)
      ensures ContextsOk(t, m)
    {
      context := [];
      nodeToContext := map[];
      Visit(t, 0);
      m := nodeToContext;
      forall k: nat
        ensures k in m <==> k < |t|
      {
        if k < |t| {
          assert EntryOk(t, m, k);
        }
      }
    }
  }

  /** What visiting node `i` with `top` on the stack does to a map `m0`:
      nothing changes outside `i`'s subtree, every node of the subtree gets
      a well-formed entry, `i` gets `top`, and each child in the subtree gets
      the context its parent hands down. */
  ghost predicate Visited(t: Tree, m0: ContextMap, m: ContextMap, i: nat, top: Option<nat>)
    requires i < |t| && t[i].end <= |t|
  {
    && SameOutside(m, m0, i, t[i].end)
    && (forall x :: i <= x < t[i].end ==> EntryOk(t, m, x))
    && i in m && m[i] == top
    && ChildrenMapped(t, m, i, t[i].end)
  }

  /** Part way through visiting `i`'s children: the prefix [i, hi) is done
      and closed under subtrees, and the children of `i` before `hi` have
      their entries. */
  ghost predicate Progress(t: Tree, m0: ContextMap, m: ContextMap, i: nat, hi: nat, top: Option<nat>)
    requires i < |t| && t[i].end <= |t|
  {
    && i < hi <= t[i].end
    && SameOutside(m, m0, i, t[i].end)
    && (forall x :: i <= x < hi ==> EntryOk(t, m, x))
    && i in m && m[i] == top
    && (forall x :: i < x < hi ==> t[x].end <= hi)
    && ChildrenMapped(t, m, i + 1, hi)
    && (forall j :: 0 <= j < |t[i].children| && t[i].children[j] < hi ==>
          t[i].children[j] in m && m[t[i].children[j]] == ChildContext(t, m, i))
  }

  /** Recording `i` itself starts the visit. */
  lemma ProgressStart(t: Tree, m0: ContextMap, m: ContextMap, i: nat, top: Option<nat>)
    requires Wf(t) && i < |t|
    requires top.Some? ==> top.value < i && IsDefinition(t[top.value].kind)
    requires m == m0[i := top]
    ensures Progress(t, m0, m, i, i + 1, top)
  {
    assert NodeWf(t, i);
  }

  /** Visiting child `k` of `i`, which starts where the prefix ends, extends
      the prefix by that child's subtree. */
  lemma ProgressStep(t: Tree, m0: ContextMap, before: ContextMap, after: ContextMap, i: nat, k: nat, top: Option<nat>)
    requires Wf(t) && i < |t| && k < |t[i].children|
    requires Progress(t, m0, before, i, t[i].children[k], top)
    requires Visited(t, before, after, t[i].children[k], ChildContext(t, before, i))
    ensures Progress(t, m0, after, i, t[t[i].children[k]].end, top)
  {
    assert NodeWf(t, i);
    var hi := t[i].children[k];
    assert NodeWf(t, hi);
    var e := t[hi].end;
    forall x | i <= x < e
      ensures EntryOk(t, after, x)
    {
      if x < hi {
        assert EntryOk(t, before, x);
      }
    }
    forall x | i < x < e
      ensures t[x].end <= e
    {
      if hi < x {
        assert t[x].end <= e;
      }
    }
    forall x, j | i + 1 <= x < e && x < |t| && 0 <= j < |t[x].children|
      ensures t[x].children[j] in after && after[t[x].children[j]] == ChildContext(t, after, x)
    {
      if x < hi {
        assert NodeWf(t, x);
        assert t[x].children[j] < hi;
        assert ChildContext(t, after, x) == ChildContext(t, before, x);
      }
    }
    assert ChildContext(t, after, i) == ChildContext(t, before, i);
    forall j | 0 <= j < |t[i].children| && t[i].children[j] < e
      ensures t[i].children[j] in after && after[t[i].children[j]] == ChildContext(t, after, i)
    {
      if j < k {
        ChildBefore(t, i, j, k);
      } else if k < j {
        ChildAfter(t, i, k, j);
      }
    }
  }

  /** Once the prefix reaches the end of `i`'s range the visit is complete. */
  lemma ProgressDone(t: Tree, m0: ContextMap, m: ContextMap, i: nat, hi: nat, top: Option<nat>)
    requires Wf(t) && i < |t|
    requires Progress(t, m0, m, i, hi, top) && hi == t[i].end
    ensures Visited(t, m0, m, i, top)
  {
    assert NodeWf(t, i);
  }

  /** Children come in increasing order. */
  lemma {:induction false} ChildBefore(t: Tree, i: nat, j: nat, k: nat)
    requires Wf(t) && i < |t| && j < k < |t[i].children|
    ensures t[i].children[j] < t[i].children[k]
    decreases k - j
  {
    assert NodeWf(t, i);
    var cs := t[i].children;
    assert NodeWf(t, cs[k - 1]);
    if j < k - 1 {
      ChildBefore(t, i, j, k - 1);
    }
  }

  /** A later child starts no earlier than where an earlier one ends. */
  lemma {:induction false} ChildAfter(t: Tree, i: nat, k: nat, j: nat)
    requires Wf(t) && i < |t| && k < j < |t[i].children|
    ensures t[t[i].children[k]].end <= t[i].children[j]
    decreases j - k
  {
    assert NodeWf(t, i);
    var cs := t[i].children;
    if k < j - 1 {
      ChildAfter(t, i, k, j - 1);
      assert NodeWf(t, cs[j - 1]);
    }
  }

  /** Nodes with line `l` among [a, b), in index (= visit) order. */
  function OnLine(t: Tree, l: int, a: nat, b: nat): seq<nat>
    requires a <= b <= |t|
    decreases b - a
  {
    if a == b then []
    else OnLine(t, l, a, b - 1) + if t[b - 1].line == Some(l) then [b - 1] else []
  }

  /** Listing [a, b) then [b, c) is listing [a, c). */
  lemma {:induction false} OnLineSplit(t: Tree, l: int, a: nat, b: nat, c: nat)
    requires a <= b <= c <= |t|
    ensures OnLine(t, l, a, c) == OnLine(t, l, a, b) + OnLine(t, l, b, c)
    decreases c - b
  {
    if b < c {
      OnLineSplit(t, l, a, b, c - 1);
    }
  }

  /** `line_to_nodes[line]`, or the empty list for a line never seen. */
  function LineNodes(idx: map<int, seq<nat>>, l: int): seq<nat>
  {
    if l in idx then idx[l] else []
  }

  /** For line `l`, `m1` is `m0` with the nodes of [a, b) on that line
      appended; the line is a key once it has a node. */
  ghost predicate AppendedAt(t: Tree, m0: map<int, seq<nat>>, m1: map<int, seq<nat>>, a: nat, b: nat, l: int)
    requires a <= b <= |t|
  {
    && LineNodes(m1, l) == LineNodes(m0, l) + OnLine(t, l, a, b)
    && (l in m1 <==> l in m0 || OnLine(t, l, a, b) != [])
  }

  /** `m1` is `m0` with the nodes of [a, b) appended, line by line. */
  ghost predicate Appended(t: Tree, m0: map<int, seq<nat>>, m1: map<int, seq<nat>>, a: nat, b: nat)
    requires a <= b <= |t|
  {
    forall l :: AppendedAt(t, m0, m1, a, b, l)
  }

  /** Appending [a, b) and then [b, c) appends [a, c), for one line. */
  lemma IndexStepAt(t: Tree, m0: map<int, seq<nat>>, m1: map<int, seq<nat>>, m2: map<int, seq<nat>>, a: nat, b: nat, c: nat, l: int)
    requires a <= b <= c <= |t|
    requires AppendedAt(t, m0, m1, a, b, l) && AppendedAt(t, m1, m2, b, c, l)
    ensures AppendedAt(t, m0, m2, a, c, l)
  {
    OnLineSplit(t, l, a, b, c);
    var x, y, z := LineNodes(m0, l), OnLine(t, l, a, b), OnLine(t, l, b, c);
    assert (x + y) + z == x + (y + z);
  }

  /** Appending [a, b) and then [b, c) appends [a, c). */
  lemma IndexStep(t: Tree, m0: map<int, seq<nat>>, m1: map<int, seq<nat>>, m2: map<int, seq<nat>>, a: nat, b: nat, c: nat)
    requires a <= b <= c <= |t|
    requires Appended(t, m0, m1, a, b) && Appended(t, m1, m2, b, c)
    ensures Appended(t, m0, m2, a, c)
  {
    forall l
      ensures AppendedAt(t, m0, m2, a, c, l)
    {
      IndexStepAt(t, m0, m1, m2, a, b, c, l);
    }
  }

  /** Recording node `i` alone appends [i, i + 1). */
  lemma IndexOne(t: Tree, m0: map<int, seq<nat>>, m1: map<int, seq<nat>>, i: nat)
    requires i < |t|
    requires m1 == if t[i].line.Some? then m0[t[i].line.value := LineNodes(m0, t[i].line.value) + [i]] else m0
    ensures Appended(t, m0, m1, i, i + 1)
  {
    var e := i + 1;
    forall l
      ensures AppendedAt(t, m0, m1, i, e, l)
    {
      assert OnLine(t, l, i, i + 1) == if t[i].line == Some(l) then [i] else [];
    }
  }

  /** The index a whole-tree visit produces: each line maps to its nodes in
      visit order, and only lines that carry some node are keys. */
  ghost predicate IsLineIndex(t: Tree, idx: map<int, seq<nat>>)
  {
    forall l :: LineNodes(idx, l) == OnLine(t, l, 0, |t|) && (l in idx <==> OnLine(t, l, 0, |t|) != [])
  }

  class LineToNodeMapper {
    var lineToNodes: map<int, seq<nat>>

    constructor ()
      ensures lineToNodes == map[]
    {
      lineToNodes := map[];
    }

    /** `visit(node)`: append the node to the list of its line when it has a
        line (nodes without one are skipped), then visit the children. The
        subtree's nodes are appended to their lines in visit order. */
    method Visit(t: Tree, i: nat)
      requires Wf(t) && i < |t|
      modifies this
      decreases |t| - i
      ensures Appended(t, old(lineToNodes), lineToNodes, i, t[i].end)
    {
      assert NodeWf(t, i);
      if t[i].line.Some? {
        var l := t[i].line.value;
        lineToNodes := lineToNodes[l := LineNodes(lineToNodes, l) + [i]];
      }
      IndexOne(t, old(lineToNodes), lineToNodes, i);
      var cs := t[i].children;
      var k := 0;
      var hi := i + 1;
      while k < |cs|
        invariant 0 <= k <= |cs|
        invariant hi == if k == 0 then i + 1 else t[cs[k - 1]].end
        invariant i < hi <= t[i].end
        invariant k < |cs| ==> cs[k] == hi
        invariant Appended(t, old(lineToNodes), lineToNodes, i, hi)
      {
        ghost var before := lineToNodes;
        Visit(t, cs[k]);
        IndexStep(t, old(lineToNodes), before, lineToNodes, i, hi, t[hi].end);
        k := k + 1;
        hi := t[cs[k - 1]].end;
      }
    }

    /** `get(tree)`: reset, visit the root, return the index. */
    method Get(t: Tree) returns (idx: map<int, seq<nat>>)
      requires Wf(t)
      modifies this
      ensures idx == lineToNodes
      ensures IsLineIndex(t, idx)
    {
      lineToNodes := map[];
      Visit(t, 0);
      idx := lineToNodes;
      forall l
        ensures LineNodes(idx, l) == OnLine(t, l, 0, |t|) && (l in idx <==> OnLine(t, l, 0, |t|) != [])
      {
        assert AppendedAt(t, map[], idx, 0, |t|, l);
        assert [] + OnLine(t, l, 0, |t|) == OnLine(t, l, 0, |t|);
      }
    }
  }

  /** A node is listed under line `l` exactly when it carries line `l`. */
  lemma {:induction false} OnLineMembers(t: Tree, l: int, a: nat, b: nat, k: nat)
    requires a <= b <= |t|
    ensures k in OnLine(t, l, a, b) <==> a <= k < b && t[k].line == Some(l)
    decreases b - a
  {
    if a < b {
      OnLineMembers(t, l, a, b - 1, k);
    }
  }

  /** The list for a line is strictly increasing: each node appears once and
      in pre-order. */
  lemma {:induction false} OnLineIncreasing(t: Tree, l: int, a: nat, b: nat)
    requires a <= b <= |t|
    ensures forall p, q :: 0 <= p < q < |OnLine(t, l, a, b)| ==> OnLine(t, l, a, b)[p] < OnLine(t, l, a, b)[q]
    decreases b - a
  {
    if a < b {
      OnLineIncreasing(t, l, a, b - 1);
      var s := OnLine(t, l, a, b - 1);
      forall p | 0 <= p < |s|
        ensures s[p] < b - 1
      {
        OnLineMembers(t, l, a, b - 1, s[p]);
      }
    }
  }

  /** Node `a` is a proper ancestor of node `n`: `n` lies strictly inside
      `a`'s subtree. */
  predicate Encloses(t: Tree, a: nat, n: nat)
  {
    a < n < |t| && n < t[a].end
  }

  /** `r` is the innermost definition enclosing `n`: `None` when no
      definition encloses `n`, otherwise an enclosing definition with no
      enclosing definition below it. */
  ghost predicate InnermostDef(t: Tree, n: nat, r: Option<nat>)
  {
    match r
    case None => forall d: nat :: Encloses(t, d, n) ==> !IsDefinition(t[d].kind)
    case Some(d) =>
      && Encloses(t, d, n) && IsDefinition(t[d].kind)
      && forall d': nat :: d < d' && Encloses(t, d', n) ==> !IsDefinition(t[d'].kind)
  }

  /** Inside a node's range, some child's subtree covers each position. */
  lemma {:induction false} CoveringChild(t: Tree, p: nat, x: nat, from: nat) returns (j: nat)
    requires Wf(t) && p < |t| && p < x < t[p].end
    requires from < |t[p].children| && t[p].children[from] <= x
    ensures from <= j < |t[p].children|
    ensures t[p].children[j] <= x < t[t[p].children[j]].end
    decreases |t[p].children| - from
  {
    assert NodeWf(t, p);
    var cs := t[p].children;
    if x < t[cs[from]].end {
      j := from;
    } else {
      j := CoveringChild(t, p, x, from + 1);
    }
  }

  /** Every node but the root is a child of its innermost proper ancestor. */
  lemma ParentOf(t: Tree, n: nat) returns (p: nat, j: nat)
    requires Wf(t) && 0 < n < |t|
    ensures Encloses(t, p, n)
    ensures forall a: nat :: Encloses(t, a, n) ==> a <= p
    ensures j < |t[p].children| && t[p].children[j] == n
  {
    p := n - 1;
    while !Encloses(t, p, n)
      invariant p < n
      invariant forall a: nat :: p < a < n ==> !Encloses(t, a, n)
      decreases p
    {
      assert p != 0;
      p := p - 1;
    }
    assert NodeWf(t, p);
    assert t[p].children != [];
    j := CoveringChild(t, p, n, 0);
    var c := t[p].children[j];
    if c < n {
      assert Encloses(t, c, n);
      assert false;
    }
  }

  /** The collected map sends each node to its innermost enclosing
      definition: the stack's top at the moment the node is visited. */
  lemma {:induction false} ContextIsInnermost(t: Tree, m: ContextMap, n: nat)
    requires Wf(t) && IsContextMap(t, m) && n < |t|
    ensures InnermostDef(t, n, m[n])
    decreases n
  {
    if n > 0 {
      var p, j := ParentOf(t, n);
      assert m[n] == ChildContext(t, m, p);
      if !IsDefinition(t[p].kind) {
        ContextIsInnermost(t, m, p);
        assert m[n] == m[p];
        forall a: nat | Encloses(t, a, n) && a != p
          ensures Encloses(t, a, p)
        {
        }
        forall a: nat | Encloses(t, a, p)
          ensures Encloses(t, a, n)
        {
          assert t[p].end <= t[a].end;
        }
      }
    }
  }
}
