/** The Python syntax tree that the analysis works on, as an arena.

    Node identity is the node's index. The arena is laid out in pre-order, the
    order in which `ast.NodeVisitor` visits nodes: node `i`'s subtree occupies
    the index range [i, t[i].end), its first child is `i + 1`, each further
    child starts where the previous child's subtree ends, and the last child's
    subtree ends where `i`'s does. The root (the module) is node 0. */
module PySyntax {
  import opened Wrappers

  /** The node kinds that entity naming distinguishes. `Attribute` carries its
      unparsed dotted text (`astunparse.unparse(node).strip()`); `Call` carries
      the index of its callee (`node.func`), which is its first child since
      `func` is the first field of `ast.Call`. Every other kind is `Other`. */
  datatype Kind =
    | ClassDef(name: string)
    | FunctionDef(name: string)
    | Name(id: string)
    | Attribute(text: string)
    | Call(callee: nat)
    | Other

  /** A node: its kind, its `lineno` if it has one, its children in field
      order, and the end of its subtree's index range. */
  datatype Node = Node(kind: Kind, line: Option<int>, children: seq<nat>, end: nat)

  type Tree = seq<Node>

  /** Class and function definitions open a context (`is_context_node`). */
  predicate IsDefinition(k: Kind)
  {
    k.ClassDef? || k.FunctionDef?
  }

  /** Node `i` is well placed: its children lie inside its range and tile it,
      and the kinds carry what the parser guarantees (identifiers and
      attribute texts are non-empty, a call's callee is its first child). */
  ghost predicate NodeWf(t: Tree, i: nat)
    requires i < |t|
  {
    var n := t[i];
    && i < n.end <= |t|
    && (forall j :: 0 <= j < |n.children| ==> i < n.children[j] < n.end)
    && (forall j :: 0 <= j < |n.children| ==> t[n.children[j]].end <= n.end)
    && (n.children == [] ==> n.end == i + 1)
    && (n.children != [] ==> n.children[0] == i + 1 && t[n.children[|n.children| - 1]].end == n.end)
    && (forall j :: 0 <= j < |n.children| - 1 ==> n.children[j + 1] == t[n.children[j]].end)
    && (n.kind.Call? ==> n.children != [] && n.kind.callee == n.children[0])
    && (n.kind.Name? ==> n.kind.id != "")
    && (n.kind.Attribute? ==> n.kind.text != "")
  }

  /** Subtree ranges nest: a node inside `i`'s range ends no later than `i`. */
  ghost predicate Laminar(t: Tree)
  {
    forall i, k :: 0 <= i < k < |t| && k < t[i].end ==> t[k].end <= t[i].end
  }

  /** A parsed module: a root whose range is the whole arena, every node well
      placed, ranges nested. */
  ghost predicate Wf(t: Tree)
  {
    && |t| > 0
    && t[0].end == |t|
    && (forall i :: 0 <= i < |t| ==> i < t[i].end <= |t|)
    && (forall i, j :: 0 <= i < |t| && 0 <= j < |t[i].children| ==> i < t[i].children[j] < t[i].end)
    && (forall i :: 0 <= i < |t| ==> NodeWf(t, i))
    && Laminar(t)
    && CalleesOk(t)
  }

  /** A call's callee is a later node of the tree; this is all that naming
      a call needs to know about the tree's shape. */
  ghost predicate CalleesOk(t: Tree)
  {
    forall i :: 0 <= i < |t| && t[i].kind.Call? ==> i < t[i].kind.callee < |t|
  }
}
