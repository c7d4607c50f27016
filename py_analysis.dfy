/** Entity naming and the per-line queries of py_analysis.py, on top of the
    context map and line index that the visitors of `PyContext` build. */
module PyAnalysis {
  import opened Wrappers
  import opened Strings
  import opened PySyntax
  import opened PyContext

  /** The walk up the context chain from `c`: `c`, its context, that
      context's context, and so on until `None`. Every element is a
      definition of the tree, and the walk goes strictly upward. */
  function ContextChain(t: Tree, m: ContextMap, c: Option<nat>): (r: seq<nat>)
    requires ContextsOk(t, m)
    requires c.Some? ==> c.value < |t| && IsDefinition(t[c.value].kind)
    ensures c.None? <==> r == []
    ensures c.Some? ==> r[0] == c.value
    ensures forall k :: 0 <= k < |r| ==> r[k] < |t| && IsDefinition(t[r[k]].kind)
    ensures forall i, j :: 0 <= i < j < |r| ==> r[j] < r[i]
    decreases if c.Some? then c.value + 1 else 0
  {
    match c
    case None => []
    case Some(d) => [d] + ContextChain(t, m, Lookup(m, d))
  }

  /** The chain from a node's context lists exactly the definitions that
      enclose the node, and never the node itself. */
  lemma {:induction false} ChainIsEnclosingDefs(t: Tree, m: ContextMap, n: nat)
    requires Wf(t) && IsContextMap(t, m) && ContextsOk(t, m) && n < |t|
    ensures forall x: nat :: x in ContextChain(t, m, m[n]) <==> Encloses(t, x, n) && IsDefinition(t[x].kind)
    decreases n
  {
    ContextIsInnermost(t, m, n);
    match m[n]
    case None =>
    case Some(d) =>
      ChainIsEnclosingDefs(t, m, d);
      assert Lookup(m, d) == m[d];
      assert ContextChain(t, m, m[n]) == [d] + ContextChain(t, m, m[d]);
      forall x: nat
        ensures x in ContextChain(t, m, m[n]) <==> Encloses(t, x, n) && IsDefinition(t[x].kind)
      {
        if Encloses(t, x, d) {
          assert t[d].end <= t[x].end;
        }
      }
  }

  /** `x` is a class definition of the tree. */
  predicate IsClassAt(t: Tree, x: nat)
  {
    x < |t| && t[x].kind.ClassDef?
  }

  /** Position of the first class definition in `s`, or `|s|` if none. */
  function FirstClassIndex(t: Tree, s: seq<nat>): (i: nat)
    ensures i <= |s|
    ensures forall k :: 0 <= k < i ==> !IsClassAt(t, s[k])
    ensures i < |s| ==> IsClassAt(t, s[i])
  {
    if s == [] then 0
    else if IsClassAt(t, s[0]) then 0
    else 1 + FirstClassIndex(t, s[1..])
  }

  /** `get_enclosing_class_node`: the node itself if it is a class, otherwise
      the first class met walking up the context chain, or `None`. */
  function EnclosingClass(t: Tree, m: ContextMap, n: nat): (r: Option<nat>)
    requires ContextsOk(t, m) && n < |t|
    ensures r.Some? ==> IsClassAt(t, r.value)
  {
    if t[n].kind.ClassDef? then Some(n)
    else
      var s := ContextChain(t, m, Lookup(m, n));
      var i := FirstClassIndex(t, s);
      if i < |s| then Some(s[i]) else None
  }

  /** The loop of `get_enclosing_class_node`, which walks the map one link
      at a time. */
  method GetEnclosingClassNode(t: Tree, m: ContextMap, n: nat) returns (r: Option<nat>)
    requires ContextsOk(t, m) && n < |t|
    ensures r == EnclosingClass(t, m, n)
  {
    if t[n].kind.ClassDef? {
      return Some(n);
    }
    var ctx: Option<nat> := Lookup(m, n);
    ghost var whole := ContextChain(t, m, ctx);
    while ctx.Some?
      invariant ctx.Some? ==> ctx.value < |t|
      invariant ctx.Some? ==> IsDefinition(t[ctx.value].kind)
      invariant var s := ContextChain(t, m, ctx); var i := FirstClassIndex(t, s);
        var w := FirstClassIndex(t, whole);
        (if i < |s| then Some(s[i]) else None) == (if w < |whole| then Some(whole[w]) else None)
      decreases if ctx.Some? then ctx.value + 1 else 0
    {
      var s := ContextChain(t, m, ctx);
      assert s == [ctx.value] + ContextChain(t, m, Lookup(m, ctx.value));
      if t[ctx.value].kind.ClassDef? {
        return ctx;
      }
      assert s[1..] == ContextChain(t, m, Lookup(m, ctx.value));
      ctx := Lookup(m, ctx.value);
    }
    return None;
  }

  /** For a node that is not a class, the enclosing class found is the
      innermost class enclosing the node, and `None` means no class encloses
      it. */
  lemma EnclosingClassIsInnermost(t: Tree, m: ContextMap, n: nat)
    requires Wf(t) && IsContextMap(t, m) && ContextsOk(t, m) && n < |t|
    requires !t[n].kind.ClassDef?
    ensures EnclosingClass(t, m, n).None? ==> forall c: nat :: Encloses(t, c, n) ==> !t[c].kind.ClassDef?
    ensures EnclosingClass(t, m, n).Some? ==>
      var c := EnclosingClass(t, m, n).value;
      && Encloses(t, c, n)
      && forall c': nat :: c < c' && Encloses(t, c', n) ==> !t[c'].kind.ClassDef?
  {
    ChainIsEnclosingDefs(t, m, n);
    var s := ContextChain(t, m, m[n]);
    assert Lookup(m, n) == m[n];
    forall c': nat | Encloses(t, c', n) && t[c'].kind.ClassDef?
      ensures FirstClassIndex(t, s) < |s| && s[FirstClassIndex(t, s)] >= c'
    {
      FirstClassIsLargest(t, s, c');
    }
    if FirstClassIndex(t, s) < |s| {
      assert s[FirstClassIndex(t, s)] in s;
    }
  }

  /** In a strictly decreasing sequence the first class is the largest. */
  lemma FirstClassIsLargest(t: Tree, s: seq<nat>, c: nat)
    requires forall i, j :: 0 <= i < j < |s| ==> s[j] < s[i]
    requires c in s && IsClassAt(t, c)
    ensures FirstClassIndex(t, s) < |s| && s[FirstClassIndex(t, s)] >= c
  {
    var k :| 0 <= k < |s| && s[k] == c;
    assert IsClassAt(t, s[k]);
  }

  /** `is_method_node`: a function definition whose context is a class. */
  predicate IsMethodNode(t: Tree, m: ContextMap, n: nat)
    requires n < |t|
  {
    && t[n].kind.FunctionDef?
    && Lookup(m, n).Some?
    && IsClassAt(t, Lookup(m, n).value)
  }

  /** The innermost definition enclosing `n` is a class. */
  ghost predicate DirectlyInClass(t: Tree, n: nat)
  {
    exists c: nat :: Encloses(t, c, n) && t[c].kind.ClassDef?
      && forall d: nat :: c < d && Encloses(t, d, n) ==> !IsDefinition(t[d].kind)
  }

  /** A node is a method exactly when it is a function definition whose
      innermost enclosing definition is a class; a function nested in a
      method is not a method. */
  lemma MethodNodeIsDirectlyInClass(t: Tree, m: ContextMap, n: nat)
    requires Wf(t) && IsContextMap(t, m) && n < |t|
    ensures IsMethodNode(t, m, n) <==> t[n].kind.FunctionDef? && DirectlyInClass(t, n)
  {
    ContextIsInnermost(t, m, n);
    assert Lookup(m, n) == m[n];
    if t[n].kind.FunctionDef? && DirectlyInClass(t, n) {
      var c: nat :| Encloses(t, c, n) && t[c].kind.ClassDef?
        && forall d: nat :: c < d && Encloses(t, d, n) ==> !IsDefinition(t[d].kind);
      assert IsDefinition(t[c].kind);
      assert m[n] == Some(c);
    }
  }

  /** `get_method_name`: class name, a dot, function name. */
  function MethodName(t: Tree, m: ContextMap, n: nat): (r: string)
    requires n < |t| && IsMethodNode(t, m, n)
    ensures |r| > |t[n].kind.name| && r[|r| - |t[n].kind.name|..] == t[n].kind.name
    ensures r[|r| - |t[n].kind.name| - 1] == '.'
    ensures r[..|r| - |t[n].kind.name| - 1] == t[Lookup(m, n).value].kind.name
  {
    t[Lookup(m, n).value].kind.name + "." + t[n].kind.name
  }

  /** The text Python's `"{}".format(x)` gives an optional name. */
  function NameOrNone(s: Option<string>): string
  {
    match s
    case Some(v) => v
    case None => "None"
  }

  /** `".".join(name.split(".")[1:])`: everything after the first dot. */
  function AfterFirstDot(name: string): string
  {
    Join(".", Split(name, '.')[1..])
  }

  /** For a name starting "self.", dropping the first dotted piece leaves
      exactly the text after "self.". */
  lemma {:induction false} AfterFirstDotOfSelf(name: string)
    requires StartsWith(name, "self.")
    ensures AfterFirstDot(name) == name[5..]
  {
    var rest := name[5..];
    assert name == "self" + "." + rest;
    SplitAfter("self", '.', rest);
    assert Split(name, '.')[1..] == Split(rest, '.');
    JoinSplit(rest, '.');
  }

  /** What naming needs: callees lie further on and contexts are well formed. */
  ghost predicate NamesOk(t: Tree, m: ContextMap)
  {
    CalleesOk(t) && ContextsOk(t, m)
  }

  /** `get_entity_name`: the closed case split that names an entity. */
  function EntityName(t: Tree, m: ContextMap, n: nat): Option<string>
    requires NamesOk(t, m) && n < |t|
    decreases |t| - n
  {
    match t[n].kind
    case ClassDef(name) => Some("class definition " + name)
    case FunctionDef(name) =>
      if IsMethodNode(t, m, n) then Some("method definition " + MethodName(t, m, n))
      else Some("function definition " + name)
    case Attribute(text) =>
      var name := Strip(text);
      if StartsWith(name, "self.") then
        match EnclosingClass(t, m, n)
        case Some(c) => Some(t[c].kind.name + "." + AfterFirstDot(name))
        case None => None
      else Some(name)
    case Name(id) => if id == "self" then None else Some(id)
    case Call(callee) =>
      Some("function call " + NameOrNone(EntityName(t, m, callee)))
    case Other => None
  }

  /** Exactly these nodes have no entity name: a bare `self`, a `self.`
      attribute outside every class, and every kind the split does not
      name. */
  lemma EntityNameAbsent(t: Tree, m: ContextMap, n: nat)
    requires Wf(t) && IsContextMap(t, m) && ContextsOk(t, m) && n < |t|
    ensures EntityName(t, m, n).None? <==>
      || t[n].kind.Other?
      || t[n].kind == Name("self")
      || (&& t[n].kind.Attribute? && StartsWith(Strip(t[n].kind.text), "self.")
          && forall c: nat :: Encloses(t, c, n) ==> !t[c].kind.ClassDef?)
  {
    if t[n].kind.Attribute? {
      EnclosingClassIsInnermost(t, m, n);
    }
  }

  /** Naming of definitions: classes and plain functions by their own name,
      methods as "C.f" with C the class directly around them. */
  lemma EntityNameOfDefinition(t: Tree, m: ContextMap, n: nat)
    requires Wf(t) && IsContextMap(t, m) && ContextsOk(t, m) && n < |t|
    ensures t[n].kind.ClassDef? ==> EntityName(t, m, n) == Some("class definition " + t[n].kind.name)
    ensures t[n].kind.FunctionDef? && !DirectlyInClass(t, n) ==>
      EntityName(t, m, n) == Some("function definition " + t[n].kind.name)
    ensures t[n].kind.FunctionDef? && DirectlyInClass(t, n) ==>
      m[n].Some? && m[n].value < |t| && t[m[n].value].kind.ClassDef? &&
      EntityName(t, m, n) == Some("method definition " + t[m[n].value].kind.name + "." + t[n].kind.name)
  {
    MethodNodeIsDirectlyInClass(t, m, n);
    assert Lookup(m, n) == m[n];
    if t[n].kind.FunctionDef? && DirectlyInClass(t, n) {
      var c := t[m[n].value].kind.name;
      var f := t[n].kind.name;
      assert EntityName(t, m, n) == Some("method definition " + MethodName(t, m, n));
      assert MethodName(t, m, n) == c + "." + f;
      assert "method definition " + (c + "." + f) == "method definition " + c + "." + f;
    }
  }

  /** Naming of attributes: a `self.` attribute inside a class becomes the
      innermost enclosing class's name, a dot, and the text after "self.";
      any other attribute keeps its text. */
  lemma EntityNameOfAttribute(t: Tree, m: ContextMap, n: nat)
    requires Wf(t) && IsContextMap(t, m) && ContextsOk(t, m) && n < |t|
    requires t[n].kind.Attribute?
    ensures !StartsWith(Strip(t[n].kind.text), "self.") ==> EntityName(t, m, n) == Some(Strip(t[n].kind.text))
    ensures StartsWith(Strip(t[n].kind.text), "self.") && EntityName(t, m, n).Some? ==>
      exists c: nat ::
        && Encloses(t, c, n) && t[c].kind.ClassDef?
        && (forall c': nat :: c < c' && Encloses(t, c', n) ==> !t[c'].kind.ClassDef?)
        && EntityName(t, m, n) == Some(t[c].kind.name + "." + Strip(t[n].kind.text)[5..])
  {
    var name := Strip(t[n].kind.text);
    if StartsWith(name, "self.") && EntityName(t, m, n).Some? {
      EnclosingClassIsInnermost(t, m, n);
      AfterFirstDotOfSelf(name);
      var c := EnclosingClass(t, m, n).value;
      assert EntityName(t, m, n) == Some(t[c].kind.name + "." + name[5..]);
    }
  }

  /** Calls are named after their callee, with the text "None" standing in
      for a callee without a name. */
  lemma EntityNameOfCall(t: Tree, m: ContextMap, n: nat)
    requires Wf(t) && ContextsOk(t, m) && n < |t|
    requires t[n].kind.Call?
    ensures t[n].kind.callee == n + 1 < |t|
    ensures EntityName(t, m, n) == Some("function call " + NameOrNone(EntityName(t, m, n + 1)))
  {
    assert NodeWf(t, n);
  }

  /** Every node in `ns` is a node of the tree. */
  predicate NodesOk(t: Tree, ns: seq<nat>)
  {
    forall k :: 0 <= k < |ns| ==> ns[k] < |t|
  }

  /** Every node listed in the index is a node of the tree. */
  ghost predicate IndexOk(t: Tree, idx: map<int, seq<nat>>)
  {
    forall l :: NodesOk(t, LineNodes(idx, l))
  }

  lemma LineIndexOk(t: Tree, idx: map<int, seq<nat>>)
    requires IsLineIndex(t, idx)
    ensures IndexOk(t, idx)
  {
    forall l
      ensures NodesOk(t, LineNodes(idx, l))
    {
      forall k | 0 <= k < |LineNodes(idx, l)|
        ensures LineNodes(idx, l)[k] < |t|
      {
        OnLineMembers(t, l, 0, |t|, LineNodes(idx, l)[k]);
      }
    }
  }

  /** The union of `f(n)` over the nodes `ns`, built node by node. */
  function NodesUnion<T>(ns: seq<nat>, f: nat -> set<T>): set<T>
  {
    if ns == [] then {} else NodesUnion(ns[..|ns| - 1], f) + f(ns[|ns| - 1])
  }

  /** The union of `f` over the nodes of each line in turn: the shape of
      both per-line queries. */
  function LinesUnion<T>(idx: map<int, seq<nat>>, lines: seq<int>, f: nat -> set<T>): set<T>
  {
    if lines == [] then {}
    else LinesUnion(idx, lines[..|lines| - 1], f) + NodesUnion(LineNodes(idx, lines[|lines| - 1]), f)
  }

  /** Node `n` carries one of the given line numbers. */
  predicate OnLines(t: Tree, n: nat, lines: seq<int>)
  {
    n < |t| && t[n].line.Some? && t[n].line.value in lines
  }

  lemma {:induction false} NodesUnionMembers<T>(ns: seq<nat>, f: nat -> set<T>, e: T)
    ensures e in NodesUnion(ns, f) <==> exists k :: 0 <= k < |ns| && e in f(ns[k])
  {
    if ns != [] {
      var ns' := ns[..|ns| - 1];
      NodesUnionMembers(ns', f, e);
      if e in NodesUnion(ns', f) {
        var k :| 0 <= k < |ns'| && e in f(ns'[k]);
        assert ns[k] == ns'[k];
      }
      if exists k :: 0 <= k < |ns| && e in f(ns[k]) {
        var k :| 0 <= k < |ns| && e in f(ns[k]);
        if k < |ns'| {
          assert ns'[k] == ns[k];
        }
      }
    }
  }

  /** Over a line index, the per-line union is the union over the nodes that
      carry one of the lines; lines without nodes add nothing. */
  lemma {:induction false} LinesUnionMembers<T>(t: Tree, idx: map<int, seq<nat>>, lines: seq<int>, f: nat -> set<T>, e: T)
    requires IsLineIndex(t, idx)
    ensures e in LinesUnion(idx, lines, f) <==> exists n: nat :: OnLines(t, n, lines) && e in f(n)
  {
    if lines != [] {
      var front := lines[..|lines| - 1];
      var l := lines[|lines| - 1];
      LinesUnionMembers(t, idx, front, f, e);
      var ns := LineNodes(idx, l);
      NodesUnionMembers(ns, f, e);
      if e in NodesUnion(ns, f) {
        var k :| 0 <= k < |ns| && e in f(ns[k]);
        OnLineMembers(t, l, 0, |t|, ns[k]);
        assert OnLines(t, ns[k], lines);
      }
      if e in LinesUnion(idx, front, f) {
        var n: nat :| OnLines(t, n, front) && e in f(n);
        assert OnLines(t, n, lines);
      }
      if exists n: nat :: OnLines(t, n, lines) && e in f(n) {
        var n: nat :| OnLines(t, n, lines) && e in f(n);
        if t[n].line.value == l {
          OnLineMembers(t, l, 0, |t|, n);
          var k :| 0 <= k < |ns| && ns[k] == n;
        } else {
          assert OnLines(t, n, front);
        }
      }
    }
  }

  /** The set `{x}` for `Some(x)` and the empty set for `None`. */
  function NameSet(s: Option<string>): set<string>
  {
    match s
    case Some(v) => {v}
    case None => {}
  }

  /** What one node contributes to `get_entities`: its entity name, if any. */
  function EntityNames(t: Tree, m: ContextMap): nat -> set<string>
    requires NamesOk(t, m)
  {
    (n: nat) => if n < |t| then NameSet(EntityName(t, m, n)) else {}
  }

  /** `get_entities`, as a value. */
  function Entities(t: Tree, m: ContextMap, idx: map<int, seq<nat>>, lines: seq<int>): set<string>
    requires NamesOk(t, m)
  {
    LinesUnion(idx, lines, EntityNames(t, m))
  }

  /** The names the context chain from `c` contributes, in `get_contexts`'
      `while ctx` loop. */
  function ChainNames(t: Tree, m: ContextMap, c: Option<nat>): set<string>
    requires NamesOk(t, m)
    requires c.Some? ==> c.value < |t|
    decreases if c.Some? then c.value + 1 else 0
  {
    match c
    case None => {}
    case Some(d) => NameSet(EntityName(t, m, d)) + ChainNames(t, m, Lookup(m, d))
  }

  /** What one node contributes to `get_contexts`: the names along its
      context chain. */
  function ContextNames(t: Tree, m: ContextMap): nat -> set<string>
    requires NamesOk(t, m)
  {
    (n: nat) => if n < |t| then ChainNames(t, m, Lookup(m, n)) else {}
  }

  /** `get_contexts`, as a value. */
  function Contexts(t: Tree, m: ContextMap, idx: map<int, seq<nat>>, lines: seq<int>): set<string>
    requires NamesOk(t, m)
  {
    LinesUnion(idx, lines, ContextNames(t, m))
  }

  /** `get_entities(lines)` is the set of entity names of the nodes that sit
      on those lines; an empty line list gives the empty set. */
  lemma EntitiesOnLines(t: Tree, m: ContextMap, idx: map<int, seq<nat>>, lines: seq<int>, e: string)
    requires NamesOk(t, m) && IsLineIndex(t, idx)
    ensures e in Entities(t, m, idx, lines) <==> exists n: nat :: OnLines(t, n, lines) && EntityName(t, m, n) == Some(e)
    ensures lines == [] ==> Entities(t, m, idx, lines) == {}
  {
    var f := EntityNames(t, m);
    LinesUnionMembers(t, idx, lines, f, e);
    forall n: nat | OnLines(t, n, lines)
      ensures e in f(n) <==> EntityName(t, m, n) == Some(e)
    {
    }
  }

  /** The names along a chain are the names of its elements. */
  lemma {:induction false} ChainNamesMembers(t: Tree, m: ContextMap, c: Option<nat>, e: string)
    requires NamesOk(t, m)
    requires c.Some? ==> c.value < |t| && IsDefinition(t[c.value].kind)
    ensures e in ChainNames(t, m, c) <==> exists x :: x in ContextChain(t, m, c) && EntityName(t, m, x) == Some(e)
    decreases if c.Some? then c.value + 1 else 0
  {
    if c.Some? {
      var d := c.value;
      ChainNamesMembers(t, m, Lookup(m, d), e);
      var s := ContextChain(t, m, c);
      assert s == [d] + ContextChain(t, m, Lookup(m, d));
      if e in NameSet(EntityName(t, m, d)) {
        assert d in s && EntityName(t, m, d) == Some(e);
      }
    }
  }

  /** The context names of one node are the names of the definitions that
      enclose it, never its own. */
  lemma NodeContextNames(t: Tree, m: ContextMap, n: nat, e: string)
    requires Wf(t) && IsContextMap(t, m) && ContextsOk(t, m) && n < |t|
    ensures e in ContextNames(t, m)(n) <==>
      exists x: nat :: Encloses(t, x, n) && IsDefinition(t[x].kind) && EntityName(t, m, x) == Some(e)
  {
    assert Lookup(m, n) == m[n];
    ChainIsEnclosingDefs(t, m, n);
    ChainNamesMembers(t, m, m[n], e);
  }

  /** `get_contexts(lines)` is the set of names of the definitions that
      enclose some node on those lines (never a node's own name); an empty
      line list gives the empty set. */
  lemma ContextsOnLines(t: Tree, m: ContextMap, idx: map<int, seq<nat>>, lines: seq<int>, e: string)
    requires Wf(t) && IsContextMap(t, m) && ContextsOk(t, m) && IsLineIndex(t, idx)
    ensures e in Contexts(t, m, idx, lines) <==>
      exists n: nat, x: nat :: OnLines(t, n, lines) && Encloses(t, x, n) && IsDefinition(t[x].kind) && EntityName(t, m, x) == Some(e)
    ensures lines == [] ==> Contexts(t, m, idx, lines) == {}
  {
    LinesUnionMembers(t, idx, lines, ContextNames(t, m), e);
    if e in Contexts(t, m, idx, lines) {
      var n: nat :| OnLines(t, n, lines) && e in ContextNames(t, m)(n);
      NodeContextNames(t, m, n, e);
    }
    if exists n: nat, x: nat :: OnLines(t, n, lines) && Encloses(t, x, n) && IsDefinition(t[x].kind) && EntityName(t, m, x) == Some(e) {
      var n: nat, x: nat :| OnLines(t, n, lines) && Encloses(t, x, n) && IsDefinition(t[x].kind) && EntityName(t, m, x) == Some(e);
      NodeContextNames(t, m, n, e);
    }
  }

  /** The `while ctx` loop of `get_contexts`: walk up the chain from `ctx`,
      adding each name found to `contexts`. */
  method AddChainNames(t: Tree, m: ContextMap, ctx: Option<nat>, contexts: set<string>) returns (r: set<string>)
    requires NamesOk(t, m)
    requires ctx.Some? ==> ctx.value < |t|
    ensures r == contexts + ChainNames(t, m, ctx)
  {
    r := contexts;
    var c: Option<nat> := ctx;
    while c.Some?
      invariant c.Some? ==> c.value < |t|
      invariant r + ChainNames(t, m, c) == contexts + ChainNames(t, m, ctx)
      decreases if c.Some? then c.value + 1 else 0
    {
      var ctxName := EntityName(t, m, c.value);
      if ctxName.Some? {
        r := r + {ctxName.value};
      }
      c := Lookup(m, c.value);
    }
  }

  /** `AnalyzedPythonFile`: a parsed file with its context map and line
      index, built once and then only queried. */
  class AnalyzedPythonFile {
    const tree: Tree
    const nodeToContext: ContextMap
    const lineToNodes: map<int, seq<nat>>

    /** The tree is a parsed module and both maps are what the visitors
        build from it. */
    ghost predicate Valid()
    {
      && Wf(tree)
      && IsContextMap(tree, nodeToContext) && ContextsOk(tree, nodeToContext)
      && IsLineIndex(tree, lineToNodes)
      && Queryable()
    }

    /** What the queries need: nodes can be named and the index lists only
        nodes of the tree. */
    ghost predicate Queryable()
    {
      NamesOk(tree, nodeToContext) && IndexOk(tree, lineToNodes)
    }

    /** Runs both visitors over the parsed tree. */
    constructor (t: Tree)
      requires Wf(t)
      ensures tree == t && Valid()
    {
      var contexts := new SimpleContextCollector();
      var m := contexts.Get(t);
      var lines := new LineToNodeMapper();
      var idx := lines.Get(t);
      LineIndexOk(t, idx);
      tree := t;
      nodeToContext := m;
      lineToNodes := idx;
    }

    /** `get_entities(lines)`. */
    method GetEntities(lines: seq<int>) returns (entities: set<string>)
      requires Queryable()
      ensures entities == Entities(tree, nodeToContext, lineToNodes, lines)
    {
      ghost var f := EntityNames(tree, nodeToContext);
      entities := {};
      for j := 0 to |lines|
        invariant entities == LinesUnion(lineToNodes, lines[..j], f)
      {
        var nodes := LineNodes(lineToNodes, lines[j]);
        assert NodesOk(tree, nodes);
        var lineEntities := LineEntities(nodes);
        entities := entities + lineEntities;
        assert lines[..j + 1][..j] == lines[..j];
      }
      assert lines[..|lines|] == lines;
    }

    /** The `for node in ...` loop of `get_entities` over the nodes of one
        line: the names of those nodes that have one. */
    method LineEntities(nodes: seq<nat>) returns (lineEntities: set<string>)
      requires Queryable() && NodesOk(tree, nodes)
      ensures lineEntities == NodesUnion(nodes, EntityNames(tree, nodeToContext))
    {
      ghost var f := EntityNames(tree, nodeToContext);
      lineEntities := {};
      for k := 0 to |nodes|
        invariant lineEntities == NodesUnion(nodes[..k], f)
      {
        var entity := EntityName(tree, nodeToContext, nodes[k]);
        if entity.Some? {
          lineEntities := lineEntities + {entity.value};
        }
        assert nodes[..k + 1][..k] == nodes[..k];
        assert f(nodes[k]) == NameSet(entity);
      }
      assert nodes[..|nodes|] == nodes;
    }

    /** `get_contexts(lines)`. */
    method GetContexts(lines: seq<int>) returns (contexts: set<string>)
      requires Queryable()
      ensures contexts == Contexts(tree, nodeToContext, lineToNodes, lines)
    {
      ghost var f := ContextNames(tree, nodeToContext);
      contexts := {};
      for j := 0 to |lines|
        invariant contexts == LinesUnion(lineToNodes, lines[..j], f)
      {
        var nodes := LineNodes(lineToNodes, lines[j]);
        assert NodesOk(tree, nodes);
        contexts := AddLineContexts(nodes, contexts);
        assert lines[..j + 1][..j] == lines[..j];
      }
      assert lines[..|lines|] == lines;
    }

    /** The `for node in ...` loop of `get_contexts` over the nodes of one
        line: adds the names along each node's context chain. */
    method AddLineContexts(nodes: seq<nat>, contexts: set<string>) returns (r: set<string>)
      requires Queryable() && NodesOk(tree, nodes)
      ensures r == contexts + NodesUnion(nodes, ContextNames(tree, nodeToContext))
    {
      ghost var f := ContextNames(tree, nodeToContext);
      r := contexts;
      for k := 0 to |nodes|
        invariant r == contexts + NodesUnion(nodes[..k], f)
      {
        ghost var prev := r;
        r := AddChainNames(tree, nodeToContext, Lookup(nodeToContext, nodes[k]), r);
        assert r == prev + f(nodes[k]);
        assert nodes[..k + 1][..k] == nodes[..k];
      }
      assert nodes[..|nodes|] == nodes;
    }
  }

  /** One changed region: the changed line numbers before and after. */
  datatype LineRange = LineRange(source: seq<int>, target: seq<int>)

  /** `LinesAnalysis`: a region with its (before, after) entity and context
      sets. */
  datatype LinesAnalysis = LinesAnalysis(
    lines: LineRange,
    entities: (set<string>, set<string>),
    contexts: (set<string>, set<string>))

  /** The analysis of one region against the old and the new file. */
  ghost function RegionAnalysis(source: AnalyzedPythonFile, target: AnalyzedPythonFile, c: LineRange): LinesAnalysis
    requires source.Queryable() && target.Queryable()
  {
    LinesAnalysis(
      c,
      (Entities(source.tree, source.nodeToContext, source.lineToNodes, c.source),
       Entities(target.tree, target.nodeToContext, target.lineToNodes, c.target)),
      (Contexts(source.tree, source.nodeToContext, source.lineToNodes, c.source),
       Contexts(target.tree, target.nodeToContext, target.lineToNodes, c.target)))
  }

  /** The loop of `PythonAnalysis.__init__` that analyses each changed region,
      the old file answering for the old lines and the new file for the new
      ones; one analysis per region, in order. */
  method AnalyzeRegions(source: AnalyzedPythonFile, target: AnalyzedPythonFile, changes: seq<LineRange>)
    returns (analyzed: seq<LinesAnalysis>)
    requires source.Queryable() && target.Queryable()
    ensures |analyzed| == |changes|
    ensures forall i :: 0 <= i < |changes| ==> analyzed[i] == RegionAnalysis(source, target, changes[i])
  {
    analyzed := [];
    for i := 0 to |changes|
      invariant |analyzed| == i
      invariant forall k :: 0 <= k < i ==> analyzed[k] == RegionAnalysis(source, target, changes[k])
    {
      var c := changes[i];
      var se := source.GetEntities(c.source);
      var te := target.GetEntities(c.target);
      var sc := source.GetContexts(c.source);
      var tc := target.GetContexts(c.target);
      analyzed := analyzed + [LinesAnalysis(c, (se, te), (sc, tc))];
    }
  }
}
