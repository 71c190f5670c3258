/**
 * A closed, tagged representation of the Python syntax nodes the core looks at,
 * and `ast.walk`. Every node lists its child nodes in the order of its fields
 * (the order `generic_visit` and `ast.iter_child_nodes` use).
 *
 * - A `Try` node's handlers are its `ExceptHandler` children.
 * - A `BoolOp` node's children are its operands (the operator leaf is omitted).
 * - An `Arg` node's children are its annotation, if any.
 * - A function definition carries what `ast.get_docstring` returns for it,
 *   with "" standing for None.
 */
module PyAst {

  datatype Ctx = Load | Store | Del | Param

  datatype Kind =
    | If | For | While | With | AsyncWith | Try | ExceptHandler | BoolOp
    | FunctionDef(name: string, lineno: int, endLineno: int, docstring: string)
    | AsyncFunctionDef(name: string, lineno: int, endLineno: int, docstring: string)
    | Name(id: string, ctx: Ctx)
    | Arg(arg: string)
    | Other(tag: string)

  datatype Node = Node(kind: Kind, children: seq<Node>)

  /** `isinstance(node, (ast.FunctionDef, ast.AsyncFunctionDef))`. */
  predicate IsFunction(n: Node) {
    n.kind.FunctionDef? || n.kind.AsyncFunctionDef?
  }

  /** A function definition with a docstring, as `if docstring:` tests it. */
  predicate IsDocumented(n: Node) {
    IsFunction(n) && n.kind.docstring != ""
  }

  function Size(n: Node): (r: nat)
    decreases n, 1
    ensures r >= 1
  {
    1 + SizeSeq(n.children)
  }

  function SizeSeq(ns: seq<Node>): nat
    decreases ns, 0
  {
    if ns == [] then 0 else Size(ns[0]) + SizeSeq(ns[1..])
  }

  lemma {:induction false} SizeSeqConcat(a: seq<Node>, b: seq<Node>)
    ensures SizeSeq(a + b) == SizeSeq(a) + SizeSeq(b)
  {
    if a == [] {
      assert a + b == b;
    } else {
      assert (a + b)[1..] == a[1..] + b;
      SizeSeqConcat(a[1..], b);
    }
  }

  /**
   * `ast.walk` over a FIFO of pending nodes: pop the first, append its
   * children, yield it. One entry per node of the queued trees; `WalkQueueNodes`
   * states which nodes.
   */
  function WalkQueue(q: seq<Node>): (r: seq<Node>)
    decreases SizeSeq(q)
    ensures |r| == SizeSeq(q)
  {
    if q == [] then []
    else
      SizeSeqConcat(q[1..], q[0].children);
      assert SizeSeq(q) == 1 + SizeSeq(q[0].children) + SizeSeq(q[1..]);
      [q[0]] + WalkQueue(q[1..] + q[0].children)
  }

  function Walk(n: Node): seq<Node> {
    WalkQueue([n])
  }

  /** The nodes of a tree in depth-first order: a reference for what `ast.walk` visits. */
  function Preorder(n: Node): seq<Node>
    decreases n, 1
  {
    [n] + PreorderSeq(n.children)
  }

  function PreorderSeq(ns: seq<Node>): seq<Node>
    decreases ns, 0
  {
    if ns == [] then [] else Preorder(ns[0]) + PreorderSeq(ns[1..])
  }

  lemma {:induction false} PreorderSeqConcat(a: seq<Node>, b: seq<Node>)
    ensures PreorderSeq(a + b) == PreorderSeq(a) + PreorderSeq(b)
  {
    if a == [] {
      assert a + b == b;
    } else {
      assert (a + b)[0] == a[0];
      assert (a + b)[1..] == a[1..] + b;
      PreorderSeqConcat(a[1..], b);
    }
  }

  /** The breadth-first walk of a queue yields the nodes of the queued trees, each as often as it occurs in them. */
  lemma {:induction false} WalkQueueNodes(q: seq<Node>)
    decreases SizeSeq(q)
    ensures multiset(WalkQueue(q)) == multiset(PreorderSeq(q))
  {
    if q != [] {
      var rest := q[1..] + q[0].children;
      SizeSeqConcat(q[1..], q[0].children);
      assert SizeSeq(q) == 1 + SizeSeq(q[0].children) + SizeSeq(q[1..]);
      WalkQueueNodes(rest);
      PreorderSeqConcat(q[1..], q[0].children);
      assert WalkQueue(q) == [q[0]] + WalkQueue(rest);
      assert PreorderSeq(q) == [q[0]] + PreorderSeq(q[0].children) + PreorderSeq(q[1..]);
    }
  }

  /** `ast.walk(tree)` yields exactly the nodes of the tree, with their multiplicities. */
  lemma WalkNodes(tree: Node)
    ensures multiset(Walk(tree)) == multiset(Preorder(tree))
    ensures forall n :: n in Walk(tree) <==> n in Preorder(tree)
  {
    WalkQueueNodes([tree]);
    assert PreorderSeq([tree]) == Preorder(tree) + PreorderSeq([]) by {
      assert [tree][1..] == [];
    }
    assert PreorderSeq([tree]) == Preorder(tree);
    forall n ensures n in Walk(tree) <==> n in Preorder(tree) {
      assert n in Walk(tree) <==> n in multiset(Walk(tree));
      assert n in Preorder(tree) <==> n in multiset(Preorder(tree));
    }
  }
}

/** The part of a javalang parse tree the core reads: `tree.filter(MethodDeclaration)`, in order. */
module JavaAst {
  import opened Wrappers

  /** A method declaration: its name, its attached comment ("" for None) and its position's line. */
  datatype MethodDeclaration = MethodDeclaration(name: string, documentation: string, position: Option<nat>)
}
