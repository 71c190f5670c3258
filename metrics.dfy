/**
 * The cyclomatic-complexity visitor: one traversal of a Python syntax tree,
 * starting from 1 and adding a fixed amount for each decision-point node.
 */
module Metrics {
  import opened Wrappers
  import opened PyAst

  /** `len(node.handlers)` of a `Try` node. */
  function HandlerCount(cs: seq<Node>): (r: nat)
    ensures r <= |cs|
  {
    if cs == [] then 0
    else (if cs[0].kind.ExceptHandler? then 1 else 0) + HandlerCount(cs[1..])
  }

  /** What the `visit_*` method for this node's kind adds itself, before visiting the children. */
  function Gain(n: Node): int {
    match n.kind
    case If => 1
    case For => 1
    case While => 1
    case With => 1
    case AsyncWith => 1
    case Try => HandlerCount(n.children)
    case BoolOp => |n.children| - 1
    case _ => 0
  }

  /** Every `BoolOp` has at least two operands, as Python's parser guarantees. */
  ghost predicate WellFormed(n: Node)
    decreases n
  {
    (n.kind.BoolOp? ==> |n.children| >= 2)
    && forall i :: 0 <= i < |n.children| ==> WellFormed(n.children[i])
  }

  /** No node of the tree is one the visitor counts. */
  ghost predicate DecisionFree(n: Node)
    decreases n
  {
    !(n.kind.If? || n.kind.For? || n.kind.While? || n.kind.With? || n.kind.AsyncWith? || n.kind.BoolOp?)
    && (n.kind.Try? ==> HandlerCount(n.children) == 0)
    && forall i :: 0 <= i < |n.children| ==> DecisionFree(n.children[i])
  }

  /** The sum of the gains of a tree's nodes, in visiting order. */
  function Score(n: Node): (r: int)
    decreases n, 1
    ensures WellFormed(n) ==> r >= 0
  {
    Gain(n) + ScoreSeq(n.children)
  }

  function ScoreSeq(ns: seq<Node>): (r: int)
    decreases ns, 0
    ensures (forall i :: 0 <= i < |ns| ==> WellFormed(ns[i])) ==> r >= 0
  {
    if ns == [] then 0 else Score(ns[0]) + ScoreSeq(ns[1..])
  }

  /** Scores of sibling statements add up. */
  lemma {:induction false} ScoreSeqConcat(a: seq<Node>, b: seq<Node>)
    ensures ScoreSeq(a + b) == ScoreSeq(a) + ScoreSeq(b)
  {
    if a == [] {
      assert a + b == b;
    } else {
      assert (a + b)[1..] == a[1..] + b;
      ScoreSeqConcat(a[1..], b);
    }
  }

  class ComplexityVisitor {
    var complexity: int

    /** The base complexity is 1. */
    constructor ()
      ensures complexity == 1
    {
      complexity := 1;
    }

    /** `visit`: dispatch on the node's kind; kinds without a `visit_*` method fall back to `generic_visit`. */
    method Visit(n: Node)
      modifies this
      decreases n, 1
      ensures complexity == old(complexity) + Score(n)
    {
      match n.kind {
        case If =>
          complexity := complexity + 1;
          GenericVisit(n);
        case For =>
          complexity := complexity + 1;
          GenericVisit(n);
        case While =>
          complexity := complexity + 1;
          GenericVisit(n);
        case FunctionDef(_, _, _, _) =>
          GenericVisit(n);
        case AsyncFunctionDef(_, _, _, _) =>
          GenericVisit(n);
        case Try =>
          complexity := complexity + HandlerCount(n.children);
          GenericVisit(n);
        case With =>
          complexity := complexity + 1;
          GenericVisit(n);
        case AsyncWith =>
          complexity := complexity + 1;
          GenericVisit(n);
        case BoolOp =>
          complexity := complexity + |n.children| - 1;
          GenericVisit(n);
        case _ =>
          GenericVisit(n);
      }
    }

    /** `generic_visit`: visit every child in field order. */
    method GenericVisit(n: Node)
      modifies this
      decreases n, 0
      ensures complexity == old(complexity) + ScoreSeq(n.children)
    {
      var i := 0;
      while i < |n.children|
        invariant 0 <= i <= |n.children|
        invariant complexity == old(complexity) + ScoreSeq(n.children[..i])
      {
        assert n.children[..i + 1] == n.children[..i] + [n.children[i]];
        ScoreSeqConcat(n.children[..i], [n.children[i]]);
        Visit(n.children[i]);
        i := i + 1;
      }
      assert n.children[..i] == n.children;
    }
  }

  /**
   * `calculate_cyclomatic_complexity`: `parsed` is what `ast.parse` gives for
   * the source, None when it raises SyntaxError.
   */
  method CalculateCyclomaticComplexity(parsed: Option<Node>) returns (r: int)
    ensures parsed.None? ==> r == 0
    ensures parsed.Some? ==> r == 1 + Score(parsed.value)
    ensures parsed.Some? && WellFormed(parsed.value) ==> r >= 1
  {
    if parsed.None? {
      return 0;
    }
    var visitor := new ComplexityVisitor();
    visitor.Visit(parsed.value);
    r := visitor.complexity;
  }

  /** The total gain of a sequence of nodes, in any order of enumeration. */
  function GainSum(ns: seq<Node>): int {
    if ns == [] then 0 else Gain(ns[0]) + GainSum(ns[1..])
  }

  /**
   * The visitor's depth-first score equals the sum of the gains of the nodes
   * `ast.walk` enumerates: complexity is 1 plus one term per decision point.
   */
  lemma {:induction false} ScoreIsGainOverWalk(n: Node)
    ensures Score(n) == GainSum(Walk(n))
  {
    WalkQueueGain([n]);
  }

  lemma {:induction false} WalkQueueGain(q: seq<Node>)
    decreases SizeSeq(q)
    ensures GainSum(WalkQueue(q)) == ScoreSeq(q)
  {
    if q != [] {
      var rest := q[1..] + q[0].children;
      SizeSeqConcat(q[1..], q[0].children);
      assert SizeSeq(q) == 1 + SizeSeq(q[0].children) + SizeSeq(q[1..]);
      WalkQueueGain(rest);
      ScoreSeqConcat(q[1..], q[0].children);
      assert WalkQueue(q) == [q[0]] + WalkQueue(rest);
    }
  }

  /** A tree without decision points scores 0, so its complexity is exactly 1. */
  lemma {:induction false} DecisionFreeScoresZero(n: Node)
    requires DecisionFree(n)
    decreases n, 1
    ensures Score(n) == 0
  {
    DecisionFreeSeqScoresZero(n.children);
  }

  lemma {:induction false} DecisionFreeSeqScoresZero(ns: seq<Node>)
    requires forall i :: 0 <= i < |ns| ==> DecisionFree(ns[i])
    decreases ns, 0
    ensures ScoreSeq(ns) == 0
  {
    if ns != [] {
      DecisionFreeScoresZero(ns[0]);
      DecisionFreeSeqScoresZero(ns[1..]);
    }
  }

  /**
   * Adding one `if`, `for`, `while`, `with` or `async with` without nested
   * decision points anywhere in a statement list raises the score by exactly 1.
   */
  lemma AddOneBranch(before: seq<Node>, after: seq<Node>, k: Kind, cs: seq<Node>)
    requires k.If? || k.For? || k.While? || k.With? || k.AsyncWith?
    requires forall i :: 0 <= i < |cs| ==> DecisionFree(cs[i])
    ensures ScoreSeq(before + [Node(k, cs)] + after) == ScoreSeq(before + after) + 1
  {
    DecisionFreeSeqScoresZero(cs);
    ScoreSeqConcat(before + [Node(k, cs)], after);
    ScoreSeqConcat(before, [Node(k, cs)]);
    ScoreSeqConcat(before, after);
  }

  /** A `try` adds one per except handler: a try/finally without handlers adds nothing. */
  lemma AddTry(before: seq<Node>, after: seq<Node>, cs: seq<Node>)
    requires forall i :: 0 <= i < |cs| ==> DecisionFree(cs[i]) || cs[i].kind.ExceptHandler?
    requires forall i :: 0 <= i < |cs| && cs[i].kind.ExceptHandler? ==>
      forall j :: 0 <= j < |cs[i].children| ==> DecisionFree(cs[i].children[j])
    ensures ScoreSeq(before + [Node(Try, cs)] + after) == ScoreSeq(before + after) + HandlerCount(cs)
  {
    HandlerBodiesScoreZero(cs);
    ScoreSeqConcat(before + [Node(Try, cs)], after);
    ScoreSeqConcat(before, [Node(Try, cs)]);
    ScoreSeqConcat(before, after);
  }

  lemma {:induction false} HandlerBodiesScoreZero(cs: seq<Node>)
    requires forall i :: 0 <= i < |cs| ==> DecisionFree(cs[i]) || cs[i].kind.ExceptHandler?
    requires forall i :: 0 <= i < |cs| && cs[i].kind.ExceptHandler? ==>
      forall j :: 0 <= j < |cs[i].children| ==> DecisionFree(cs[i].children[j])
    ensures ScoreSeq(cs) == 0
  {
    if cs != [] {
      if cs[0].kind.ExceptHandler? {
        DecisionFreeSeqScoresZero(cs[0].children);
      } else {
        DecisionFreeScoresZero(cs[0]);
      }
      HandlerBodiesScoreZero(cs[1..]);
    }
  }

  /** A boolean operation over N operands without nested decision points adds exactly N - 1. */
  lemma BoolOpAddsOperandsMinusOne(values: seq<Node>)
    requires forall i :: 0 <= i < |values| ==> DecisionFree(values[i])
    ensures Score(Node(BoolOp, values)) == |values| - 1
  {
    DecisionFreeSeqScoresZero(values);
  }

  /**
   * Function definitions add nothing themselves but are descended into, so the
   * decisions of a nested body count towards the enclosing unit's score.
   */
  lemma FunctionBodiesAccumulate(k: Kind, outer: seq<Node>, body: seq<Node>)
    requires k.FunctionDef? || k.AsyncFunctionDef?
    ensures ScoreSeq(outer + [Node(k, body)]) == ScoreSeq(outer) + ScoreSeq(body)
  {
    ScoreSeqConcat(outer, [Node(k, body)]);
  }
}
