/**
 * `VariableRenamer`, the `NodeTransformer` of the augmentation step: one
 * traversal in field order that gives every newly bound variable a name
 * `var_N` and every new parameter a name `arg_N` (one counter for both),
 * and rewrites every later name already in the mapping.
 *
 * `RenameNode` / `RenameSeq` are the traversal as functions threading the
 * mapping and the counter; the class's methods are the traversal with the
 * state in fields, proved equal to them.
 */
module Renamer {
  import opened Strings
  import opened PyAst

  /** A traversal's result together with the renamer's state after it. */
  datatype Renamed<T> = Renamed(value: T, mapping: map<string, string>, count: nat)

  /** A binding occurrence of a Name: a `Store` or `Param` context. */
  predicate Binds(ctx: Ctx) {
    ctx.Store? || ctx.Param?
  }

  /** `f"var_{count}"` and `f"arg_{count}"`. */
  function VarName(count: nat): string {
    "var_" + NatToString(count)
  }

  function ArgName(count: nat): string {
    "arg_" + NatToString(count)
  }

  /** The state after `visit_Name` or `visit_arg` registers `id` with the name `newName`. */
  function Register(id: string, newName: string, m: map<string, string>, c: nat): (map<string, string>, nat) {
    if id !in m && id != "self" then (m[id := newName], c + 1) else (m, c)
  }

  function RenameNode(n: Node, m: map<string, string>, c: nat): Renamed<Node>
    decreases n, 1
  {
    match n.kind
    case Name(id, ctx) =>
      var (m1, c1) := if Binds(ctx) then Register(id, VarName(c), m, c) else (m, c);
      Renamed(if id in m1 then Node(Name(m1[id], ctx), n.children) else n, m1, c1)
    case Arg(a) =>
      var (m1, c1) := Register(a, ArgName(c), m, c);
      Renamed(if a in m1 then Node(Arg(m1[a]), n.children) else n, m1, c1)
    case _ =>
      var cs := RenameSeq(n.children, m, c);
      Renamed(Node(n.kind, cs.value), cs.mapping, cs.count)
  }

  function RenameSeq(ns: seq<Node>, m: map<string, string>, c: nat): Renamed<seq<Node>>
    decreases ns, 0
  {
    if ns == [] then Renamed([], m, c)
    else
      var h := RenameNode(ns[0], m, c);
      var t := RenameSeq(ns[1..], h.mapping, h.count);
      Renamed([h.value] + t.value, t.mapping, t.count)
  }

  // ---------------------------------------------------------------------------
  // The renamer's invariant.

  /** Every mapped name is `var_K` or `arg_K` for some K below the counter. */
  ghost predicate Numbered(m: map<string, string>, c: nat) {
    forall id :: id in m ==>
      && |m[id]| >= 4
      && (m[id][..4] == "var_" || m[id][..4] == "arg_")
      && exists k :: 0 <= k < c && m[id][4..] == NatToString(k)
  }

  /** Distinct identifiers get distinct new names. */
  ghost predicate Injective(m: map<string, string>) {
    forall a, b :: a in m && b in m && a != b ==> m[a] != m[b]
  }

  /** The renamer's state: numbered, injective, one key per counter step, and `self` never mapped. */
  ghost predicate Consistent(m: map<string, string>, c: nat) {
    Numbered(m, c) && Injective(m) && "self" !in m && |m| == c
  }

  lemma RegisterKeepsConsistent(id: string, newName: string, m: map<string, string>, c: nat)
    requires Consistent(m, c)
    requires newName == VarName(c) || newName == ArgName(c)
    ensures Consistent(Register(id, newName, m, c).0, Register(id, newName, m, c).1)
  {
    if id !in m && id != "self" {
      RegisterNumbered(id, newName, m, c);
      RegisterInjective(id, newName, m, c);
      assert m[id := newName].Keys == m.Keys + {id};
    }
  }

  /** A new entry numbered with the counter keeps every entry numbered below the next counter. */
  lemma RegisterNumbered(id: string, newName: string, m: map<string, string>, c: nat)
    requires Numbered(m, c) && id !in m
    requires newName == VarName(c) || newName == ArgName(c)
    ensures Numbered(m[id := newName], c + 1)
  {
    var m1 := m[id := newName];
    assert newName[4..] == NatToString(c);
    forall a | a in m1 ensures |m1[a]| >= 4 && (m1[a][..4] == "var_" || m1[a][..4] == "arg_")
      && exists k :: 0 <= k < c + 1 && m1[a][4..] == NatToString(k)
    {
      if a != id {
        var k :| 0 <= k < c && m[a][4..] == NatToString(k);
      }
    }
  }

  /** The counter's name is not yet taken, so a new entry keeps the mapping injective. */
  lemma RegisterInjective(id: string, newName: string, m: map<string, string>, c: nat)
    requires Numbered(m, c) && Injective(m) && id !in m
    requires newName == VarName(c) || newName == ArgName(c)
    ensures Injective(m[id := newName])
  {
    assert newName[4..] == NatToString(c);
    forall other | other in m ensures m[other] != newName {
      var k :| 0 <= k < c && m[other][4..] == NatToString(k);
      if m[other] == newName {
        NatToStringInjective(k, c);
      }
    }
  }

  /** The traversal keeps the renamer's state consistent. */
  lemma {:induction false} RenameNodeConsistent(n: Node, m: map<string, string>, c: nat)
    requires Consistent(m, c)
    decreases n, 1
    ensures Consistent(RenameNode(n, m, c).mapping, RenameNode(n, m, c).count)
  {
    match n.kind
    case Name(id, ctx) =>
      if Binds(ctx) {
        var (m1, c1) := Register(id, VarName(c), m, c);
        assert RenameNode(n, m, c).mapping == m1 && RenameNode(n, m, c).count == c1;
        RegisterKeepsConsistent(id, VarName(c), m, c);
      }
    case Arg(a) =>
      var (m1, c1) := Register(a, ArgName(c), m, c);
      assert RenameNode(n, m, c).mapping == m1 && RenameNode(n, m, c).count == c1;
      RegisterKeepsConsistent(a, ArgName(c), m, c);
    case _ =>
      RenameSeqConsistent(n.children, m, c);
  }

  lemma {:induction false} RenameSeqConsistent(ns: seq<Node>, m: map<string, string>, c: nat)
    requires Consistent(m, c)
    decreases ns, 0
    ensures Consistent(RenameSeq(ns, m, c).mapping, RenameSeq(ns, m, c).count)
  {
    if ns != [] {
      var h := RenameNode(ns[0], m, c);
      RenameNodeConsistent(ns[0], m, c);
      RenameSeqConsistent(ns[1..], h.mapping, h.count);
    }
  }

  // ---------------------------------------------------------------------------
  // What the traversal adds to the mapping.

  /** The identifiers the traversal registers: bound names and parameters other than `self`, annotations excluded. */
  function BoundIds(n: Node): set<string>
    decreases n, 1
  {
    match n.kind
    case Name(id, ctx) => if Binds(ctx) && id != "self" then {id} else {}
    case Arg(a) => if a != "self" then {a} else {}
    case _ => BoundIdsSeq(n.children)
  }

  function BoundIdsSeq(ns: seq<Node>): set<string>
    decreases ns, 0
  {
    if ns == [] then {} else BoundIds(ns[0]) + BoundIdsSeq(ns[1..])
  }

  /** Existing entries are never changed, and the keys gained are exactly the identifiers registered. */
  lemma {:induction false} RenameNodeExtends(n: Node, m: map<string, string>, c: nat)
    decreases n, 1
    ensures var r := RenameNode(n, m, c);
      (forall id :: id in m ==> id in r.mapping && r.mapping[id] == m[id])
      && r.mapping.Keys == m.Keys + BoundIds(n)
      && r.count >= c
  {
    match n.kind
    case Name(_, _) =>
    case Arg(_) =>
    case _ =>
      RenameSeqExtends(n.children, m, c);
  }

  lemma {:induction false} RenameSeqExtends(ns: seq<Node>, m: map<string, string>, c: nat)
    decreases ns, 0
    ensures var r := RenameSeq(ns, m, c);
      (forall id :: id in m ==> id in r.mapping && r.mapping[id] == m[id])
      && r.mapping.Keys == m.Keys + BoundIdsSeq(ns)
      && r.count >= c
  {
    if ns != [] {
      var h := RenameNode(ns[0], m, c);
      RenameNodeExtends(ns[0], m, c);
      RenameSeqExtends(ns[1..], h.mapping, h.count);
    }
  }

  // ---------------------------------------------------------------------------
  // Only identifiers change.

  /** The tree with every Name id and parameter name blanked out. */
  function Skeleton(n: Node): Node
    decreases n, 1
  {
    match n.kind
    case Name(_, ctx) => Node(Name("", ctx), n.children)
    case Arg(_) => Node(Arg(""), n.children)
    case _ => Node(n.kind, SkeletonSeq(n.children))
  }

  function SkeletonSeq(ns: seq<Node>): (r: seq<Node>)
    decreases ns, 0
    ensures |r| == |ns|
  {
    if ns == [] then [] else [Skeleton(ns[0])] + SkeletonSeq(ns[1..])
  }

  /** Renaming changes identifiers only: node kinds, contexts, order and annotations stay as they were. */
  lemma {:induction false} RenameNodeKeepsSkeleton(n: Node, m: map<string, string>, c: nat)
    decreases n, 1
    ensures Skeleton(RenameNode(n, m, c).value) == Skeleton(n)
  {
    match n.kind
    case Name(_, _) =>
    case Arg(_) =>
    case _ =>
      RenameSeqKeepsSkeleton(n.children, m, c);
  }

  lemma {:induction false} RenameSeqKeepsSkeleton(ns: seq<Node>, m: map<string, string>, c: nat)
    decreases ns, 0
    ensures SkeletonSeq(RenameSeq(ns, m, c).value) == SkeletonSeq(ns)
  {
    if ns != [] {
      var h := RenameNode(ns[0], m, c);
      RenameNodeKeepsSkeleton(ns[0], m, c);
      RenameSeqKeepsSkeleton(ns[1..], h.mapping, h.count);
      assert RenameSeq(ns, m, c).value[1..] == RenameSeq(ns[1..], h.mapping, h.count).value;
    }
  }

  // ---------------------------------------------------------------------------
  // One Name at a time.

  /** A read of a name not yet in the mapping keeps its name and leaves the state alone. */
  lemma UnmappedLoadKept(id: string, ctx: Ctx, children: seq<Node>, m: map<string, string>, c: nat)
    requires !Binds(ctx) && id !in m
    ensures RenameNode(Node(Name(id, ctx), children), m, c) == Renamed(Node(Name(id, ctx), children), m, c)
  {
  }

  /** Any occurrence of a mapped name, binding or not, takes its mapped name and leaves the state alone. */
  lemma MappedNameRewritten(id: string, ctx: Ctx, children: seq<Node>, m: map<string, string>, c: nat)
    requires id in m
    ensures RenameNode(Node(Name(id, ctx), children), m, c) == Renamed(Node(Name(m[id], ctx), children), m, c)
  {
  }

  /** The first binding of a name other than `self` names it `var_c` and advances the counter. */
  lemma FirstBindingRenamed(id: string, ctx: Ctx, children: seq<Node>, m: map<string, string>, c: nat)
    requires Binds(ctx) && id !in m && id != "self"
    ensures RenameNode(Node(Name(id, ctx), children), m, c)
         == Renamed(Node(Name(VarName(c), ctx), children), m[id := VarName(c)], c + 1)
  {
  }

  /** A binding of `self` is never renamed. */
  lemma SelfNeverRenamed(ctx: Ctx, children: seq<Node>, m: map<string, string>, c: nat)
    requires "self" !in m
    ensures RenameNode(Node(Name("self", ctx), children), m, c) == Renamed(Node(Name("self", ctx), children), m, c)
  {
  }

  /** The first occurrence of a parameter other than `self` names it `arg_c` and advances the counter. */
  lemma FirstArgRenamed(a: string, children: seq<Node>, m: map<string, string>, c: nat)
    requires a !in m && a != "self"
    ensures RenameNode(Node(Arg(a), children), m, c) == Renamed(Node(Arg(ArgName(c)), children), m[a := ArgName(c)], c + 1)
  {
  }

  /** A parameter already mapped takes its mapped name, and the state is unchanged. */
  lemma MappedArgRewritten(a: string, children: seq<Node>, m: map<string, string>, c: nat)
    requires a in m
    ensures RenameNode(Node(Arg(a), children), m, c) == Renamed(Node(Arg(m[a]), children), m, c)
  {
  }

  /** A `self` parameter is never renamed. */
  lemma SelfArgKept(children: seq<Node>, m: map<string, string>, c: nat)
    requires "self" !in m
    ensures RenameNode(Node(Arg("self"), children), m, c) == Renamed(Node(Arg("self"), children), m, c)
  {
  }

  /**
   * Whatever the state, a read of a name not yet bound keeps the name while
   * the binding right after it is renamed: `x; x = 1` becomes `x; var_c = 1`.
   */
  lemma LoadBeforeStore(id: string, m: map<string, string>, c: nat)
    requires id !in m && id != "self"
    ensures var r := RenameSeq([Node(Name(id, Load), []), Node(Name(id, Store), [])], m, c);
      r.value == [Node(Name(id, Load), []), Node(Name(VarName(c), Store), [])]
      && r.mapping == m[id := VarName(c)] && r.count == c + 1
  {
    var load, store := Node(Name(id, Load), []), Node(Name(id, Store), []);
    var ns := [load, store];
    UnmappedLoadKept(id, Load, [], m, c);
    FirstBindingRenamed(id, Store, [], m, c);
    var second := RenameNode(store, m, c);
    assert ns[1..] == [store] && [store][1..] == [];
    assert RenameSeq([], second.mapping, second.count) == Renamed([], second.mapping, second.count);
    assert [second.value] + [] == [second.value];
    assert RenameSeq([store], m, c) == Renamed([second.value], second.mapping, second.count);
    assert RenameSeq(ns, m, c) == Renamed([load] + [second.value], second.mapping, second.count);
  }

  /** The same for a fresh renamer and the name `x`: `x; x = 1` becomes `x; var_0 = 1`. */
  lemma LoadBeforeStoreKeepsName()
    ensures RenameSeq([Node(Name("x", Load), []), Node(Name("x", Store), [])], map[], 0).value
         == [Node(Name("x", Load), []), Node(Name("var_0", Store), [])]
  {
    LoadBeforeStore("x", map[], 0);
    assert NatToString(0) == "0";
    assert VarName(0) == "var_0";
  }

  // ---------------------------------------------------------------------------

  class VariableRenamer {
    var mapping: map<string, string>
    var count: nat

    ghost predicate Valid()
      reads this
    {
      Consistent(mapping, count)
    }

    constructor ()
      ensures mapping == map[] && count == 0 && Valid()
    {
      mapping := map[];
      count := 0;
    }

    /** `visit_Name`: a binding registers the id first; any mapped id is rewritten, whatever its context. */
    method VisitName(n: Node) returns (r: Node)
      requires n.kind.Name? && Valid()
      modifies this
      ensures Renamed(r, mapping, count) == RenameNode(n, old(mapping), old(count))
      ensures Valid()
    {
      RenameNodeConsistent(n, mapping, count);
      var id := n.kind.id;
      if Binds(n.kind.ctx) {
        if id !in mapping && id != "self" {
          mapping := mapping[id := "var_" + NatToString(count)];
          count := count + 1;
        }
      }
      if id in mapping {
        return Node(Name(mapping[id], n.kind.ctx), n.children);
      }
      return n;
    }

    /** `visit_arg`: the annotation is kept as it is, not visited. */
    method VisitArg(n: Node) returns (r: Node)
      requires n.kind.Arg? && Valid()
      modifies this
      ensures Renamed(r, mapping, count) == RenameNode(n, old(mapping), old(count))
      ensures Valid()
    {
      RenameNodeConsistent(n, mapping, count);
      var a := n.kind.arg;
      if a !in mapping && a != "self" {
        mapping := mapping[a := "arg_" + NatToString(count)];
        count := count + 1;
      }
      if a in mapping {
        return Node(Arg(mapping[a]), n.children);
      }
      return n;
    }

    method Visit(n: Node) returns (r: Node)
      requires Valid()
      modifies this
      decreases n, 1
      ensures Renamed(r, mapping, count) == RenameNode(n, old(mapping), old(count))
      ensures Valid()
    {
      match n.kind {
        case Name(_, _) =>
          r := VisitName(n);
        case Arg(_) =>
          r := VisitArg(n);
        case _ =>
          r := GenericVisit(n);
      }
    }

    /** `generic_visit`: every child is replaced by what visiting it returns, in field order. */
    method GenericVisit(n: Node) returns (r: Node)
      requires !n.kind.Name? && !n.kind.Arg? && Valid()
      modifies this
      decreases n, 0
      ensures Renamed(r, mapping, count) == RenameNode(n, old(mapping), old(count))
      ensures Valid()
    {
      var done: seq<Node> := [];
      var i := 0;
      assert n.children[0..] == n.children;
      assert RenameSeq(n.children[0..], mapping, count) == RenameSeq(n.children, old(mapping), old(count));
      assert [] + RenameSeq(n.children[0..], mapping, count).value == RenameSeq(n.children, old(mapping), old(count)).value;
      while i < |n.children|
        invariant 0 <= i <= |n.children|
        invariant var rest := RenameSeq(n.children[i..], mapping, count);
          RenameSeq(n.children, old(mapping), old(count)) == Renamed(done + rest.value, rest.mapping, rest.count)
        invariant Valid()
      {
        assert n.children[i..][1..] == n.children[i + 1..];
        ghost var rest := RenameSeq(n.children[i..], mapping, count);
        ghost var head := RenameNode(n.children[i], mapping, count);
        assert rest.value == [head.value] + RenameSeq(n.children[i + 1..], head.mapping, head.count).value;
        var child := Visit(n.children[i]);
        assert child == head.value && mapping == head.mapping && count == head.count;
        assert (done + [child]) + RenameSeq(n.children[i + 1..], mapping, count).value
            == done + rest.value;
        done := done + [child];
        i := i + 1;
      }
      assert n.children[i..] == [];
      assert RenameSeq(n.children[i..], mapping, count) == Renamed([], mapping, count);
      assert done + [] == done;
      assert RenameSeq(n.children, old(mapping), old(count)) == Renamed(done, mapping, count);
      r := Node(n.kind, done);
    }
  }

  /** `VariableRenamer().visit(tree)`: a new renamer over a whole tree. */
  method RenameTree(tree: Node) returns (r: Node)
    ensures r == RenameNode(tree, map[], 0).value
  {
    var renamer := new VariableRenamer();
    r := renamer.Visit(tree);
  }

  /** What a new renamer leaves: exactly the registered identifiers, renamed injectively, `self` untouched. */
  lemma FreshRenaming(tree: Node)
    ensures var r := RenameNode(tree, map[], 0);
      r.mapping.Keys == BoundIds(tree) && Injective(r.mapping) && "self" !in r.mapping
      && r.count == |r.mapping| && Skeleton(r.value) == Skeleton(tree)
  {
    RenameNodeExtends(tree, map[], 0);
    RenameNodeConsistent(tree, map[], 0);
    RenameNodeKeepsSkeleton(tree, map[], 0);
  }
}
