/**
 * The abstract syntax tree of ast.h / ast.c.
 *
 * A C `ASTNode *` is a Node value; `Null` stands for a NULL pointer, which
 * every walker of the tree (code generation, destruction) accepts. The
 * identifier, assignment-target and callee fields refer to symbols by name:
 * they are handles into the symbol table, not owned by the node.
 */
module Ast {

  datatype Node =
    | Null
    | Number(value: real)
    | VectorLiteral(elements: seq<Node>)
    | Identifier(symbol: string)
    | BinaryOp(op: char, left: Node, right: Node)
    | UnaryOp(op: char, operand: Node)
    | Assignment(target: string, expression: Node)
    | StatementList(statements: seq<Node>)
    | If(condition: Node, thenBranch: Node, elseBranch: Node)
    | While(condition: Node, body: Node)
    | FuncCall(callee: string, arguments: seq<Node>)
    | Unknown(tag: int)

  /** The NodeType enum value of a node, as "%d" prints it (NULL has none; 0 is used). */
  function TypeCode(n: Node): (c: int)
    ensures n.Number? ==> c == 1
    ensures n.VectorLiteral? ==> c == 2
    ensures n.Identifier? ==> c == 3
    ensures n.BinaryOp? ==> c == 4
    ensures n.UnaryOp? ==> c == 5
    ensures n.Assignment? ==> c == 6
    ensures n.StatementList? ==> c == 7
    ensures n.If? ==> c == 8
    ensures n.While? ==> c == 9
    ensures n.FuncCall? ==> c == 10
    ensures n.Unknown? ==> c == n.tag
  {
    match n
    case Null => 0
    case Number(_) => 1
    case VectorLiteral(_) => 2
    case Identifier(_) => 3
    case BinaryOp(_, _, _) => 4
    case UnaryOp(_, _) => 5
    case Assignment(_, _) => 6
    case StatementList(_) => 7
    case If(_, _, _) => 8
    case While(_, _) => 9
    case FuncCall(_, _) => 10
    case Unknown(t) => t
  }

  // ---------------------------------------------------------------------------
  // ast_free_node
  // ---------------------------------------------------------------------------

  /** A node is addressed by the path of child indices that leads to it from the root. */
  type Path = seq<nat>

  /** One step of `ast_free_node`: free a node, free a node's list storage, or warn. */
  datatype FreeEvent =
    | FreeNode(at: Path)
    | FreeList(at: Path)
    | WarnUnknown(at: Path, tag: int)

  /** The children of a node, in the order `ast_free_node` visits them. */
  function Children(n: Node): (cs: seq<Node>)
    ensures forall i :: 0 <= i < |cs| ==> cs[i] < n
  {
    match n
    case VectorLiteral(es) => es
    case StatementList(ss) => ss
    case FuncCall(_, args) => args
    case BinaryOp(_, l, r) => [l, r]
    case UnaryOp(_, e) => [e]
    case Assignment(_, e) => [e]
    case If(c, t, e) => [c, t, e]
    case While(c, b) => [c, b]
    case _ => []
  }

  /**
   * Nodes whose union arm holds a NodeList with an items array of its own. The
   * array is allocated by the first append, so an empty list's items pointer
   * is still NULL and freeing it releases nothing.
   */
  predicate HasList(n: Node) {
    (n.VectorLiteral? || n.StatementList? || n.FuncCall?) && Children(n) != []
  }

  /**
   * Everything `ast_free_node` releases for the subtree `n` sitting at `at`,
   * in order: the children depth-first, then the list storage, then (for an
   * unknown kind) the warning, and last the node itself.
   */
  function FreeTrace(n: Node, at: Path): (r: seq<FreeEvent>)
    ensures n == Null <==> r == []
    ensures n != Null ==> r[|r| - 1] == FreeNode(at)
    ensures n.Unknown? ==> |r| >= 2 && r[|r| - 2] == WarnUnknown(at, n.tag)
    decreases n, 1
  {
    if n == Null then [] else FreeChildren(n, Children(n), at) + OwnFrees(n, at)
  }

  /** What `ast_free_node` releases for the node itself, once its children are freed. */
  function OwnFrees(n: Node, at: Path): seq<FreeEvent> {
    (if HasList(n) then [FreeList(at)] else [])
    + (if n.Unknown? then [WarnUnknown(at, n.tag)] else [])
    + [FreeNode(at)]
  }

  /** The frees of the children `cs` (a prefix of the children of `parent`), child `i` at `at + [i]`. */
  function FreeChildren(ghost parent: Node, cs: seq<Node>, at: Path): seq<FreeEvent>
    requires forall i :: 0 <= i < |cs| ==> cs[i] < parent
    decreases parent, 0, |cs|
  {
    if cs == [] then []
    else FreeChildren(parent, cs[..|cs| - 1], at) + FreeTrace(cs[|cs| - 1], at + [|cs| - 1])
  }

  /** The paths of the non-NULL nodes of the subtree `n` placed at `at`. */
  function Positions(n: Node, at: Path): set<Path>
    decreases n, 1
  {
    if n == Null then {} else {at} + ChildPositions(n, Children(n), at)
  }

  function ChildPositions(ghost parent: Node, cs: seq<Node>, at: Path): set<Path>
    requires forall i :: 0 <= i < |cs| ==> cs[i] < parent
    decreases parent, 0, |cs|
  {
    if cs == [] then {}
    else ChildPositions(parent, cs[..|cs| - 1], at) + Positions(cs[|cs| - 1], at + [|cs| - 1])
  }

  /** The paths of the list-bearing nodes of the subtree. */
  function ListPositions(n: Node, at: Path): set<Path>
    decreases n, 1
  {
    if n == Null then {}
    else (if HasList(n) then {at} else {}) + ChildListPositions(n, Children(n), at)
  }

  function ChildListPositions(ghost parent: Node, cs: seq<Node>, at: Path): set<Path>
    requires forall i :: 0 <= i < |cs| ==> cs[i] < parent
    decreases parent, 0, |cs|
  {
    if cs == [] then {}
    else ChildListPositions(parent, cs[..|cs| - 1], at) + ListPositions(cs[|cs| - 1], at + [|cs| - 1])
  }

  /** The nodes freed by a trace, in order. */
  function FreedNodes(t: seq<FreeEvent>): seq<Path> {
    if t == [] then []
    else (if t[0].FreeNode? then [t[0].at] else []) + FreedNodes(t[1..])
  }

  /** The list storages freed by a trace, in order. */
  function FreedLists(t: seq<FreeEvent>): seq<Path> {
    if t == [] then []
    else (if t[0].FreeList? then [t[0].at] else []) + FreedLists(t[1..])
  }

  ghost predicate NoDuplicates(s: seq<Path>) {
    forall i, j :: 0 <= i < j < |s| ==> s[i] != s[j]
  }

  lemma {:induction false} FreedNodesAppend(a: seq<FreeEvent>, b: seq<FreeEvent>)
    ensures FreedNodes(a + b) == FreedNodes(a) + FreedNodes(b)
    decreases |a|
  {
    if a != [] {
      assert (a + b)[0] == a[0];
      assert (a + b)[1..] == a[1..] + b;
      FreedNodesAppend(a[1..], b);
    } else {
      assert a + b == b;
    }
  }

  lemma {:induction false} FreedListsAppend(a: seq<FreeEvent>, b: seq<FreeEvent>)
    ensures FreedLists(a + b) == FreedLists(a) + FreedLists(b)
    decreases |a|
  {
    if a != [] {
      assert (a + b)[0] == a[0];
      assert (a + b)[1..] == a[1..] + b;
      FreedListsAppend(a[1..], b);
    } else {
      assert a + b == b;
    }
  }

  lemma NoDuplicatesAppend(a: seq<Path>, b: seq<Path>)
    requires NoDuplicates(a) && NoDuplicates(b)
    requires forall p :: p in a ==> p !in b
    ensures NoDuplicates(a + b)
  {
    forall i, j | 0 <= i < j < |a + b| ensures (a + b)[i] != (a + b)[j] {
      if j >= |a| && i < |a| {
        assert (a + b)[i] in a && (a + b)[j] == b[j - |a|];
      }
    }
  }

  /** The paths below child slot `k` of the node at `at`: they extend `at` and name child `k` next. */
  ghost predicate InSlot(p: Path, at: Path, k: nat) {
    |at| < |p| && at <= p && p[|at|] == k
  }

  /** The paths below some child slot before `bound`. */
  ghost predicate InSlotBefore(p: Path, at: Path, bound: nat) {
    |at| < |p| && at <= p && p[|at|] < bound
  }

  /** A subtree placed in slot `k` lies in that slot, so it is apart from the slots before `k`. */
  lemma SlotsDisjoint(ps: set<Path>, at: Path, k: nat)
    requires forall p :: p in ps ==> at + [k] <= p
    ensures forall p :: p in ps ==> InSlot(p, at, k) && !InSlotBefore(p, at, k)
  {
    forall p | p in ps ensures InSlot(p, at, k) {
      assert p[|at|] == (at + [k])[|at|];
      assert p[..|at|] == (at + [k])[..|at|];
    }
  }

  /** Every position of a subtree placed at `at` extends `at`. */
  lemma {:induction false} PositionsBelow(n: Node, at: Path)
    ensures forall p :: p in Positions(n, at) ==> at <= p
    decreases n, 1
  {
    if n != Null {
      ChildPositionsBelow(n, Children(n), at);
    }
  }

  lemma {:induction false} ChildPositionsBelow(parent: Node, cs: seq<Node>, at: Path)
    requires forall i :: 0 <= i < |cs| ==> cs[i] < parent
    ensures forall p :: p in ChildPositions(parent, cs, at) ==> InSlotBefore(p, at, |cs|)
    decreases parent, 0, |cs|
  {
    if cs != [] {
      var k := |cs| - 1;
      ChildPositionsBelow(parent, cs[..k], at);
      PositionsBelow(cs[k], at + [k]);
      SlotsDisjoint(Positions(cs[k], at + [k]), at, k);
    }
  }

  /**
   * `ast_free_node` frees every node of the subtree exactly once, and frees
   * nothing but the subtree's nodes: the freed positions are listed without
   * repetition and are exactly the tree's positions.
   */
  lemma {:induction false} FreeTraceFreesEachNodeOnce(n: Node, at: Path)
    ensures NoDuplicates(FreedNodes(FreeTrace(n, at)))
    ensures forall p :: p in FreedNodes(FreeTrace(n, at)) <==> p in Positions(n, at)
    decreases n, 1
  {
    if n != Null {
      var cs := Children(n);
      NodeSplit(n, at);
      PositionsSplit(n, at);
      ChildrenFreeEachNodeOnce(n, cs, at);
      ChildPositionsBelow(n, cs, at);
      CombineTraces(FreedNodes(FreeChildren(n, cs, at)), [at], ChildPositions(n, cs, at), {at});
    }
  }

  /** A node's positions are its own path and its children's positions. */
  lemma PositionsSplit(n: Node, at: Path)
    requires n != Null
    ensures Positions(n, at) == {at} + ChildPositions(n, Children(n), at)
  {
  }

  /** A node's freed nodes are its children's, then itself. */
  lemma NodeSplit(n: Node, at: Path)
    requires n != Null
    ensures FreedNodes(FreeTrace(n, at)) == FreedNodes(FreeChildren(n, Children(n), at)) + [at]
  {
    OwnFreesFreed(n, at);
    FreedNodesAppend(FreeChildren(n, Children(n), at), OwnFrees(n, at));
  }

  /** A node's own frees release the node once, and its list storage once when it has one. */
  lemma OwnFreesFreed(n: Node, at: Path)
    ensures FreedNodes(OwnFrees(n, at)) == [at]
    ensures FreedLists(OwnFrees(n, at)) == if HasList(n) then [at] else []
  {
    var lst: seq<FreeEvent> := if HasList(n) then [FreeList(at)] else [];
    var warn: seq<FreeEvent> := if n.Unknown? then [WarnUnknown(at, n.tag)] else [];
    var self: seq<FreeEvent> := [FreeNode(at)];
    assert OwnFrees(n, at) == lst + (warn + self);
    FreedNodesAppend(lst, warn + self);
    FreedNodesAppend(warn, self);
    FreedListsAppend(lst, warn + self);
    FreedListsAppend(warn, self);
  }

  lemma {:induction false} ChildrenFreeEachNodeOnce(parent: Node, cs: seq<Node>, at: Path)
    requires forall i :: 0 <= i < |cs| ==> cs[i] < parent
    ensures NoDuplicates(FreedNodes(FreeChildren(parent, cs, at)))
    ensures forall p :: p in FreedNodes(FreeChildren(parent, cs, at)) <==> p in ChildPositions(parent, cs, at)
    decreases parent, 0, |cs|
  {
    if cs != [] {
      var k := |cs| - 1;
      var front := FreeChildren(parent, cs[..k], at);
      var last := FreeTrace(cs[k], at + [k]);
      FreedNodesAppend(front, last);
      ChildrenFreeEachNodeOnce(parent, cs[..k], at);
      FreeTraceFreesEachNodeOnce(cs[k], at + [k]);
      ChildPositionsBelow(parent, cs[..k], at);
      PositionsBelow(cs[k], at + [k]);
      SlotsDisjoint(Positions(cs[k], at + [k]), at, k);
      assert forall p :: p in FreedNodes(front) ==> InSlotBefore(p, at, k);
      NoDuplicatesAppend(FreedNodes(front), FreedNodes(last));
    }
  }

  /**
   * `ast_free_node` frees the item storage of every Vector, StatementList and
   * FuncCall node of the subtree that has items exactly once, and no other storage.
   */
  lemma {:induction false} FreeTraceFreesEachListOnce(n: Node, at: Path)
    ensures NoDuplicates(FreedLists(FreeTrace(n, at)))
    ensures forall p :: p in FreedLists(FreeTrace(n, at)) <==> p in ListPositions(n, at)
    decreases n, 1
  {
    if n != Null {
      var cs := Children(n);
      ListSplit(n, at);
      ChildrenFreeEachListOnce(n, cs, at);
      ChildListsApart(n, cs, at);
      var own: seq<Path> := if HasList(n) then [at] else [];
      CombineTraces(FreedLists(FreeChildren(n, cs, at)), own, ChildListPositions(n, cs, at), if HasList(n) then {at} else {});
    }
  }

  /** A node's freed lists are its children's, then its own; its list positions likewise. */
  lemma ListSplit(n: Node, at: Path)
    requires n != Null
    ensures FreedLists(FreeTrace(n, at)) == FreedLists(FreeChildren(n, Children(n), at)) + (if HasList(n) then [at] else [])
    ensures ListPositions(n, at) == (if HasList(n) then {at} else {}) + ChildListPositions(n, Children(n), at)
  {
    OwnFreesFreed(n, at);
    FreedListsAppend(FreeChildren(n, Children(n), at), OwnFrees(n, at));
  }

  /**
   * Two duplicate-free traces with disjoint contents concatenate to a
   * duplicate-free trace whose contents are the union.
   */
  lemma CombineTraces(xs: seq<Path>, ys: seq<Path>, xSet: set<Path>, ySet: set<Path>)
    requires NoDuplicates(xs) && NoDuplicates(ys)
    requires forall p :: p in xs <==> p in xSet
    requires forall p :: p in ys <==> p in ySet
    requires forall p :: p in ys ==> p !in xSet
    ensures NoDuplicates(xs + ys)
    ensures forall p :: p in xs + ys <==> p in ySet + xSet
  {
    NoDuplicatesAppend(xs, ys);
    forall p ensures p in xs + ys <==> p in xs || p in ys {
    }
  }

  /** The list storages below a node are at paths longer than the node's own. */
  lemma ChildListsApart(parent: Node, cs: seq<Node>, at: Path)
    requires forall i :: 0 <= i < |cs| ==> cs[i] < parent
    ensures at !in ChildListPositions(parent, cs, at)
  {
    ChildListsWithinPositions(parent, cs, at);
    ChildPositionsBelow(parent, cs, at);
  }

  lemma {:induction false} ChildrenFreeEachListOnce(parent: Node, cs: seq<Node>, at: Path)
    requires forall i :: 0 <= i < |cs| ==> cs[i] < parent
    ensures NoDuplicates(FreedLists(FreeChildren(parent, cs, at)))
    ensures forall p :: p in FreedLists(FreeChildren(parent, cs, at)) <==> p in ChildListPositions(parent, cs, at)
    decreases parent, 0, |cs|
  {
    if cs != [] {
      var k := |cs| - 1;
      var front := FreeChildren(parent, cs[..k], at);
      var last := FreeTrace(cs[k], at + [k]);
      FreedListsAppend(front, last);
      ChildrenFreeEachListOnce(parent, cs[..k], at);
      FreeTraceFreesEachListOnce(cs[k], at + [k]);
      ChildListsWithinPositions(parent, cs[..k], at);
      ChildPositionsBelow(parent, cs[..k], at);
      ListWithinPositions(cs[k], at + [k]);
      PositionsBelow(cs[k], at + [k]);
      SlotsDisjoint(Positions(cs[k], at + [k]), at, k);
      assert forall p :: p in FreedLists(front) ==> InSlotBefore(p, at, k);
      NoDuplicatesAppend(FreedLists(front), FreedLists(last));
    }
  }

  lemma {:induction false} ListWithinPositions(n: Node, at: Path)
    ensures ListPositions(n, at) <= Positions(n, at)
    decreases n, 1
  {
    if n != Null {
      ChildListsWithinPositions(n, Children(n), at);
    }
  }

  lemma {:induction false} ChildListsWithinPositions(parent: Node, cs: seq<Node>, at: Path)
    requires forall i :: 0 <= i < |cs| ==> cs[i] < parent
    ensures ChildListPositions(parent, cs, at) <= ChildPositions(parent, cs, at)
    decreases parent, 0, |cs|
  {
    if cs != [] {
      ChildListsWithinPositions(parent, cs[..|cs| - 1], at);
      ListWithinPositions(cs[|cs| - 1], at + [|cs| - 1]);
    }
  }
}
