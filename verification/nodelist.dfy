/**
 * The growable node lists of ast.c (`NodeList`): an items array, a count and
 * a capacity that starts at 0, becomes 8 on the first append and doubles
 * whenever an append finds the array full.
 */
module NodeLists {
  import opened Ast

  /** INITIAL_LIST_CAPACITY. */
  const InitialListCapacity: nat := 8

  /** The capacity `ensure_list_capacity` moves to when the list is full. */
  function GrownCapacity(capacity: nat): (c: nat)
    ensures c > capacity
    ensures capacity == 0 ==> c == InitialListCapacity
    ensures capacity > 0 ==> c == 2 * capacity
  {
    if capacity == 0 then InitialListCapacity else capacity * 2
  }

  /** The capacity of a list after `n` appends to an empty list. */
  function CapacityAfter(n: nat): nat
    decreases n
  {
    if n == 0 then 0
    else
      var c := CapacityAfter(n - 1);
      if n - 1 >= c then GrownCapacity(c) else c
  }

  /**
   * Amortised doubling: after `n` appends the list always has room for what it
   * holds, and it is never more than about half empty (capacity at most
   * 2 (n - 1), or the initial 8).
   */
  lemma {:induction false} CapacityAfterBounds(n: nat)
    ensures n <= CapacityAfter(n)
    ensures n > 0 ==> InitialListCapacity <= CapacityAfter(n)
    ensures n > 0 ==> CapacityAfter(n) <= if n <= InitialListCapacity then InitialListCapacity else 2 * (n - 1)
    decreases n
  {
    if n > 0 {
      CapacityAfterBounds(n - 1);
    }
  }

  /** The capacities growth can reach: 8, 16, 32, ... */
  ghost predicate IsGrowthStage(c: nat)
    decreases c
  {
    c == InitialListCapacity || (c > InitialListCapacity && c % 2 == 0 && IsGrowthStage(c / 2))
  }

  /**
   * The closed form of the capacity: after n > 0 appends it is the least of
   * 8, 16, 32, ... that holds n items (it is 8, or its half is too small).
   */
  lemma {:induction false} CapacityAfterIsLeastStage(n: nat)
    requires n > 0
    ensures IsGrowthStage(CapacityAfter(n))
    ensures n <= CapacityAfter(n)
    ensures CapacityAfter(n) == InitialListCapacity || CapacityAfter(n) / 2 < n
    decreases n
  {
    if n > 1 {
      CapacityAfterIsLeastStage(n - 1);
      var c := CapacityAfter(n - 1);
      if n - 1 >= c {
        assert CapacityAfter(n) == 2 * c && (2 * c) / 2 == c;
      }
    }
  }

  class NodeList {
    var items: array<Node>
    var count: nat

    /** `capacity` is `items.Length`; it is exactly what `count` appends produce. */
    ghost predicate Valid()
      reads this
    {
      count <= items.Length && items.Length == CapacityAfter(count)
    }

    function Contents(): seq<Node>
      reads this, items
      requires count <= items.Length
    {
      items[..count]
    }

    /** A zero-initialised list: items NULL, count 0, capacity 0. */
    constructor ()
      ensures Valid() && fresh(items)
      ensures count == 0 && items.Length == 0 && Contents() == []
    {
      items := new Node[0];
      count := 0;
    }

    /**
     * `ensure_list_capacity`: when the list is full, move the items to an
     * array of the grown capacity. Afterwards there is room for one more item,
     * and the items held are unchanged.
     */
    method EnsureCapacity()
      requires Valid()
      modifies this
      ensures count == old(count) && count < items.Length
      ensures items.Length == CapacityAfter(count + 1)
      ensures old(count >= items.Length) ==> items.Length == GrownCapacity(old(items.Length)) && fresh(items)
      ensures old(count < items.Length) ==> items == old(items)
      ensures items[..count] == old(items[..count])
    {
      CapacityAfterBounds(count);
      if count >= items.Length {
        var newCapacity := if items.Length == 0 then InitialListCapacity else items.Length * 2;
        var newItems := new Node[newCapacity];
        var n := items.Length;
        for i := 0 to n
          invariant count == n == items.Length == old(items.Length) && items == old(items)
          invariant newItems[..i] == items[..i]
        {
          newItems[i] := items[i];
        }
        items := newItems;
      }
    }

    /** Store `element` at index `count` and increment `count`. */
    method Append(element: Node)
      requires Valid()
      modifies this, items
      ensures Valid()
      ensures count == old(count) + 1
      ensures Contents() == old(Contents()) + [element]
    {
      EnsureCapacity();
      items[count] := element;
      count := count + 1;
    }
  }

  /** The NodeType enum: the kind tag `ast_new_node` writes into a fresh node. */
  datatype NodeType =
    | UnknownType | NumberType | VectorType | IdentifierType | BinaryOpType
    | UnaryOpType | AssignmentType | StatementListType | IfType | WhileType | FuncCallType

  /**
   * A node while the parser is still appending to it: its kind tag and the
   * NodeList in its union arm.
   */
  class ListNode {
    const tag: NodeType
    const list: NodeList

    /**
     * `ast_new_node(tag)` followed, for `ast_new_vector` and
     * `ast_new_statement_list`, by an empty list: items NULL, count 0, capacity 0.
     */
    constructor (tag: NodeType)
      ensures this.tag == tag && fresh(list) && fresh(list.items)
      ensures list.Valid() && list.count == 0 && list.items.Length == 0 && list.Contents() == []
    {
      this.tag := tag;
      list := new NodeList();
    }

    /**
     * The tree node this becomes once the parser is done with it: a vector
     * literal or a statement list whose children are the list's items, in
     * order.
     */
    function Tree(): (n: Node)
      reads this, list, list.items
      requires tag == VectorType || tag == StatementListType
      requires list.count <= list.items.Length
      ensures n.VectorLiteral? <==> tag == VectorType
      ensures n.StatementList? <==> tag == StatementListType
      ensures TypeCode(n) == if tag == VectorType then 2 else 7
      ensures Children(n) == list.Contents()
    {
      if tag == VectorType then VectorLiteral(list.Contents()) else StatementList(list.Contents())
    }
  }

  /** The objects an append to `target` may change. */
  function ListFrame(target: ListNode?): set<object>
    reads target
  {
    if target == null then {} else {target.list}
  }

  function ItemsFrame(target: ListNode?): set<object>
    reads target
    reads if target == null then {} else {target.list}
  {
    if target == null then {} else {target.list.items}
  }

  /**
   * Append to the list of `target` when it has kind `kind` and `element` is
   * not NULL; otherwise change nothing. Shared by `ast_add_vector_element`
   * and `ast_add_statement`.
   */
  method AddToListNode(target: ListNode?, kind: NodeType, element: Node)
    requires target != null ==> target.list.Valid()
    modifies ListFrame(target), ItemsFrame(target)
    ensures target != null ==> target.list.Valid()
    ensures target != null && (target.tag != kind || element == Null) ==>
              && target.list.count == old(target.list.count)
              && target.list.items == old(target.list.items)
              && target.list.Contents() == old(target.list.Contents())
    ensures target != null && target.tag == kind && element != Null ==>
              target.list.count == old(target.list.count) + 1
              && target.list.Contents() == old(target.list.Contents()) + [element]
  {
    if target == null || target.tag != kind || element == Null {
      return;
    }
    target.list.Append(element);
  }

  /** `ast_add_vector_element`: append to a Vector node; a no-op for NULL, another kind or a NULL element. */
  method AddVectorElement(vectorNode: ListNode?, element: Node)
    requires vectorNode != null ==> vectorNode.list.Valid()
    modifies ListFrame(vectorNode), ItemsFrame(vectorNode)
    ensures vectorNode != null ==> vectorNode.list.Valid()
    ensures vectorNode != null && (vectorNode.tag != VectorType || element == Null) ==>
              vectorNode.list.Contents() == old(vectorNode.list.Contents())
    ensures vectorNode != null && vectorNode.tag == VectorType && element != Null ==>
              vectorNode.list.Contents() == old(vectorNode.list.Contents()) + [element]
    ensures vectorNode != null && vectorNode.tag == VectorType ==>
              vectorNode.Tree() == VectorLiteral(old(vectorNode.Tree()).elements + (if element == Null then [] else [element]))
  {
    AddToListNode(vectorNode, VectorType, element);
  }

  /** `ast_add_statement`: append to a StatementList node; a no-op for NULL, another kind or a NULL statement. */
  method AddStatement(listNode: ListNode?, statement: Node)
    requires listNode != null ==> listNode.list.Valid()
    modifies ListFrame(listNode), ItemsFrame(listNode)
    ensures listNode != null ==> listNode.list.Valid()
    ensures listNode != null && (listNode.tag != StatementListType || statement == Null) ==>
              listNode.list.Contents() == old(listNode.list.Contents())
    ensures listNode != null && listNode.tag == StatementListType && statement != Null ==>
              listNode.list.Contents() == old(listNode.list.Contents()) + [statement]
    ensures listNode != null && listNode.tag == StatementListType ==>
              listNode.Tree() == StatementList(old(listNode.Tree()).statements + (if statement == Null then [] else [statement]))
  {
    AddToListNode(listNode, StatementListType, statement);
  }

  /** `ast_add_argument`: append to a call's argument list; a no-op for a NULL list or argument. */
  method AddArgument(list: NodeList?, argument: Node)
    requires list != null ==> list.Valid()
    modifies if list == null then {} else {list}
    modifies if list == null then {} else {list.items}
    ensures list != null ==> list.Valid()
    ensures list != null && argument == Null ==> list.Contents() == old(list.Contents())
    ensures list != null && argument != Null ==> list.Contents() == old(list.Contents()) + [argument]
  {
    if list == null || argument == Null {
      return;
    }
    list.Append(argument);
  }

  /** `ast_new_func_call`: the call node takes over the argument list built so far. */
  function NewFuncCall(callee: string, args: NodeList): (n: Node)
    reads args, args.items
    requires args.count <= args.items.Length
    ensures n.FuncCall? && n.callee == callee
    ensures |n.arguments| == args.count && forall i :: 0 <= i < args.count ==> n.arguments[i] == args.items[i]
  {
    FuncCall(callee, args.Contents())
  }
}
