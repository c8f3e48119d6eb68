/**
 * The program-wide symbol table of symtab.c.
 *
 * The C table is a singly linked list whose head is the most recently
 * inserted symbol. Here the list is a sequence with index 0 as the head;
 * names are unique, so a name identifies one symbol and serves as the
 * handle (the C `Symbol *`) that the AST and the setters use.
 */
module Symtab {
  import opened Wrappers

  /** SymbolType. SYMBOL_TYPE_UNDEFINED is never given to a symbol by this file. */
  datatype Kind = Scalar | Vector

  /** The payload union: a double, or an owned buffer (possibly NULL) and its length. */
  datatype Value =
    | ScalarVal(x: real)
    | VectorVal(data: Option<seq<real>>, size: nat)
  {
    function Kind(): Kind {
      if ScalarVal? then Scalar else Vector
    }

    /** The payload owns heap storage that must be released. */
    predicate OwnsData() {
      VectorVal? && data.Some?
    }
  }

  datatype Symbol = Symbol(name: string, value: Value) {
    function Kind(): Kind {
      value.Kind()
    }
  }

  /** The enum value printed for a kind by "%d" (SYMBOL_TYPE_SCALAR = 1, SYMBOL_TYPE_VECTOR = 2). */
  function KindCode(k: Kind): (c: int)
    ensures c == 1 <==> k.Scalar?
    ensures c == 2 <==> k.Vector?
  {
    if k == Scalar then 1 else 2
  }

  ghost predicate DistinctNames(syms: seq<Symbol>) {
    forall i, j :: 0 <= i < j < |syms| ==> syms[i].name != syms[j].name
  }

  /** The position of the first symbol, from the head, whose name equals `name`. */
  function Find(syms: seq<Symbol>, name: string): (r: Option<nat>)
    ensures r.Some? ==> r.value < |syms| && syms[r.value].name == name
    ensures r.Some? ==> forall k :: 0 <= k < r.value ==> syms[k].name != name
    ensures r.None? <==> forall k :: 0 <= k < |syms| ==> syms[k].name != name
    decreases |syms|
  {
    if syms == [] then None
    else if syms[0].name == name then Some(0)
    else match Find(syms[1..], name)
      case None => None
      case Some(i) => Some(i + 1)
  }

  predicate Declared(syms: seq<Symbol>, name: string) {
    Find(syms, name).Some?
  }

  /** The current kind of a declared symbol. */
  function KindOf(syms: seq<Symbol>, name: string): Kind
    requires Declared(syms, name)
  {
    syms[Find(syms, name).value].Kind()
  }

  /** The table after `symbol_insert(name)` with a non-NULL name. */
  function Inserted(syms: seq<Symbol>, name: string): seq<Symbol> {
    if Declared(syms, name) then syms else [Symbol(name, ScalarVal(0.0))] + syms
  }

  /** The table after inserting `names` one after another. */
  function InsertedAll(syms: seq<Symbol>, names: seq<string>): seq<Symbol>
    decreases |names|
  {
    if names == [] then syms else InsertedAll(Inserted(syms, names[0]), names[1..])
  }

  /** The names of the symbols, in list order. */
  function Names(syms: seq<Symbol>): (r: seq<string>)
    ensures |r| == |syms| && forall i :: 0 <= i < |syms| ==> r[i] == syms[i].name
    decreases |syms|
  {
    if syms == [] then [] else [syms[0].name] + Names(syms[1..])
  }

  function Reverse<T>(s: seq<T>): (r: seq<T>)
    ensures |r| == |s|
    decreases |s|
  {
    if s == [] then [] else Reverse(s[1..]) + [s[0]]
  }

  /** `free_symbol_value_data`: release the vector buffer, if there is one. */
  function FreeValueData(v: Value): (r: Value)
    ensures !r.OwnsData()
    ensures r.Kind() == v.Kind()
    ensures !v.OwnsData() ==> r == v
    ensures v.OwnsData() ==> r == VectorVal(None, 0)
  {
    if v.OwnsData() then VectorVal(None, 0) else v
  }

  /**
   * The payload stored by `symbol_set_vector(sym, data, size)`: the length is
   * kept as given, and the buffer is a private copy of the first `size`
   * elements unless `size` is 0 or `data` is NULL.
   */
  function CopiedVector(data: Option<seq<real>>, size: nat): (v: Value)
    requires data.Some? ==> size <= |data.value|
    ensures v.Kind() == Vector && v.size == size
    ensures v.OwnsData() <==> (size > 0 && data.Some?)
    ensures v.OwnsData() ==>
              |v.data.value| == size && forall i :: 0 <= i < size ==> v.data.value[i] == data.value[i]
  {
    if size == 0 || data.None? then VectorVal(None, size) else VectorVal(Some(data.value[..size]), size)
  }

  /** Inserting a name that is already present changes nothing, so insertion is idempotent. */
  lemma InsertIdempotent(syms: seq<Symbol>, name: string)
    ensures Declared(Inserted(syms, name), name)
    ensures Inserted(Inserted(syms, name), name) == Inserted(syms, name)
  {
    if !Declared(syms, name) {
      assert Inserted(syms, name)[0].name == name;
    }
  }

  /** Insertion keeps the names unique and adds at most one symbol, at the head. */
  lemma InsertKeepsNamesDistinct(syms: seq<Symbol>, name: string)
    requires DistinctNames(syms)
    ensures DistinctNames(Inserted(syms, name))
    ensures Declared(syms, name) ==> |Inserted(syms, name)| == |syms|
    ensures !Declared(syms, name) ==>
              && |Inserted(syms, name)| == |syms| + 1
              && Inserted(syms, name)[0] == Symbol(name, ScalarVal(0.0))
              && Inserted(syms, name)[1..] == syms
  {
  }

  /**
   * Enumeration is most-recent-first: inserting fresh, distinct names n1 .. nk
   * lists them as nk .. n1 ahead of the symbols that were already there.
   */
  lemma {:induction false} InsertedAllIsMostRecentFirst(syms: seq<Symbol>, names: seq<string>)
    requires forall i, j :: 0 <= i < j < |names| ==> names[i] != names[j]
    requires forall i :: 0 <= i < |names| ==> !Declared(syms, names[i])
    ensures Names(InsertedAll(syms, names)) == Reverse(names) + Names(syms)
    decreases |names|
  {
    if names != [] {
      var sym := Symbol(names[0], ScalarVal(0.0));
      var s1 := Inserted(syms, names[0]);
      assert s1 == [sym] + syms;
      RestStayUndeclared(syms, names);
      assert forall i, j :: 0 <= i < j < |names[1..]| ==> names[1..][i] != names[1..][j] by {
        forall i, j | 0 <= i < j < |names[1..]| ensures names[1..][i] != names[1..][j] {
          assert names[1..][i] == names[i + 1] && names[1..][j] == names[j + 1];
        }
      }
      InsertedAllIsMostRecentFirst(s1, names[1..]);
      assert InsertedAll(syms, names) == InsertedAll(s1, names[1..]);
      assert Names(s1) == [names[0]] + Names(syms);
      assert Reverse(names) == Reverse(names[1..]) + [names[0]];
      AppendAssoc(Reverse(names[1..]), [names[0]], Names(syms));
    }
  }

  lemma AppendAssoc<T>(a: seq<T>, b: seq<T>, c: seq<T>)
    ensures a + (b + c) == (a + b) + c
  {
  }

  /** After inserting the first of several fresh, distinct names, the others are still undeclared. */
  lemma RestStayUndeclared(syms: seq<Symbol>, names: seq<string>)
    requires names != []
    requires forall i, j :: 0 <= i < j < |names| ==> names[i] != names[j]
    requires forall i :: 0 <= i < |names| ==> !Declared(syms, names[i])
    ensures forall i :: 0 <= i < |names[1..]| ==> !Declared(Inserted(syms, names[0]), names[1..][i])
  {
    var s1 := Inserted(syms, names[0]);
    assert s1 == [Symbol(names[0], ScalarVal(0.0))] + syms;
    forall i | 0 <= i < |names[1..]|
      ensures !Declared(s1, names[1..][i])
    {
      assert names[1..][i] == names[i + 1];
      assert s1[0].name == names[0] != names[i + 1];
      forall k | 0 <= k < |s1| ensures s1[k].name != names[i + 1] {
        if k > 0 { assert s1[k] == syms[k - 1]; }
      }
    }
  }

  /**
   * The global table. `symbols[0]` is `symbol_list_head`, and `symbols[i + 1]`
   * is `symbols[i]->next`.
   */
  class SymbolTable {
    var symbols: seq<Symbol>

    ghost predicate Valid()
      reads this
    {
      DistinctNames(symbols)
    }

    /** The table before any insertion: `symbol_list_head = NULL`. */
    constructor ()
      ensures Valid() && symbols == []
    {
      symbols := [];
    }

    /** `symbol_get_list_head`: the head of the list, or NULL when the table is empty. */
    function ListHead(): (r: Option<Symbol>)
      reads this
      ensures r.None? <==> symbols == []
      ensures r.Some? ==> r.value == symbols[0]
    {
      if symbols == [] then None else Some(symbols[0])
    }

    /**
     * `symbol_lookup`: walk the list from the head; return the symbol whose name
     * equals `name`, or NULL when there is none or `name` is NULL.
     */
    method Lookup(name: Option<string>) returns (r: Option<Symbol>)
      ensures name.None? ==> r.None?
      ensures name.Some? ==> (r.Some? <==> Declared(symbols, name.value))
      ensures r.Some? ==> r.value in symbols && r.value.name == name.value
      ensures r.Some? ==> r.value == symbols[Find(symbols, name.value).value]
    {
      if name.None? {
        return None;
      }
      var i := 0;
      while i < |symbols|
        invariant 0 <= i <= |symbols|
        invariant forall k :: 0 <= k < i ==> symbols[k].name != name.value
      {
        if symbols[i].name == name.value {
          return Some(symbols[i]);
        }
        i := i + 1;
      }
      return None;
    }

    /**
     * `symbol_insert`: return the existing symbol of that name, or link a new
     * Scalar 0.0 symbol in at the head and return it. A NULL name makes the
     * process exit; the model returns None and leaves the table as it was.
     */
    method Insert(name: Option<string>) returns (r: Option<Symbol>)
      requires Valid()
      modifies this
      ensures Valid()
      ensures name.None? ==> r.None? && symbols == old(symbols)
      ensures name.Some? ==> symbols == Inserted(old(symbols), name.value)
      ensures name.Some? ==> r.Some? && r.value == symbols[Find(symbols, name.value).value]
      ensures name.Some? && Declared(old(symbols), name.value) ==> symbols == old(symbols)
      ensures name.Some? && !Declared(old(symbols), name.value) ==>
        symbols == [Symbol(name.value, ScalarVal(0.0))] + old(symbols) && r.value.Kind() == Scalar
    {
      if name.None? {
        return None;
      }
      var existing := Lookup(name);
      if existing.Some? {
        return existing;
      }
      InsertKeepsNamesDistinct(symbols, name.value);
      var sym := Symbol(name.value, ScalarVal(0.0));
      symbols := [sym] + symbols;
      return Some(sym);
    }

    /**
     * `symbol_set_scalar`: release any vector buffer, make the symbol a Scalar
     * holding `val`. A NULL handle does nothing; no other symbol changes.
     */
    method SetScalar(sym: Option<string>, val: real)
      requires Valid()
      requires sym.Some? ==> Declared(symbols, sym.value)
      modifies this
      ensures Valid()
      ensures sym.None? ==> symbols == old(symbols)
      ensures sym.Some? ==>
        var i := Find(old(symbols), sym.value).value;
        symbols == old(symbols)[i := Symbol(sym.value, ScalarVal(val))]
    {
      if sym.None? {
        return;
      }
      var i := Find(symbols, sym.value).value;
      symbols := symbols[i := Symbol(symbols[i].name, FreeValueData(symbols[i].value))];
      symbols := symbols[i := Symbol(symbols[i].name, ScalarVal(val))];
    }

    /**
     * `symbol_set_vector`: release any vector buffer, make the symbol a Vector
     * of length `size` whose buffer is a copy of `data[0..size)`, or NULL when
     * `size` is 0 or `data` is NULL. A NULL handle does nothing; no other
     * symbol changes.
     */
    method SetVector(sym: Option<string>, data: Option<seq<real>>, size: nat)
      requires Valid()
      requires sym.Some? ==> Declared(symbols, sym.value)
      requires data.Some? ==> size <= |data.value|
      modifies this
      ensures Valid()
      ensures sym.None? ==> symbols == old(symbols)
      ensures sym.Some? ==>
        var i := Find(old(symbols), sym.value).value;
        symbols == old(symbols)[i := Symbol(sym.value, CopiedVector(data, size))]
    {
      if sym.None? {
        return;
      }
      var i := Find(symbols, sym.value).value;
      symbols := symbols[i := Symbol(symbols[i].name, FreeValueData(symbols[i].value))];
      var v: Value;
      if size == 0 || data.None? {
        v := VectorVal(None, size);
      } else {
        v := VectorVal(Some(data.value[..size]), size);
      }
      symbols := symbols[i := Symbol(symbols[i].name, v)];
    }

    /**
     * `symbol_table_destroy`: walk the list releasing every name, payload and
     * symbol, then empty the table. `released` lists the symbols in the order
     * the walk frees them. A second call finds the table empty and frees nothing.
     */
    method Destroy() returns (ghost released: seq<string>)
      modifies this
      ensures Valid() && symbols == []
      ensures released == Names(old(symbols))
    {
      released := [];
      var i := 0;
      while i < |symbols|
        invariant 0 <= i <= |symbols|
        invariant released == Names(symbols[..i])
      {
        released := released + [symbols[i].name];
        i := i + 1;
      }
      assert symbols[..i] == symbols;
      symbols := [];
    }
  }
}
