/**
 * Properties of code generation, stated about the functions of CodegenSpec
 * that the Generator class is proved to follow step by step.
 */
module CodegenLemmas {
  import opened Decimal
  import opened Symtab
  import opened Ast
  import opened CodegenSpec

  // ---------------------------------------------------------------------------
  // Temporaries
  // ---------------------------------------------------------------------------

  /** Two temporaries have the same name exactly when they have the same kind and number. */
  lemma TempNameInjective(k1: Kind, n1: nat, k2: Kind, n2: nat)
    ensures TempName(k1, n1) == TempName(k2, n2) <==> k1 == k2 && n1 == n2
  {
    var a, b := TempName(k1, n1), TempName(k2, n2);
    assert a[2] == (if k1.Scalar? then 's' else 'v') && a[3..] == NatText(n1);
    assert b[2] == (if k2.Scalar? then 's' else 'v') && b[3..] == NatText(n2);
    if a == b {
      NatTextInjective(n1, n2);
    }
  }

  /**
   * The k-th temporary handed out carries the number k, so within one run no
   * two temporaries share a name, whatever their kinds.
   */
  lemma TempLogDistinct(st: GenState)
    requires TempLogOK(st)
    ensures forall i, j :: 0 <= i < j < |st.temps| ==> st.temps[i] != st.temps[j]
  {
    forall i, j | 0 <= i < j < |st.temps|
      ensures st.temps[i] != st.temps[j]
    {
      var ki := if st.temps[i] == TempName(Scalar, i) then Scalar else Vector;
      var kj := if st.temps[j] == TempName(Scalar, j) then Scalar else Vector;
      TempNameInjective(ki, i, kj, j);
    }
  }

  /**
   * A whole generated program: the counter ends at the number of temporaries
   * used, and all their names are distinct.
   */
  lemma ProgramTempsDistinct(env: Env, helpers: seq<string>, root: Node)
    requires Resolved(env.syms, root)
    ensures |ProgramGen(env, helpers, root).temps| == ProgramGen(env, helpers, root).counter
    ensures forall i, j :: 0 <= i < j < |ProgramGen(env, helpers, root).temps| ==>
              ProgramGen(env, helpers, root).temps[i] != ProgramGen(env, helpers, root).temps[j]
  {
    TempLogDistinct(ProgramGen(env, helpers, root));
  }

  // ---------------------------------------------------------------------------
  // Vector literals
  // ---------------------------------------------------------------------------

  /** Nodes `generate_expression` turns into a value without writing a line: numbers and variables. */
  predicate IsLeaf(n: Node) {
    n.Number? || n.Identifier?
  }

  /** The value of a leaf: a fragment holding the number's text or the variable's name. */
  function LeafResult(env: Env, n: Node): (r: ExprResult)
    requires IsLeaf(n) && Resolved(env.syms, n)
    ensures r.isTemporary
    ensures n.Number? ==> r.kind == Scalar
    ensures n.Identifier? ==> r.code == n.symbol && r.kind == KindOf(env.syms, n.symbol)
  {
    if n.Number? then ExprResult(env.numText(n.value), Scalar, true)
    else ExprResult(n.symbol, KindOf(env.syms, n.symbol), true)
  }

  /** A leaf writes nothing, allocates nothing and raises no error, whatever the state. */
  lemma LeafGeneratesNoCode(env: Env, st: GenState, n: Node)
    requires IsLeaf(n) && Resolved(env.syms, n)
    ensures ExprGen(env, st, n) == ExprStep(LeafResult(env, n), st)
  {
    assert ExprGen(env, st, n) == ExprKindGen(env, st, n);
  }

  /** The initializer lines of a vector literal of leaves: line i is element i's, a comma after all but the last of `count`. */
  function LeafElementLines(env: Env, es: seq<Node>, count: nat): (ls: seq<string>)
    requires forall i :: 0 <= i < |es| ==> IsLeaf(es[i]) && Resolved(env.syms, es[i])
    ensures |ls| == |es|
    decreases |es|
  {
    if es == [] then []
    else
      LeafElementLines(env, es[..|es| - 1], count)
      + [Line(2, ElementText(LeafResult(env, es[|es| - 1]), |es| - 1, count))]
  }

  /** Line i of the initializer is element i's text, whatever comes after it. */
  lemma {:induction false} LeafElementLineAt(env: Env, es: seq<Node>, count: nat, i: nat)
    requires forall k :: 0 <= k < |es| ==> IsLeaf(es[k]) && Resolved(env.syms, es[k])
    requires i < |es|
    ensures LeafElementLines(env, es, count)[i] == Line(2, ElementText(LeafResult(env, es[i]), i, count))
    decreases |es|
  {
    if i < |es| - 1 {
      LeafElementLineAt(env, es[..|es| - 1], count, i);
    }
  }

  /**
   * The element loop over leaves writes exactly one initializer line per
   * element, allocates no temporary and raises no error.
   */
  lemma {:induction false} ElemsOfLeaves(env: Env, parent: Node, st: GenState, es: seq<Node>, count: nat)
    requires forall i :: 0 <= i < |es| ==> es[i] < parent && IsLeaf(es[i]) && Resolved(env.syms, es[i])
    ensures ElemsGen(env, parent, st, es, count).out == st.out + LeafElementLines(env, es, count)
    ensures ElemsGen(env, parent, st, es, count).counter == st.counter
    ensures ElemsGen(env, parent, st, es, count).errorFlag == st.errorFlag
    decreases |es|
  {
    if es != [] {
      var init := es[..|es| - 1];
      ElemsOfLeaves(env, parent, st, init, count);
      var s := ElemsGen(env, parent, st, init, count);
      LeafGeneratesNoCode(env, s, es[|es| - 1]);
      AppendAssoc(st.out, LeafElementLines(env, init, count),
                  [Line(2, ElementText(LeafResult(env, es[|es| - 1]), |es| - 1, count))]);
    }
  }

  /**
   * A vector literal of N numbers and variables: a fresh vector temporary
   * `_tv<counter>` (not a fragment), and N + 4 lines: the comment, the
   * opening of the initializer array, one line per element, its closing, and
   * the copy into the temporary, which records the length N.
   */
  lemma VectorLiteralOfLeaves(env: Env, st: GenState, es: seq<Node>)
    requires forall i :: 0 <= i < |es| ==> IsLeaf(es[i]) && Resolved(env.syms, es[i])
    ensures var r := ExprGen(env, st, VectorLiteral(es));
            var t := VectorTempName(st.counter);
            && r.res == ExprResult(t, Vector, false)
            && r.st.counter == st.counter + 1
            && r.st.errorFlag == st.errorFlag
            && r.st.out == st.out
                           + [Line(1, "// Generating vector literal for " + t), Line(1, "double " + InitDataName(t) + "[] = {")]
                           + LeafElementLines(env, es, |es|)
                           + [Line(1, "};"), Line(1, VectorLiteralAssign(t, |es|))]
  {
    var n := VectorLiteral(es);
    var t := VectorTempName(st.counter);
    var a, b := Line(1, "// Generating vector literal for " + t), Line(1, "double " + InitDataName(t) + "[] = {");
    var s3 := Emit(Emit(AllocTemp(st, Vector), 1, "// Generating vector literal for " + t), 1, "double " + InitDataName(t) + "[] = {");
    assert s3.out == st.out + [a, b];
    ElemsOfLeaves(env, n, s3, es, |es|);
    VectorLiteralDispatch(env, st, es);
  }

  /**
   * Element i of a literal of leaves sits on line i + 2 of what the literal
   * writes. A Scalar element is written as its code; a Vector element is
   * replaced by 0.0 with a warning comment, and no error is raised for it.
   */
  lemma VectorLiteralElementLine(env: Env, st: GenState, es: seq<Node>, i: nat)
    requires forall k :: 0 <= k < |es| ==> IsLeaf(es[k]) && Resolved(env.syms, es[k])
    requires i < |es|
    ensures var r := ExprGen(env, st, VectorLiteral(es));
            var e := LeafResult(env, es[i]);
            var sep := if i == |es| - 1 then "" else ",";
            && |st.out| + 2 + i < |r.st.out|
            && r.st.errorFlag == st.errorFlag
            && (e.kind == Scalar ==> r.st.out[|st.out| + 2 + i] == Line(2, e.code + sep))
            && (e.kind == Vector ==> r.st.out[|st.out| + 2 + i] == Line(2, "/* WARNING: Non-scalar in vector literal */ 0.0" + sep))
  {
    VectorLiteralOfLeaves(env, st, es);
    var t := VectorTempName(st.counter);
    var ls := LeafElementLines(env, es, |es|);
    var h := [Line(1, "// Generating vector literal for " + t), Line(1, "double " + InitDataName(t) + "[] = {")];
    var f := [Line(1, "};"), Line(1, VectorLiteralAssign(t, |es|))];
    assert (st.out + h + ls + f)[|st.out| + 2 + i] == ls[i];
    LeafElementLineAt(env, es, |es|, i);
  }

  /** Generating a vector literal node is generating its elements, with the node as their parent. */
  lemma VectorLiteralDispatch(env: Env, st: GenState, es: seq<Node>)
    requires forall i :: 0 <= i < |es| ==> Resolved(env.syms, es[i])
    ensures ExprGen(env, st, VectorLiteral(es)) == VectorLiteralGen(env, VectorLiteral(es), st, es)
  {
    assert ExprGen(env, st, VectorLiteral(es)) == ExprKindGen(env, st, VectorLiteral(es));
  }

  /**
   * A binary operation generates its left operand first, then its right
   * operand from the state the left one left behind, and lowers the pair
   * from there: every line of the left operand precedes every line of the
   * right one, and both precede the operation's own line.
   */
  lemma BinaryOperandsInOrder(env: Env, st: GenState, op: char, left: Node, right: Node)
    requires Resolved(env.syms, left) && Resolved(env.syms, right)
    ensures var l := ExprGen(env, st, left);
            var rr := ExprGen(env, l.st, right);
            && Extends(st, l.st) && Extends(l.st, rr.st)
            && ExprGen(env, st, BinaryOp(op, left, right)) == LowerBinary(rr.st, op, l.res, rr.res)
  {
    var n := BinaryOp(op, left, right);
    assert ExprGen(env, st, n) == ExprKindGen(env, st, n) == BinaryGen(env, n, st, op, left, right);
  }

  /** Generating a call node is generating the call, whatever the callee. */
  lemma CallDispatch(env: Env, st: GenState, f: string, args: seq<Node>)
    requires forall i :: 0 <= i < |args| ==> Resolved(env.syms, args[i])
    ensures ExprGen(env, st, FuncCall(f, args)) == CallGen(env, FuncCall(f, args), st, f, args)
  {
    assert ExprGen(env, st, FuncCall(f, args)) == ExprKindGen(env, st, FuncCall(f, args));
  }

  /**
   * `read_vector` with arguments: only the call comment is written, no
   * temporary is allocated and the error flag is raised; the arguments are
   * never generated.
   */
  lemma ReadVectorWithArguments(env: Env, st: GenState, args: seq<Node>)
    requires forall i :: 0 <= i < |args| ==> Resolved(env.syms, args[i])
    requires args != []
    ensures var r := ExprGen(env, st, FuncCall("read_vector", args));
            && r.st.out == st.out + [Line(1, CallComment("read_vector"))]
            && r.st.counter == st.counter
            && r.st.errorFlag
  {
    var n := FuncCall("read_vector", args);
    CallDispatch(env, st, "read_vector", args);
    var s1 := Emit(st, 1, CallComment("read_vector"));
    assert CallGen(env, n, st, "read_vector", args) == LowerReadVector(s1, |args|);
  }

  /** `scatter_plot` is lowered from the state and the results its argument loop leaves, after the call comment. */
  lemma ScatterPlotLowering(env: Env, st: GenState, args: seq<Node>)
    requires forall i :: 0 <= i < |args| ==> Resolved(env.syms, args[i])
    ensures var n := FuncCall("scatter_plot", args);
            var a := ArgsGen(env, n, Emit(st, 1, CallComment("scatter_plot")), args);
            ExprGen(env, st, n) == LowerCall(a.st, "scatter_plot", a.results)
  {
    var n := FuncCall("scatter_plot", args);
    CallDispatch(env, st, "scatter_plot", args);
    var s1 := Emit(st, 1, CallComment("scatter_plot"));
    assert CallGen(env, n, st, "scatter_plot", args) == OtherCallGen(env, n, s1, "scatter_plot", args);
  }

  /**
   * `scatter_plot`: after the call comment its arguments are generated in
   * order. Unless there are exactly two and both are vectors, nothing more is
   * written and the error flag is raised; otherwise one plotting line follows.
   */
  lemma ScatterPlotCall(env: Env, st: GenState, args: seq<Node>)
    requires forall i :: 0 <= i < |args| ==> Resolved(env.syms, args[i])
    ensures var n := FuncCall("scatter_plot", args);
            var a := ArgsGen(env, n, Emit(st, 1, CallComment("scatter_plot")), args);
            var ok := |args| == 2 && a.results[0].kind == Vector && a.results[1].kind == Vector;
            var r := ExprGen(env, st, n);
            && (r.st.errorFlag <==> a.st.errorFlag || !ok)
            && (!ok ==> r.st.out == a.st.out)
            && (ok ==> r.st.out == a.st.out + [Line(1, ScatterPlotLine(a.results[0].code, a.results[1].code))])
  {
    ScatterPlotLowering(env, st, args);
  }

  // ---------------------------------------------------------------------------
  // Statements
  // ---------------------------------------------------------------------------

  /** Without a pending error, a statement that is not an expression goes straight to its own case. */
  lemma StmtGenControl(env: Env, st: GenState, n: Node)
    requires Resolved(env.syms, n)
    requires !st.errorFlag && !IsExpressionKind(n)
    ensures StmtGen(env, st, n) == ControlStmtGen(env, st, n)
  {
    assert StmtGen(env, st, n) == StmtKindGen(env, st, n);
  }

  /**
   * A block statement writes `{ // Start block`, its statements in order, and
   * `} // End block`; the closing line is written even when a statement
   * inside raised an error.
   */
  lemma BlockWrapsStatements(env: Env, st: GenState, ss: seq<Node>)
    requires forall i :: 0 <= i < |ss| ==> Resolved(env.syms, ss[i])
    requires !st.errorFlag
    ensures var body := StmtsGen(env, StatementList(ss), Emit(st, 1, "{ // Start block"), ss);
            var r := StmtGen(env, st, StatementList(ss));
            && |st.out| < |body.out|
            && body.out[..|st.out| + 1] == st.out + [Line(1, "{ // Start block")]
            && r.out == body.out + [Line(1, "} // End block")]
            && r.errorFlag == body.errorFlag
            && r.counter == body.counter
  {
    var n := StatementList(ss);
    StmtGenControl(env, st, n);
    assert ControlStmtGen(env, st, n) == BlockGen(env, n, st, ss);
    var s1 := Emit(st, 1, "{ // Start block");
    var body := StmtsGen(env, n, s1, ss);
    ExtendsKeepsLine(s1, body, |st.out|);
    assert body.out[..|s1.out|] == s1.out;
  }

  /** A line already written stays where it is as generation moves on. */
  lemma ExtendsKeepsLine(s: GenState, t: GenState, i: nat)
    requires Extends(s, t) && i < |s.out|
    ensures i < |t.out| && t.out[i] == s.out[i]
  {
    assert t.out[..|s.out|][i] == t.out[i];
  }

  /** The right-hand side of an assignment, generated after the comment naming the target. */
  function AssignValue(env: Env, st: GenState, x: string, e: Node): ExprStep
    requires Declared(env.syms, x) && Resolved(env.syms, e)
  {
    ExprGen(env, Emit(st, 1, "// Assignment to " + x + " (Type: " + IntText(KindCode(KindOf(env.syms, x))) + ")"), e)
  }

  /**
   * Assignment is checked for exact kind equality: once the right-hand side
   * is generated without error, an error is reported exactly when the kinds
   * differ, and the assignment line is written exactly when they agree.
   */
  lemma AssignmentChecksKinds(env: Env, st: GenState, x: string, e: Node)
    requires Declared(env.syms, x) && Resolved(env.syms, e)
    requires !st.errorFlag && !AssignValue(env, st, x, e).st.errorFlag
    ensures var v := AssignValue(env, st, x, e);
            var r := StmtGen(env, st, Assignment(x, e));
            && (r.errorFlag <==> KindOf(env.syms, x) != v.res.kind)
            && r.out == v.st.out + [Line(1, "// RHS Type: " + IntText(KindCode(v.res.kind)))]
                                 + (if KindOf(env.syms, x) == v.res.kind then [Line(1, AssignLine(x, v.res))] else [])
  {
    var n := Assignment(x, e);
    var v := AssignValue(env, st, x, e);
    StmtGenControl(env, st, n);
    assert ControlStmtGen(env, st, n) == AssignGen(env, n, st, x, e);
    assert AssignGen(env, n, st, x, e) == AssignTailGen(v.st, x, KindOf(env.syms, x), v.res);
  }

  /** The condition of an if, generated after its comment line. */
  function IfCondition(env: Env, st: GenState, c: Node): ExprStep
    requires Resolved(env.syms, c)
  {
    ExprGen(env, Emit(st, 1, "// If statement"), c)
  }

  /** An if without a pending error: the comment, the condition, then what follows it. */
  lemma IfStatement(env: Env, st: GenState, c: Node, t: Node, e: Node)
    requires Resolved(env.syms, c) && Resolved(env.syms, t) && Resolved(env.syms, e)
    requires !st.errorFlag
    ensures var v := IfCondition(env, st, c);
            StmtGen(env, st, If(c, t, e)) == IfTailGen(env, If(c, t, e), v.st, v.res, t, e)
  {
    var n := If(c, t, e);
    StmtGenControl(env, st, n);
    assert ControlStmtGen(env, st, n) == IfGen(env, n, st, c, t, e);
  }

  /**
   * A condition that raises an error while it is generated: only `if (0) {`
   * follows, with no branch and no closing brace.
   */
  lemma IfConditionErrorLeavesBlockOpen(env: Env, st: GenState, c: Node, t: Node, e: Node)
    requires Resolved(env.syms, c) && Resolved(env.syms, t) && Resolved(env.syms, e)
    requires !st.errorFlag && IfCondition(env, st, c).st.errorFlag
    ensures var r := StmtGen(env, st, If(c, t, e));
            r.errorFlag && r.out == IfCondition(env, st, c).st.out + [Line(1, IfConditionError)]
  {
    IfStatement(env, st, c, t, e);
  }

  /**
   * A condition that is generated but is not a Scalar: the error is reported,
   * `if (0) {` is written, both branches are skipped, and their braces are
   * still written.
   */
  lemma IfNonScalarCondition(env: Env, st: GenState, c: Node, t: Node, e: Node)
    requires Resolved(env.syms, c) && Resolved(env.syms, t) && Resolved(env.syms, e)
    requires !st.errorFlag && !IfCondition(env, st, c).st.errorFlag && IfCondition(env, st, c).res.kind != Scalar
    ensures var r := StmtGen(env, st, If(c, t, e));
            && r.errorFlag
            && r.out == IfCondition(env, st, c).st.out + [Line(1, IfConditionError), Line(1, "}")]
                        + (if e == Null then [] else [Line(1, "else {"), Line(1, "}")])
  {
    var n := If(c, t, e);
    var v := IfCondition(env, st, c);
    IfStatement(env, st, c, t, e);
    var s2 := OpenCondition(v.st, v.res, "if ((", IfConditionError);
    assert s2.errorFlag && s2.out == v.st.out + [Line(1, IfConditionError)];
    var s4 := Emit(StmtGen(env, s2, t), 1, "}");
    assert s4.out == v.st.out + [Line(1, IfConditionError), Line(1, "}")];
    if e != Null {
      var s5 := Emit(s4, 1, "else {");
      assert StmtGen(env, s5, e) == s5;
    }
  }

  /** A Scalar condition opens the block with the test against 0.0. */
  lemma IfScalarConditionOpens(env: Env, st: GenState, c: Node, t: Node, e: Node)
    requires Resolved(env.syms, c) && Resolved(env.syms, t) && Resolved(env.syms, e)
    requires !st.errorFlag && !IfCondition(env, st, c).st.errorFlag && IfCondition(env, st, c).res.kind == Scalar
    ensures var v := IfCondition(env, st, c);
            var r := StmtGen(env, st, If(c, t, e));
            |v.st.out| < |r.out| && r.out[|v.st.out|] == Line(1, "if ((" + v.res.code + ") != 0.0) {")
  {
    var v := IfCondition(env, st, c);
    IfStatement(env, st, c, t, e);
    var s2 := OpenCondition(v.st, v.res, "if ((", IfConditionError);
    var s3 := StmtGen(env, s2, t);
    var s4 := Emit(s3, 1, "}");
    var r := ElseGen(env, If(c, t, e), s4, e);
    ExtendsKeepsLine(s2, s3, |v.st.out|);
    ExtendsKeepsLine(s4, r, |v.st.out|);
  }

  /** The condition of a while, generated after its comment line. */
  function WhileCondition(env: Env, st: GenState, c: Node): ExprStep
    requires Resolved(env.syms, c)
  {
    ExprGen(env, Emit(st, 1, "// While loop"), c)
  }

  /** A while without a pending error: the comment, the condition, then what follows it. */
  lemma WhileStatement(env: Env, st: GenState, c: Node, b: Node)
    requires Resolved(env.syms, c) && Resolved(env.syms, b)
    requires !st.errorFlag
    ensures var v := WhileCondition(env, st, c);
            StmtGen(env, st, While(c, b)) == WhileTailGen(env, While(c, b), v.st, v.res, b)
  {
    var n := While(c, b);
    StmtGenControl(env, st, n);
    assert ControlStmtGen(env, st, n) == WhileGen(env, n, st, c, b);
  }

  /** A while condition that raises an error leaves only `while (0) {`, with no body and no closing brace. */
  lemma WhileConditionErrorLeavesBlockOpen(env: Env, st: GenState, c: Node, b: Node)
    requires Resolved(env.syms, c) && Resolved(env.syms, b)
    requires !st.errorFlag && WhileCondition(env, st, c).st.errorFlag
    ensures var r := StmtGen(env, st, While(c, b));
            r.errorFlag && r.out == WhileCondition(env, st, c).st.out + [Line(1, WhileConditionError)]
  {
    WhileStatement(env, st, c, b);
  }

  /** A non-scalar while condition: the error is reported, `while (0) {` written, the body skipped, the brace closed. */
  lemma WhileNonScalarCondition(env: Env, st: GenState, c: Node, b: Node)
    requires Resolved(env.syms, c) && Resolved(env.syms, b)
    requires !st.errorFlag && !WhileCondition(env, st, c).st.errorFlag && WhileCondition(env, st, c).res.kind != Scalar
    ensures var r := StmtGen(env, st, While(c, b));
            && r.errorFlag
            && r.out == WhileCondition(env, st, c).st.out + [Line(1, WhileConditionError), Line(1, "} // End while")]
  {
    var v := WhileCondition(env, st, c);
    WhileStatement(env, st, c, b);
    var s2 := OpenCondition(v.st, v.res, "while ((", WhileConditionError);
    assert StmtGen(env, s2, b) == s2;
  }

  // ---------------------------------------------------------------------------
  // Declarations and cleanup
  // ---------------------------------------------------------------------------

  /** One declaration per symbol, in list order. */
  lemma {:induction false} SymbolDeclsInOrder(syms: seq<Symbol>)
    ensures |SymbolDecls(syms)| == |syms|
    ensures forall i :: 0 <= i < |syms| ==> SymbolDecls(syms)[i] == SymbolDecl(syms[i])
    decreases |syms|
  {
    if syms != [] {
      var init := syms[..|syms| - 1];
      SymbolDeclsInOrder(init);
      var d := SymbolDecls(syms);
      assert d == SymbolDecls(init) + [SymbolDecl(syms[|syms| - 1])];
      forall i | 0 <= i < |syms|
        ensures d[i] == SymbolDecl(syms[i])
      {
        if i < |init| {
          assert d[i] == SymbolDecls(init)[i] && init[i] == syms[i];
        } else {
          assert i == |syms| - 1;
        }
      }
    }
  }

  /** The pool: `_tsk` at position 2k and `_tvk` at 2k + 1, for every k below n. */
  lemma PoolDeclsAt(n: nat)
    ensures |PoolDecls(n)| == 2 * n
    ensures forall k :: 0 <= k < n ==> PoolDecls(n)[2 * k] == ScalarTempDecl(k) && PoolDecls(n)[2 * k + 1] == VectorTempDecl(k)
  {
    forall k | 0 <= k < n
      ensures PoolDecls(n)[2 * k] == ScalarTempDecl(k) && PoolDecls(n)[2 * k + 1] == VectorTempDecl(k)
    {
      assert (2 * k) / 2 == k && (2 * k) % 2 == 0;
      assert (2 * k + 1) / 2 == k && (2 * k + 1) % 2 == 1;
    }
  }

  /**
   * `declare_variables` writes a header, one declaration per symbol in list
   * order, a comment, exactly TempPoolSize scalar and TempPoolSize vector
   * temporaries, and a two-line footer.
   */
  lemma DeclLinesLayout(syms: seq<Symbol>)
    ensures |DeclLines(syms)| == |syms| + 2 * TempPoolSize + 4
    ensures forall i :: 0 <= i < |syms| ==> DeclLines(syms)[1 + i] == SymbolDecl(syms[i])
    ensures forall k :: 0 <= k < TempPoolSize ==>
              && DeclLines(syms)[|syms| + 2 + 2 * k] == ScalarTempDecl(k)
              && DeclLines(syms)[|syms| + 3 + 2 * k] == VectorTempDecl(k)
  {
    SymbolDeclsInOrder(syms);
    PoolDeclsAt(TempPoolSize);
    PiecesAt(DeclsHeader, SymbolDecls(syms), [Line(1, PoolComment)], PoolDecls(TempPoolSize), DeclsFooter);
  }

  /** Where the second and the fourth of five concatenated pieces sit. */
  lemma PiecesAt<T>(h: seq<T>, d: seq<T>, c: seq<T>, p: seq<T>, f: seq<T>)
    ensures |h + d + c + p + f| == |h| + |d| + |c| + |p| + |f|
    ensures forall i :: 0 <= i < |d| ==> (h + d + c + p + f)[|h| + i] == d[i]
    ensures forall i :: 0 <= i < |p| ==> (h + d + c + p + f)[|h| + |d| + |c| + i] == p[i]
  {
  }

  /** The temporaries released at cleanup: `_tv0` up to the counter, in order. */
  lemma {:induction false} TempFreesAt(n: nat)
    ensures |TempFrees(n)| == n
    ensures forall i :: 0 <= i < n ==> TempFrees(n)[i] == FreeLine(VectorTempName(i))
    decreases n
  {
    if n > 0 {
      TempFreesAt(n - 1);
    }
  }

  /** A release line is written for a symbol exactly when it is a Vector symbol of the table. */
  lemma {:induction false} VectorSymbolFreesExactly(syms: seq<Symbol>)
    ensures forall l :: l in VectorSymbolFrees(syms) <==>
              exists i :: 0 <= i < |syms| && syms[i].Kind() == Vector && l == FreeLine(syms[i].name)
    decreases |syms|
  {
    if syms != [] {
      var init := syms[..|syms| - 1];
      var last := syms[|syms| - 1];
      VectorSymbolFreesExactly(init);
      forall l
        ensures l in VectorSymbolFrees(syms) <==>
                  exists i :: 0 <= i < |syms| && syms[i].Kind() == Vector && l == FreeLine(syms[i].name)
      {
        if l in VectorSymbolFrees(init) {
          var i :| 0 <= i < |init| && init[i].Kind() == Vector && l == FreeLine(init[i].name);
          assert syms[i] == init[i];
        } else if l in VectorSymbolFrees(syms) {
          assert last.Kind() == Vector && l == FreeLine(last.name);
        }
        if exists i :: 0 <= i < |syms| && syms[i].Kind() == Vector && l == FreeLine(syms[i].name) {
          var i :| 0 <= i < |syms| && syms[i].Kind() == Vector && l == FreeLine(syms[i].name);
          if i < |init| {
            assert init[i] == syms[i];
          }
        }
      }
    }
  }

  /**
   * Cleanup releases `_tv0` up to the final counter, while only TempPoolSize
   * vector temporaries are declared: a program that uses more temporaries
   * releases `_tv20`, a name that is not among the declared ones.
   */
  lemma CleanupReachesBeyondPool(syms: seq<Symbol>, counter: nat)
    requires counter > TempPoolSize
    ensures FreeLine(VectorTempName(TempPoolSize)) in CleanupLines(syms, counter)
    ensures forall k :: 0 <= k < TempPoolSize ==> VectorTempName(k) != VectorTempName(TempPoolSize)
  {
    TempFreesAt(counter);
    var frees := TempFrees(counter);
    assert frees[TempPoolSize] == FreeLine(VectorTempName(TempPoolSize));
    assert CleanupLines(syms, counter) == [Line(1, "// --- Cleanup Code ---")] + VectorSymbolFrees(syms) + frees
                                          + [Line(1, "// --------------------"), Line(0, "")];
    forall k | 0 <= k < TempPoolSize
      ensures VectorTempName(k) != VectorTempName(TempPoolSize)
    {
      TempNameInjective(Vector, k, Vector, TempPoolSize);
    }
  }
}
