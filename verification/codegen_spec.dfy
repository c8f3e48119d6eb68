/**
 * What codegen.c computes, as functions of the generator's state.
 *
 * The generator's file-level state (`temp_var_counter`, `codegen_error_occurred`,
 * the lines written to `output_file`) is a GenState value; `temps` additionally
 * records, in order, every temporary name handed out, so that the names of one
 * run can be compared. Every function below returns the state after the C
 * routine it specifies, and the class in module Codegen is proved to reach
 * exactly that state.
 */
module CodegenSpec {
  import opened Wrappers
  import opened Decimal
  import opened Symtab
  import opened Ast

  /** The number of `_ts` and of `_tv` temporaries declared at the top of `main`. */
  const TempPoolSize: nat := 20

  // ---------------------------------------------------------------------------
  // Generator state, emit, report_codegen_error, temporaries
  // ---------------------------------------------------------------------------

  datatype GenState = GenState(counter: nat, errorFlag: bool, out: seq<string>, temps: seq<string>)

  /** The state `generate_code` starts from: counter 0, no error, an empty file. */
  const InitialState := GenState(0, false, [], [])

  /** Four spaces per indentation level. */
  function Indent(level: nat): (s: string)
    ensures |s| == 4 * level
    ensures forall i :: 0 <= i < |s| ==> s[i] == ' '
    decreases level
  {
    if level == 0 then "" else Indent(level - 1) + "    "
  }

  /** The line `emit(level, ...)` writes, without its newline. */
  function Line(level: nat, text: string): string {
    Indent(level) + text
  }

  /** `emit`: append one line to the output. */
  function Emit(st: GenState, level: nat, text: string): (r: GenState)
    ensures r.out == st.out + [Line(level, text)]
    ensures r.counter == st.counter && r.errorFlag == st.errorFlag && r.temps == st.temps
  {
    st.(out := st.out + [Line(level, text)])
  }

  /** Append whole lines, as a sequence of `emit` calls does. */
  function Emits(st: GenState, lines: seq<string>): (r: GenState)
    ensures r.out == st.out + lines
    ensures r.counter == st.counter && r.errorFlag == st.errorFlag && r.temps == st.temps
  {
    st.(out := st.out + lines)
  }

  /** `report_codegen_error`: the message goes to stderr; only the flag is kept. */
  function ReportError(st: GenState): (r: GenState)
    ensures r.errorFlag && r.out == st.out && r.counter == st.counter && r.temps == st.temps
  {
    st.(errorFlag := true)
  }

  function ScalarTempName(n: nat): string {
    "_ts" + NatText(n)
  }

  function VectorTempName(n: nat): string {
    "_tv" + NatText(n)
  }

  /** The temporary of the given kind numbered `n`. */
  function TempName(kind: Kind, n: nat): string {
    if kind.Scalar? then ScalarTempName(n) else VectorTempName(n)
  }

  /**
   * `new_temp_scalar_var` / `new_temp_vector_var`: the name is built from the
   * current counter, which then moves on by one. Both kinds share the counter.
   */
  function AllocTemp(st: GenState, kind: Kind): (r: GenState)
    ensures r.counter == st.counter + 1 && r.temps == st.temps + [TempName(kind, st.counter)]
    ensures r.out == st.out && r.errorFlag == st.errorFlag
    ensures TempLogOK(st) ==> TempLogOK(r)
  {
    GenState(st.counter + 1, st.errorFlag, st.out, st.temps + [TempName(kind, st.counter)])
  }

  /** The record of temporaries matches the counter: the k-th name handed out is numbered k. */
  ghost predicate TempLogOK(st: GenState) {
    TempsNumbered(st.temps, st.counter)
  }

  ghost predicate TempsNumbered(temps: seq<string>, counter: nat) {
    |temps| == counter
    && forall k :: 0 <= k < |temps| ==> temps[k] == TempName(Scalar, k) || temps[k] == TempName(Vector, k)
  }

  /**
   * Generation only ever moves forward: lines are appended and never removed,
   * the counter never goes back, temporaries are only added, and once the
   * error flag is set it stays set.
   */
  ghost predicate Extends(s: GenState, t: GenState) {
    s.counter <= t.counter
    && (s.errorFlag ==> t.errorFlag)
    && |s.out| <= |t.out| && t.out[..|s.out|] == s.out
    && |s.temps| <= |t.temps| && t.temps[..|s.temps|] == s.temps
  }

  lemma ExtendsReflexive(s: GenState)
    ensures Extends(s, s)
  {
    assert s.out[..|s.out|] == s.out;
    assert s.temps[..|s.temps|] == s.temps;
  }

  lemma ExtendsTransitive(a: GenState, b: GenState, c: GenState)
    requires Extends(a, b) && Extends(b, c)
    ensures Extends(a, c)
  {
    assert c.out[..|a.out|] == c.out[..|b.out|][..|a.out|];
    assert c.temps[..|a.temps|] == c.temps[..|b.temps|][..|a.temps|];
  }

  /** Appending four pieces one after another is appending their concatenation. */
  lemma AppendFour<T>(x: seq<T>, a: seq<T>, b: seq<T>, c: seq<T>, d: seq<T>)
    ensures x + a + b + c + d == x + (a + b + c + d)
  {
  }

  lemma AppendKeepsPrefix<T>(a: seq<T>, b: seq<T>, k: nat)
    requires k <= |a|
    ensures (a + b)[..k] == a[..k]
  {
  }

  lemma AppendEndsWith<T>(a: seq<T>, b: seq<T>)
    ensures (a + b)[|a + b| - |b|..] == b
  {
  }

  /** One more step of a loop over `s`: the next prefix is the previous one and `s[i]`. */
  lemma PrefixStep<T>(s: seq<T>, i: nat)
    requires i < |s|
    ensures s[..i + 1][..i] == s[..i] && s[..i + 1][i] == s[i]
  {
  }

  lemma PrefixWhole<T>(s: seq<T>)
    ensures s[..|s|] == s
  {
  }

  /** Appending five pieces one after another is appending their concatenation. */
  lemma AppendFive<T>(x: seq<T>, a: seq<T>, b: seq<T>, c: seq<T>, d: seq<T>, e: seq<T>)
    ensures x + a + b + c + d + e == x + (a + b + c + d + e)
  {
  }

  // ---------------------------------------------------------------------------
  // Expressions
  // ---------------------------------------------------------------------------

  /** The ExprResult triple: C text, kind, and whether the text is a fragment rather than a declared temporary. */
  datatype ExprResult = ExprResult(code: string, kind: Kind, isTemporary: bool)

  datatype ExprStep = ExprStep(res: ExprResult, st: GenState)

  datatype ArgsStep = ArgsStep(results: seq<ExprResult>, st: GenState)

  /**
   * What code generation reads besides the tree: the symbol table (for the
   * kinds of identifiers and assignment targets) and the "%f" rendering of
   * a double, which the model does not fix.
   */
  datatype Env = Env(syms: seq<Symbol>, numText: real -> string)

  /** The result `generate_expression` starts with and keeps on a semantic error. */
  const DefaultResult := ExprResult("0.0", Scalar, true)

  /**
   * Every symbol the tree refers to as a variable is in the table (the C code
   * asserts the symbol pointers are non-NULL and reads their kind). A callee is
   * used by name only. A node of no known kind carries a tag that no known
   * kind has (0, NODE_TYPE_UNKNOWN, or a value outside the enum).
   */
  predicate Resolved(syms: seq<Symbol>, n: Node)
    decreases n
  {
    match n
    case Identifier(s) => Declared(syms, s)
    case Assignment(x, e) => Declared(syms, x) && Resolved(syms, e)
    case VectorLiteral(es) => forall i :: 0 <= i < |es| ==> Resolved(syms, es[i])
    case StatementList(ss) => forall i :: 0 <= i < |ss| ==> Resolved(syms, ss[i])
    case FuncCall(_, args) => forall i :: 0 <= i < |args| ==> Resolved(syms, args[i])
    case BinaryOp(_, l, r) => Resolved(syms, l) && Resolved(syms, r)
    case UnaryOp(_, e) => Resolved(syms, e)
    case If(c, t, e) => Resolved(syms, c) && Resolved(syms, t) && Resolved(syms, e)
    case While(c, b) => Resolved(syms, c) && Resolved(syms, b)
    case Unknown(t) => !(1 <= t <= 10)
    case _ => true
  }

  /** A result that is not a text fragment names a temporary of its own kind allocated during the step. */
  ghost predicate NamesNewTemp(before: GenState, r: ExprStep) {
    !r.res.isTemporary ==>
      exists k :: before.counter <= k < r.st.counter && r.res.code == TempName(r.res.kind, k)
  }

  /** The node kinds `generate_expression` has a case for (a NULL node is handled before them). */
  predicate IsExpressionKind(n: Node) {
    n.Number? || n.Identifier? || n.VectorLiteral? || n.BinaryOp? || n.UnaryOp? || n.FuncCall?
  }

  /** `generate_expression`. */
  function ExprGen(env: Env, st: GenState, n: Node): (r: ExprStep)
    requires Resolved(env.syms, n)
    ensures Extends(st, r.st)
    ensures TempLogOK(st) ==> TempLogOK(r.st)
    ensures NamesNewTemp(st, r)
    decreases n, 3
  {
    if n == Null then
      ExtendsReflexive(st);
      ExprStep(ExprResult("/* null expr */", Scalar, true), st)
    else if IsExpressionKind(n) then ExprKindGen(env, st, n)
    else UnimplementedExpr(st, n)
  }

  /** The cases of the switch in `generate_expression`. */
  function ExprKindGen(env: Env, st: GenState, n: Node): (r: ExprStep)
    requires IsExpressionKind(n)
    requires Resolved(env.syms, n)
    ensures Extends(st, r.st)
    ensures TempLogOK(st) ==> TempLogOK(r.st)
    ensures NamesNewTemp(st, r)
    decreases n, 2
  {
    match n
    case Number(v) =>
      ExtendsReflexive(st);
      ExprStep(ExprResult(env.numText(v), Scalar, true), st)
    case Identifier(s) =>
      ExtendsReflexive(st);
      ExprStep(ExprResult(s, KindOf(env.syms, s), true), st)
    case VectorLiteral(es) => VectorLiteralGen(env, n, st, es)
    case BinaryOp(op, left, right) => BinaryGen(env, n, st, op, left, right)
    case UnaryOp(op, operand) => UnaryGen(env, n, st, op, operand)
    case FuncCall(f, args) => CallGen(env, n, st, f, args)
  }

  /** The default case: a comment naming the node's type code, and a placeholder value. */
  function UnimplementedExpr(st: GenState, n: Node): (r: ExprStep)
    ensures r.res == ExprResult("/* UNIMPL EXPR " + IntText(TypeCode(n)) + " */", Scalar, true)
    ensures r.st.out == st.out + [Line(1, "// Expression generation not implemented for node type " + IntText(TypeCode(n)))]
    ensures r.st.counter == st.counter && r.st.errorFlag == st.errorFlag && r.st.temps == st.temps
  {
    var code := IntText(TypeCode(n));
    ExprStep(ExprResult("/* UNIMPL EXPR " + code + " */", Scalar, true),
             Emit(st, 1, "// Expression generation not implemented for node type " + code))
  }

  /**
   * A vector literal: a fresh vector temporary, a C initializer array holding
   * one line per element, and a copy of the array into the temporary.
   */
  function VectorLiteralGen(env: Env, ghost parent: Node, st: GenState, es: seq<Node>): (r: ExprStep)
    requires forall i :: 0 <= i < |es| ==> es[i] < parent
    requires forall i :: 0 <= i < |es| ==> Resolved(env.syms, es[i])
    ensures r.res == ExprResult(VectorTempName(st.counter), Vector, false)
    ensures st.counter < r.st.counter
    ensures Extends(st, r.st)
    ensures TempLogOK(st) ==> TempLogOK(r.st)
    ensures NamesNewTemp(st, r)
    decreases parent, 1
  {
    var name := VectorTempName(st.counter);
    var s1 := AllocTemp(st, Vector);
    var s2 := Emit(s1, 1, "// Generating vector literal for " + name);
    var s3 := Emit(s2, 1, "double " + InitDataName(name) + "[] = {");
    var s4 := ElemsGen(env, parent, s3, es, |es|);
    var s5 := Emit(s4, 1, "};");
    var s6 := Emit(s5, 1, VectorLiteralAssign(name, |es|));
    ExtendsTransitive(st, s3, s4);
    ExtendsTransitive(st, s4, s6);
    assert name == TempName(Vector, st.counter);
    ExprStep(ExprResult(name, Vector, false), s6)
  }

  /** A unary operation: the operand, then the check that it is `-` on a Scalar. */
  function UnaryGen(env: Env, ghost parent: Node, st: GenState, op: char, operand: Node): (r: ExprStep)
    requires operand < parent
    requires Resolved(env.syms, operand)
    ensures Extends(st, r.st)
    ensures TempLogOK(st) ==> TempLogOK(r.st)
    ensures NamesNewTemp(st, r)
    decreases parent, 1
  {
    var o := ExprGen(env, st, operand);
    var r := LowerUnary(o.st, op, o.res);
    ExtendsTransitive(st, o.st, r.st);
    assert !r.res.isTemporary ==> r.res.code == TempName(r.res.kind, o.st.counter);
    r
  }

  /** A binary operation: left operand, right operand, then the kind dispatch. */
  function BinaryGen(env: Env, ghost parent: Node, st: GenState, op: char, left: Node, right: Node): (r: ExprStep)
    requires left < parent && right < parent
    requires Resolved(env.syms, left) && Resolved(env.syms, right)
    ensures Extends(st, r.st)
    ensures TempLogOK(st) ==> TempLogOK(r.st)
    ensures NamesNewTemp(st, r)
    decreases parent, 1
  {
    var l := ExprGen(env, st, left);
    var rr := ExprGen(env, l.st, right);
    var r := LowerBinary(rr.st, op, l.res, rr.res);
    ExtendsTransitive(st, l.st, rr.st);
    ExtendsTransitive(st, rr.st, r.st);
    assert !r.res.isTemporary ==> r.res.code == TempName(r.res.kind, rr.st.counter);
    r
  }

  /** A function call: `read_vector` is handled before any argument is generated. */
  function CallGen(env: Env, ghost parent: Node, st: GenState, f: string, args: seq<Node>): (r: ExprStep)
    requires forall i :: 0 <= i < |args| ==> args[i] < parent
    requires forall i :: 0 <= i < |args| ==> Resolved(env.syms, args[i])
    ensures Extends(st, r.st)
    ensures TempLogOK(st) ==> TempLogOK(r.st)
    ensures NamesNewTemp(st, r)
    decreases parent, 1
  {
    var s1 := Emit(st, 1, CallComment(f));
    if f == "read_vector" then
      var r := LowerReadVector(s1, |args|);
      assert !r.res.isTemporary ==> r.res.code == TempName(r.res.kind, s1.counter);
      r
    else
      var r := OtherCallGen(env, parent, s1, f, args);
      ExtendsTransitive(st, s1, r.st);
      r
  }

  /** A call other than `read_vector`: its arguments, in order, then the call itself. */
  function OtherCallGen(env: Env, ghost parent: Node, st: GenState, f: string, args: seq<Node>): (r: ExprStep)
    requires f != "read_vector"
    requires forall i :: 0 <= i < |args| ==> args[i] < parent
    requires forall i :: 0 <= i < |args| ==> Resolved(env.syms, args[i])
    ensures Extends(st, r.st)
    ensures TempLogOK(st) ==> TempLogOK(r.st)
    ensures NamesNewTemp(st, r)
    decreases parent, 0, |args| + 1
  {
    var a := ArgsGen(env, parent, st, args);
    var r := LowerCall(a.st, f, a.results);
    ExtendsTransitive(st, a.st, r.st);
    assert !r.res.isTemporary ==> r.res.code == TempName(r.res.kind, a.st.counter);
    r
  }

  /** The initializer array of a vector literal's temporary. */
  function InitDataName(name: string): string {
    name + "_init_data"
  }

  /** The line that copies a vector literal's initializer into its temporary. */
  function VectorLiteralAssign(name: string, count: nat): string {
    "vector_assign(&" + name + ", (Vector){ " + InitDataName(name) + ", " + NatText(count) + " });"
  }

  /** The initializer line of element `i` of `count`: a comma after all but the last. */
  function ElementText(r: ExprResult, i: nat, count: nat): string {
    (if r.kind != Scalar then "/* WARNING: Non-scalar in vector literal */ 0.0" else r.code)
      + (if i == count - 1 then "" else ",")
  }

  /**
   * The element loop of a vector literal, over the first |es| elements: each
   * element's own code first, then its initializer line at level 2.
   */
  function ElemsGen(env: Env, ghost parent: Node, st: GenState, es: seq<Node>, count: nat): (r: GenState)
    requires forall i :: 0 <= i < |es| ==> es[i] < parent
    requires forall i :: 0 <= i < |es| ==> Resolved(env.syms, es[i])
    ensures Extends(st, r)
    ensures TempLogOK(st) ==> TempLogOK(r)
    decreases parent, 0, |es|
  {
    if es == [] then st
    else
      var s := ElemsGen(env, parent, st, es[..|es| - 1], count);
      var e := ExprGen(env, s, es[|es| - 1]);
      var r := Emit(e.st, 2, ElementText(e.res, |es| - 1, count));
      ExtendsTransitive(st, s, e.st);
      r
  }

  /** The argument loop of a call: every argument is generated, in order. */
  function ArgsGen(env: Env, ghost parent: Node, st: GenState, args: seq<Node>): (r: ArgsStep)
    requires forall i :: 0 <= i < |args| ==> args[i] < parent
    requires forall i :: 0 <= i < |args| ==> Resolved(env.syms, args[i])
    ensures |r.results| == |args|
    ensures Extends(st, r.st)
    ensures TempLogOK(st) ==> TempLogOK(r.st)
    decreases parent, 0, |args|
  {
    if args == [] then ArgsStep([], st)
    else
      var a := ArgsGen(env, parent, st, args[..|args| - 1]);
      var e := ExprGen(env, a.st, args[|args| - 1]);
      ExtendsTransitive(st, a.st, e.st);
      ArgsStep(a.results + [e.res], e.st)
  }

  /** The runtime function for a vector-vector operator, if there is one. */
  function VectorOpFunc(op: char): (f: Option<string>)
    ensures f.Some? <==> op in "+-*/"
    ensures f == Some("vector_add") <==> op == '+'
    ensures f == Some("vector_sub") <==> op == '-'
    ensures f == Some("vector_mul") <==> op == '*'
    ensures f == Some("vector_div") <==> op == '/'
  {
    match op
    case '+' => Some("vector_add")
    case '-' => Some("vector_sub")
    case '*' => Some("vector_mul")
    case '/' => Some("vector_div")
    case _ => None
  }

  /** `vector_add_scalar` into a fresh vector temporary, vector operand first. */
  function AddScalar(st: GenState, vectorCode: string, scalarCode: string): ExprStep {
    var t := VectorTempName(st.counter);
    ExprStep(ExprResult(t, Vector, false),
             Emit(AllocTemp(st, Vector), 1, t + " = vector_add_scalar(" + vectorCode + ", " + scalarCode + ");"))
  }

  /**
   * The kind dispatch of a binary operation, once both operands are generated.
   * Scalar-scalar: any operator, a fresh scalar temporary. Vector-vector: the
   * four arithmetic operators map to runtime calls; any other operator costs a
   * temporary number, writes only a comment and raises no error. Mixed kinds:
   * only `+`, always with the vector operand first; anything else is an error
   * that emits nothing and yields the default result.
   */
  function LowerBinary(st: GenState, op: char, l: ExprResult, r: ExprResult): (s: ExprStep)
    ensures s.st.errorFlag <==> st.errorFlag || (l.kind != r.kind && op != '+')
    ensures s.st.counter == if l.kind != r.kind && op != '+' then st.counter else st.counter + 1
    ensures s.res.kind == Vector <==> (l.kind == Vector || r.kind == Vector) && (l.kind == r.kind || op == '+')
    ensures s.res.isTemporary <==> (l.kind != r.kind && op != '+') || (l.kind == Vector && r.kind == Vector && op !in "+-*/")
    ensures !s.res.isTemporary ==> s.res.code == TempName(s.res.kind, st.counter)
    ensures l.kind != r.kind && op != '+' ==> s.res == DefaultResult && s.st.out == st.out
    ensures l.kind != r.kind && op == '+' ==>
              s == AddScalar(st, if l.kind == Vector then l.code else r.code, if l.kind == Vector then r.code else l.code)
    ensures |s.st.out| == |st.out| + (if l.kind != r.kind && op != '+' then 0 else 1)
    ensures l.kind == Scalar && r.kind == Scalar ==>
              s.st.out == st.out + [Line(1, ScalarTempName(st.counter) + " = (" + l.code + ") " + [op] + " (" + r.code + ");")]
    ensures l.kind == Vector && r.kind == Vector && op in "+-*/" ==>
              s.st.out == st.out + [Line(1, VectorTempName(st.counter) + " = " + VectorOpFunc(op).value + "(" + l.code + ", " + r.code + ");")]
    ensures l.kind == Vector && r.kind == Vector && op !in "+-*/" ==>
              s.res.code == "/* Invalid vector op */"
              && s.st.out == st.out + [Line(1, "// ERROR: Unsupported vector binary op '" + [op] + "'")]
    ensures Extends(st, s.st)
    ensures TempLogOK(st) ==> TempLogOK(s.st)
  {
    if l.kind.Scalar? && r.kind.Scalar? then
      var t := ScalarTempName(st.counter);
      ExprStep(ExprResult(t, Scalar, false),
               Emit(AllocTemp(st, Scalar), 1, t + " = (" + l.code + ") " + [op] + " (" + r.code + ");"))
    else if l.kind.Vector? && r.kind.Vector? then
      var t := VectorTempName(st.counter);
      var s1 := AllocTemp(st, Vector);
      match VectorOpFunc(op)
      case Some(f) => ExprStep(ExprResult(t, Vector, false), Emit(s1, 1, t + " = " + f + "(" + l.code + ", " + r.code + ");"))
      case None => ExprStep(ExprResult("/* Invalid vector op */", Vector, true),
                            Emit(s1, 1, "// ERROR: Unsupported vector binary op '" + [op] + "'"))
    else if l.kind.Vector? && r.kind.Scalar? && op == '+' then
      AddScalar(st, l.code, r.code)
    else if l.kind.Scalar? && r.kind.Vector? && op == '+' then
      AddScalar(st, r.code, l.code)
    else if op == '+' then
      // the mixed-kind `+` branch after the two cases above can never be taken
      assert false;
      ExprStep(DefaultResult, st)
    else
      ExprStep(DefaultResult, ReportError(st))
  }

  /** Unary operations: only `-` on a Scalar operand is generated. */
  function LowerUnary(st: GenState, op: char, o: ExprResult): (s: ExprStep)
    ensures s.st.errorFlag <==> st.errorFlag || !(o.kind == Scalar && op == '-')
    ensures s.res.kind == Scalar
    ensures !s.res.isTemporary <==> o.kind == Scalar && op == '-'
    ensures !s.res.isTemporary ==> s.res.code == ScalarTempName(st.counter) && s.st.counter == st.counter + 1
    ensures o.kind == Scalar && op == '-' ==> s.st.out == st.out + [Line(1, ScalarTempName(st.counter) + " = -(" + o.code + ");")]
    ensures s.res.isTemporary ==> s.st.counter == st.counter && s.st.out == st.out
    ensures Extends(st, s.st)
    ensures TempLogOK(st) ==> TempLogOK(s.st)
  {
    if o.kind == Scalar && op == '-' then
      var t := ScalarTempName(st.counter);
      assert [op] + "(" == "-(" && " = " + "-(" == " = -(";
      assert t + " = " + [op] + "(" == t + " = -(";
      ExprStep(ExprResult(t, Scalar, false), Emit(AllocTemp(st, Scalar), 1, t + " = " + [op] + "(" + o.code + ");"))
    else
      ExprStep(ExprResult("/* type error */ 0.0", Scalar, true), ReportError(st))
  }

  /** `read_vector()`: a fresh vector temporary filled at run time; any argument is an error. */
  function LowerReadVector(st: GenState, argCount: nat): (s: ExprStep)
    ensures s.res.kind == Vector
    ensures s.st.errorFlag <==> st.errorFlag || argCount != 0
    ensures argCount == 0 ==>
              && s.res == ExprResult(VectorTempName(st.counter), Vector, false)
              && s.st.out == st.out + [Line(1, VectorTempName(st.counter) + " = runtime_read_vector();")]
    ensures argCount != 0 ==> s.st.out == st.out && s.st.counter == st.counter && s.res.isTemporary
    ensures Extends(st, s.st)
    ensures TempLogOK(st) ==> TempLogOK(s.st)
  {
    if argCount == 0 then
      var t := VectorTempName(st.counter);
      ExprStep(ExprResult(t, Vector, false), Emit(AllocTemp(st, Vector), 1, t + " = runtime_read_vector();"))
    else
      ExprStep(ExprResult("/* invalid read_vector call */", Vector, true), ReportError(st))
  }

  /** One argument in the C argument text: a vector passes its buffer and its length. */
  function ArgPart(r: ExprResult): string {
    if r.kind == Vector then r.code + ".data, " + r.code + ".size" else r.code
  }

  /** The comma-separated argument text of a generic call. */
  function ArgText(rs: seq<ExprResult>): string
    decreases |rs|
  {
    if rs == [] then ""
    else ArgText(rs[..|rs| - 1]) + (if |rs| > 1 then ", " else "") + ArgPart(rs[|rs| - 1])
  }

  /** A single argument is passed as its own part, with no separator. */
  lemma ArgTextSingle(r: ExprResult)
    ensures ArgText([r]) == ArgPart(r)
  {
    assert [r][..0] == [];
  }

  /** Each further argument is added after a `, ` separator. */
  lemma ArgTextSnoc(rs: seq<ExprResult>, r: ExprResult)
    requires rs != []
    ensures ArgText(rs + [r]) == ArgText(rs) + ", " + ArgPart(r)
  {
    assert (rs + [r])[..|rs|] == rs;
  }

  /**
   * The argument text of two non-empty runs of arguments is their texts
   * joined by one `, `: the separators fall exactly between arguments.
   */
  lemma {:induction false} ArgTextAppend(xs: seq<ExprResult>, ys: seq<ExprResult>)
    requires xs != [] && ys != []
    ensures ArgText(xs + ys) == ArgText(xs) + ", " + ArgText(ys)
    decreases |ys|
  {
    var init, last := ys[..|ys| - 1], ys[|ys| - 1];
    assert ys == init + [last];
    if init == [] {
      ArgTextSnoc(xs, last);
      ArgTextSingle(last);
    } else {
      ArgTextAppend(xs, init);
      assert xs + ys == (xs + init) + [last];
      ArgTextSnoc(xs + init, last);
      ArgTextSnoc(init, last);
      SeparatorAssoc(ArgText(xs), ArgText(init), ArgPart(last));
    }
  }

  lemma SeparatorAssoc(a: string, b: string, c: string)
    ensures (a + ", " + b) + ", " + c == a + ", " + (b + ", " + c)
  {
  }

  /** The comment written before any call is generated. */
  function CallComment(f: string): string {
    "// Generating function call: " + f + "()"
  }

  /** The `c_scatter_plot` line for two vector operands. */
  function ScatterPlotLine(a: string, b: string): string {
    "c_scatter_plot(" + a + ".data, " + a + ".size, " + b + ".data, " + b + ".size);"
  }

  /**
   * A call other than `read_vector`, once its arguments are generated.
   * `scatter_plot` needs exactly two Vector arguments and yields no value;
   * every other function is assumed to return a double, stored in a fresh
   * scalar temporary.
   */
  function LowerCall(st: GenState, f: string, rs: seq<ExprResult>): (s: ExprStep)
    requires f != "read_vector"
    ensures s.res.kind == Scalar
    ensures f == "scatter_plot" ==> s.st.counter == st.counter && s.res.isTemporary
    ensures f == "scatter_plot" ==> (s.st.errorFlag <==> st.errorFlag || !(|rs| == 2 && rs[0].kind == Vector && rs[1].kind == Vector))
    ensures f == "scatter_plot" && |rs| == 2 && rs[0].kind == Vector && rs[1].kind == Vector ==>
              s.st.out == st.out + [Line(1, ScatterPlotLine(rs[0].code, rs[1].code))]
    ensures f == "scatter_plot" && !(|rs| == 2 && rs[0].kind == Vector && rs[1].kind == Vector) ==> s.st.out == st.out
    ensures f != "scatter_plot" ==>
              && s.st.errorFlag == st.errorFlag
              && s.res == ExprResult(ScalarTempName(st.counter), Scalar, false)
              && s.st.counter == st.counter + 1
              && s.st.out == st.out + [Line(1, ScalarTempName(st.counter) + " = " + f + "(" + ArgText(rs) + "); // Generic function call result")]
    ensures Extends(st, s.st)
    ensures TempLogOK(st) ==> TempLogOK(s.st)
  {
    if f == "scatter_plot" then
      if |rs| == 2 && rs[0].kind == Vector && rs[1].kind == Vector then
        ExprStep(ExprResult("/* scatter_plot call */", Scalar, true), Emit(st, 1, ScatterPlotLine(rs[0].code, rs[1].code)))
      else
        ExprStep(ExprResult("/* invalid scatter_plot call */", Scalar, true), ReportError(st))
    else
      var t := ScalarTempName(st.counter);
      ExprStep(ExprResult(t, Scalar, false),
               Emit(AllocTemp(st, Scalar), 1, t + " = " + f + "(" + ArgText(rs) + "); // Generic function call result"))
  }

  // ---------------------------------------------------------------------------
  // Statements
  // ---------------------------------------------------------------------------

  const IfConditionError := "if (0) { // Type error in condition"
  const WhileConditionError := "while (0) { // Type error in condition"

  /** `generate_statement`. Once the error flag is set it does nothing at all. */
  function StmtGen(env: Env, st: GenState, n: Node): (r: GenState)
    requires Resolved(env.syms, n)
    ensures Extends(st, r)
    ensures TempLogOK(st) ==> TempLogOK(r)
    ensures st.errorFlag || n == Null ==> r == st
    decreases n, 4
  {
    if st.errorFlag then st else StmtKindGen(env, st, n)
  }

  /**
   * The dispatch on the node kind, reached while no error has been reported:
   * the expression kinds share one case, as their case labels do in the C
   * switch.
   */
  function StmtKindGen(env: Env, st: GenState, n: Node): (r: GenState)
    requires Resolved(env.syms, n)
    ensures Extends(st, r)
    ensures TempLogOK(st) ==> TempLogOK(r)
    ensures n == Null ==> r == st
    decreases n, 3
  {
    if IsExpressionKind(n) then ExprStmtGen(env, st, n)
    else ControlStmtGen(env, st, n)
  }

  /** The statement kinds proper, and the fallback for any other kind. */
  function ControlStmtGen(env: Env, st: GenState, n: Node): (r: GenState)
    requires !IsExpressionKind(n)
    requires Resolved(env.syms, n)
    ensures Extends(st, r)
    ensures TempLogOK(st) ==> TempLogOK(r)
    ensures n == Null ==> r == st
    decreases n, 2
  {
    match n
    case Null => ExtendsReflexive(st); st
    case StatementList(ss) => BlockGen(env, n, st, ss)
    case Assignment(x, e) => AssignGen(env, n, st, x, e)
    case If(c, t, e) => IfGen(env, n, st, c, t, e)
    case While(c, b) => WhileGen(env, n, st, c, b)
    case Unknown(_) => UnimplementedStmt(st, n)
  }

  /** A node kind `generate_statement` has no case for: only a comment naming its type code. */
  function UnimplementedStmt(st: GenState, n: Node): (r: GenState)
    ensures r.out == st.out + [Line(1, "// Statement generation not implemented for node type " + IntText(TypeCode(n)))]
    ensures r.counter == st.counter && r.errorFlag == st.errorFlag && r.temps == st.temps
  {
    Emit(st, 1, "// Statement generation not implemented for node type " + IntText(TypeCode(n)))
  }

  /** A block: its statements between braces. */
  function BlockGen(env: Env, ghost parent: Node, st: GenState, ss: seq<Node>): (r: GenState)
    requires forall i :: 0 <= i < |ss| ==> ss[i] < parent
    requires forall i :: 0 <= i < |ss| ==> Resolved(env.syms, ss[i])
    ensures Extends(st, r)
    ensures TempLogOK(st) ==> TempLogOK(r)
    decreases parent, 1
  {
    var s1 := Emit(st, 1, "{ // Start block");
    var s2 := StmtsGen(env, parent, s1, ss);
    ExtendsTransitive(st, s1, s2);
    var r := Emit(s2, 1, "} // End block");
    ExtendsTransitive(st, s2, r);
    r
  }

  /**
   * An assignment: the right-hand side is generated after a comment naming the
   * target; if that raised an error nothing more is written, otherwise the
   * kinds are compared.
   */
  function AssignGen(env: Env, ghost parent: Node, st: GenState, x: string, e: Node): (r: GenState)
    requires e < parent
    requires Declared(env.syms, x) && Resolved(env.syms, e)
    ensures Extends(st, r)
    ensures TempLogOK(st) ==> TempLogOK(r)
    decreases parent, 1
  {
    var k := KindOf(env.syms, x);
    var s1 := Emit(st, 1, "// Assignment to " + x + " (Type: " + IntText(KindCode(k)) + ")");
    var v := ExprGen(env, s1, e);
    var r := AssignTailGen(v.st, x, k, v.res);
    ExtendsTransitive(st, s1, v.st);
    ExtendsTransitive(st, v.st, r);
    r
  }

  /** What follows the right-hand side of an assignment: nothing if it raised an error, else the kind check. */
  function AssignTailGen(st: GenState, x: string, k: Kind, v: ExprResult): (r: GenState)
    ensures Extends(st, r)
    ensures TempLogOK(st) ==> TempLogOK(r)
    ensures st.errorFlag ==> r == st
  {
    if st.errorFlag then st
    else
      var s2 := Emit(st, 1, "// RHS Type: " + IntText(KindCode(v.kind)));
      var r := AssignOrReport(s2, x, k, v);
      ExtendsTransitive(st, s2, r);
      r
  }

  /** The line that opens a conditional block, once its condition has been generated without error. */
  function OpenCondition(st: GenState, v: ExprResult, opening: string, errorLine: string): (r: GenState)
    ensures r.errorFlag <==> st.errorFlag || v.kind != Scalar
    ensures r.out == st.out + [Line(1, if v.kind != Scalar then errorLine else opening + v.code + ") != 0.0) {")]
    ensures r.counter == st.counter && r.temps == st.temps
  {
    if v.kind != Scalar then Emit(ReportError(st), 1, errorLine)
    else Emit(st, 1, opening + v.code + ") != 0.0) {")
  }

  /**
   * An if statement. An error inside the condition leaves only the opening
   * `if (0) {` line (no branch, no closing brace); a non-scalar condition is
   * reported and the branches are then skipped by the error check, though the
   * braces are still written.
   */
  function IfGen(env: Env, ghost parent: Node, st: GenState, c: Node, t: Node, e: Node): (r: GenState)
    requires c < parent && t < parent && e < parent
    requires Resolved(env.syms, c) && Resolved(env.syms, t) && Resolved(env.syms, e)
    ensures Extends(st, r)
    ensures TempLogOK(st) ==> TempLogOK(r)
    decreases parent, 1
  {
    var s1 := Emit(st, 1, "// If statement");
    var v := ExprGen(env, s1, c);
    var r := IfTailGen(env, parent, v.st, v.res, t, e);
    ExtendsTransitive(st, s1, v.st);
    ExtendsTransitive(st, v.st, r);
    r
  }

  /** What follows the condition of an if: nothing more than `if (0) {` when generating it raised an error. */
  function IfTailGen(env: Env, ghost parent: Node, st: GenState, v: ExprResult, t: Node, e: Node): (r: GenState)
    requires t < parent && e < parent
    requires Resolved(env.syms, t) && Resolved(env.syms, e)
    ensures Extends(st, r)
    ensures TempLogOK(st) ==> TempLogOK(r)
    decreases parent, 0, 2
  {
    if st.errorFlag then Emit(st, 1, IfConditionError)
    else
      var s2 := OpenCondition(st, v, "if ((", IfConditionError);
      var s3 := StmtGen(env, s2, t);
      var s4 := Emit(s3, 1, "}");
      var r := ElseGen(env, parent, s4, e);
      ExtendsTransitive(st, s2, s3);
      ExtendsTransitive(st, s3, s4);
      ExtendsTransitive(st, s4, r);
      r
  }

  /** The else branch of an if, written only when there is one. */
  function ElseGen(env: Env, ghost parent: Node, st: GenState, e: Node): (r: GenState)
    requires e < parent
    requires Resolved(env.syms, e)
    ensures Extends(st, r)
    ensures TempLogOK(st) ==> TempLogOK(r)
    ensures e == Null ==> r == st
    decreases parent, 0, 1
  {
    if e == Null then st
    else
      var s1 := Emit(st, 1, "else {");
      var s2 := StmtGen(env, s1, e);
      ExtendsTransitive(st, s1, s2);
      Emit(s2, 1, "}")
  }

  /** A while loop: the condition is generated once, before the loop. */
  function WhileGen(env: Env, ghost parent: Node, st: GenState, c: Node, b: Node): (r: GenState)
    requires c < parent && b < parent
    requires Resolved(env.syms, c) && Resolved(env.syms, b)
    ensures Extends(st, r)
    ensures TempLogOK(st) ==> TempLogOK(r)
    decreases parent, 1
  {
    var s1 := Emit(st, 1, "// While loop");
    var v := ExprGen(env, s1, c);
    var r := WhileTailGen(env, parent, v.st, v.res, b);
    ExtendsTransitive(st, s1, v.st);
    ExtendsTransitive(st, v.st, r);
    r
  }

  /** What follows the condition of a while: nothing more than `while (0) {` when generating it raised an error. */
  function WhileTailGen(env: Env, ghost parent: Node, st: GenState, v: ExprResult, b: Node): (r: GenState)
    requires b < parent
    requires Resolved(env.syms, b)
    ensures Extends(st, r)
    ensures TempLogOK(st) ==> TempLogOK(r)
    decreases parent, 0, 1
  {
    if st.errorFlag then Emit(st, 1, WhileConditionError)
    else
      var s2 := OpenCondition(st, v, "while ((", WhileConditionError);
      var s3 := StmtGen(env, s2, b);
      ExtendsTransitive(st, s2, s3);
      Emit(s3, 1, "} // End while")
  }

  /** The type check of an assignment: kinds must be equal, then `=` for Scalar or `vector_assign` for Vector. */
  function AssignOrReport(st: GenState, x: string, k: Kind, v: ExprResult): (r: GenState)
    ensures r.errorFlag <==> st.errorFlag || k != v.kind
    ensures k != v.kind ==> r.out == st.out
    ensures k == v.kind ==> r.out == st.out + [Line(1, AssignLine(x, v))]
    ensures r.counter == st.counter && r.temps == st.temps
  {
    if k != v.kind then ReportError(st)
    else Emit(st, 1, AssignLine(x, v))
  }

  function AssignLine(x: string, v: ExprResult): string {
    if v.kind == Scalar then x + " = " + v.code + ";" else "vector_assign(&" + x + ", " + v.code + ");"
  }

  /**
   * An expression used as a statement: generated, then discarded with a
   * `(void)` cast (except for `scatter_plot`, which has no value), plus a
   * reminder comment when the value was a vector temporary.
   */
  function ExprStmtGen(env: Env, st: GenState, n: Node): (r: GenState)
    requires Resolved(env.syms, n)
    ensures Extends(st, r)
    ensures TempLogOK(st) ==> TempLogOK(r)
  {
    var s1 := Emit(st, 1, "// Expression/Call statement (value discarded)");
    var v := ExprGen(env, s1, n);
    var r := DiscardGen(v.st, n, v.res);
    ExtendsTransitive(st, s1, v.st);
    ExtendsTransitive(st, v.st, r);
    r
  }

  /** The lines that discard the value of an expression statement. */
  function DiscardGen(st: GenState, n: Node, v: ExprResult): (r: GenState)
    ensures r.counter == st.counter && r.errorFlag == st.errorFlag && r.temps == st.temps
    ensures r.out == st.out
                     + (if n.FuncCall? && n.callee == "scatter_plot" then [] else [Line(1, "(void)(" + v.code + "); // Discard result")])
                     + (if v.kind == Vector && !v.isTemporary then [Line(1, "// vector_free_data(&" + v.code + "); // Free temp vector result if needed")] else [])
  {
    var s2 := if !(n.FuncCall? && n.callee == "scatter_plot") then Emit(st, 1, "(void)(" + v.code + "); // Discard result") else st;
    if v.kind == Vector && !v.isTemporary then
      Emit(s2, 1, "// vector_free_data(&" + v.code + "); // Free temp vector result if needed")
    else s2
  }

  /** The statement loop of a block, over the first |ss| statements. */
  function StmtsGen(env: Env, ghost parent: Node, st: GenState, ss: seq<Node>): (r: GenState)
    requires forall i :: 0 <= i < |ss| ==> ss[i] < parent
    requires forall i :: 0 <= i < |ss| ==> Resolved(env.syms, ss[i])
    ensures Extends(st, r)
    ensures TempLogOK(st) ==> TempLogOK(r)
    ensures st.errorFlag ==> r == st
    decreases parent, 0, |ss|
  {
    if ss == [] then st
    else
      var s := StmtsGen(env, parent, st, ss[..|ss| - 1]);
      var r := StmtGen(env, s, ss[|ss| - 1]);
      ExtendsTransitive(st, s, r);
      r
  }

  // ---------------------------------------------------------------------------
  // declare_variables, generate_cleanup_code, generate_code
  // ---------------------------------------------------------------------------

  /** The declaration of one program variable, zero-initialised. */
  function SymbolDecl(s: Symbol): string {
    if s.Kind() == Scalar then Line(1, "double " + s.name + " = 0.0;") else Line(1, "Vector " + s.name + " = { NULL, 0 };")
  }

  /** The declarations of the first |syms| symbols of the table, in list order. */
  function SymbolDecls(syms: seq<Symbol>): seq<string>
    decreases |syms|
  {
    if syms == [] then [] else SymbolDecls(syms[..|syms| - 1]) + [SymbolDecl(syms[|syms| - 1])]
  }

  function ScalarTempDecl(i: nat): string {
    Line(1, "double " + ScalarTempName(i) + ";")
  }

  function VectorTempDecl(i: nat): string {
    Line(1, "Vector " + VectorTempName(i) + " = { NULL, 0 };")
  }

  /** Line `i` of the temporary pool: round i / 2 declares `_ts` first, then `_tv`. */
  function PoolDecl(i: nat): string {
    if i % 2 == 0 then ScalarTempDecl(i / 2) else VectorTempDecl(i / 2)
  }

  /** The first `n` rounds of the temporary pool: `_tsi` then `_tvi`, for i < n. */
  function PoolDecls(n: nat): (ds: seq<string>)
    ensures |ds| == 2 * n
  {
    seq(2 * n, i requires 0 <= i < 2 * n => PoolDecl(i))
  }

  /** One more round of the pool loop adds the two declarations of number n. */
  lemma PoolDeclsStep(n: nat)
    ensures PoolDecls(n + 1) == PoolDecls(n) + [ScalarTempDecl(n), VectorTempDecl(n)]
  {
    var a, b := PoolDecls(n + 1), PoolDecls(n) + [ScalarTempDecl(n), VectorTempDecl(n)];
    forall i | 0 <= i < |a|
      ensures a[i] == b[i]
    {
      if i == 2 * n + 1 {
        assert i / 2 == n && i % 2 == 1;
      } else if i == 2 * n {
        assert i / 2 == n && i % 2 == 0;
      }
    }
  }

  const DeclsHeader := [Line(1, "// --- Variable Declarations ---")]
  const PoolComment := "// Temporary variables (up to " + NatText(TempPoolSize) + " scalar, " + NatText(TempPoolSize) + " vector)"
  const DeclsFooter := [Line(1, "// ---------------------------"), Line(0, "")]

  /** Everything `declare_variables` writes. */
  function DeclLines(syms: seq<Symbol>): seq<string> {
    DeclsHeader + SymbolDecls(syms) + [Line(1, PoolComment)] + PoolDecls(TempPoolSize) + DeclsFooter
  }

  function FreeLine(name: string): string {
    Line(1, "vector_free_data(&" + name + ");")
  }

  /** A release for each Vector symbol among the first |syms|, in list order. */
  function VectorSymbolFrees(syms: seq<Symbol>): seq<string>
    decreases |syms|
  {
    if syms == [] then []
    else VectorSymbolFrees(syms[..|syms| - 1]) + (if syms[|syms| - 1].Kind() == Vector then [FreeLine(syms[|syms| - 1].name)] else [])
  }

  /** A release for each of `_tv0` .. `_tv(n-1)`. */
  function TempFrees(n: nat): seq<string>
    decreases n
  {
    if n == 0 then [] else TempFrees(n - 1) + [FreeLine(VectorTempName(n - 1))]
  }

  /** Everything `generate_cleanup_code` writes when the counter stands at `counter`. */
  function CleanupLines(syms: seq<Symbol>, counter: nat): seq<string> {
    [Line(1, "// --- Cleanup Code ---")]
    + VectorSymbolFrees(syms)
    + TempFrees(counter)
    + [Line(1, "// --------------------"), Line(0, "")]
  }

  /** The first lines of the generated file. */
  const Banner := [Line(0, "// Generated by WIZUALL Compiler"), Line(0, "")]

  /** The includes of the generated file: the C library and the plotting runtime. */
  const Includes := [
    Line(0, "#include <stdio.h>"),
    Line(0, "#include <stdlib.h>"),
    Line(0, "#include <math.h>"),
    Line(0, "#include <string.h> // For memcpy"),
    Line(0, "#include <stddef.h> // For size_t"),
    Line(0, "#include <assert.h>"),
    Line(0, "#include \"runtime_viz.h\" // Include viz function declarations"),
    Line(0, "")
  ]

  /** The start of `main`, after the runtime helpers. */
  const MainStart := [
    Line(0, "// --- Main Program ---"),
    Line(0, "int main() {"),
    Line(1, "printf(\"Executing generated code...\\n\");"),
    Line(0, "")
  ]

  /** The lines before the declarations: banner, includes, runtime helpers, start of `main`. */
  function Preamble(helpers: seq<string>): seq<string> {
    Banner + Includes + helpers + MainStart
  }

  const StatementsHeader := [Line(1, "// --- Program Statements ---")]
  const StatementsFooter := [Line(1, "// ------------------------"), Line(0, "")]

  const Postamble := [
    Line(1, "printf(\"Code execution finished.\\n\");"),
    Line(1, "return 0;"),
    Line(0, "} // end main")
  ]

  /** Everything written before the statements. */
  function ProgramHead(syms: seq<Symbol>, helpers: seq<string>): seq<string> {
    Preamble(helpers) + DeclLines(syms) + StatementsHeader
  }

  /** Everything written after the statements, when the counter stands at `counter`. */
  function ProgramTail(syms: seq<Symbol>, counter: nat): seq<string> {
    StatementsFooter + CleanupLines(syms, counter) + Postamble
  }

  /** `out` starts with `head` and ends with `tail`, the two not overlapping. */
  ghost predicate Framed(out: seq<string>, head: seq<string>, tail: seq<string>) {
    |head| + |tail| <= |out| && out[..|head|] == head && out[|out| - |tail|..] == tail
  }

  /**
   * Appending `tail` to a state whose output starts with `head`: the output
   * still starts with `head`, now ends with `tail`, and the temporaries are
   * untouched.
   */
  lemma EmitsFrame(s: GenState, head: seq<string>, tail: seq<string>)
    requires |head| <= |s.out| && s.out[..|head|] == head
    ensures Framed(Emits(s, tail).out, head, tail)
    ensures TempLogOK(s) ==> TempLogOK(Emits(s, tail))
  {
    AppendKeepsPrefix(s.out, tail, |head|);
    AppendEndsWith(s.out, tail);
  }

  /** The statements written after the head, from the reset state. */
  function ProgramBody(env: Env, head: seq<string>, root: Node): (r: GenState)
    requires Resolved(env.syms, root)
    ensures TempLogOK(r)
    ensures |head| <= |r.out| && r.out[..|head|] == head
  {
    var s1 := Emits(InitialState, head);
    assert s1.out == head;
    assert TempLogOK(s1);
    StmtGen(env, s1, root)
  }

  /**
   * `generate_code` once the root is a statement list and the file is open:
   * everything is written into a fresh file from the reset state, so the
   * result depends on the tree and the table only. `helpers` is the text of
   * the runtime helper functions. The file starts with the declarations and
   * ends with a cleanup that releases every vector temporary numbered below
   * the final counter.
   */
  function ProgramGen(env: Env, helpers: seq<string>, root: Node): (r: GenState)
    requires Resolved(env.syms, root)
    ensures TempLogOK(r)
    ensures Framed(r.out, ProgramHead(env.syms, helpers), ProgramTail(env.syms, r.counter))
  {
    var head := ProgramHead(env.syms, helpers);
    var s2 := ProgramBody(env, head, root);
    var tail := ProgramTail(env.syms, s2.counter);
    EmitsFrame(s2, head, tail);
    Emits(s2, tail)
  }
}
