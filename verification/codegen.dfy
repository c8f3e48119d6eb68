/**
 * The code generator of codegen.c as an object: `temp_var_counter`,
 * `codegen_error_occurred` and the lines written to `output_file` are fields
 * that the methods update step by step, as the C routines update the
 * file-level variables. Each method is proved to reach the state that the
 * matching function of CodegenSpec describes.
 */
module Codegen {
  import opened Decimal
  import opened Symtab
  import opened Ast
  import opened CodegenSpec

  class Generator {
    var counter: nat
    var errorFlag: bool
    var out: seq<string>
    /** The temporary names handed out since the last reset, in order. */
    ghost var temps: seq<string>

    ghost function State(): GenState
      reads this
    {
      GenState(counter, errorFlag, out, temps)
    }

    /** The file-level variables before any run: counter 0, no error, nothing written. */
    constructor ()
      ensures State() == InitialState
    {
      counter := 0;
      errorFlag := false;
      out := [];
      temps := [];
    }

    /** `emit`: four spaces per level, the text, and the end of the line. */
    method Emit(level: nat, text: string)
      modifies this
      ensures State() == CodegenSpec.Emit(old(State()), level, text)
    {
      var line := "";
      for i := 0 to level
        invariant line == Indent(i)
      {
        line := line + "    ";
      }
      out := out + [line + text];
    }

    /** `report_codegen_error`: raise the flag (the message itself goes to stderr). */
    method ReportError()
      modifies this
      ensures State() == CodegenSpec.ReportError(old(State()))
    {
      errorFlag := true;
    }

    /** `new_temp_scalar_var`: "_ts" and the counter, which then moves on. */
    method NewTempScalarVar() returns (name: string)
      modifies this
      ensures name == ScalarTempName(old(counter))
      ensures State() == AllocTemp(old(State()), Scalar)
    {
      name := "_ts" + NatText(counter);
      temps := temps + [name];
      counter := counter + 1;
    }

    /** `new_temp_vector_var`: "_tv" and the counter, which then moves on. */
    method NewTempVectorVar() returns (name: string)
      modifies this
      ensures name == VectorTempName(old(counter))
      ensures State() == AllocTemp(old(State()), Vector)
    {
      name := "_tv" + NatText(counter);
      temps := temps + [name];
      counter := counter + 1;
    }

    /** `generate_expression`. */
    method GenerateExpression(env: Env, n: Node) returns (r: ExprResult)
      requires Resolved(env.syms, n)
      modifies this
      ensures ExprStep(r, State()) == ExprGen(env, old(State()), n)
      decreases n, 3
    {
      if n == Null {
        return ExprResult("/* null expr */", Scalar, true);
      }
      if IsExpressionKind(n) {
        r := GenerateExpressionKind(env, n);
      } else {
        r := GenerateUnimplemented(n);
      }
    }

    /** The default case of `generate_expression`. */
    method GenerateUnimplemented(n: Node) returns (r: ExprResult)
      modifies this
      ensures ExprStep(r, State()) == UnimplementedExpr(old(State()), n)
    {
      var code := IntText(TypeCode(n));
      Emit(1, "// Expression generation not implemented for node type " + code);
      r := ExprResult("/* UNIMPL EXPR " + code + " */", Scalar, true);
    }

    /** The cases of the switch in `generate_expression`. */
    method GenerateExpressionKind(env: Env, n: Node) returns (r: ExprResult)
      requires IsExpressionKind(n)
      requires Resolved(env.syms, n)
      modifies this
      ensures ExprStep(r, State()) == ExprKindGen(env, old(State()), n)
      decreases n, 2
    {
      match n {
        case Number(v) =>
          r := ExprResult(env.numText(v), Scalar, true);
        case Identifier(s) =>
          r := ExprResult(s, KindOf(env.syms, s), true);
        case VectorLiteral(es) =>
          r := GenerateVectorLiteral(env, n, es);
        case BinaryOp(op, left, right) =>
          var l := GenerateExpression(env, left);
          var rr := GenerateExpression(env, right);
          r := GenerateBinaryDispatch(op, l, rr);
        case UnaryOp(op, operand) =>
          var o := GenerateExpression(env, operand);
          if o.kind == Scalar && op == '-' {
            var t := NewTempScalarVar();
            Emit(1, t + " = " + [op] + "(" + o.code + ");");
            r := ExprResult(t, Scalar, false);
          } else {
            ReportError();
            r := ExprResult("/* type error */ 0.0", Scalar, true);
          }
        case FuncCall(f, args) =>
          r := GenerateCall(env, n, f, args);
      }
    }

    /** The vector-literal case: a fresh vector temporary initialised from a C array of the elements. */
    method GenerateVectorLiteral(env: Env, ghost parent: Node, es: seq<Node>) returns (r: ExprResult)
      requires forall i :: 0 <= i < |es| ==> es[i] < parent
      requires forall i :: 0 <= i < |es| ==> Resolved(env.syms, es[i])
      modifies this
      ensures ExprStep(r, State()) == VectorLiteralGen(env, parent, old(State()), es)
      decreases parent, 1
    {
      var name := NewTempVectorVar();
      var count := |es|;
      Emit(1, "// Generating vector literal for " + name);
      Emit(1, "double " + InitDataName(name) + "[] = {");
      GenerateElements(env, parent, es);
      Emit(1, "};");
      Emit(1, VectorLiteralAssign(name, count));
      r := ExprResult(name, Vector, false);
    }

    /** The element loop of a vector literal: each element's code, then its initializer line. */
    method GenerateElements(env: Env, ghost parent: Node, es: seq<Node>)
      requires forall i :: 0 <= i < |es| ==> es[i] < parent
      requires forall i :: 0 <= i < |es| ==> Resolved(env.syms, es[i])
      modifies this
      ensures State() == ElemsGen(env, parent, old(State()), es, |es|)
      decreases parent, 0, |es|
    {
      var count := |es|;
      ghost var s0 := State();
      for i := 0 to count
        invariant State() == ElemsGen(env, parent, s0, es[..i], count)
      {
        ghost var before := State();
        var elem := GenerateExpression(env, es[i]);
        EmitElement(elem, i, count);
        PrefixStep(es, i);
      }
      PrefixWhole(es);
    }

    /** The initializer line of element `i` of `count`: its code, or 0.0 and a warning for a vector. */
    method EmitElement(elem: ExprResult, i: nat, count: nat)
      modifies this
      ensures State() == CodegenSpec.Emit(old(State()), 2, ElementText(elem, i, count))
    {
      var separator := if i == count - 1 then "" else ",";
      if elem.kind != Scalar {
        Emit(2, "/* WARNING: Non-scalar in vector literal */ 0.0" + separator);
      } else {
        Emit(2, elem.code + separator);
      }
    }

    /** The kind dispatch of a binary operation, as the if-chain in `generate_expression` runs it. */
    method GenerateBinaryDispatch(op: char, l: ExprResult, rr: ExprResult) returns (r: ExprResult)
      modifies this
      ensures ExprStep(r, State()) == LowerBinary(old(State()), op, l, rr)
    {
      r := DefaultResult;
      if l.kind == Scalar && rr.kind == Scalar {
        var t := NewTempScalarVar();
        Emit(1, t + " = (" + l.code + ") " + [op] + " (" + rr.code + ");");
        r := ExprResult(t, Scalar, false);
      } else if l.kind == Vector && rr.kind == Vector {
        var t := NewTempVectorVar();
        var opFunc := "";
        match op {
          case '+' => opFunc := "vector_add";
          case '-' => opFunc := "vector_sub";
          case '*' => opFunc := "vector_mul";
          case '/' => opFunc := "vector_div";
          case _ => Emit(1, "// ERROR: Unsupported vector binary op '" + [op] + "'");
        }
        if |opFunc| > 0 {
          Emit(1, t + " = " + opFunc + "(" + l.code + ", " + rr.code + ");");
          r := ExprResult(t, Vector, false);
        } else {
          r := ExprResult("/* Invalid vector op */", Vector, true);
        }
      } else if l.kind == Vector && rr.kind == Scalar && op == '+' {
        var t := NewTempVectorVar();
        Emit(1, t + " = vector_add_scalar(" + l.code + ", " + rr.code + ");");
        r := ExprResult(t, Vector, false);
      } else if l.kind == Scalar && rr.kind == Vector && op == '+' {
        var t := NewTempVectorVar();
        Emit(1, t + " = vector_add_scalar(" + rr.code + ", " + l.code + ");");
        r := ExprResult(t, Vector, false);
      } else if op == '+' {
        // the mixed-kind `+` inside the scalar-vector branch is never reached
        assert false;
      } else {
        ReportError();
      }
    }

    /** The function-call case: `read_vector` is handled before any argument is generated. */
    method GenerateCall(env: Env, ghost parent: Node, f: string, args: seq<Node>) returns (r: ExprResult)
      requires forall i :: 0 <= i < |args| ==> args[i] < parent
      requires forall i :: 0 <= i < |args| ==> Resolved(env.syms, args[i])
      modifies this
      ensures ExprStep(r, State()) == CallGen(env, parent, old(State()), f, args)
      decreases parent, 1
    {
      Emit(1, CallComment(f));
      if f == "read_vector" {
        r := GenerateReadVector(|args|);
      } else {
        r := GenerateOtherCall(env, parent, f, args);
      }
    }

    /** `read_vector()`: a fresh vector temporary filled at run time; arguments are an error. */
    method GenerateReadVector(argCount: nat) returns (r: ExprResult)
      modifies this
      ensures ExprStep(r, State()) == LowerReadVector(old(State()), argCount)
    {
      if argCount == 0 {
        var t := NewTempVectorVar();
        Emit(1, t + " = runtime_read_vector();");
        r := ExprResult(t, Vector, false);
      } else {
        ReportError();
        r := ExprResult("/* invalid read_vector call */", Vector, true);
      }
    }

    /** Any other call: the arguments, then `scatter_plot` or a generic call. */
    method GenerateOtherCall(env: Env, ghost parent: Node, f: string, args: seq<Node>) returns (r: ExprResult)
      requires f != "read_vector"
      requires forall i :: 0 <= i < |args| ==> args[i] < parent
      requires forall i :: 0 <= i < |args| ==> Resolved(env.syms, args[i])
      modifies this
      ensures ExprStep(r, State()) == OtherCallGen(env, parent, old(State()), f, args)
      decreases parent, 0, |args| + 1
    {
      var argResults := GenerateArguments(env, parent, args);
      r := GenerateCallResult(f, argResults);
    }

    /** The call itself, once its arguments are generated. */
    method GenerateCallResult(f: string, argResults: seq<ExprResult>) returns (r: ExprResult)
      requires f != "read_vector"
      modifies this
      ensures ExprStep(r, State()) == LowerCall(old(State()), f, argResults)
    {
      if f == "scatter_plot" {
        if |argResults| == 2 && argResults[0].kind == Vector && argResults[1].kind == Vector {
          Emit(1, ScatterPlotLine(argResults[0].code, argResults[1].code));
          r := ExprResult("/* scatter_plot call */", Scalar, true);
        } else {
          ReportError();
          r := ExprResult("/* invalid scatter_plot call */", Scalar, true);
        }
      } else {
        var argText := BuildArgText(argResults);
        var t := NewTempScalarVar();
        Emit(1, t + " = " + f + "(" + argText + "); // Generic function call result");
        r := ExprResult(t, Scalar, false);
      }
    }

    /** The argument loop of a call: each argument generated in order, its result kept. */
    method GenerateArguments(env: Env, ghost parent: Node, args: seq<Node>) returns (results: seq<ExprResult>)
      requires forall i :: 0 <= i < |args| ==> args[i] < parent
      requires forall i :: 0 <= i < |args| ==> Resolved(env.syms, args[i])
      modifies this
      ensures ArgsStep(results, State()) == ArgsGen(env, parent, old(State()), args)
      decreases parent, 0, |args|, 1
    {
      var argResults := new ExprResult[|args|];
      ghost var s0 := State();
      for i := 0 to |args|
        invariant ArgsGen(env, parent, s0, args[..i]).st == State()
        invariant ArgsGen(env, parent, s0, args[..i]).results == argResults[..i]
      {
        GenerateArgument(env, parent, args, i, argResults, s0);
      }
      PrefixWhole(args);
      results := argResults[..];
    }

    /** One round of the argument loop: generate argument `i` and store its result at index `i`. */
    method GenerateArgument(env: Env, ghost parent: Node, args: seq<Node>, i: nat, argResults: array<ExprResult>, ghost s0: GenState)
      requires i < |args| == argResults.Length
      requires forall i :: 0 <= i < |args| ==> args[i] < parent
      requires forall i :: 0 <= i < |args| ==> Resolved(env.syms, args[i])
      requires ArgsGen(env, parent, s0, args[..i]).st == State()
      requires ArgsGen(env, parent, s0, args[..i]).results == argResults[..i]
      modifies this, argResults
      ensures ArgsGen(env, parent, s0, args[..i + 1]).st == State()
      ensures ArgsGen(env, parent, s0, args[..i + 1]).results == argResults[..i + 1]
      decreases parent, 0, |args|, 0
    {
      ghost var before := ArgsGen(env, parent, s0, args[..i]);
      var a := GenerateExpression(env, args[i]);
      argResults[i] := a;
      PrefixStep(args, i);
      assert argResults[..i + 1] == before.results + [a];
    }

    /**
     * The argument text of a generic call, built piece by piece: a vector
     * argument passes its buffer and its length, arguments are separated by
     * ", ".
     */
    static method BuildArgText(rs: seq<ExprResult>) returns (text: string)
      ensures text == ArgText(rs)
    {
      text := "";
      for i := 0 to |rs|
        invariant text == ArgText(rs[..i])
      {
        if i > 0 {
          text := text + ", ";
        }
        if rs[i].kind == Vector {
          text := text + (rs[i].code + ".data, " + rs[i].code + ".size");
        } else {
          text := text + rs[i].code;
        }
        PrefixStep(rs, i);
      }
      PrefixWhole(rs);
    }

    /** `generate_statement`. */
    method GenerateStatement(env: Env, n: Node)
      requires Resolved(env.syms, n)
      modifies this
      ensures State() == StmtGen(env, old(State()), n)
      decreases n, 4
    {
      if errorFlag {
        return;
      }
      if IsExpressionKind(n) {
        GenerateExpressionStatement(env, n);
      } else {
        GenerateControlStatement(env, n);
      }
    }

    /** The statement kinds proper, and the fallback comment for any other kind. */
    method GenerateControlStatement(env: Env, n: Node)
      requires !IsExpressionKind(n)
      requires Resolved(env.syms, n)
      modifies this
      ensures State() == ControlStmtGen(env, old(State()), n)
      decreases n, 2
    {
      match n {
        case Null =>
        case StatementList(ss) =>
          GenerateBlock(env, n, ss);
        case Assignment(x, e) =>
          GenerateAssignment(env, n, x, e);
        case If(c, t, e) =>
          GenerateIf(env, n, c, t, e);
        case While(c, b) =>
          GenerateWhile(env, n, c, b);
        case Unknown(_) =>
          Emit(1, "// Statement generation not implemented for node type " + IntText(TypeCode(n)));
      }
    }

    /** A number, identifier, vector, operation or call used as a statement: its value is discarded. */
    method GenerateExpressionStatement(env: Env, n: Node)
      requires Resolved(env.syms, n)
      modifies this
      ensures State() == ExprStmtGen(env, old(State()), n)
      decreases n, 1
    {
      Emit(1, "// Expression/Call statement (value discarded)");
      var v := GenerateExpression(env, n);
      DiscardValue(n, v);
    }

    /** A `(void)` cast of the value, except after `scatter_plot`, and a reminder for a vector temporary. */
    method DiscardValue(n: Node, v: ExprResult)
      modifies this
      ensures State() == DiscardGen(old(State()), n, v)
    {
      if !(n.FuncCall? && n.callee == "scatter_plot") {
        Emit(1, "(void)(" + v.code + "); // Discard result");
      }
      if v.kind == Vector && !v.isTemporary {
        Emit(1, "// vector_free_data(&" + v.code + "); // Free temp vector result if needed");
      }
    }

    /** A block: its statements in order between braces. */
    method GenerateBlock(env: Env, ghost parent: Node, ss: seq<Node>)
      requires forall i :: 0 <= i < |ss| ==> ss[i] < parent
      requires forall i :: 0 <= i < |ss| ==> Resolved(env.syms, ss[i])
      modifies this
      ensures State() == BlockGen(env, parent, old(State()), ss)
      decreases parent, 1
    {
      Emit(1, "{ // Start block");
      ghost var s1 := State();
      for i := 0 to |ss|
        invariant State() == StmtsGen(env, parent, s1, ss[..i])
      {
        GenerateStatement(env, ss[i]);
        PrefixStep(ss, i);
      }
      PrefixWhole(ss);
      Emit(1, "} // End block");
    }

    /** An assignment: kinds of target and value must agree exactly. */
    method GenerateAssignment(env: Env, ghost parent: Node, x: string, e: Node)
      requires e < parent
      requires Declared(env.syms, x) && Resolved(env.syms, e)
      modifies this
      ensures State() == AssignGen(env, parent, old(State()), x, e)
      decreases parent, 1
    {
      var targetKind := KindOf(env.syms, x);
      Emit(1, "// Assignment to " + x + " (Type: " + IntText(KindCode(targetKind)) + ")");
      var v := GenerateExpression(env, e);
      AssignTail(x, targetKind, v);
    }

    /** After the right-hand side: stop if it raised an error, else compare the kinds and assign. */
    method AssignTail(x: string, targetKind: Kind, v: ExprResult)
      modifies this
      ensures State() == AssignTailGen(old(State()), x, targetKind, v)
    {
      if errorFlag {
        return;
      }
      Emit(1, "// RHS Type: " + IntText(KindCode(v.kind)));
      if !((targetKind == Scalar && v.kind == Scalar) || (targetKind == Vector && v.kind == Vector)) {
        ReportError();
      } else if targetKind == Scalar {
        Emit(1, x + " = " + v.code + ";");
      } else {
        Emit(1, "vector_assign(&" + x + ", " + v.code + ");");
      }
    }

    /** An if statement, with its optional else branch. */
    method GenerateIf(env: Env, ghost parent: Node, c: Node, t: Node, e: Node)
      requires c < parent && t < parent && e < parent
      requires Resolved(env.syms, c) && Resolved(env.syms, t) && Resolved(env.syms, e)
      modifies this
      ensures State() == IfGen(env, parent, old(State()), c, t, e)
      decreases parent, 1
    {
      Emit(1, "// If statement");
      var v := GenerateExpression(env, c);
      GenerateIfTail(env, parent, v, t, e);
    }

    /** After the condition: stop at `if (0) {` if it raised an error, else the branches. */
    method GenerateIfTail(env: Env, ghost parent: Node, v: ExprResult, t: Node, e: Node)
      requires t < parent && e < parent
      requires Resolved(env.syms, t) && Resolved(env.syms, e)
      modifies this
      ensures State() == IfTailGen(env, parent, old(State()), v, t, e)
      decreases parent, 0, 2
    {
      if errorFlag {
        Emit(1, IfConditionError);
        return;
      }
      OpenConditionalBlock(v, "if ((", IfConditionError);
      GenerateStatement(env, t);
      Emit(1, "}");
      GenerateElse(env, parent, e);
    }

    /** The else branch, when there is one. */
    method GenerateElse(env: Env, ghost parent: Node, e: Node)
      requires e < parent
      requires Resolved(env.syms, e)
      modifies this
      ensures State() == ElseGen(env, parent, old(State()), e)
      decreases parent, 0, 1
    {
      if e != Null {
        Emit(1, "else {");
        GenerateStatement(env, e);
        Emit(1, "}");
      }
    }

    /**
     * The line that opens the block of an if or a while: the C test of the
     * condition against 0.0, or, for a non-scalar condition, an error and a
     * block that is never entered.
     */
    method OpenConditionalBlock(v: ExprResult, opening: string, errorLine: string)
      modifies this
      ensures State() == OpenCondition(old(State()), v, opening, errorLine)
    {
      if v.kind != Scalar {
        ReportError();
        Emit(1, errorLine);
      } else {
        Emit(1, opening + v.code + ") != 0.0) {");
      }
    }

    /** A while loop; its condition is generated once, ahead of the loop. */
    method GenerateWhile(env: Env, ghost parent: Node, c: Node, b: Node)
      requires c < parent && b < parent
      requires Resolved(env.syms, c) && Resolved(env.syms, b)
      modifies this
      ensures State() == WhileGen(env, parent, old(State()), c, b)
      decreases parent, 1
    {
      Emit(1, "// While loop");
      var v := GenerateExpression(env, c);
      GenerateWhileTail(env, parent, v, b);
    }

    /** After the condition: stop at `while (0) {` if it raised an error, else the loop. */
    method GenerateWhileTail(env: Env, ghost parent: Node, v: ExprResult, b: Node)
      requires b < parent
      requires Resolved(env.syms, b)
      modifies this
      ensures State() == WhileTailGen(env, parent, old(State()), v, b)
      decreases parent, 0, 1
    {
      if errorFlag {
        Emit(1, WhileConditionError);
        return;
      }
      OpenConditionalBlock(v, "while ((", WhileConditionError);
      GenerateStatement(env, b);
      Emit(1, "} // End while");
    }

    /**
     * `declare_variables`: walk the table from the head declaring each symbol
     * by its kind, then the fixed pool of temporaries.
     */
    method DeclareVariables(table: SymbolTable)
      modifies this
      ensures State() == Emits(old(State()), DeclLines(table.symbols))
    {
      ghost var s0 := State();
      Emit(1, "// --- Variable Declarations ---");
      assert out == s0.out + DeclsHeader;
      DeclareSymbols(table);
      Emit(1, PoolComment);
      DeclareTempPool();
      Emit(1, "// ---------------------------");
      Emit(0, "");
      AppendFive(s0.out, DeclsHeader, SymbolDecls(table.symbols), [Line(1, PoolComment)], PoolDecls(TempPoolSize), DeclsFooter);
    }

    /** The symbol loop of `declare_variables`: one zero-initialised declaration per symbol, in list order. */
    method DeclareSymbols(table: SymbolTable)
      modifies this
      ensures State() == Emits(old(State()), SymbolDecls(table.symbols))
    {
      ghost var s1 := State();
      var i := 0;
      while i < |table.symbols|
        invariant 0 <= i <= |table.symbols|
        invariant out == s1.out + SymbolDecls(table.symbols[..i])
        invariant counter == s1.counter && errorFlag == s1.errorFlag && temps == s1.temps
      {
        var current := table.symbols[i];
        if current.Kind() == Scalar {
          Emit(1, "double " + current.name + " = 0.0;");
        } else {
          Emit(1, "Vector " + current.name + " = { NULL, 0 };");
        }
        PrefixStep(table.symbols, i);
        i := i + 1;
      }
      PrefixWhole(table.symbols);
    }

    /** The pool loop of `declare_variables`: `_tsj` and `_tvj` for every j below the pool size. */
    method DeclareTempPool()
      modifies this
      ensures State() == Emits(old(State()), PoolDecls(TempPoolSize))
    {
      ghost var s2 := State();
      for j := 0 to TempPoolSize
        invariant out == s2.out + PoolDecls(j)
        invariant counter == s2.counter && errorFlag == s2.errorFlag && temps == s2.temps
      {
        ghost var before := out;
        Emit(1, "double " + ScalarTempName(j) + ";");
        Emit(1, "Vector " + VectorTempName(j) + " = { NULL, 0 };");
        assert out == before + [ScalarTempDecl(j), VectorTempDecl(j)];
        PoolDeclsStep(j);
      }
    }

    /**
     * `generate_cleanup_code`: release every Vector symbol, then `_tv0` up to
     * the current counter.
     */
    method GenerateCleanupCode(table: SymbolTable)
      modifies this
      ensures State() == Emits(old(State()), CleanupLines(table.symbols, old(counter)))
    {
      ghost var s0 := State();
      Emit(1, "// --- Cleanup Code ---");
      FreeVectorSymbols(table);
      var tempCount := counter;
      FreeVectorTemps(tempCount);
      Emit(1, "// --------------------");
      Emit(0, "");
      AppendFour(s0.out, [Line(1, "// --- Cleanup Code ---")], VectorSymbolFrees(table.symbols),
                 TempFrees(tempCount), [Line(1, "// --------------------"), Line(0, "")]);
    }

    /** The symbol loop of `generate_cleanup_code`: a release for each Vector symbol, in list order. */
    method FreeVectorSymbols(table: SymbolTable)
      modifies this
      ensures State() == Emits(old(State()), VectorSymbolFrees(table.symbols))
    {
      ghost var s1 := State();
      var i := 0;
      while i < |table.symbols|
        invariant 0 <= i <= |table.symbols|
        invariant out == s1.out + VectorSymbolFrees(table.symbols[..i])
        invariant counter == s1.counter && errorFlag == s1.errorFlag && temps == s1.temps
      {
        var current := table.symbols[i];
        if current.Kind() == Vector {
          Emit(1, "vector_free_data(&" + current.name + ");");
        }
        PrefixStep(table.symbols, i);
        i := i + 1;
      }
      PrefixWhole(table.symbols);
    }

    /** The temporary loop of `generate_cleanup_code`: a release for each of `_tv0` .. `_tv(count-1)`. */
    method FreeVectorTemps(count: nat)
      modifies this
      ensures State() == Emits(old(State()), TempFrees(count))
    {
      ghost var s2 := State();
      for k := 0 to count
        invariant out == s2.out + TempFrees(k)
        invariant counter == s2.counter && errorFlag == s2.errorFlag && temps == s2.temps
      {
        Emit(1, "vector_free_data(&" + VectorTempName(k) + ");");
      }
    }

    /** The banner, the includes, the runtime helpers and the start of `main`. */
    method EmitPreamble(helpers: seq<string>)
      modifies this
      ensures State() == Emits(old(State()), Preamble(helpers))
    {
      ghost var s0 := State();
      Emit(0, "// Generated by WIZUALL Compiler");
      Emit(0, "");
      EmitIncludes();
      out := out + helpers;
      EmitMainStart();
      AppendFour(s0.out, Banner, Includes, helpers, MainStart);
    }

    /** The `#include` lines of the generated file. */
    method EmitIncludes()
      modifies this
      ensures State() == Emits(old(State()), Includes)
    {
      Emit(0, "#include <stdio.h>");
      Emit(0, "#include <stdlib.h>");
      Emit(0, "#include <math.h>");
      Emit(0, "#include <string.h> // For memcpy");
      Emit(0, "#include <stddef.h> // For size_t");
      Emit(0, "#include <assert.h>");
      Emit(0, "#include \"runtime_viz.h\" // Include viz function declarations");
      Emit(0, "");
    }

    /** The start of `main`, after the runtime helpers. */
    method EmitMainStart()
      modifies this
      ensures State() == Emits(old(State()), MainStart)
    {
      Emit(0, "// --- Main Program ---");
      Emit(0, "int main() {");
      Emit(1, "printf(\"Executing generated code...\\n\");");
      Emit(0, "");
    }

    /**
     * `generate_code`. A root that is NULL or not a statement list is refused,
     * and so is an output file that cannot be opened: nothing changes. Otherwise
     * the state is reset and the whole program written, so the result does not
     * depend on any earlier run. `helpers` is the text of the runtime helper
     * functions; `canOpen` says whether opening the output file succeeds.
     */
    method GenerateCode(root: Node, table: SymbolTable, numText: real -> string, helpers: seq<string>, canOpen: bool)
      requires Resolved(table.symbols, root)
      modifies this
      ensures !root.StatementList? || !canOpen ==> State() == old(State())
      ensures root.StatementList? && canOpen ==> State() == ProgramGen(Env(table.symbols, numText), helpers, root)
    {
      if root == Null || !root.StatementList? {
        return;
      }
      if !canOpen {
        return;
      }
      var env := Env(table.symbols, numText);
      out := [];
      counter := 0;
      errorFlag := false;
      temps := [];
      EmitPreamble(helpers);
      assert out == Preamble(helpers);
      DeclareVariables(table);
      Emit(1, "// --- Program Statements ---");
      assert State() == Emits(InitialState, ProgramHead(table.symbols, helpers));
      GenerateStatement(env, root);
      FinishProgram(table);
    }

    /** The end of `main`: the statements' closing comment, the cleanup, and the return. */
    method FinishProgram(table: SymbolTable)
      modifies this
      ensures State() == Emits(old(State()), ProgramTail(table.symbols, old(counter)))
    {
      ghost var s0 := State();
      Emit(1, "// ------------------------");
      Emit(0, "");
      GenerateCleanupCode(table);
      Emit(1, "printf(\"Code execution finished.\\n\");");
      Emit(1, "return 0;");
      Emit(0, "} // end main");
      assert out == s0.out + StatementsFooter + CleanupLines(table.symbols, s0.counter) + Postamble;
    }
  }
}
