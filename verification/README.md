# WIZUALL compiler back end in Dafny

WIZUALL is a small language of scalars and vectors that compiles to C. Its
back end has three parts, and each one is modelled here.

- **Symbol table (`symtab.c`).** A singly linked list of named symbols, each
  a scalar or a vector. New symbols are linked in at the head.
- **Syntax tree (`ast.c`).** Tree nodes, plus the growable node lists that hold
  vector elements, statements and call arguments.
- **Code generator (`codegen.c`).** It walks the tree. It emits one line of C
  at a time into the output file, names temporaries `_ts<n>` and `_tv<n>` from
  one shared counter, and sets a sticky error flag on every semantic error.

## Layout

- `wrappers.dfy`: `Option`, for NULL pointers and failures that end the process.
- `decimal.dfy`: the `%d` rendering of counters, node tags and kind codes.
- `symtab.dfy`: module `Symtab`.
  - The list is a `seq<Symbol>` whose index 0 is `symbol_list_head`.
  - A symbol's name is its handle.
  - `SymbolTable` is a class whose methods reassign the sequence.
- `ast.dfy`: module `Ast`.
  - The tree is a `Node` datatype; `Null` stands for a NULL pointer.
  - `ast_free_node` is the function `FreeTrace`, the ordered list of what it
    releases, with lemmas that every node and every list buffer is freed
    exactly once.
- `nodelist.dfy`: module `NodeLists`.
  - `NodeList` is a class over an `array` whose length is the capacity.
  - `ListNode` is a node whose list is still being filled by the parser.
  - It also holds the `ast_add_*` operations.
- `codegen_spec.dfy`: module `CodegenSpec`.
  - `GenState` holds the generator's global state: the temporary counter, the
    error flag and the lines written so far.
  - It also holds a ghost record of the temporaries handed out.
  - Every generator routine has a function over `GenState` saying what it
    does: `ExprGen` for `generate_expression`, `StmtGen` for
    `generate_statement`, `DeclLines`, `CleanupLines` and `ProgramGen`.
- `codegen.dfy`: class `Codegen.Generator`. It holds the mutable globals of
  `codegen.c` as fields, and each C routine is a method of it. Every method is
  proved to leave the state its specification function computes.
- `codegen_lemmas.dfy`: properties of those functions.
  - Temporaries are never named twice.
  - The exact output of a vector literal.
  - How assignment and `if`/`while` conditions check kinds, and what they emit
    on an error.
  - Declarations and cleanup list each symbol and temporary in place.

The output file is modelled as the sequence of lines written. Indentation is
four spaces per level, as in `emit`. The number `%f` prints for a literal is
given by a function parameter (`Env.numText`), because the model has no
floating point.

`generate_code` is modelled with two extra parameters:

- `helpers`: the lines that `generate_runtime_helpers` writes.
- `canOpen`: whether `fopen` succeeds.

Generation always runs to the end, even after an error. Once the flag is set,
later statements emit nothing. An `if` or `while` whose condition fails leaves
its block open in the output, because the source stops right after the
`if (0) {` line.

If a program needs more than 20 temporaries, the generated code names
`_tv20` and beyond, which `declare_variables` never declares. The cleanup code
also frees `_tv<k>` for every counter value below the final counter, including
the values that were used for scalar temporaries.
`CodegenLemmas.CleanupReachesBeyondPool` states this.

## Model

| member | source | states |
|---|---|---|
| Decimal.NatText | wizuallc/src/codegen.c:69 | the `%d` text of a counter is one or more decimal digits; it is one digit exactly when the number is below 10 |
| Decimal.IntText | wizuallc/src/codegen.c:523-524 | the `%d` text of a node tag starts with `-` exactly when the tag is negative |
| Decimal.DigitsValueOfNatText | wizuallc/src/codegen.c:69 | reading the printed digits back yields the counter value, so printing loses nothing |
| Decimal.NatTextInjective | wizuallc/src/codegen.c:67-77 | two different counter values never print the same text |
| Symtab.KindCode | wizuallc/include/symtab.h:9-13 | the printed kind code is 1 exactly for a scalar and 2 exactly for a vector, as the enum order gives |
| Symtab.Find | wizuallc/src/symtab.c:25-35 | the walk from the head stops at the first symbol with that name; no earlier symbol has it; it finds nothing exactly when no symbol has it |
| Symtab.FreeValueData | wizuallc/src/symtab.c:12-19 | afterwards the payload owns no buffer and keeps its kind; a vector with a buffer becomes an empty vector with size 0; any other payload is unchanged |
| Symtab.CopiedVector | wizuallc/src/symtab.c:90-105 | the stored vector has the given size; it owns a buffer exactly when the size is non-zero and data is non-NULL; that buffer equals the first `size` inputs |
| Symtab.InsertIdempotent | wizuallc/src/symtab.c:43-46 | after an insert the name is declared, and a second insert of that name changes nothing |
| Symtab.InsertKeepsNamesDistinct | wizuallc/src/symtab.c:37-72 | insertion keeps names unique; an existing name leaves the length alone; a new name adds one scalar 0.0 symbol at the head, in front of the old list |
| Symtab.InsertedAllIsMostRecentFirst | wizuallc/src/symtab.c:67-69 | inserting fresh distinct names lists them newest first, ahead of the symbols already present |
| Symtab.RestStayUndeclared | wizuallc/src/symtab.c:43-46 | after one of several fresh distinct names is inserted, the others are still not found |
| Symtab.SymbolTable.constructor | wizuallc/src/symtab.c:7 | the table starts empty |
| Symtab.SymbolTable.ListHead | wizuallc/include/symtab.h:90 | returns NULL exactly when the table is empty, otherwise the most recently inserted symbol |
| Symtab.SymbolTable.Lookup | wizuallc/src/symtab.c:25-35 | a NULL name finds nothing; a non-NULL name finds a symbol exactly when one is declared, and it is the first one on the list with that name |
| Symtab.SymbolTable.Insert | wizuallc/src/symtab.c:37-72 | returns the existing symbol and leaves the table alone, or links a new scalar 0.0 symbol in at the head; names stay unique |
| Symtab.SymbolTable.SetScalar | wizuallc/src/symtab.c:74-82 | a NULL handle does nothing; otherwise only that symbol changes, to a scalar holding the value |
| Symtab.SymbolTable.SetVector | wizuallc/src/symtab.c:84-106 | a NULL handle does nothing; otherwise only that symbol changes, to a vector of the given size holding a copy of the data |
| Symtab.SymbolTable.Destroy | wizuallc/src/symtab.c:137-150 | the table ends empty; the symbols are released in list order from the head |
| Ast.TypeCode | wizuallc/include/ast.h:10-22 | each known kind prints its enum value: number 1, vector 2, identifier 3, binary 4, unary 5, assignment 6, statement list 7, if 8, while 9, call 10; an unknown kind prints its raw tag |
| Ast.Children | wizuallc/src/ast.c:159-217 | the children `ast_free_node` recurses into, in its order, are all strictly smaller than the node |
| Ast.FreeTrace | wizuallc/src/ast.c:156-221 | NULL releases nothing; any other node is released last, after its children; an unknown kind records the unknown-type warning with its tag just before the node is freed |
| Ast.FreeTraceFreesEachNodeOnce | wizuallc/src/ast.c:156-221 | every node of the tree is freed exactly once, and nothing outside the tree is freed |
| Ast.FreeTraceFreesEachListOnce | wizuallc/src/ast.c:179-211 | the item buffer of every non-empty vector, statement list and call is freed exactly once, and no other buffer is freed; an empty list never allocated one |
| Ast.OwnFreesFreed | wizuallc/src/ast.c:184-220 | a node's own step frees the node once, and its list buffer once when it has one |
| NodeLists.GrownCapacity | wizuallc/src/ast.c:15 | a full list grows from capacity 0 to 8, or else to twice its capacity, so it always grows |
| NodeLists.CapacityAfterBounds | wizuallc/src/ast.c:13-26 | after n appends the capacity holds all n items; for n > 0 it is at least 8 and at most max(8, 2(n-1)) |
| NodeLists.CapacityAfterIsLeastStage | wizuallc/src/ast.c:13-26 | after n > 0 appends the capacity is one of 8, 16, 32, ..., holds all n items, and is the least such stage: it is 8 or its half is below n |
| NodeLists.NodeList.constructor | wizuallc/src/ast.c:89-91 | a new list has no items, count 0 and capacity 0 |
| NodeLists.NodeList.EnsureCapacity | wizuallc/src/ast.c:13-26 | afterwards there is room for one more item; the items are kept; a full list moves to a fresh array of the grown capacity, and a list with room keeps its array |
| NodeLists.NodeList.Append | wizuallc/src/ast.c:133-134 | the contents gain the element at the end and the capacity invariant holds |
| NodeLists.ListNode.constructor | wizuallc/src/ast.c:87-102 | a new vector or statement-list node has the requested tag and an empty list |
| NodeLists.ListNode.Tree | wizuallc/src/ast.c:87-102 | a vector or statement-list node under construction is the tree node of that kind (enum value 2 or 7) whose children are the list's items in order |
| NodeLists.AddToListNode | wizuallc/src/ast.c:130-143 | appends exactly when the node is non-NULL, has the right kind and the element is non-NULL; otherwise the list is unchanged |
| NodeLists.AddVectorElement | wizuallc/src/ast.c:130-135 | appends only to a vector node and only a non-NULL element; otherwise nothing changes; the node's `Tree` gains the element as its last child |
| NodeLists.AddStatement | wizuallc/src/ast.c:138-143 | appends only to a statement-list node and only a non-NULL statement; otherwise nothing changes; the node's `Tree` gains the statement as its last child |
| NodeLists.AddArgument | wizuallc/src/ast.c:146-150 | appends to a non-NULL list when the argument is non-NULL; otherwise nothing changes |
| NodeLists.NewFuncCall | wizuallc/src/ast.c:122-127 | the call node names the callee and holds exactly the list's current items, in order |
| CodegenSpec.Indent | wizuallc/src/codegen.c:54-56 | indentation is four spaces per level |
| CodegenSpec.Emit | wizuallc/src/codegen.c:52-62 | appends exactly one indented line and changes nothing else |
| CodegenSpec.Emits | wizuallc/src/codegen.c:52-62 | a run of emits appends those lines in order and changes nothing else |
| CodegenSpec.ReportError | wizuallc/src/codegen.c:39-47 | sets the error flag and leaves the output and counter alone |
| CodegenSpec.AllocTemp | wizuallc/src/codegen.c:67-77 | takes the next counter value, then increments the counter; the temporary log stays numbered by counter value |
| CodegenSpec.ExprGen | wizuallc/src/codegen.c:273-531 | output only grows; the counter never decreases; a set error flag stays set; a result marked as a declared variable is a temporary allocated by this call |
| CodegenSpec.ExprKindGen | wizuallc/src/codegen.c:288-529 | the same invariants for each node kind of the switch |
| CodegenSpec.UnimplementedExpr | wizuallc/src/codegen.c:522-528 | an unhandled kind gets one comment line naming its tag and the placeholder code `/* UNIMPL EXPR <tag> */`; nothing else changes |
| CodegenSpec.VectorLiteralGen | wizuallc/src/codegen.c:303-328 | the result is the vector temporary `_tv<counter>` taken before its elements are generated, and it counts as a declared variable |
| CodegenSpec.UnaryGen | wizuallc/src/codegen.c:407-426 | the expression invariants hold for unary operations |
| CodegenSpec.BinaryGen | wizuallc/src/codegen.c:330-405 | the expression invariants hold for binary operations (the operand order is stated by `CodegenLemmas.BinaryOperandsInOrder`) |
| CodegenSpec.CallGen | wizuallc/src/codegen.c:428-520 | the expression invariants hold for calls |
| CodegenSpec.OtherCallGen | wizuallc/src/codegen.c:453-519 | the expression invariants hold for calls other than `read_vector` |
| CodegenSpec.ElemsGen | wizuallc/src/codegen.c:311-320 | generating the elements only extends the state and keeps the temporary log numbered |
| CodegenSpec.ArgsGen | wizuallc/src/codegen.c:455-460 | there is one result per argument, in order, and the state is only extended |
| CodegenSpec.VectorOpFunc | wizuallc/src/codegen.c:346-353 | a runtime function exists exactly for `+ - * /`: `vector_add`, `vector_sub`, `vector_mul` and `vector_div` respectively |
| CodegenSpec.LowerBinary | wizuallc/src/codegen.c:334-399 | the error is set exactly for mixed kinds with an operator other than `+`; the result is a vector exactly when a vector operand survives; no temporary is spent on an error; the result is a declared temporary unless there is an error or an unsupported vector operator; two scalars write `_ts<counter> = (l) op (r);`, two vectors write `_tv<counter> = vector_<op>(l, r);`, and an unsupported vector operator writes only its error comment |
| CodegenSpec.LowerUnary | wizuallc/src/codegen.c:410-423 | only scalar negation succeeds: it yields the temporary `_ts<counter>` and writes the one line `_ts<counter> = -(code);`; anything else sets the error and emits nothing |
| CodegenSpec.LowerReadVector | wizuallc/src/codegen.c:436-451 | with no arguments, `_tv<counter>` gets one `runtime_read_vector()` line; with arguments, the error is set and nothing is emitted |
| CodegenSpec.LowerCall | wizuallc/src/codegen.c:462-510 | `scatter_plot` emits its line only for two vector arguments and otherwise sets the error; any other callee stores a scalar result in `_ts<counter>` with the one line `_ts<counter> = f(<argument text>); // Generic function call result` |
| CodegenSpec.StmtGen | wizuallc/src/codegen.c:536-680 | a NULL statement, or any statement once the error flag is set, changes nothing; otherwise the state is only extended and temporaries stay numbered |
| CodegenSpec.StmtKindGen | wizuallc/src/codegen.c:544-679 | the statement invariants hold for each node kind of the switch |
| CodegenSpec.ControlStmtGen | wizuallc/src/codegen.c:545-678 | the statement invariants hold for blocks, assignments, `if`, `while` and unknown kinds |
| CodegenSpec.UnimplementedStmt | wizuallc/src/codegen.c:676-678 | an unhandled statement kind gets one comment line naming its tag |
| CodegenSpec.BlockGen | wizuallc/src/codegen.c:545-551 | a block only extends the state |
| CodegenSpec.StmtsGen | wizuallc/src/codegen.c:547-549 | once the error flag is set, the remaining statements change nothing |
| CodegenSpec.AssignGen | wizuallc/src/codegen.c:553-588 | an assignment only extends the state |
| CodegenSpec.AssignTailGen | wizuallc/src/codegen.c:560-581 | when the right-hand side failed, nothing more is emitted |
| CodegenSpec.AssignOrReport | wizuallc/src/codegen.c:567-581 | the error is set exactly when the kinds differ; matching kinds emit one scalar or vector assignment line; differing kinds emit nothing |
| CodegenSpec.OpenCondition | wizuallc/src/codegen.c:621-627 | a non-scalar condition sets the error and writes the `if (0)` / `while (0)` line; a scalar condition writes the test against 0.0 |
| CodegenSpec.IfGen | wizuallc/src/codegen.c:613-641 | an `if` only extends the state |
| CodegenSpec.IfTailGen | wizuallc/src/codegen.c:617-640 | the part after the condition only extends the state |
| CodegenSpec.ElseGen | wizuallc/src/codegen.c:635-639 | a missing else branch emits nothing |
| CodegenSpec.WhileGen | wizuallc/src/codegen.c:643-674 | a `while` only extends the state |
| CodegenSpec.WhileTailGen | wizuallc/src/codegen.c:647-669 | the part after the condition only extends the state |
| CodegenSpec.ExprStmtGen | wizuallc/src/codegen.c:591-611 | an expression statement only extends the state |
| CodegenSpec.DiscardGen | wizuallc/src/codegen.c:600-610 | the value is discarded with `(void)` unless the statement calls `scatter_plot`; a declared vector temporary gets the commented-out free line |
| CodegenSpec.PoolDecls | wizuallc/src/codegen.c:240-243 | the pool declares two variables per index |
| CodegenSpec.PoolDeclsStep | wizuallc/src/codegen.c:240-243 | each loop round adds the declarations of `_ts<i>` and then `_tv<i>` |
| CodegenSpec.EmitsFrame | wizuallc/src/codegen.c:727-732 | emitting the closing lines keeps what was written before and ends the output with exactly those lines |
| CodegenSpec.ProgramBody | wizuallc/src/codegen.c:696-723 | the statements are generated after the head lines, which stay at the start of the output; the temporaries are numbered from 0 |
| CodegenSpec.ProgramGen | wizuallc/src/codegen.c:696-732 | the generated file begins with the banner, includes, helpers, main start, declarations and statement header; it ends with the statement footer, cleanup and postamble; temporaries are numbered from 0 |
| Codegen.Generator.constructor | wizuallc/src/codegen.c:19-21 | the generator starts with counter 0, no error and no output |
| Codegen.Generator.Emit | wizuallc/src/codegen.c:52-62 | the state becomes `CodegenSpec.Emit` of the old state |
| Codegen.Generator.ReportError | wizuallc/src/codegen.c:39-47 | the state becomes `CodegenSpec.ReportError` of the old state |
| Codegen.Generator.NewTempScalarVar | wizuallc/src/codegen.c:67-71 | returns `_ts` followed by the old counter and increments the counter |
| Codegen.Generator.NewTempVectorVar | wizuallc/src/codegen.c:73-77 | returns `_tv` followed by the old counter and increments the counter |
| Codegen.Generator.GenerateExpression | wizuallc/src/codegen.c:273-531 | the result and new state are those `ExprGen` gives |
| Codegen.Generator.GenerateExpressionKind | wizuallc/src/codegen.c:288-529 | the result and new state are those `ExprKindGen` gives |
| Codegen.Generator.GenerateUnimplemented | wizuallc/src/codegen.c:522-528 | follows `UnimplementedExpr` |
| Codegen.Generator.GenerateVectorLiteral | wizuallc/src/codegen.c:303-328 | follows `VectorLiteralGen` |
| Codegen.Generator.GenerateElements | wizuallc/src/codegen.c:311-320 | the element loop follows `ElemsGen` |
| Codegen.Generator.EmitElement | wizuallc/src/codegen.c:314-318 | writes one element line: the scalar code, or the non-scalar warning, with a comma after every element but the last |
| Codegen.Generator.GenerateBinaryDispatch | wizuallc/src/codegen.c:334-399 | follows `LowerBinary` |
| Codegen.Generator.GenerateCall | wizuallc/src/codegen.c:428-520 | follows `CallGen` |
| Codegen.Generator.GenerateReadVector | wizuallc/src/codegen.c:436-451 | follows `LowerReadVector` |
| Codegen.Generator.GenerateOtherCall | wizuallc/src/codegen.c:453-519 | follows `OtherCallGen` |
| Codegen.Generator.GenerateArguments | wizuallc/src/codegen.c:455-460 | the argument loop follows `ArgsGen` |
| Codegen.Generator.GenerateArgument | wizuallc/src/codegen.c:459 | one round of the argument loop extends `ArgsGen` by one argument |
| Codegen.Generator.GenerateCallResult | wizuallc/src/codegen.c:462-510 | follows `LowerCall` |
| CodegenSpec.ArgTextSingle | wizuallc/src/codegen.c:487-497 | one argument is passed as its part alone, with no separator |
| CodegenSpec.ArgTextSnoc | wizuallc/src/codegen.c:489-497 | each further argument is added after exactly one `, ` |
| CodegenSpec.ArgTextAppend | wizuallc/src/codegen.c:487-497 | the text of two non-empty runs of arguments is their texts joined by one `, `, so separators fall only between arguments |
| Codegen.Generator.BuildArgText | wizuallc/src/codegen.c:485-499 | the loop builds `ArgText`: the arguments separated by `, `, with each vector passed as `.data, .size` |
| Codegen.Generator.GenerateStatement | wizuallc/src/codegen.c:536-680 | the new state is the one `StmtGen` gives |
| Codegen.Generator.GenerateControlStatement | wizuallc/src/codegen.c:544-679 | follows `ControlStmtGen` |
| Codegen.Generator.GenerateExpressionStatement | wizuallc/src/codegen.c:591-611 | follows `ExprStmtGen` |
| Codegen.Generator.DiscardValue | wizuallc/src/codegen.c:600-610 | follows `DiscardGen` |
| Codegen.Generator.GenerateBlock | wizuallc/src/codegen.c:545-551 | follows `BlockGen` |
| Codegen.Generator.GenerateAssignment | wizuallc/src/codegen.c:553-588 | follows `AssignGen` |
| Codegen.Generator.AssignTail | wizuallc/src/codegen.c:560-581 | follows `AssignTailGen` |
| Codegen.Generator.GenerateIf | wizuallc/src/codegen.c:613-641 | follows `IfGen` |
| Codegen.Generator.GenerateIfTail | wizuallc/src/codegen.c:617-640 | follows `IfTailGen` |
| Codegen.Generator.GenerateElse | wizuallc/src/codegen.c:635-639 | follows `ElseGen` |
| Codegen.Generator.OpenConditionalBlock | wizuallc/src/codegen.c:621-627 | follows `OpenCondition` |
| Codegen.Generator.GenerateWhile | wizuallc/src/codegen.c:643-674 | follows `WhileGen` |
| Codegen.Generator.GenerateWhileTail | wizuallc/src/codegen.c:647-669 | follows `WhileTailGen` |
| Codegen.Generator.DeclareVariables | wizuallc/src/codegen.c:225-246 | appends exactly `DeclLines` of the table |
| Codegen.Generator.DeclareSymbols | wizuallc/src/codegen.c:227-237 | the list walk appends one declaration per symbol, from the head |
| Codegen.Generator.DeclareTempPool | wizuallc/src/codegen.c:240-243 | the loop appends the 20 pairs `_ts<i>`, `_tv<i>` |
| Codegen.Generator.GenerateCleanupCode | wizuallc/src/codegen.c:251-266 | appends exactly `CleanupLines` for the table and the counter at entry |
| Codegen.Generator.FreeVectorSymbols | wizuallc/src/codegen.c:253-259 | the list walk appends one free line per vector symbol, from the head |
| Codegen.Generator.FreeVectorTemps | wizuallc/src/codegen.c:261-263 | the loop appends one free line for each `_tv<i>` with i below the counter |
| Codegen.Generator.EmitPreamble | wizuallc/src/codegen.c:700-716 | appends the banner, includes, helper lines and main start |
| Codegen.Generator.EmitIncludes | wizuallc/src/codegen.c:702-709 | appends the include lines |
| Codegen.Generator.EmitMainStart | wizuallc/src/codegen.c:713-716 | appends the start of `main` |
| Codegen.Generator.FinishProgram | wizuallc/src/codegen.c:724-732 | appends the statement footer, the cleanup code and the postamble |
| Codegen.Generator.GenerateCode | wizuallc/src/codegen.c:685-744 | a non-list root or an output file that will not open changes nothing; otherwise the state becomes `ProgramGen` |
| CodegenLemmas.TempNameInjective | wizuallc/src/codegen.c:67-77 | two temporaries share a name exactly when they have the same kind and counter value |
| CodegenLemmas.TempLogDistinct | wizuallc/src/codegen.c:67-77 | the temporaries handed out by one run are pairwise distinct |
| CodegenLemmas.ProgramTempsDistinct | wizuallc/src/codegen.c:696-732 | a whole generation run hands out exactly `counter` temporaries, all distinct |
| CodegenLemmas.LeafResult | wizuallc/src/codegen.c:289-301 | a number is a scalar fragment; a variable is a fragment holding its name, of the variable's kind |
| CodegenLemmas.LeafGeneratesNoCode | wizuallc/src/codegen.c:289-301 | a number or variable writes nothing, spends no temporary and raises no error |
| CodegenLemmas.LeafElementLines | wizuallc/src/codegen.c:311-320 | there is one element line per literal element |
| CodegenLemmas.LeafElementLineAt | wizuallc/src/codegen.c:313-318 | element line i is element i's text, with a comma unless it is the last |
| CodegenLemmas.ElemsOfLeaves | wizuallc/src/codegen.c:311-320 | number and variable elements emit exactly their element lines, spend no temporaries and raise no error |
| CodegenLemmas.VectorLiteralOfLeaves | wizuallc/src/codegen.c:303-328 | a literal of numbers and variables yields the declared temporary `_tv<counter>` and spends one temporary; its output is the comment, the array opening, one line per element, the closing brace and the `vector_assign` line |
| CodegenLemmas.VectorLiteralElementLine | wizuallc/src/codegen.c:313-318 | element i is written on line i + 2 of the literal: a scalar as its code, a vector variable as `/* WARNING: Non-scalar in vector literal */ 0.0`, in both cases with a comma unless last; the error flag is unchanged |
| CodegenLemmas.BinaryOperandsInOrder | wizuallc/src/codegen.c:330-334 | the left operand is generated first, the right one from the state it leaves, and the operation is lowered from the state after both |
| CodegenLemmas.CallDispatch | wizuallc/src/codegen.c:428-434 | a call node is handled by the call case, whatever the callee |
| CodegenLemmas.ReadVectorWithArguments | wizuallc/src/codegen.c:434-451 | `read_vector` with arguments writes only the call comment, spends no temporary, sets the error and never generates its arguments |
| CodegenLemmas.ScatterPlotLowering | wizuallc/src/codegen.c:453-466 | `scatter_plot` generates its arguments in order after the call comment, then is lowered from the state they leave |
| CodegenLemmas.ScatterPlotCall | wizuallc/src/codegen.c:453-481 | after the comment and the arguments, `scatter_plot` writes nothing more and sets the error unless it has exactly two vector arguments, in which case it writes the `c_scatter_plot` line |
| CodegenLemmas.BlockWrapsStatements | wizuallc/src/codegen.c:545-551 | a block writes `{ // Start block`, its statements in order from there, then `} // End block`, also when a statement inside raised an error |
| CodegenLemmas.AssignmentChecksKinds | wizuallc/src/codegen.c:559-581 | when the right-hand side succeeds, the error is set exactly when the target and value kinds differ; the output gains the RHS-type comment, plus the assignment line exactly when the kinds match |
| CodegenLemmas.IfConditionErrorLeavesBlockOpen | wizuallc/src/codegen.c:617-620 | if the condition fails, the statement ends after the `if (0) {` line, with no closing brace and no branches |
| CodegenLemmas.IfNonScalarCondition | wizuallc/src/codegen.c:621-639 | a vector condition sets the error and writes `if (0) {`, then closes the block; an else branch becomes an empty `else {}`; neither branch emits code |
| CodegenLemmas.IfScalarConditionOpens | wizuallc/src/codegen.c:624-627 | a scalar condition opens the block with a test of its code against 0.0 |
| CodegenLemmas.WhileConditionErrorLeavesBlockOpen | wizuallc/src/codegen.c:647-650 | if the condition fails, the statement ends after the `while (0) {` line |
| CodegenLemmas.WhileNonScalarCondition | wizuallc/src/codegen.c:651-669 | a vector condition sets the error and writes `while (0) {` and the end-of-while line, with no body code |
| CodegenLemmas.SymbolDeclsInOrder | wizuallc/src/codegen.c:227-237 | declaration i is that of symbol i from the head, one per symbol |
| CodegenLemmas.PoolDeclsAt | wizuallc/src/codegen.c:240-243 | the pool declares `_ts<k>` at line 2k and `_tv<k>` at line 2k+1 |
| CodegenLemmas.DeclLinesLayout | wizuallc/src/codegen.c:225-246 | the declaration block has `|symbols| + 44` lines; symbol i is declared on line 1+i, and the pool pairs follow the pool comment |
| CodegenLemmas.TempFreesAt | wizuallc/src/codegen.c:261-263 | the temporary cleanup frees `_tv<i>` on line i, for every i below the counter |
| CodegenLemmas.VectorSymbolFreesExactly | wizuallc/src/codegen.c:253-259 | a free line appears for a name exactly when that name is a vector symbol |
| CodegenLemmas.CleanupReachesBeyondPool | wizuallc/src/codegen.c:239-263 | past 20 temporaries, the cleanup frees `_tv20`, which differs from every declared `_tv<k>` |

## Left out

- `main.c`, the lexer and parser, `runtime_viz.c` and the compiled program's runtime are not part of this model.
- `generate_runtime_helpers` (codegen.c:80-220) is not modelled line by line. The lines it writes are the `helpers` parameter of `GenerateCode`.
- File handling is reduced to the `canOpen` parameter. This covers `fopen`, `fclose`, `perror`, the diagnostics on stderr and the completion message on stdout.
- `emit`'s check for a NULL file is not modelled. Generation only runs with an open file.
- The text of semantic error messages is not modelled, only the flag that `report_codegen_error` sets.
- Real numbers are not formatted by `%f`; the `numText` parameter gives each literal's text. The `%ld` count in `vector_assign` is printed as a natural number.
- Fixed-size buffers are not modelled: `snprintf` into 16-, 64-, 128- and 256-byte buffers, and the `strncat` capacity of `arg_count * 25 + 5`. Long names or argument lists would be truncated in C but never are in the model.
- `BuildArgText`: does not model the `strncat` truncation.
- Memory bookkeeping is not modelled: `strdup`/`free` of code strings, the `is_temporary` free decisions, the leaked `while` condition and the `calloc` of argument results. `isTemporary` is kept only because it decides output (codegen.c:608-610).
- `malloc`/`realloc` failure exits are not modelled, nor are `int`/`size_t` overflows of the counters. Both are unbounded here.
- `Symtab.SymbolTable.Insert`: a NULL name makes the C process exit; the model returns None and leaves the table unchanged.
- `SYMBOL_TYPE_UNDEFINED` is never given to a symbol, so the branches for it are not modelled: codegen.c:233-235 and the final mismatch branch at 395-399.
- The scalar-plus-vector `+` at codegen.c:385-390 is never reached (codegen.c:366-381 handle it first), so it is not modelled.
- The C `assert`s on symbol pointers (codegen.c:297, 429, 554) are replaced by the `Resolved` precondition: every identifier and assignment target names a declared symbol. A callee is used only by its name, which the parser resolved, so `Resolved` says nothing about it.
- `Resolved` also gives an unknown node a tag that no known kind has (0 or a value above 10). A C node whose tag is 1 to 10 is already the corresponding `Node` variant.
- `CodegenSpec.VectorLiteralGen`: the exact output is stated only for literals whose elements are numbers or variables (`VectorLiteralOfLeaves`). Nested expressions write their own lines between the element lines.
- `symbol_get_list_head` is only declared (symtab.h:90); its definition is not part of this model. `ListHead` gives it the meaning its name and callers imply.
- `symbol_print_table`, `print_ast` and the rest of ast.c after line 221 are diagnostics output and are not modelled.
- `ast_new_node`, `ast_new_number`, `ast_new_identifier`, `ast_new_binary_op`, `ast_new_unary_op`, `ast_new_assignment`, `ast_new_if` and `ast_new_while` (ast.c:33-119) are the constructors of the `Ast.Node` datatype. Their pointer identity and aliasing are not modelled; a tree is a value.
- `Symtab.SymbolTable.Destroy`: releasing each name and payload is recorded as the ghost list of released names, not as memory.
