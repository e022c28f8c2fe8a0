# loxidize in Dafny

A model of the arithmetic core of loxidize, a bytecode interpreter for Lox written in Rust. The model follows one source through the whole pipeline:

- A hand-written parser turns a lexed token stream into an expression tree.
- A bytecode compiler walks the tree in post-order. It appends constant loads and operator bytes to a bytecode unit, then appends `Ret` and marks the unit finished.
- A virtual machine with a 10-slot value stack runs the unit in a fetch/dispatch loop until `Ret`, and prints the popped value.

The integration test's extraction of the expected output from `// expect: ` comments is modelled too.

Each source file becomes one module:

| module | file |
|---|---|
| `Opcodes` | `opcodes.dfy` |
| `Values` | `lox_value.dfy` |
| `Tokens` | `token.dfy` |
| `Ast` | `ast.dfy` |
| `Visit` | `visit.dfy` |
| `Parser` | `parser.dfy` |
| `Bytecodes` | `bytecode.dfy` |
| `BytecodeCompilation` | `bytecode_compiler.dfy` |
| `Stacks` | `stack.dfy` |
| `Compilation` | `compiler.dfy` |
| `Vm` | `vm.dfy` |
| `LoxTests` | `lox_test.dfy` |

Where the source updates an object in place, the model is a class:

- `Parser.Parser`;
- `Bytecodes.Bytecode`;
- `BytecodeCompilation.BytecodeCompiler`;
- `Stacks.Stack` and `Stacks.Sp`;
- `Vm.VM`.

Each method of these classes states its new state as a pure function of the old one:

- `ParserModel` (in `parser.dfy`) gives the parser's state transitions.
- `MachineSpec` (`machine.dfy`) gives one dispatch of the VM, and `Exec` gives the whole dispatch loop.

The main theorem is `MachineSpec.CompiledProgramReturns`. For any tree with at most 255 literals and a stack deep enough, running the compiled unit returns the value the tree denotes and leaves the stack empty. `Vm.VM.Interpret` uses it to discharge the bounds that the source's raw-pointer code never checks.

Other modelling choices:

- **Floats.** An `f64` is the free term algebra `Values.F64` over real literals and the five float operations the VM uses. No floating-point fact is assumed. A result records which operation was applied to which operand in which order, so the right-operand-first pop order can be observed.
- **Panics.** A Rust `panic!`, `unimplemented!`, failed `assert!` or `unwrap` becomes the `Panicked` case of `Wrappers.Outcome`.
- **The lexer.** The logos lexer is replaced by the sequence of items it would yield, as `Tokens.Lexeme` values.
- **Reconstructed `Bytecode` members.** The `Bytecode` struct in src/bytecode.rs holds only `bytes`. The line table, the constant pool, the `finished_compilation` flag and the methods `write_u8`, `add_constant`, `get_constant` and `get_base_ip` are reconstructed from their call sites (src/bytecode_compiler.rs, src/vm.rs, src/main.rs). `Ip` is modelled as an offset into the bytes.
- **Constant limit.** The code's assertion `constant < u8::MAX` admits at most 255 constants per unit, and its failure is a panic.

## Model

| member | source | states |
|---|---|---|
| Opcodes.ToU8 | src/opcodes.rs:31-35 | an opcode's byte is its discriminant, below 7 |
| Opcodes.TryFromPrimitive | src/opcodes.rs:5-18 | decoding succeeds exactly on the bytes 0 to 6, and then inverts `ToU8`; any other byte is rejected, and the error carries that byte |
| Opcodes.DecodeEncode | src/opcodes.rs:5-6 | decoding an opcode's byte gives the opcode back |
| Opcodes.Discriminants | src/opcodes.rs:7-18 | `ConstantSmall`=0, `Add`=1, `Subtract`=2, `Multiply`=3, `Divide`=4, `Negate`=5, `Ret`=6 |
| Opcodes.EncodingInjective | src/opcodes.rs:31-35 | distinct opcodes have distinct bytes |
| Opcodes.OperandCount | src/opcodes.rs:22-28 | the count is 1 exactly for `ConstantSmall`, 0 otherwise, so at most 1 |
| Opcodes.Mnemonic | src/opcodes.rs:37-48 | every mnemonic starts with `OP_` |
| Opcodes.MnemonicsDistinct | src/opcodes.rs:37-48 | distinct opcodes print distinct mnemonics |
| Values.FromF64 | src/lox_value.rs:8-12 | the value is the given number |
| Ast.LitFrom | src/ast.rs:24-31 | the literal has kind `Number` and the given value |
| Ast.PrecedenceStrictTotalOrder | src/ast.rs:38-44 | the derived ordering on `Precedence` is irreflexive, transitive and total |
| Ast.PrecedenceChain | src/ast.rs:39-44 | `None < Summation < Multiplication < Division` |
| Ast.FromToken | src/ast.rs:48-56 | defined exactly for EOF, `+`, `-`, `*` and `/`, which map to `None`, `Summation` (both `+` and `-`), `Multiplication` and `Division`; every other token is `unimplemented!` |
| Ast.LeavesOutnumberNodes | src/ast.rs:61-65 | each binary node owns two subtrees, so a tree has one more literal than binary nodes |
| Visit.WalkOrder | src/visit.rs:19-32 | on a binary node, `walk_expr` visits the lhs, then the rhs, then calls `visit_expr_post` on the node |
| Visit.VisitExpr | src/visit.rs:10-12 | an overriding visitor's result is its override's; by default it is `walk_expr`, so a literal aborts |
| Visit.VisitExprPost | src/visit.rs:14-16 | by default the result is `output()` and the visitor's state is unchanged |
| Visit.WalkExpr | src/visit.rs:19-33 | a literal aborts with `unimplemented!`; only a binary node can complete |
| Visit.WalkLitAborts | src/visit.rs:27-29 | on a literal, `walk_expr` aborts, whatever the visitor |
| Visit.DefaultPostIsOutput | src/visit.rs:14-16 | the default `visit_expr_post` returns `output()` and leaves the visitor's state alone |
| Visit.DefaultVisitAborts | src/visit.rs:10-30 | with the default `visit_expr`, visiting any tree aborts, because every tree has a literal leaf |
| ParserModel.ErrorAt | src/parser.rs:70-80 | sets `had_error` and adds one report with the given line and message, placed " at end" when `at_end` is set and " at <lexeme>" otherwise; nothing else changes |
| ParserModel.Initial | src/parser.rs:18-31 | both tokens `Bang`, previous line 0, empty slice, no reports, neither flag set, nothing taken from the lexer |
| ParserModel.Error | src/parser.rs:62-64 | sets `had_error` and appends one report at the previous line and slice with the message; nothing else changes |
| ParserModel.ErrorAtCurrent | src/parser.rs:66-68 | sets `had_error` and appends one report at the lexer's current line and slice with the message; nothing else changes |
| ParserModel.Advance | src/parser.rs:47-60 | the current token becomes the previous one; the previous line and slice are the lexer's before it yields; a token becomes current; a lexing error keeps the current token, sets `had_error` and appends one "Lexing error" report at the line and slice of the item before the bad one; exhaustion makes `EOF` current |
| ParserModel.ParseNumLiteral | src/parser.rs:109-123 | succeeds exactly when the previous token is a number, and then returns its literal after one `advance`; otherwise it panics and changes nothing |
| ParserModel.ParseBinop | src/parser.rs:95-107 | succeeds exactly when the previous token is a number, the current one is `Plus` and the token after it is a number; the tree is then `Binary(Add, Lit a, Lit b)` of those two numbers; `at_end` is unchanged |
| ParserModel.ParseRoot | src/parser.rs:86-93 | succeeds exactly when the first three tokens it takes are a number, `Plus` and a number, and then returns `Ok` of `Binary(Add, Lit a, Lit b)` of those two numbers |
| ParserModel.ParseSource | src/parser.rs:86-93 | the same for a fresh parser |
| ParserModel.ParsesSum | src/parser.rs:95-107 | the stream `Number a, Plus, Number b, ...` parses to `Binary(Add, Lit a, Lit b)` |
| ParserModel.OtherOperatorUnimplemented | src/parser.rs:98-101 | any operator other than `Plus` after the first number is `unimplemented!` |
| ParserModel.LeadingNonNumberPanics | src/parser.rs:110-116 | a stream not starting with a number panics in `parse_num_literal` |
| ParserModel.LexingErrorStillParses | src/parser.rs:52-56 | a lexing error after `a + b` sets `had_error`, and the parse still returns `Ok(a + b)` |
| ParserModel.AdvanceReportsAtLexeme | src/parser.rs:52-56 | `advance` never sets `at_end`; the report a lexing error adds names the lexeme |
| ParserModel.NumLiteralReportsAtLexeme | src/parser.rs:109-123 | the same for `parse_num_literal` |
| ParserModel.BinopReportsAtLexeme | src/parser.rs:95-107 | the same for `parse_binop` |
| ParserModel.ParseReportsAtLexeme | src/parser.rs:73-77 | `at_end` is never set during a parse, so every report takes the " at <lexeme>" branch |
| Parser.Parser.New | src/parser.rs:18-31 | both tokens are `Bang`, the previous line is 0, the slice is empty, and neither `had_error` nor `at_end` is set |
| Parser.Parser.Check | src/parser.rs:35-37 | always false |
| Parser.Parser.Eat | src/parser.rs:39-45 | always false; the parser does not move |
| Parser.Parser.Advance | src/parser.rs:47-60 | the new fields are `ParserModel.Advance` of the old |
| Parser.Parser.Error | src/parser.rs:62-64 | reports at the previous token's line and slice |
| Parser.Parser.ErrorAtCurrent | src/parser.rs:66-68 | reports at the lexer's current line and slice |
| Parser.Parser.ErrorAt | src/parser.rs:70-80 | the new fields are `ParserModel.ErrorAt` of the old |
| Parser.Parser.ParseRoot | src/parser.rs:86-93 | its result and new fields are `ParserModel.ParseRoot` of the old fields |
| Parser.Parser.ParseBinop | src/parser.rs:95-107 | its result and new fields are `ParserModel.ParseBinop` of the old fields |
| Parser.Parser.ParseNumLiteral | src/parser.rs:109-123 | its result and new fields are `ParserModel.ParseNumLiteral` of the old fields |
| Bytecodes.ZeroPadded4 | src/bytecode.rs:24 | `{:04}`: the decimal digits, left-padded with zeros to at least four characters |
| Bytecodes.GetU8 | src/vm.rs:70-74 | `Ip::get_u8`: the byte under the cursor |
| Bytecodes.GetOp | src/vm.rs:39 | `Ip::get_op`: the opcode whose encoding is the byte under the cursor |
| Bytecodes.Inc | src/vm.rs:40 | `Ip::inc(k)` moves the cursor k bytes on |
| Bytecodes.Listing | src/bytecode.rs:21-27 | the lines for offsets `0 .. k-1`; empty exactly when k is 0 |
| Bytecodes.Body | src/bytecode.rs:21-32 | what the loop has appended after the header; empty exactly before the first turn, and the single illegal-instruction line when the first byte does not decode |
| Bytecodes.Disassembly | src/bytecode.rs:15-37 | the text starts with the header, and is the header alone exactly when there are no bytes |
| Bytecodes.ListingLines | src/bytecode.rs:21-27 | the listing for a valid first byte is one line per offset `0 .. k-1`, each with the same mnemonic |
| Bytecodes.BodyStep | src/bytecode.rs:22-27 | with a valid first byte, each turn of the loop appends the line for the current offset, and the offset grows by one |
| Bytecodes.BodyIllegal | src/bytecode.rs:28-31 | with an invalid first byte, the only turn appends the illegal-instruction line |
| Bytecodes.DisassemblyStartsWithHeader | src/bytecode.rs:18-21 | the text starts with `== name ==\n`; empty bytecode gives the header alone |
| Bytecodes.DisassemblyOfValidFirstByte | src/bytecode.rs:22-27 | a valid first byte gives one line per byte, all with the first byte's mnemonic, whatever the later bytes are |
| Bytecodes.DisassemblyOfInvalidFirstByte | src/bytecode.rs:28-31 | an invalid first byte gives one "Illegal Instruction" line, labelled with the length |
| Bytecodes.Bytecode.New | src/bytecode.rs:11-13 | an empty unit |
| Bytecodes.Bytecode.Default | src/bytecode.rs:5-8 | the same empty unit |
| Bytecodes.Bytecode.WriteOp | src/bytecode.rs:39-41 | appends exactly the op's discriminant; nothing else changes |
| Bytecodes.Bytecode.WriteU8 | src/bytecode_compiler.rs:23 | appends the byte and its line; the pool and flag are unchanged |
| Bytecodes.Bytecode.AddConstant | src/bytecode_compiler.rs:44 | appends the value to the pool and returns its index |
| Bytecodes.Bytecode.GetConstant | src/vm.rs:78 | the pool entry at the index |
| Bytecodes.Bytecode.GetBaseIp | src/vm.rs:34 | a cursor at offset 0 exactly when the unit is finished |
| Bytecodes.Bytecode.Disassemble | src/bytecode.rs:15-37 | the loop ends, and its text is `Disassembly(bytes, name)` |
| BytecodeCompilation.OpFor | src/bytecode_compiler.rs:34-41 | `Add` compiles to `Op::Add`, `Sub` to `Op::Subtract` |
| BytecodeCompilation.Constants | src/bytecode_compiler.rs:28-49 | one constant per literal |
| BytecodeCompilation.Emit | src/bytecode_compiler.rs:28-51 | the post-order code of a tree always starts with a constant load, and a binary node's code ends with its operator's byte |
| BytecodeCompilation.ConstantsAreLeaves | src/bytecode_compiler.rs:30-44 | the pool lists the literals' values left to right |
| BytecodeCompilation.EmitLength | src/bytecode_compiler.rs:28-49 | the walk emits 2 bytes per literal and 1 per binary node |
| BytecodeCompilation.EmitBelowMax | src/bytecode_compiler.rs:45 | every emitted byte, constant operands included, is below `u8::MAX` |
| BytecodeCompilation.BytecodeCompiler.New | src/bytecode_compiler.rs:13-18 | an empty, unfinished unit for the given tree |
| BytecodeCompilation.BytecodeCompiler.Compile | src/bytecode_compiler.rs:20-26 | fails exactly when the tree has more than 255 literals; otherwise the unit is finished, its bytes are the walk's code followed by `Ret`, its pool is the tree's constants, and every byte is recorded with line 111 |
| BytecodeCompilation.BytecodeCompiler.VisitExpr | src/bytecode_compiler.rs:28-51 | appends the post-order code of the tree, its constants and one line-111 entry per byte; it fails exactly when a constant index would reach `u8::MAX` |
| Stacks.Stack.New | src/stack.rs:63-69 | exactly `StackSize` slots, each `LoxValue::default()` |
| Stacks.Stack.GetBaseSp | src/stack.rs:71-73 | an initialised cursor at slot 0 of this stack |
| Stacks.Sp.Create | src/stack.rs:14-21 | an initialised cursor at the stack's first slot |
| Stacks.Sp.CreateUninitialized | src/stack.rs:23-28 | an uninitialised null cursor, on which the value operations cannot be called |
| Stacks.Sp.GetValue | src/stack.rs:33-35 | the value under the cursor; nothing changes |
| Stacks.Sp.WriteValue | src/stack.rs:38-40 | only the slot under the cursor changes; the cursor stays |
| Stacks.Sp.ReadValue | src/stack.rs:43-45 | the same read as `get_value` |
| Stacks.Sp.Inc | src/stack.rs:48-50 | moves the cursor up by the offset, staying within the stack |
| Stacks.Sp.Dec | src/stack.rs:53-55 | moves the cursor down by the offset, never below the base |
| Stacks.WriteThenGet | src/stack.rs:33-40 | a read after a write at the same position returns the written value |
| Stacks.IncThenDec | src/stack.rs:48-55 | `inc(k)` then `dec(k)` returns the cursor to its slot |
| MachineSpec.PopAfterPush | src/vm.rs:81-90 | a pop after a push returns the pushed value, restores `sp` and `ip`, and leaves lower slots untouched |
| MachineSpec.Push | src/vm.rs:81-84 | writes the value at `sp`, moves `sp` up by one, and changes no other slot and not `ip` |
| MachineSpec.Pop | src/vm.rs:86-90 | moves `sp` down by one and returns the value there; the slots and `ip` are unchanged |
| MachineSpec.Arith | src/vm.rs:97-131 | continues exactly when two values are on the stack; then `sp` drops by one, lower slots are kept, and the new top is `a OP b` of the two popped values |
| MachineSpec.Execute | src/vm.rs:54-66 | halts exactly on `Ret` with a value on the stack, returning the top; a load moves `ip` one more and pushes the named pool entry; the arithmetic ops lower `sp` by one; negate keeps the depth |
| MachineSpec.Exec | src/vm.rs:38-67 | a run that returns ends with `ip` moved past where it started and within the code, and the stack's size unchanged |
| MachineSpec.StepAt | src/vm.rs:39-40 | a continuing dispatch moves `ip` strictly up and within the code; the stack size never changes |
| MachineSpec.ConstantSmallStep | src/vm.rs:70-95 | a load consumes one operand byte (ip + 2 in all) and pushes the pool entry it names |
| MachineSpec.ArithStep | src/vm.rs:97-131 | add, subtract, multiply and divide pop `b`, then `a`, and push `a OP b`; the depth drops by one |
| MachineSpec.ArithUnderflow | src/vm.rs:97-99 | on fewer than two values, an arithmetic op is a fault |
| MachineSpec.NegateStep | src/vm.rs:133-138 | negate replaces the top value by its negation; the depth is unchanged |
| MachineSpec.RetStep | src/vm.rs:61-65 | `Ret` pops the top value and ends the loop with it |
| MachineSpec.ExecNext | src/vm.rs:38-67 | a continuing dispatch leaves the rest of the loop's run unchanged |
| MachineSpec.BinaryStep | src/vm.rs:97-113 | the byte compiled for `Add`/`Sub`, run on two values, leaves their sum/difference in `Eval`'s operand order |
| MachineSpec.After | src/bytecode_compiler.rs:28-51 | the code for a tree moves `ip` past itself (two bytes per literal, one per binary node), pushes one value (the tree's value) and leaves every lower slot unchanged |
| MachineSpec.EmitSteps | src/bytecode_compiler.rs:28-51 | placed code for a tree runs, dispatch by dispatch, from the start machine to `After` |
| MachineSpec.EmitRuns | src/bytecode_compiler.rs:28-51 | running placed code for a tree reaches `After`, and the rest of the run continues from there |
| MachineSpec.CompiledProgramReturns | src/vm.rs:27-67 | a compiled unit run from the stack base returns the tree's value, `ip` is just past `Ret`, and the stack is empty |
| MachineSpec.LiteralSumNeedsTwo | src/parser.rs:95-107 | the parser's `a + b` has two literals and needs two stack slots |
| Compilation.CompileSource | src/compiler.rs:10-25 | succeeds exactly when parsing does, with the parse's panic otherwise; the unit is the walk's code with `Ret` appended and the tree's constants |
| Compilation.CompilesSum | src/compiler.rs:10-25 | `a + b` compiles to `[0,0, 0,1, 1, 6]` with pool `[a, b]` |
| Compilation.Compile | src/compiler.rs:10-25 | the parser and compiler objects build a finished unit matching `CompileSource`, and the listing is that unit's disassembly named "test" |
| Vm.InterpretSource | src/vm.rs:27-67 | `interpret` succeeds exactly when parsing does, with the parse's panic otherwise |
| Vm.InterpretsSum | src/vm.rs:27-67 | for `a + b` the printed value is `a + b` |
| Vm.CompiledSourceReturns | src/vm.rs:27-67 | a compiled source, run on a 10-slot stack, returns the value `InterpretSource` gives |
| Vm.VM.Default | src/vm.rs:141-150 | no unit and no cursors; a fresh stack of default values |
| Vm.VM.ReadU8 | src/vm.rs:70-74 | returns the byte under `ip`, and `ip` moves one past it |
| Vm.VM.ReadConstant | src/vm.rs:76-79 | the pool entry named by the operand byte, with `ip` past it |
| Vm.VM.Push | src/vm.rs:81-84 | writes at `sp`, then increments it (`MachineSpec.Push`) |
| Vm.VM.Pop | src/vm.rs:86-90 | decrements `sp`, then reads (`MachineSpec.Pop`) |
| Vm.VM.OpConstantSmall | src/vm.rs:92-95 | the machine steps as `MachineSpec.Execute` gives for `ConstantSmall` |
| Vm.VM.Arith | src/vm.rs:97-131 | the machine steps as `Execute` gives for the op |
| Vm.VM.OpAdd | src/vm.rs:97-104 | the machine steps as `Execute` gives for `Add` |
| Vm.VM.OpSubtract | src/vm.rs:106-113 | the machine steps as `Execute` gives for `Subtract` |
| Vm.VM.OpMultiply | src/vm.rs:115-122 | the machine steps as `Execute` gives for `Multiply` |
| Vm.VM.OpDivide | src/vm.rs:124-131 | the machine steps as `Execute` gives for `Divide` |
| Vm.VM.OpNegate | src/vm.rs:133-138 | the machine steps as `Execute` gives for `Negate` |
| Vm.VM.Dispatch | src/vm.rs:39-66 | fetches the opcode at `ip`, moves `ip` one past it and runs the handler; the VM steps as `StepAt` gives, halting exactly on `Ret` |
| Vm.VM.Load | src/vm.rs:31-36 | loads the unit; `ip` is at its start and `sp` at the stack base |
| Vm.VM.DispatchLoop | src/vm.rs:38-67 | the loop returns the value the pure run `Exec` returns |
| Vm.VM.Interpret | src/vm.rs:27-68 | panics exactly when compiling does; otherwise returns `Ok(())` and prints the value of the parsed tree |
| LoxTests.FindFrom | tests/lox.rs:18 | the first occurrence of the pattern at or after `k`, or `None` when there is none |
| LoxTests.Find | tests/lox.rs:18 | `str::find`: the first occurrence, or `None` when there is none |
| LoxTests.ContainsIff | tests/lox.rs:17 | `contains` holds exactly when the pattern occurs somewhere |
| LoxTests.Contains | tests/lox.rs:17 | `str::contains`: holds exactly when the pattern occurs at some position |
| LoxTests.Split | tests/lox.rs:16 | `split('\n')` always gives at least one piece, and no piece holds the separator |
| LoxTests.JoinSplit | tests/lox.rs:16-21 | joining the pieces of a split gives the text back |
| LoxTests.Join | tests/lox.rs:21 | `join`: the text starts with the first piece, and holds the separator when there are two pieces or more |
| LoxTests.SplitJoin | tests/lox.rs:16-21 | splitting a join of separator-free pieces gives the pieces back |
| LoxTests.MarkerLines | tests/lox.rs:17 | keeps only lines of the script that hold `// expect: ` |
| LoxTests.MarkerLinesConcat | tests/lox.rs:17 | the filter keeps order: filtering a concatenation filters each part |
| LoxTests.MarkerLinesKeep | tests/lox.rs:17 | every line holding the marker is kept |
| LoxTests.AfterMarker | tests/lox.rs:18 | the suffix after the first occurrence of the marker |
| LoxTests.Entries | tests/lox.rs:18 | one entry per kept line, each its suffix after the marker |
| LoxTests.ExpectedEntries | tests/lox.rs:15-19 | as many entries as marker lines |
| LoxTests.ExpectedStdout | tests/lox.rs:15-21 | the joined expectation: empty when no line holds the marker, and holding a newline when two or more do |
| LoxTests.PieceOccurrence | tests/lox.rs:16-17 | an occurrence inside a line is an occurrence in the whole script |
| LoxTests.NoMarkerNoExpectation | tests/lox.rs:15-21 | a script without the marker expects no entries, and the joined text is empty |
| LoxTests.WorkingNeedsMarker | tests/lox.rs:21 | a script expecting "Working" holds the marker |
| LoxTests.EntriesAreSingleLines | tests/lox.rs:15-18 | no entry holds a newline |
| LoxTests.StdoutSplitsBack | tests/lox.rs:15-21 | the joined expectation splits back into the entries |
| LoxTests.OneExpectation | tests/lox.rs:15-21 | a one-line script `before // expect: after`, with no slash before the marker, expects `after` |

## Left out

- The logos lexer (src/token.rs): the derive, the regular expressions, whitespace skipping and the number callback are a foreign library. The parser is given the lexer's items instead. `Token` gains the `EOF` marker that src/parser.rs and src/ast.rs use but the enum omits.
- Floating-point semantics: IEEE addition, subtraction, multiplication, division and negation (src/vm.rs:101-136) are uninterpreted terms. `From<i32>` and `Display` for `LoxValue` (src/lox_value.rs:14-26) are not modelled. src/lox_value.rs derives no `Default` for `LoxValue`; `LoxValue::default()` is taken as `Number(0.0)`.
- Printing: the `vm-trace-execution` block and its stack iterator (src/vm.rs:42-53), and the debug prints in src/parser.rs:119 and src/compiler.rs:11-22. The printed value of `Ret` (src/vm.rs:63) is returned as `printed` rather than written. The text of `error_at`'s messages is not modelled; each report is recorded as its line, place and message.
- I/O front ends: src/repl.rs, src/main.rs, and the file reading and file glob of tests/lox.rs:8-12.
- Unsafe code, `Pin` and raw pointers in src/stack.rs: the pointer is an index into the stack's array. Pinning and the null-pointer assertion are not modelled.
- Placeholders: `get_parse_rule` (src/parser.rs:82-84) is `unimplemented!` and never called. `expect` (src/parser.rs:33) is empty.
- The call `AssocOp::from_token` (src/parser.rs:97) is dropped: that type does not exist in the source.
- The `_ => panic!("Operands must be numbers")` arms (src/vm.rs:102 and the same arms at 111, 120 and 129) have no counterpart. `LoxValue` has only the `Number` variant, so the `match` on two numbers is total.
- Inconsistencies across files, such as `Sp<S, N>` against `Sp<STACK_SIZE>` and the missing `states` module. These are not reproduced; the model takes one consistent reading.
- Vm.VM.Interpret: it requires nothing about the unit's bytes. The bounds that pointer arithmetic never checks are discharged by `CompiledSourceReturns`. The handlers `OpAdd` .. `OpNegate`, `Push`, `Pop`, `ReadU8` and `ReadConstant` instead require those bounds (the stack depth, and `ip` and the constant index in range), because the source reads out of bounds there without a check.
- Bytecodes.Bytecode.WriteU8, AddConstant, GetConstant and GetBaseIp: these are reconstructed from their call sites, because src/bytecode.rs does not define them. `get_base_ip` is taken to succeed exactly on a finished unit.
- That a finished unit is never appended to again is not enforced, because the source does not enforce it either.
