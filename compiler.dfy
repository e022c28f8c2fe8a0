/**
 * The front end of `VM::interpret` (src/compiler.rs): parse the lexed
 * source, unwrap the tree, lower it to a bytecode unit and disassemble
 * that unit under the name "test". `CompileSource` says what the unit
 * is; `Compile` builds it with the parser and compiler objects.
 */
module Compilation {
  import opened Wrappers
  import opened Opcodes
  import opened Values
  import opened Tokens
  import opened Ast
  import M = ParserModel
  import P = Parser
  import opened Bytecodes
  import opened BytecodeCompilation

  /** A compiled unit's code and constant pool. */
  datatype Unit = Unit(code: seq<u8>, pool: seq<LoxValue>)

  /**
   * What `Compiler::compile` produces for a lexed source: the walk's
   * code followed by `Ret` with the tree's constants, or the panic of the
   * parser or of the compiler's operand assertion.
   */
  function CompileSource(input: seq<Lexeme>): (r: Outcome<Unit>)
    ensures r.Done? <==> M.ParseSource(input).Done?
    ensures r.Panicked? ==> r.panic == M.ParseSource(input).panic
    ensures r.Done? ==> var root := M.ParseSource(input).value.value.root;
      LeafCount(root) <= U8_MAX as nat
      && r.value == Unit(Emit(root, 0) + [ToU8(Ret)], Constants(root))
  {
    match M.ParseSource(input)
    case Panicked(p) => Panicked(p)
    case Done(parsed) =>
      var root := parsed.value.root;
      if LeafCount(root) <= U8_MAX as nat then Done(Unit(Emit(root, 0) + [ToU8(Ret)], Constants(root)))
      else Panicked(AssertionFailed)
  }

  /** Compiling `a + b` gives: load constant 0, load constant 1, add, return. */
  lemma CompilesSum(input: seq<Lexeme>, a: F64, b: F64)
    requires |input| >= 3
    requires input[0].token == Ok(Token.Number(a)) && input[1].token == Ok(Plus) && input[2].token == Ok(Token.Number(b))
    ensures CompileSource(input) == Done(Unit([0, 0, 0, 1, 1, 6], [FromF64(a), FromF64(b)]))
  {
    M.ParsesSum(input, a, b);
    var la, lb := M.LiteralExpr(a), M.LiteralExpr(b);
    var root := Expr(Binary(BinOpKind.Add, la, lb));
    assert Emit(la, 0) == [0, 0] && Emit(lb, 1) == [0, 1];
    assert Emit(root, 0) == [0, 0] + [0, 1] + [1];
    assert M.ParseSource(input).value.value.root == root;
    assert Constants(root) == [FromF64(a)] + [FromF64(b)];
    assert LeafCount(root) == 2;
    assert Emit(root, 0) + [ToU8(Ret)] == [0, 0, 0, 1, 1, 6];
    assert CompileSource(input) == Done(Unit(Emit(root, 0) + [ToU8(Ret)], Constants(root)));
    assert [FromF64(a)] + [FromF64(b)] == [FromF64(a), FromF64(b)];
  }

  /**
   * `Compiler::compile`: the unit of `CompileSource`, finished and ready
   * to run, and the disassembly listing it prints.
   */
  method Compile(source: string, input: seq<Lexeme>) returns (r: Outcome<Bytecode>, listing: string)
    ensures r.Done? <==> CompileSource(input).Done?
    ensures r.Panicked? ==> r.panic == CompileSource(input).panic
    ensures r.Done? ==>
      && fresh(r.value) && r.value.finishedCompilation
      && Unit(r.value.bytes, r.value.constants) == CompileSource(input).value
      && listing == Disassembly(r.value.bytes, "test")
  {
    listing := "";
    var parser := new P.Parser.New(source, input);
    var parsed := parser.ParseRoot();
    if parsed.Panicked? {
      return Panicked(parsed.panic), listing;
    }
    // `unwrap`: `parse_root` never returns `Err`
    var ast := parsed.value.value;
    var bytecodeCompiler := new BytecodeCompiler.New(ast);
    r := bytecodeCompiler.Compile();
    if r.Done? {
      listing := r.value.Disassemble("test");
    }
  }
}
