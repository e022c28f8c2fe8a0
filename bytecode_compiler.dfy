/**
 * Lowering a tree to postfix bytecode (src/bytecode_compiler.rs).
 * `Emit` is the code the recursive walk appends; the class performs the
 * walk by appending to its bytecode unit in place.
 */
module BytecodeCompilation {
  import opened Wrappers
  import opened Opcodes
  import opened Values
  import opened Ast
  import opened Bytecodes

  /** The line number every byte is recorded with, a stub in the source. */
  const LINE: nat := 111

  /** The opcode a binary operator compiles to. */
  function OpFor(op: BinOpKind): (r: Op)
    ensures op == BinOpKind.Add ==> r == Op.Add
    ensures op == BinOpKind.Sub ==> r == Subtract
  {
    match op
    case Add => Op.Add
    case Sub => Subtract
  }

  /**
   * The bytes `visit_expr` appends for `e` when the pool already holds
   * `base` constants. Every constant operand must stay below `u8::MAX`.
   */
  function Emit(e: Expr, base: nat): (code: seq<u8>)
    requires base + LeafCount(e) <= U8_MAX as nat
    ensures 2 <= |code| && code[0] == ToU8(ConstantSmall)
    ensures e.kind.Binary? ==> code[|code| - 1] == ToU8(OpFor(e.kind.op))
  {
    match e.kind
    case Lit(_) => [ToU8(ConstantSmall), base]
    case Binary(op, lhs, rhs) =>
      Emit(lhs, base) + Emit(rhs, base + LeafCount(lhs)) + [ToU8(OpFor(op))]
  }

  /** The constants `visit_expr` adds for `e`, one per literal. */
  function Constants(e: Expr): (pool: seq<LoxValue>)
    ensures |pool| == LeafCount(e)
  {
    match e.kind
    case Lit(lit) => [FromF64(lit.symbol)]
    case Binary(_, lhs, rhs) => Constants(lhs) + Constants(rhs)
  }

  /** The pool holds the literals of `e` from left to right. */
  lemma {:induction false} ConstantsAreLeaves(e: Expr)
    ensures forall i | 0 <= i < |Constants(e)| :: Constants(e)[i] == FromF64(Leaves(e)[i])
  {
    match e.kind
    case Lit(_) =>
    case Binary(_, lhs, rhs) =>
      ConstantsAreLeaves(lhs);
      ConstantsAreLeaves(rhs);
      var l := LeafCount(lhs);
      forall i | 0 <= i < |Constants(e)|
        ensures Constants(e)[i] == FromF64(Leaves(e)[i])
      {
        if i >= l {
          assert Constants(e)[i] == Constants(rhs)[i - l];
          assert Leaves(e)[i] == Leaves(rhs)[i - l];
        }
      }
  }

  /** Two bytes per literal and one per binary node. */
  lemma {:induction false} EmitLength(e: Expr, base: nat)
    requires base + LeafCount(e) <= U8_MAX as nat
    ensures |Emit(e, base)| == 2 * LeafCount(e) + BinaryCount(e)
  {
    match e.kind
    case Lit(_) =>
    case Binary(_, lhs, rhs) =>
      EmitLength(lhs, base);
      EmitLength(rhs, base + LeafCount(lhs));
  }

  /** Every emitted byte, opcode or constant operand, is below `u8::MAX`. */
  lemma {:induction false} EmitBelowMax(e: Expr, base: nat)
    requires base + LeafCount(e) <= U8_MAX as nat
    ensures forall i | 0 <= i < |Emit(e, base)| :: Emit(e, base)[i] < U8_MAX
  {
    match e.kind
    case Lit(_) =>
    case Binary(_, lhs, rhs) =>
      EmitBelowMax(lhs, base);
      EmitBelowMax(rhs, base + LeafCount(lhs));
  }

  /** A run of `n` copies of `x`. */
  function Repeat(x: nat, n: nat): (s: seq<nat>)
    ensures |s| == n && forall i | 0 <= i < n :: s[i] == x
  {
    seq(n, _ => x)
  }

  /** `BytecodeCompiler`: the tree it compiles and the unit it fills. */
  class BytecodeCompiler {
    const ast: Ast
    var bytecodeBlock: Bytecode

    /** `BytecodeCompiler::new`: an empty unit. */
    constructor New(ast: Ast)
      ensures this.ast == ast && fresh(bytecodeBlock)
      ensures bytecodeBlock.bytes == [] && bytecodeBlock.lines == [] && bytecodeBlock.constants == []
      ensures !bytecodeBlock.finishedCompilation
    {
      this.ast := ast;
      bytecodeBlock := new Bytecode.Default();
    }

    /**
     * `compile`: walks the root, appends `Ret` and marks the unit finished.
     * It panics exactly when the tree has more literals than the one-byte
     * operand admits (the assertion `constant < u8::MAX`).
     */
    method Compile() returns (r: Outcome<Bytecode>)
      requires bytecodeBlock.bytes == [] && bytecodeBlock.lines == [] && bytecodeBlock.constants == []
      modifies bytecodeBlock
      ensures r.Done? <==> LeafCount(ast.root) <= U8_MAX as nat
      ensures r.Done? ==> r.value == bytecodeBlock && r.value.finishedCompilation
      ensures r.Done? ==> r.value.bytes == Emit(ast.root, 0) + [ToU8(Ret)]
      ensures r.Done? ==> r.value.constants == Constants(ast.root)
      ensures r.Done? ==> r.value.lines == Repeat(LINE, |r.value.bytes|)
    {
      var walked := VisitExpr(ast.root);
      if walked.Panicked? {
        return Panicked(walked.panic);
      }
      bytecodeBlock.WriteU8(ToU8(Ret), LINE);
      bytecodeBlock.finishedCompilation := true;
      r := Done(bytecodeBlock);
    }

    /**
     * `visit_expr`: appends `Emit(e, n)` for the current pool size `n`,
     * the constants of `e` to the pool, and one line entry per byte; or
     * panics when a constant's index reaches `u8::MAX`.
     */
    method VisitExpr(e: Expr) returns (r: Outcome<()>)
      modifies bytecodeBlock
      ensures r.Done? <==> |old(bytecodeBlock.constants)| + LeafCount(e) <= U8_MAX as nat
      ensures r.Panicked? ==> r.panic == AssertionFailed
      ensures r.Done? ==>
        && bytecodeBlock.bytes == old(bytecodeBlock.bytes) + Emit(e, |old(bytecodeBlock.constants)|)
        && bytecodeBlock.constants == old(bytecodeBlock.constants) + Constants(e)
        && bytecodeBlock.lines == old(bytecodeBlock.lines) + Repeat(LINE, |Emit(e, |old(bytecodeBlock.constants)|)|)
        && bytecodeBlock.finishedCompilation == old(bytecodeBlock.finishedCompilation)
      decreases e
    {
      match e.kind {
        case Binary(op, lhs, rhs) =>
          var left := VisitExpr(lhs);
          if left.Panicked? {
            return Panicked(left.panic);
          }
          var right := VisitExpr(rhs);
          if right.Panicked? {
            return Panicked(right.panic);
          }
          bytecodeBlock.WriteU8(ToU8(OpFor(op)), LINE);
          r := Done(());
        case Lit(lit) =>
          var constant := bytecodeBlock.AddConstant(FromF64(lit.symbol));
          if !(constant < U8_MAX as nat) {
            return Panicked(AssertionFailed);
          }
          bytecodeBlock.WriteU8(ToU8(ConstantSmall), LINE);
          bytecodeBlock.WriteU8(constant, LINE);
          r := Done(());
      }
    }
  }
}
