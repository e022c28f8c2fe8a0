/**
 * The virtual machine (src/vm.rs): an instruction cursor into the unit
 * being run, a stack-top cursor into its own value stack, and the
 * dispatch loop. Each opcode handler changes the machine exactly as
 * `MachineSpec.Execute` says; `Interpret` runs a compiled unit to its
 * `Ret` and returns the value it prints.
 *
 * The source reads through raw pointers without bounds checks. Each
 * handler here requires what keeps those reads inside the unit, the pool
 * and the stack; `Interpret` discharges them from the fact that the
 * compiled unit's run does not fault (`MachineSpec.CompiledProgramReturns`).
 */
module Vm {
  import opened Wrappers
  import opened Opcodes
  import opened Values
  import opened Tokens
  import opened Ast
  import opened Bytecodes
  import opened BytecodeCompilation
  import opened Stacks
  import S = MachineSpec
  import P = ParserModel
  import C = Compilation

  /** `vm::Error`. */
  datatype Error = Compile | Runtime

  /**
   * What `interpret` does for a lexed source: it panics where compiling
   * panics, and otherwise prints the value the tree denotes and returns
   * `Ok(())`.
   */
  function InterpretSource(input: seq<Lexeme>): (r: Outcome<LoxValue>)
    ensures r.Done? <==> P.ParseSource(input).Done?
    ensures r.Panicked? ==> r.panic == P.ParseSource(input).panic
  {
    match P.ParseSource(input)
    case Panicked(p) => Panicked(p)
    case Done(parsed) => Done(FromF64(Eval(parsed.value.root)))
  }

  /** For `a + b` the value printed is the sum of the two literals. */
  lemma InterpretsSum(input: seq<Lexeme>, a: F64, b: F64)
    requires |input| >= 3
    requires input[0].token == Ok(Token.Number(a)) && input[1].token == Ok(Plus) && input[2].token == Ok(Token.Number(b))
    ensures InterpretSource(input) == Done(FromF64(Sum(a, b)))
  {
    P.ParsesSum(input, a, b);
    var root := P.ParseSource(input).value.value.root;
    assert root == Expr(Binary(BinOpKind.Add, P.LiteralExpr(a), P.LiteralExpr(b)));
    assert Eval(P.LiteralExpr(a)) == a && Eval(P.LiteralExpr(b)) == b;
  }

  /**
   * A compiled source, run from the base of a stack of `STACK_SIZE`
   * slots, returns the value `InterpretSource` prints.
   */
  lemma CompiledSourceReturns(input: seq<Lexeme>, slots: seq<LoxValue>)
    requires C.CompileSource(input).Done? && |slots| == S.STACK_SIZE
    ensures var unit := C.CompileSource(input).value;
      var run := S.Exec(unit.code, unit.pool, S.Machine(0, 0, slots));
      run.Returned? && InterpretSource(input) == Done(run.value)
  {
    var root := P.ParseSource(input).value.value.root;
    S.LiteralSumNeedsTwo(root);
    S.CompiledProgramReturns(root, slots);
  }

  class VM {
    var ip: Option<Ip>
    /** `Option<Sp<STACK_SIZE>>`: `null` is `None`. */
    var sp: Sp?
    var bytecode: Bytecode?
    const stack: Stack

    /** `Stack<STACK_SIZE>`: the stack's size is part of its type. */
    ghost predicate Valid()
      reads this
    {
      stack.bytes.Length == S.STACK_SIZE
    }

    /** Between `interpret`'s set-up and its return: a unit is loaded and both cursors are set. */
    ghost predicate Running()
      reads this, sp
    {
      Valid() && ip.Some? && sp != null && bytecode != null
      && sp.Valid() && sp.state == Initialized && sp.slots == stack.bytes
    }

    /** The machine's cursors and stack contents, as `MachineSpec` sees them. */
    ghost function View(): S.Machine
      reads this, sp, stack.bytes
      requires Running()
    {
      S.Machine(ip.value.offset, sp.ptr, stack.bytes[..])
    }

    /** `VM::default`: no unit, no cursors, a fresh stack of default values. */
    constructor Default()
      ensures Valid() && ip == Option.None && sp == null && bytecode == null
      ensures fresh(stack.bytes) && stack.bytes.Length == S.STACK_SIZE
      ensures forall i | 0 <= i < S.STACK_SIZE :: stack.bytes[i] == Values.Default()
    {
      ip := Option.None;
      sp := null;
      bytecode := null;
      stack := new Stack.New(S.STACK_SIZE);
    }

    /** `read_u8`: the byte under the instruction cursor, which then moves past it. */
    method ReadU8() returns (byte: u8)
      requires Running() && ip.value.offset < |bytecode.bytes|
      modifies this
      ensures Running() && sp == old(sp) && bytecode == old(bytecode)
      ensures byte == bytecode.bytes[old(ip.value.offset)]
      ensures ip == Some(Inc(old(ip.value), 1))
    {
      byte := GetU8(ip.value, bytecode.bytes);
      ip := Some(Inc(ip.value, 1));
    }

    /** `read_constant`: the pool entry the operand byte names. */
    method ReadConstant() returns (value: LoxValue)
      requires Running() && ip.value.offset < |bytecode.bytes|
      requires bytecode.bytes[ip.value.offset] < |bytecode.constants|
      modifies this
      ensures Running() && sp == old(sp) && bytecode == old(bytecode)
      ensures value == bytecode.constants[bytecode.bytes[old(ip.value.offset)]]
      ensures ip == Some(Inc(old(ip.value), 1))
    {
      var index := ReadU8();
      value := bytecode.GetConstant(index);
    }

    /** `push`: writes at the stack top, then moves the top up. */
    method Push(value: LoxValue)
      requires Running() && sp.ptr < S.STACK_SIZE
      modifies sp, stack.bytes
      ensures Running() && sp == old(sp) && ip == old(ip) && bytecode == old(bytecode)
      ensures View() == S.Push(old(View()), value)
    {
      sp.WriteValue(value);
      sp.Inc(1);
    }

    /** `pop`: moves the top down, then reads there. */
    method Pop() returns (value: LoxValue)
      requires Running() && 0 < sp.ptr
      modifies sp
      ensures Running() && sp == old(sp) && ip == old(ip) && bytecode == old(bytecode)
      ensures (value, View()) == S.Pop(old(View()))
    {
      sp.Dec(1);
      value := sp.GetValue();
    }

    /** `op_constant_small`: pushes the pool entry its operand names. */
    method OpConstantSmall()
      requires Running() && ip.value.offset < |bytecode.bytes|
      requires bytecode.bytes[ip.value.offset] < |bytecode.constants| && sp.ptr < S.STACK_SIZE
      modifies this, sp, stack.bytes
      ensures Running() && sp == old(sp) && bytecode == old(bytecode)
      ensures S.Execute(bytecode.bytes, bytecode.constants, ConstantSmall, old(View())) == S.Next(View())
    {
      var constant := ReadConstant();
      Push(constant);
    }

    /** The shared body of `op_add`, `op_subtract`, `op_multiply` and `op_divide`. */
    method Arith(op: Op)
      requires op.Add? || op.Subtract? || op.Multiply? || op.Divide?
      requires Running() && 2 <= sp.ptr
      modifies sp, stack.bytes
      ensures Running() && sp == old(sp) && ip == old(ip) && bytecode == old(bytecode)
      ensures S.Execute(bytecode.bytes, bytecode.constants, op, old(View())) == S.Next(View())
    {
      var b := Pop();
      var a := Pop();
      match (a, b) {
        case (Number(x), Number(y)) => Push(LoxValue.Number(S.Combine(op, x, y)));
      }
    }

    /** `op_add`: pops `b`, pops `a`, pushes `a + b`. */
    method OpAdd()
      requires Running() && 2 <= sp.ptr
      modifies sp, stack.bytes
      ensures Running() && sp == old(sp) && ip == old(ip) && bytecode == old(bytecode)
      ensures S.Execute(bytecode.bytes, bytecode.constants, Op.Add, old(View())) == S.Next(View())
    {
      Arith(Op.Add);
    }

    /** `op_subtract`: pops `b`, pops `a`, pushes `a - b`. */
    method OpSubtract()
      requires Running() && 2 <= sp.ptr
      modifies sp, stack.bytes
      ensures Running() && sp == old(sp) && ip == old(ip) && bytecode == old(bytecode)
      ensures S.Execute(bytecode.bytes, bytecode.constants, Subtract, old(View())) == S.Next(View())
    {
      Arith(Subtract);
    }

    /** `op_multiply`: pops `b`, pops `a`, pushes `a * b`. */
    method OpMultiply()
      requires Running() && 2 <= sp.ptr
      modifies sp, stack.bytes
      ensures Running() && sp == old(sp) && ip == old(ip) && bytecode == old(bytecode)
      ensures S.Execute(bytecode.bytes, bytecode.constants, Multiply, old(View())) == S.Next(View())
    {
      Arith(Multiply);
    }

    /** `op_divide`: pops `b`, pops `a`, pushes `a / b`. */
    method OpDivide()
      requires Running() && 2 <= sp.ptr
      modifies sp, stack.bytes
      ensures Running() && sp == old(sp) && ip == old(ip) && bytecode == old(bytecode)
      ensures S.Execute(bytecode.bytes, bytecode.constants, Divide, old(View())) == S.Next(View())
    {
      Arith(Divide);
    }

    /** `op_negate`: pops a value and pushes its negation. */
    method OpNegate()
      requires Running() && 1 <= sp.ptr
      modifies sp, stack.bytes
      ensures Running() && sp == old(sp) && ip == old(ip) && bytecode == old(bytecode)
      ensures S.Execute(bytecode.bytes, bytecode.constants, Negate, old(View())) == S.Next(View())
    {
      var v := Pop();
      match v {
        case Number(n) => Push(LoxValue.Number(Negation(n)));
      }
    }

    /**
     * One turn of `interpret`'s loop: fetch the opcode under the
     * instruction cursor, move the cursor past it and run its handler. On
     * `Ret` the popped value is returned, to be printed.
     */
    method Dispatch() returns (halted: Option<LoxValue>)
      requires Running() && S.StepAt(bytecode.bytes, bytecode.constants, View()) != S.Fault
      modifies this, sp, stack.bytes
      ensures Running() && sp == old(sp) && bytecode == old(bytecode)
      ensures halted.None? ==> S.StepAt(bytecode.bytes, bytecode.constants, old(View())) == S.Next(View())
      ensures halted.Some? ==> S.StepAt(bytecode.bytes, bytecode.constants, old(View())) == S.Halt(halted.value, View())
    {
      var inst := GetOp(ip.value, bytecode.bytes);
      ip := Some(Inc(ip.value, 1));
      halted := Option.None;
      match inst {
        case ConstantSmall => OpConstantSmall();
        case Add => OpAdd();
        case Subtract => OpSubtract();
        case Multiply => OpMultiply();
        case Divide => OpDivide();
        case Negate => OpNegate();
        case Ret =>
          var value := Pop();
          halted := Some(value);
      }
    }

    /** `interpret`'s set-up: loads the unit and sets both cursors to their bases. */
    method Load(unit: Bytecode)
      requires Valid() && unit.finishedCompilation
      modifies this
      ensures Running() && bytecode == unit && fresh(sp)
      ensures View() == S.Machine(0, 0, stack.bytes[..])
    {
      bytecode := unit;
      var base := bytecode.GetBaseIp();
      ip := Some(base.value);
      sp := stack.GetBaseSp();
    }

    /**
     * `interpret`'s dispatch loop on a loaded unit: it turns until `Ret`,
     * and returns the value `Ret` pops, which is the one the pure run
     * returns. The requirement that the pure run returns keeps every raw
     * read and pointer move inside the unit, the pool and the stack.
     */
    method DispatchLoop() returns (value: LoxValue)
      requires Running() && S.Exec(bytecode.bytes, bytecode.constants, View()).Returned?
      modifies this, sp, stack.bytes
      ensures value == old(S.Exec(bytecode.bytes, bytecode.constants, View())).value
    {
      var code, pool := bytecode.bytes, bytecode.constants;
      ghost var cursor, unit := sp, bytecode;
      ghost var run := S.Exec(code, pool, View());
      while true
        invariant Running() && sp == cursor && bytecode == unit
        invariant bytecode.bytes == code && bytecode.constants == pool
        invariant S.Exec(code, pool, View()) == run
        decreases |code| - ip.value.offset
      {
        ghost var before := View();
        var halted := Dispatch();
        if halted.Some? {
          return halted.value;
        }
        S.ExecNext(code, pool, before, View());
      }
    }

    /**
     * `interpret`: compiles the source, loads the unit, sets both cursors
     * to their bases and dispatches until `Ret`, whose popped value is
     * printed. A panic while compiling ends the call with that panic.
     */
    method Interpret(source: string, input: seq<Lexeme>) returns (r: Outcome<Result<(), Error>>, printed: Option<LoxValue>)
      requires Valid()
      modifies this, stack.bytes
      ensures r.Done? <==> InterpretSource(input).Done?
      ensures r.Panicked? ==> r.panic == InterpretSource(input).panic && printed == Option.None
      ensures r.Done? ==> r.value == Ok(()) && printed == Some(InterpretSource(input).value)
    {
      printed := Option.None;
      var compiled, listing := C.Compile(source, input);
      if compiled.Panicked? {
        return Panicked(compiled.panic), printed;
      }
      Load(compiled.value);
      CompiledSourceReturns(input, stack.bytes[..]);
      var value := DispatchLoop();
      printed := Some(value);
      r := Done(Ok(()));
    }
  }
}
