/**
 * What one dispatch of the VM does (src/vm.rs), as a function of the
 * instruction cursor, the stack-top cursor and the stack's slots. The
 * class `Vm.VM` performs these steps in place; `Exec` is its
 * specification. A `Fault` marks a step the source never checks for: a
 * read past the byte stream, an undecodable opcode, a constant index
 * outside the pool, or a raw-pointer move below the stack's base or past
 * its end.
 */
module MachineSpec {
  import opened Wrappers
  import opened Opcodes
  import opened Values
  import opened Ast
  import opened BytecodeCompilation

  /** `STACK_SIZE`. */
  const STACK_SIZE: nat := 10

  /** The VM's cursors and stack contents. */
  datatype Machine = Machine(ip: nat, sp: nat, slots: seq<LoxValue>)

  datatype Step = Next(next: Machine) | Halt(value: LoxValue, final: Machine) | Fault

  datatype Run = Returned(value: LoxValue, final: Machine) | Faulted

  /** `push`: write at `sp`, then move `sp` up. */
  function Push(m: Machine, v: LoxValue): (t: Machine)
    requires m.sp < |m.slots|
    ensures t.ip == m.ip && t.sp == m.sp + 1 && |t.slots| == |m.slots|
    ensures t.slots[m.sp] == v && forall i | 0 <= i < |m.slots| && i != m.sp :: t.slots[i] == m.slots[i]
  {
    m.(slots := m.slots[m.sp := v], sp := m.sp + 1)
  }

  /** `pop`: move `sp` down, then read there; the slot keeps its value. */
  function Pop(m: Machine): (r: (LoxValue, Machine))
    requires 0 < m.sp <= |m.slots|
    ensures r.0 == m.slots[m.sp - 1]
    ensures r.1.ip == m.ip && r.1.sp == m.sp - 1 && r.1.slots == m.slots
  {
    (m.slots[m.sp - 1], m.(sp := m.sp - 1))
  }

  /** Popping right after a push gives the pushed value back and restores `sp`; lower slots are untouched. */
  lemma PopAfterPush(m: Machine, v: LoxValue)
    requires m.sp < |m.slots|
    ensures Pop(Push(m, v)).0 == v
    ensures Pop(Push(m, v)).1.sp == m.sp && Pop(Push(m, v)).1.ip == m.ip
    ensures Pop(Push(m, v)).1.slots[..m.sp] == m.slots[..m.sp]
  {
  }

  /** The value a binary opcode pushes for operands `a` (pushed first) and `b`. */
  function Combine(op: Op, a: F64, b: F64): F64
    requires op.Add? || op.Subtract? || op.Multiply? || op.Divide?
  {
    match op
    case Add => Sum(a, b)
    case Subtract => Difference(a, b)
    case Multiply => Product(a, b)
    case Divide => Quotient(a, b)
  }

  /** `op_add` and its siblings: pop `b` (the right operand), pop `a`, push `a OP b`. */
  function Arith(m: Machine, op: Op): (r: Step)
    requires op.Add? || op.Subtract? || op.Multiply? || op.Divide?
    ensures r.Next? <==> 2 <= m.sp <= |m.slots|
    ensures r.Fault? <==> !r.Next?
    ensures r.Next? ==>
      && r.next.ip == m.ip && r.next.sp == m.sp - 1 && |r.next.slots| == |m.slots|
      && r.next.slots[..m.sp - 2] == m.slots[..m.sp - 2]
      && r.next.slots[m.sp - 2] == LoxValue.Number(Combine(op, m.slots[m.sp - 2].num, m.slots[m.sp - 1].num))
  {
    if m.sp < 2 || m.sp > |m.slots| then Fault
    else
      var (b, m1) := Pop(m);
      var (a, m2) := Pop(m1);
      Next(Push(m2, LoxValue.Number(Combine(op, a.num, b.num))))
  }

  /** Executes `op` once its byte has been fetched and `ip` moved past it. */
  function Execute(code: seq<u8>, pool: seq<LoxValue>, op: Op, m: Machine): (r: Step)
    ensures r.Halt? <==> op.Ret? && 1 <= m.sp <= |m.slots|
    ensures r.Halt? ==> r.value == m.slots[m.sp - 1] && r.final.ip == m.ip && r.final.sp == m.sp - 1
    ensures r.Next? && op.ConstantSmall? ==>
      && m.ip < |code| && code[m.ip] < |pool| && m.sp < |m.slots| == |r.next.slots|
      && r.next.ip == m.ip + 1 && r.next.sp == m.sp + 1 && r.next.slots[m.sp] == pool[code[m.ip]]
    ensures r.Next? && (op.Add? || op.Subtract? || op.Multiply? || op.Divide?) ==>
      r.next.ip == m.ip && r.next.sp == m.sp - 1
    ensures r.Next? && op.Negate? ==> r.next.ip == m.ip && r.next.sp == m.sp
  {
    if op.ConstantSmall? then
      // read_constant: the operand byte, then ip + 1, then the pool entry
      if m.ip >= |code| || code[m.ip] >= |pool| || m.sp >= |m.slots| then Fault
      else Next(Push(m.(ip := m.ip + 1), pool[code[m.ip]]))
    else if op.Add? || op.Subtract? || op.Multiply? || op.Divide? then Arith(m, op)
    else if op.Negate? then
      if m.sp < 1 || m.sp > |m.slots| then Fault
      else
        var (v, m1) := Pop(m);
        Next(Push(m1, LoxValue.Number(Negation(v.num))))
    else
      // Ret
      if m.sp < 1 || m.sp > |m.slots| then Fault
      else
        var (v, m1) := Pop(m);
        Halt(v, m1)
  }

  /** One turn of the dispatch loop: read the opcode at `ip`, move `ip` up by one, execute. */
  function StepAt(code: seq<u8>, pool: seq<LoxValue>, m: Machine): (r: Step)
    ensures r.Next? ==> m.ip < r.next.ip <= |code| && |r.next.slots| == |m.slots|
    ensures r.Halt? ==> r.final.ip == m.ip + 1 && |r.final.slots| == |m.slots|
  {
    if m.ip >= |code| then Fault
    else match TryFromPrimitive(code[m.ip])
      case Err(_) => Fault
      case Ok(op) => Execute(code, pool, op, m.(ip := m.ip + 1))
  }

  /** The dispatch loop run to its end; `ip` grows every turn, so it ends. */
  function Exec(code: seq<u8>, pool: seq<LoxValue>, m: Machine): (r: Run)
    ensures r.Returned? ==> m.ip < r.final.ip <= |code| && |r.final.slots| == |m.slots|
    decreases |code| - m.ip
  {
    match StepAt(code, pool, m)
    case Fault => Faulted
    case Halt(v, final) => Returned(v, final)
    case Next(m1) => Exec(code, pool, m1)
  }

  /** A load reads the one operand byte, advances `ip` by two in all and pushes that pool entry. */
  lemma ConstantSmallStep(code: seq<u8>, pool: seq<LoxValue>, m: Machine)
    requires m.ip + 1 < |code| && code[m.ip] == ToU8(ConstantSmall)
    requires code[m.ip + 1] < |pool| && m.sp < |m.slots|
    ensures StepAt(code, pool, m)
         == Next(Machine(m.ip + 2, m.sp + 1, m.slots[m.sp := pool[code[m.ip + 1]]]))
  {
  }

  /**
   * Each of the four arithmetic opcodes pops `b` (the right operand, pushed
   * last), then `a`, and pushes `a OP b`: the stack shrinks by one.
   */
  lemma ArithStep(code: seq<u8>, pool: seq<LoxValue>, m: Machine, op: Op)
    requires op.Add? || op.Subtract? || op.Multiply? || op.Divide?
    requires m.ip < |code| && code[m.ip] == ToU8(op)
    requires 2 <= m.sp <= |m.slots|
    ensures var a, b := m.slots[m.sp - 2].num, m.slots[m.sp - 1].num;
      StepAt(code, pool, m) == Next(Machine(m.ip + 1, m.sp - 1, m.slots[m.sp - 2 := LoxValue.Number(
        if op.Add? then Sum(a, b)
        else if op.Subtract? then Difference(a, b)
        else if op.Multiply? then Product(a, b)
        else Quotient(a, b))]))
  {
    DecodeEncode(op);
  }

  /** An arithmetic opcode on fewer than two values faults: the source would move its pointer below the stack. */
  lemma ArithUnderflow(code: seq<u8>, pool: seq<LoxValue>, m: Machine, op: Op)
    requires op.Add? || op.Subtract? || op.Multiply? || op.Divide?
    requires m.ip < |code| && code[m.ip] == ToU8(op)
    requires m.sp < 2
    ensures StepAt(code, pool, m) == Fault
  {
    DecodeEncode(op);
  }

  /** Negation pops one value and pushes its negation; the depth is unchanged. */
  lemma NegateStep(code: seq<u8>, pool: seq<LoxValue>, m: Machine)
    requires m.ip < |code| && code[m.ip] == ToU8(Negate)
    requires 1 <= m.sp <= |m.slots|
    ensures StepAt(code, pool, m) == Next(Machine(m.ip + 1, m.sp,
      m.slots[m.sp - 1 := LoxValue.Number(Negation(m.slots[m.sp - 1].num))]))
  {
  }

  /** `Ret` pops the top value and ends the run with it. */
  lemma RetStep(code: seq<u8>, pool: seq<LoxValue>, m: Machine)
    requires m.ip < |code| && code[m.ip] == ToU8(Ret)
    requires 1 <= m.sp <= |m.slots|
    ensures Exec(code, pool, m) == Returned(m.slots[m.sp - 1], m.(ip := m.ip + 1, sp := m.sp - 1))
  {
  }

  /** A step that continues leaves the rest of the run as it was. */
  lemma ExecNext(code: seq<u8>, pool: seq<LoxValue>, m: Machine, m1: Machine)
    requires StepAt(code, pool, m) == Next(m1)
    ensures Exec(code, pool, m) == Exec(code, pool, m1)
  {
  }

  /** The operator byte the walk emits for `op`, run on two values, leaves their combination as `Eval` defines it. */
  lemma BinaryStep(code: seq<u8>, pool: seq<LoxValue>, m: Machine, op: BinOpKind, x: F64, y: F64)
    requires m.ip < |code| && code[m.ip] == ToU8(OpFor(op))
    requires 2 <= m.sp <= |m.slots|
    requires m.slots[m.sp - 2] == LoxValue.Number(x) && m.slots[m.sp - 1] == LoxValue.Number(y)
    ensures StepAt(code, pool, m) == Next(Machine(m.ip + 1, m.sp - 1,
      m.slots[m.sp - 2 := LoxValue.Number(if op == BinOpKind.Add then Sum(x, y) else Difference(x, y))]))
  {
  }

  /** Stack slots the postfix code of `e` needs above the current top. */
  function Need(e: Expr): (n: nat)
    ensures n >= 1
  {
    match e.kind
    case Lit(_) => 1
    case Binary(_, lhs, rhs) =>
      var l, r := Need(lhs), 1 + Need(rhs);
      if l < r then r else l
  }

  /**
   * The machine the postfix code of `e` leaves behind: `ip` moved past the
   * code (two bytes per literal, one per binary node), one more value on
   * the stack, that value the one `e` denotes, and every slot below the old
   * top as it was. Slots above the new top hold what the operands' code
   * left there.
   */
  function After(e: Expr, m: Machine): (m': Machine)
    requires m.sp + Need(e) <= |m.slots|
    ensures m'.ip == m.ip + 2 * LeafCount(e) + BinaryCount(e) && m'.sp == m.sp + 1 && |m'.slots| == |m.slots|
    ensures m'.slots[..m.sp] == m.slots[..m.sp] && m'.slots[m.sp] == LoxValue.Number(Eval(e))
    decreases e
  {
    match e.kind
    case Lit(lit) => Machine(m.ip + 2, m.sp + 1, m.slots[m.sp := FromF64(lit.symbol)])
    case Binary(op, lhs, rhs) =>
      var m1 := After(lhs, m);
      var m2 := After(rhs, m1);
      assert m2.slots[..m.sp] == m1.slots[..m.sp] by {
        assert m2.slots[..m.sp] == m2.slots[..m1.sp][..m.sp];
      }
      Machine(m2.ip + 1, m.sp + 1, m2.slots[m.sp := LoxValue.Number(Eval(e))])
  }

  /** `trace` is a sequence of dispatch turns, each continuing to the next machine. */
  ghost predicate Steps(code: seq<u8>, pool: seq<LoxValue>, trace: seq<Machine>)
  {
    forall i {:trigger StepAt(code, pool, trace[i])} | 0 <= i < |trace| - 1 ::
      StepAt(code, pool, trace[i]) == Next(trace[i + 1])
  }

  /** `trace` goes turn by turn from `from` to `to`. */
  ghost predicate Runs(code: seq<u8>, pool: seq<LoxValue>, trace: seq<Machine>, from: Machine, to: Machine)
  {
    |trace| >= 1 && trace[0] == from && trace[|trace| - 1] == to && Steps(code, pool, trace)
  }

  /** Two runs, the second starting where the first ends, make one run. */
  lemma StepsAppend(code: seq<u8>, pool: seq<LoxValue>, t1: seq<Machine>, t2: seq<Machine>)
    requires |t1| >= 1 && |t2| >= 1 && t1[|t1| - 1] == t2[0]
    requires Steps(code, pool, t1) && Steps(code, pool, t2)
    ensures Steps(code, pool, t1 + t2[1..])
  {
    var t := t1 + t2[1..];
    forall i | 0 <= i < |t| - 1
      ensures StepAt(code, pool, t[i]) == Next(t[i + 1])
    {
      if i < |t1| - 1 {
        assert t[i] == t1[i] && t[i + 1] == t1[i + 1];
      } else {
        var j := i - |t1| + 1;
        assert t[i] == t2[j] && t[i + 1] == t2[j + 1];
        assert StepAt(code, pool, t2[j]) == Next(t2[j + 1]);
      }
    }
  }

  /** A run of continuing turns leaves the rest of the dispatch loop as it was. */
  lemma {:induction false} StepsExec(code: seq<u8>, pool: seq<LoxValue>, trace: seq<Machine>)
    requires |trace| >= 1 && Steps(code, pool, trace)
    ensures Exec(code, pool, trace[0]) == Exec(code, pool, trace[|trace| - 1])
    decreases |trace|
  {
    if |trace| > 1 {
      assert StepAt(code, pool, trace[0]) == Next(trace[1]);
      ExecNext(code, pool, trace[0], trace[1]);
      var rest := trace[1..];
      assert Steps(code, pool, rest) by {
        forall i | 0 <= i < |rest| - 1
          ensures StepAt(code, pool, rest[i]) == Next(rest[i + 1])
        {
          assert rest[i] == trace[i + 1] && rest[i + 1] == trace[i + 2];
        }
      }
      StepsExec(code, pool, rest);
    }
  }

  /**
   * The code emitted for `e` sits at `ip` inside `code`, its constants sit
   * at `base` in the pool, and the stack has room for it.
   */
  ghost predicate Placed(e: Expr, base: nat, code: seq<u8>, pool: seq<LoxValue>, m: Machine)
  {
    && base + LeafCount(e) <= U8_MAX as nat
    && m.ip + |Emit(e, base)| <= |code| && code[m.ip..m.ip + |Emit(e, base)|] == Emit(e, base)
    && base + LeafCount(e) <= |pool| && pool[base..base + LeafCount(e)] == Constants(e)
    && m.sp + Need(e) <= |m.slots|
  }

  /** Running placed code for `e` goes turn by turn from `m` to `After(e, m)`. */
  lemma EmitSteps(e: Expr, base: nat, code: seq<u8>, pool: seq<LoxValue>, m: Machine)
    returns (trace: seq<Machine>)
    requires Placed(e, base, code, pool, m)
    ensures Runs(code, pool, trace, m, After(e, m))
    decreases e, 2
  {
    if e.kind.Lit? {
      trace := LiteralSteps(e, base, code, pool, m);
    } else {
      trace := BinarySteps(e, base, code, pool, m);
    }
  }

  /** A literal's code is one load. */
  lemma LiteralSteps(e: Expr, base: nat, code: seq<u8>, pool: seq<LoxValue>, m: Machine)
    returns (trace: seq<Machine>)
    requires e.kind.Lit? && Placed(e, base, code, pool, m)
    ensures Runs(code, pool, trace, m, After(e, m))
  {
    assert code[m.ip] == Emit(e, base)[0];
    assert code[m.ip + 1] == Emit(e, base)[1];
    assert pool[base] == Constants(e)[0];
    ConstantSmallStep(code, pool, m);
    trace := [m, After(e, m)];
    assert StepAt(code, pool, trace[0]) == Next(trace[1]);
  }

  /** A binary node's code is its left operand's, its right operand's, then the operator. */
  lemma BinarySteps(e: Expr, base: nat, code: seq<u8>, pool: seq<LoxValue>, m: Machine)
    returns (trace: seq<Machine>)
    requires e.kind.Binary? && Placed(e, base, code, pool, m)
    ensures Runs(code, pool, trace, m, After(e, m))
    decreases e, 1
  {
    var m1 := After(e.kind.lhs, m);
    var m2 := After(e.kind.rhs, m1);
    var t1 := LeftSteps(e, base, code, pool, m);
    var t2 := RightSteps(e, base, code, pool, m);
    trace := FinishBinary(e, base, code, pool, m, t1, t2, m1, m2);
  }

  /** The left operand's code runs from `m` to where it stops. */
  lemma LeftSteps(e: Expr, base: nat, code: seq<u8>, pool: seq<LoxValue>, m: Machine)
    returns (trace: seq<Machine>)
    requires e.kind.Binary? && Placed(e, base, code, pool, m)
    ensures Runs(code, pool, trace, m, After(e.kind.lhs, m))
    decreases e, 0
  {
    BinaryPlacedLeft(e, base, code, pool, m);
    trace := EmitSteps(e.kind.lhs, base, code, pool, m);
  }

  /** The right operand's code runs from there to where it stops. */
  lemma RightSteps(e: Expr, base: nat, code: seq<u8>, pool: seq<LoxValue>, m: Machine)
    returns (trace: seq<Machine>)
    requires e.kind.Binary? && Placed(e, base, code, pool, m)
    ensures var m1 := After(e.kind.lhs, m);
      Runs(code, pool, trace, m1, After(e.kind.rhs, m1))
    decreases e, 0
  {
    BinaryPlacedRight(e, base, code, pool, m);
    trace := EmitSteps(e.kind.rhs, base + LeafCount(e.kind.lhs), code, pool, After(e.kind.lhs, m));
  }

  /** Both operands' runs and the operator byte make the node's run. */
  lemma FinishBinary(e: Expr, base: nat, code: seq<u8>, pool: seq<LoxValue>, m: Machine,
                     t1: seq<Machine>, t2: seq<Machine>, m1: Machine, m2: Machine)
    returns (trace: seq<Machine>)
    requires e.kind.Binary? && Placed(e, base, code, pool, m)
    requires m1 == After(e.kind.lhs, m) && m2 == After(e.kind.rhs, m1)
    requires Runs(code, pool, t1, m, m1) && Runs(code, pool, t2, m1, m2)
    ensures Runs(code, pool, trace, m, After(e, m))
  {
    OperatorByte(e, base, code, pool, m);
    AfterBinary(e, m);
    BinaryFinalStep(e, code, pool, m, m2);
    trace := StepsJoin(code, pool, t1, t2, m, m1, m2, After(e, m));
  }

  /** Where the code and constants of a binary node sit, those of its left operand sit at the start. */
  lemma BinaryPlacedLeft(e: Expr, base: nat, code: seq<u8>, pool: seq<LoxValue>, m: Machine)
    requires e.kind.Binary? && Placed(e, base, code, pool, m)
    ensures Placed(e.kind.lhs, base, code, pool, m)
  {
    var op, lhs, rhs, ll := e.kind.op, e.kind.lhs, e.kind.rhs, LeafCount(e.kind.lhs);
    SplitCode(code, m.ip, Emit(lhs, base), Emit(rhs, base + ll), ToU8(OpFor(op)));
    SplitPool(pool, base, Constants(lhs), Constants(rhs));
  }

  /** Those of its right operand sit where the left operand's run stops. */
  lemma BinaryPlacedRight(e: Expr, base: nat, code: seq<u8>, pool: seq<LoxValue>, m: Machine)
    requires e.kind.Binary? && Placed(e, base, code, pool, m)
    ensures Placed(e.kind.rhs, base + LeafCount(e.kind.lhs), code, pool, After(e.kind.lhs, m))
  {
    var op, lhs, rhs, ll := e.kind.op, e.kind.lhs, e.kind.rhs, LeafCount(e.kind.lhs);
    EmitLength(lhs, base);
    SplitCode(code, m.ip, Emit(lhs, base), Emit(rhs, base + ll), ToU8(OpFor(op)));
    SplitPool(pool, base, Constants(lhs), Constants(rhs));
  }

  /** The byte after both operands' code is the node's operator. */
  lemma OperatorByte(e: Expr, base: nat, code: seq<u8>, pool: seq<LoxValue>, m: Machine)
    requires e.kind.Binary? && Placed(e, base, code, pool, m)
    ensures var lhs, rhs := e.kind.lhs, e.kind.rhs;
      var i := m.ip + 2 * LeafCount(lhs) + BinaryCount(lhs) + 2 * LeafCount(rhs) + BinaryCount(rhs);
      i < |code| && code[i] == ToU8(OpFor(e.kind.op))
  {
    var op, lhs, rhs, ll := e.kind.op, e.kind.lhs, e.kind.rhs, LeafCount(e.kind.lhs);
    EmitLength(lhs, base);
    EmitLength(rhs, base + ll);
    SplitCode(code, m.ip, Emit(lhs, base), Emit(rhs, base + ll), ToU8(OpFor(op)));
  }

  /**
   * After both operands' code the stack holds their two values on top of
   * the old top; the node's machine then replaces them by the node's value.
   */
  lemma AfterBinary(e: Expr, m: Machine)
    requires e.kind.Binary? && m.sp + Need(e) <= |m.slots|
    ensures var lhs, rhs := e.kind.lhs, e.kind.rhs;
      var m2 := After(rhs, After(lhs, m));
      && m2.ip == m.ip + 2 * LeafCount(lhs) + BinaryCount(lhs) + 2 * LeafCount(rhs) + BinaryCount(rhs)
      && m2.sp == m.sp + 2 && |m2.slots| == |m.slots|
      && m2.slots[m.sp] == LoxValue.Number(Eval(lhs)) && m2.slots[m.sp + 1] == LoxValue.Number(Eval(rhs))
      && After(e, m) == Machine(m2.ip + 1, m.sp + 1, m2.slots[m.sp := LoxValue.Number(Eval(e))])
  {
    var lhs, rhs := e.kind.lhs, e.kind.rhs;
    var m1 := After(lhs, m);
    var m2 := After(rhs, m1);
    assert m2.slots[m.sp] == m1.slots[m.sp];
  }

  /** The operator byte, run after both operands' code, leaves the node's value. */
  lemma BinaryFinalStep(e: Expr, code: seq<u8>, pool: seq<LoxValue>, m: Machine, m2: Machine)
    requires e.kind.Binary? && m.sp + Need(e) <= |m.slots|
    requires m2 == After(e.kind.rhs, After(e.kind.lhs, m))
    requires m2.ip < |code| && code[m2.ip] == ToU8(OpFor(e.kind.op))
    ensures StepAt(code, pool, m2) == Next(After(e, m))
  {
    var op, lhs, rhs := e.kind.op, e.kind.lhs, e.kind.rhs;
    AfterBinary(e, m);
    BinaryStep(code, pool, m2, op, Eval(lhs), Eval(rhs));
    var v := LoxValue.Number(if op == BinOpKind.Add then Sum(Eval(lhs), Eval(rhs)) else Difference(Eval(lhs), Eval(rhs)));
    assert v == LoxValue.Number(Eval(e));
  }

  /** A run to `m1`, a run from there to `m2` and one more turn make one run. */
  lemma StepsJoin(code: seq<u8>, pool: seq<LoxValue>, t1: seq<Machine>, t2: seq<Machine>,
                  m: Machine, m1: Machine, m2: Machine, m': Machine)
    returns (trace: seq<Machine>)
    requires Runs(code, pool, t1, m, m1) && Runs(code, pool, t2, m1, m2)
    requires StepAt(code, pool, m2) == Next(m')
    ensures Runs(code, pool, trace, m, m')
  {
    var t3 := [m2, m'];
    assert StepAt(code, pool, t3[0]) == Next(t3[1]);
    StepsAppend(code, pool, t1, t2);
    StepsAppend(code, pool, t1 + t2[1..], t3);
    trace := t1 + t2[1..] + t3[1..];
  }

  /**
   * Running the code emitted for `e`, placed at `ip` inside `code` with its
   * constants at `base` in the pool, reaches `After(e, m)`: the rest
   * of the run is the run from there.
   */
  lemma EmitRuns(e: Expr, base: nat, code: seq<u8>, pool: seq<LoxValue>, m: Machine)
    requires Placed(e, base, code, pool, m)
    ensures Exec(code, pool, m) == Exec(code, pool, After(e, m))
  {
    var trace := EmitSteps(e, base, code, pool, m);
    StepsExec(code, pool, trace);
  }

  /** Where the code of a binary node sits, the code of its operands and its operator byte sit in turn. */
  lemma SplitCode(code: seq<u8>, i: nat, left: seq<u8>, right: seq<u8>, b: u8)
    requires i + |left + right + [b]| <= |code| && code[i..i + |left + right + [b]|] == left + right + [b]
    ensures code[i..i + |left|] == left
    ensures code[i + |left|..i + |left| + |right|] == right
    ensures code[i + |left| + |right|] == b
  {
    var whole := left + right + [b];
    var n, l, r := |whole|, |left|, |right|;
    assert whole[..l] == left && whole[l..l + r] == right && whole[l + r] == b;
    assert code[i..i + n][..l] == code[i..i + l];
    var inner, outer := code[i..i + n][l..l + r], code[i + l..i + l + r];
    forall k | 0 <= k < r
      ensures inner[k] == outer[k]
    {
      assert inner[k] == code[i + l + k];
    }
    assert inner == outer;
    assert code[i..i + n][l + r] == code[i + l + r];
  }

  /** Where the constants of a binary node sit, those of its operands sit in turn. */
  lemma SplitPool(pool: seq<LoxValue>, base: nat, left: seq<LoxValue>, right: seq<LoxValue>)
    requires base + |left + right| <= |pool| && pool[base..base + |left + right|] == left + right
    ensures pool[base..base + |left|] == left
    ensures pool[base + |left|..base + |left| + |right|] == right
  {
    var whole := left + right;
    assert pool[base..base + |left|] == whole[..|left|];
    assert pool[base + |left|..base + |left| + |right|] == whole[|left|..];
  }

  /**
   * A compiled unit (the walk's code followed by `Ret`), run from `ip = 0`
   * and `sp = 0` on a stack deep enough, returns the value the tree
   * denotes and leaves the stack empty.
   */
  lemma CompiledProgramReturns(e: Expr, slots: seq<LoxValue>)
    requires LeafCount(e) <= U8_MAX as nat && Need(e) <= |slots|
    ensures var r := Exec(Emit(e, 0) + [ToU8(Ret)], Constants(e), Machine(0, 0, slots));
      r.Returned? && r.value == LoxValue.Number(Eval(e))
      && r.final.ip == |Emit(e, 0)| + 1 && r.final.sp == 0 && |r.final.slots| == |slots|
  {
    var code := Emit(e, 0) + [ToU8(Ret)];
    var pool := Constants(e);
    assert code[0..|Emit(e, 0)|] == Emit(e, 0);
    assert pool[0..LeafCount(e)] == pool;
    EmitRuns(e, 0, code, pool, Machine(0, 0, slots));
    var m := After(e, Machine(0, 0, slots));
    EmitLength(e, 0);
    assert code[m.ip] == ToU8(Ret);
    RetStep(code, pool, m);
  }

  /** The parser's `a + b` needs two slots. */
  lemma LiteralSumNeedsTwo(e: Expr)
    requires IsLiteralSum(e)
    ensures Need(e) == 2 && LeafCount(e) == 2
  {
  }
}
