/** The stack machine of the `src/` interpreter (`src/vm.rs`): a value
    stack, an instruction pointer into one chunk, and a dispatch loop that
    runs until `Return`, a runtime error or a panic.

    The machine is specified by `Step` and `Exec`, functions on a
    `Machine` value; the class `VM` updates its fields in place and its
    `Run` loop is proved to end as `Exec` does. The trace the loop prints
    before each instruction is left out; what reaches standard error
    (`errors`) and the value `Return` prints (`printed`) are kept. */
module LoxVm {
  import opened Base
  import LoxChunk
  import LoxCompiler
  import V = LoxValue

  /** `InterpretResult`. */
  datatype InterpretResult = Ok | CompileError | RuntimeError

  /** How a run ends: with a result, or by a Rust panic (an `unwrap` on an
      empty stack, an index out of bounds, an unknown opcode). */
  datatype RunResult = Finished(result: InterpretResult) | Panicked

  /** What `runtime_error` prints: the message and the line of the failing
      instruction. */
  datatype RuntimeReport = RuntimeReport(message: string, line: int)

  /** The state the run changes: the instruction pointer, the stack, and
      what has been printed. */
  datatype Machine = Machine(ip: nat, stack: seq<V.Value>, errors: seq<RuntimeReport>, printed: seq<V.Value>)

  /** One instruction either leaves the machine running or stops it. A
      panic stops it in whatever state. */
  datatype Outcome = Running(m: Machine) | Stopped(result: RunResult, m: Machine)

  /** The chunk as the machine sees it. */
  datatype Program = Program(code: seq<byte>, constants: seq<V.Value>, lines: seq<int>)

  // ---------------------------------------------------------------------
  // The binary operators: the finding and the corrected behaviour

  /** The operators of the `binary_op!` macro. */
  predicate IsArith(op: LoxChunk.Op)
  {
    op in {LoxChunk.Greater, LoxChunk.Less, LoxChunk.Subtract, LoxChunk.Multiply, LoxChunk.Divide}
  }

  /** `left op right`, wrapped in the variant the macro names. */
  function Apply(ops: FloatOps, op: LoxChunk.Op, left: F64, right: F64): (v: V.Value)
    requires IsArith(op)
  {
    match op
    case Greater => V.Bool(ops.greater(left, right))
    case Less => V.Bool(ops.less(left, right))
    case Subtract => V.Number(ops.sub(left, right))
    case Multiply => V.Number(ops.mul(left, right))
    case Divide => V.Number(ops.div(left, right))
  }

  /** `binary_op!` as written: it binds `b` to `peek(1)` (the left operand)
      and `a` to `peek(0)` (the right one) and computes `a op b`, that is
      the top of the stack on the left. */
  function ArithAsWritten(ops: FloatOps, op: LoxChunk.Op, second: F64, top: F64): V.Value
    requires IsArith(op)
  {
    var b := second;
    var a := top;
    Apply(ops, op, a, b)
  }

  /** `binary_op!` as evidently intended, like `Add` and the compiler's
      operand order: the left operand was pushed first. */
  function ArithIntended(ops: FloatOps, op: LoxChunk.Op, second: F64, top: F64): (v: V.Value)
    requires IsArith(op)
    ensures op == LoxChunk.Subtract ==> v == V.Number(ops.sub(second, top))
    ensures op == LoxChunk.Divide ==> v == V.Number(ops.div(second, top))
    ensures op == LoxChunk.Less ==> v == V.Bool(ops.less(second, top))
    ensures op == LoxChunk.Greater ==> v == V.Bool(ops.greater(second, top))
    ensures op == LoxChunk.Multiply ==> v == V.Number(ops.mul(second, top))
  {
    Apply(ops, op, second, top)
  }

  /** The macro as written swaps the operands of the intended operation. */
  lemma ArithAsWrittenSwaps(ops: FloatOps, op: LoxChunk.Op, second: F64, top: F64)
    requires IsArith(op)
    ensures ArithAsWritten(ops, op, second, top) == ArithIntended(ops, op, top, second)
  {
  }

  /** Host operations whose numbers are the integers, for a counterexample. */
  function IntegerOps(): (ops: FloatOps)
    ensures forall x, y :: ops.sub(x, y) == F64(x.bits - y.bits)
    ensures forall x, y :: ops.less(x, y) == (x.bits < y.bits)
  {
    FloatOps(
      (x: F64, y: F64) => F64(x.bits + y.bits),
      (x: F64, y: F64) => F64(x.bits - y.bits),
      (x: F64, y: F64) => F64(x.bits * y.bits),
      (x: F64, y: F64) => x,
      (x: F64) => F64(-x.bits),
      (x: F64, y: F64) => x.bits > y.bits,
      (x: F64, y: F64) => x.bits < y.bits,
      (x: F64, y: F64) => x == y,
      (s: string) => F64(0))
  }

  /** `3 - 1` evaluates to -2 as written and to 2 as intended, and `1 < 2`
      to false as written. */
  lemma ArithCounterexample()
    ensures ArithAsWritten(IntegerOps(), LoxChunk.Subtract, F64(3), F64(1)) == V.Number(F64(-2))
    ensures ArithIntended(IntegerOps(), LoxChunk.Subtract, F64(3), F64(1)) == V.Number(F64(2))
    ensures ArithAsWritten(IntegerOps(), LoxChunk.Less, F64(1), F64(2)) == V.Bool(false)
    ensures ArithIntended(IntegerOps(), LoxChunk.Less, F64(1), F64(2)) == V.Bool(true)
  {
    var ops := IntegerOps();
    assert ops.sub(F64(1), F64(3)) == F64(-2);
    assert ops.sub(F64(3), F64(1)) == F64(2);
    assert !ops.less(F64(2), F64(1));
    assert ops.less(F64(1), F64(2));
  }

  // ---------------------------------------------------------------------
  // One instruction

  /** `runtime_error` once the instruction's byte has been read (`m.ip` is
      one past it): the report names the instruction's line, the stack is
      cleared, and the run ends with `RuntimeError`; a line past the end of
      `lines` panics. */
  function RuntimeFailure(p: Program, m: Machine, message: string): (o: Outcome)
    requires m.ip >= 1
    ensures o.Stopped?
    ensures o.result == Panicked <==> m.ip - 1 >= |p.lines|
    ensures o.result != Panicked ==>
      o.result == Finished(InterpretResult.RuntimeError) && o.m.stack == [] && o.m.ip == m.ip && o.m.printed == m.printed
      && o.m.errors == m.errors + [RuntimeReport(message, p.lines[m.ip - 1])]
  {
    if m.ip - 1 >= |p.lines| then Stopped(Panicked, m)
    else Stopped(Finished(InterpretResult.RuntimeError), m.(stack := [], errors := m.errors + [RuntimeReport(message, p.lines[m.ip - 1])]))
  }

  /** The `binary_op!` operators as written: both `peek`s panic below two
      values; two numbers are replaced by the result, computed with the
      top of the stack on the left; anything else is a runtime error. */
  function StepArith(ops: FloatOps, p: Program, op: LoxChunk.Op, m: Machine): Outcome
    requires IsArith(op) && m.ip >= 1
  {
    var n := |m.stack|;
    if n < 2 then Stopped(Panicked, m)
    else match (m.stack[n - 2], m.stack[n - 1])
      case (Number(x), Number(y)) => Running(m.(stack := m.stack[..n - 2] + [ArithAsWritten(ops, op, x, y)]))
      case _ => RuntimeFailure(p, m, "Operands must be numbers.")
  }

  /** `Add`: the sum of the two numbers, left operand first. */
  function StepAdd(ops: FloatOps, p: Program, m: Machine): Outcome
    requires m.ip >= 1
  {
    var n := |m.stack|;
    if n < 2 then Stopped(Panicked, m)
    else match (m.stack[n - 2], m.stack[n - 1])
      case (Number(x), Number(y)) => Running(m.(stack := m.stack[..n - 2] + [V.Number(ops.add(x, y))]))
      case _ => RuntimeFailure(p, m, "Operands must be numbers.")
  }

  /** `Equal`: pops the right, then the left operand, and pushes whether
      they are equal; either `pop` can panic. */
  function StepEqual(ops: FloatOps, m: Machine): Outcome
  {
    var n := |m.stack|;
    if n < 2 then Stopped(Panicked, m)
    else Running(m.(stack := m.stack[..n - 2] + [V.Bool(V.Eq(ops, m.stack[n - 2], m.stack[n - 1]))]))
  }

  /** `Not`: replaces the top with whether it is falsy. */
  function StepNot(m: Machine): Outcome
  {
    var n := |m.stack|;
    if n == 0 then Stopped(Panicked, m)
    else Running(m.(stack := m.stack[..n - 1] + [V.Bool(V.IsFalsy(m.stack[n - 1]))]))
  }

  /** `Negate`: a number on top is negated; anything else is a runtime
      error. */
  function StepNegate(ops: FloatOps, p: Program, m: Machine): Outcome
    requires m.ip >= 1
  {
    var n := |m.stack|;
    if n == 0 then Stopped(Panicked, m)
    else if m.stack[n - 1].Number? then Running(m.(stack := m.stack[..n - 1] + [V.Number(ops.neg(m.stack[n - 1].n))]))
    else RuntimeFailure(p, m, "Operand must be a number.")
  }

  /** `Return`: pops and prints the top value and ends the run with `Ok`. */
  function StepReturn(m: Machine): Outcome
  {
    var n := |m.stack|;
    if n == 0 then Stopped(Panicked, m)
    else Stopped(Finished(InterpretResult.Ok), m.(stack := m.stack[..n - 1], printed := m.printed + [m.stack[n - 1]]))
  }

  /** One pass of the dispatch loop: `read_byte`, decode, execute. */
  function Step(ops: FloatOps, p: Program, m: Machine): (o: Outcome)
    ensures o.Running? ==> m.ip < o.m.ip <= |p.code|
    ensures o.Running? ==> o.m.errors == m.errors && o.m.printed == m.printed
  {
    if m.ip >= |p.code| then Stopped(Panicked, m)
    else
      var m1 := m.(ip := m.ip + 1);
      var n := |m.stack|;
      match LoxChunk.TryFrom(p.code[m.ip])
      case Err(_) => Stopped(Panicked, m1)
      case Ok(op) =>
        match op
        case Constant =>
          if m1.ip >= |p.code| || p.code[m1.ip] as nat >= |p.constants| then Stopped(Panicked, m1)
          else Running(m1.(ip := m1.ip + 1, stack := m.stack + [p.constants[p.code[m1.ip]]]))
        case Nil => Running(m1.(stack := m.stack + [V.Nil]))
        case True => Running(m1.(stack := m.stack + [V.Bool(true)]))
        case False => Running(m1.(stack := m.stack + [V.Bool(false)]))
        case Equal => StepEqual(ops, m1)
        case Add => StepAdd(ops, p, m1)
        case Not => StepNot(m1)
        case Negate => StepNegate(ops, p, m1)
        case Return => StepReturn(m1)
        case _ => StepArith(ops, p, op, m1)
  }

  /** `run`: steps until the machine stops. Every step that keeps it
      running moves `ip` forward (the code has no jumps), so every run
      ends. */
  function Exec(ops: FloatOps, p: Program, m: Machine): (o: Outcome)
    ensures o.Stopped?
    decreases |p.code| - m.ip
  {
    match Step(ops, p, m)
    case Running(m') => Exec(ops, p, m')
    case Stopped(r, m') => Stopped(r, m')
  }

  /** How many values an instruction leaves on the stack beyond what it
      found, when it keeps the machine running. */
  function StackEffect(op: LoxChunk.Op): int
  {
    match op
    case Constant => 1
    case Nil => 1
    case True => 1
    case False => 1
    case Not => 0
    case Negate => 0
    case _ => -1
  }

  /** Every instruction that keeps the machine running changes the stack
      by its effect, and leaves the values below its operands alone. */
  lemma StepStackEffect(ops: FloatOps, p: Program, m: Machine)
    requires m.ip < |p.code| && LoxChunk.TryFrom(p.code[m.ip]).Ok? && Step(ops, p, m).Running?
    ensures var op := LoxChunk.TryFrom(p.code[m.ip]).value;
      |Step(ops, p, m).m.stack| == |m.stack| + StackEffect(op)
      && (StackEffect(op) == 1 ==> Step(ops, p, m).m.stack[..|m.stack|] == m.stack)
      && (StackEffect(op) <= 0 ==> Step(ops, p, m).m.stack[..|m.stack| - 1 + StackEffect(op)] == m.stack[..|m.stack| - 1 + StackEffect(op)])
  {
    var op := LoxChunk.TryFrom(p.code[m.ip]).value;
    var o := Step(ops, p, m);
    var n := |m.stack|;
    if op == LoxChunk.Add || IsArith(op) {
      assert o.m.stack == m.stack[..n - 2] + [o.m.stack[n - 2]];
    }
  }

  /** `Return` pops the top value, prints it, and ends the run with `Ok`;
      on an empty stack it panics. */
  lemma ReturnStep(ops: FloatOps, p: Program, m: Machine)
    requires m.ip < |p.code| && p.code[m.ip] == LoxChunk.OpByte(LoxChunk.Return)
    ensures var o := Step(ops, p, m);
      if m.stack == [] then o.Stopped? && o.result == Panicked
      else o == Stopped(Finished(InterpretResult.Ok), Machine(m.ip + 1, m.stack[..|m.stack| - 1], m.errors, m.printed + [m.stack[|m.stack| - 1]]))
  {
    LoxChunk.TryFromInverse(LoxChunk.Return);
  }

  /** `Equal` pops the right and then the left operand and pushes whether
      they are equal. */
  lemma EqualStep(ops: FloatOps, p: Program, m: Machine, rest: seq<V.Value>, a: V.Value, b: V.Value)
    requires m.ip < |p.code| && p.code[m.ip] == LoxChunk.OpByte(LoxChunk.Equal) && m.stack == rest + [a, b]
    ensures Step(ops, p, m) == Running(m.(ip := m.ip + 1, stack := rest + [V.Bool(V.Eq(ops, a, b))]))
  {
    LoxChunk.TryFromInverse(LoxChunk.Equal);
    assert m.stack[..|m.stack| - 2] == rest;
  }

  /** `Not` replaces the top with whether it is falsy. */
  lemma NotStep(ops: FloatOps, p: Program, m: Machine, rest: seq<V.Value>, a: V.Value)
    requires m.ip < |p.code| && p.code[m.ip] == LoxChunk.OpByte(LoxChunk.Not) && m.stack == rest + [a]
    ensures Step(ops, p, m) == Running(m.(ip := m.ip + 1, stack := rest + [V.Bool(V.IsFalsy(a))]))
  {
    LoxChunk.TryFromInverse(LoxChunk.Not);
    assert m.stack[..|m.stack| - 1] == rest;
  }

  /** `Negate` of a number replaces it with its negation; of anything else
      it is a runtime error that empties the stack. */
  lemma NegateStep(ops: FloatOps, p: Program, m: Machine, rest: seq<V.Value>, a: V.Value)
    requires m.ip < |p.code| && m.ip < |p.lines| && p.code[m.ip] == LoxChunk.OpByte(LoxChunk.Negate) && m.stack == rest + [a]
    ensures a.Number? ==> Step(ops, p, m) == Running(m.(ip := m.ip + 1, stack := rest + [V.Number(ops.neg(a.n))]))
    ensures !a.Number? ==> Step(ops, p, m) == Stopped(Finished(InterpretResult.RuntimeError),
      m.(ip := m.ip + 1, stack := [], errors := m.errors + [RuntimeReport("Operand must be a number.", p.lines[m.ip])]))
  {
    LoxChunk.TryFromInverse(LoxChunk.Negate);
    assert m.stack[..|m.stack| - 1] == rest;
  }

  /** `Add` replaces the two numbers on top with their sum, left operand
      first; the other binary operators replace them with the result of
      applying the operator to the top value and then the one below it. */
  lemma ArithStep(ops: FloatOps, p: Program, m: Machine, op: LoxChunk.Op, rest: seq<V.Value>, x: F64, y: F64)
    requires IsArith(op) || op == LoxChunk.Add
    requires m.ip < |p.code| && p.code[m.ip] == LoxChunk.OpByte(op) && m.stack == rest + [V.Number(x), V.Number(y)]
    ensures Step(ops, p, m) == Running(m.(ip := m.ip + 1, stack := rest +
      [if op == LoxChunk.Add then V.Number(ops.add(x, y)) else Apply(ops, op, y, x)]))
  {
    LoxChunk.TryFromInverse(op);
    assert m.stack[..|m.stack| - 2] == rest;
  }

  /** `Constant` pushes the pool entry its operand names and skips the
      operand. */
  lemma ConstantStep(ops: FloatOps, p: Program, m: Machine)
    requires m.ip + 1 < |p.code| && p.code[m.ip] == LoxChunk.OpByte(LoxChunk.Constant)
    requires p.code[m.ip + 1] as nat < |p.constants|
    ensures Step(ops, p, m) == Running(m.(ip := m.ip + 2, stack := m.stack + [p.constants[p.code[m.ip + 1]]]))
  {
    LoxChunk.TryFromInverse(LoxChunk.Constant);
  }

  /** A run never yields `CompileError`; one that ends in a runtime error
      leaves the stack empty with one more report; one that ends with `Ok`
      printed exactly one more value and reported nothing. */
  lemma {:induction false} ExecOutcomes(ops: FloatOps, p: Program, m: Machine)
    ensures var o := Exec(ops, p, m);
      o.result != Finished(InterpretResult.CompileError)
      && (o.result == Finished(InterpretResult.RuntimeError) ==> o.m.stack == [] && |o.m.errors| == |m.errors| + 1)
      && (o.result == Finished(InterpretResult.Ok) ==> o.m.errors == m.errors && |o.m.printed| == |m.printed| + 1)
    decreases |p.code| - m.ip
  {
    var s := Step(ops, p, m);
    if s.Running? {
      ExecOutcomes(ops, p, s.m);
    } else if m.ip < |p.code| {
      var m1 := m.(ip := m.ip + 1);
      match LoxChunk.TryFrom(p.code[m.ip])
      case Err(_) =>
      case Ok(op) =>
        if op == LoxChunk.Add {
          assert s == StepAdd(ops, p, m1);
        } else if IsArith(op) {
          assert s == StepArith(ops, p, op, m1);
        }
    }
  }

  // ---------------------------------------------------------------------
  // The machine

  /** `VM`: the chunk (`Option<&Chunk>`, `null` for `None`), the
      instruction pointer and the stack; `errors` and `printed` collect
      the output. */
  class VM {
    const ops: FloatOps
    var chunk: LoxChunk.Chunk?<V.Value>
    var ip: nat
    var stack: seq<V.Value>
    var errors: seq<RuntimeReport>
    var printed: seq<V.Value>

    /** The machine state, as a value. */
    ghost function State(): (m: Machine)
      reads this
    {
      Machine(ip, stack, errors, printed)
    }

    /** The chunk, as a value. */
    ghost function Code(): (p: Program)
      reads this, chunk
      requires chunk != null
    {
      Program(chunk.code, chunk.constants, chunk.lines)
    }

    /** `VM::new` (the derived default). */
    constructor (ops: FloatOps)
      ensures this.ops == ops && chunk == null && ip == 0 && stack == [] && errors == [] && printed == []
    {
      this.ops := ops;
      chunk, ip, stack, errors, printed := null, 0, [], [], [];
    }

    /** `reset_stack`. */
    method ResetStack()
      modifies this`stack
      ensures stack == []
    {
      stack := [];
    }

    /** `runtime_error`: the report with the line of the instruction just
        read, then an empty stack. With `ip` at 0 the subtraction, and past
        the end of `lines` the index, panics (`false`). */
    method RuntimeError(message: string) returns (ok: bool)
      requires chunk != null
      modifies this`stack, this`errors
      ensures ok <==> 1 <= ip <= |chunk.lines|
      ensures ok ==> stack == [] && errors == old(errors) + [RuntimeReport(message, chunk.lines[ip - 1])]
    {
      if ip == 0 || ip - 1 >= |chunk.lines| {
        return false;
      }
      var line := chunk.lines[ip - 1];
      errors := errors + [RuntimeReport(message, line)];
      ResetStack();
      ok := true;
    }

    /** `push`. */
    method Push(value: V.Value)
      modifies this`stack
      ensures stack == old(stack) + [value]
    {
      stack := stack + [value];
    }

    /** `pop`: the top value, or a panic (`None`) on an empty stack. */
    method Pop() returns (value: Option<V.Value>)
      modifies this`stack
      ensures old(stack) == [] ==> value.None? && stack == old(stack)
      ensures old(stack) != [] ==> value == Some(old(stack)[|old(stack)| - 1]) && stack == old(stack)[..|old(stack)| - 1]
    {
      if stack == [] {
        return None;
      }
      value := Some(stack[|stack| - 1]);
      stack := stack[..|stack| - 1];
    }

    /** `peek`: the value `index` places below the top; an empty stack, or
        an index reaching below the bottom, panics (`None`). */
    method Peek(index: nat) returns (value: Option<V.Value>)
      ensures value.Some? <==> index < |stack|
      ensures value.Some? ==> value.value == stack[|stack| - 1 - index]
    {
      var n := |stack|;
      if n == 0 || index > n - 1 {
        return None;
      }
      value := Some(stack[n - 1 - index]);
    }

    /** `read_byte!`: `ip` moves first, then the byte before it is read; past
        the end of the code that read panics (`None`). */
    method ReadByte() returns (b: Option<byte>)
      requires chunk != null
      modifies this`ip
      ensures ip == old(ip) + 1
      ensures b.Some? <==> old(ip) < |chunk.code|
      ensures b.Some? ==> b.value == chunk.code[old(ip)]
    {
      ip := ip + 1;
      if ip - 1 >= |chunk.code| {
        return None;
      }
      b := Some(chunk.code[ip - 1]);
    }

    /** `read_constant!`: the pool entry the next byte names. */
    method ReadConstant() returns (c: Option<V.Value>)
      requires chunk != null
      modifies this`ip
      ensures ip == old(ip) + 1
      ensures c.Some? <==> old(ip) < |chunk.code| && chunk.code[old(ip)] as nat < |chunk.constants|
      ensures c.Some? ==> c.value == chunk.constants[chunk.code[old(ip)]]
    {
      var index := ReadByte();
      if index.None? || index.value as nat >= |chunk.constants| {
        return None;
      }
      c := Some(chunk.constants[index.value]);
    }

    /** The two pops and the push of `binary_op!`: the operands give way
        to the result. */
    method ReplaceOperands(value: V.Value)
      requires |stack| >= 2
      modifies this`stack
      ensures stack == old(stack)[..|old(stack)| - 2] + [value]
    {
      var _ := Pop();
      var _ := Pop();
      Push(value);
    }

    /** Whether the result of one pass and the state it left agree with the
        specification's outcome; nothing is said of the state after a
        panic. */
    ghost predicate Agrees(o: Outcome, stop: Option<RunResult>)
      reads this
    {
      match stop
      case None => o == Running(State())
      case Some(Panicked) => o.Stopped? && o.result == Panicked
      case Some(r) => o == Stopped(r, State())
    }

    /** The `binary_op!` arms, with the operand order as written. */
    method ArithOp(op: LoxChunk.Op) returns (stop: Option<RunResult>)
      requires chunk != null && IsArith(op) && ip >= 1
      modifies this`stack, this`errors
      ensures Agrees(StepArith(ops, Code(), op, old(State())), stop)
    {
      var right := Peek(0);
      var left := Peek(1);
      if right.None? || left.None? {
        return Some(Panicked);
      }
      if !left.value.Number? || !right.value.Number? {
        var ok := RuntimeError("Operands must be numbers.");
        return Some(if ok then Finished(InterpretResult.RuntimeError) else Panicked);
      }
      var value := ArithAsWritten(ops, op, left.value.n, right.value.n);
      ReplaceOperands(value);
      return None;
    }

    /** The `Add` arm. */
    method AddOp() returns (stop: Option<RunResult>)
      requires chunk != null && ip >= 1
      modifies this`stack, this`errors
      ensures Agrees(StepAdd(ops, Code(), old(State())), stop)
    {
      var right := Peek(0);
      var left := Peek(1);
      if right.None? || left.None? {
        return Some(Panicked);
      }
      if !left.value.Number? || !right.value.Number? {
        var ok := RuntimeError("Operands must be numbers.");
        return Some(if ok then Finished(InterpretResult.RuntimeError) else Panicked);
      }
      var value := V.Number(ops.add(left.value.n, right.value.n));
      ReplaceOperands(value);
      return None;
    }

    /** The `Equal` arm. */
    method EqualOp() returns (stop: Option<RunResult>)
      modifies this`stack
      ensures Agrees(StepEqual(ops, old(State())), stop)
    {
      var b := Pop();
      var a := Pop();
      if a.None? || b.None? {
        return Some(Panicked);
      }
      Push(V.Bool(V.Eq(ops, a.value, b.value)));
      return None;
    }

    /** The `Not` arm. */
    method NotOp() returns (stop: Option<RunResult>)
      modifies this`stack
      ensures Agrees(StepNot(old(State())), stop)
    {
      var value := Pop();
      if value.None? {
        return Some(Panicked);
      }
      Push(V.Bool(V.IsFalsy(value.value)));
      return None;
    }

    /** The `Negate` arm. */
    method NegateOp() returns (stop: Option<RunResult>)
      requires chunk != null && ip >= 1
      modifies this`stack, this`errors
      ensures Agrees(StepNegate(ops, Code(), old(State())), stop)
    {
      var top := Peek(0);
      if top.None? {
        return Some(Panicked);
      }
      if top.value.Number? {
        var _ := Pop();
        Push(V.Number(ops.neg(top.value.n)));
        return None;
      }
      var ok := RuntimeError("Operand must be a number.");
      return Some(if ok then Finished(InterpretResult.RuntimeError) else Panicked);
    }

    /** The `Return` arm. */
    method ReturnOp() returns (stop: Option<RunResult>)
      modifies this`stack, this`printed
      ensures Agrees(StepReturn(old(State())), stop)
    {
      var value := Pop();
      if value.None? {
        return Some(Panicked);
      }
      printed := printed + [value.value];
      return Some(Finished(InterpretResult.Ok));
    }

    /** One pass of `run`'s loop. */
    method StepOnce() returns (stop: Option<RunResult>)
      requires chunk != null
      modifies this`ip, this`stack, this`errors, this`printed
      ensures Agrees(Step(ops, Code(), old(State())), stop)
    {
      var b := ReadByte();
      if b.None? {
        return Some(Panicked);
      }
      var instruction := LoxChunk.TryFrom(b.value);
      if instruction.Err? {
        // "Got unexpected instruction", then a panic
        return Some(Panicked);
      }
      var op := instruction.value;
      if op == LoxChunk.Constant {
        var constant := ReadConstant();
        if constant.None? {
          return Some(Panicked);
        }
        Push(constant.value);
        return None;
      } else if op == LoxChunk.Nil {
        Push(V.Nil);
        return None;
      } else if op == LoxChunk.True {
        Push(V.Bool(true));
        return None;
      } else if op == LoxChunk.False {
        Push(V.Bool(false));
        return None;
      } else if op == LoxChunk.Add {
        stop := AddOp();
      } else if op == LoxChunk.Equal {
        stop := EqualOp();
      } else if op == LoxChunk.Not {
        stop := NotOp();
      } else if op == LoxChunk.Negate {
        stop := NegateOp();
      } else if op == LoxChunk.Return {
        stop := ReturnOp();
      } else {
        stop := ArithOp(op);
      }
    }

    /** `run`: the dispatch loop, proved to end as `Exec` does, and (unless
        it panicked) in `Exec`'s final state. */
    method Run() returns (r: RunResult)
      requires chunk != null
      modifies this`ip, this`stack, this`errors, this`printed
      ensures r == Exec(ops, Code(), old(State())).result
      ensures r != Panicked ==> State() == Exec(ops, Code(), old(State())).m
    {
      while true
        invariant Exec(ops, Code(), State()) == Exec(ops, Code(), old(State()))
        decreases |chunk.code| - ip
      {
        ghost var before := State();
        var stop := StepOnce();
        if stop.Some? {
          return stop.value;
        }
      }
    }
  }

  /** `interpret`: compile into a fresh chunk; a panic of the compiler is
      the run's; on failure `CompileError` without running, otherwise a
      fresh machine runs the chunk from `ip` 0. (The source builds the
      fresh machine even though it is called on one.) `reports` are the
      compiler's error reports. */
  method Interpret(source: seq<char>, ops: FloatOps) returns (r: RunResult, compiled: bool, reports: seq<LoxCompiler.Report>, chunk: LoxChunk.Chunk<V.Value>)
    ensures compiled ==> reports == []
    ensures r == Finished(InterpretResult.CompileError) ==> !compiled && reports != []
    ensures !compiled ==> r == Finished(InterpretResult.CompileError) || (r == Panicked && |chunk.constants| > 256)
    ensures compiled ==> r == Exec(ops, Program(chunk.code, chunk.constants, chunk.lines), Machine(0, [], [], [])).result
  {
    chunk := new LoxChunk.Chunk();
    var panicked: bool;
    compiled, reports, panicked := LoxCompiler.Compile(source, chunk, ops);
    if panicked {
      return Panicked, false, reports, chunk;
    }
    if !compiled {
      return Finished(InterpretResult.CompileError), compiled, reports, chunk;
    }
    var vm := new VM(ops);
    vm.chunk := chunk;
    vm.ip := 0;
    r := vm.Run();
    ExecOutcomes(ops, Program(chunk.code, chunk.constants, chunk.lines), Machine(0, [], [], []));
  }
}
