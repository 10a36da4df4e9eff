/** The stack machine of rustlox (`rustlox/src/vm.rs`): a fixed array of
    256 value slots with a count, a fixed array of 64 call frames with a
    count, a map of globals, and the list of open upvalues, sorted by
    stack slot from the top down.

    The first part states the machine's arithmetic as functions: the
    decoding of instructions, the call guard, where a closure's upvalues
    come from, and what capturing and closing do to the slots of the open
    upvalues. The class `VM` then updates its fields in place, each
    operation proved against those functions. Addresses into the stack
    are kept as slot numbers, and their order is the slots' order.
    `Upvalue::new`, which value.rs does not define, is read as
    `new_open`, and the undefined `close` as clox's: the slot's value
    moves into `closed`. Arithmetic that would overflow a `usize`
    panics, as in a debug build. */
module RustloxVm {
  import opened Base
  import RC = RustloxChunk
  import RV = RustloxValue
  import LoxString
  import RustloxCompiler
  import Codegen = RustloxCodegen

  /** `CALL_FRAME_MAX`, the length of the frames array. */
  const CALL_FRAME_MAX: nat := 64

  /** `STACK_MAX`, the length of the value stack. */
  const STACK_MAX: nat := 256

  /** `InterpretError`. */
  datatype InterpretError = CompileError | RuntimeError | InternalError(message: string)

  /** How an operation of the machine ends: normally with a value, with an
      `Err`, or by a Rust panic (an index out of bounds, an `unwrap` of
      `None`, an arithmetic overflow), which ends the program. */
  datatype Flow<T> = Normal(value: T) | Fault(error: InterpretError) | Panic

  /** After one instruction, `run` goes on to the next one or returns
      `Ok(())`. */
  datatype Next = Continue | Halt

  /** An outcome that is not `Normal`, passed on with another value type:
      `?` on an `Err`, or the panic. */
  function Abort<T, U>(f: Flow<T>): (r: Flow<U>)
    requires !f.Normal?
    ensures f.Panic? <==> r.Panic?
    ensures f.Fault? ==> r == Fault(f.error)
  {
    if f.Panic? then Panic else Fault(f.error)
  }

  // ---------------------------------------------------------------------
  // Instructions

  /** The instruction decoding `run` relies on: `Op::try_from` for the 23
      opcodes `chunk.rs` declares, and the six that `run` matches on after
      them, numbered in the order `run` lists them. */
  function Decode(b: byte): (r: Result<RC.Op, byte>)
    ensures r.Ok? <==> b < 29
    ensures r.Ok? ==> RC.OpByte(r.value) == b
    ensures r.Err? ==> r.error == b
  {
    RC.TryFromOkRange(b);
    if b < 23 then RC.TryFrom(b)
    else if b == 23 then Ok(RC.Op.Loop)
    else if b == 24 then Ok(RC.Op.Call)
    else if b == 25 then Ok(RC.Op.Closure)
    else if b == 26 then Ok(RC.Op.GetUpvalue)
    else if b == 27 then Ok(RC.Op.SetUpvalue)
    else if b == 28 then Ok(RC.Op.CloseUpvalue)
    else Err(b)
  }

  /** The decoding inverts `op as u8` for every opcode, and agrees with
      `Op::try_from` wherever that succeeds. */
  lemma DecodeInverse(op: RC.Op, b: byte)
    ensures Decode(RC.OpByte(op)) == Ok(op)
    ensures RC.TryFrom(b).Ok? ==> Decode(b) == RC.TryFrom(b)
  {
    RC.TryFromOkRange(b);
    RC.OpByteInjective(op, Decode(RC.OpByte(op)).value);
  }

  // ---------------------------------------------------------------------
  // The call guard: the finding and the corrected behaviour

  /** What `call` does, as a function of the counts: an arity mismatch is
      a runtime error, the subtraction for `starts_at` can overflow, the
      frame is written at `frame_count`, and an overflow test may report
      "Stack overflow.". */
  datatype CallStep = ArityMismatch | Underflow | FrameOutOfBounds | Overflow | Entered(startsAt: nat)

  /** `call` as written: the frame is written at `frame_count` (an index
      past the 64 frames panics), and only then is the new frame count
      compared with `STACK_MAX`. */
  function CallAsWritten(arity: nat, argCount: nat, stackCount: nat, frameCount: nat): (c: CallStep)
    ensures c.Entered? ==> c.startsAt + argCount + 1 == stackCount
  {
    if argCount != arity then ArityMismatch
    else if stackCount < argCount + 1 then Underflow
    else
      var startsAt: nat := stackCount - argCount - 1;
      if frameCount >= CALL_FRAME_MAX then FrameOutOfBounds
      else if frameCount + 1 == STACK_MAX then Overflow
      else Entered(startsAt)
  }

  /** `call` with the overflow test made against `CALL_FRAME_MAX` before
      the frame is written, as clox's `call` does. */
  function CallIntended(arity: nat, argCount: nat, stackCount: nat, frameCount: nat): (c: CallStep)
    ensures c.Entered? ==> c.startsAt + argCount + 1 == stackCount && frameCount < CALL_FRAME_MAX
  {
    if argCount != arity then ArityMismatch
    else if stackCount < argCount + 1 then Underflow
    else
      var startsAt: nat := stackCount - argCount - 1;
      if frameCount >= CALL_FRAME_MAX then Overflow
      else Entered(startsAt)
  }

  /** As written, "Stack overflow." is never reported: the frame count
      never reaches 256. A 64th nested frame is entered, and the call
      after it indexes past the frames array. */
  lemma CallGuardNeverFires(arity: nat, argCount: nat, stackCount: nat, frameCount: nat)
    requires frameCount <= CALL_FRAME_MAX
    ensures !CallAsWritten(arity, argCount, stackCount, frameCount).Overflow?
    ensures CallAsWritten(0, 0, 1, CALL_FRAME_MAX - 1).Entered?
    ensures CallAsWritten(0, 0, 1, CALL_FRAME_MAX) == FrameOutOfBounds
  {
  }

  /** With the corrected test no call indexes past the frames array: a
      call with all 64 frames in use reports "Stack overflow." instead.
      Below that the two agree. */
  lemma CallIntendedStaysInBounds(arity: nat, argCount: nat, stackCount: nat, frameCount: nat)
    requires frameCount <= CALL_FRAME_MAX
    ensures CallIntended(arity, argCount, stackCount, frameCount) != FrameOutOfBounds
    ensures CallIntended(0, 0, 1, CALL_FRAME_MAX) == Overflow
    ensures frameCount < CALL_FRAME_MAX ==>
      CallIntended(arity, argCount, stackCount, frameCount) == CallAsWritten(arity, argCount, stackCount, frameCount)
  {
  }

  // ---------------------------------------------------------------------
  // The upvalues of a new closure: the finding and the corrected behaviour

  /** Where the `i`-th upvalue of a new closure comes from: the open
      upvalue of a stack slot, or an upvalue of the enclosing closure. */
  datatype Source = Slot(slot: nat) | Enclosing(index: nat)

  /** The `Closure` arm as written: a local is captured at `starts_at +
      index`, but an inherited upvalue is taken at the loop position `i`
      of the enclosing closure's upvalues, not at `index`. */
  function SourceAsWritten(i: nat, isLocal: byte, index: byte, startsAt: nat): Source
  {
    if isLocal == 1 then Slot(startsAt + index) else Enclosing(i)
  }

  /** The `Closure` arm as the compiler's operands mean it: the inherited
      upvalue is the enclosing closure's upvalue `index`. */
  function SourceIntended(i: nat, isLocal: byte, index: byte, startsAt: nat): (s: Source)
    ensures isLocal == 1 ==> s == Slot(startsAt + index)
    ensures isLocal != 1 ==> s == Enclosing(index)
  {
    if isLocal == 1 then Slot(startsAt + index) else Enclosing(index)
  }

  /** With the corrected arm, the operand pairs the compiler emits after
      `Closure` (`UpvalueBytes`) give each upvalue the source the compiler
      resolved for it. */
  lemma ClosureOperandsMeanUpvalues(ups: seq<RustloxCompiler.Upvalue>, i: nat, startsAt: nat)
    requires i < |ups|
    ensures var bs := Codegen.UpvalueBytes(ups);
      SourceIntended(i, bs[2 * i], bs[2 * i + 1], startsAt)
      == if ups[i].isLocal then Slot(startsAt + ups[i].index) else Enclosing(ups[i].index)
  {
  }

  /** The source the `Closure` arm, as written, takes for operand pair
      `k` of an instruction whose pairs start at `at` in `code`. */
  function ClosureSource(code: seq<byte>, at: nat, k: nat, startsAt: nat): Source
    requires at + 2 * k + 1 < |code|
  {
    SourceAsWritten(k, code[at + 2 * k], code[at + 2 * k + 1], startsAt)
  }

  /** The sources named by all `count` operand pairs. */
  function ClosureSources(code: seq<byte>, at: nat, count: nat, startsAt: nat): (s: seq<Source>)
    requires at + 2 * count <= |code|
    ensures |s| == count
    ensures forall k :: 0 <= k < count ==> s[k] == ClosureSource(code, at, k, startsAt)
  {
    seq(count, k requires 0 <= k < count => ClosureSource(code, at, k, startsAt))
  }

  /** As written, a function whose first upvalue is its enclosing
      function's second (`[(0, 1), (0, 0)]`, say `b` then `a`) gets the
      enclosing `a` twice over. */
  lemma SourceCounterexample()
    ensures var bs := Codegen.UpvalueBytes([RustloxCompiler.Upvalue(1, false), RustloxCompiler.Upvalue(0, false)]);
      SourceAsWritten(0, bs[0], bs[1], 0) == Enclosing(0)
      && SourceIntended(0, bs[0], bs[1], 0) == Enclosing(1)
  {
    var bs := Codegen.UpvalueBytes([RustloxCompiler.Upvalue(1, false), RustloxCompiler.Upvalue(0, false)]);
    assert bs[0] == 0 && bs[1] == 1;
  }

  // ---------------------------------------------------------------------
  // Writing through an upvalue: the finding and the corrected behaviour

  /** What an upvalue reads as (`as_value`, which `value.rs` does not
      define; here as clox's `*upvalue->location`): the stack slot while
      open, the value it holds once closed. `None` is a panic. */
  function CellRead(location: RV.Location, closed: Option<RV.Value>, slots: seq<RV.Value>): (r: Option<RV.Value>)
    ensures location.Here? ==> r == closed
    ensures location.Stack? && location.index < |slots| ==> r == Some(slots[location.index])
  {
    match location
    case Stack(i) => if i < |slots| then Some(slots[i]) else None
    case Here => closed
  }

  /** The parts of the machine an upvalue write can change: the value the
      upvalue holds and the stack. */
  datatype Cell = Cell(closed: Option<RV.Value>, slots: seq<RV.Value>)

  /** `SetUpvalue` as written: the value goes to `closed`, open or not. */
  function SetAsWritten(location: RV.Location, c: Cell, v: RV.Value): Cell
  {
    Cell(Some(v), c.slots)
  }

  /** `SetUpvalue` as clox's `*location = peek(0)` means it: an open
      upvalue writes its stack slot, a closed one its own value. */
  function SetIntended(location: RV.Location, c: Cell, v: RV.Value): (d: Cell)
    ensures location.Here? ==> d == Cell(Some(v), c.slots)
    ensures location.Stack? && location.index < |c.slots| ==> d == Cell(c.closed, c.slots[location.index := v])
  {
    match location
    case Stack(i) => if i < |c.slots| then Cell(c.closed, c.slots[i := v]) else c
    case Here => Cell(Some(v), c.slots)
  }

  /** With the corrected write, reading the upvalue back gives the value
      written, and no other stack slot changes. */
  lemma SetThenRead(location: RV.Location, c: Cell, v: RV.Value)
    requires location.Stack? ==> location.index < |c.slots|
    ensures var d := SetIntended(location, c, v);
      CellRead(location, d.closed, d.slots) == Some(v)
      && |d.slots| == |c.slots|
      && forall i :: 0 <= i < |c.slots| && location != RV.Stack(i) ==> d.slots[i] == c.slots[i]
  {
  }

  /** As written, assigning to a captured variable while its function is
      still running leaves the variable unchanged (`a = true` from an
      inner function, then `print a` in the outer one, prints `nil`). */
  lemma SetUpvalueCounterexample()
    ensures var d := SetAsWritten(RV.Stack(0), Cell(None, [RV.Nil]), RV.Bool(true));
      CellRead(RV.Stack(0), d.closed, d.slots) == Some(RV.Nil)
    ensures var d := SetIntended(RV.Stack(0), Cell(None, [RV.Nil]), RV.Bool(true));
      CellRead(RV.Stack(0), d.closed, d.slots) == Some(RV.Bool(true))
  {
  }

  // ---------------------------------------------------------------------
  // Arithmetic

  /** The binary operators `binary_op!` serves. */
  predicate IsArith(op: RC.Op)
  {
    op == RC.Op.Greater || op == RC.Op.Less || op == RC.Op.Subtract || op == RC.Op.Multiply || op == RC.Op.Divide
  }

  /** `binary_op!(op, variant)` on the numbers `a` (second from the top)
      and `b` (the top): `a op b`. */
  function Arith(ops: FloatOps, op: RC.Op, a: F64, b: F64): (v: RV.Value)
    requires IsArith(op)
  {
    match op
    case Greater => RV.Bool(ops.greater(a, b))
    case Less => RV.Bool(ops.less(a, b))
    case Subtract => RV.Number(ops.sub(a, b))
    case Multiply => RV.Number(ops.mul(a, b))
    case Divide => RV.Number(ops.div(a, b))
  }

  // ---------------------------------------------------------------------
  // Open upvalues, by stack slot

  /** The slots of the open-upvalue list strictly decrease from the head. */
  predicate Descending(slots: seq<nat>)
  {
    forall i, j :: 0 <= i < j < |slots| ==> slots[i] > slots[j]
  }

  /** Where `capture_upvalue`'s walk stops: at the first entry whose slot
      is not above `slot`. */
  function CaptureStop(slots: seq<nat>, slot: nat): (k: nat)
    ensures k <= |slots|
    ensures forall i :: 0 <= i < k ==> slots[i] > slot
    ensures k < |slots| ==> slots[k] <= slot
  {
    if |slots| == 0 || slots[0] <= slot then 0 else 1 + CaptureStop(slots[1..], slot)
  }

  /** The list after `capture_upvalue(slot)`: unchanged when the walk stops
      at an entry for `slot`, otherwise with a new entry there. */
  function Captured(slots: seq<nat>, slot: nat): seq<nat>
  {
    var k := CaptureStop(slots, slot);
    if k < |slots| && slots[k] == slot then slots else slots[..k] + [slot] + slots[k..]
  }

  /** On a sorted list, a walk that stops short of an entry for `slot`
      shows there is none. */
  lemma NotCaptured(slots: seq<nat>, slot: nat)
    requires Descending(slots)
    requires var k := CaptureStop(slots, slot); !(k < |slots| && slots[k] == slot)
    ensures slot !in slots
  {
    var k := CaptureStop(slots, slot);
    forall i | 0 <= i < |slots|
      ensures slots[i] != slot
    {
      if i > k {
        assert slots[i] < slots[k];
      }
    }
  }

  /** Inserting `slot` where the entries stop being above it keeps the
      list sorted and adds `slot` and nothing else. */
  lemma InsertDescending(slots: seq<nat>, k: nat, slot: nat)
    requires Descending(slots) && k <= |slots|
    requires forall i :: 0 <= i < k ==> slots[i] > slot
    requires k < |slots| ==> slots[k] < slot
    ensures var r := slots[..k] + [slot] + slots[k..];
      Descending(r) && forall x :: x in r <==> x in slots || x == slot
  {
    var r := slots[..k] + [slot] + slots[k..];
    forall i, j | 0 <= i < j < |r|
      ensures r[i] > r[j]
    {
      if j < k {
        assert r[i] == slots[i] && r[j] == slots[j];
      } else if j == k {
        assert r[i] == slots[i] && r[j] == slot;
      } else if i < k {
        assert r[i] == slots[i] && r[j] == slots[j - 1];
      } else if i == k {
        assert r[i] == slot && r[j] == slots[j - 1];
        assert slots[k] >= slots[j - 1];
      } else {
        assert r[i] == slots[i - 1] && r[j] == slots[j - 1];
      }
    }
    assert slots == slots[..k] + slots[k..];
  }

  /** Capturing keeps the list sorted, adds `slot` and nothing else, and
      reuses the entry when `slot` already has one. */
  lemma CapturedSorted(slots: seq<nat>, slot: nat)
    requires Descending(slots)
    ensures Descending(Captured(slots, slot))
    ensures forall x :: x in Captured(slots, slot) <==> x in slots || x == slot
    ensures slot in slots ==> Captured(slots, slot) == slots
    ensures slot !in slots ==> |Captured(slots, slot)| == |slots| + 1
  {
    var k := CaptureStop(slots, slot);
    if !(k < |slots| && slots[k] == slot) {
      NotCaptured(slots, slot);
      InsertDescending(slots, k, slot);
    }
  }

  /** How many head entries `close_upvalues(last)` unlinks: those whose
      slot is at or above `last`. */
  function CloseCount(slots: seq<nat>, last: nat): (k: nat)
    ensures k <= |slots|
    ensures forall i :: 0 <= i < k ==> slots[i] >= last
    ensures k < |slots| ==> slots[k] < last
  {
    if |slots| == 0 || slots[0] < last then 0 else 1 + CloseCount(slots[1..], last)
  }

  /** `CloseCount` is the only count whose entries are all at or above
      `last` and which stops at the end or at an entry below it. */
  lemma {:induction false} CloseCountUnique(slots: seq<nat>, last: nat, k: nat)
    requires k <= |slots|
    requires forall i :: 0 <= i < k ==> slots[i] >= last
    requires k < |slots| ==> slots[k] < last
    ensures CloseCount(slots, last) == k
  {
    if k > 0 {
      CloseCountUnique(slots[1..], last, k - 1);
    }
  }

  /** On a sorted list, the entries unlinked are exactly those at or above
      `last`, and those left are exactly those below it. */
  lemma CloseExactly(slots: seq<nat>, last: nat)
    requires Descending(slots)
    ensures var k := CloseCount(slots, last);
      Descending(slots[k..])
      && (forall x :: x in slots[k..] <==> x in slots && x < last)
      && (forall x :: x in slots[..k] <==> x in slots && x >= last)
  {
    var k := CloseCount(slots, last);
    forall i | k <= i < |slots|
      ensures slots[i] < last
    {
      if i > k {
        assert slots[i] < slots[k];
      }
    }
  }

  // ---------------------------------------------------------------------
  // Frames and reports

  /** `CallFrame`: the closure it runs (`None` once reset), the
      instruction pointer into that closure's chunk, and the slot of the
      callee, where the frame's locals start. */
  datatype CallFrame = CallFrame(closure: Option<RV.Closure>, ip: nat, startsAt: nat)

  /** `CALL_FRAME_DEFAULT`, which `reset` restores. */
  const CALL_FRAME_DEFAULT := CallFrame(None, 0, 0)

  /** One line of `runtime_error`'s trace: the line of the frame's last
      instruction and the name of its function (as its handle). */
  datatype TraceLine = TraceLine(line: int, name: LoxString.Handle)

  /** What `runtime_error` writes: the message, then the trace of the
      frames, innermost first. */
  datatype RuntimeReport = RuntimeReport(message: string, trace: seq<TraceLine>)

  /** The part of the machine an instruction reads and writes, as values:
      what the effect of each arm of `run` is stated against. */
  datatype Snapshot = Snapshot(stack: seq<RV.Value>, stackCount: nat, frames: seq<CallFrame>, frameCount: nat,
                               globals: map<string, RV.Value>, reports: seq<RuntimeReport>, printed: seq<RV.Value>,
                               openList: seq<RV.Upvalue>, openSlots: seq<nat>, interned: seq<string>)

  /** A state whose counts index its arrays and whose open upvalues sit
      on stack slots. */
  predicate Running(s: Snapshot)
  {
    |s.stack| == STACK_MAX && |s.frames| == CALL_FRAME_MAX
    && s.stackCount <= STACK_MAX && s.frameCount <= CALL_FRAME_MAX
    && |s.openList| == |s.openSlots| && (forall i :: 0 <= i < |s.openSlots| ==> s.openSlots[i] < STACK_MAX)
  }

  /** Such a state with a frame to run. */
  predicate Framed(s: Snapshot)
  {
    Running(s) && 0 < s.frameCount
  }

  /** The innermost frame. */
  function Top(s: Snapshot): CallFrame
    requires Framed(s)
  {
    s.frames[s.frameCount - 1]
  }

  /** The state with the innermost frame's `ip` moved on by `step` bytes, as
      `read_u8` leaves it. */
  function Advanced(s: Snapshot, step: nat): (t: Snapshot)
    requires Framed(s)
    ensures Framed(t) && Top(t).ip == Top(s).ip + step
    ensures t.stack == s.stack && t.stackCount == s.stackCount && t.frameCount == s.frameCount
  {
    s.(frames := s.frames[s.frameCount - 1 := Top(s).(ip := Top(s).ip + step)])
  }

  /** The text `read_string` gives for the constant the byte at `ip`
      names, or `None` where it fails. */
  function NameOperand(it: LoxString.Interner, code: seq<byte>, constants: seq<RV.Value>, ip: nat): Option<string>
    reads it
    requires it.Valid()
  {
    if ip < |code| && code[ip] as nat < |constants| && constants[code[ip]].String?
       && constants[code[ip]].handle.index < |it.strings|
    then Some(LoxString.AsStr(it, constants[code[ip]].handle))
    else None
  }

  /** The trace of the frames `fs` (outermost first), innermost first.
      A frame whose `ip` is 0, or past the end of its chunk's lines,
      panics (`None`) on `ip - 1` or on the index. */
  ghost function Trace(fs: seq<CallFrame>): (t: Option<seq<TraceLine>>)
    requires forall i :: 0 <= i < |fs| ==> fs[i].closure.Some?
    reads set i | 0 <= i < |fs| :: fs[i].closure.value.func.chunk
    ensures t.Some? ==> |t.value| == |fs|
    ensures t.Some? <==> forall i :: 0 <= i < |fs| ==> 1 <= fs[i].ip <= |fs[i].closure.value.func.chunk.lines|
  {
    if fs == [] then Some([])
    else
      var f := fs[0];
      var lines := f.closure.value.func.chunk.lines;
      match Trace(fs[1..])
      case None => None
      case Some(t) =>
        if f.ip == 0 || f.ip - 1 >= |lines| then None
        else Some(t + [TraceLine(lines[f.ip - 1], f.closure.value.func.name)])
  }

  /** The decimal digits of `n`, as `format!` writes them. */
  function NatText(n: nat): (s: string)
    ensures |s| > 0 && forall i :: 0 <= i < |s| ==> '0' <= s[i] <= '9'
  {
    if n < 10 then ["0123456789"[n]] else NatText(n / 10) + ["0123456789"[n % 10]]
  }

  /** The entries of a list of upvalues, as a set (the frame of the
      methods that relink or close them). */
  ghost function Elements(list: seq<RV.Upvalue>): set<RV.Upvalue>
  {
    set v | v in list
  }

  /** The first `k` entries of `list` are closed on the values `slots`
      holds at their slots `at`. */
  ghost predicate Closed(list: seq<RV.Upvalue>, at: seq<nat>, k: nat, slots: seq<RV.Value>)
    reads Elements(list)
  {
    k <= |list| && k <= |at|
    && forall i :: 0 <= i < k ==> at[i] < |slots| && list[i].location == RV.Here && list[i].closed == Some(slots[at[i]])
  }

  /** Each entry's `next` is the entry after it, and the last one's is
      `null`. */
  ghost predicate Linked(list: seq<RV.Upvalue>)
    reads list`next
  {
    forall i {:trigger list[i].next} :: 0 <= i < |list| ==> list[i].next == if i + 1 < |list| then list[i + 1] else null
  }

  /** A new entry `u` linked in at `k`: the list is linked again. */
  lemma Inserted(list: seq<RV.Upvalue>, k: nat, u: RV.Upvalue)
    requires k <= |list|
    requires k > 0 ==> list[k - 1].next == u
    requires u.next == if k < |list| then list[k] else null
    requires forall i {:trigger list[i].next} :: 0 <= i < |list| && i != k - 1 ==>
      list[i].next == if i + 1 < |list| then list[i + 1] else null
    ensures Linked(list[..k] + [u] + list[k..])
  {
    var n := list[..k] + [u] + list[k..];
    assert forall i :: 0 <= i < |n| ==> n[i] == if i < k then list[i] else if i == k then u else list[i - 1];
    forall i | 0 <= i < |n|
      ensures n[i].next == if i + 1 < |n| then n[i + 1] else null
    {
      if i + 1 < k {
        assert n[i] == list[i] && n[i + 1] == list[i + 1];
      } else if i + 1 == k {
        assert n[i] == list[k - 1];
      } else if i > k {
        assert n[i] == list[i - 1];
      }
    }
  }

  /** The entries after an insertion are the old ones and the new one. */
  lemma InsertedMembers(list: seq<RV.Upvalue>, k: nat, u: RV.Upvalue)
    requires k <= |list|
    ensures forall i :: 0 <= i < |list| + 1 ==>
      (list[..k] + [u] + list[k..])[i] == if i < k then list[i] else if i == k then u else list[i - 1]
    ensures forall v :: v in list[..k] + [u] + list[k..] <==> v in list || v == u
  {
    var n := list[..k] + [u] + list[k..];
    assert forall i :: 0 <= i < |n| ==> n[i] == if i < k then list[i] else if i == k then u else list[i - 1];
    assert list == list[..k] + list[k..];
  }

  /** Inserting an entry and its slot at the same position keeps every
      entry at the stack slot its position records. */
  lemma InsertedLocated(list: seq<RV.Upvalue>, slots: seq<nat>, k: nat, u: RV.Upvalue, slot: nat)
    requires |slots| == |list| && k <= |list|
    requires forall i :: 0 <= i < |list| ==> list[i].location == RV.Stack(slots[i]) && slots[i] < STACK_MAX
    requires u.location == RV.Stack(slot) && slot < STACK_MAX
    ensures |list[..k] + [u] + list[k..]| == |slots[..k] + [slot] + slots[k..]|
    ensures forall i :: 0 <= i < |list| + 1 ==>
      (list[..k] + [u] + list[k..])[i].location == RV.Stack((slots[..k] + [slot] + slots[k..])[i])
      && (slots[..k] + [slot] + slots[k..])[i] < STACK_MAX
  {
    var n := list[..k] + [u] + list[k..];
    var m := slots[..k] + [slot] + slots[k..];
    forall i | 0 <= i < |list| + 1
      ensures n[i].location == RV.Stack(m[i]) && m[i] < STACK_MAX
    {
      if i < k {
        assert n[i] == list[i] && m[i] == slots[i];
      } else if i > k {
        assert n[i] == list[i - 1] && m[i] == slots[i - 1];
      }
    }
  }

  // ---------------------------------------------------------------------
  // What the machine may write to

  /** A native function returns a plain value: no function and no closure
      (the one native, `clock`, returns a number). */
  type NativeResult = v: RV.Value | !v.ClosureValue? && !v.FunctionValue? witness RV.Nil

  /** The upvalues a closure holds are among `ups`, and its chunk among
      `chunks`. */
  ghost predicate ClosureHeld(c: RV.Closure, ups: set<RV.Upvalue>, chunks: set<RC.Chunk<RV.Value>>)
  {
    c.func.chunk in chunks && forall i :: 0 <= i < |c.upvalues| ==> c.upvalues[i] in ups
  }

  /** A value refers to no upvalue outside `ups` and no chunk outside
      `chunks`. */
  ghost predicate Held(v: RV.Value, ups: set<RV.Upvalue>, chunks: set<RC.Chunk<RV.Value>>)
  {
    match v
    case ClosureValue(c) => ClosureHeld(c, ups, chunks)
    case FunctionValue(f) => f.chunk in chunks
    case _ => true
  }

  /** The chunks hold no closure among their constants, and the functions
      among them have their chunks in the set: what the compiler puts in a
      constant pool. */
  ghost predicate Trusted(chunks: set<RC.Chunk<RV.Value>>)
    reads chunks`constants
  {
    forall c, i :: c in chunks && 0 <= i < |c.constants| ==>
      !c.constants[i].ClosureValue? && (c.constants[i].FunctionValue? ==> c.constants[i].func.chunk in chunks)
  }

  /** Holding only owned upvalues and trusted chunks survives owning and
      trusting more. */
  lemma HeldMore(v: RV.Value, ups: set<RV.Upvalue>, more: set<RV.Upvalue>,
                 chunks: set<RC.Chunk<RV.Value>>, moreChunks: set<RC.Chunk<RV.Value>>)
    requires Held(v, ups, chunks) && ups <= more && chunks <= moreChunks
    ensures Held(v, more, moreChunks)
  {
  }

  // ---------------------------------------------------------------------
  // The machine

  /** `VM`. The globals are keyed by the text of their names; `strings`
      is the interner the handles of string constants refer to; `natives`
      gives what a native function (by its address) returns for the slice
      of the stack it is passed. `openList` is the open-upvalue list, from
      the head `openUpvalues` along the `next` links, and `openSlots` the
      slots its entries are open on. What `runtime_error`
      and `Print` write is collected in `reports` and `printed`. */
  class VM {
    const ops: FloatOps
    const strings: LoxString.Interner
    const natives: (nat, seq<RV.Value>) -> NativeResult
    var globals: map<string, RV.Value>
    const stack: array<RV.Value>
    var stackCount: nat
    const frames: array<CallFrame>
    var frameCount: nat
    var openUpvalues: RV.Upvalue?
    ghost var openList: seq<RV.Upvalue>
    ghost var openSlots: seq<nat>
    var reports: seq<RuntimeReport>
    var printed: seq<RV.Value>
    ghost var upvalues: set<RV.Upvalue>
    ghost var chunks: set<RC.Chunk<RV.Value>>

    /** The fixed arrays and the counts that index them. */
    ghost predicate Shape()
      reads this`stackCount, this`frameCount
    {
      stack.Length == STACK_MAX && frames.Length == CALL_FRAME_MAX
      && stackCount <= STACK_MAX && frameCount <= CALL_FRAME_MAX
    }

    /** Every frame in use runs a closure (`call` always stores one). */
    ghost predicate FramesRun()
      reads this`frameCount, frames
    {
      forall i :: 0 <= i < frameCount && i < frames.Length ==> frames[i].closure.Some?
    }

    /** The open-upvalue list: linked from `openUpvalues` by `next`, every
        entry open on a stack slot, the slots strictly decreasing. */
    ghost predicate OpenListValid()
      reads this`openUpvalues, this`openList, this`openSlots, openList`location, openList`next
    {
      openUpvalues == (if openList == [] then null else openList[0])
      && |openSlots| == |openList|
      && (forall i :: 0 <= i < |openList| ==> openList[i].location == RV.Stack(openSlots[i]) && openSlots[i] < STACK_MAX)
      && Linked(openList) && Descending(openSlots)
    }

    /** Every stack slot holds only owned upvalues and trusted chunks. */
    ghost predicate StackHeld()
      reads this`upvalues, this`chunks, stack
    {
      forall i :: 0 <= i < stack.Length ==> Held(stack[i], upvalues, chunks)
    }

    /** So does every global. */
    ghost predicate GlobalsHeld()
      reads this`globals, this`upvalues, this`chunks
    {
      forall n :: n in globals ==> Held(globals[n], upvalues, chunks)
    }

    /** So does the closure of every frame. */
    ghost predicate FramesHeld()
      reads this`upvalues, this`chunks, frames
    {
      forall i :: 0 <= i < frames.Length && frames[i].closure.Some? ==> ClosureHeld(frames[i].closure.value, upvalues, chunks)
    }

    /** So does the value of every closed upvalue. */
    ghost predicate ClosedHeld()
      reads this`upvalues, this`chunks, upvalues`closed
    {
      forall u :: u in upvalues && u.closed.Some? ==> Held(u.closed.value, upvalues, chunks)
    }

    /** Everything the machine can reach goes through `upvalues` and
        `chunks`: the stack, the globals, the frames' closures and the
        values of closed upvalues, and the chunks are trusted. */
    ghost predicate Owned()
      reads this`globals, this`upvalues, this`chunks, stack, frames, upvalues`closed, chunks`constants
    {
      StackHeld() && GlobalsHeld() && FramesHeld() && ClosedHeld() && Trusted(chunks)
    }

    /** The open upvalues are owned. */
    ghost predicate OpenOwned()
      reads this`openList, this`upvalues
    {
      forall i :: 0 <= i < |openList| ==> openList[i] in upvalues
    }

    /** Everything but the open list. */
    ghost predicate Core()
      reads this, stack, frames, strings, upvalues`closed, chunks`constants
    {
      Shape() && FramesRun() && strings.Valid() && Owned()
    }

    ghost predicate Valid()
      reads this, stack, frames, openList, strings, upvalues`closed, chunks`constants
    {
      Core() && OpenListValid() && OpenOwned()
    }

    /** A new upvalue, not yet closed and inserted at `k` in the open list,
        joins the owned ones. */
    ghost method Adopt(u: RV.Upvalue, list: seq<RV.Upvalue>, k: nat)
      requires Core() && OpenListValid() && u.closed == None
      requires k <= |list| && openList == list[..k] + [u] + list[k..]
      requires forall i :: 0 <= i < |list| ==> list[i] in upvalues
      modifies this`upvalues
      ensures upvalues == old(upvalues) + {u} && Valid()
      ensures forall v :: v in openList <==> v in list || v == u
    {
      InsertedMembers(list, k, u);
      ghost var before := upvalues;
      upvalues := upvalues + {u};
      forall i | 0 <= i < stack.Length
        ensures Held(stack[i], upvalues, chunks)
      {
        HeldMore(stack[i], before, upvalues, chunks, chunks);
      }
      forall n | n in globals
        ensures Held(globals[n], upvalues, chunks)
      {
        HeldMore(globals[n], before, upvalues, chunks, chunks);
      }
      forall v | v in upvalues && v.closed.Some?
        ensures Held(v.closed.value, upvalues, chunks)
      {
        HeldMore(v.closed.value, before, upvalues, chunks, chunks);
      }
    }

    /** The chunks of a compiled script join the trusted ones. */
    ghost method Trust(more: set<RC.Chunk<RV.Value>>)
      requires Valid() && Trusted(chunks + more)
      modifies this`chunks
      ensures chunks == old(chunks) + more && Valid()
    {
      ghost var before := chunks;
      chunks := chunks + more;
      forall i | 0 <= i < stack.Length
        ensures Held(stack[i], upvalues, chunks)
      {
        HeldMore(stack[i], upvalues, upvalues, before, chunks);
      }
      forall n | n in globals
        ensures Held(globals[n], upvalues, chunks)
      {
        HeldMore(globals[n], upvalues, upvalues, before, chunks);
      }
      forall v | v in upvalues && v.closed.Some?
        ensures Held(v.closed.value, upvalues, chunks)
      {
        HeldMore(v.closed.value, upvalues, upvalues, before, chunks);
      }
    }

    /** `VM::new`, followed by `define_native("clock", ...)`; the clock's
        address is `clock`. */
    constructor (ops: FloatOps, strings: LoxString.Interner, natives: (nat, seq<RV.Value>) -> NativeResult, clock: nat)
      requires strings.Valid()
      ensures Valid() && this.ops == ops && this.strings == strings && this.natives == natives
      ensures globals == map["clock" := RV.Native(clock)]
      ensures stackCount == 0 && frameCount == 0 && openUpvalues == null && openList == [] && openSlots == []
      ensures upvalues == {} && chunks == {}
      ensures forall i :: 0 <= i < stack.Length ==> stack[i] == RV.Nil
      ensures forall i :: 0 <= i < frames.Length ==> frames[i] == CALL_FRAME_DEFAULT
      ensures reports == [] && printed == []
    {
      this.ops := ops;
      this.strings := strings;
      this.natives := natives;
      stack := new RV.Value[STACK_MAX](_ => RV.Nil);
      frames := new CallFrame[CALL_FRAME_MAX](_ => CALL_FRAME_DEFAULT);
      stackCount, frameCount := 0, 0;
      openUpvalues, openList, openSlots := null, [], [];
      reports, printed := [], [];
      upvalues, chunks := {}, {};
      globals := map["clock" := RV.Native(clock)];
    }

    /** `reset_stack`: no values, and every frame back to its default. */
    method ResetStack()
      requires Valid()
      modifies this`stackCount, this`frameCount, frames
      ensures Valid()
      ensures stackCount == 0 && frameCount == 0
      ensures forall i :: 0 <= i < frames.Length ==> frames[i] == CALL_FRAME_DEFAULT
    {
      stackCount := 0;
      var i := 0;
      while i < frames.Length
        invariant 0 <= i <= frames.Length && stackCount == 0
        invariant forall k :: 0 <= k < i ==> frames[k] == CALL_FRAME_DEFAULT
      {
        frames[i] := CALL_FRAME_DEFAULT;
        i := i + 1;
      }
      frameCount := 0;
    }

    /** The trace `runtime_error` prints, frame by frame from the
        innermost one; `None` where a frame's line cannot be read. */
    method TraceFrames() returns (t: Option<seq<TraceLine>>)
      requires Shape() && FramesRun()
      ensures t == Trace(frames[..frameCount])
    {
      var trace: seq<TraceLine> := [];
      var k := frameCount;
      while k > 0
        invariant 0 <= k <= frameCount
        invariant Trace(frames[k..frameCount]) == Some(trace)
      {
        var f := frames[k - 1];
        var lines := f.closure.value.func.chunk.lines;
        assert frames[k - 1..frameCount][1..] == frames[k..frameCount];
        if f.ip == 0 || f.ip - 1 >= |lines| {
          assert Trace(frames[k - 1..frameCount]).None?;
          assert Trace(frames[..frameCount]).None? by {
            assert frames[..frameCount][k - 1] == f;
          }
          return None;
        }
        trace := trace + [TraceLine(lines[f.ip - 1], f.closure.value.func.name)];
        k := k - 1;
      }
      assert frames[..frameCount] == frames[0..frameCount];
      t := Some(trace);
    }

    /** `runtime_error`: the message and the trace of every frame, then an
        empty stack; `Err(RuntimeError)`. A frame whose line cannot be
        read panics, before anything changes. */
    method RuntimeError(message: string) returns (r: Flow<()>)
      requires Valid()
      modifies this`stackCount, this`frameCount, frames, this`reports
      ensures var t := old(Trace(frames[..frameCount]));
        (t.None? ==> r == Panic && unchanged(this) && unchanged(frames))
        && (t.Some? ==>
              r == Fault(InterpretError.RuntimeError) && Valid() && reports == old(reports) + [RuntimeReport(message, t.value)]
              && stackCount == 0 && frameCount == 0
              && forall i :: 0 <= i < frames.Length ==> frames[i] == CALL_FRAME_DEFAULT)
    {
      var trace := TraceFrames();
      if trace.None? {
        return Panic;
      }
      reports := reports + [RuntimeReport(message, trace.value)];
      ResetStack();
      r := Fault(InterpretError.RuntimeError);
    }

    /** `push`: the value at slot `stack_count`; a full stack has no such
        slot, and the index panics (`false`). */
    method Push(value: RV.Value) returns (ok: bool)
      requires Valid() && Held(value, upvalues, chunks)
      modifies stack, this`stackCount
      ensures Valid()
      ensures ok <==> old(stackCount) < STACK_MAX
      ensures ok ==> stackCount == old(stackCount) + 1 && stack[..] == old(stack[..])[old(stackCount) := value]
      ensures !ok ==> stackCount == old(stackCount) && stack[..] == old(stack[..])
    {
      if stackCount >= stack.Length {
        return false;
      }
      stack[stackCount] := value;
      stackCount := stackCount + 1;
      ok := true;
    }

    /** `pop`: the top value, its slot left as the default `nil`
        (`mem::take`); `InternalError` on an empty stack, with nothing
        changed. */
    method Pop() returns (r: Flow<RV.Value>)
      requires Valid()
      modifies stack, this`stackCount
      ensures Valid()
      ensures old(stackCount) == 0 ==>
        r == Fault(InternalError("Can't pop on empty stack.")) && stackCount == 0 && stack[..] == old(stack[..])
      ensures old(stackCount) > 0 ==>
        r == Normal(old(stack[stackCount - 1])) && stackCount == old(stackCount) - 1
        && stack[..] == old(stack[..])[stackCount := RV.Nil]
    {
      if stackCount == 0 {
        return Fault(InternalError("Can't pop on empty stack."));
      }
      stackCount := stackCount - 1;
      r := Normal(stack[stackCount]);
      stack[stackCount] := RV.Nil;
    }

    /** `peek(index)`: the value `index` slots below the top. Below the
        bottom, `stack_count - 1 - index` overflows and panics before the
        bounds-checked read could fail. */
    method Peek(index: nat) returns (r: Flow<RV.Value>)
      requires Valid()
      ensures index < stackCount ==> r == Normal(stack[stackCount - 1 - index])
      ensures index >= stackCount ==> r == Panic
    {
      if index >= stackCount {
        return Panic;
      }
      r := Normal(stack[stackCount - 1 - index]);
    }

    /** `current_frame`: the innermost frame. */
    ghost function Frame(): (f: CallFrame)
      reads this`stackCount, this`frameCount, frames
      requires Shape() && FramesRun() && frameCount > 0
      ensures f.closure.Some?
    {
      frames[frameCount - 1]
    }

    /** `current_chunk`: the chunk of the innermost frame's function. */
    ghost function Chunk(): RC.Chunk<RV.Value>
      reads this`stackCount, this`frameCount, frames
      requires Shape() && FramesRun() && frameCount > 0
    {
      Frame().closure.value.func.chunk
    }

    /** The innermost frame with its `ip` moved to `ip`. */
    method SetIp(ip: nat)
      requires Valid() && frameCount > 0
      modifies frames
      ensures Valid()
      ensures frames[..] == old(frames[..])[frameCount - 1 := old(Frame()).(ip := ip)]
    {
      frames[frameCount - 1] := frames[frameCount - 1].(ip := ip);
    }

    /** `read_u8`: `ip` moves past the byte first, then the byte is read
        (`current_frame_mut` panics with no frame); past the end of the
        chunk, `InternalError` with `ip` moved all the same. */
    method ReadU8() returns (r: Flow<byte>)
      requires Valid()
      modifies frames
      ensures Valid()
      ensures frameCount == 0 ==> r == Panic
      ensures frameCount > 0 ==>
        var f := old(Frame());
        var code := f.closure.value.func.chunk.code;
        frames[..] == old(frames[..])[frameCount - 1 := f.(ip := f.ip + 1)]
        && (f.ip < |code| ==> r == Normal(code[f.ip]))
        && (f.ip >= |code| ==> r == Fault(InternalError("Failed to read byte.")))
    {
      if frameCount == 0 {
        return Panic;
      }
      var ip := frames[frameCount - 1].ip;
      SetIp(ip + 1);
      var code := frames[frameCount - 1].closure.value.func.chunk.code;
      if ip >= |code| {
        return Fault(InternalError("Failed to read byte."));
      }
      r := Normal(code[ip]);
    }

    /** `read_u16`: two bytes, the first the high one. A failed read
        returns at once, after moving `ip` past it. */
    method ReadU16() returns (r: Flow<u16>)
      requires Valid()
      modifies frames
      ensures Valid()
      ensures frameCount == 0 ==> r == Panic
      ensures frameCount > 0 ==>
        var f := old(Frame());
        var code := f.closure.value.func.chunk.code;
        (f.ip + 1 < |code| ==>
          r == Normal(BigEndian16(code[f.ip], code[f.ip + 1]))
          && frames[..] == old(frames[..])[frameCount - 1 := f.(ip := f.ip + 2)])
        && (f.ip + 1 >= |code| ==> r == Fault(InternalError("Failed to read byte.")))
    {
      var hi := ReadU8();
      if !hi.Normal? {
        return match hi case Fault(e) => Fault(e) case _ => Panic;
      }
      var lo := ReadU8();
      if !lo.Normal? {
        return match lo case Fault(e) => Fault(e) case _ => Panic;
      }
      r := Normal(BigEndian16(hi.value, lo.value));
    }

    /** `read_constant`: the constant the next byte names;
        `InternalError` when the pool has no such entry. */
    method ReadConstant() returns (r: Flow<RV.Value>)
      requires Valid()
      modifies frames
      ensures Valid()
      ensures frameCount == 0 ==> r == Panic
      ensures frameCount > 0 ==>
        var f := old(Frame());
        var chunk := f.closure.value.func.chunk;
        frames[..] == old(frames[..])[frameCount - 1 := f.(ip := f.ip + 1)]
        && (f.ip >= |chunk.code| ==> r == Fault(InternalError("Failed to read byte.")))
        && (f.ip < |chunk.code| && chunk.code[f.ip] as nat >= |chunk.constants| ==> r == Fault(InternalError("Failed to read constant.")))
        && (f.ip < |chunk.code| && chunk.code[f.ip] as nat < |chunk.constants| ==> r == Normal(chunk.constants[chunk.code[f.ip]]))
    {
      var index := ReadU8();
      if !index.Normal? {
        return match index case Fault(e) => Fault(e) case _ => Panic;
      }
      var constants := frames[frameCount - 1].closure.value.func.chunk.constants;
      if index.value as nat >= |constants| {
        return Fault(InternalError("Failed to read constant."));
      }
      r := Normal(constants[index.value]);
    }

    /** `read_string` and `as_str`: the text of the string constant the
        next byte names; `InternalError` for any other constant, and a
        panic for a handle the interner does not hold. */
    method ReadName() returns (r: Flow<string>)
      requires Valid()
      modifies frames
      ensures Valid()
      ensures frameCount == 0 ==> r == Panic
      ensures frameCount > 0 ==>
        var f := old(Frame());
        var chunk := f.closure.value.func.chunk;
        frames[..] == old(frames[..])[frameCount - 1 := f.(ip := f.ip + 1)]
        && (r.Normal? <==>
          f.ip < |chunk.code| && chunk.code[f.ip] as nat < |chunk.constants|
          && chunk.constants[chunk.code[f.ip]].String? && chunk.constants[chunk.code[f.ip]].handle.index < |strings.strings|)
        && (r.Normal? ==> r.value == LoxString.AsStr(strings, chunk.constants[chunk.code[f.ip]].handle))
    {
      var constant := ReadConstant();
      if !constant.Normal? {
        return match constant case Fault(e) => Fault(e) case _ => Panic;
      }
      if !constant.value.String? {
        return Fault(InternalError("Value was not a string."));
      }
      if constant.value.handle.index >= |strings.strings| {
        return Panic;
      }
      r := Normal(LoxString.AsStr(strings, constant.value.handle));
    }

    /** `capture_upvalue(&stack[slot])`: walks the list past the entries
        above `slot`; an entry for `slot` is returned as it is, otherwise a
        new open upvalue is linked in at that point. */
    method CaptureUpvalue(slot: nat) returns (u: RV.Upvalue)
      requires Valid() && slot < STACK_MAX
      modifies this`openUpvalues, this`openList, this`openSlots, this`upvalues, upvalues`next
      ensures Valid()
      ensures openSlots == Captured(old(openSlots), slot)
      ensures u in openList && u.location == RV.Stack(slot)
      ensures forall v :: v in openList ==> v in old(openList) || v == u
      ensures forall v :: v in old(openList) ==> v in openList
      ensures u !in old(openList) ==> fresh(u) && u.closed == None
      ensures upvalues == old(upvalues) + {u}
    {
      var previous, current, k := FindOpen(slot);
      if current != null && current.location.index == slot {
        return current;
      }
      u := InsertOpen(slot, previous, current, k);
    }

    /** The new entry of `capture_upvalue`, linked in at `k` and owned. */
    method InsertOpen(slot: nat, previous: RV.Upvalue?, current: RV.Upvalue?, ghost k: nat) returns (u: RV.Upvalue)
      requires Valid() && slot < STACK_MAX
      requires k == CaptureStop(openSlots, slot)
      requires current == (if k < |openList| then openList[k] else null)
      requires previous == (if k == 0 then null else openList[k - 1])
      requires current != null ==> current.location.index != slot
      modifies this`openUpvalues, this`openList, this`openSlots, this`upvalues, (if previous == null then {} else {previous})`next
      ensures Valid()
      ensures openSlots == Captured(old(openSlots), slot)
      ensures forall v :: v in openList <==> v in old(openList) || v == u
      ensures fresh(u) && u.location == RV.Stack(slot) && u.closed == None
      ensures upvalues == old(upvalues) + {u}
    {
      ghost var list := openList;
      u := LinkOpen(slot, previous, current, k);
      Adopt(u, list, k);
    }

    /** The walk of `capture_upvalue`: `current` is the first entry not
        above `slot` (`null` past the end) and `previous` the one before. */
    method FindOpen(slot: nat) returns (previous: RV.Upvalue?, current: RV.Upvalue?, ghost k: nat)
      requires OpenListValid()
      ensures k == CaptureStop(openSlots, slot)
      ensures current == if k < |openList| then openList[k] else null
      ensures previous == if k == 0 then null else openList[k - 1]
    {
      ghost var slots := openSlots;
      previous := null;
      current := openUpvalues;
      k := 0;
      while current != null && current.location.index > slot
        invariant 0 <= k <= |openList|
        invariant current == if k < |openList| then openList[k] else null
        invariant previous == if k == 0 then null else openList[k - 1]
        invariant forall i :: 0 <= i < k ==> slots[i] > slot
        decreases |openList| - k
      {
        previous := current;
        current := current.next;
        k := k + 1;
      }
    }

    /** Different entries of the list are different objects. */
    lemma OpenDistinct()
      requires OpenListValid()
      ensures forall i, j :: 0 <= i < j < |openList| ==> openList[i] != openList[j]
    {
      var slots := openSlots;
      forall i, j | 0 <= i < j < |openList|
        ensures openList[i] != openList[j]
      {
        assert slots[i] > slots[j];
      }
    }

    /** The end of `capture_upvalue` when no entry is for `slot`: a new
        open upvalue before `current`, linked from `previous` or made the
        head. */
    method LinkOpen(slot: nat, previous: RV.Upvalue?, current: RV.Upvalue?, ghost k: nat) returns (u: RV.Upvalue)
      requires Core() && OpenListValid() && slot < STACK_MAX
      requires k == CaptureStop(openSlots, slot)
      requires current == (if k < |openList| then openList[k] else null)
      requires previous == (if k == 0 then null else openList[k - 1])
      requires current != null ==> current.location.index != slot
      modifies this`openUpvalues, this`openList, this`openSlots, (if previous == null then {} else {previous})`next
      ensures Core() && OpenListValid()
      ensures openSlots == Captured(old(openSlots), slot)
      ensures openList == old(openList)[..k] + [u] + old(openList)[k..]
      ensures fresh(u) && u.location == RV.Stack(slot) && u.closed == None
    {
      OpenDistinct();
      ghost var list := openList;
      ghost var slots := openSlots;
      CapturedSorted(slots, slot);
      u := new RV.Upvalue.NewOpen(slot, current);
      if previous == null {
        openUpvalues := u;
      } else {
        previous.next := u;
      }
      openList := list[..k] + [u] + list[k..];
      openSlots := slots[..k] + [slot] + slots[k..];
      Inserted(list, k, u);
      InsertedLocated(list, slots, k, u, slot);
    }

    /** One round of `close_upvalues`' loop: the head entry, entry `k` of
        the list `list` the loop started from, takes the value of its slot
        and stops pointing into the stack (`close`), and the head moves to
        `next`; the entries closed before it stay closed. */
    method CloseHead(ghost list: seq<RV.Upvalue>, ghost slots: seq<nat>, ghost k: nat, last: nat)
      requires Valid() && openList != []
      requires k < |list| == |slots| && openList == list[k..] && openSlots == slots[k..] && slots[k] >= last
      requires forall i :: 0 <= i < k ==> last <= slots[i] < STACK_MAX
      requires forall i :: 0 <= i < k ==> list[i].location == RV.Here && list[i].closed == Some(stack[slots[i]])
      modifies this`openUpvalues, this`openList, this`openSlots, openUpvalues`location, openUpvalues`closed
      ensures Valid()
      ensures openList == list[k + 1..] && openSlots == slots[k + 1..]
      ensures forall i :: 0 <= i < k + 1 ==> last <= slots[i] < STACK_MAX
      ensures forall i :: 0 <= i < k + 1 ==> list[i].location == RV.Here && list[i].closed == Some(stack[slots[i]])
    {
      OpenDistinct();
      var u := openUpvalues;
      assert u == list[k] && u.location == RV.Stack(slots[k]);
      assert forall i :: 0 <= i < k ==> list[i] != u;
      u.closed := Some(stack[u.location.index]);
      u.location := RV.Here;
      openUpvalues := u.next;
      openList, openSlots := list[k + 1..], slots[k + 1..];
      assert forall i :: 0 <= i < |openList| ==> openList[i] == list[k + 1 + i] && openSlots[i] == slots[k + 1 + i];
    }

    /** `close_upvalues(&stack[last])`: closes and unlinks the head entries
        while they are open at `last` or above; the list keeps the rest.
        The number closed is `CloseCount`. */
    method CloseUpvalues(last: nat) returns (ghost k: nat)
      requires Valid()
      modifies this`openUpvalues, this`openList, this`openSlots, Elements(openList)`location, Elements(openList)`closed
      ensures Valid()
      ensures k == CloseCount(old(openSlots), last)
      ensures openList == old(openList)[k..] && openSlots == old(openSlots)[k..]
      ensures forall i :: 0 <= i < k ==>
        old(openList)[i].location == RV.Here && old(openList)[i].closed == Some(stack[old(openSlots)[i]])
    {
      ghost var list, slots := openList, openSlots;
      k := 0;
      while openUpvalues != null && openUpvalues.location.index >= last
        invariant Valid()
        invariant k <= |list| && openList == list[k..] && openSlots == slots[k..]
        invariant forall i :: 0 <= i < k ==> last <= slots[i] < STACK_MAX
        invariant forall i :: 0 <= i < k ==> list[i].location == RV.Here && list[i].closed == Some(stack[slots[i]])
        decreases |openList|
      {
        assert openList[0] == list[k] && openSlots[0] == slots[k] >= last;
        CloseHead(list, slots, k, last);
        k := k + 1;
      }
      CloseCountUnique(slots, last, k);
    }

    // -------------------------------------------------------------------
    // The arms of `run`, each after its operands are read

    /** The end of an arm that called `runtime_error(message)`: the report
        is appended and the stack emptied, or the trace panicked. */
    ghost predicate Reported(r: Flow<Next>, message: string, before: seq<RuntimeReport>)
      reads this`reports, this`stackCount, this`frameCount
    {
      r == Panic
      || (r == Fault(InterpretError.RuntimeError) && stackCount == 0 && frameCount == 0
          && |reports| == |before| + 1 && reports[..|before|] == before && reports[|before|].message == message)
    }

    /** `return self.runtime_error(message)` inside `run`. */
    method Fail(message: string) returns (r: Flow<Next>)
      requires Valid()
      modifies this`stackCount, this`frameCount, frames, this`reports
      ensures Valid() && Reported(r, message, old(reports))
      ensures r.Normal? ==> r.value == Continue
    {
      var e := RuntimeError(message);
      r := if e.Panic? then Panic else Fault(InterpretError.RuntimeError);
    }

    /** `Constant`, `Nil`, `True` and `False`: the value is pushed. */
    method PushValue(v: RV.Value) returns (r: Flow<Next>)
      requires Valid() && Held(v, upvalues, chunks)
      modifies stack, this`stackCount
      ensures Valid()
      ensures old(stackCount) < STACK_MAX ==>
        r == Normal(Continue) && stackCount == old(stackCount) + 1 && stack[..] == old(stack[..])[old(stackCount) := v]
      ensures old(stackCount) >= STACK_MAX ==> r == Panic && stackCount == old(stackCount) && stack[..] == old(stack[..])
      ensures r.Normal? ==> r.value == Continue
    {
      var ok := Push(v);
      r := if ok then Normal(Continue) else Panic;
    }

    /** `Pop`: the top value is dropped. */
    method Discard() returns (r: Flow<Next>)
      requires Valid()
      modifies stack, this`stackCount
      ensures Valid() && Popping(old(Snap()), r)
      ensures r.Normal? ==> r.value == Continue
    {
      var v := Pop();
      r := if v.Normal? then Normal(Continue) else Abort(v);
    }

    /** `GetLocal`: the slot `slot` of the frame, counted from where its
        locals start, is pushed; a slot past the stack panics. */
    method GetLocal(slot: byte) returns (r: Flow<Next>)
      requires Valid() && frameCount > 0
      modifies stack, this`stackCount
      ensures Valid()
      ensures var index := slot as nat + old(Frame()).startsAt;
        (index >= STACK_MAX || old(stackCount) >= STACK_MAX ==>
          r == Panic && stackCount == old(stackCount) && stack[..] == old(stack[..]))
        && (index < STACK_MAX && old(stackCount) < STACK_MAX ==>
          r == Normal(Continue) && stackCount == old(stackCount) + 1
          && stack[..] == old(stack[..])[old(stackCount) := old(stack[index])])
      ensures r.Normal? ==> r.value == Continue
    {
      var index := slot as nat + frames[frameCount - 1].startsAt;
      if index >= STACK_MAX {
        return Panic;
      }
      r := PushValue(stack[index]);
    }

    /** `SetLocal`: the top value is copied into the frame's slot `slot`,
        and stays on the stack. */
    method SetLocal(slot: byte) returns (r: Flow<Next>)
      requires Valid() && frameCount > 0
      modifies stack
      ensures Valid()
      ensures var index := slot as nat + old(Frame()).startsAt;
        (index >= STACK_MAX || old(stackCount) == 0 ==> r == Panic && stack[..] == old(stack[..]))
        && (index < STACK_MAX && old(stackCount) > 0 ==>
          r == Normal(Continue) && stack[..] == old(stack[..])[index := old(stack[stackCount - 1])])
      ensures r.Normal? ==> r.value == Continue
    {
      var top := Peek(0);
      var index := slot as nat + frames[frameCount - 1].startsAt;
      if !top.Normal? || index >= STACK_MAX {
        return Panic;
      }
      stack[index] := top.value;
      r := Normal(Continue);
    }

    /** `GetGlobal`: the global's value is pushed; an undefined name is a
        runtime error. */
    method GetGlobal(name: string) returns (r: Flow<Next>)
      requires Valid()
      modifies stack, this`stackCount, this`frameCount, frames, this`reports
      ensures Valid() && globals == old(globals)
      ensures name in globals && old(stackCount) < STACK_MAX ==>
        r == Normal(Continue) && stackCount == old(stackCount) + 1
        && stack[..] == old(stack[..])[old(stackCount) := globals[name]]
      ensures name in globals && old(stackCount) >= STACK_MAX ==>
        r == Panic && stackCount == old(stackCount) && stack[..] == old(stack[..])
      ensures name in globals ==> frameCount == old(frameCount) && frames[..] == old(frames[..]) && reports == old(reports)
      ensures name !in globals ==> Reported(r, "Undefined variable '" + name + "'.", old(reports))
      ensures r.Normal? ==> r.value == Continue
    {
      if name in globals {
        r := PushValue(globals[name]);
      } else {
        r := Fail("Undefined variable '" + name + "'.");
      }
    }

    /** `DefineGlobal`: the top value is popped into the global. */
    method DefineGlobal(name: string) returns (r: Flow<Next>)
      requires Valid()
      modifies stack, this`stackCount, this`globals
      ensures Valid()
      ensures old(stackCount) == 0 ==>
        r == Fault(InternalError("Can't pop on empty stack.")) && globals == old(globals) && stackCount == 0
      ensures old(stackCount) > 0 ==>
        r == Normal(Continue) && globals == old(globals)[name := old(stack[stackCount - 1])]
        && stackCount == old(stackCount) - 1 && stack[..] == old(stack[..])[stackCount := RV.Nil]
      ensures r.Normal? ==> r.value == Continue
    {
      var v := Pop();
      if !v.Normal? {
        return Abort(v);
      }
      globals := globals[name := v.value];
      r := Normal(Continue);
    }

    /** `SetGlobal`: a defined global takes the top value, which stays on
        the stack; for an undefined one the entry `insert` made is removed
        again, so the globals are as before, and a runtime error follows. */
    method SetGlobal(name: string) returns (r: Flow<Next>)
      requires Valid()
      modifies this`globals, this`stackCount, this`frameCount, frames, this`reports
      ensures Valid()
      ensures old(stackCount) == 0 ==> r == Panic && globals == old(globals)
      ensures old(stackCount) > 0 && name in old(globals) ==>
        r == Normal(Continue) && globals == old(globals)[name := old(stack[stackCount - 1])] && stackCount == old(stackCount)
        && frameCount == old(frameCount) && frames[..] == old(frames[..]) && reports == old(reports)
      ensures old(stackCount) > 0 && name !in old(globals) ==>
        globals == old(globals) && Reported(r, "Undefined variable '" + name + "'.", old(reports))
      ensures r.Normal? ==> r.value == Continue
    {
      var top := Peek(0);
      if !top.Normal? {
        return Panic;
      }
      if name !in globals {
        r := Fail("Undefined variable '" + name + "'.");
        return;
      }
      globals := globals[name := top.value];
      r := Normal(Continue);
    }

    /** `GetUpvalue`: the value of the frame closure's upvalue `slot` is
        pushed; a slot the closure lacks panics. */
    method GetUpvalue(slot: byte) returns (r: Flow<Next>)
      requires Valid() && frameCount > 0
      modifies stack, this`stackCount
      ensures Valid()
      ensures var ups := old(Frame()).closure.value.upvalues;
        (slot as nat >= |ups| ==> r == Panic && stack[..] == old(stack[..]) && stackCount == old(stackCount))
        && (slot as nat < |ups| ==>
          var v := old(CellRead(ups[slot].location, ups[slot].closed, stack[..]));
          (v.None? || old(stackCount) >= STACK_MAX ==> r == Panic && stackCount == old(stackCount) && stack[..] == old(stack[..]))
          && (v.Some? && old(stackCount) < STACK_MAX ==>
            r == Normal(Continue) && stackCount == old(stackCount) + 1 && stack[..] == old(stack[..])[old(stackCount) := v.value]))
      ensures r.Normal? ==> r.value == Continue
    {
      var ups := frames[frameCount - 1].closure.value.upvalues;
      if slot as nat >= |ups| {
        return Panic;
      }
      var u := ups[slot];
      var v := CellRead(u.location, u.closed, stack[..]);
      if v.None? {
        return Panic;
      }
      r := PushValue(v.value);
    }

    /** `SetUpvalue` as written (`SetAsWritten`): the top value, which
        stays on the stack, becomes the value the frame closure's upvalue
        `slot` holds, whether it is open or closed; the stack is not
        written. */
    method SetUpvalue(slot: byte) returns (r: Flow<Next>)
      requires Valid() && frameCount > 0
      modifies upvalues`closed
      ensures Valid()
      ensures var ups := old(Frame()).closure.value.upvalues;
        (old(stackCount) == 0 || slot as nat >= |ups| ==> r == Panic)
        && (old(stackCount) > 0 && slot as nat < |ups| ==>
          var u := ups[slot];
          var d := SetAsWritten(u.location, Cell(old(u.closed), stack[..]), stack[stackCount - 1]);
          r == Normal(Continue) && u.closed == d.closed && stack[..] == d.slots)
      ensures forall w :: w in upvalues && w.closed != old(w.closed) ==>
        slot as nat < |old(Frame()).closure.value.upvalues| && w == old(Frame()).closure.value.upvalues[slot]
      ensures r.Normal? ==> r.value == Continue
    {
      var top := Peek(0);
      var ups := frames[frameCount - 1].closure.value.upvalues;
      if !top.Normal? || slot as nat >= |ups| {
        return Panic;
      }
      var u := ups[slot];
      u.closed := Some(top.value);
      r := Normal(Continue);
    }

    /** `Equal`: pops `b`, then `a`, and pushes whether `a == b`. */
    method Equal() returns (r: Flow<Next>)
      requires Valid()
      modifies stack, this`stackCount
      ensures Valid() && Equality(old(Snap()), r)
      ensures r.Normal? ==> r.value == Continue
    {
      var b := Pop();
      if !b.Normal? {
        return Abort(b);
      }
      var a := Pop();
      if !a.Normal? {
        return Abort(a);
      }
      r := PushValue(RV.Bool(RV.Eq(ops, a.value, b.value)));
    }

    /** `binary_op!` for `op`: with numbers `a` (second) and `b` (top),
        both are popped and `a op b` pushed; otherwise a runtime error.
        Fewer than two values panic in `peek`. */
    method Binary(op: RC.Op) returns (r: Flow<Next>)
      requires Valid() && IsArith(op)
      modifies stack, this`stackCount, this`frameCount, frames, this`reports
      ensures Valid() && Arithmetic(op, old(Snap()), r)
      ensures r.Normal? ==> r.value == Continue
    {
      if stackCount < 2 {
        return Panic;
      }
      var a, b := stack[stackCount - 2], stack[stackCount - 1];
      if !(a.Number? && b.Number?) {
        r := Fail("Operands must be numbers.");
        return;
      }
      r := Combine(Arith(ops, op, a.n, b.n));
    }

    /** The end of a binary arm: both operands are popped (their slots
        left `nil`) and `value` is pushed in the place of the second. */
    method Combine(value: RV.Value) returns (r: Flow<Next>)
      requires Valid() && stackCount >= 2 && Held(value, upvalues, chunks)
      modifies stack, this`stackCount
      ensures Valid()
      ensures var n := old(stackCount);
        r == Normal(Continue) && stackCount == n - 1 && stack[..] == old(stack[..])[n - 1 := RV.Nil][n - 2 := value]
      ensures r.Normal? ==> r.value == Continue
    {
      var _ := Pop();
      var _ := Pop();
      r := PushValue(value);
    }

    /** The string arm of `Add`: the texts of `a` and `b`, concatenated
        and interned, replace the two operands. */
    method Concatenate(a: LoxString.Handle, b: LoxString.Handle) returns (r: Flow<Next>)
      requires Valid() && stackCount >= 2
      modifies stack, this`stackCount, strings
      ensures Valid()
      ensures var n := old(stackCount);
        (a.index >= old(|strings.strings|) || b.index >= old(|strings.strings|) ==>
          r == Panic && stackCount == n && stack[..] == old(stack[..]))
        && (a.index < old(|strings.strings|) && b.index < old(|strings.strings|) ==>
          r == Normal(Continue) && stackCount == n - 1 && stack[n - 2].String? && stack[n - 2].handle.index < |strings.strings|
          && LoxString.AsStr(strings, stack[n - 2].handle) == old(LoxString.AsStr(strings, a)) + old(LoxString.AsStr(strings, b))
          && stack[..] == old(stack[..])[n - 1 := RV.Nil][n - 2 := stack[n - 2]])
      ensures r.Normal? ==> r.value == Continue
    {
      if a.index >= |strings.strings| || b.index >= |strings.strings| {
        return Panic;
      }
      var h := LoxString.Add(strings, a, b);
      r := Combine(RV.String(h));
    }

    /** `Add`: two numbers are added; two strings are concatenated and
        the result interned; anything else is a runtime error. A handle
        the interner does not hold panics. */
    method Add() returns (r: Flow<Next>)
      requires Valid()
      modifies stack, this`stackCount, this`frameCount, frames, this`reports, strings
      ensures Valid() && Addition(old(Snap()), r)
      ensures r.Normal? ==> r.value == Continue
    {
      if stackCount < 2 {
        return Panic;
      }
      var a, b := stack[stackCount - 2], stack[stackCount - 1];
      if a.Number? && b.Number? {
        r := AddNumbers();
      } else if a.String? && b.String? {
        r := AddStrings();
      } else {
        r := Fail("Operands must be two numbers or two strings.");
      }
    }

    /** The number arm of `Add`. */
    method AddNumbers() returns (r: Flow<Next>)
      requires Valid() && stackCount >= 2 && stack[stackCount - 2].Number? && stack[stackCount - 1].Number?
      modifies stack, this`stackCount
      ensures Valid() && Addition(old(Snap()), r)
    {
      r := Combine(RV.Number(ops.add(stack[stackCount - 2].n, stack[stackCount - 1].n)));
    }

    /** The string arm of `Add`. */
    method AddStrings() returns (r: Flow<Next>)
      requires Valid() && stackCount >= 2 && stack[stackCount - 2].String? && stack[stackCount - 1].String?
      modifies stack, this`stackCount, strings
      ensures Valid() && Addition(old(Snap()), r)
    {
      r := Concatenate(stack[stackCount - 2].handle, stack[stackCount - 1].handle);
    }

    /** `Not`: the top value is replaced by whether it is falsy. */
    method Not() returns (r: Flow<Next>)
      requires Valid()
      modifies stack, this`stackCount
      ensures Valid() && Falsity(old(Snap()), r)
      ensures r.Normal? ==> r.value == Continue
    {
      var v := Pop();
      if !v.Normal? {
        return Abort(v);
      }
      r := PushValue(RV.Bool(RV.IsFalsy(v.value)));
    }

    /** `Negate`: the top value is popped; a number is pushed back
        negated, anything else is a runtime error. */
    method Negate() returns (r: Flow<Next>)
      requires Valid()
      modifies stack, this`stackCount, this`frameCount, frames, this`reports
      ensures Valid() && Negation(old(Snap()), r)
      ensures r.Normal? ==> r.value == Continue
    {
      var v := Pop();
      if !v.Normal? {
        return Abort(v);
      }
      if !v.value.Number? {
        r := Fail("Operand must be a number.");
        return;
      }
      r := PushValue(RV.Number(ops.neg(v.value.n)));
    }

    /** `Print`: the top value is popped and printed. */
    method Print() returns (r: Flow<Next>)
      requires Valid()
      modifies stack, this`stackCount, this`printed
      ensures Valid() && Printing(old(Snap()), r)
      ensures r.Normal? ==> r.value == Continue
    {
      var v := Pop();
      if !v.Normal? {
        return Abort(v);
      }
      printed := printed + [v.value];
      r := Normal(Continue);
    }

    /** `Jump`: `ip` moves forward by the operand. */
    method Jump(offset: u16) returns (r: Flow<Next>)
      requires Valid() && frameCount > 0
      modifies frames
      ensures Valid() && r == Normal(Continue)
      ensures var f := old(Frame()); frames[..] == old(frames[..])[frameCount - 1 := f.(ip := f.ip + offset as nat)]
    {
      SetIp(frames[frameCount - 1].ip + offset as nat);
      r := Normal(Continue);
    }

    /** `JumpIfFalse`: `ip` moves forward by the operand when the top
        value is falsy; the value stays on the stack either way. */
    method JumpIfFalse(offset: u16) returns (r: Flow<Next>)
      requires Valid() && frameCount > 0
      modifies frames
      ensures Valid()
      ensures old(stackCount) == 0 ==> r == Panic && frames[..] == old(frames[..])
      ensures var f := old(Frame());
        old(stackCount) > 0 ==>
          r == Normal(Continue)
          && (RV.IsFalsy(stack[stackCount - 1]) ==> frames[..] == old(frames[..])[frameCount - 1 := f.(ip := f.ip + offset as nat)])
          && (!RV.IsFalsy(stack[stackCount - 1]) ==> frames[..] == old(frames[..]))
      ensures r.Normal? ==> r.value == Continue
    {
      var top := Peek(0);
      if !top.Normal? {
        return Panic;
      }
      if RV.IsFalsy(top.value) {
        SetIp(frames[frameCount - 1].ip + offset as nat);
      }
      r := Normal(Continue);
    }

    /** `Loop`: `ip` moves back by the operand; moving before the start of
        the chunk underflows and panics. */
    method Loop(offset: u16) returns (r: Flow<Next>)
      requires Valid() && frameCount > 0
      modifies frames
      ensures Valid()
      ensures var f := old(Frame());
        (f.ip < offset as nat ==> r == Panic && frames[..] == old(frames[..]))
        && (f.ip >= offset as nat ==> r == Normal(Continue) && frames[..] == old(frames[..])[frameCount - 1 := f.(ip := f.ip - offset as nat)])
      ensures r.Normal? ==> r.value == Continue
    {
      var ip := frames[frameCount - 1].ip;
      if ip < offset as nat {
        return Panic;
      }
      SetIp(ip - offset as nat);
      r := Normal(Continue);
    }

    /** The message of `call`'s arity check. */
    static function ArityMessage(arity: nat, argCount: nat): string
    {
      "Expected " + NatText(arity) + " arguments but got " + NatText(argCount) + "."
    }

    /** `call` as written (`CallAsWritten`): a new frame for `closure`
        whose locals start at the callee's slot, entered at `ip` 0; with
        all 64 frames in use the frame is written past the array, which
        panics. */
    method Call(closure: RV.Closure, argCount: nat) returns (r: Flow<Next>)
      requires Valid() && ClosureHeld(closure, upvalues, chunks)
      modifies this`stackCount, this`frameCount, frames, this`reports
      ensures Valid()
      ensures var c := CallAsWritten(closure.func.arity, argCount, old(stackCount), old(frameCount));
        (c.Entered? ==>
          r == Normal(Continue) && frameCount == old(frameCount) + 1 && stackCount == old(stackCount) && reports == old(reports)
          && frames[..] == old(frames[..])[old(frameCount) := CallFrame(Some(closure), 0, c.startsAt)])
        && (c.Underflow? || c.FrameOutOfBounds? ==> r == Panic)
        && (c.Overflow? ==> Reported(r, "Stack overflow.", old(reports)))
        && (c.ArityMismatch? ==> Reported(r, ArityMessage(closure.func.arity, argCount), old(reports)))
      ensures r.Normal? ==> r.value == Continue
    {
      var c := CallAsWritten(closure.func.arity, argCount, stackCount, frameCount);
      if c.Entered? {
        frames[frameCount] := CallFrame(Some(closure), 0, c.startsAt);
        frameCount := frameCount + 1;
        r := Normal(Continue);
      } else if c.Underflow? || c.FrameOutOfBounds? {
        r := Panic;
      } else {
        r := Fail(if c.Overflow? then "Stack overflow." else ArityMessage(closure.func.arity, argCount));
      }
    }

    /** `call_native`: the native sees the stack from the callee's slot to
        the end of the array, and its result replaces the callee and the
        arguments. */
    method CallNative(address: nat, argCount: nat) returns (r: Flow<Next>)
      requires Valid()
      modifies stack, this`stackCount
      ensures Valid()
      ensures var n := old(stackCount);
        (n < argCount + 1 ==> r == Panic && stackCount == n && stack[..] == old(stack[..]))
        && (n >= argCount + 1 ==>
          r == Normal(Continue) && stackCount == n - argCount
          && stack[..] == old(stack[..])[n - argCount - 1 := natives(address, old(stack[n - argCount - 1..]))])
      ensures r.Normal? ==> r.value == Continue
    {
      if stackCount < argCount + 1 {
        return Panic;
      }
      var argStart := stackCount - argCount - 1;
      var result := natives(address, stack[argStart..]);
      stackCount := stackCount - argCount;
      stack[stackCount - 1] := result;
      r := Normal(Continue);
    }

    /** `call_value`: closures are called, natives run; any other callee
        is a runtime error. */
    method CallValue(callee: RV.Value, argCount: nat) returns (r: Flow<Next>)
      requires Valid() && Held(callee, upvalues, chunks)
      modifies stack, this`stackCount, this`frameCount, frames, this`reports
      ensures Valid()
      ensures !callee.ClosureValue? && !callee.Native? ==>
        Reported(r, "Can only call functions and classes.", old(reports))
      ensures callee.ClosureValue? ==>
        var c := CallAsWritten(callee.closure.func.arity, argCount, old(stackCount), old(frameCount));
        stack[..] == old(stack[..])
        && (c.Entered? ==>
          r == Normal(Continue) && frameCount == old(frameCount) + 1 && stackCount == old(stackCount) && reports == old(reports)
          && frames[..] == old(frames[..])[old(frameCount) := CallFrame(Some(callee.closure), 0, c.startsAt)])
        && (c.Underflow? || c.FrameOutOfBounds? ==> r == Panic)
        && (c.Overflow? ==> Reported(r, "Stack overflow.", old(reports)))
        && (c.ArityMismatch? ==> Reported(r, ArityMessage(callee.closure.func.arity, argCount), old(reports)))
      ensures callee.Native? ==>
        var n := old(stackCount);
        frameCount == old(frameCount) && frames[..] == old(frames[..]) && reports == old(reports)
        && (n < argCount + 1 ==> r == Panic)
        && (n >= argCount + 1 ==>
          r == Normal(Continue) && stackCount == n - argCount
          && stack[..] == old(stack[..])[n - argCount - 1 := natives(callee.address, old(stack[n - argCount - 1..]))])
      ensures r.Normal? ==> r.value == Continue
    {
      match callee
      case ClosureValue(c) =>
        r := Call(c, argCount);
      case Native(address) =>
        r := CallNative(address, argCount);
      case _ =>
        r := Fail("Can only call functions and classes.");
    }

    /** The upvalue a new closure got for `src`: one open on the slot (the
        list's entry for it, by `CaptureUpvalue`), or the enclosing
        closure's upvalue. */
    ghost predicate Resolves(u: RV.Upvalue, src: Source, enclosing: seq<RV.Upvalue>)
      reads u
    {
      (src.Slot? ==> u.location == RV.Stack(src.slot))
      && (src.Enclosing? ==> src.index < |enclosing| && u == enclosing[src.index])
    }

    /** A source the `Closure` arm can take without panicking. */
    static predicate Resolvable(src: Source, enclosingCount: nat)
    {
      (src.Slot? ==> src.slot < STACK_MAX) && (src.Enclosing? ==> src.index < enclosingCount)
    }

    /** The operand pair `is_local, index` of one upvalue. */
    method ReadPair() returns (r: Flow<(byte, byte)>)
      requires Valid() && frameCount > 0
      modifies frames
      ensures Valid()
      ensures var f := old(Frame());
        var code := f.closure.value.func.chunk.code;
        (f.ip + 1 >= |code| ==> r == Fault(InternalError("Failed to read byte.")))
        && (f.ip + 1 < |code| ==>
          r == Normal((code[f.ip], code[f.ip + 1])) && frames[..] == old(frames[..])[frameCount - 1 := f.(ip := f.ip + 2)])
    {
      var isLocal := ReadU8();
      if !isLocal.Normal? {
        return Abort(isLocal);
      }
      var index := ReadU8();
      if !index.Normal? {
        return Abort(index);
      }
      r := Normal((isLocal.value, index.value));
    }

    /** The upvalue a source names: a local is captured by
        `capture_upvalue`, an inherited one taken from the frame's closure;
        a slot past the stack or an index past the closure's upvalues
        panics. */
    method ResolveSource(src: Source) returns (r: Flow<RV.Upvalue>)
      requires Valid() && frameCount > 0
      modifies this`openUpvalues, this`openList, this`openSlots, this`upvalues, upvalues`next
      ensures Valid()
      ensures var enclosing := Frame().closure.value.upvalues;
        (Resolvable(src, |enclosing|) <==> r.Normal?)
        && (!r.Normal? ==> r == Panic)
        && (r.Normal? ==> Resolves(r.value, src, enclosing) && r.value in upvalues)
      ensures old(upvalues) <= upvalues && forall v :: v in upvalues ==> v in old(upvalues) || fresh(v)
    {
      match src
      case Slot(slot) =>
        if slot >= STACK_MAX {
          return Panic;
        }
        var u := CaptureUpvalue(slot);
        r := Normal(u);
      case Enclosing(j) =>
        var enclosing := frames[frameCount - 1].closure.value.upvalues;
        if j >= |enclosing| {
          return Panic;
        }
        r := Normal(enclosing[j]);
    }

    /** One round of the `Closure` arm's loop, for upvalue `i`: the
        operand pair is read and its source (`SourceAsWritten`) resolved. */
    method NextUpvalue(i: nat, ghost at: nat) returns (r: Flow<RV.Upvalue>)
      requires Valid() && frameCount > 0 && Frame().ip == at + 2 * i
      modifies frames, this`openUpvalues, this`openList, this`openSlots, this`upvalues, upvalues`next
      ensures Valid()
      ensures var f := old(Frame());
        var code := f.closure.value.func.chunk.code;
        (f.ip + 1 >= |code| ==> r == Fault(InternalError("Failed to read byte.")))
        && (f.ip + 1 < |code| ==>
          frames[..] == old(frames[..])[frameCount - 1 := f.(ip := f.ip + 2)]
          && var src := ClosureSource(code, at, i, f.startsAt);
          (Resolvable(src, |f.closure.value.upvalues|) <==> r.Normal?)
          && (!r.Normal? ==> r == Panic)
          && (r.Normal? ==> Resolves(r.value, src, f.closure.value.upvalues)))
      ensures r.Normal? ==> r.value in upvalues
      ensures old(upvalues) <= upvalues && forall v :: v in upvalues ==> v in old(upvalues) || fresh(v)
    {
      var pair := ReadPair();
      if !pair.Normal? {
        return Abort(pair);
      }
      var startsAt := frames[frameCount - 1].startsAt;
      r := ResolveSource(SourceAsWritten(i, pair.value.0, pair.value.1, startsAt));
    }

    /** The loop of the `Closure` arm: upvalue `i` of `n` from the `i`th
        operand pair, until a read fails or a source cannot be resolved. */
    method ResolveUpvalues(n: nat) returns (r: Flow<seq<RV.Upvalue>>)
      requires Valid() && frameCount > 0 && Frame().ip <= |Chunk().code|
      modifies frames, this`openUpvalues, this`openList, this`openSlots, this`upvalues, upvalues`next
      ensures Valid()
      ensures var f0 := old(Frame());
        var code := f0.closure.value.func.chunk.code;
        r.Normal? ==>
          f0.ip + 2 * n <= |code| && |r.value| == n
          && frames[..] == old(frames[..])[frameCount - 1 := f0.(ip := f0.ip + 2 * n)]
          && (forall k :: 0 <= k < n ==> r.value[k] in upvalues)
          && var srcs := ClosureSources(code, f0.ip, n, f0.startsAt);
          forall k :: 0 <= k < n ==> Resolves(r.value[k], srcs[k], f0.closure.value.upvalues)
      ensures var f0 := old(Frame());
        var code := f0.closure.value.func.chunk.code;
        f0.ip + 2 * n <= |code|
        && (var srcs := ClosureSources(code, f0.ip, n, f0.startsAt);
            forall k :: 0 <= k < n ==> Resolvable(srcs[k], |f0.closure.value.upvalues|))
        ==> r.Normal?
      ensures r.Fault? ==> r == Fault(InternalError("Failed to read byte."))
      ensures forall v :: v in upvalues ==> v in old(upvalues) || fresh(v)
    {
      ghost var f0 := Frame();
      ghost var code := f0.closure.value.func.chunk.code;
      ghost var enclosing := f0.closure.value.upvalues;
      var ups: seq<RV.Upvalue> := [];
      var i := 0;
      assert f0.(ip := f0.ip) == f0;
      while i < n
        invariant Valid() && frameCount == old(frameCount)
        invariant i <= n && |ups| == i && f0.ip + 2 * i <= |code|
        invariant frames[..] == old(frames[..])[frameCount - 1 := f0.(ip := f0.ip + 2 * i)]
        invariant forall k :: 0 <= k < i ==> ups[k] in upvalues
        invariant forall k :: 0 <= k < i ==>
          Resolves(ups[k], ClosureSource(code, f0.ip, k, f0.startsAt), enclosing)
          && Resolvable(ClosureSource(code, f0.ip, k, f0.startsAt), |enclosing|)
        invariant old(upvalues) <= upvalues && forall v :: v in upvalues ==> v in old(upvalues) || fresh(v)
      {
        assert Frame() == f0.(ip := f0.ip + 2 * i);
        var u := NextUpvalue(i, f0.ip);
        if !u.Normal? {
          assert f0.ip + 2 * n <= |code| ==> ClosureSources(code, f0.ip, n, f0.startsAt)[i] == ClosureSource(code, f0.ip, i, f0.startsAt);
          return Abort(u);
        }
        ups := ups + [u.value];
        i := i + 1;
      }
      r := Normal(ups);
    }

    /** The `Closure` arm after its constant: a closure of `f` whose
        upvalues are resolved one operand pair at a time, then pushed. */
    method MakeClosure(f: RV.Function) returns (r: Flow<Next>)
      requires Valid() && frameCount > 0 && Frame().ip <= |Chunk().code| && f.chunk in chunks
      modifies stack, this`stackCount, frames, this`openUpvalues, this`openList, this`openSlots, this`upvalues, upvalues`next
      ensures Valid()
      ensures var f0 := old(Frame());
        var code := f0.closure.value.func.chunk.code;
        var n := f.upvalueCount;
        r.Normal? ==>
          f0.ip + 2 * n <= |code| && r == Normal(Continue)
          && frames[..] == old(frames[..])[frameCount - 1 := f0.(ip := f0.ip + 2 * n)]
          && old(stackCount) < STACK_MAX && stackCount == old(stackCount) + 1
          && stack[..] == old(stack[..])[old(stackCount) := stack[old(stackCount)]]
          && stack[old(stackCount)].ClosureValue?
          && var c := stack[old(stackCount)].closure;
          c.func == f && c.upvalueCount == n && |c.upvalues| == n
          && var srcs := ClosureSources(code, f0.ip, n, f0.startsAt);
          forall k :: 0 <= k < n ==> Resolves(c.upvalues[k], srcs[k], f0.closure.value.upvalues)
      ensures var f0 := old(Frame());
        var code := f0.closure.value.func.chunk.code;
        var n := f.upvalueCount;
        f0.ip + 2 * n <= |code| && old(stackCount) < STACK_MAX
        && (var srcs := ClosureSources(code, f0.ip, n, f0.startsAt);
            forall k :: 0 <= k < n ==> Resolvable(srcs[k], |f0.closure.value.upvalues|))
        ==> r.Normal?
      ensures r.Fault? ==> r == Fault(InternalError("Failed to read byte."))
      ensures r.Normal? ==> r.value == Continue
      ensures forall v :: v in upvalues ==> v in old(upvalues) || fresh(v)
    {
      var ups := ResolveUpvalues(f.upvalueCount);
      if !ups.Normal? {
        return Abort(ups);
      }
      r := PushValue(RV.ClosureValue(RV.NewClosure(f).(upvalues := ups.value)));
    }

    /** `Closure`: the constant must be a function, whose closure is then
        made and pushed, its upvalues resolved from the operand pairs that
        follow the constant byte. */
    method ClosureOp() returns (r: Flow<Next>)
      requires Valid() && frameCount > 0
      modifies stack, this`stackCount, frames, this`openUpvalues, this`openList, this`openSlots, this`upvalues, upvalues`next
      ensures Valid()
      ensures var f0 := old(Frame());
        var chunk := f0.closure.value.func.chunk;
        (f0.ip >= |chunk.code| ==> r == Fault(InternalError("Failed to read byte.")))
        && (f0.ip < |chunk.code| && chunk.code[f0.ip] as nat >= |chunk.constants| ==>
          r == Fault(InternalError("Failed to read constant.")))
        && (f0.ip < |chunk.code| && chunk.code[f0.ip] as nat < |chunk.constants|
            && !chunk.constants[chunk.code[f0.ip]].FunctionValue?
            ==> r == Fault(InternalError("Expected function for closure")))
      ensures var f0 := old(Frame());
        var chunk := f0.closure.value.func.chunk;
        var code := chunk.code;
        r.Normal? ==>
          f0.ip < |code| && code[f0.ip] as nat < |chunk.constants| && chunk.constants[code[f0.ip]].FunctionValue?
          && var g := chunk.constants[code[f0.ip]].func;
          var n := g.upvalueCount;
          f0.ip + 1 + 2 * n <= |code| && r == Normal(Continue)
          && frames[..] == old(frames[..])[frameCount - 1 := f0.(ip := f0.ip + 1 + 2 * n)]
          && old(stackCount) < STACK_MAX && stackCount == old(stackCount) + 1
          && stack[..] == old(stack[..])[old(stackCount) := stack[old(stackCount)]]
          && stack[old(stackCount)].ClosureValue?
          && var c := stack[old(stackCount)].closure;
          c.func == g && c.upvalueCount == n && |c.upvalues| == n
          && var srcs := ClosureSources(code, f0.ip + 1, n, f0.startsAt);
          forall k :: 0 <= k < n ==> Resolves(c.upvalues[k], srcs[k], f0.closure.value.upvalues)
      ensures var f0 := old(Frame());
        var chunk := f0.closure.value.func.chunk;
        var code := chunk.code;
        (f0.ip < |code| && code[f0.ip] as nat < |chunk.constants| && chunk.constants[code[f0.ip]].FunctionValue?
         && old(stackCount) < STACK_MAX
         && (var n := chunk.constants[code[f0.ip]].func.upvalueCount;
             f0.ip + 1 + 2 * n <= |code|
             && var srcs := ClosureSources(code, f0.ip + 1, n, f0.startsAt);
             forall k :: 0 <= k < n ==> Resolvable(srcs[k], |f0.closure.value.upvalues|)))
        ==> r.Normal?
      ensures r.Normal? ==> r.value == Continue
      ensures forall v :: v in upvalues ==> v in old(upvalues) || fresh(v)
    {
      var constant := ReadConstant();
      if !constant.Normal? {
        return Abort(constant);
      }
      if !constant.value.FunctionValue? {
        return Fault(InternalError("Expected function for closure"));
      }
      r := MakeClosure(constant.value.func);
    }

    /** `CloseUpvalue`: the upvalues open on the top slot or above are
        closed, then the top is popped; on an empty stack the index
        `stack_count - 1` panics. */
    method CloseUpvalueOp() returns (r: Flow<Next>)
      requires Valid()
      modifies stack, this`stackCount, this`openUpvalues, this`openList, this`openSlots, Elements(openList)`location, Elements(openList)`closed
      ensures Valid() && Closing(old(Snap()), r)
      ensures r.Normal? ==> r.value == Continue
    {
      ghost var s := Snap();
      if stackCount == 0 {
        return Panic;
      }
      r := CloseTop();
      ClosingOf(s, r);
    }

    /** The closing and the pop together make up the arm of `CloseUpvalue`
        on a stack that is not empty. */
    lemma ClosingOf(s: Snapshot, r: Flow<Next>)
      requires Running(s) && s.stackCount > 0
      requires FramesKept(s) && globals == s.globals && reports == s.reports && printed == s.printed
      requires r == Normal(Continue) && stackCount == s.stackCount - 1 && stack[..] == s.stack[s.stackCount - 1 := RV.Nil]
      requires ClosedFirst(s, CloseCount(s.openSlots, s.stackCount - 1), s.stack)
      ensures Closing(s, r)
    {
    }

    /** The closing and the pop of `CloseUpvalue` on a stack that is not
        empty. */
    method CloseTop() returns (r: Flow<Next>)
      requires Valid() && stackCount > 0
      modifies stack, this`stackCount, this`openUpvalues, this`openList, this`openSlots, Elements(openList)`location, Elements(openList)`closed
      ensures Valid()
      ensures r == Normal(Continue) && stackCount == old(stackCount) - 1
        && stack[..] == old(stack[..])[stackCount := RV.Nil]
      ensures var k := CloseCount(old(openSlots), stackCount);
        openList == old(openList)[k..] && openSlots == old(openSlots)[k..]
        && forall i :: 0 <= i < k ==>
          old(openList)[i].location == RV.Here && old(openList)[i].closed == Some(old(stack[..])[old(openSlots)[i]])
    {
      var k := CloseUpvalues(stackCount - 1);
      r := Discard();
    }

    /** The end of `Return`, after the upvalues are closed: the frame is
        left; leaving the last one pops the script's closure and halts,
        otherwise the stack is cut back to `startsAt` and `result` pushed. */
    method Leave(result: RV.Value, startsAt: nat) returns (r: Flow<Next>)
      requires Valid() && frameCount > 0 && startsAt < STACK_MAX && Held(result, upvalues, chunks)
      modifies stack, this`stackCount, this`frameCount
      ensures Valid() && frameCount == old(frameCount) - 1
      ensures frameCount == 0 && old(stackCount) == 0 ==>
        r == Fault(InternalError("Can't pop on empty stack.")) && stack[..] == old(stack[..])
      ensures frameCount == 0 && old(stackCount) > 0 ==>
        r == Normal(Halt) && stackCount == old(stackCount) - 1 && stack[..] == old(stack[..])[stackCount := RV.Nil]
      ensures frameCount > 0 ==>
        r == Normal(Continue) && stackCount == startsAt + 1 && stack[..] == old(stack[..])[startsAt := result]
    {
      frameCount := frameCount - 1;
      if frameCount == 0 {
        var v := Pop();
        return if v.Normal? then Normal(Halt) else Abort(v);
      }
      stackCount := startsAt;
      r := PushValue(result);
    }

    /** `Return` after the result is popped: the upvalues open at
        `startsAt` or above are closed, and the frame left. */
    method ReturnFrom(result: RV.Value, startsAt: nat) returns (r: Flow<Next>)
      requires Valid() && frameCount > 0 && startsAt < STACK_MAX && Held(result, upvalues, chunks)
      modifies stack, this`stackCount, this`frameCount, this`openUpvalues, this`openList, this`openSlots,
        Elements(openList)`location, Elements(openList)`closed
      ensures Valid() && LeftFrame(old(Snap()), result, startsAt, r)
    {
      ghost var m := Snap();
      var k := CloseUpvalues(startsAt);
      r := LeaveClosed(result, startsAt, m, k);
    }

    /** `Leave`, once the upvalues open at `startsAt` or above in `m` are
        closed. */
    method LeaveClosed(result: RV.Value, startsAt: nat, ghost m: Snapshot, ghost k: nat) returns (r: Flow<Next>)
      requires Valid() && frameCount > 0 && startsAt < STACK_MAX && Held(result, upvalues, chunks)
      requires Framed(m) && k == CloseCount(m.openSlots, startsAt)
      requires Snap() == m.(openList := m.openList[k..], openSlots := m.openSlots[k..])
      requires Closed(m.openList, m.openSlots, k, m.stack)
      modifies stack, this`stackCount, this`frameCount
      ensures Valid() && LeftFrame(m, result, startsAt, r)
    {
      ghost var c := Snap();
      r := Leave(result, startsAt);
      LeftFrameOf(m, c, k, result, startsAt, r);
    }

    /** What `ReturnFrom` does, started in `m`: the upvalues open at
        `start` or above are closed, the frame is left, and the stack is
        cut back to `start` with `result` pushed, or the script's closure
        popped when no frame is left. */
    ghost predicate LeftFrame(m: Snapshot, result: RV.Value, start: nat, r: Flow<Next>)
      reads this, stack, frames, Elements(m.openList)
    {
      Framed(m) && start < STACK_MAX
      && frames[..] == m.frames && globals == m.globals && reports == m.reports && printed == m.printed
      && frameCount == m.frameCount - 1
      && ClosedFirst(m, CloseCount(m.openSlots, start), m.stack)
      && (frameCount == 0 && m.stackCount == 0 ==> r == Fault(InternalError("Can't pop on empty stack.")))
      && (frameCount == 0 && m.stackCount > 0 ==>
        r == Normal(Halt) && stackCount == m.stackCount - 1 && stack[..] == m.stack[m.stackCount - 1 := RV.Nil])
      && (frameCount > 0 ==> r == Normal(Continue) && stackCount == start + 1 && stack[..] == m.stack[start := result])
    }

    lemma LeftFrameOf(m: Snapshot, c: Snapshot, k: nat, result: RV.Value, start: nat, r: Flow<Next>)
      requires Framed(m) && start < STACK_MAX && k == CloseCount(m.openSlots, start)
      requires c == m.(openList := m.openList[k..], openSlots := m.openSlots[k..])
      requires Closed(m.openList, m.openSlots, k, m.stack)
      requires frames[..] == c.frames && globals == c.globals && reports == c.reports && printed == c.printed
      requires openList == c.openList && openSlots == c.openSlots && frameCount == c.frameCount - 1
      requires frameCount == 0 && c.stackCount == 0 ==> r == Fault(InternalError("Can't pop on empty stack."))
      requires frameCount == 0 && c.stackCount > 0 ==>
        r == Normal(Halt) && stackCount == c.stackCount - 1 && stack[..] == c.stack[stackCount := RV.Nil]
      requires frameCount > 0 ==> r == Normal(Continue) && stackCount == start + 1 && stack[..] == c.stack[start := result]
      ensures LeftFrame(m, result, start, r)
    {
    }

    /** `Return`: the result is popped, the upvalues open on the
        frame's slots closed, and the frame left (`Leave`). */
    method Return() returns (r: Flow<Next>)
      requires Valid()
      modifies stack, this`stackCount, this`frameCount, this`openUpvalues, this`openList, this`openSlots,
        Elements(openList)`location, Elements(openList)`closed
      ensures Valid()
      ensures old(frameCount) == 0 ==> r == (if old(stackCount) == 0 then Fault(InternalError("Can't pop on empty stack.")) else Panic)
      ensures old(frameCount) > 0 ==> Returning(old(Snap()), r)
    {
      ghost var s := Snap();
      var result := Pop();
      if !result.Normal? {
        r := Abort(result);
        if frameCount > 0 {
          ReturnedEarly(s, r);
        }
        return;
      }
      if frameCount == 0 {
        return Panic;
      }
      var startsAt := frames[frameCount - 1].startsAt;
      if startsAt >= STACK_MAX {
        r := Panic;
        ReturnedEarly(s, r);
        return;
      }
      ghost var m := Snap();
      assert m.stack == s.stack[stackCount := RV.Nil];
      assert m == s.(stack := s.stack[s.stackCount - 1 := RV.Nil], stackCount := s.stackCount - 1);
      assert result.value == s.stack[s.stackCount - 1] && startsAt == Top(s).startsAt;
      r := ReturnFrom(result.value, startsAt);
      ReturningOf(s, m, result.value, startsAt, r);
    }

    /** The arm of `Return` when the pop fails or the frame's slots start
        past the stack. */
    lemma ReturnedEarly(s: Snapshot, r: Flow<Next>)
      requires Framed(s)
      requires frames[..] == s.frames && globals == s.globals && reports == s.reports && printed == s.printed
      requires s.stackCount == 0 ==> r == Fault(InternalError("Can't pop on empty stack."))
      requires s.stackCount > 0 ==> Top(s).startsAt >= STACK_MAX && r == Panic
      ensures Returning(s, r)
    {
    }

    /** Popping the result, closing the frame's upvalues and leaving the
        frame make up the arm of `Return` on a frame whose slots start
        inside the stack. */
    lemma ReturningOf(s: Snapshot, m: Snapshot, result: RV.Value, start: nat, r: Flow<Next>)
      requires Framed(s) && s.stackCount > 0 && start == Top(s).startsAt < STACK_MAX
      requires m == s.(stack := s.stack[s.stackCount - 1 := RV.Nil], stackCount := s.stackCount - 1)
      requires result == s.stack[s.stackCount - 1] && LeftFrame(m, result, start, r)
      ensures Returning(s, r)
    {
    }

    /** `Constant` with its operand. */
    method ConstantOp() returns (r: Flow<Next>)
      requires Valid() && frameCount > 0
      modifies stack, this`stackCount, frames
      ensures Valid()
      ensures r.Normal? ==> r.value == Continue
      ensures Pushing(old(Snap()), old(Chunk().code), old(Chunk().constants), r)
    {
      var constant := ReadConstant();
      if !constant.Normal? {
        return Abort(constant);
      }
      r := PushValue(constant.value);
    }

    /** `GetLocal` with its slot operand. */
    method GetLocalOp() returns (r: Flow<Next>)
      requires Valid() && frameCount > 0
      modifies stack, this`stackCount, frames
      ensures Valid()
      ensures r.Normal? ==> r.value == Continue
      ensures LocalRead(old(Snap()), old(Chunk().code), r)
    {
      var slot := ReadU8();
      if !slot.Normal? {
        return Abort(slot);
      }
      r := GetLocal(slot.value);
    }

    /** `SetLocal` with its slot operand. */
    method SetLocalOp() returns (r: Flow<Next>)
      requires Valid() && frameCount > 0
      modifies stack, frames
      ensures Valid()
      ensures r.Normal? ==> r.value == Continue
      ensures LocalWrite(old(Snap()), old(Chunk().code), r)
    {
      var slot := ReadU8();
      if !slot.Normal? {
        return Abort(slot);
      }
      r := SetLocal(slot.value);
    }

    /** `GetGlobal` with its name operand. */
    method GetGlobalOp() returns (r: Flow<Next>)
      requires Valid() && frameCount > 0
      modifies stack, this`stackCount, this`frameCount, frames, this`reports
      ensures Valid()
      ensures r.Normal? ==> r.value == Continue
      ensures GlobalRead(old(Snap()), old(NameOperand(strings, Chunk().code, Chunk().constants, Frame().ip)), r)
    {
      var name := ReadName();
      if !name.Normal? {
        return Abort(name);
      }
      r := GetGlobal(name.value);
    }

    /** `DefineGlobal` with its name operand. */
    method DefineGlobalOp() returns (r: Flow<Next>)
      requires Valid() && frameCount > 0
      modifies stack, this`stackCount, this`globals, frames
      ensures Valid()
      ensures r.Normal? ==> r.value == Continue
      ensures GlobalDefine(old(Snap()), old(NameOperand(strings, Chunk().code, Chunk().constants, Frame().ip)), r)
    {
      var name := ReadName();
      if !name.Normal? {
        return Abort(name);
      }
      r := DefineGlobal(name.value);
    }

    /** `SetGlobal` with its name operand. */
    method SetGlobalOp() returns (r: Flow<Next>)
      requires Valid() && frameCount > 0
      modifies this`globals, this`stackCount, this`frameCount, frames, this`reports
      ensures Valid()
      ensures r.Normal? ==> r.value == Continue
      ensures GlobalWrite(old(Snap()), old(NameOperand(strings, Chunk().code, Chunk().constants, Frame().ip)), r)
    {
      var name := ReadName();
      if !name.Normal? {
        return Abort(name);
      }
      r := SetGlobal(name.value);
    }

    /** `Jump` with its operand: `ip` lands where the disassembler's
        `jump_instruction` says the jump at the opcode's offset goes. */
    method JumpOp() returns (r: Flow<Next>)
      requires Valid() && frameCount > 0
      modifies frames
      ensures Valid() && Jumping(old(Snap()), old(Chunk().code), r)
      ensures r.Normal? ==> r.value == Continue
    {
      ghost var s, code := Snap(), Chunk().code;
      var offset := ReadU16();
      if !offset.Normal? {
        return Abort(offset);
      }
      r := Jump(offset.value);
      JumpingOf(s, code, r, offset.value);
    }

    /** A jump that read its operand `offset` lands where `JumpTarget`
        says. */
    lemma JumpingOf(s: Snapshot, code: seq<byte>, r: Flow<Next>, offset: u16)
      requires Framed(s) && Kept(s) && StackKept(s) && frameCount == s.frameCount
      requires var ip := Top(s).ip;
        ip + 1 < |code| && offset == BigEndian16(code[ip], code[ip + 1]) && r == Normal(Continue)
        && frames[..] == s.frames[s.frameCount - 1 := Top(s).(ip := ip + 2 + offset as nat)]
      ensures Jumping(s, code, r)
    {
    }

    /** `JumpIfFalse` with its operand: when the top value is falsy, `ip`
        lands at the jump's target; otherwise just past the operand. */
    method JumpIfFalseOp() returns (r: Flow<Next>)
      requires Valid() && frameCount > 0
      modifies frames
      ensures Valid() && Branching(old(Snap()), old(Chunk().code), r)
      ensures r.Normal? ==> r.value == Continue
    {
      ghost var s, code := Snap(), Chunk().code;
      var offset := ReadU16();
      if !offset.Normal? {
        return Abort(offset);
      }
      r := JumpIfFalse(offset.value);
      BranchingOf(s, code, r, offset.value);
    }

    /** A conditional jump that read its operand `offset` lands where
        `JumpTarget` says on a falsy top value, and just past the operand
        otherwise. */
    lemma BranchingOf(s: Snapshot, code: seq<byte>, r: Flow<Next>, offset: u16)
      requires Framed(s) && Kept(s) && StackKept(s) && frameCount == s.frameCount
      requires var ip, n := Top(s).ip, s.stackCount;
        ip + 1 < |code| && offset == BigEndian16(code[ip], code[ip + 1])
        && (n == 0 ==> r == Panic)
        && (n > 0 ==>
          r == Normal(Continue)
          && frames[..] == s.frames[s.frameCount - 1 := Top(s).(ip := ip + 2 + if RV.IsFalsy(s.stack[n - 1]) then offset as nat else 0)])
      ensures Branching(s, code, r)
    {
    }

    /** `Loop` with its operand: `ip` lands at the loop's target, or the
        subtraction underflows and panics. */
    method LoopOp() returns (r: Flow<Next>)
      requires Valid() && frameCount > 0
      modifies frames
      ensures Valid() && Looping(old(Snap()), old(Chunk().code), r)
      ensures r.Normal? ==> r.value == Continue
    {
      var offset := ReadU16();
      if !offset.Normal? {
        return Abort(offset);
      }
      r := Loop(offset.value);
    }

    /** `Call` with its operand: the callee sits `argCount` slots below
        the top, and is called by `call_value`. */
    method CallOp() returns (r: Flow<Next>)
      requires Valid() && frameCount > 0
      modifies stack, this`stackCount, this`frameCount, frames, this`reports
      ensures Valid()
      ensures r.Normal? ==> r.value == Continue
      ensures Calling(old(Snap()), old(Chunk().code), r)
    {
      ghost var s := Snap();
      var argCount := ReadU8();
      if !argCount.Normal? {
        return Abort(argCount);
      }
      assert Snap() == Advanced(s, 1);
      r := CallWith(argCount.value as nat);
    }

    /** The callee `argCount` slots below the top is called by
        `call_value`. */
    method CallWith(argCount: nat) returns (r: Flow<Next>)
      requires Valid() && frameCount > 0
      modifies stack, this`stackCount, this`frameCount, frames, this`reports
      ensures Valid()
      ensures r.Normal? ==> r.value == Continue
      ensures CallingWith(old(Snap()), argCount, r)
    {
      var callee := Peek(argCount);
      if !callee.Normal? {
        return Abort(callee);
      }
      r := CallValue(callee.value, argCount);
    }

    // -------------------------------------------------------------------
    // The effect of each arm of `run`, against the state it starts from

    /** The machine now, as a value. */
    ghost function Snap(): Snapshot
      reads this, stack, frames, strings
    {
      Snapshot(stack[..], stackCount, frames[..], frameCount, globals, reports, printed, openList, openSlots, strings.strings)
    }

    /** The prints and the open upvalues are as in `s`. */
    ghost predicate OpenKept(s: Snapshot)
      reads this
    {
      printed == s.printed && openList == s.openList && openSlots == s.openSlots
    }

    /** So are the globals and the reports. */
    ghost predicate Kept(s: Snapshot)
      reads this
    {
      OpenKept(s) && globals == s.globals && reports == s.reports
    }

    ghost predicate StackKept(s: Snapshot)
      reads this, stack
    {
      stackCount == s.stackCount && stack[..] == s.stack
    }

    ghost predicate FramesKept(s: Snapshot)
      reads this, frames
    {
      frameCount == s.frameCount && frames[..] == s.frames
    }

    /** The innermost frame of `s` continues at `ip`; no other frame
        changes. */
    ghost predicate Moved(s: Snapshot, ip: nat)
      reads this, frames
      requires Framed(s)
    {
      frameCount == s.frameCount && frames[..] == s.frames[s.frameCount - 1 := Top(s).(ip := ip)]
    }

    /** `value` is pushed on the stack of `s`, or the full stack panics. */
    ghost predicate Pushed(s: Snapshot, value: RV.Value, r: Flow<Next>)
      reads this, stack
      requires Running(s)
    {
      (s.stackCount < STACK_MAX ==>
        r == Normal(Continue) && stackCount == s.stackCount + 1 && stack[..] == s.stack[s.stackCount := value])
      && (s.stackCount >= STACK_MAX ==> r == Panic && StackKept(s))
    }

    /** The first `k` open upvalues of `s` are closed on the values
        `slots` holds at their slots, and leave the list. */
    ghost predicate ClosedFirst(s: Snapshot, k: nat, slots: seq<RV.Value>)
      reads this, Elements(s.openList)
      requires Running(s) && k <= |s.openList| && |slots| == STACK_MAX
    {
      openList == s.openList[k..] && openSlots == s.openSlots[k..]
      && forall i :: 0 <= i < k ==>
        s.openList[i].location == RV.Here && s.openList[i].closed == Some(slots[s.openSlots[i]])
    }

    /** The arms of `binary_op!`. */
    ghost predicate Arithmetic(op: RC.Op, s: Snapshot, r: Flow<Next>)
      reads this, stack, frames
      requires IsArith(op)
    {
      Running(s)
      && var n := s.stackCount;
      OpenKept(s) && globals == s.globals
      && (n < 2 ==> r == Panic)
      && (n >= 2 && s.stack[n - 2].Number? && s.stack[n - 1].Number? ==>
        r == Normal(Continue) && FramesKept(s) && reports == s.reports && stackCount == n - 1
        && stack[..] == s.stack[n - 1 := RV.Nil][n - 2 := Arith(ops, op, s.stack[n - 2].n, s.stack[n - 1].n)])
      && (n >= 2 && !(s.stack[n - 2].Number? && s.stack[n - 1].Number?) ==> Reported(r, "Operands must be numbers.", s.reports))
    }

    /** The arm of `Add`. */
    ghost predicate Addition(s: Snapshot, r: Flow<Next>)
      reads this, stack, frames, strings
    {
      Running(s)
      && var n := s.stackCount;
      OpenKept(s) && globals == s.globals
      && (n < 2 ==> r == Panic)
      && (n >= 2 && s.stack[n - 2].Number? && s.stack[n - 1].Number? ==>
        r == Normal(Continue) && FramesKept(s) && reports == s.reports && stackCount == n - 1
        && stack[..] == s.stack[n - 1 := RV.Nil][n - 2 := RV.Number(ops.add(s.stack[n - 2].n, s.stack[n - 1].n))])
      && (n >= 2 && s.stack[n - 2].String? && s.stack[n - 1].String? ==>
        var a, b := s.stack[n - 2].handle.index, s.stack[n - 1].handle.index;
        (a >= |s.interned| || b >= |s.interned| ==> r == Panic)
        && (a < |s.interned| && b < |s.interned| ==>
          r == Normal(Continue) && FramesKept(s) && reports == s.reports && stackCount == n - 1
          && stack.Length == STACK_MAX && stack[n - 2].String? && stack[n - 2].handle.index < |strings.strings|
          && strings.strings[stack[n - 2].handle.index] == s.interned[a] + s.interned[b]
          && stack[..] == s.stack[n - 1 := RV.Nil][n - 2 := stack[n - 2]]))
      && (n >= 2 && !(s.stack[n - 2].Number? && s.stack[n - 1].Number?) && !(s.stack[n - 2].String? && s.stack[n - 1].String?) ==>
        Reported(r, "Operands must be two numbers or two strings.", s.reports))
    }

    /** The arm of `Call`, its operand the byte at the frame's `ip`. */
    ghost predicate Calling(s: Snapshot, code: seq<byte>, r: Flow<Next>)
      reads this, stack, frames
    {
      Framed(s)
      && var ip := Top(s).ip;
      OpenKept(s) && globals == s.globals
      && (ip >= |code| ==> r == Fault(InternalError("Failed to read byte.")))
      && (ip < |code| ==> CallingWith(Advanced(s, 1), code[ip] as nat, r))
    }

    /** `call_value` on the value `a` slots below the top of `s`. */
    ghost predicate CallingWith(s: Snapshot, a: nat, r: Flow<Next>)
      reads this, stack, frames
    {
      Running(s)
      && var n := s.stackCount;
      OpenKept(s) && globals == s.globals
      && (a >= n ==> r == Panic)
      && (a < n ==>
        var callee := s.stack[n - 1 - a];
        (!callee.ClosureValue? && !callee.Native? ==> Reported(r, "Can only call functions and classes.", s.reports))
        && (callee.Native? ==>
          r == Normal(Continue) && reports == s.reports && FramesKept(s) && stackCount == n - a
          && stack[..] == s.stack[n - a - 1 := natives(callee.address, s.stack[n - a - 1..])])
        && (callee.ClosureValue? ==>
          var c := CallAsWritten(callee.closure.func.arity, a, n, s.frameCount);
          (c.Entered? ==>
            r == Normal(Continue) && reports == s.reports && StackKept(s) && frameCount == s.frameCount + 1
            && frames[..] == s.frames[s.frameCount := CallFrame(Some(callee.closure), 0, c.startsAt)])
          && (c.Underflow? || c.FrameOutOfBounds? ==> r == Panic)
          && (c.Overflow? ==> Reported(r, "Stack overflow.", s.reports))
          && (c.ArityMismatch? ==> Reported(r, ArityMessage(callee.closure.func.arity, a), s.reports))))
    }

    /** The arm of `Return`. */
    ghost predicate Returning(s: Snapshot, r: Flow<Next>)
      reads this, stack, frames, Elements(s.openList)
    {
      Framed(s)
      && var n, start := s.stackCount, Top(s).startsAt;
      frames[..] == s.frames && globals == s.globals && reports == s.reports && printed == s.printed
      && (n == 0 ==> r == Fault(InternalError("Can't pop on empty stack.")))
      && (n > 0 && start >= STACK_MAX ==> r == Panic)
      && (n > 0 && start < STACK_MAX ==>
        frameCount == s.frameCount - 1
        && ClosedFirst(s, CloseCount(s.openSlots, start), s.stack[n - 1 := RV.Nil])
        && (s.frameCount == 1 && n == 1 ==> r == Fault(InternalError("Can't pop on empty stack.")))
        && (s.frameCount == 1 && n > 1 ==>
          r == Normal(Halt) && stackCount == n - 2 && stack[..] == s.stack[n - 1 := RV.Nil][n - 2 := RV.Nil])
        && (s.frameCount > 1 ==>
          r == Normal(Continue) && stackCount == start + 1 && stack[..] == s.stack[n - 1 := RV.Nil][start := s.stack[n - 1]]))
    }

    /** The arm of `Constant`: the constant the operand names is pushed. */
    ghost predicate Pushing(s: Snapshot, code: seq<byte>, constants: seq<RV.Value>, r: Flow<Next>)
      reads this, stack, frames
    {
      Framed(s)
      && var ip := Top(s).ip;
      Moved(s, ip + 1) && Kept(s)
      && (ip >= |code| ==> r == Fault(InternalError("Failed to read byte.")) && StackKept(s))
      && (ip < |code| && code[ip] as nat >= |constants| ==> r == Fault(InternalError("Failed to read constant.")) && StackKept(s))
      && (ip < |code| && code[ip] as nat < |constants| ==> Pushed(s, constants[code[ip]], r))
    }

    /** The arms of `Nil`, `True` and `False`. */
    ghost predicate Literal(s: Snapshot, value: RV.Value, r: Flow<Next>)
      reads this, stack, frames
    {
      Running(s) && FramesKept(s) && Kept(s) && Pushed(s, value, r)
    }

    /** The arm of `Pop`. */
    ghost predicate Popping(s: Snapshot, r: Flow<Next>)
      reads this, stack, frames
    {
      Running(s)
      && var n := s.stackCount;
      FramesKept(s) && Kept(s)
      && (n == 0 ==> r == Fault(InternalError("Can't pop on empty stack.")) && StackKept(s))
      && (n > 0 ==> r == Normal(Continue) && stackCount == n - 1 && stack[..] == s.stack[n - 1 := RV.Nil])
    }

    /** The arm of `GetLocal`: the frame's slot the operand names is
        pushed. */
    ghost predicate LocalRead(s: Snapshot, code: seq<byte>, r: Flow<Next>)
      reads this, stack, frames
    {
      Framed(s)
      && var ip, n := Top(s).ip, s.stackCount;
      Moved(s, ip + 1) && Kept(s)
      && (ip >= |code| ==> r == Fault(InternalError("Failed to read byte.")) && StackKept(s))
      && (ip < |code| ==>
        var index := code[ip] as nat + Top(s).startsAt;
        (index >= STACK_MAX || n >= STACK_MAX ==> r == Panic && StackKept(s))
        && (index < STACK_MAX && n < STACK_MAX ==>
          r == Normal(Continue) && stackCount == n + 1 && stack[..] == s.stack[n := s.stack[index]]))
    }

    /** The arm of `SetLocal`: the top value is copied into the frame's
        slot the operand names. */
    ghost predicate LocalWrite(s: Snapshot, code: seq<byte>, r: Flow<Next>)
      reads this, stack, frames
    {
      Framed(s)
      && var ip, n := Top(s).ip, s.stackCount;
      Moved(s, ip + 1) && Kept(s) && stackCount == n
      && (ip >= |code| ==> r == Fault(InternalError("Failed to read byte.")) && stack[..] == s.stack)
      && (ip < |code| ==>
        var index := code[ip] as nat + Top(s).startsAt;
        (index >= STACK_MAX || n == 0 ==> r == Panic && stack[..] == s.stack)
        && (index < STACK_MAX && n > 0 ==> r == Normal(Continue) && stack[..] == s.stack[index := s.stack[n - 1]]))
    }

    /** The arm of `GetGlobal`, `name` the text of its operand. */
    ghost predicate GlobalRead(s: Snapshot, name: Option<string>, r: Flow<Next>)
      reads this, stack, frames
    {
      Framed(s)
      && var ip := Top(s).ip;
      OpenKept(s) && globals == s.globals
      && (name.None? ==> !r.Normal? && Moved(s, ip + 1) && StackKept(s) && reports == s.reports)
      && (name.Some? && name.value in s.globals ==>
        Moved(s, ip + 1) && reports == s.reports && Pushed(s, s.globals[name.value], r))
      && (name.Some? && name.value !in s.globals ==>
        Reported(r, "Undefined variable '" + name.value + "'.", s.reports))
    }

    /** The arm of `DefineGlobal`. */
    ghost predicate GlobalDefine(s: Snapshot, name: Option<string>, r: Flow<Next>)
      reads this, stack, frames
    {
      Framed(s)
      && var ip, n := Top(s).ip, s.stackCount;
      OpenKept(s) && reports == s.reports && Moved(s, ip + 1)
      && (name.None? ==> !r.Normal? && globals == s.globals && StackKept(s))
      && (name.Some? && n == 0 ==>
        r == Fault(InternalError("Can't pop on empty stack.")) && globals == s.globals && stackCount == 0)
      && (name.Some? && n > 0 ==>
        r == Normal(Continue) && globals == s.globals[name.value := s.stack[n - 1]]
        && stackCount == n - 1 && stack[..] == s.stack[n - 1 := RV.Nil])
    }

    /** The arm of `SetGlobal`. */
    ghost predicate GlobalWrite(s: Snapshot, name: Option<string>, r: Flow<Next>)
      reads this, stack, frames
    {
      Framed(s)
      && var ip, n := Top(s).ip, s.stackCount;
      OpenKept(s) && stack[..] == s.stack
      && (name.None? ==> !r.Normal? && globals == s.globals && stackCount == n && Moved(s, ip + 1) && reports == s.reports)
      && (name.Some? && n == 0 ==> r == Panic && globals == s.globals)
      && (name.Some? && n > 0 && name.value in s.globals ==>
        r == Normal(Continue) && globals == s.globals[name.value := s.stack[n - 1]]
        && stackCount == n && Moved(s, ip + 1) && reports == s.reports)
      && (name.Some? && n > 0 && name.value !in s.globals ==>
        globals == s.globals && Reported(r, "Undefined variable '" + name.value + "'.", s.reports))
    }

    /** The arm of `Equal`. */
    ghost predicate Equality(s: Snapshot, r: Flow<Next>)
      reads this, stack, frames
    {
      Running(s)
      && var n := s.stackCount;
      FramesKept(s) && Kept(s)
      && (n < 2 ==> r == Fault(InternalError("Can't pop on empty stack.")))
      && (n >= 2 ==>
        r == Normal(Continue) && stackCount == n - 1
        && stack[..] == s.stack[n - 1 := RV.Nil][n - 2 := RV.Bool(RV.Eq(ops, s.stack[n - 2], s.stack[n - 1]))])
    }

    /** The arm of `Not`. */
    ghost predicate Falsity(s: Snapshot, r: Flow<Next>)
      reads this, stack, frames
    {
      Running(s)
      && var n := s.stackCount;
      FramesKept(s) && Kept(s)
      && (n == 0 ==> r == Fault(InternalError("Can't pop on empty stack.")) && stackCount == 0)
      && (n > 0 ==> r == Normal(Continue) && stackCount == n && stack[..] == s.stack[n - 1 := RV.Bool(RV.IsFalsy(s.stack[n - 1]))])
    }

    /** The arm of `Negate`. */
    ghost predicate Negation(s: Snapshot, r: Flow<Next>)
      reads this, stack, frames
    {
      Running(s)
      && var n := s.stackCount;
      OpenKept(s) && globals == s.globals
      && (n == 0 ==> r == Fault(InternalError("Can't pop on empty stack.")))
      && (n > 0 && s.stack[n - 1].Number? ==>
        r == Normal(Continue) && FramesKept(s) && reports == s.reports && stackCount == n
        && stack[..] == s.stack[n - 1 := RV.Number(ops.neg(s.stack[n - 1].n))])
      && (n > 0 && !s.stack[n - 1].Number? ==> Reported(r, "Operand must be a number.", s.reports))
    }

    /** The arm of `Print`. */
    ghost predicate Printing(s: Snapshot, r: Flow<Next>)
      reads this, stack, frames
    {
      Running(s)
      && var n := s.stackCount;
      FramesKept(s) && globals == s.globals && reports == s.reports && openList == s.openList && openSlots == s.openSlots
      && (n == 0 ==> r == Fault(InternalError("Can't pop on empty stack.")) && printed == s.printed)
      && (n > 0 ==>
        r == Normal(Continue) && printed == s.printed + [s.stack[n - 1]]
        && stackCount == n - 1 && stack[..] == s.stack[n - 1 := RV.Nil])
    }

    /** The arm of `Jump`: `ip` lands at the jump's target. */
    ghost predicate Jumping(s: Snapshot, code: seq<byte>, r: Flow<Next>)
      reads this, stack, frames
    {
      Framed(s)
      && var ip := Top(s).ip;
      Kept(s) && StackKept(s)
      && (ip + 1 >= |code| ==> r == Fault(InternalError("Failed to read byte.")))
      && (1 <= ip && ip + 1 < |code| ==> r == Normal(Continue) && Moved(s, RC.JumpTarget(code, ip - 1, 1) as nat))
    }

    /** The arm of `JumpIfFalse`: to the target on a falsy top value,
        past the operand otherwise. */
    ghost predicate Branching(s: Snapshot, code: seq<byte>, r: Flow<Next>)
      reads this, stack, frames
    {
      Framed(s)
      && var ip, n := Top(s).ip, s.stackCount;
      Kept(s) && StackKept(s)
      && (ip + 1 >= |code| ==> r == Fault(InternalError("Failed to read byte.")))
      && (ip + 1 < |code| && n == 0 ==> r == Panic)
      && (1 <= ip && ip + 1 < |code| && n > 0 ==>
        r == Normal(Continue)
        && (RV.IsFalsy(s.stack[n - 1]) ==> Moved(s, RC.JumpTarget(code, ip - 1, 1) as nat))
        && (!RV.IsFalsy(s.stack[n - 1]) ==> Moved(s, ip + 2)))
    }

    /** The arm of `Loop`: `ip` lands at the loop's target, or the
        subtraction underflows. */
    ghost predicate Looping(s: Snapshot, code: seq<byte>, r: Flow<Next>)
      reads this, stack, frames
    {
      Framed(s)
      && var ip := Top(s).ip;
      Kept(s) && StackKept(s)
      && (ip + 1 >= |code| ==> r == Fault(InternalError("Failed to read byte.")))
      && (1 <= ip && ip + 1 < |code| && RC.JumpTarget(code, ip - 1, -1) < 0 ==> r == Panic)
      && (1 <= ip && ip + 1 < |code| && RC.JumpTarget(code, ip - 1, -1) >= 0 ==>
        r == Normal(Continue) && Moved(s, RC.JumpTarget(code, ip - 1, -1) as nat))
    }

    /** The arm of `CloseUpvalue`. */
    ghost predicate Closing(s: Snapshot, r: Flow<Next>)
      reads this, stack, frames, Elements(s.openList)
    {
      Running(s)
      && var n := s.stackCount;
      FramesKept(s) && globals == s.globals && reports == s.reports && printed == s.printed
      && (n == 0 ==> r == Panic)
      && (n > 0 ==>
        r == Normal(Continue) && stackCount == n - 1 && stack[..] == s.stack[n - 1 := RV.Nil]
        && ClosedFirst(s, CloseCount(s.openSlots, n - 1), s.stack))
    }

    /** What the arm of `run` for `op` does when started in `s`, the
        frame's `ip` just past the opcode: `code` and `constants` are the
        frame's chunk, and `name` is what `read_string` gives there. The
        arms on upvalues and closures are stated on `GetUpvalue`,
        `SetUpvalue` and `ClosureOp` instead. */
    ghost predicate Effect(op: RC.Op, s: Snapshot, code: seq<byte>, constants: seq<RV.Value>, name: Option<string>, r: Flow<Next>)
      reads this, stack, frames, strings, Elements(s.openList)
    {
      match op
      case Constant => Pushing(s, code, constants, r)
      case Nil => Literal(s, RV.Nil, r)
      case True => Literal(s, RV.Bool(true), r)
      case False => Literal(s, RV.Bool(false), r)
      case Pop => Popping(s, r)
      case GetLocal => LocalRead(s, code, r)
      case SetLocal => LocalWrite(s, code, r)
      case GetGlobal => GlobalRead(s, name, r)
      case DefineGlobal => GlobalDefine(s, name, r)
      case SetGlobal => GlobalWrite(s, name, r)
      case Equal => Equality(s, r)
      case Add => Addition(s, r)
      case Greater => Arithmetic(op, s, r)
      case Less => Arithmetic(op, s, r)
      case Subtract => Arithmetic(op, s, r)
      case Multiply => Arithmetic(op, s, r)
      case Divide => Arithmetic(op, s, r)
      case Not => Falsity(s, r)
      case Negate => Negation(s, r)
      case Print => Printing(s, r)
      case Jump => Jumping(s, code, r)
      case JumpIfFalse => Branching(s, code, r)
      case Loop => Looping(s, code, r)
      case Call => Calling(s, code, r)
      case CloseUpvalue => Closing(s, r)
      case Return => Returning(s, r)
      case GetUpvalue => true
      case SetUpvalue => true
      case Closure => true
    }

    /** The instructions that push a constant or drop the top value. */
    method DispatchPush(op: RC.Op) returns (r: Flow<Next>)
      requires Valid() && frameCount > 0
      requires op in {RC.Op.Constant, RC.Op.Nil, RC.Op.True, RC.Op.False, RC.Op.Pop}
      modifies this`stackCount, this`frameCount, this`globals, this`reports, this`printed,
        this`openUpvalues, this`openList, this`openSlots, this`upvalues, stack, frames, strings,
        upvalues`next, upvalues`location, upvalues`closed
      ensures Valid()
      ensures forall v :: v in upvalues ==> v in old(upvalues) || fresh(v)
      ensures r.Normal? ==> r.value == Continue
      ensures Effect(op, old(Snap()), old(Chunk().code), old(Chunk().constants), old(NameOperand(strings, Chunk().code, Chunk().constants, Frame().ip)), r)
    {
      match op
      case Constant =>
        r := ConstantOp();
      case Nil =>
        r := PushValue(RV.Nil);
      case True =>
        r := PushValue(RV.Bool(true));
      case False =>
        r := PushValue(RV.Bool(false));
      case Pop =>
        r := Discard();
    }

    /** The instructions on locals and upvalues, with their slot operand. */
    method DispatchLocal(op: RC.Op) returns (r: Flow<Next>)
      requires Valid() && frameCount > 0
      requires op in {RC.Op.GetLocal, RC.Op.SetLocal, RC.Op.GetUpvalue, RC.Op.SetUpvalue}
      modifies this`stackCount, this`frameCount, this`globals, this`reports, this`printed,
        this`openUpvalues, this`openList, this`openSlots, this`upvalues, stack, frames, strings,
        upvalues`next, upvalues`location, upvalues`closed
      ensures Valid()
      ensures forall v :: v in upvalues ==> v in old(upvalues) || fresh(v)
      ensures r.Normal? ==> r.value == Continue
      ensures Effect(op, old(Snap()), old(Chunk().code), old(Chunk().constants), old(NameOperand(strings, Chunk().code, Chunk().constants, Frame().ip)), r)
    {
      match op
      case GetLocal =>
        r := GetLocalOp();
      case SetLocal =>
        r := SetLocalOp();
      case GetUpvalue =>
        var slot := ReadU8();
        if !slot.Normal? {
          return Abort(slot);
        }
        r := GetUpvalue(slot.value);
      case SetUpvalue =>
        var slot := ReadU8();
        if !slot.Normal? {
          return Abort(slot);
        }
        r := SetUpvalue(slot.value);
    }

    /** The instructions on globals, with their name operand. */
    method DispatchGlobal(op: RC.Op) returns (r: Flow<Next>)
      requires Valid() && frameCount > 0
      requires op in {RC.Op.GetGlobal, RC.Op.DefineGlobal, RC.Op.SetGlobal}
      modifies this`stackCount, this`frameCount, this`globals, this`reports, this`printed,
        this`openUpvalues, this`openList, this`openSlots, this`upvalues, stack, frames, strings,
        upvalues`next, upvalues`location, upvalues`closed
      ensures Valid()
      ensures forall v :: v in upvalues ==> v in old(upvalues) || fresh(v)
      ensures r.Normal? ==> r.value == Continue
      ensures Effect(op, old(Snap()), old(Chunk().code), old(Chunk().constants), old(NameOperand(strings, Chunk().code, Chunk().constants, Frame().ip)), r)
    {
      match op
      case GetGlobal =>
        r := GetGlobalOp();
      case DefineGlobal =>
        r := DefineGlobalOp();
      case SetGlobal =>
        r := SetGlobalOp();
    }

    /** The comparison and arithmetic instructions. */
    method DispatchValue(op: RC.Op) returns (r: Flow<Next>)
      requires Valid() && frameCount > 0
      requires op in {RC.Op.Equal, RC.Op.Greater, RC.Op.Less, RC.Op.Add, RC.Op.Subtract, RC.Op.Multiply, RC.Op.Divide}
      modifies this`stackCount, this`frameCount, this`globals, this`reports, this`printed,
        this`openUpvalues, this`openList, this`openSlots, this`upvalues, stack, frames, strings,
        upvalues`next, upvalues`location, upvalues`closed
      ensures Valid()
      ensures forall v :: v in upvalues ==> v in old(upvalues) || fresh(v)
      ensures r.Normal? ==> r.value == Continue
      ensures Effect(op, old(Snap()), old(Chunk().code), old(Chunk().constants), old(NameOperand(strings, Chunk().code, Chunk().constants, Frame().ip)), r)
    {
      match op
      case Equal =>
        r := Equal();
      case Add =>
        r := Add();
      case Greater =>
        r := Binary(RC.Op.Greater);
      case Less =>
        r := Binary(RC.Op.Less);
      case Subtract =>
        r := Binary(RC.Op.Subtract);
      case Multiply =>
        r := Binary(RC.Op.Multiply);
      case Divide =>
        r := Binary(RC.Op.Divide);
    }

    /** `Not`, `Negate`, `Print` and the jumps. */
    method DispatchUnary(op: RC.Op) returns (r: Flow<Next>)
      requires Valid() && frameCount > 0
      requires op in {RC.Op.Not, RC.Op.Negate, RC.Op.Print, RC.Op.Jump, RC.Op.JumpIfFalse, RC.Op.Loop}
      modifies this`stackCount, this`frameCount, this`globals, this`reports, this`printed,
        this`openUpvalues, this`openList, this`openSlots, this`upvalues, stack, frames, strings,
        upvalues`next, upvalues`location, upvalues`closed
      ensures Valid()
      ensures forall v :: v in upvalues ==> v in old(upvalues) || fresh(v)
      ensures r.Normal? ==> r.value == Continue
      ensures Effect(op, old(Snap()), old(Chunk().code), old(Chunk().constants), old(NameOperand(strings, Chunk().code, Chunk().constants, Frame().ip)), r)
    {
      match op
      case Not =>
        r := Not();
      case Negate =>
        r := Negate();
      case Print =>
        r := Print();
      case Jump =>
        r := JumpOp();
      case JumpIfFalse =>
        r := JumpIfFalseOp();
      case Loop =>
        r := LoopOp();
    }

    /** Calls, closures and returns. */
    method DispatchCall(op: RC.Op) returns (r: Flow<Next>)
      requires Valid() && frameCount > 0
      requires op in {RC.Op.Call, RC.Op.Closure, RC.Op.CloseUpvalue, RC.Op.Return}
      modifies this`stackCount, this`frameCount, this`globals, this`reports, this`printed,
        this`openUpvalues, this`openList, this`openSlots, this`upvalues, stack, frames, strings,
        upvalues`next, upvalues`location, upvalues`closed
      ensures Valid()
      ensures forall v :: v in upvalues ==> v in old(upvalues) || fresh(v)
      ensures r == Normal(Halt) ==> frameCount == 0
      ensures Effect(op, old(Snap()), old(Chunk().code), old(Chunk().constants), old(NameOperand(strings, Chunk().code, Chunk().constants, Frame().ip)), r)
    {
      match op
      case Call =>
        r := CallOp();
      case Closure =>
        r := ClosureOp();
      case CloseUpvalue =>
        r := CloseUpvalueOp();
      case Return =>
        r := Return();
    }

    /** The message `run` reports for a byte that is no instruction. */
    static function UnexpectedMessage(b: byte): string
    {
      "Got unexpected instruction: '" + NatText(b as nat) + "'"
    }

    /** The `match` of `run` on the instruction byte `b`, read at the
        frame's previous `ip`. */
    method Dispatch(b: byte) returns (r: Flow<Next>)
      requires Valid() && frameCount > 0
      modifies this`stackCount, this`frameCount, this`globals, this`reports, this`printed,
        this`openUpvalues, this`openList, this`openSlots, this`upvalues, stack, frames, strings,
        upvalues`next, upvalues`location, upvalues`closed
      ensures Valid()
      ensures forall v :: v in upvalues ==> v in old(upvalues) || fresh(v)
      ensures r == Normal(Halt) ==> frameCount == 0
      ensures Decode(b).Err? ==> Reported(r, UnexpectedMessage(b), old(reports))
      ensures Decode(b).Ok? ==>
        Effect(Decode(b).value, old(Snap()), old(Chunk().code), old(Chunk().constants),
               old(NameOperand(strings, Chunk().code, Chunk().constants, Frame().ip)), r)
    {
      var decoded := Decode(b);
      if decoded.Err? {
        r := Fail(UnexpectedMessage(b));
        return;
      }
      var op := decoded.value;
      if op in {RC.Op.Constant, RC.Op.Nil, RC.Op.True, RC.Op.False, RC.Op.Pop} {
        r := DispatchPush(op);
      } else if op in {RC.Op.GetLocal, RC.Op.SetLocal, RC.Op.GetUpvalue, RC.Op.SetUpvalue} {
        r := DispatchLocal(op);
      } else if op in {RC.Op.GetGlobal, RC.Op.DefineGlobal, RC.Op.SetGlobal} {
        r := DispatchGlobal(op);
      } else if op in {RC.Op.Equal, RC.Op.Greater, RC.Op.Less, RC.Op.Add, RC.Op.Subtract, RC.Op.Multiply, RC.Op.Divide} {
        r := DispatchValue(op);
      } else if op in {RC.Op.Not, RC.Op.Negate, RC.Op.Print, RC.Op.Jump, RC.Op.JumpIfFalse, RC.Op.Loop} {
        r := DispatchUnary(op);
      } else {
        r := DispatchCall(op);
      }
    }

    /** One turn of `run`'s loop: the instruction byte is read and run. */
    method Step() returns (r: Flow<Next>)
      requires Valid()
      modifies this`stackCount, this`frameCount, this`globals, this`reports, this`printed,
        this`openUpvalues, this`openList, this`openSlots, this`upvalues, stack, frames, strings,
        upvalues`next, upvalues`location, upvalues`closed
      ensures Valid()
      ensures forall v :: v in upvalues ==> v in old(upvalues) || fresh(v)
      ensures r == Normal(Halt) ==> frameCount == 0
      ensures old(frameCount) == 0 ==> r == Panic
      ensures old(frameCount) > 0 ==>
        var f := old(Frame());
        var code := f.closure.value.func.chunk.code;
        (f.ip >= |code| ==> r == Fault(InternalError("Failed to read byte.")))
        && (f.ip < |code| && Decode(code[f.ip]).Err? ==> Reported(r, UnexpectedMessage(code[f.ip]), old(reports)))
      ensures old(frameCount) > 0 ==>
        var f := old(Frame());
        var chunk := f.closure.value.func.chunk;
        f.ip < |old(chunk.code)| && Decode(old(chunk.code)[f.ip]).Ok? ==>
          Effect(Decode(old(chunk.code)[f.ip]).value, Advanced(old(Snap()), 1), old(chunk.code), old(chunk.constants),
                 old(NameOperand(strings, chunk.code, chunk.constants, f.ip + 1)), r)
    {
      ghost var s := Snap();
      var b := ReadU8();
      if !b.Normal? {
        return Abort(b);
      }
      assert Snap() == Advanced(s, 1);
      r := Dispatch(b.value);
    }

    /** `run`: instructions until one returns from the last frame
        (`Ok(())`), fails (`Err`) or panics. The loop of the source has no
        bound; here it runs at most `fuel` instructions, and `None` says
        the fuel ran out. */
    method Run(fuel: nat) returns (r: Option<Flow<()>>)
      requires Valid()
      modifies this`stackCount, this`frameCount, this`globals, this`reports, this`printed,
        this`openUpvalues, this`openList, this`openSlots, this`upvalues, stack, frames, strings,
        upvalues`next, upvalues`location, upvalues`closed
      ensures Valid()
      ensures forall v :: v in upvalues ==> v in old(upvalues) || fresh(v)
      ensures r == Some(Normal(())) ==> frameCount == 0
      ensures old(frameCount) == 0 && fuel > 0 ==> r == Some(Panic)
    {
      var n := fuel;
      while n > 0
        invariant Valid() && n <= fuel
        invariant forall v :: v in upvalues ==> v in old(upvalues) || fresh(v)
        invariant old(frameCount) == 0 ==> n == fuel && frameCount == 0
      {
        var step := Step();
        if step == Normal(Halt) {
          return Some(Normal(()));
        } else if !step.Normal? {
          return Some(Abort(step));
        }
        n := n - 1;
      }
      r := None;
    }

    /** The start of `interpret`: the script's closure is pushed and
        called with no arguments (an `Err` of the call is dropped by
        `.ok()`). */
    method Start(script: RV.Function, ghost trusted: set<RC.Chunk<RV.Value>>) returns (r: Flow<()>)
      requires Valid() && script.chunk in trusted && Trusted(chunks + trusted)
      modifies stack, this`stackCount, this`frameCount, frames, this`reports, this`chunks
      ensures Valid() && chunks == old(chunks) + trusted
      ensures old(stackCount) >= STACK_MAX ==> r == Panic
      ensures old(stackCount) < STACK_MAX && script.arity == 0 && old(frameCount) < CALL_FRAME_MAX ==>
        r == Normal(()) && stackCount == old(stackCount) + 1 && frameCount == old(frameCount) + 1
        && stack[old(stackCount)] == RV.ClosureValue(RV.NewClosure(script))
        && frames[..] == old(frames[..])[old(frameCount) := CallFrame(Some(RV.NewClosure(script)), 0, old(stackCount))]
    {
      Trust(trusted);
      var closure := RV.NewClosure(script);
      var ok := Push(RV.ClosureValue(closure));
      if !ok {
        return Panic;
      }
      var called := Call(closure, 0);
      r := if called.Panic? then Panic else Normal(());
    }

    /** `interpret` on a compiled script: the start, then `run`. */
    method Interpret(script: RV.Function, ghost trusted: set<RC.Chunk<RV.Value>>, fuel: nat) returns (r: Option<Flow<()>>)
      requires Valid() && script.chunk in trusted && Trusted(chunks + trusted)
      modifies this`chunks, this`stackCount, this`frameCount, this`globals, this`reports, this`printed,
        this`openUpvalues, this`openList, this`openSlots, this`upvalues, stack, frames, strings,
        upvalues`next, upvalues`location, upvalues`closed
      ensures Valid() && chunks == old(chunks) + trusted
      ensures old(stackCount) >= STACK_MAX ==> r == Some(Panic)
      ensures r == Some(Normal(())) ==> frameCount == 0
    {
      var started := Start(script, trusted);
      if started.Panic? {
        return Some(Panic);
      }
      r := Run(fuel);
    }
  }
}
