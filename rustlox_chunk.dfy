/** The rustlox chunk (`rustlox/src/chunk.rs`): parallel `code` and `lines`
    vectors, a constant pool indexed by one byte, opcode decoding and the
    offset arithmetic of the disassembler. */
module RustloxChunk {
  import opened Base

  /** The opcodes. The first 23 are the ones `chunk.rs` declares, in their
      declaration order; the last six are used by the compiler and the VM but
      not declared there, and are numbered after them here. */
  datatype Op =
    | Constant | Nil | True | False | Pop
    | GetLocal | SetLocal | GetGlobal | DefineGlobal | SetGlobal
    | Equal | Greater | Less
    | Add | Subtract | Multiply | Divide
    | Not | Negate | Print
    | Jump | JumpIfFalse | Return
    | Loop | Call | Closure | GetUpvalue | SetUpvalue | CloseUpvalue

  /** `op as u8`. */
  function OpByte(op: Op): byte
  {
    match op
    case Constant => 0
    case Nil => 1
    case True => 2
    case False => 3
    case Pop => 4
    case GetLocal => 5
    case SetLocal => 6
    case GetGlobal => 7
    case DefineGlobal => 8
    case SetGlobal => 9
    case Equal => 10
    case Greater => 11
    case Less => 12
    case Add => 13
    case Subtract => 14
    case Multiply => 15
    case Divide => 16
    case Not => 17
    case Negate => 18
    case Print => 19
    case Jump => 20
    case JumpIfFalse => 21
    case Return => 22
    case Loop => 23
    case Call => 24
    case Closure => 25
    case GetUpvalue => 26
    case SetUpvalue => 27
    case CloseUpvalue => 28
  }

  /** The opcodes `chunk.rs` declares. */
  predicate Declared(op: Op)
  {
    !(op.Loop? || op.Call? || op.Closure? || op.GetUpvalue? || op.SetUpvalue? || op.CloseUpvalue?)
  }

  /** `Op::try_from(u8)`: one arm per declared opcode, `Err(v)` otherwise. */
  function TryFrom(v: byte): (r: Result<Op, byte>)
    ensures r.Ok? ==> OpByte(r.value) == v && Declared(r.value)
    ensures r.Err? ==> r.error == v
  {
    if v == 0 then Ok(Constant)
    else if v == 1 then Ok(Nil)
    else if v == 2 then Ok(True)
    else if v == 3 then Ok(False)
    else if v == 4 then Ok(Pop)
    else if v == 5 then Ok(GetLocal)
    else if v == 6 then Ok(SetLocal)
    else if v == 7 then Ok(GetGlobal)
    else if v == 8 then Ok(DefineGlobal)
    else if v == 9 then Ok(SetGlobal)
    else if v == 10 then Ok(Equal)
    else if v == 11 then Ok(Greater)
    else if v == 12 then Ok(Less)
    else if v == 13 then Ok(Add)
    else if v == 14 then Ok(Subtract)
    else if v == 15 then Ok(Multiply)
    else if v == 16 then Ok(Divide)
    else if v == 17 then Ok(Not)
    else if v == 18 then Ok(Negate)
    else if v == 19 then Ok(Print)
    else if v == 20 then Ok(Jump)
    else if v == 21 then Ok(JumpIfFalse)
    else if v == 22 then Ok(Return)
    else Err(v)
  }

  /** Decoding succeeds exactly on the bytes 0 to 22. */
  lemma TryFromOkRange(v: byte)
    ensures TryFrom(v).Ok? <==> v <= 22
  {
  }

  /** Decoding inverts `op as u8` on every declared opcode. */
  lemma TryFromInverse(op: Op)
    ensures TryFrom(OpByte(op)) == if Declared(op) then Ok(op) else Err(OpByte(op))
  {
  }

  /** The byte of an opcode determines the opcode. */
  lemma OpByteInjective(a: Op, b: Op)
    ensures OpByte(a) == OpByte(b) ==> a == b
  {
  }

  // ---------------------------------------------------------------------
  // Disassembler offset arithmetic

  /** What one call of `disassemble_instruction` decides: the offset of the
      next instruction, whether the line column shows the continuation
      marker, and for a jump the target it prints; or the panic it hits. */
  datatype Step =
    | Next(next: nat, continuation: bool, target: Option<int>)
    | Panic(message: string)

  /** The number of operand bytes the disassembler attributes to an opcode
      byte, by the operand format of the instruction it decodes to. */
  function OperandBytes(b: byte): nat
  {
    match TryFrom(b)
    case Ok(op) =>
      if op in {Constant, GetGlobal, DefineGlobal, SetGlobal, GetLocal, SetLocal} then 1
      else if op in {Jump, JumpIfFalse} then 2
      else 0
    case Err(_) => 0
  }

  /** The target `jump_instruction` prints: `offset + 3 + sign * jump`, where
      `jump` is the big-endian operand. */
  function JumpTarget(code: seq<byte>, offset: nat, sign: int): (t: int)
    requires offset + 2 < |code|
    ensures t == offset + 3 + sign * ((code[offset + 1] as int) * 256 + code[offset + 2] as int)
  {
    offset + 3 + sign * BigEndian16(code[offset + 1], code[offset + 2]) as int
  }

  /** `disassemble_instruction` without the printing. */
  function DisassembleInstruction(code: seq<byte>, lines: seq<int>, constantCount: nat, offset: nat): (s: Step)
    ensures s.Next? ==> offset < |code| && offset < |lines|
    ensures s.Next? ==> s.next == offset + 1 + OperandBytes(code[offset]) && s.next <= |code|
    ensures s.Next? ==> (s.continuation <==> offset > 0 && lines[offset] == lines[offset - 1])
    ensures s.Next? ==> (s.target.Some? <==> OperandBytes(code[offset]) == 2)
    ensures s.Panic? ==>
      offset >= |lines| || offset >= |code| || offset + 1 + OperandBytes(code[offset]) > |code|
      || (TryFrom(code[offset]).Ok? && TryFrom(code[offset]).value in {Constant, GetGlobal, DefineGlobal, SetGlobal}
          && code[offset + 1] >= constantCount)
  {
    if offset >= |lines| then Panic("index out of bounds")
    else
      var continuation := offset > 0 && lines[offset] == lines[offset - 1];
      if offset >= |code| then Panic("Expect instruction")
      else match TryFrom(code[offset])
        case Ok(op) =>
          if op in {Constant, GetGlobal, DefineGlobal, SetGlobal} then
            if offset + 1 >= |code| then Panic("Could not get constant index")
            else if code[offset + 1] >= constantCount then Panic("index out of bounds")
            else Next(offset + 2, continuation, None)
          else if op in {GetLocal, SetLocal} then
            if offset + 1 >= |code| then Panic("index out of bounds")
            else Next(offset + 2, continuation, None)
          else if op in {Jump, JumpIfFalse} then
            if offset + 2 >= |code| then Panic("index out of bounds")
            else Next(offset + 3, continuation, Some(JumpTarget(code, offset, 1)))
          else Next(offset + 1, continuation, None)
        case Err(_) => Next(offset + 1, continuation, None)
  }

  /** A well-formed instruction never panics: enough operand bytes, a valid
      line entry and, for constant instructions, an index into the pool. */
  lemma DisassembleTotal(code: seq<byte>, lines: seq<int>, constantCount: nat, offset: nat)
    requires |lines| == |code| && offset < |code|
    requires offset + 1 + OperandBytes(code[offset]) <= |code|
    requires TryFrom(code[offset]).Ok? && TryFrom(code[offset]).value in {Constant, GetGlobal, DefineGlobal, SetGlobal}
      ==> code[offset + 1] < constantCount
    ensures DisassembleInstruction(code, lines, constantCount, offset).Next?
  {
  }

  // ---------------------------------------------------------------------
  // The chunk

  /** `Chunk`, over the value type `V` of its constant pool. */
  class Chunk<V> {
    var code: seq<byte>
    var constants: seq<V>
    var lines: seq<int>

    /** Every byte has its line. */
    ghost predicate Valid()
      reads this
    {
      |code| == |lines|
    }

    /** `Chunk::new`. */
    constructor ()
      ensures Valid() && code == [] && constants == [] && lines == []
    {
      code, constants, lines := [], [], [];
    }

    /** `write`: pushes the byte and its line together. */
    method Write(b: byte, line: int)
      requires Valid()
      modifies this`code, this`lines
      ensures Valid()
      ensures code == old(code) + [b] && lines == old(lines) + [line]
      ensures lines[|lines| - 1] == line && code[|code| - 1] == b
    {
      code := code + [b];
      lines := lines + [line];
    }

    /** `add_constant`: the pool holds at most 256 values, since the index
        must fit in a byte. */
    method AddConstant(value: V) returns (r: Result<byte, ()>)
      modifies this`constants
      ensures |old(constants)| < 256 ==> r == Ok(|old(constants)|) && constants == old(constants) + [value]
      ensures |old(constants)| >= 256 ==> r == Err(()) && constants == old(constants)
      ensures r.Ok? ==> constants[r.value] == value
    {
      if |constants| >= 256 {
        r := Err(());
      } else {
        r := Ok(|constants|);
        constants := constants + [value];
      }
    }

    /** `disassemble`: decodes instruction after instruction from offset 0
        until the offset reaches the end of the code, or a decode panics.
        Returns the offsets visited. */
    method Disassemble() returns (visited: seq<nat>, panicked: bool)
      ensures |code| > 0 ==> |visited| > 0 && visited[0] == 0
      ensures forall k :: 0 <= k < |visited| ==> visited[k] < |code|
      ensures forall j, k :: 0 <= j < k < |visited| ==> visited[j] < visited[k]
      ensures forall k :: 0 <= k < |visited| - 1 ==>
        var s := DisassembleInstruction(code, lines, |constants|, visited[k]); s.Next? && s.next == visited[k + 1]
      ensures |visited| > 0 ==>
        var last := DisassembleInstruction(code, lines, |constants|, visited[|visited| - 1]);
        panicked == last.Panic? && (last.Next? ==> last.next >= |code|)
      ensures !panicked ==> forall k :: 0 <= k < |visited| ==> DisassembleInstruction(code, lines, |constants|, visited[k]).Next?
    {
      var offset: nat := 0;
      visited := [];
      panicked := false;
      while offset < |code|
        invariant |visited| > 0 ==> visited[0] == 0
        invariant |visited| == 0 ==> offset == 0
        invariant forall k :: 0 <= k < |visited| ==> visited[k] < offset
        invariant forall j, k :: 0 <= j < k < |visited| ==> visited[j] < visited[k]
        invariant forall k :: 0 <= k < |visited| ==> DisassembleInstruction(code, lines, |constants|, visited[k]).Next?
        invariant forall k :: 0 <= k < |visited| - 1 ==>
          DisassembleInstruction(code, lines, |constants|, visited[k]).next == visited[k + 1]
        invariant |visited| > 0 ==> DisassembleInstruction(code, lines, |constants|, visited[|visited| - 1]).next == offset
        invariant forall k :: 0 <= k < |visited| ==> visited[k] < |code|
        decreases |code| - offset
      {
        var step := DisassembleInstruction(code, lines, |constants|, offset);
        visited := visited + [offset];
        if step.Panic? {
          panicked := true;
          return;
        }
        offset := step.next;
      }
    }
  }
}
