/** The chunk of the `src/` interpreter (`src/chunk.rs`): parallel `code`
    and `lines` vectors, a constant pool whose index must fit in a byte,
    opcode decoding and the disassembler's offset arithmetic. */
module LoxChunk {
  import opened Base

  /** The opcodes, in declaration order. */
  datatype Op =
    | Constant | Nil | True | False
    | Equal | Greater | Less
    | Add | Subtract | Multiply | Divide
    | Not | Negate | Return

  /** `op as u8`. */
  function OpByte(op: Op): byte
  {
    match op
    case Constant => 0
    case Nil => 1
    case True => 2
    case False => 3
    case Equal => 4
    case Greater => 5
    case Less => 6
    case Add => 7
    case Subtract => 8
    case Multiply => 9
    case Divide => 10
    case Not => 11
    case Negate => 12
    case Return => 13
  }

  /** `Op::try_from(u8)`. */
  function TryFrom(v: byte): (r: Result<Op, byte>)
    ensures r.Ok? ==> OpByte(r.value) == v
    ensures r.Err? ==> r.error == v
  {
    if v == 0 then Ok(Constant)
    else if v == 1 then Ok(Nil)
    else if v == 2 then Ok(True)
    else if v == 3 then Ok(False)
    else if v == 4 then Ok(Equal)
    else if v == 5 then Ok(Greater)
    else if v == 6 then Ok(Less)
    else if v == 7 then Ok(Add)
    else if v == 8 then Ok(Subtract)
    else if v == 9 then Ok(Multiply)
    else if v == 10 then Ok(Divide)
    else if v == 11 then Ok(Not)
    else if v == 12 then Ok(Negate)
    else if v == 13 then Ok(Return)
    else Err(v)
  }

  /** Decoding succeeds exactly on the bytes 0 to 13. */
  lemma TryFromOkRange(v: byte)
    ensures TryFrom(v).Ok? <==> v <= 13
  {
  }

  /** Decoding inverts `op as u8`. */
  lemma TryFromInverse(op: Op)
    ensures TryFrom(OpByte(op)) == Ok(op)
  {
  }

  /** What one call of `disassemble_instruction` decides: the next offset
      and whether the line column shows the continuation marker; or the
      panic it hits. */
  datatype Step =
    | Next(next: nat, continuation: bool)
    | Panic(message: string)

  /** `disassemble_instruction` without the printing: OP_CONSTANT takes one
      operand byte, which must index the pool; every other byte, known or
      not, is one byte long. */
  function DisassembleInstruction(code: seq<byte>, lines: seq<int>, constantCount: nat, offset: nat): (s: Step)
    ensures s.Next? ==> offset < |code| && offset < |lines| && s.next <= |code|
    ensures s.Next? ==> s.next == if code[offset] == OpByte(Constant) then offset + 2 else offset + 1
    ensures s.Next? ==> (s.continuation <==> offset > 0 && lines[offset] == lines[offset - 1])
    ensures s.Panic? <==>
      offset >= |lines| || offset >= |code|
      || (code[offset] == OpByte(Constant) && (offset + 1 >= |code| || code[offset + 1] >= constantCount))
  {
    if offset >= |lines| then Panic("index out of bounds")
    else
      var continuation := offset > 0 && lines[offset] == lines[offset - 1];
      if offset >= |code| then Panic("Expect instruction")
      else match TryFrom(code[offset])
        case Ok(Constant) =>
          if offset + 1 >= |code| then Panic("Could not get constant index")
          else if code[offset + 1] >= constantCount then Panic("index out of bounds")
          else Next(offset + 2, continuation)
        case Ok(_) => Next(offset + 1, continuation)
        case Err(_) => Next(offset + 1, continuation)
  }

  /** `Chunk`, over the value type `V` of its constant pool. */
  class Chunk<V> {
    var code: seq<byte>
    var constants: seq<V>
    var lines: seq<int>

    /** Every byte has its line. */
    ghost predicate Valid()
      reads this
    {
      |code| == |lines|
    }

    /** `Chunk::new`. */
    constructor ()
      ensures Valid() && code == [] && constants == [] && lines == []
    {
      code, constants, lines := [], [], [];
    }

    /** `write`: pushes the byte and its line together. */
    method Write(b: byte, line: int)
      requires Valid()
      modifies this`code, this`lines
      ensures Valid()
      ensures code == old(code) + [b] && lines == old(lines) + [line]
    {
      code := code + [b];
      lines := lines + [line];
    }

    /** `add_constant`: pushes first, then converts the new index to a byte;
        past index 255 the conversion panics (`None`) with the value already
        in the pool. */
    method AddConstant(value: V) returns (r: Option<byte>)
      modifies this`constants
      ensures constants == old(constants) + [value]
      ensures |old(constants)| <= 255 <==> r.Some?
      ensures r.Some? ==> r.value == |old(constants)| && constants[r.value] == value
    {
      constants := constants + [value];
      var index := |constants| - 1;
      if index > 255 {
        r := None;
      } else {
        r := Some(index);
      }
    }

    /** `disassemble`: decodes from offset 0 until the offset reaches the end
        of the code or a decode panics. Returns the offsets visited. */
    method Disassemble() returns (visited: seq<nat>, panicked: bool)
      ensures |code| > 0 ==> |visited| > 0 && visited[0] == 0
      ensures forall k :: 0 <= k < |visited| ==> visited[k] < |code|
      ensures forall j, k :: 0 <= j < k < |visited| ==> visited[j] < visited[k]
      ensures forall k :: 0 <= k < |visited| - 1 ==>
        var s := DisassembleInstruction(code, lines, |constants|, visited[k]); s.Next? && s.next == visited[k + 1]
      ensures |visited| > 0 ==>
        var last := DisassembleInstruction(code, lines, |constants|, visited[|visited| - 1]);
        panicked == last.Panic? && (last.Next? ==> last.next >= |code|)
      ensures !panicked ==> forall k :: 0 <= k < |visited| ==> DisassembleInstruction(code, lines, |constants|, visited[k]).Next?
    {
      var offset: nat := 0;
      visited := [];
      panicked := false;
      while offset < |code|
        invariant |visited| > 0 ==> visited[0] == 0
        invariant |visited| == 0 ==> offset == 0
        invariant forall k :: 0 <= k < |visited| ==> visited[k] < offset
        invariant forall j, k :: 0 <= j < k < |visited| ==> visited[j] < visited[k]
        invariant forall k :: 0 <= k < |visited| ==> DisassembleInstruction(code, lines, |constants|, visited[k]).Next?
        invariant forall k :: 0 <= k < |visited| - 1 ==>
          DisassembleInstruction(code, lines, |constants|, visited[k]).next == visited[k + 1]
        invariant |visited| > 0 ==> DisassembleInstruction(code, lines, |constants|, visited[|visited| - 1]).next == offset
        invariant forall k :: 0 <= k < |visited| ==> visited[k] < |code|
        decreases |code| - offset
      {
        var step := DisassembleInstruction(code, lines, |constants|, offset);
        visited := visited + [offset];
        if step.Panic? {
          panicked := true;
          return;
        }
        offset := step.next;
      }
    }
  }
}
