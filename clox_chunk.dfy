/** The clox bytecode chunk: a growable byte buffer, an append-only constant
    pool and a run-length table of source lines looked up by binary search.
    `clox/chunk.c` and `clox/src/chunk.c` are the same file; both are
    modelled here. */
module CloxChunk {
  import opened Base

  /** clox's `Value` is a C `double`, opaque to everything in this file. */
  type Value = F64

  /** The first instruction offset of a run of bytes that share a line. */
  datatype LineStart = LineStart(offset: int, line: int)

  datatype OpCode =
    | OpConstant
    | OpConstantLong
    | OpNegate
    | OpAdd
    | OpSubtract
    | OpMultiply
    | OpDivide
    | OpReturn

  /** The byte of each opcode: its position in the C enum. */
  function OpByte(op: OpCode): (b: byte)
    ensures b < 8
  {
    match op
    case OpConstant => 0
    case OpConstantLong => 1
    case OpNegate => 2
    case OpAdd => 3
    case OpSubtract => 4
    case OpMultiply => 5
    case OpDivide => 6
    case OpReturn => 7
  }

  lemma OpByteInjective(a: OpCode, b: OpCode)
    ensures OpByte(a) == OpByte(b) <==> a == b
  {
  }

  /** The growth rule of the buffers: 8 slots first, then doubling. */
  function GrowCapacity(capacity: int): (r: int)
    ensures r >= 8 && r > capacity
  {
    if capacity < 8 then 8 else capacity * 2
  }

  // ---------------------------------------------------------------------
  // The line table as a value

  /** What `writeChunk` does to the line table when the byte at `offset`
      has source line `line`. */
  function AppendLine(runs: seq<LineStart>, offset: int, line: int): seq<LineStart>
  {
    if |runs| > 0 && runs[|runs| - 1].line == line then runs
    else runs + [LineStart(offset, line)]
  }

  /** The line table that writing bytes with lines `ls`, in order, builds
      from an empty table. */
  function Encode(ls: seq<int>): seq<LineStart>
  {
    if ls == [] then []
    else AppendLine(Encode(ls[..|ls| - 1]), |ls| - 1, ls[|ls| - 1])
  }

  lemma EncodeSnoc(ls: seq<int>, line: int)
    ensures Encode(ls + [line]) == AppendLine(Encode(ls), |ls|, line)
  {
    assert (ls + [line])[..|ls|] == ls;
  }

  /** The invariants of a line table describing `n` bytes: non-empty exactly
      when there are bytes, the first run at offset 0, strictly increasing
      offsets below `n`, and different lines in adjacent runs. */
  ghost predicate WellFormed(runs: seq<LineStart>, n: int)
  {
    (|runs| > 0 <==> n > 0)
    && (|runs| > 0 ==> runs[0].offset == 0)
    && (forall k :: 0 <= k < |runs| ==> 0 <= runs[k].offset < n)
    && (forall j, k :: 0 <= j < k < |runs| ==> runs[j].offset < runs[k].offset)
    && (forall k :: 0 < k < |runs| ==> runs[k - 1].line != runs[k].line)
  }

  /** The line of the last run that starts at or before `i`. */
  function LineAt(runs: seq<LineStart>, i: int): int
    requires |runs| > 0
  {
    if runs[|runs| - 1].offset <= i || |runs| == 1 then runs[|runs| - 1].line
    else LineAt(runs[..|runs| - 1], i)
  }

  /** The number of positions where the line changes from the previous byte. */
  function Changes(ls: seq<int>): nat
  {
    if |ls| <= 1 then 0
    else Changes(ls[..|ls| - 1]) + (if ls[|ls| - 2] != ls[|ls| - 1] then 1 else 0)
  }

  lemma {:induction false} EncodeWellFormed(ls: seq<int>)
    ensures WellFormed(Encode(ls), |ls|)
    ensures |ls| > 0 ==> Encode(ls)[|Encode(ls)| - 1].line == ls[|ls| - 1]
  {
    if ls != [] {
      var p := ls[..|ls| - 1];
      EncodeWellFormed(p);
      var runs := Encode(p);
      if !(|runs| > 0 && runs[|runs| - 1].line == ls[|ls| - 1]) {
        var r := runs + [LineStart(|p|, ls[|ls| - 1])];
        assert Encode(ls) == r;
        assert forall k :: 0 <= k < |runs| ==> r[k] == runs[k];
      }
    }
  }

  /** The table has exactly one run per change of line, plus the first. */
  lemma {:induction false} EncodeSize(ls: seq<int>)
    ensures |Encode(ls)| == if ls == [] then 0 else 1 + Changes(ls)
  {
    if ls != [] {
      var p := ls[..|ls| - 1];
      EncodeSize(p);
      if p != [] {
        EncodeWellFormed(p);
        assert p[|p| - 1] == ls[|ls| - 2];
      }
    }
  }

  /** In a table with increasing offsets, the run `m` that starts at or before
      `i` and whose successor (if any) starts after `i` gives `LineAt`. */
  lemma {:induction false} LineAtRun(runs: seq<LineStart>, i: int, m: int)
    requires 0 <= m < |runs| && runs[0].offset <= runs[m].offset <= i
    requires forall j, k :: 0 <= j < k < |runs| ==> runs[j].offset < runs[k].offset
    requires m == |runs| - 1 || i < runs[m + 1].offset
    ensures LineAt(runs, i) == runs[m].line
  {
    if m < |runs| - 1 {
      assert runs[|runs| - 1].offset > i by {
        assert runs[m + 1].offset <= runs[|runs| - 1].offset || m + 1 == |runs| - 1;
      }
      var p := runs[..|runs| - 1];
      assert p[m] == runs[m];
      assert m == |p| - 1 || p[m + 1] == runs[m + 1];
      LineAtRun(p, i, m);
    }
  }

  /** Write-then-lookup round trip: the table built from `ls` gives back the
      line of every byte. */
  lemma {:induction false} EncodeRoundTrip(ls: seq<int>, i: int)
    requires 0 <= i < |ls|
    ensures |Encode(ls)| > 0 && Encode(ls)[0].offset <= i
    ensures LineAt(Encode(ls), i) == ls[i]
  {
    EncodeWellFormed(ls);
    var p := ls[..|ls| - 1];
    var old_runs := Encode(p);
    EncodeWellFormed(p);
    if i == |ls| - 1 {
      assert LineAt(Encode(ls), i) == ls[i];
    } else {
      EncodeRoundTrip(p, i);
      assert p[i] == ls[i];
      if Encode(ls) != old_runs {
        assert Encode(ls) == old_runs + [LineStart(|ls| - 1, ls[|ls| - 1])];
        assert Encode(ls)[..|Encode(ls)| - 1] == old_runs;
      }
    }
  }

  /** Bytes past the end of the chunk are reported on the last byte's line. */
  lemma EncodeLineAtEnd(ls: seq<int>, i: int)
    requires 0 < |ls| <= i
    ensures |Encode(ls)| > 0 && Encode(ls)[0].offset <= i
    ensures LineAt(Encode(ls), i) == ls[|ls| - 1]
  {
    EncodeWellFormed(ls);
  }

  /** The run at which getLine's search stops (it starts at or before
      `i`, and its successor, if any, starts after `i`) holds the line
      written with byte `i`, or with the last byte when `i` is past the end. */
  lemma {:induction false} StoppingRun(ls: seq<int>, i: int, m: int)
    requires 0 <= i
    requires 0 <= m < |Encode(ls)| && Encode(ls)[m].offset <= i
    requires m == |Encode(ls)| - 1 || i < Encode(ls)[m + 1].offset
    ensures LineAt(Encode(ls), i) == Encode(ls)[m].line
    ensures i < |ls| ==> Encode(ls)[m].line == ls[i]
    ensures i >= |ls| ==> Encode(ls)[m].line == ls[|ls| - 1]
  {
    EncodeWellFormed(ls);
    LineAtRun(Encode(ls), i, m);
    if i < |ls| {
      EncodeRoundTrip(ls, i);
    } else {
      EncodeLineAtEnd(ls, i);
    }
  }

  // ---------------------------------------------------------------------
  // writeConstant's operand encodings

  /** The instruction that writeConstant emits for constant `index`: the
      short form below 256, otherwise OP_CONSTANT_LONG and the three
      nibbles `(index >> 8) & 0xf`, `(index >> 4) & 0xf`, `index & 0xf`. */
  function ConstantInstruction(index: nat): (code: seq<byte>)
    ensures index <= 255 ==> code == [OpByte(OpConstant), index]
    ensures index > 255 ==> |code| == 4 && code[0] == OpByte(OpConstantLong)
    ensures index > 255 ==> forall k :: 1 <= k < 4 ==> code[k] < 16
  {
    if index > 255 then [OpByte(OpConstantLong), (index / 256) % 16, (index / 16) % 16, index % 16]
    else [OpByte(OpConstant), index]
  }

  /** Reading three operand bytes back as the encoder meant them. */
  function DecodeNibbles(b1: byte, b2: byte, b3: byte): int
  {
    b1 * 256 + b2 * 16 + b3
  }

  /** The long form reconstructs its index exactly when the index is below
      4096: bits 12 and above are dropped. */
  lemma LongFormRoundTrip(index: nat)
    requires index > 255
    ensures var c := ConstantInstruction(index);
      DecodeNibbles(c[1], c[2], c[3]) == index % 4096
    ensures var c := ConstantInstruction(index);
      DecodeNibbles(c[1], c[2], c[3]) == index <==> index < 4096
  {
    var c := ConstantInstruction(index);
    assert DecodeNibbles(c[1], c[2], c[3]) == index % 4096 by {
      var t, d0 := index / 16, index % 16;
      var t2, d1 := t / 16, t % 16;
      var q, d2 := t2 / 16, t2 % 16;
      assert index == 256 * t2 + (16 * d1 + d0);
      assert index / 256 == t2;
      assert index == 4096 * q + (256 * d2 + 16 * d1 + d0);
      assert index % 4096 == 256 * d2 + 16 * d1 + d0;
    }
  }

  /** Two long-form constants whose indices differ by 4096 get the same bytes. */
  lemma LongFormCollision()
    ensures ConstantInstruction(256) == ConstantInstruction(4352)
  {
  }

  /** Reading three operand bytes as one 24-bit big-endian number. */
  function DecodeLongOperand(b1: byte, b2: byte, b3: byte): int
  {
    b1 * 0x1_0000 + b2 * 0x100 + b3
  }

  /** writeConstant with whole bytes for the long operand, as an
      instruction named "long" evidently means: every index below 2^24
      reads back exactly, so no two constants share an encoding. */
  function ConstantInstructionIntended(index: nat): (code: seq<byte>)
    ensures index <= 255 ==> code == [OpByte(OpConstant), index]
    ensures index > 255 ==> |code| == 4 && code[0] == OpByte(OpConstantLong)
    ensures index > 255 && index < 0x100_0000 ==> DecodeLongOperand(code[1], code[2], code[3]) == index
  {
    if index > 255 then
      var q := index / 0x100;
      assert index == q * 0x100 + index % 0x100;
      assert q == (q / 0x100) * 0x100 + q % 0x100;
      assert q / 0x100 == index / 0x1_0000;
      [OpByte(OpConstantLong), (index / 0x1_0000) % 0x100, q % 0x100, index % 0x100]
    else [OpByte(OpConstant), index]
  }

  // ---------------------------------------------------------------------
  // The chunk itself

  /** A buffer reallocated to `capacity` slots: the old contents first, the
      new slots holding `fill` (their contents are not specified in C). */
  function Realloc<T>(buf: seq<T>, capacity: int, fill: T): (r: seq<T>)
    requires |buf| <= capacity
    ensures |r| == capacity && r[..|buf|] == buf
    decreases capacity - |buf|
  {
    if |buf| == capacity then buf
    else
      var r := Realloc(buf + [fill], capacity, fill);
      assert r[..|buf|] == r[..|buf| + 1][..|buf|];
      r
  }

  class Chunk {
    /** Bytes written so far. */
    var count: int
    /** Number of slots in `code`. */
    var capacity: int
    /** The allocation: `capacity` slots, the first `count` in use. */
    var code: seq<byte>
    /** The constant pool. */
    var constants: seq<Value>
    var lineCount: int
    var lineCapacity: int
    /** The line table's allocation: `lineCapacity` slots, `lineCount` in use. */
    var lines: seq<LineStart>
    /** The line given with each byte written so far. */
    ghost var written: seq<int>

    ghost predicate Valid()
      reads this
    {
      0 <= count <= capacity == |code|
      && 0 <= lineCount <= lineCapacity == |lines|
      && |written| == count
      && lines[..lineCount] == Encode(written)
    }

    /** The bytes of the chunk. */
    function Code(): seq<byte>
      reads this
      requires Valid()
    {
      code[..count]
    }

    /** The runs of the line table in use. */
    function Runs(): seq<LineStart>
      reads this
      requires Valid()
    {
      lines[..lineCount]
    }

    /** Whether the chunk is in the state `initChunk` leaves it in. */
    ghost predicate IsEmpty()
      reads this
    {
      count == 0 && capacity == 0 && code == []
      && lineCount == 0 && lineCapacity == 0 && lines == []
      && constants == [] && written == []
    }

    /** A chunk declared and initialised with `initChunk`. */
    constructor ()
      ensures Valid() && IsEmpty()
    {
      new;
      Init();
    }

    /** `initChunk`: counts and capacities zero, no buffers, an empty pool. */
    method Init()
      modifies this
      ensures Valid() && IsEmpty()
    {
      count, capacity, code := 0, 0, [];
      lineCount, lineCapacity, lines := 0, 0, [];
      constants := [];
      written := [];
    }

    /** `freeChunk`: releases the buffers and returns to the empty state. */
    method Free()
      modifies this
      ensures Valid() && IsEmpty()
    {
      Init();
    }

    /** `writeChunk`: stores `b` at the old `count` and keeps the line table
        run-length encoded. */
    method Write(b: byte, line: int)
      requires Valid()
      modifies this
      ensures Valid()
      ensures Code() == old(Code()) + [b]
      ensures count == old(count) + 1
      ensures written == old(written) + [line]
      ensures Runs() == AppendLine(old(Runs()), old(count), line)
      ensures capacity == if old(capacity) < old(count) + 1 then GrowCapacity(old(capacity)) else old(capacity)
      ensures constants == old(constants)
    {
      ghost var runs := lines[..lineCount];
      EncodeSnoc(written, line);
      written := written + [line];

      GrowCode();
      StoreAt(code, count, b);
      code := code[count := b];
      count := count + 1;

      assert lineCount > 0 ==> runs[lineCount - 1] == lines[lineCount - 1];
      if lineCount > 0 && lines[lineCount - 1].line == line {
        assert AppendLine(runs, count - 1, line) == runs;
        return;
      }
      assert Encode(written) == runs + [LineStart(count - 1, line)];

      GrowLines();
      StoreAt(lines, lineCount, LineStart(count - 1, line));
      lines := lines[lineCount := LineStart(count - 1, line)];
      lineCount := lineCount + 1;
    }

    /** The `GROW_ARRAY` step of `writeChunk` for the byte buffer: make room
        for one more byte, keeping the bytes in use. */
    method GrowCode()
      requires 0 <= count <= capacity == |code|
      modifies this`capacity, this`code
      ensures count < capacity == |code| && code[..count] == old(code[..count])
      ensures capacity == if old(capacity) < count + 1 then GrowCapacity(old(capacity)) else old(capacity)
    {
      if capacity < count + 1 {
        var oldCapacity := capacity;
        capacity := GrowCapacity(oldCapacity);
        PrefixKept(Realloc(code, capacity, 0), code, count);
        code := Realloc(code, capacity, 0);
      }
    }

    /** The same step for the line table. */
    method GrowLines()
      requires 0 <= lineCount <= lineCapacity == |lines|
      modifies this`lineCapacity, this`lines
      ensures lineCount < lineCapacity == |lines| && lines[..lineCount] == old(lines[..lineCount])
      ensures lineCapacity == if old(lineCapacity) < lineCount + 1 then GrowCapacity(old(lineCapacity)) else old(lineCapacity)
    {
      if lineCapacity < lineCount + 1 {
        var oldCapacity := lineCapacity;
        lineCapacity := GrowCapacity(oldCapacity);
        PrefixKept(Realloc(lines, lineCapacity, LineStart(0, 0)), lines, lineCount);
        lines := Realloc(lines, lineCapacity, LineStart(0, 0));
      }
    }

    /** `addConstant`: appends `value` (equal values are not shared) and
        returns its index, the old pool size. */
    method AddConstant(value: Value) returns (index: int)
      requires Valid()
      modifies this`constants
      ensures Valid()
      ensures constants == old(constants) + [value]
      ensures index == |old(constants)| && constants[index] == value
    {
      constants := constants + [value];
      index := |constants| - 1;
    }

    /** `writeConstant`: adds `value` to the pool and emits the short or long
        constant instruction for its index, every byte on `line`. */
    method WriteConstant(value: Value, line: int)
      requires Valid()
      modifies this
      ensures Valid()
      ensures constants == old(constants) + [value]
      ensures Code() == old(Code()) + ConstantInstruction(|old(constants)|)
      ensures written == old(written) + if |old(constants)| > 255 then [line, line, line, line] else [line, line]
    {
      ghost var code0, written0 := Code(), written;
      var index := AddConstant(value);
      if index > 255 {
        var b1, b2, b3 := (index / 256) % 16, (index / 16) % 16, index % 16;
        Write(OpByte(OpConstantLong), line);
        Write(b1, line);
        Write(b2, line);
        Write(b3, line);
        Snoc4(code0, OpByte(OpConstantLong), b1, b2, b3);
        Snoc4(written0, line, line, line, line);
      } else {
        Write(OpByte(OpConstant), line);
        Write(index, line);
        Snoc2(code0, OpByte(OpConstant), index);
        Snoc2(written0, line, line);
      }
    }

    /** `getLine`: binary search for the run containing `instruction`.
        An empty table is outside the contract (`lineCount - 1` wraps), as
        is a negative instruction (the search then leaves the table). */
    method GetLine(instruction: int) returns (line: int)
      requires Valid()
      requires lineCount > 0 && 0 <= instruction
      ensures line == LineAt(Runs(), instruction)
      ensures instruction < count ==> line == written[instruction]
      ensures instruction >= count ==> line == written[count - 1]
    {
      ghost var runs := Runs();
      assert runs[0].offset == 0 by { EncodeWellFormed(written); }
      var start := 0;
      var end := lineCount - 1;
      while true
        invariant 0 <= start <= end < lineCount
        invariant runs[start].offset <= instruction
        invariant end == lineCount - 1 || instruction < runs[end + 1].offset
        decreases end - start
      {
        var mid := (start + end) / 2;
        assert lines[mid] == runs[mid];
        assert mid < lineCount - 1 ==> lines[mid + 1] == runs[mid + 1];
        if instruction < lines[mid].offset {
          end := mid - 1;
        } else if mid == lineCount - 1 || instruction < lines[mid + 1].offset {
          line := lines[mid].line;
          StoppingRun(written, instruction, mid);
          return;
        } else {
          start := mid + 1;
        }
      }
    }
  }
}
