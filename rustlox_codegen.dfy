/** The code generator of rustlox (`CompilerWrapper` in
    `rustlox/src/compiler.rs`): it walks the syntax tree and emits bytecode
    into the chunk of the current compiler, creating a nested compiler for
    every function declaration. */
module RustloxCodegen {
  import opened Base
  import S = Scanner
  import A = RustloxAst
  import RC = RustloxChunk
  import RV = RustloxValue
  import LoxString
  import opened RustloxCompiler
  import P = RustloxParser

  /** How lowering a node ended: it compiled, it failed (`Err` from a
      `CompileResult`), or the program panicked (an `unwrap` on `None`, an
      `unreachable!()` arm or an out-of-range slice). */
  datatype Status = Compiled | Failed | Panicked

  /** What `error` writes to standard error: the lexeme, when one is
      given, and the message. */
  datatype CompileReport = CompileReport(lexeme: Option<string>, message: string)

  /** How `compile` ended: the script's function, `CompileError`, or a
      panic, which ends the program. */
  datatype Outcome = Finished(script: RV.Function) | CompileError | Aborted

  // ---------------------------------------------------------------------
  // Pure parts

  /** The bytes of a sequence of opcodes. */
  function OpBytes(ops: seq<RC.Op>): (bs: seq<byte>)
    ensures |bs| == |ops| && forall i :: 0 <= i < |ops| ==> bs[i] == RC.OpByte(ops[i])
  {
    if ops == [] then [] else [RC.OpByte(ops[0])] + OpBytes(ops[1..])
  }

  /** One more opcode: its byte follows the others. */
  lemma {:induction false} OpBytesAppend(ops: seq<RC.Op>, op: RC.Op)
    ensures OpBytes(ops + [op]) == OpBytes(ops) + [RC.OpByte(op)]
  {
    if ops == [] {
      assert [] + [op] == [op] && [op][1..] == [];
    } else {
      assert (ops + [op])[1..] == ops[1..] + [op];
      OpBytesAppend(ops[1..], op);
    }
  }

  /** The opcodes `binary` emits for an operator token, `None` for the
      `unreachable!()` arm. */
  function BinaryOps(kind: S.TokenKind): Option<seq<RC.Op>>
  {
    match kind
    case BangEqual => Some([RC.Op.Equal, RC.Op.Not])
    case EqualEqual => Some([RC.Op.Equal])
    case Greater => Some([RC.Op.Greater])
    case GreaterEqual => Some([RC.Op.Less, RC.Op.Not])
    case Less => Some([RC.Op.Less])
    case LessEqual => Some([RC.Op.Greater, RC.Op.Not])
    case Plus => Some([RC.Op.Add])
    case Minus => Some([RC.Op.Subtract])
    case Slash => Some([RC.Op.Divide])
    case Star => Some([RC.Op.Multiply])
    case _ => None
  }

  /** The ten binary operators of the grammar. */
  predicate BinaryOperator(kind: S.TokenKind)
  {
    kind in {S.BangEqual, S.EqualEqual, S.Greater, S.GreaterEqual, S.Less, S.LessEqual,
             S.Plus, S.Minus, S.Slash, S.Star}
  }

  /** The comparison a negated lowering tests before `Not`: `a != b` is
      `!(a == b)`, `a >= b` is `!(a < b)` and `a <= b` is `!(a > b)`. */
  function Complement(kind: S.TokenKind): RC.Op
  {
    match kind
    case BangEqual => RC.Op.Equal
    case GreaterEqual => RC.Op.Less
    case _ => RC.Op.Greater
  }

  /** `binary` lowers exactly the ten operators; the three without an
      opcode of their own become the complementary comparison followed by
      `Not`, and every other operator becomes one opcode which is never
      `Not`. */
  lemma BinaryLowering(kind: S.TokenKind)
    ensures BinaryOps(kind).Some? <==> BinaryOperator(kind)
    ensures BinaryOps(kind).Some? && kind in {S.BangEqual, S.GreaterEqual, S.LessEqual} ==>
      BinaryOps(kind).value == [Complement(kind), RC.Op.Not]
    ensures BinaryOps(kind).Some? && kind !in {S.BangEqual, S.GreaterEqual, S.LessEqual} ==>
      |BinaryOps(kind).value| == 1 && BinaryOps(kind).value[0] != RC.Op.Not
  {
  }

  /** The two operand bytes `patch_jump` and `emit_loop` write for an
      offset: `(v >> 8) & 0xff`, then `v & 0xff`. They read back as the
      offset. */
  function Operand(v: u16): (r: (byte, byte))
    ensures BigEndian16(r.0, r.1) == v
  {
    ((v / 256) as byte, (v % 256) as byte)
  }

  /** `patch_jump` on the code: the distance from the byte after the
      placeholder to the end replaces the placeholder, or an error when it
      does not fit in 16 bits. */
  function PatchedCode(code: seq<byte>, offset: nat): (r: Result<seq<byte>, string>)
    requires offset + 2 <= |code|
    ensures r.Err? <==> |code| - offset - 2 > 0xffff
    ensures r.Err? ==> r.error == "Too much code to jump over."
    ensures r.Ok? ==> |r.value| == |code|
    ensures r.Ok? ==> forall i :: 0 <= i < |code| && i != offset && i != offset + 1 ==> r.value[i] == code[i]
  {
    var jump := |code| - offset - 2;
    if jump > 0xffff then Err("Too much code to jump over.")
    else
      var (hi, lo) := Operand(jump);
      Ok(code[offset := hi][offset + 1 := lo])
  }

  /** A patched forward jump lands at the end of the code as it was when
      the jump was patched: the disassembler's (and the VM's) target of the
      jump instruction, one byte before the placeholder, is that length. */
  lemma PatchedJumpLands(code: seq<byte>, offset: nat)
    requires 1 <= offset && offset + 2 <= |code|
    requires PatchedCode(code, offset).Ok?
    ensures RC.JumpTarget(PatchedCode(code, offset).value, offset - 1, 1) == |code|
  {
    var patched := PatchedCode(code, offset).value;
    var jump := |code| - offset - 2;
    assert patched[offset] == Operand(jump).0 && patched[offset + 1] == Operand(jump).1;
  }

  /** Patching a placeholder past the end of `before` keeps `before` a
      prefix. */
  lemma PatchKeepsPrefix(before: seq<byte>, code: seq<byte>, offset: nat)
    requires before <= code && |before| <= offset && offset + 2 <= |code| && PatchedCode(code, offset).Ok?
    ensures before <= PatchedCode(code, offset).value
  {
    var patched := PatchedCode(code, offset).value;
    forall i | 0 <= i < |before|
      ensures patched[i] == before[i]
    {
      assert patched[i] == code[i];
    }
  }

  /** The code of `a and b` after the jump over `b` is patched: `c1` ends
      the left operand, `JumpIfFalse` and `Pop` follow, then the right
      operand up to the end of `body`. */
  lemma AndLands(c0: seq<byte>, c1: seq<byte>, body: seq<byte>)
    requires c0 <= c1 && c1 + [RC.OpByte(RC.Op.JumpIfFalse), 0xff, 0xff, RC.OpByte(RC.Op.Pop)] <= body
    requires PatchedCode(body, |c1| + 1).Ok?
    ensures c0 <= PatchedCode(body, |c1| + 1).value && And(c0, PatchedCode(body, |c1| + 1).value, |c1|)
  {
    var skipped := c1 + [RC.OpByte(RC.Op.JumpIfFalse), 0xff, 0xff, RC.OpByte(RC.Op.Pop)];
    var start := |c1|;
    assert body[start] == skipped[start] && body[start + 3] == skipped[start + 3];
    PatchedJumpLands(body, start + 1);
    PatchKeepsPrefix(c0, body, start + 1);
  }

  /** The code of `a or b` after both jumps are patched: `c1` ends the left
      operand; `JumpIfFalse` skips the `Jump` that follows, whose target is
      the end of `body`, past `Pop` and the right operand. */
  lemma OrLands(c0: seq<byte>, c1: seq<byte>, jumps: seq<byte>, body: seq<byte>)
    requires c0 <= c1 && jumps == c1 + [RC.OpByte(RC.Op.JumpIfFalse), 0xff, 0xff, RC.OpByte(RC.Op.Jump), 0xff, 0xff]
    requires PatchedCode(jumps, |c1| + 1).Ok?
    requires PatchedCode(jumps, |c1| + 1).value + [RC.OpByte(RC.Op.Pop)] <= body
    requires PatchedCode(body, |c1| + 4).Ok?
    ensures c0 <= PatchedCode(body, |c1| + 4).value && Or(c0, PatchedCode(body, |c1| + 4).value, |c1|)
  {
    var start := |c1|;
    var first := PatchedCode(jumps, start + 1).value;
    var skipped := first + [RC.OpByte(RC.Op.Pop)];
    PatchedJumpLands(jumps, start + 1);
    PatchedJumpLands(body, start + 4);
    var final := PatchedCode(body, start + 4).value;
    assert final[start] == body[start] == skipped[start] == first[start] == jumps[start];
    assert final[start + 1] == first[start + 1] && final[start + 2] == first[start + 2];
    assert final[start + 3] == first[start + 3] == jumps[start + 3];
    assert final[start + 6] == skipped[start + 6];
    PatchKeepsPrefix(c0, jumps, start + 1);
    PatchKeepsPrefix(c0, body, start + 4);
  }

  /** The operand `emit_loop` computes once `Loop` is written at the end of
      `code`: the distance back from the byte after the operand to
      `loopStart`, or `None` when it does not fit in 16 bits. */
  function LoopOperand(code: seq<byte>, loopStart: nat): (r: Option<u16>)
    requires loopStart <= |code|
    ensures r.Some? <==> |code| + 1 - loopStart + 2 <= 0xffff
  {
    var offset := |code| + 1 - loopStart + 2;
    if offset <= 0xffff then Some(offset) else None
  }

  /** A loop emitted at the end of `code` jumps back to `loopStart`. */
  lemma LoopLands(code: seq<byte>, loopStart: nat)
    requires loopStart <= |code| && LoopOperand(code, loopStart).Some?
    ensures var (hi, lo) := Operand(LoopOperand(code, loopStart).value);
      RC.JumpTarget(code + [RC.OpByte(RC.Op.Loop), hi, lo], |code|, -1) == loopStart
  {
  }

  /** A local that belongs to a scope outside `depth`, where the scan of
      `declare_variable` stops. */
  predicate Outer(local: Local, depth: nat)
  {
    local.depth.Some? && local.depth.value < depth
  }

  /** The scan of `declare_variable` over the first `n` locals, innermost
      first: it stops at an outer local and finds a local of the name
      before that. */
  function Redeclares(locals: seq<Local>, depth: nat, name: string, n: nat): bool
    requires n <= |locals|
    decreases n
  {
    if n == 0 then false
    else if Outer(locals[n - 1], depth) then false
    else if locals[n - 1].name == name then true
    else Redeclares(locals, depth, name, n - 1)
  }

  /** The scan finds the name exactly when some local of that name lies
      after the last outer local. */
  lemma {:induction false} RedeclaresExactly(locals: seq<Local>, depth: nat, name: string, n: nat)
    requires n <= |locals|
    ensures Redeclares(locals, depth, name, n) <==>
      exists j :: 0 <= j < n && locals[j].name == name && forall k :: j <= k < n ==> !Outer(locals[k], depth)
    decreases n
  {
    if n > 0 {
      RedeclaresExactly(locals, depth, name, n - 1);
      if !Outer(locals[n - 1], depth) && locals[n - 1].name != name {
        if exists j :: 0 <= j < n && locals[j].name == name && forall k :: j <= k < n ==> !Outer(locals[k], depth) {
          var j :| 0 <= j < n && locals[j].name == name && forall k :: j <= k < n ==> !Outer(locals[k], depth);
          assert j < n - 1;
        }
      }
    }
  }

  /** What `end_scope` does to the locals once the depth has been
      decremented to `depth`: the number of locals kept and the opcodes
      emitted, innermost first, or `None` when it meets a local still being
      initialized (`depth.unwrap()` on `None`). */
  function PopScope(locals: seq<Local>, depth: nat): (r: Option<(nat, seq<RC.Op>)>)
    ensures r.Some? ==> r.value.0 <= |locals| && |r.value.1| == |locals| - r.value.0
    decreases |locals|
  {
    if |locals| == 0 then Some((0, []))
    else
      var last := locals[|locals| - 1];
      if last.depth.None? then None
      else if last.depth.value > depth then
        match PopScope(locals[..|locals| - 1], depth)
        case None => None
        case Some((keep, ops)) =>
          Some((keep, [if last.isCaptured then RC.Op.CloseUpvalue else RC.Op.Pop] + ops))
      else Some((|locals|, []))
  }

  /** Leaving a scope pops, from the top, the initialized locals deeper
      than the new depth, each with `CloseUpvalue` when captured and `Pop`
      otherwise, and stops at the first local that is not deeper. */
  lemma {:induction false} PopScopePops(locals: seq<Local>, depth: nat)
    ensures var r := PopScope(locals, depth);
      r.Some? ==>
        (forall k :: r.value.0 <= k < |locals| ==>
          locals[k].depth.Some? && locals[k].depth.value > depth
          && r.value.1[|locals| - 1 - k] == (if locals[k].isCaptured then RC.Op.CloseUpvalue else RC.Op.Pop))
        && (r.value.0 > 0 ==> locals[r.value.0 - 1].depth.Some? && locals[r.value.0 - 1].depth.value <= depth)
    decreases |locals|
  {
    if |locals| > 0 {
      var last := locals[|locals| - 1];
      if last.depth.Some? && last.depth.value > depth {
        var init := locals[..|locals| - 1];
        PopScopePops(init, depth);
        var r := PopScope(init, depth);
        if r.Some? {
          var keep, ops := r.value.0, r.value.1;
          var op := if last.isCaptured then RC.Op.CloseUpvalue else RC.Op.Pop;
          assert PopScope(locals, depth) == Some((keep, [op] + ops));
          forall k | keep <= k < |locals|
            ensures locals[k].depth.Some? && locals[k].depth.value > depth
            ensures ([op] + ops)[|locals| - 1 - k] == (if locals[k].isCaptured then RC.Op.CloseUpvalue else RC.Op.Pop)
          {
            if k < |locals| - 1 {
              assert locals[k] == init[k];
              assert ([op] + ops)[|locals| - 1 - k] == ops[|init| - 1 - k];
            }
          }
          if keep > 0 {
            assert locals[keep - 1] == init[keep - 1];
          }
        }
      }
    }
  }

  /** Leaving a scope fails exactly at a local still being initialized
      above which every local is deeper than the new depth. */
  lemma {:induction false} PopScopeFails(locals: seq<Local>, depth: nat)
    ensures PopScope(locals, depth).None? ==> exists k :: (0 <= k < |locals| && locals[k].depth.None?
      && forall m :: k < m < |locals| ==> locals[m].depth.Some? && locals[m].depth.value > depth)
    decreases |locals|
  {
    if |locals| > 0 {
      var last := locals[|locals| - 1];
      if last.depth.Some? && last.depth.value > depth {
        var init := locals[..|locals| - 1];
        PopScopeFails(init, depth);
        if PopScope(init, depth).None? {
          var k :| 0 <= k < |init| && init[k].depth.None?
            && forall m :: k < m < |init| ==> init[m].depth.Some? && init[m].depth.value > depth;
          assert locals[k].depth.None?;
          assert forall m :: k < m < |locals| - 1 ==> locals[m] == init[m];
        }
      }
    }
  }

  /** On nested scopes, leaving a scope keeps nested scopes, and pops
      exactly the initialized locals deeper than the new depth; nothing
      panics when every local is initialized. */
  lemma PopScopeNested(locals: seq<Local>, depth: nat)
    requires Nested(locals, depth + 1)
    ensures (forall k :: 0 <= k < |locals| ==> locals[k].depth.Some?) ==> PopScope(locals, depth).Some?
    ensures PopScope(locals, depth).Some? ==> var keep := PopScope(locals, depth).value.0;
      keep >= 1 && Nested(locals[..keep], depth)
      && forall k :: 0 <= k < |locals| && locals[k].depth.Some? ==> (k < keep <==> locals[k].depth.value <= depth)
  {
    PopScopePops(locals, depth);
    PopScopeFails(locals, depth);
    var r := PopScope(locals, depth);
    if r.Some? {
      var keep := r.value.0;
      assert keep >= 1;
      forall k | 0 <= k < keep - 1 && locals[k].depth.Some?
        ensures locals[k].depth.value <= depth
      {
        OrderedPair(locals, depth + 1, k, keep - 1);
      }
      OrderedPrefix(locals, depth + 1, keep);
      var kept := locals[..keep];
      assert kept[..keep - 1] == locals[..keep - 1];
    }
  }

  /** The bytes `function` emits after `Closure` and the constant: per
      upvalue, `is_local` as a byte, then the index. */
  function UpvalueBytes(upvalues: seq<Upvalue>): (bs: seq<byte>)
    ensures |bs| == 2 * |upvalues|
    ensures forall i :: 0 <= i < |upvalues| ==>
      bs[2 * i] == (if upvalues[i].isLocal then 1 else 0) && bs[2 * i + 1] == upvalues[i].index
  {
    if upvalues == [] then []
    else [if upvalues[0].isLocal then 1 else 0, upvalues[0].index] + UpvalueBytes(upvalues[1..])
  }

  /** `ops` in front of the opcodes of a `PopScope` result. */
  function Join(ops: seq<RC.Op>, r: Option<(nat, seq<RC.Op>)>): Option<(nat, seq<RC.Op>)>
  {
    match r
    case None => None
    case Some((keep, rest)) => Some((keep, ops + rest))
  }

  lemma JoinEmpty(r: Option<(nat, seq<RC.Op>)>)
    ensures Join([], r) == r
  {
    if r.Some? {
      assert [] + r.value.1 == r.value.1;
    }
  }

  lemma JoinAppend(a: seq<RC.Op>, b: seq<RC.Op>, r: Option<(nat, seq<RC.Op>)>)
    ensures Join(a, Join(b, r)) == Join(a + b, r)
  {
    if r.Some? {
      assert a + (b + r.value.1) == (a + b) + r.value.1;
    }
  }

  /** `t` is a suffix of `s`. */
  predicate EndsWith<T(==)>(s: seq<T>, t: seq<T>)
  {
    |t| <= |s| && s[|s| - |t|..] == t
  }

  /** The opcode `literal` emits for `nil`, `false` and `true`. */
  function KeywordOp(kind: S.TokenKind): Option<RC.Op>
  {
    match kind
    case Nil => Some(RC.Op.Nil)
    case False => Some(RC.Op.False)
    case True => Some(RC.Op.True)
    case _ => None
  }

  /** The code of `a and b` once the left operand ends at `j`: a
      `JumpIfFalse` at `j` to the end of the code, then the `Pop` of the
      left value. */
  predicate And(before: seq<byte>, code: seq<byte>, j: nat)
  {
    |before| <= j && j + 3 < |code| && code[j] == RC.OpByte(RC.Op.JumpIfFalse) && code[j + 3] == RC.OpByte(RC.Op.Pop)
    && RC.JumpTarget(code, j, 1) == |code|
  }

  /** The code of `a or b` once the left operand ends at `j`: a
      `JumpIfFalse` at `j` to the `Pop` at `j + 6`, and between them a
      `Jump` at `j + 3` to the end of the code. */
  predicate Or(before: seq<byte>, code: seq<byte>, j: nat)
  {
    |before| <= j && j + 6 < |code| && code[j] == RC.OpByte(RC.Op.JumpIfFalse) && RC.JumpTarget(code, j, 1) == j + 6
    && code[j + 3] == RC.OpByte(RC.Op.Jump) && RC.JumpTarget(code, j + 3, 1) == |code|
    && code[j + 6] == RC.OpByte(RC.Op.Pop)
  }

  /** Three appends are one. */
  lemma Append3<T>(s: seq<T>, x: T, y: T, z: T)
    ensures s + [x] + [y] + [z] == s + [x, y, z]
  {
  }

  /** What a statement that compiles may do to the current compiler: grow
      as resolution lets it, and gain initialized locals of the current
      scope, which never happens at the top level. */
  ghost predicate Declares(before: Compiler, after: Compiler)
  {
    before.chunk == after.chunk && before.name == after.name && before.arity == after.arity
    && before.scopeDepth == after.scopeDepth && before.upvalues <= after.upvalues
    && |before.locals| <= |after.locals| && SameShape(before.locals, after.locals[..|before.locals|])
    && (forall k :: |before.locals| <= k < |after.locals| ==> after.locals[k].depth == Some(before.scopeDepth))
    && (before.scopeDepth == 0 ==> |after.locals| == |before.locals|)
  }

  /** What a statement that compiles may do to the stack: the same
      compilers, the enclosing ones grown and the current one as `Declares`
      says. */
  ghost predicate Scoped(before: seq<Compiler>, after: seq<Compiler>)
  {
    |before| == |after| && |before| >= 1
    && Extends(before[..|before| - 1], after[..|after| - 1]) && Declares(before[|before| - 1], after[|after| - 1])
  }

  /** A grown stack is a scoped one. */
  lemma ExtendsScoped(a: seq<Compiler>, b: seq<Compiler>)
    requires Extends(a, b) && |a| >= 1
    ensures Scoped(a, b)
  {
    var n := |a|;
    assert b[n - 1].locals[..|a[n - 1].locals|] == b[n - 1].locals;
    ExtendsPrefix(a, b, n - 1);
  }

  /** Prefixes of a grown stack are grown. */
  lemma ExtendsPrefix(a: seq<Compiler>, b: seq<Compiler>, m: nat)
    requires Extends(a, b) && m <= |a|
    ensures Extends(a[..m], b[..m])
  {
    forall i | 0 <= i < m
      ensures Grows(a[..m][i], b[..m][i])
    {
      assert a[..m][i] == a[i] && b[..m][i] == b[i];
    }
  }

  /** A grown stack, then a scoped step, is a scoped step. */
  lemma ExtendsThenScoped(a: seq<Compiler>, b: seq<Compiler>, c: seq<Compiler>)
    requires Extends(a, b) && |a| >= 1 && Scoped(b, c)
    ensures Scoped(a, c)
  {
    ExtendsScoped(a, b);
    ScopedTrans(a, b, c);
  }

  /** `Scoped` composes. */
  lemma ScopedTrans(a: seq<Compiler>, b: seq<Compiler>, c: seq<Compiler>)
    requires Scoped(a, b) && Scoped(b, c)
    ensures Scoped(a, c)
  {
    var n := |a|;
    var x, y, z := a[n - 1].locals, b[n - 1].locals, c[n - 1].locals;
    assert z[..|y|][..|x|] == z[..|x|];
    assert y[..|x|] == y[..|x|];
    ShapePrefix(y, z[..|y|], |x|);
    forall k | |x| <= k < |y|
      ensures z[k].depth == y[k].depth
    {
      SameShapeAt(y, z[..|y|], k);
    }
    SameShapeTrans(x, y[..|x|], z[..|x|]);
    ExtendsTrans(a[..n - 1], b[..n - 1], c[..n - 1]);
  }

  /** `end_scope` after a block whose statements compiled: the locals the
      block declared are exactly those the scope pops, unless it meets a
      local still being initialized. */
  lemma {:induction false} PopDeclared(before: seq<Local>, after: seq<Local>, depth: nat)
    requires Nested(before, depth) && |before| <= |after| && SameShape(before, after[..|before|])
    requires forall k :: |before| <= k < |after| ==> after[k].depth == Some(depth + 1)
    requires PopScope(after, depth).Some?
    ensures PopScope(after, depth).value.0 == |before|
    decreases |after|
  {
    var n := |after|;
    SameShapeAt(before, after[..|before|], |before| - 1);
    if n > |before| {
      var rest := after[..n - 1];
      assert rest[..|before|] == after[..|before|];
      PopDeclared(before, rest, depth);
    }
  }

  /** Below the innermost local, the locals are ordered under the bound,
      whatever that local's depth. */
  lemma OrderedInner(locals: seq<Local>, bound: nat)
    requires Ordered(locals, bound) && |locals| > 0
    ensures Ordered(locals[..|locals| - 1], bound)
  {
    var rest := locals[..|locals| - 1];
    match locals[|locals| - 1].depth
    case None =>
    case Some(d) => OrderedWeaken(rest, d, bound);
  }

  /** The loop of `end_scope` on the locals, once the depth has been
      decremented to `depth`: the locals deeper than `depth` are popped,
      innermost first, collecting the opcode each needs, until an outer
      local, or a local still being initialized, which panics. */
  method PopLocals(locals: seq<Local>, depth: nat) returns (ops: seq<RC.Op>, panicked: bool, keep: nat)
    ensures var p := PopScope(locals, depth);
      (panicked <==> p.None?) && (p.Some? ==> keep == p.value.0 && ops == p.value.1)
  {
    var rest := locals;
    ops := [];
    JoinEmpty(PopScope(locals, depth));
    while |rest| > 0
      invariant PopScope(locals, depth) == Join(ops, PopScope(rest, depth))
      decreases |rest|
    {
      var local := rest[|rest| - 1];
      if local.depth.None? {
        return ops, true, 0;
      }
      if local.depth.value <= depth {
        break;
      }
      var op := if local.isCaptured then RC.Op.CloseUpvalue else RC.Op.Pop;
      var shorter := rest[..|rest| - 1];
      assert PopScope(rest, depth) == Join([op], PopScope(shorter, depth));
      JoinAppend(ops, [op], PopScope(shorter, depth));
      ops := ops + [op];
      rest := shorter;
    }
    assert ops + [] == ops;
    keep := |rest|;
    panicked := false;
  }

  /** Pool entry `index` is a string whose interned text is `name`. */
  ghost predicate Names(constants: seq<RV.Value>, texts: seq<string>, index: nat, name: string)
  {
    index < |constants| && constants[index].String? && constants[index].handle.index < |texts|
    && texts[constants[index].handle.index] == name
  }

  /** What `get_arg` chose for `name`, when it succeeded, on the stack
      `before`: the slot of a local of the current function, with nothing
      changed; else an upvalue the current function records; else, when no function in scope has a local of
      the name, the new pool entry `pool` naming it. */
  ghost predicate Resolution(before: seq<Compiler>, after: seq<Compiler>, constants: seq<RV.Value>, texts: seq<string>,
                             pool: nat, name: string, local: RC.Op, upvalue: RC.Op, global: RC.Op, op: RC.Op, arg: byte)
  {
    |before| >= 1 && |after| == |before|
    && var l := ResolveLocalSpec(before[|before| - 1].locals, name);
    l.Ok?
    && (l.value.Some? ==> op == local && arg == l.value.value && after == before)
    && (l.value.None? ==>
          (op == upvalue && arg as nat < |after[|after| - 1].upvalues|)
          || (op == global && Unbound(before, name) && after == before && arg as nat == pool
              && Names(constants, texts, pool, name)))
  }

  // ---------------------------------------------------------------------
  // Statements on the stack of compilers and on the code

  /** A declaration inside a scope: the local the name got (`p`), the
      initializer compiled (`e`), then the local marked initialized (`f`).
      Together they declare one local of the current scope. */
  lemma MarkScoped(a: seq<Compiler>, p: seq<Compiler>, e: seq<Compiler>, f: seq<Compiler>, name: string)
    requires |a| >= 1 && a[|a| - 1].scopeDepth > 0
    requires p == a[|a| - 1 := a[|a| - 1].(locals := a[|a| - 1].locals + [Local(name, None, false)])]
    requires Extends(p, e)
    requires var c := e[|e| - 1]; var m := |c.locals|;
      m >= 1 && f == e[|e| - 1 := c.(locals := c.locals[..m - 1] + [c.locals[m - 1].(depth := Some(c.scopeDepth))])]
    ensures Scoped(a, f) && |f[|f| - 1].locals| == |a[|a| - 1].locals| + 1
  {
    var n := |a|;
    MarkDeclares(a[n - 1], e[n - 1], name);
    ExtendsPrefix(p, e, n - 1);
    assert p[..n - 1] == a[..n - 1] && f[..n - 1] == e[..n - 1];
  }

  /** `MarkScoped` for the current compiler. */
  lemma MarkDeclares(c: Compiler, e: Compiler, name: string)
    requires c.scopeDepth > 0 && Grows(c.(locals := c.locals + [Local(name, None, false)]), e)
    ensures |e.locals| == |c.locals| + 1
    ensures var m := |e.locals|;
      Declares(c, e.(locals := e.locals[..m - 1] + [e.locals[m - 1].(depth := Some(e.scopeDepth))]))
  {
    var x, y, z := c.locals, c.locals + [Local(name, None, false)], e.locals;
    var w := z[..|z| - 1] + [z[|z| - 1].(depth := Some(e.scopeDepth))];
    ShapePrefix(y, z, |x|);
    assert y[..|x|] == x && w[..|x|] == z[..|x|];
  }

  /** `after` is `before` with one more local of the current scope, named
      `name` and initialized. */
  ghost predicate DeclaredLocal(before: seq<Compiler>, after: seq<Compiler>, name: string)
  {
    Scoped(before, after) && |after[|after| - 1].locals| == |before[|before| - 1].locals| + 1
    && var local := after[|after| - 1].locals[|after[|after| - 1].locals| - 1];
    local.name == name && local.depth == Some(after[|after| - 1].scopeDepth)
  }

  /** `m` is `a` with one more local of the current scope, named `name`,
      declared and at once marked initialized. */
  ghost predicate DeclaredMarked(a: seq<Compiler>, m: seq<Compiler>, name: string)
  {
    |a| >= 1 && a[|a| - 1].scopeDepth > 0
    && var c := a[|a| - 1].(locals := a[|a| - 1].locals + [Local(name, None, false)]); var k := |c.locals|;
    m == a[|a| - 1 := c.(locals := c.locals[..k - 1] + [c.locals[k - 1].(depth := Some(c.scopeDepth))])]
  }

  /** A local marked initialized as soon as it is declared (`a` to `m`),
      before anything else is compiled (`m` to `e`): the stack is scoped
      and the local is the newest, of the current depth. */
  lemma DeclaredFirst(a: seq<Compiler>, m: seq<Compiler>, e: seq<Compiler>, name: string)
    requires DeclaredMarked(a, m, name)
    requires Extends(m, e)
    ensures DeclaredLocal(a, e, name)
  {
    var p := a[|a| - 1 := a[|a| - 1].(locals := a[|a| - 1].locals + [Local(name, None, false)])];
    ExtendsRefl(p);
    MarkScoped(a, p, p, m, name);
    var n := |e|;
    assert Grows(m[n - 1], e[n - 1]);
    SameShapeAt(m[n - 1].locals, e[n - 1].locals, |e[n - 1].locals| - 1);
    ExtendsScoped(m, e);
    ScopedTrans(a, m, e);
  }

  /** Marking the newest local of `DeclaredLocal` initialized again
      changes nothing. */
  lemma MarkedAgain(a: seq<Compiler>, e: seq<Compiler>, name: string)
    requires |a| >= 1 && |a[|a| - 1].locals| >= 1 && DeclaredLocal(a, e, name)
    ensures var c := e[|e| - 1]; var n := |c.locals|;
      e[|e| - 1].scopeDepth == a[|a| - 1].scopeDepth && n >= 2
      && e[|e| - 1 := c.(locals := c.locals[..n - 1] + [c.locals[n - 1].(depth := Some(c.scopeDepth))])] == e
  {
    var c := e[|e| - 1];
    var n := |c.locals|;
    assert c.locals[..n - 1] + [c.locals[n - 1].(depth := Some(c.scopeDepth))] == c.locals;
  }

  /** A scope closed after statements that compiled: the locals they
      declared are popped, and the compiler is as the scope found it, up to
      captures and new upvalues. */
  lemma CloseScoped(before: seq<Compiler>, inner: seq<Compiler>, after: seq<Compiler>)
    requires StackValid(before)
    requires var c := before[|before| - 1];
      Scoped(before[|before| - 1 := c.(scopeDepth := c.scopeDepth + 1)], inner)
    requires var d := before[|before| - 1].scopeDepth; var i := inner[|inner| - 1];
      PopScope(i.locals, d).Some?
      && after == inner[|inner| - 1 := i.(scopeDepth := d, locals := i.locals[..PopScope(i.locals, d).value.0])]
    ensures Extends(before, after)
  {
    var n := |before|;
    var c := before[n - 1];
    var deeper := before[n - 1 := c.(scopeDepth := c.scopeDepth + 1)];
    var i := inner[n - 1];
    assert Valid(c);
    PopDeclared(c.locals, i.locals, c.scopeDepth);
    assert after[n - 1].locals == i.locals[..|c.locals|];
    assert deeper[..n - 1] == before[..n - 1] && after[..n - 1] == inner[..n - 1];
    forall k | 0 <= k < n
      ensures Grows(before[k], after[k])
    {
      if k < n - 1 {
        assert before[k] == deeper[..n - 1][k] && after[k] == inner[..n - 1][k];
      }
    }
  }

  /** The code of an `if` whose condition ends at `j`: a `JumpIfFalse` at
      `j`, followed by the `Pop` of the condition, to the `Pop` at `k + 3`
      that starts the else part, and at `k`, after the then branch, a
      `Jump` to the end of the code. */
  predicate IfShape(code: seq<byte>, j: nat, k: nat)
  {
    j + 4 <= k && k + 3 < |code|
    && code[j] == RC.OpByte(RC.Op.JumpIfFalse) && code[j + 3] == RC.OpByte(RC.Op.Pop)
    && RC.JumpTarget(code, j, 1) == k + 3
    && code[k] == RC.OpByte(RC.Op.Jump) && code[k + 3] == RC.OpByte(RC.Op.Pop)
    && RC.JumpTarget(code, k, 1) == |code|
  }

  /** `if` once both jumps are patched: `c2` ends the then branch, the jump
      at `j` was patched over the `Jump` that follows, and `c4` ends the
      else part. */
  lemma IfLands(c2: seq<byte>, j: nat, c4: seq<byte>)
    requires j + 4 <= |c2| && c2[j] == RC.OpByte(RC.Op.JumpIfFalse) && c2[j + 3] == RC.OpByte(RC.Op.Pop)
    requires PatchedCode(c2 + [RC.OpByte(RC.Op.Jump), 0xff, 0xff], j + 1).Ok?
    requires PatchedCode(c2 + [RC.OpByte(RC.Op.Jump), 0xff, 0xff], j + 1).value + [RC.OpByte(RC.Op.Pop)] <= c4
    requires PatchedCode(c4, |c2| + 1).Ok?
    ensures c2[..j] <= PatchedCode(c4, |c2| + 1).value && IfShape(PatchedCode(c4, |c2| + 1).value, j, |c2|)
  {
    var k := |c2|;
    var jumps := c2 + [RC.OpByte(RC.Op.Jump), 0xff, 0xff];
    var p1 := PatchedCode(jumps, j + 1).value;
    var fin := PatchedCode(c4, k + 1).value;
    PatchedJumpLands(jumps, j + 1);
    PatchedJumpLands(c4, k + 1);
    assert fin[j] == c4[j] == p1[j] == jumps[j];
    assert fin[j + 1] == c4[j + 1] == p1[j + 1] && fin[j + 2] == c4[j + 2] == p1[j + 2];
    assert fin[j + 3] == c4[j + 3] == p1[j + 3] == jumps[j + 3];
    assert fin[k] == c4[k] == p1[k] == jumps[k];
    assert fin[k + 3] == c4[k + 3] == (p1 + [RC.OpByte(RC.Op.Pop)])[k + 3];
    forall i | 0 <= i < j
      ensures fin[i] == c2[i]
    {
      assert fin[i] == c4[i] == p1[i] == jumps[i];
    }
  }

  /** The code of a `while` loop whose condition starts at `loopStart` and
      ends at `j`: a `JumpIfFalse` at `j`, followed by the `Pop` of the
      condition, to the final `Pop`, and before it a `Loop` back to
      `loopStart`. */
  predicate WhileShape(code: seq<byte>, loopStart: nat, j: nat)
  {
    loopStart <= j && j + 8 <= |code|
    && code[j] == RC.OpByte(RC.Op.JumpIfFalse) && code[j + 3] == RC.OpByte(RC.Op.Pop)
    && RC.JumpTarget(code, j, 1) == |code| - 1
    && code[|code| - 4] == RC.OpByte(RC.Op.Loop) && RC.JumpTarget(code, |code| - 4, -1) == loopStart
    && code[|code| - 1] == RC.OpByte(RC.Op.Pop)
  }

  /** `while` once the body `c2` ends: the loop, the exit jump patched,
      then `Pop`. */
  lemma WhileLands(c2: seq<byte>, loopStart: nat, j: nat)
    requires loopStart <= j && j + 4 <= |c2| && c2[j] == RC.OpByte(RC.Op.JumpIfFalse) && c2[j + 3] == RC.OpByte(RC.Op.Pop)
    requires LoopOperand(c2, loopStart).Some?
    requires var v := Operand(LoopOperand(c2, loopStart).value);
      PatchedCode(c2 + [RC.OpByte(RC.Op.Loop), v.0, v.1], j + 1).Ok?
    ensures var v := Operand(LoopOperand(c2, loopStart).value);
      var fin := PatchedCode(c2 + [RC.OpByte(RC.Op.Loop), v.0, v.1], j + 1).value + [RC.OpByte(RC.Op.Pop)];
      c2[..j] <= fin && WhileShape(fin, loopStart, j)
  {
    var v := Operand(LoopOperand(c2, loopStart).value);
    var looped := c2 + [RC.OpByte(RC.Op.Loop), v.0, v.1];
    var p1 := PatchedCode(looped, j + 1).value;
    var fin := p1 + [RC.OpByte(RC.Op.Pop)];
    var k := |c2|;
    LoopLands(c2, loopStart);
    PatchedJumpLands(looped, j + 1);
    assert fin[j] == looped[j] && fin[j + 3] == looped[j + 3];
    assert fin[j + 1] == p1[j + 1] && fin[j + 2] == p1[j + 2];
    assert fin[k] == looped[k] && fin[k + 1] == looped[k + 1] && fin[k + 2] == looped[k + 2];
    forall i | 0 <= i < j
      ensures fin[i] == c2[i]
    {
      assert fin[i] == p1[i] == looped[i];
    }
  }

  /** The end of a `for` loop's code: the `Loop` at `loopAt`, the last
      instruction, goes back to `target`, and the exit jump of the
      condition, when there is one, lands just after it. No `Pop` of the
      condition follows, unlike `while`. */
  predicate ForTail(code: seq<byte>, loopAt: nat, target: nat, exitJump: Option<nat>)
  {
    loopAt + 3 == |code| && code[loopAt] == RC.OpByte(RC.Op.Loop) && RC.JumpTarget(code, loopAt, -1) == target
    && (exitJump.Some? ==> (1 <= exitJump.value && exitJump.value + 2 <= loopAt
          && code[exitJump.value - 1] == RC.OpByte(RC.Op.JumpIfFalse) && RC.JumpTarget(code, exitJump.value - 1, 1) == |code|))
  }

  /** The jumps of a `for` loop's condition: `beforeCondition` where the
      condition starts, the exit jump (`JumpIfFalse`) and `bodyJump`, the
      jump from the condition over the increment to the body, all at or
      after `keep`. */
  predicate ForJumps(code: seq<byte>, keep: nat, beforeCondition: Option<nat>, exitJump: Option<nat>, bodyJump: Option<nat>)
  {
    keep <= |code|
    && (beforeCondition.Some? <==> exitJump.Some?)
    && (beforeCondition.Some? ==> keep <= beforeCondition.value <= |code|)
    && (bodyJump.Some? ==> exitJump.Some? && bodyJump.value == exitJump.value + 4 && bodyJump.value + 2 <= |code|)
    && (exitJump.Some? ==>
          keep + 1 <= exitJump.value && exitJump.value + 2 <= |code| && code[exitJump.value - 1] == RC.OpByte(RC.Op.JumpIfFalse))
  }

  /** The jumps stay in place while code is appended. */
  lemma ForJumpsGrow(code: seq<byte>, more: seq<byte>, keep: nat, beforeCondition: Option<nat>, exitJump: Option<nat>, bodyJump: Option<nat>)
    requires ForJumps(code, keep, beforeCondition, exitJump, bodyJump) && code <= more
    ensures ForJumps(more, keep, beforeCondition, exitJump, bodyJump)
  {
    if exitJump.Some? {
      assert more[exitJump.value - 1] == code[exitJump.value - 1];
    }
  }

  /** A placeholder patched after a loop was emitted: the loop keeps its
      target and the jump lands at the end. */
  lemma ForLands(c2: seq<byte>, target: nat, exitJump: nat)
    requires target <= |c2| && LoopOperand(c2, target).Some?
    requires 1 <= exitJump && exitJump + 2 <= |c2| && c2[exitJump - 1] == RC.OpByte(RC.Op.JumpIfFalse)
    requires var v := Operand(LoopOperand(c2, target).value);
      PatchedCode(c2 + [RC.OpByte(RC.Op.Loop), v.0, v.1], exitJump).Ok?
    ensures var v := Operand(LoopOperand(c2, target).value);
      var fin := PatchedCode(c2 + [RC.OpByte(RC.Op.Loop), v.0, v.1], exitJump).value;
      c2[..exitJump] <= fin && ForTail(fin, |c2|, target, Some(exitJump))
  {
    var v := Operand(LoopOperand(c2, target).value);
    var looped := c2 + [RC.OpByte(RC.Op.Loop), v.0, v.1];
    var fin := PatchedCode(looped, exitJump).value;
    var k := |c2|;
    LoopLands(c2, target);
    PatchedJumpLands(looped, exitJump);
    assert fin[exitJump - 1] == looped[exitJump - 1];
    assert fin[k] == looped[k] && fin[k + 1] == looped[k + 1] && fin[k + 2] == looped[k + 2];
    forall i | 0 <= i < exitJump
      ensures fin[i] == c2[i]
    {
      assert fin[i] == looped[i];
    }
  }

  /** One more upvalue: its `is_local` and index pair follows the bytes of
      the others. */
  lemma {:induction false} UpvalueBytesAppend(upvalues: seq<Upvalue>, u: Upvalue)
    ensures UpvalueBytes(upvalues + [u]) == UpvalueBytes(upvalues) + [if u.isLocal then 1 else 0, u.index]
  {
    if upvalues == [] {
      assert [] + [u] == [u] && [u][1..] == [];
    } else {
      assert (upvalues + [u])[1..] == upvalues[1..] + [u];
      UpvalueBytesAppend(upvalues[1..], u);
    }
  }

  // ---------------------------------------------------------------------
  // The wrapper

  /** `CompilerWrapper`: the compilers in progress, innermost (`current`)
      last, and the line every emitted byte gets. The interner behind
      `Handle::from_str`, the float parser behind `lexeme.parse()` and the
      diagnostics written to standard error are fields here. */
  class Wrapper {
    var compilers: seq<Compiler>
    var currentLine: int
    var reports: seq<CompileReport>
    const strings: LoxString.Interner
    const ops: FloatOps

    /** The current compiler. */
    function Current(): Compiler
      reads this
      requires |compilers| > 0
    {
      compilers[|compilers| - 1]
    }

    /** The chunk of the current compiler. */
    function Chunk(): RC.Chunk<RV.Value>
      reads this
      requires |compilers| > 0
    {
      Current().chunk
    }

    /** There is a current compiler and every compiler is valid; the
        current chunk and the interner are valid. */
    ghost predicate Valid()
      reads this, strings, if |compilers| > 0 then {Chunk()} else {}
    {
      StackValid(compilers) && Chunk().Valid() && strings.Valid()
    }

    /** `CompilerWrapper::new`: the script's compiler, named "", at line
        0. */
    constructor (strings: LoxString.Interner, ops: FloatOps)
      requires strings.Valid()
      modifies strings
      ensures Valid() && |compilers| == 1 && fresh(Chunk()) && reports == [] && currentLine == 0
      ensures this.strings == strings && this.ops == ops
      ensures Current().locals == [Local("", Some(0), false)] && Current().scopeDepth == 0 && Current().upvalues == []
      ensures Chunk().code == [] && Chunk().constants == [] && Current().arity == 0
      ensures Current().name.index < |strings.strings| && LoxString.AsStr(strings, Current().name) == ""
    {
      this.strings := strings;
      this.ops := ops;
      var script := NewCompiler("", strings);
      compilers := [script];
      currentLine := 0;
      reports := [];
    }

    /** Entry `index` of the current pool is the interned string `name`. */
    ghost predicate NamesConstant(index: nat, name: string)
      requires |compilers| > 0
      reads this, Chunk(), strings
    {
      Names(Chunk().constants, strings.strings, index, name)
    }

    /** The current compiler replaced by a valid one with the same chunk. */
    method SetCurrent(c: Compiler)
      requires Valid() && RustloxCompiler.Valid(c) && c.chunk == Chunk()
      modifies this`compilers
      ensures Valid() && compilers == old(compilers)[|old(compilers)| - 1 := c]
    {
      compilers := compilers[|compilers| - 1 := c];
    }

    /** `emit_byte`: the byte goes to the current chunk with the current
        line. */
    method EmitByte(b: byte)
      requires Valid()
      modifies Chunk()`code, Chunk()`lines
      ensures Valid()
      ensures Chunk().code == old(Chunk().code) + [b] && Chunk().lines == old(Chunk().lines) + [currentLine]
    {
      Chunk().Write(b, currentLine);
    }

    /** `emit_op`. */
    method EmitOp(op: RC.Op)
      requires Valid()
      modifies Chunk()`code, Chunk()`lines
      ensures Valid() && Chunk().code == old(Chunk().code) + [RC.OpByte(op)]
    {
      EmitByte(RC.OpByte(op));
    }

    /** `emit_ops`. */
    method EmitOps(op1: RC.Op, op2: RC.Op)
      requires Valid()
      modifies Chunk()`code, Chunk()`lines
      ensures Valid() && Chunk().code == old(Chunk().code) + [RC.OpByte(op1), RC.OpByte(op2)]
    {
      EmitOp(op1);
      EmitOp(op2);
    }

    /** `emit_bytes`. */
    method EmitBytes(b1: byte, b2: byte)
      requires Valid()
      modifies Chunk()`code, Chunk()`lines
      ensures Valid() && Chunk().code == old(Chunk().code) + [b1, b2]
    {
      EmitByte(b1);
      EmitByte(b2);
    }

    /** The loop of `end_scope` that emits the collected opcodes. */
    method EmitAll(ops: seq<RC.Op>)
      requires Valid()
      modifies Chunk()`code, Chunk()`lines
      ensures Valid() && Chunk().code == old(Chunk().code) + OpBytes(ops)
    {
      var i := 0;
      while i < |ops|
        invariant 0 <= i <= |ops| && Valid()
        invariant Chunk().code == old(Chunk().code) + OpBytes(ops[..i])
      {
        EmitOp(ops[i]);
        assert ops[..i + 1] == ops[..i] + [ops[i]];
        OpBytesAppend(ops[..i], ops[i]);
        i := i + 1;
      }
      assert ops[..i] == ops;
    }

    /** `error`: the report goes to standard error and the result is an
        error. */
    method Error(lexeme: Option<string>, message: string) returns (st: Status)
      requires Valid()
      modifies this`reports
      ensures Valid() && st == Failed && reports == old(reports) + [CompileReport(lexeme, message)]
    {
      reports := reports + [CompileReport(lexeme, message)];
      st := Failed;
    }

    /** `emit_jump`: the opcode and a two-byte placeholder; the result is
        the index of the placeholder. */
    method EmitJump(op: RC.Op) returns (offset: nat)
      requires Valid()
      modifies Chunk()`code, Chunk()`lines
      ensures Valid() && Chunk().code == old(Chunk().code) + [RC.OpByte(op), 0xff, 0xff]
      ensures offset == |old(Chunk().code)| + 1 && offset + 2 == |Chunk().code|
    {
      EmitOp(op);
      EmitByte(0xff);
      EmitByte(0xff);
      Append3(old(Chunk().code), RC.OpByte(op), 0xff, 0xff);
      offset := |Chunk().code| - 2;
    }

    /** `patch_jump`: rewrites the placeholder at `offset` as
        `PatchedCode` says, or reports that the jump is too long and leaves
        the code alone. */
    method PatchJump(offset: nat) returns (st: Status)
      requires Valid() && offset + 2 <= |Chunk().code|
      modifies Chunk()`code, this`reports
      ensures Valid() && st != Panicked
      ensures var p := PatchedCode(old(Chunk().code), offset);
        (st == Compiled <==> p.Ok?)
        && (p.Ok? ==> Chunk().code == p.value && reports == old(reports))
        && (p.Err? ==> (Chunk().code == old(Chunk().code)
              && reports == old(reports) + [CompileReport(None, "Too much code to jump over.")]))
    {
      var jump := |Chunk().code| - offset - 2;
      if jump > 0xffff {
        st := Error(None, "Too much code to jump over.");
        return;
      }
      var (hi, lo) := Operand(jump);
      Chunk().code := Chunk().code[offset := hi];
      Chunk().code := Chunk().code[offset + 1 := lo];
      st := Compiled;
    }

    /** `emit_loop`: `Loop` and the distance back to `loopStart`, or a
        report that the body is too large, with the `Loop` byte already
        written. */
    method EmitLoop(loopStart: nat) returns (st: Status)
      requires Valid() && loopStart <= |Chunk().code|
      modifies Chunk()`code, Chunk()`lines, this`reports
      ensures Valid() && st != Panicked
      ensures var operand := LoopOperand(old(Chunk().code), loopStart);
        (st == Compiled <==> operand.Some?)
        && (operand.Some? ==> (reports == old(reports)
              && Chunk().code == old(Chunk().code) + [RC.OpByte(RC.Op.Loop), Operand(operand.value).0, Operand(operand.value).1]))
        && (operand.None? ==> (Chunk().code == old(Chunk().code) + [RC.OpByte(RC.Op.Loop)]
              && reports == old(reports) + [CompileReport(None, "Loop body too large.")]))
    {
      ghost var before := Chunk().code;
      EmitOp(RC.Op.Loop);
      var offset := |Chunk().code| - loopStart + 2;
      if offset > 0xffff {
        st := Error(None, "Loop body too large.");
        return;
      }
      assert LoopOperand(before, loopStart) == Some(offset);
      var bytes := Operand(offset);
      EmitByte(bytes.0);
      EmitByte(bytes.1);
      Append3(before, RC.OpByte(RC.Op.Loop), bytes.0, bytes.1);
      st := Compiled;
    }

    /** `emit_return`. */
    method EmitReturn()
      requires Valid()
      modifies Chunk()`code, Chunk()`lines
      ensures Valid() && Chunk().code == old(Chunk().code) + [RC.OpByte(RC.Op.Nil), RC.OpByte(RC.Op.Return)]
    {
      EmitOp(RC.Op.Nil);
      EmitOp(RC.Op.Return);
    }

    /** `make_constant`: the value joins the pool of the current chunk. The
        source uses `add_constant`'s `Result` as a byte; here its `Err`
        makes the surrounding statement fail, with no report. */
    method MakeConstant(value: RV.Value) returns (r: Result<byte, ()>)
      requires Valid()
      modifies Chunk()`constants
      ensures Valid()
      ensures |old(Chunk().constants)| < 256 ==>
        r == Ok(|old(Chunk().constants)|) && Chunk().constants == old(Chunk().constants) + [value]
      ensures |old(Chunk().constants)| >= 256 ==> r.Err? && Chunk().constants == old(Chunk().constants)
    {
      r := Chunk().AddConstant(value);
    }

    /** `emit_constant`: `Constant` and the pool index. */
    method EmitConstant(value: RV.Value) returns (st: Status)
      requires Valid()
      modifies Chunk()`code, Chunk()`lines, Chunk()`constants
      ensures Valid() && st != Panicked
      ensures st == Compiled <==> |old(Chunk().constants)| < 256
      ensures st == Compiled ==>
        Chunk().code == old(Chunk().code) + [RC.OpByte(RC.Op.Constant), |old(Chunk().constants)| as byte]
        && Chunk().constants == old(Chunk().constants) + [value]
      ensures st == Failed ==> Chunk().code == old(Chunk().code) && Chunk().constants == old(Chunk().constants)
    {
      var constant := MakeConstant(value);
      if constant.Err? {
        return Failed;
      }
      EmitBytes(RC.OpByte(RC.Op.Constant), constant.value);
      st := Compiled;
    }

    /** `identifier_constant`: the interned name joins the pool. */
    method IdentifierConstant(name: string) returns (r: Result<byte, ()>)
      requires Valid()
      modifies Chunk()`constants, strings
      ensures Valid()
      ensures r.Ok? ==> r.value as nat == |old(Chunk().constants)| && NamesConstant(r.value as nat, name)
      ensures r.Ok? ==> |Chunk().constants| == r.value as nat + 1 && old(Chunk().constants) <= Chunk().constants
      ensures r.Err? <==> |old(Chunk().constants)| >= 256
      ensures r.Err? ==> Chunk().constants == old(Chunk().constants)
    {
      var handle := LoxString.FromStr(strings, name);
      r := MakeConstant(RV.String(handle));
    }

    /** `add_local`: a new local, still uninitialized, unless the function
        already has 255. */
    method AddLocal(name: S.Token) returns (st: Status)
      requires Valid()
      modifies this`compilers, this`reports
      ensures Valid() && st != Panicked
      ensures st == Compiled <==> |old(Current().locals)| < 255
      ensures st == Compiled ==> (reports == old(reports)
        && compilers == old(compilers)[|old(compilers)| - 1 := old(Current()).(locals := old(Current().locals) + [Local(name.lexeme, None, false)])])
      ensures st == Failed ==> (compilers == old(compilers)
        && reports == old(reports) + [CompileReport(None, "Too many local variables in function.")])
    {
      if |Current().locals| >= 255 {
        st := Error(None, "Too many local variables in function.");
        return;
      }
      var c := Current();
      SetCurrent(c.(locals := c.locals + [Local(name.lexeme, None, false)]));
      st := Compiled;
    }

    /** The scan of `declare_variable`, innermost local first: whether the
        innermost scope already has a local named `name`. */
    method InScope(name: string) returns (found: bool)
      requires |compilers| > 0
      ensures found == Redeclares(Current().locals, Current().scopeDepth, name, |Current().locals|)
    {
      var locals := Current().locals;
      var depth := Current().scopeDepth;
      found := false;
      var i := |locals|;
      while i > 0
        invariant 0 <= i <= |locals|
        invariant Redeclares(locals, depth, name, |locals|) == Redeclares(locals, depth, name, i)
        decreases i
      {
        var local := locals[i - 1];
        if local.depth.Some? && local.depth.value < depth {
          return;
        }
        if name == local.name {
          return true;
        }
        i := i - 1;
      }
    }

    /** `declare_variable`: nothing at the top level; otherwise an error
        when the innermost scope already has a local of the name, and a new
        local when it does not. */
    method DeclareVariable(name: S.Token) returns (st: Status)
      requires Valid()
      modifies this`compilers, this`reports
      ensures Valid() && st != Panicked && |compilers| == |old(compilers)|
      ensures old(reports) <= reports && |reports| <= |old(reports)| + 1 && (st == Compiled ==> reports == old(reports))
      ensures st == Failed ==> compilers == old(compilers)
      ensures old(Current().scopeDepth) == 0 ==> st == Compiled && compilers == old(compilers)
      ensures var c := old(Current()); c.scopeDepth > 0 && Redeclares(c.locals, c.scopeDepth, name.lexeme, |c.locals|) ==>
        st == Failed && compilers == old(compilers)
        && reports == old(reports) + [CompileReport(Some(name.lexeme), "Already a variable with this name in this scope.")]
      ensures var c := old(Current()); c.scopeDepth > 0 && !Redeclares(c.locals, c.scopeDepth, name.lexeme, |c.locals|) ==>
        (st == Compiled <==> |c.locals| < 255)
        && (st == Compiled ==> (compilers == old(compilers)[|old(compilers)| - 1 := c.(locals := c.locals + [Local(name.lexeme, None, false)])]
              && reports == old(reports)))
        && (st == Failed ==> (compilers == old(compilers)
              && reports == old(reports) + [CompileReport(None, "Too many local variables in function.")]))
    {
      if Current().scopeDepth == 0 {
        return Compiled;
      }
      var found := InScope(name.lexeme);
      if found {
        st := Error(Some(name.lexeme), "Already a variable with this name in this scope.");
        return;
      }
      st := AddLocal(name);
    }

    /** `parse_variable`: declares the name; inside a scope the result is
        0, at the top level the pool index of the interned name. */
    method ParseVariable(token: S.Token) returns (st: Status, global: byte)
      requires Valid()
      modifies this`compilers, Chunk()`constants, strings, this`reports, this`currentLine
      ensures Valid() && st != Panicked && currentLine == token.line && |compilers| == |old(compilers)|
      ensures old(reports) <= reports && |reports| <= |old(reports)| + 1 && (st == Compiled ==> reports == old(reports))
      ensures old(Chunk().constants) <= Chunk().constants
      ensures var c := old(Current());
        st == Compiled && c.scopeDepth > 0 ==>
          compilers == old(compilers)[|old(compilers)| - 1 := c.(locals := c.locals + [Local(token.lexeme, None, false)])]
          && global == 0
      ensures st == Compiled && old(Current().scopeDepth) == 0 ==>
        compilers == old(compilers) && global as nat == |old(Chunk().constants)| && NamesConstant(global as nat, token.lexeme)
      ensures st == Failed ==> compilers == old(compilers)
    {
      currentLine := token.line;
      st := DeclareVariable(token);
      global := 0;
      if st != Compiled {
        return;
      }
      if Current().scopeDepth > 0 {
        return;
      }
      var constant := IdentifierConstant(token.lexeme);
      if constant.Err? {
        st := Failed;
        return;
      }
      global := constant.value;
    }

    /** `mark_initialized`: inside a scope the newest local gets the
        current depth. */
    method MarkInitialized()
      requires Valid() && (Current().scopeDepth > 0 ==> |Current().locals| >= 2)
      modifies this`compilers
      ensures Valid()
      ensures var c := old(Current()); var n := |c.locals|;
        compilers == old(compilers)[|old(compilers)| - 1 := if c.scopeDepth == 0 then c
          else c.(locals := c.locals[..n - 1] + [c.locals[n - 1].(depth := Some(c.scopeDepth))])]
    {
      var c := Current();
      if c.scopeDepth == 0 {
        assert compilers == compilers[|compilers| - 1 := c];
        return;
      }
      var n := |c.locals|;
      var locals := c.locals[..n - 1] + [c.locals[n - 1].(depth := Some(c.scopeDepth))];
      assert locals[..n - 1] == c.locals[..n - 1] && locals[0] == c.locals[0];
      OrderedInner(c.locals, c.scopeDepth);
      SetCurrent(c.(locals := locals));
    }

    /** `define_variable`: inside a scope the local becomes initialized; at
        the top level `DefineGlobal` with the name's pool index. */
    method DefineVariable(global: byte)
      requires Valid() && (Current().scopeDepth > 0 ==> |Current().locals| >= 2)
      modifies this`compilers, Chunk()`code, Chunk()`lines
      ensures Valid()
      ensures var c := old(Current()); var n := |c.locals|;
        (c.scopeDepth == 0 ==> (compilers == old(compilers)
          && Chunk().code == old(Chunk().code) + [RC.OpByte(RC.Op.DefineGlobal), global]))
        && (c.scopeDepth > 0 ==> (Chunk().code == old(Chunk().code)
          && compilers == old(compilers)[|old(compilers)| - 1 := c.(locals := c.locals[..n - 1] + [c.locals[n - 1].(depth := Some(c.scopeDepth))])]))
    {
      if Current().scopeDepth > 0 {
        MarkInitialized();
        return;
      }
      EmitBytes(RC.OpByte(RC.Op.DefineGlobal), global);
    }

    /** `begin_scope`. */
    method BeginScope()
      requires Valid()
      modifies this`compilers
      ensures Valid() && compilers == old(compilers)[|old(compilers)| - 1 := old(Current()).(scopeDepth := old(Current().scopeDepth) + 1)]
    {
      var c := Current();
      OrderedWeaken(c.locals, c.scopeDepth, c.scopeDepth + 1);
      SetCurrent(c.(scopeDepth := c.scopeDepth + 1));
    }

    /** `end_scope`: the depth drops by one and the locals of the scope are
        popped as `PopScope` says, their opcodes emitted afterwards; a local
        still being initialized panics (and the state no longer matters). */
    method EndScope() returns (st: Status)
      requires Valid() && Current().scopeDepth > 0
      modifies this`compilers, Chunk()`code, Chunk()`lines
      ensures Valid() && st != Failed
      ensures var c := old(Current()); var p := PopScope(c.locals, c.scopeDepth - 1);
        (st == Panicked <==> p.None?) && (p.None? ==> compilers == old(compilers))
        && (p.Some? ==> (compilers == old(compilers)[|old(compilers)| - 1 := c.(scopeDepth := c.scopeDepth - 1, locals := c.locals[..p.value.0])]
              && Chunk().code == old(Chunk().code) + OpBytes(p.value.1)))
    {
      var c := Current();
      var ops, panicked, keep := PopLocals(c.locals, c.scopeDepth - 1);
      if panicked {
        return Panicked;
      }
      PopScopeNested(c.locals, c.scopeDepth - 1);
      SetCurrent(c.(scopeDepth := c.scopeDepth - 1, locals := c.locals[..keep]));
      EmitAll(ops);
      st := Compiled;
    }

    /** `end_scope` after a block's statements: together with the
        `begin_scope` before them, the stack `before` only grows. */
    method CloseScope(ghost before: seq<Compiler>) returns (st: Status)
      requires Valid() && StackValid(before)
      requires var c := before[|before| - 1]; Scoped(before[|before| - 1 := c.(scopeDepth := c.scopeDepth + 1)], compilers)
      modifies this`compilers, Chunk()`code, Chunk()`lines
      ensures Valid() && Chunk() == old(Chunk()) && st != Failed
      ensures st == Compiled ==> Extends(before, compilers) && old(Chunk().code) <= Chunk().code
    {
      ghost var inner := compilers;
      st := EndScope();
      if st == Compiled {
        CloseScoped(before, inner, compilers);
      }
    }

    /** `end_compiler`: the function ends with `Nil, Return` and the
        enclosing compiler becomes current again; the finished compiler is
        the result. */
    method EndCompiler() returns (c: Compiler)
      requires Valid()
      modifies Chunk()`code, Chunk()`lines, this`compilers
      ensures c == old(Current()) && compilers == old(compilers)[..|old(compilers)| - 1]
      ensures RustloxCompiler.Valid(c) && c.chunk.Valid() && c.chunk.code == old(Chunk().code) + [RC.OpByte(RC.Op.Nil), RC.OpByte(RC.Op.Return)]
      ensures compilers != [] ==> StackValid(compilers)
    {
      EmitReturn();
      c := Current();
      compilers := compilers[..|compilers| - 1];
    }

    // -------------------------------------------------------------------
    // Expressions. Every arm keeps the wrapper valid and the current
    // compiler in place, only appends to the code and the pool (patches
    // rewrite placeholders the arm emitted itself), only grows the stack
    // of compilers, and reports at most once, and only when it fails.

    /** The upvalue step of `get_arg`: `resolve_upvalue` on the stack of
        compilers, which may capture variables of enclosing functions. */
    method Capture(name: string) returns (r: Result<Option<byte>, string>)
      requires Valid()
      modifies this`compilers
      ensures Valid() && Extends(old(compilers), compilers) && Chunk() == old(Chunk())
      ensures r == Ok(None) ==> compilers == old(compilers) && Unbound(compilers[..|compilers| - 1], name)
      ensures |compilers| == 1 ==> r == Ok(None)
      ensures Found(r, compilers)
    {
      var after;
      r, after := ResolveUpvalue(compilers, name);
      assert Grows(compilers[|compilers| - 1], after[|after| - 1]);
      compilers := after;
    }

    /** `get_arg`: the slot of a local of the current function, else the
        index of an upvalue, else the pool index of the name as a global;
        a resolution error is reported with the name. */
    method GetArg(name: string, local: RC.Op, upvalue: RC.Op, global: RC.Op) returns (st: Status, op: RC.Op, arg: byte)
      requires Valid()
      modifies this`compilers, this`reports, Chunk()`constants, strings
      ensures Valid() && st != Panicked && Extends(old(compilers), compilers)
      ensures old(Chunk().constants) <= Chunk().constants
      ensures old(reports) <= reports && |reports| <= |old(reports)| + 1 && (st == Compiled ==> reports == old(reports))
      ensures st == Compiled ==>
        Resolution(old(compilers), compilers, Chunk().constants, strings.strings, |old(Chunk().constants)|, name, local, upvalue, global, op, arg)
      ensures var l := ResolveLocalSpec(old(Current().locals), name);
        (l.Ok? && l.value.Some? ==> st == Compiled)
        && (l.Err? ==> st == Failed && reports == old(reports) + [CompileReport(Some(name), l.error)])
        && (l == Ok(None) && |compilers| == 1 && st != Compiled ==> |old(Chunk().constants)| >= 256)
    {
      ExtendsRefl(compilers);
      var resolved := ResolveLocal(Current().locals, name);
      if resolved.Err? {
        st := Error(Some(name), resolved.error);
        return st, local, 0;
      }
      if resolved.value.Some? {
        return Compiled, local, resolved.value.value;
      }
      st, op, arg := NonLocalArg(name, upvalue, global);
    }

    /** The rest of `get_arg`, for a name that is not a local of the
        current function: an upvalue, else a global. */
    method NonLocalArg(name: string, upvalue: RC.Op, global: RC.Op) returns (st: Status, op: RC.Op, arg: byte)
      requires Valid() && ResolveLocalSpec(Current().locals, name) == Ok(None)
      modifies this`compilers, this`reports, Chunk()`constants, strings
      ensures Valid() && st != Panicked && Extends(old(compilers), compilers)
      ensures old(Chunk().constants) <= Chunk().constants
      ensures old(reports) <= reports && |reports| <= |old(reports)| + 1 && (st == Compiled ==> reports == old(reports))
      ensures st == Compiled ==>
        Resolution(old(compilers), compilers, Chunk().constants, strings.strings, |old(Chunk().constants)|, name, upvalue, upvalue, global, op, arg)
      ensures st != Compiled && |compilers| == 1 ==> |old(Chunk().constants)| >= 256
    {
      var captured := Capture(name);
      st, op, arg := CapturedArg(name, captured, upvalue, global);
    }

    /** What `get_arg` makes of the result of `resolve_upvalue`: an error
        is reported, an upvalue is the argument, and no upvalue leaves the
        name to the globals. */
    method CapturedArg(name: string, captured: Result<Option<byte>, string>, upvalue: RC.Op, global: RC.Op)
      returns (st: Status, op: RC.Op, arg: byte)
      requires Valid() && Found(captured, compilers) && (|compilers| == 1 ==> captured == Ok(None))
      requires captured == Ok(None) ==>
        Unbound(compilers[..|compilers| - 1], name) && ResolveLocalSpec(Current().locals, name) == Ok(None)
      modifies this`reports, Chunk()`constants, strings
      ensures Valid() && st != Panicked && old(Chunk().constants) <= Chunk().constants
      ensures old(reports) <= reports && |reports| <= |old(reports)| + 1 && (st == Compiled ==> reports == old(reports))
      ensures st == Compiled ==> captured.Ok?
      ensures st == Compiled && captured.Ok? && captured.value.Some? ==>
        op == upvalue && arg as nat < |compilers[|compilers| - 1].upvalues|
      ensures st == Compiled && captured == Ok(None) ==>
        op == global && Unbound(compilers, name) && arg as nat == |old(Chunk().constants)|
        && Names(Chunk().constants, strings.strings, arg as nat, name)
      ensures st != Compiled && |compilers| == 1 ==> |old(Chunk().constants)| >= 256
    {
      if captured.Err? {
        st := Error(Some(name), captured.error);
        return st, upvalue, 0;
      }
      if captured.value.Some? {
        return Compiled, upvalue, captured.value.value;
      }
      st, arg := GlobalArg(name);
      op := global;
    }

    /** The last step of `get_arg`: the name as a global, the pool index of
        its interned text. */
    method GlobalArg(name: string) returns (st: Status, arg: byte)
      requires Valid() && Unbound(compilers[..|compilers| - 1], name)
      requires ResolveLocalSpec(Current().locals, name) == Ok(None)
      modifies Chunk()`constants, strings
      ensures Valid() && st != Panicked && old(Chunk().constants) <= Chunk().constants
      ensures st == Compiled <==> |old(Chunk().constants)| < 256
      ensures st == Compiled ==> (Unbound(compilers, name) && arg as nat == |old(Chunk().constants)|
        && Names(Chunk().constants, strings.strings, arg as nat, name))
    {
      UnboundCurrent(compilers, name);
      var constant := IdentifierConstant(name);
      if constant.Err? {
        return Failed, 0;
      }
      return Compiled, constant.value;
    }

    /** `expression`: dispatch on the node; a grouping compiles its
        inner expression. */
    method Expression(e: A.Expr) returns (st: Status)
      requires Valid()
      modifies this, Chunk(), strings
      ensures Valid() && Extends(old(compilers), compilers)
      ensures old(Chunk().code) <= Chunk().code && old(Chunk().constants) <= Chunk().constants
      ensures old(reports) <= reports && |reports| <= |old(reports)| + 1 && (st == Compiled ==> reports == old(reports))
      decreases e, 2
    {
      ExtendsRefl(compilers);
      match e
      case Assign(_, _) => st := Assignment(e);
      case Binary(_, _, _) => st := Binary(e);
      case Call(_, _, _) => st := Call(e);
      case Literal(_) => st := Literal(e);
      case Logical(_, _, _) => st := Logical(e);
      case Unary(_, _) => st := Unary(e);
      case Variable(_) => st := Variable(e);
      case Grouping(inner) => st := Expression(inner);
    }

    /** `literal`: `nil`, `false` and `true` are single opcodes; a number
        is parsed and a string loses its quotes before joining the pool; a
        string lexeme shorter than its two quotes and any other token kind
        panic. */
    method Literal(e: A.Expr) returns (st: Status)
      requires Valid() && e.Literal?
      modifies Chunk()`code, Chunk()`lines, Chunk()`constants, strings, this`currentLine
      ensures Valid() && currentLine == e.token.line
      ensures old(Chunk().code) <= Chunk().code && old(Chunk().constants) <= Chunk().constants
      ensures var kind := e.token.kind; var lexeme := e.token.lexeme; var n := |old(Chunk().constants)|;
        (KeywordOp(kind).Some? ==> (st == Compiled
           && Chunk().code == old(Chunk().code) + [RC.OpByte(KeywordOp(kind).value)]))
        && (kind == S.Number ==> ((st == Compiled <==> n < 256)
           && (st == Compiled ==> (Chunk().code == old(Chunk().code) + [RC.OpByte(RC.Op.Constant), n as byte]
                 && Chunk().constants == old(Chunk().constants) + [RV.Number(ops.parse(lexeme))]))))
        && (kind == S.String && |lexeme| < 2 ==> st == Panicked && Chunk().code == old(Chunk().code))
        && (kind == S.String && |lexeme| >= 2 ==> ((st == Compiled <==> n < 256)
           && (st == Compiled ==> (Chunk().code == old(Chunk().code) + [RC.OpByte(RC.Op.Constant), n as byte]
                 && NamesConstant(n, lexeme[1..|lexeme| - 1])))))
        && (KeywordOp(kind).None? && kind != S.Number && kind != S.String ==> st == Panicked)
      decreases e, 1
    {
      currentLine := e.token.line;
      var keyword := KeywordOp(e.token.kind);
      if keyword.Some? {
        EmitOp(keyword.value);
        return Compiled;
      }
      if e.token.kind == S.Number {
        st := EmitConstant(RV.Number(ops.parse(e.token.lexeme)));
        return;
      }
      if e.token.kind != S.String || |e.token.lexeme| < 2 {
        return Panicked;
      }
      var handle := LoxString.FromStr(strings, e.token.lexeme[1..|e.token.lexeme| - 1]);
      st := EmitConstant(RV.String(handle));
    }

    /** `variable`: the get instruction `get_arg` chooses, at the line of
        the name. */
    method Variable(e: A.Expr) returns (st: Status)
      requires Valid() && e.Variable?
      modifies this, Chunk(), strings
      ensures Valid() && currentLine == e.name.line && st != Panicked && Extends(old(compilers), compilers)
      ensures old(Chunk().code) <= Chunk().code && old(Chunk().constants) <= Chunk().constants
      ensures old(reports) <= reports && |reports| <= |old(reports)| + 1 && (st == Compiled ==> reports == old(reports))
      ensures st == Compiled ==> exists op: RC.Op, arg: byte ::
        Resolution(old(compilers), compilers, Chunk().constants, strings.strings, |old(Chunk().constants)|, e.name.lexeme,
                   RC.Op.GetLocal, RC.Op.GetUpvalue, RC.Op.GetGlobal, op, arg)
        && Chunk().code == old(Chunk().code) + [RC.OpByte(op), arg]
      ensures var l := ResolveLocalSpec(old(Current().locals), e.name.lexeme);
        (l.Ok? && l.value.Some? ==> st == Compiled)
        && (l.Err? ==> st == Failed && reports == old(reports) + [CompileReport(Some(e.name.lexeme), l.error)])
        && (l == Ok(None) && |compilers| == 1 && st != Compiled ==> |old(Chunk().constants)| >= 256)
      decreases e, 1
    {
      currentLine := e.name.line;
      var op, arg;
      st, op, arg := GetArg(e.name.lexeme, RC.Op.GetLocal, RC.Op.GetUpvalue, RC.Op.GetGlobal);
      if st != Compiled {
        return;
      }
      EmitBytes(RC.OpByte(op), arg);
    }

    /** `unary`: the operand, then `Not` for `!` and `Negate` for `-`;
        any other operator panics once the operand is compiled. */
    method Unary(e: A.Expr) returns (st: Status)
      requires Valid() && e.Unary?
      modifies this, Chunk(), strings
      ensures Valid() && Extends(old(compilers), compilers)
      ensures old(Chunk().code) <= Chunk().code && old(Chunk().constants) <= Chunk().constants
      ensures old(reports) <= reports && |reports| <= |old(reports)| + 1 && (st == Compiled ==> reports == old(reports))
      ensures st == Compiled ==> (e.operator.kind == S.Bang || e.operator.kind == S.Minus)
      ensures st == Compiled ==> EndsWith(Chunk().code, [RC.OpByte(if e.operator.kind == S.Bang then RC.Op.Not else RC.Op.Negate)])
      decreases e, 1
    {
      currentLine := e.operator.line;
      st := Expression(e.right);
      if st != Compiled {
        return;
      }
      if e.operator.kind == S.Bang {
        EmitOp(RC.Op.Not);
      } else if e.operator.kind == S.Minus {
        EmitOp(RC.Op.Negate);
      } else {
        return Panicked;
      }
    }

    /** `binary`: both operands, left first, then the opcodes `BinaryOps`
        gives for the operator; any other operator panics. */
    method Binary(e: A.Expr) returns (st: Status)
      requires Valid() && e.Binary?
      modifies this, Chunk(), strings
      ensures Valid() && Extends(old(compilers), compilers)
      ensures old(Chunk().code) <= Chunk().code && old(Chunk().constants) <= Chunk().constants
      ensures old(reports) <= reports && |reports| <= |old(reports)| + 1 && (st == Compiled ==> reports == old(reports))
      ensures st == Compiled ==> BinaryOperator(e.operator.kind)
      ensures st == Compiled ==> EndsWith(Chunk().code, OpBytes(BinaryOps(e.operator.kind).value))
      decreases e, 1
    {
      st := Expression(e.left);
      if st != Compiled {
        return;
      }
      ghost var mid := compilers;
      st := Expression(e.right);
      ExtendsTrans(old(compilers), mid, compilers);
      if st != Compiled {
        return;
      }
      currentLine := e.operator.line;
      st := EmitBinary(e.operator.kind);
    }

    /** The operator half of `binary`: the opcodes `BinaryOps` gives, or a
        panic for a token that is not a binary operator. */
    method EmitBinary(kind: S.TokenKind) returns (st: Status)
      requires Valid()
      modifies Chunk()`code, Chunk()`lines
      ensures Valid() && st != Failed && (st == Compiled <==> BinaryOperator(kind))
      ensures st == Compiled ==> Chunk().code == old(Chunk().code) + OpBytes(BinaryOps(kind).value)
      ensures st == Panicked ==> Chunk().code == old(Chunk().code)
    {
      BinaryLowering(kind);
      var lowered := BinaryOps(kind);
      if lowered.None? {
        return Panicked;
      }
      if |lowered.value| == 1 {
        EmitOp(lowered.value[0]);
      } else {
        EmitOps(lowered.value[0], lowered.value[1]);
      }
      assert OpBytes(lowered.value) == if |lowered.value| == 1 then [RC.OpByte(lowered.value[0])]
        else [RC.OpByte(lowered.value[0]), RC.OpByte(lowered.value[1])];
      st := Compiled;
    }

    /** `call`: the callee, the arguments in order, then `Call` with the
        argument count as a byte (`as u8`, which truncates). */
    method Call(e: A.Expr) returns (st: Status)
      requires Valid() && e.Call?
      modifies this, Chunk(), strings
      ensures Valid() && Extends(old(compilers), compilers)
      ensures old(Chunk().code) <= Chunk().code && old(Chunk().constants) <= Chunk().constants
      ensures old(reports) <= reports && |reports| <= |old(reports)| + 1 && (st == Compiled ==> reports == old(reports))
      ensures st == Compiled ==> EndsWith(Chunk().code, [RC.OpByte(RC.Op.Call), (|e.args| % 256) as byte])
      decreases e, 1
    {
      st := Expression(e.callee);
      if st != Compiled {
        return;
      }
      var i := 0;
      while i < |e.args|
        invariant 0 <= i <= |e.args| && Valid() && Extends(old(compilers), compilers)
        invariant old(Chunk().code) <= Chunk().code && old(Chunk().constants) <= Chunk().constants
        invariant reports == old(reports)
      {
        ghost var before := compilers;
        st := Expression(e.args[i]);
        ExtendsTrans(old(compilers), before, compilers);
        if st != Compiled {
          return;
        }
        i := i + 1;
      }
      EmitBytes(RC.OpByte(RC.Op.Call), (|e.args| % 256) as byte);
      st := Compiled;
    }

    /** `logical`: `and` and `or`; any other operator panics. */
    method Logical(e: A.Expr) returns (st: Status)
      requires Valid() && e.Logical?
      modifies this, Chunk(), strings
      ensures Valid() && Extends(old(compilers), compilers)
      ensures old(Chunk().code) <= Chunk().code && old(Chunk().constants) <= Chunk().constants
      ensures old(reports) <= reports && |reports| <= |old(reports)| + 1 && (st == Compiled ==> reports == old(reports))
      ensures e.operator.kind != S.And && e.operator.kind != S.Or ==> st == Panicked
      ensures st == Compiled && e.operator.kind == S.And ==> exists j :: And(old(Chunk().code), Chunk().code, j)
      ensures st == Compiled && e.operator.kind == S.Or ==> exists j :: Or(old(Chunk().code), Chunk().code, j)
      decreases e, 1
    {
      ExtendsRefl(compilers);
      if e.operator.kind == S.And {
        st := AndExpr(e);
      } else if e.operator.kind == S.Or {
        st := OrExpr(e);
      } else {
        st := Panicked;
      }
    }

    /** `and`: the left operand; `JumpIfFalse` over the rest, which pops
        the left value and evaluates the right operand. */
    method AndExpr(e: A.Expr) returns (st: Status)
      requires Valid() && e.Logical?
      modifies this, Chunk(), strings
      ensures Valid() && Extends(old(compilers), compilers)
      ensures old(Chunk().code) <= Chunk().code && old(Chunk().constants) <= Chunk().constants
      ensures old(reports) <= reports && |reports| <= |old(reports)| + 1 && (st == Compiled ==> reports == old(reports))
      ensures st == Compiled ==> exists j :: And(old(Chunk().code), Chunk().code, j)
      decreases e, 0
    {
      st := Expression(e.left);
      if st != Compiled {
        return;
      }
      ghost var mid, c1 := compilers, Chunk().code;
      st := AndRight(e.right);
      ExtendsTrans(old(compilers), mid, compilers);
      assert st == Compiled ==> And(old(Chunk().code), Chunk().code, |c1|);
    }

    /** The jump of `and`, to be patched, and the `Pop` of the left value
        before the right operand. */
    method AndJump() returns (jump: nat)
      requires Valid()
      modifies Chunk()`code, Chunk()`lines
      ensures Valid() && Chunk().code == old(Chunk().code) + [RC.OpByte(RC.Op.JumpIfFalse), 0xff, 0xff, RC.OpByte(RC.Op.Pop)]
      ensures jump == |old(Chunk().code)| + 1
    {
      jump := EmitJump(RC.Op.JumpIfFalse);
      EmitOp(RC.Op.Pop);
    }

    /** The part of `and` after the left operand, which starts at the end
        of the code. */
    method AndRight(right: A.Expr) returns (st: Status)
      requires Valid()
      modifies this, Chunk(), strings
      ensures Valid() && Extends(old(compilers), compilers)
      ensures old(Chunk().code) <= Chunk().code && old(Chunk().constants) <= Chunk().constants
      ensures old(reports) <= reports && |reports| <= |old(reports)| + 1 && (st == Compiled ==> reports == old(reports))
      ensures st == Compiled ==> And(old(Chunk().code), Chunk().code, |old(Chunk().code)|)
      decreases right, 3
    {
      var jump := AndJump();
      st := Expression(right);
      if st != Compiled {
        return;
      }
      ghost var body := Chunk().code;
      st := PatchJump(jump);
      if st == Compiled {
        AndLands(old(Chunk().code), old(Chunk().code), body);
      }
    }

    /** `or`: the left operand; `JumpIfFalse` to the right operand, behind
        a `Jump` to the end which keeps the left value. */
    method OrExpr(e: A.Expr) returns (st: Status)
      requires Valid() && e.Logical?
      modifies this, Chunk(), strings
      ensures Valid() && Extends(old(compilers), compilers)
      ensures old(Chunk().code) <= Chunk().code && old(Chunk().constants) <= Chunk().constants
      ensures old(reports) <= reports && |reports| <= |old(reports)| + 1 && (st == Compiled ==> reports == old(reports))
      ensures st == Compiled ==> exists j :: Or(old(Chunk().code), Chunk().code, j)
      decreases e, 0
    {
      st := Expression(e.left);
      if st != Compiled {
        return;
      }
      ghost var mid, c1 := compilers, Chunk().code;
      st := OrRight(e.right);
      ExtendsTrans(old(compilers), mid, compilers);
      assert st == Compiled ==> Or(old(Chunk().code), Chunk().code, |c1|);
    }

    /** The two jumps of `or`, the first patched at once to land on the
        `Pop` that follows. */
    method OrJumps() returns (st: Status, endJump: nat)
      requires Valid()
      modifies Chunk()`code, Chunk()`lines, this`reports
      ensures Valid() && st != Panicked
      ensures old(Chunk().code) <= Chunk().code && old(reports) <= reports && |reports| <= |old(reports)| + 1
      ensures st == Compiled ==> reports == old(reports)
      ensures var jumps := old(Chunk().code) + [RC.OpByte(RC.Op.JumpIfFalse), 0xff, 0xff, RC.OpByte(RC.Op.Jump), 0xff, 0xff];
        var start := |old(Chunk().code)|;
        (st == Compiled <==> PatchedCode(jumps, start + 1).Ok?)
        && (st == Compiled ==> endJump == start + 4 && Chunk().code == PatchedCode(jumps, start + 1).value + [RC.OpByte(RC.Op.Pop)])
    {
      ghost var c1 := Chunk().code;
      var elseJump := EmitJump(RC.Op.JumpIfFalse);
      endJump := EmitJump(RC.Op.Jump);
      assert Chunk().code == c1 + [RC.OpByte(RC.Op.JumpIfFalse), 0xff, 0xff, RC.OpByte(RC.Op.Jump), 0xff, 0xff];
      st := PatchJump(elseJump);
      if st != Compiled {
        return;
      }
      PatchKeepsPrefix(c1, c1 + [RC.OpByte(RC.Op.JumpIfFalse), 0xff, 0xff, RC.OpByte(RC.Op.Jump), 0xff, 0xff], |c1| + 1);
      EmitOp(RC.Op.Pop);
    }

    /** The part of `or` after the left operand, which starts at the end of
        the code. */
    method OrRight(right: A.Expr) returns (st: Status)
      requires Valid()
      modifies this, Chunk(), strings
      ensures Valid() && Extends(old(compilers), compilers)
      ensures old(Chunk().code) <= Chunk().code && old(Chunk().constants) <= Chunk().constants
      ensures old(reports) <= reports && |reports| <= |old(reports)| + 1 && (st == Compiled ==> reports == old(reports))
      ensures st == Compiled ==> Or(old(Chunk().code), Chunk().code, |old(Chunk().code)|)
      decreases right, 3
    {
      var endJump;
      st, endJump := OrJumps();
      if st != Compiled {
        return;
      }
      st := Expression(right);
      if st != Compiled {
        return;
      }
      ghost var body := Chunk().code;
      st := PatchJump(endJump);
      if st == Compiled {
        ghost var c1 := old(Chunk().code);
        OrLands(c1, c1, c1 + [RC.OpByte(RC.Op.JumpIfFalse), 0xff, 0xff, RC.OpByte(RC.Op.Jump), 0xff, 0xff], body);
      }
    }

    /** `assignment`: the value, then the set instruction `get_arg`
        chooses. */
    method Assignment(e: A.Expr) returns (st: Status)
      requires Valid() && e.Assign?
      modifies this, Chunk(), strings
      ensures Valid() && Extends(old(compilers), compilers)
      ensures old(Chunk().code) <= Chunk().code && old(Chunk().constants) <= Chunk().constants
      ensures old(reports) <= reports && |reports| <= |old(reports)| + 1 && (st == Compiled ==> reports == old(reports))
      ensures st == Compiled ==> exists mid: seq<Compiler>, pool: nat, op: RC.Op, arg: byte ::
        Extends(old(compilers), mid)
        && Resolution(mid, compilers, Chunk().constants, strings.strings, pool, e.name.lexeme,
                      RC.Op.SetLocal, RC.Op.SetUpvalue, RC.Op.SetGlobal, op, arg)
        && EndsWith(Chunk().code, [RC.OpByte(op), arg])
      decreases e, 1
    {
      st := Expression(e.value);
      if st != Compiled {
        return;
      }
      ghost var mid := compilers;
      st := SetVariable(e.name.lexeme);
      ExtendsTrans(old(compilers), mid, compilers);
    }

    /** The set instruction of `assignment`, once the value is compiled. */
    method SetVariable(name: string) returns (st: Status)
      requires Valid()
      modifies this, Chunk(), strings
      ensures Valid() && st != Panicked && Extends(old(compilers), compilers)
      ensures old(Chunk().code) <= Chunk().code && old(Chunk().constants) <= Chunk().constants
      ensures old(reports) <= reports && |reports| <= |old(reports)| + 1 && (st == Compiled ==> reports == old(reports))
      ensures st == Compiled ==> exists op: RC.Op, arg: byte ::
        Resolution(old(compilers), compilers, Chunk().constants, strings.strings, |old(Chunk().constants)|, name,
                   RC.Op.SetLocal, RC.Op.SetUpvalue, RC.Op.SetGlobal, op, arg)
        && Chunk().code == old(Chunk().code) + [RC.OpByte(op), arg]
    {
      var op, arg;
      st, op, arg := GetArg(name, RC.Op.SetLocal, RC.Op.SetUpvalue, RC.Op.SetGlobal);
      if st != Compiled {
        return;
      }
      EmitBytes(RC.OpByte(op), arg);
    }

    // -------------------------------------------------------------------
    // Statements. Every arm keeps the wrapper valid and reports at most
    // once, and only when it fails. One that compiles keeps the current
    // compiler's chunk, only appends to its code and pool (patches rewrite
    // placeholders the arm emitted itself) and changes the stack of
    // compilers only as `Scoped` allows. One that fails inside a function
    // declaration leaves that function's compiler current, as the source
    // does.

    /** `statement`: dispatch on the node. `break` and `continue` have no
        arm (their compilation is commented out), so they fail without a
        report. */
    method Statement(s: A.Stmt) returns (st: Status)
      requires Valid()
      modifies this, Chunk(), strings
      ensures Valid() && (Chunk() == old(Chunk()) || fresh(Chunk()))
      ensures old(reports) <= reports && |reports| <= |old(reports)| + 1 && (st == Compiled ==> reports == old(reports))
      ensures st == Compiled ==>
        Scoped(old(compilers), compilers) && old(Chunk().code) <= Chunk().code && old(Chunk().constants) <= Chunk().constants
      ensures s.Break? || s.Continue? ==> st == Failed && reports == old(reports) && compilers == old(compilers)
      decreases s, 7
    {
      match s
      case Block(_) =>
        st := Block(s);
        if st == Compiled {
          ExtendsScoped(old(compilers), compilers);
        }
      case Break(_) => st := Failed;
      case Continue(_) => st := Failed;
      case Expression(_) => st := ExpressionStatement(s);
      case For(_, _, _, _) =>
        st := For(s);
        if st == Compiled {
          ExtendsScoped(old(compilers), compilers);
        }
      case Function(_, _, _, _, _) => st := FunDeclaration(s);
      case If(_, _, _) => st := If(s);
      case Print(_, _) => st := Print(s);
      case Return(_, _) => st := Return(s);
      case Var(_, _) => st := Var(s);
      case While(_, _) => st := While(s);
    }

    /** The statements of a block or of a function body, in order, up to
        the first that does not compile. */
    method Statements(s: A.Stmt) returns (st: Status)
      requires Valid() && (s.Block? || s.Function?)
      modifies this, Chunk(), strings
      ensures Valid() && (Chunk() == old(Chunk()) || fresh(Chunk()))
      ensures old(reports) <= reports && |reports| <= |old(reports)| + 1 && (st == Compiled ==> reports == old(reports))
      ensures st == Compiled ==>
        Scoped(old(compilers), compilers) && old(Chunk().code) <= Chunk().code && old(Chunk().constants) <= Chunk().constants
      decreases s, 1
    {
      var body := if s.Block? then s.statements else s.funBody;
      ExtendsRefl(compilers);
      ExtendsScoped(compilers, compilers);
      st := Compiled;
      var i := 0;
      while i < |body|
        invariant 0 <= i <= |body| && Valid() && Chunk() == old(Chunk()) && reports == old(reports)
        invariant Scoped(old(compilers), compilers) && old(Chunk().code) <= Chunk().code && old(Chunk().constants) <= Chunk().constants
      {
        ghost var before := compilers;
        assert body[i] < s;
        st := Statement(body[i]);
        if st != Compiled {
          return;
        }
        ScopedTrans(old(compilers), before, compilers);
        i := i + 1;
      }
    }

    /** `block_statement`: the statements in a new scope, whose locals are
        popped at its end, so that a block that compiles leaves the stack
        of compilers as it found it, up to captures. Popping a local still
        being initialized panics. */
    method Block(s: A.Stmt) returns (st: Status)
      requires Valid() && s.Block?
      modifies this, Chunk(), strings
      ensures Valid() && (Chunk() == old(Chunk()) || fresh(Chunk()))
      ensures old(reports) <= reports && |reports| <= |old(reports)| + 1 && (st == Compiled ==> reports == old(reports))
      ensures st == Compiled ==>
        Extends(old(compilers), compilers) && old(Chunk().code) <= Chunk().code && old(Chunk().constants) <= Chunk().constants
      decreases s, 4
    {
      BeginScope();
      ghost var deeper := compilers;
      st := Statements(s);
      if st != Compiled {
        return;
      }
      st := CloseScope(old(compilers));
    }

    /** `expression_statement`: the expression, then `Pop`. */
    method ExpressionStatement(s: A.Stmt) returns (st: Status)
      requires Valid() && s.Expression?
      modifies this, Chunk(), strings
      ensures Valid() && Chunk() == old(Chunk())
      ensures old(reports) <= reports && |reports| <= |old(reports)| + 1 && (st == Compiled ==> reports == old(reports))
      ensures st == Compiled ==>
        Scoped(old(compilers), compilers) && old(Chunk().code) <= Chunk().code && old(Chunk().constants) <= Chunk().constants
      ensures st == Compiled ==> EndsWith(Chunk().code, [RC.OpByte(RC.Op.Pop)])
    {
      st := Expression(s.expression);
      ExtendsScoped(old(compilers), compilers);
      if st != Compiled {
        return;
      }
      EmitOp(RC.Op.Pop);
    }

    /** `print_statement`: the expression, then `Print`. */
    method Print(s: A.Stmt) returns (st: Status)
      requires Valid() && s.Print?
      modifies this, Chunk(), strings
      ensures Valid() && Chunk() == old(Chunk())
      ensures old(reports) <= reports && |reports| <= |old(reports)| + 1 && (st == Compiled ==> reports == old(reports))
      ensures st == Compiled ==>
        Scoped(old(compilers), compilers) && old(Chunk().code) <= Chunk().code && old(Chunk().constants) <= Chunk().constants
      ensures st == Compiled ==> EndsWith(Chunk().code, [RC.OpByte(RC.Op.Print)])
    {
      currentLine := s.keyword.line;
      st := Expression(s.expression);
      ExtendsScoped(old(compilers), compilers);
      if st != Compiled {
        return;
      }
      EmitOp(RC.Op.Print);
    }

    /** `return_statement`: the value, or `Nil` when there is none, then
        `Return`. */
    method Return(s: A.Stmt) returns (st: Status)
      requires Valid() && s.Return?
      modifies this, Chunk(), strings
      ensures Valid() && Chunk() == old(Chunk())
      ensures old(reports) <= reports && |reports| <= |old(reports)| + 1 && (st == Compiled ==> reports == old(reports))
      ensures st == Compiled ==>
        Scoped(old(compilers), compilers) && old(Chunk().code) <= Chunk().code && old(Chunk().constants) <= Chunk().constants
      ensures st == Compiled ==> EndsWith(Chunk().code, [RC.OpByte(RC.Op.Return)])
      ensures s.value.None? ==>
        st == Compiled && compilers == old(compilers)
        && Chunk().code == old(Chunk().code) + [RC.OpByte(RC.Op.Nil), RC.OpByte(RC.Op.Return)]
    {
      currentLine := s.keyword.line;
      if s.value.Some? {
        st := Expression(s.value.value);
        if st != Compiled {
          return;
        }
      } else {
        ExtendsRefl(compilers);
        EmitOp(RC.Op.Nil);
        st := Compiled;
      }
      ExtendsScoped(old(compilers), compilers);
      EmitOp(RC.Op.Return);
    }

    /** `var_declaration`: the name is declared, the initializer (or `Nil`)
        compiled, then the variable defined: inside a scope a new
        initialized local of the name, at the top level `DefineGlobal`
        with the pool index of the name. */
    method Var(s: A.Stmt) returns (st: Status)
      requires Valid() && s.Var?
      modifies this, Chunk(), strings
      ensures Valid() && Chunk() == old(Chunk())
      ensures old(reports) <= reports && |reports| <= |old(reports)| + 1 && (st == Compiled ==> reports == old(reports))
      ensures st == Compiled ==>
        Scoped(old(compilers), compilers) && old(Chunk().code) <= Chunk().code && old(Chunk().constants) <= Chunk().constants
      ensures st == Compiled && old(Current().scopeDepth) > 0 ==>
        |Current().locals| == |old(Current().locals)| + 1 && Current().locals[|Current().locals| - 1].name == s.name.lexeme
      ensures st == Compiled && old(Current().scopeDepth) == 0 ==>
        |old(Chunk().constants)| < 256
        && EndsWith(Chunk().code, [RC.OpByte(RC.Op.DefineGlobal), |old(Chunk().constants)| as byte])
    {
      ghost var a := compilers;
      var global;
      st, global := ParseVariable(s.name);
      if st != Compiled {
        return;
      }
      ghost var p := compilers;
      ghost var code, constants := Chunk().code, Chunk().constants;
      assert Chunk() == old(Chunk()) && code == old(Chunk().code) && old(Chunk().constants) <= constants;
      st := VarInit(s.initializer);
      if st != Compiled {
        return;
      }
      assert code <= Chunk().code && constants <= Chunk().constants;
      DefineDeclared(global, a, p, s.name.lexeme);
    }

    /** `define_variable` after a declaration by `parse_variable` (`a` to
        `p`) and what compiled since (`p` to now): in a scope the declared
        local, now initialized, is the newest, and at the top level the
        global is defined. */
    method DefineDeclared(global: byte, ghost a: seq<Compiler>, ghost p: seq<Compiler>, ghost name: string)
      requires Valid() && |a| == |compilers| && |a[|a| - 1].locals| >= 1 && Extends(p, compilers)
      requires a[|a| - 1].scopeDepth == 0 ==> a == p
      requires a[|a| - 1].scopeDepth > 0 ==> p == a[|a| - 1 := a[|a| - 1].(locals := a[|a| - 1].locals + [Local(name, None, false)])]
      modifies this`compilers, Chunk()`code, Chunk()`lines
      ensures Valid() && Chunk() == old(Chunk()) && Scoped(a, compilers)
      ensures a[|a| - 1].scopeDepth > 0 ==>
        Chunk().code == old(Chunk().code) && |Current().locals| == |a[|a| - 1].locals| + 1
        && Current().locals[|Current().locals| - 1].name == name
      ensures a[|a| - 1].scopeDepth == 0 ==> Chunk().code == old(Chunk().code) + [RC.OpByte(RC.Op.DefineGlobal), global]
    {
      ghost var e := compilers;
      var n := |e|;
      assert Grows(p[n - 1], e[n - 1]);
      DefineVariable(global);
      if a[n - 1].scopeDepth > 0 {
        MarkScoped(a, p, e, compilers, name);
        SameShapeAt(p[n - 1].locals, e[n - 1].locals, |p[n - 1].locals| - 1);
      } else {
        ExtendsScoped(a, compilers);
      }
    }

    /** The initializer of `var_declaration`, `Nil` when there is none. */
    method VarInit(initializer: Option<A.Expr>) returns (st: Status)
      requires Valid()
      modifies this, Chunk(), strings
      ensures Valid() && Chunk() == old(Chunk()) && Extends(old(compilers), compilers)
      ensures old(reports) <= reports && |reports| <= |old(reports)| + 1 && (st == Compiled ==> reports == old(reports))
      ensures old(Chunk().code) <= Chunk().code && old(Chunk().constants) <= Chunk().constants
      ensures initializer.None? ==> st == Compiled && Chunk().code == old(Chunk().code) + [RC.OpByte(RC.Op.Nil)]
    {
      if initializer.Some? {
        st := Expression(initializer.value);
      } else {
        ExtendsRefl(compilers);
        EmitOp(RC.Op.Nil);
        st := Compiled;
      }
    }

    /** `if_statement`: the condition, then the branches as `IfShape`
        lays them out. */
    method If(s: A.Stmt) returns (st: Status)
      requires Valid() && s.If?
      modifies this, Chunk(), strings
      ensures Valid() && (Chunk() == old(Chunk()) || fresh(Chunk()))
      ensures old(reports) <= reports && |reports| <= |old(reports)| + 1 && (st == Compiled ==> reports == old(reports))
      ensures st == Compiled ==>
        Scoped(old(compilers), compilers) && old(Chunk().code) <= Chunk().code && old(Chunk().constants) <= Chunk().constants
      ensures st == Compiled ==> exists j, k :: |old(Chunk().code)| <= j && IfShape(Chunk().code, j, k)
      decreases s, 4
    {
      st := Expression(s.condition);
      if st != Compiled {
        return;
      }
      ghost var mid, c1 := compilers, Chunk().code;
      ExtendsScoped(old(compilers), mid);
      st := IfBranches(s);
      if st == Compiled {
        ScopedTrans(old(compilers), mid, compilers);
        assert exists k :: IfShape(Chunk().code, |c1|, k);
      }
    }

    /** The part of `if` after the condition, which ends the code: the
        jump to the else part, the `Pop` of the condition, and the then
        branch. */
    method IfBranches(s: A.Stmt) returns (st: Status)
      requires Valid() && s.If?
      modifies this, Chunk(), strings
      ensures Valid() && (Chunk() == old(Chunk()) || fresh(Chunk()))
      ensures old(reports) <= reports && |reports| <= |old(reports)| + 1 && (st == Compiled ==> reports == old(reports))
      ensures st == Compiled ==>
        Scoped(old(compilers), compilers) && old(Chunk().code) <= Chunk().code && old(Chunk().constants) <= Chunk().constants
      ensures st == Compiled ==> exists k :: IfShape(Chunk().code, |old(Chunk().code)|, k)
      decreases s, 3
    {
      var elseJump := EmitJump(RC.Op.JumpIfFalse);
      EmitOp(RC.Op.Pop);
      ghost var head := Chunk().code;
      assert head == old(Chunk().code) + [RC.OpByte(RC.Op.JumpIfFalse), 0xff, 0xff, RC.OpByte(RC.Op.Pop)];
      ghost var mid := compilers;
      st := Statement(s.thenBranch);
      if st != Compiled {
        return;
      }
      assert Chunk().code[..|old(Chunk().code)|] == old(Chunk().code) by {
        assert Chunk().code[..|head|] == head;
      }
      ghost var mid2 := compilers;
      st := IfElse(s, elseJump);
      if st == Compiled {
        ScopedTrans(mid, mid2, compilers);
      }
    }

    /** The `Jump` that ends the then branch; the jump to the else part
        patched to land just after it, on the `Pop` of the condition. */
    method IfElse(s: A.Stmt, elseJump: nat) returns (st: Status)
      requires Valid() && s.If? && 1 <= elseJump && elseJump + 3 <= |Chunk().code|
      requires Chunk().code[elseJump - 1] == RC.OpByte(RC.Op.JumpIfFalse) && Chunk().code[elseJump + 2] == RC.OpByte(RC.Op.Pop)
      modifies this, Chunk(), strings
      ensures Valid() && (Chunk() == old(Chunk()) || fresh(Chunk()))
      ensures old(reports) <= reports && |reports| <= |old(reports)| + 1 && (st == Compiled ==> reports == old(reports))
      ensures st == Compiled ==>
        Scoped(old(compilers), compilers) && old(Chunk().constants) <= Chunk().constants
      ensures st == Compiled ==>
        old(Chunk().code)[..elseJump - 1] <= Chunk().code && IfShape(Chunk().code, elseJump - 1, |old(Chunk().code)|)
      decreases s, 2
    {
      ghost var c2 := Chunk().code;
      var thenJump;
      st, thenJump := ElseJump(elseJump);
      if st != Compiled {
        return;
      }
      ghost var body;
      st, body := IfTail(s, thenJump);
      if st == Compiled {
        IfLands(c2, elseJump - 1, body);
      }
    }

    /** The jump over the else part, the jump to it patched, and the `Pop`
        of the condition where it lands. */
    method ElseJump(elseJump: nat) returns (st: Status, thenJump: nat)
      requires Valid() && elseJump + 2 <= |Chunk().code|
      modifies Chunk()`code, Chunk()`lines, this`reports
      ensures Valid() && st != Panicked
      ensures old(reports) <= reports && |reports| <= |old(reports)| + 1 && (st == Compiled ==> reports == old(reports))
      ensures var jumps := old(Chunk().code) + [RC.OpByte(RC.Op.Jump), 0xff, 0xff];
        st == Compiled ==>
          thenJump == |old(Chunk().code)| + 1 && PatchedCode(jumps, elseJump).Ok?
          && Chunk().code == PatchedCode(jumps, elseJump).value + [RC.OpByte(RC.Op.Pop)]
    {
      thenJump := EmitJump(RC.Op.Jump);
      st := PatchJump(elseJump);
      if st != Compiled {
        return;
      }
      EmitOp(RC.Op.Pop);
    }

    /** The else part, when there is one, and the jump over it patched. */
    method IfTail(s: A.Stmt, thenJump: nat) returns (st: Status, ghost body: seq<byte>)
      requires Valid() && s.If? && 1 <= thenJump && thenJump + 2 <= |Chunk().code|
      modifies this, Chunk(), strings
      ensures Valid() && (Chunk() == old(Chunk()) || fresh(Chunk()))
      ensures old(reports) <= reports && |reports| <= |old(reports)| + 1 && (st == Compiled ==> reports == old(reports))
      ensures st == Compiled ==>
        Scoped(old(compilers), compilers) && old(Chunk().constants) <= Chunk().constants
      ensures st == Compiled ==>
        old(Chunk().code) <= body && PatchedCode(body, thenJump).Ok? && Chunk().code == PatchedCode(body, thenJump).value
      decreases s, 1
    {
      body := Chunk().code;
      if s.elseBranch.Some? {
        st := Statement(s.elseBranch.value);
        if st != Compiled {
          return;
        }
        body := Chunk().code;
      } else {
        ExtendsRefl(compilers);
        ExtendsScoped(compilers, compilers);
      }
      st := PatchJump(thenJump);
    }

    /** `while_statement`: the condition from `loop_start`, then the body
        and the loop as `WhileShape` lays them out. */
    method While(s: A.Stmt) returns (st: Status)
      requires Valid() && s.While?
      modifies this, Chunk(), strings
      ensures Valid() && (Chunk() == old(Chunk()) || fresh(Chunk()))
      ensures old(reports) <= reports && |reports| <= |old(reports)| + 1 && (st == Compiled ==> reports == old(reports))
      ensures st == Compiled ==>
        Scoped(old(compilers), compilers) && old(Chunk().code) <= Chunk().code && old(Chunk().constants) <= Chunk().constants
      ensures st == Compiled ==> exists j :: WhileShape(Chunk().code, |old(Chunk().code)|, j)
      decreases s, 4
    {
      var loopStart := |Chunk().code|;
      st := Expression(s.condition);
      if st != Compiled {
        return;
      }
      ghost var mid, c1 := compilers, Chunk().code;
      ExtendsScoped(old(compilers), mid);
      st := WhileBody(s, loopStart);
      if st == Compiled {
        ScopedTrans(old(compilers), mid, compilers);
        assert WhileShape(Chunk().code, loopStart, |c1|);
      }
    }

    /** The part of `while` after the condition, which ends the code. */
    method WhileBody(s: A.Stmt, loopStart: nat) returns (st: Status)
      requires Valid() && s.While? && loopStart <= |Chunk().code|
      modifies this, Chunk(), strings
      ensures Valid() && (Chunk() == old(Chunk()) || fresh(Chunk()))
      ensures old(reports) <= reports && |reports| <= |old(reports)| + 1 && (st == Compiled ==> reports == old(reports))
      ensures st == Compiled ==>
        Scoped(old(compilers), compilers) && old(Chunk().code) <= Chunk().code && old(Chunk().constants) <= Chunk().constants
      ensures st == Compiled ==> WhileShape(Chunk().code, loopStart, |old(Chunk().code)|)
      decreases s, 3
    {
      var exitJump := EmitJump(RC.Op.JumpIfFalse);
      EmitOp(RC.Op.Pop);
      ghost var head := Chunk().code;
      assert head == old(Chunk().code) + [RC.OpByte(RC.Op.JumpIfFalse), 0xff, 0xff, RC.OpByte(RC.Op.Pop)];
      st := Statement(s.body);
      if st != Compiled {
        return;
      }
      assert Chunk().code[..|old(Chunk().code)|] == old(Chunk().code) by {
        assert Chunk().code[..|head|] == head;
      }
      st := WhileEnd(loopStart, exitJump);
    }

    /** The end of `while`: the loop back to `loop_start`, the exit jump
        patched, and the `Pop` of the condition it lands on. */
    method WhileEnd(loopStart: nat, exitJump: nat) returns (st: Status)
      requires Valid() && 1 <= exitJump && loopStart <= exitJump - 1 && exitJump + 3 <= |Chunk().code|
      requires Chunk().code[exitJump - 1] == RC.OpByte(RC.Op.JumpIfFalse) && Chunk().code[exitJump + 2] == RC.OpByte(RC.Op.Pop)
      modifies Chunk()`code, Chunk()`lines, this`reports
      ensures Valid() && st != Panicked
      ensures old(reports) <= reports && |reports| <= |old(reports)| + 1 && (st == Compiled ==> reports == old(reports))
      ensures st == Compiled ==>
        old(Chunk().code)[..exitJump - 1] <= Chunk().code && WhileShape(Chunk().code, loopStart, exitJump - 1)
    {
      ghost var c2 := Chunk().code;
      st := EmitLoop(loopStart);
      if st != Compiled {
        return;
      }
      st := PatchJump(exitJump);
      if st != Compiled {
        return;
      }
      EmitOp(RC.Op.Pop);
      WhileLands(c2, loopStart, exitJump - 1);
    }

    /** `for_statement`: a new scope around the initializer and the loop,
        closed at the end like a block's. */
    method For(s: A.Stmt) returns (st: Status)
      requires Valid() && s.For?
      modifies this, Chunk(), strings
      ensures Valid() && (Chunk() == old(Chunk()) || fresh(Chunk()))
      ensures old(reports) <= reports && |reports| <= |old(reports)| + 1 && (st == Compiled ==> reports == old(reports))
      ensures st == Compiled ==>
        Extends(old(compilers), compilers) && old(Chunk().code) <= Chunk().code && old(Chunk().constants) <= Chunk().constants
      decreases s, 5
    {
      BeginScope();
      ghost var here := Chunk();
      assert here == old(Chunk());
      st := ForScope(s);
      if st != Compiled {
        assert Chunk() == here || fresh(Chunk());
        return;
      }
      assert Chunk() == here;
      st := CloseScope(old(compilers));
    }

    /** The initializer, when there is one, and the loop. */
    method ForScope(s: A.Stmt) returns (st: Status)
      requires Valid() && s.For?
      modifies this, Chunk(), strings
      ensures Valid() && (Chunk() == old(Chunk()) || fresh(Chunk()))
      ensures old(reports) <= reports && |reports| <= |old(reports)| + 1 && (st == Compiled ==> reports == old(reports))
      ensures st == Compiled ==>
        Scoped(old(compilers), compilers) && old(Chunk().code) <= Chunk().code && old(Chunk().constants) <= Chunk().constants
      decreases s, 4
    {
      if s.init.Some? {
        st := Statement(s.init.value);
        if st != Compiled {
          return;
        }
      } else {
        ExtendsRefl(compilers);
        ExtendsScoped(compilers, compilers);
      }
      ghost var mid := compilers;
      ghost var target, exitJump;
      st, target, exitJump := ForLoop(s);
      if st == Compiled {
        ScopedTrans(old(compilers), mid, compilers);
      }
    }

    /** The loop of `for`: the condition, the increment and the body, which
        ends with a `Loop` as `ForTail` says, to the increment when there is
        one, else to the condition, else to the body. */
    method ForLoop(s: A.Stmt) returns (st: Status, target: nat, exitJump: Option<nat>)
      requires Valid() && s.For?
      modifies this, Chunk(), strings
      ensures Valid() && (Chunk() == old(Chunk()) || fresh(Chunk()))
      ensures old(reports) <= reports && |reports| <= |old(reports)| + 1 && (st == Compiled ==> reports == old(reports))
      ensures st == Compiled ==>
        Scoped(old(compilers), compilers) && old(Chunk().code) <= Chunk().code && old(Chunk().constants) <= Chunk().constants
      ensures st == Compiled ==>
        |old(Chunk().code)| <= target && (exitJump.Some? <==> s.cond.Some?)
        && |Chunk().code| >= 3 && ForTail(Chunk().code, |Chunk().code| - 3, target, exitJump)
      decreases s, 3
    {
      target := 0;
      var beforeCondition, bodyJump;
      st, beforeCondition, exitJump, bodyJump := ForCondition(s.cond);
      if st != Compiled {
        return;
      }
      ghost var mid := compilers;
      st, target := ForRest(s, beforeCondition, exitJump, bodyJump, |old(Chunk().code)|);
      if st == Compiled {
        ExtendsThenScoped(old(compilers), mid, compilers);
      }
    }

    /** The condition of `for`, when there is one: it starts at
        `beforeCondition`, then come the exit jump, the `Pop` of the
        condition and the jump to the body, as `ForJumps` says. */
    method ForCondition(cond: Option<A.Expr>) returns (st: Status, beforeCondition: Option<nat>, exitJump: Option<nat>, bodyJump: Option<nat>)
      requires Valid()
      modifies this, Chunk(), strings
      ensures Valid() && Extends(old(compilers), compilers)
      ensures old(Chunk().code) <= Chunk().code && old(Chunk().constants) <= Chunk().constants
      ensures old(reports) <= reports && |reports| <= |old(reports)| + 1 && (st == Compiled ==> reports == old(reports))
      ensures cond.None? ==> st == Compiled && Chunk().code == old(Chunk().code)
      ensures st == Compiled ==>
        ForJumps(Chunk().code, |old(Chunk().code)|, beforeCondition, exitJump, bodyJump)
        && (cond.Some? <==> exitJump.Some?) && (cond.Some? <==> bodyJump.Some?)
        && (cond.Some? ==> (beforeCondition == Some(|old(Chunk().code)|) && Chunk().code[exitJump.value + 2] == RC.OpByte(RC.Op.Pop)
              && Chunk().code[bodyJump.value - 1] == RC.OpByte(RC.Op.Jump)))
    {
      if cond.None? {
        ExtendsRefl(compilers);
        return Compiled, None, None, None;
      }
      beforeCondition := Some(|Chunk().code|);
      st := Expression(cond.value);
      if st != Compiled {
        return st, beforeCondition, None, None;
      }
      var exit := EmitJump(RC.Op.JumpIfFalse);
      EmitOp(RC.Op.Pop);
      var body := EmitJump(RC.Op.Jump);
      exitJump, bodyJump := Some(exit), Some(body);
    }

    /** The increment, the body and the loop back of `for`, after the
        condition. The code before `keep` is left alone. */
    method ForRest(s: A.Stmt, beforeCondition: Option<nat>, exitJump: Option<nat>, bodyJump: Option<nat>, ghost keep: nat)
      returns (st: Status, target: nat)
      requires Valid() && s.For? && ForJumps(Chunk().code, keep, beforeCondition, exitJump, bodyJump)
      modifies this, Chunk(), strings
      ensures Valid() && (Chunk() == old(Chunk()) || fresh(Chunk()))
      ensures old(reports) <= reports && |reports| <= |old(reports)| + 1 && (st == Compiled ==> reports == old(reports))
      ensures st == Compiled ==>
        Scoped(old(compilers), compilers) && old(Chunk().code)[..keep] <= Chunk().code && old(Chunk().constants) <= Chunk().constants
      ensures st == Compiled ==>
        keep <= target && |Chunk().code| >= 3 && ForTail(Chunk().code, |Chunk().code| - 3, target, exitJump)
      decreases s, 2
    {
      target := 0;
      var beforeIncrement;
      st, beforeIncrement := ForIncrement(s.increment, beforeCondition);
      if st != Compiled {
        return;
      }
      ghost var mid := compilers;
      ForJumpsGrow(old(Chunk().code), Chunk().code, keep, beforeCondition, exitJump, bodyJump);
      target := if beforeIncrement.Some? then beforeIncrement.value
        else if beforeCondition.Some? then beforeCondition.value else |Chunk().code|;
      st := ForBody(s, target, exitJump, bodyJump, keep);
      if st == Compiled {
        ExtendsThenScoped(old(compilers), mid, compilers);
      }
    }

    /** The increment of `for`, when there is one: it starts at
        `beforeIncrement` and, when there is a condition, loops back to
        it. */
    method ForIncrement(increment: Option<A.Expr>, beforeCondition: Option<nat>) returns (st: Status, beforeIncrement: Option<nat>)
      requires Valid() && (beforeCondition.Some? ==> beforeCondition.value <= |Chunk().code|)
      modifies this, Chunk(), strings
      ensures Valid() && Extends(old(compilers), compilers)
      ensures old(Chunk().code) <= Chunk().code && old(Chunk().constants) <= Chunk().constants
      ensures old(reports) <= reports && |reports| <= |old(reports)| + 1 && (st == Compiled ==> reports == old(reports))
      ensures increment.None? ==> st == Compiled && beforeIncrement.None? && Chunk().code == old(Chunk().code)
      ensures increment.Some? && st == Compiled ==>
        beforeIncrement == Some(|old(Chunk().code)|)
        && (beforeCondition.Some? ==> (|Chunk().code| >= 3 && Chunk().code[|Chunk().code| - 3] == RC.OpByte(RC.Op.Loop)
              && RC.JumpTarget(Chunk().code, |Chunk().code| - 3, -1) == beforeCondition.value))
    {
      if increment.None? {
        ExtendsRefl(compilers);
        return Compiled, None;
      }
      beforeIncrement := Some(|Chunk().code|);
      st := Expression(increment.value);
      if st != Compiled || beforeCondition.None? {
        return;
      }
      ghost var c := Chunk().code;
      st := EmitLoop(beforeCondition.value);
      if st == Compiled {
        LoopLands(c, beforeCondition.value);
      }
    }

    /** The body of `for`: the jump to it patched, the body, and the loop
        back to `target`. The code before `keep` is left alone. */
    method ForBody(s: A.Stmt, target: nat, exitJump: Option<nat>, bodyJump: Option<nat>, ghost keep: nat) returns (st: Status)
      requires Valid() && s.For? && keep <= target <= |Chunk().code|
      requires ForJumps(Chunk().code, keep, if exitJump.Some? then Some(target) else None, exitJump, bodyJump)
      modifies this, Chunk(), strings
      ensures Valid() && (Chunk() == old(Chunk()) || fresh(Chunk()))
      ensures old(reports) <= reports && |reports| <= |old(reports)| + 1 && (st == Compiled ==> reports == old(reports))
      ensures st == Compiled ==>
        Scoped(old(compilers), compilers) && old(Chunk().code)[..keep] <= Chunk().code && old(Chunk().constants) <= Chunk().constants
      ensures st == Compiled ==> |Chunk().code| >= 3 && ForTail(Chunk().code, |Chunk().code| - 3, target, exitJump)
      decreases s, 1
    {
      if bodyJump.Some? {
        st := PatchJump(bodyJump.value);
        if st != Compiled {
          return;
        }
        assert Chunk().code[exitJump.value - 1] == old(Chunk().code)[exitJump.value - 1];
      }
      assert old(Chunk().code)[..keep] <= Chunk().code;
      st := ForStep(s, target, exitJump, keep);
    }

    /** The body of `for` and the loop back to `target`. */
    method ForStep(s: A.Stmt, target: nat, exitJump: Option<nat>, ghost keep: nat) returns (st: Status)
      requires Valid() && s.For? && keep <= |Chunk().code| && target <= |Chunk().code|
      requires exitJump.Some? ==>
        keep + 1 <= exitJump.value && exitJump.value + 2 <= |Chunk().code| && Chunk().code[exitJump.value - 1] == RC.OpByte(RC.Op.JumpIfFalse)
      modifies this, Chunk(), strings
      ensures Valid() && (Chunk() == old(Chunk()) || fresh(Chunk()))
      ensures old(reports) <= reports && |reports| <= |old(reports)| + 1 && (st == Compiled ==> reports == old(reports))
      ensures st == Compiled ==>
        Scoped(old(compilers), compilers) && old(Chunk().code)[..keep] <= Chunk().code && old(Chunk().constants) <= Chunk().constants
      ensures st == Compiled ==> |Chunk().code| >= 3 && ForTail(Chunk().code, |Chunk().code| - 3, target, exitJump)
      decreases s, 0
    {
      st := Statement(s.body);
      if st != Compiled {
        return;
      }
      ghost var c2 := Chunk().code;
      assert c2[..|old(Chunk().code)|] == old(Chunk().code);
      st := ForEnd(target, exitJump);
    }

    /** The end of `for`: the loop back to `target` and the exit jump
        patched, which then lands just after the loop. */
    method ForEnd(target: nat, exitJump: Option<nat>) returns (st: Status)
      requires Valid() && target <= |Chunk().code|
      requires exitJump.Some? ==>
        1 <= exitJump.value && exitJump.value + 2 <= |Chunk().code| && Chunk().code[exitJump.value - 1] == RC.OpByte(RC.Op.JumpIfFalse)
      modifies Chunk()`code, Chunk()`lines, this`reports
      ensures Valid() && st != Panicked
      ensures old(reports) <= reports && |reports| <= |old(reports)| + 1 && (st == Compiled ==> reports == old(reports))
      ensures st == Compiled ==> ForTail(Chunk().code, |old(Chunk().code)|, target, exitJump)
      ensures st == Compiled && exitJump.None? ==> old(Chunk().code) <= Chunk().code
      ensures st == Compiled && exitJump.Some? ==> old(Chunk().code)[..exitJump.value] <= Chunk().code
    {
      ghost var c2 := Chunk().code;
      st := EmitLoop(target);
      if st != Compiled {
        return;
      }
      if exitJump.Some? {
        st := PatchJump(exitJump.value);
        if st == Compiled {
          ForLands(c2, target, exitJump.value);
        }
      } else {
        LoopLands(c2, target);
      }
    }

    /** `fun_declaration`: the name is declared and, inside a scope,
        marked initialized at once, so that the body can refer to it; then
        the function; then the variable is defined. */
    method FunDeclaration(s: A.Stmt) returns (st: Status)
      requires Valid() && s.Function?
      modifies this, Chunk(), strings
      ensures Valid() && (Chunk() == old(Chunk()) || fresh(Chunk()))
      ensures old(reports) <= reports && |reports| <= |old(reports)| + 1 && (st == Compiled ==> reports == old(reports))
      ensures st == Compiled ==>
        Scoped(old(compilers), compilers) && old(Chunk().code) <= Chunk().code && old(Chunk().constants) <= Chunk().constants
      ensures st == Compiled && old(Current().scopeDepth) > 0 ==>
        |Current().locals| == |old(Current().locals)| + 1 && Current().locals[|Current().locals| - 1].name == s.name.lexeme
      ensures st == Compiled && old(Current().scopeDepth) == 0 ==>
        |old(Chunk().constants)| < 256
        && EndsWith(Chunk().code, [RC.OpByte(RC.Op.DefineGlobal), |old(Chunk().constants)| as byte])
      decreases s, 6
    {
      ghost var a := compilers;
      assert |a[|a| - 1].locals| >= 1;
      var global;
      st, global := ParseVariable(s.name);
      if st != Compiled {
        return;
      }
      st := FunDefine(s, global, a);
    }

    /** The function of a declaration by `parse_variable` (`a` to now),
        then `define_variable`. */
    method FunDefine(s: A.Stmt, global: byte, ghost a: seq<Compiler>) returns (st: Status)
      requires Valid() && s.Function? && |a| == |compilers| && |a[|a| - 1].locals| >= 1
      requires Current().scopeDepth == 0 ==> a == compilers
      requires Current().scopeDepth > 0 ==>
        a[|a| - 1].scopeDepth > 0 && compilers == a[|a| - 1 := a[|a| - 1].(locals := a[|a| - 1].locals + [Local(s.name.lexeme, None, false)])]
      modifies this, Chunk(), strings
      ensures Valid() && (Chunk() == old(Chunk()) || fresh(Chunk()))
      ensures old(reports) <= reports && |reports| <= |old(reports)| + 1 && (st == Compiled ==> reports == old(reports))
      ensures st == Compiled ==>
        Chunk() == old(Chunk()) && old(Chunk().code) <= Chunk().code && old(Chunk().constants) <= Chunk().constants
        && Scoped(a, compilers)
      ensures st == Compiled && a[|a| - 1].scopeDepth > 0 ==> DeclaredLocal(a, compilers, s.name.lexeme)
      ensures st == Compiled && a[|a| - 1].scopeDepth == 0 ==>
        EndsWith(Chunk().code, [RC.OpByte(RC.Op.DefineGlobal), global])
      decreases s, 5
    {
      st := FunBody(s, a);
      if st != Compiled {
        return;
      }
      ghost var e := compilers;
      if a[|a| - 1].scopeDepth > 0 {
        MarkedAgain(a, e, s.name.lexeme);
      } else {
        assert Current().scopeDepth == 0;
      }
      DefineVariable(global);
      if a[|a| - 1].scopeDepth > 0 {
        assert compilers == e;
      } else {
        ExtendsScoped(a, compilers);
      }
    }

    /** The declared name marked initialized, then the function. In a
        scope, the stack `a` before the declaration gains the one local of
        the name, already initialized. */
    method FunBody(s: A.Stmt, ghost a: seq<Compiler>) returns (st: Status)
      requires Valid() && s.Function? && |a| == |compilers| && |a[|a| - 1].locals| >= 1
      requires Current().scopeDepth == 0 ==> a == compilers
      requires Current().scopeDepth > 0 ==>
        a[|a| - 1].scopeDepth > 0 && compilers == a[|a| - 1 := a[|a| - 1].(locals := a[|a| - 1].locals + [Local(s.name.lexeme, None, false)])]
      modifies this, Chunk(), strings
      ensures Valid() && (Chunk() == old(Chunk()) || fresh(Chunk()))
      ensures old(reports) <= reports && |reports| <= |old(reports)| + 1 && (st == Compiled ==> reports == old(reports))
      ensures st == Compiled ==>
        Chunk() == old(Chunk()) && old(Chunk().code) <= Chunk().code && old(Chunk().constants) <= Chunk().constants
      ensures st == Compiled && a[|a| - 1].scopeDepth == 0 ==> Extends(a, compilers)
      ensures st == Compiled && a[|a| - 1].scopeDepth > 0 ==> DeclaredLocal(a, compilers, s.name.lexeme)
      decreases s, 4
    {
      ghost var p := compilers;
      MarkInitialized();
      ghost var m := compilers;
      assert a[|a| - 1].scopeDepth > 0 ==> DeclaredMarked(a, m, s.name.lexeme);
      assert a[|a| - 1].scopeDepth == 0 ==> a == m;
      var inner;
      st, inner := Function(s);
      if st != Compiled {
        return;
      }
      if a[|a| - 1].scopeDepth > 0 {
        DeclaredFirst(a, m, compilers, s.name.lexeme);
      }
    }

    /** `function`: a new compiler for the function, its parameters
        declared in a new scope, then its body; then `end_compiler`, and in
        the enclosing function `Closure` with the finished function's pool
        index and the bytes of its upvalues. */
    method Function(s: A.Stmt) returns (st: Status, inner: Compiler)
      requires Valid() && s.Function?
      modifies this, Chunk(), strings
      ensures Valid() && (Chunk() == old(Chunk()) || fresh(Chunk()))
      ensures old(reports) <= reports && |reports| <= |old(reports)| + 1 && (st == Compiled ==> reports == old(reports))
      ensures st == Compiled ==> Chunk() == old(Chunk()) && Extends(old(compilers), compilers) && old(Chunk().code) <= Chunk().code
      ensures st == Compiled ==>
        fresh(inner.chunk) && inner.arity == |s.params| && RustloxCompiler.Valid(inner)
        && EndsWith(inner.chunk.code, [RC.OpByte(RC.Op.Nil), RC.OpByte(RC.Op.Return)])
        && Chunk().constants == old(Chunk().constants) + [RV.FunctionValue(FunctionOf(inner))] && |old(Chunk().constants)| < 256
        && Chunk().code == old(Chunk().code) + [RC.OpByte(RC.Op.Closure), |old(Chunk().constants)| as byte] + UpvalueBytes(inner.upvalues)
      decreases s, 3
    {
      st := FunctionOpen(s);
      inner := Current();
      if st != Compiled {
        return;
      }
      currentLine := s.brace.line;
      st, inner := FunctionEnd();
    }

    /** The start of `function`: a new compiler for the function, its
        parameters declared in a new scope, then its body. The enclosing
        compilers grow only by captures, and their chunks are untouched. */
    method FunctionOpen(s: A.Stmt) returns (st: Status)
      requires Valid() && s.Function?
      modifies this, strings
      ensures Valid() && fresh(Chunk())
      ensures old(reports) <= reports && |reports| <= |old(reports)| + 1 && (st == Compiled ==> reports == old(reports))
      ensures st == Compiled ==>
        |compilers| == |old(compilers)| + 1 && Extends(old(compilers), compilers[..|old(compilers)|])
        && Current().arity == |s.params|
      decreases s, 2
    {
      currentLine := s.name.line;
      var c := NewCompiler(s.name.lexeme, strings);
      compilers := compilers + [c.(arity := |s.params|)];
      BeginScope();
      ghost var deeper := compilers;
      st := Params(s.params);
      if st != Compiled {
        return;
      }
      ghost var mid := compilers;
      st := Statements(s);
      if st != Compiled {
        return;
      }
      ScopedTrans(deeper, mid, compilers);
      assert deeper[..|deeper| - 1] == old(compilers);
    }

    /** The parameters, each declared and marked initialized as a local of
        the function's scope. */
    method Params(params: seq<S.Token>) returns (st: Status)
      requires Valid() && Current().scopeDepth > 0
      modifies this, Chunk(), strings
      ensures Valid() && Chunk() == old(Chunk()) && st != Panicked
      ensures old(reports) <= reports && |reports| <= |old(reports)| + 1 && (st == Compiled ==> reports == old(reports))
      ensures st == Compiled ==> Scoped(old(compilers), compilers) && Chunk().code == old(Chunk().code)
      ensures st == Compiled ==> |Current().locals| == |old(Current().locals)| + |params|
    {
      ExtendsRefl(compilers);
      ExtendsScoped(compilers, compilers);
      st := Compiled;
      var i := 0;
      while i < |params|
        invariant 0 <= i <= |params| && Valid() && Chunk() == old(Chunk()) && reports == old(reports) && st == Compiled
        invariant Scoped(old(compilers), compilers) && Chunk().code == old(Chunk().code)
        invariant Current().scopeDepth == old(Current().scopeDepth)
        invariant |Current().locals| == |old(Current().locals)| + i
      {
        ghost var a := compilers;
        var global;
        st, global := ParseVariable(params[i]);
        if st != Compiled {
          return;
        }
        ExtendsRefl(compilers);
        DefineDeclared(global, a, compilers, params[i].lexeme);
        ScopedTrans(old(compilers), a, compilers);
        i := i + 1;
      }
    }

    /** The end of `function`: `end_compiler`, then the finished function
        joins the enclosing pool (its `Err` fails with no report) and
        `Closure` and the upvalue bytes follow. */
    method FunctionEnd() returns (st: Status, inner: Compiler)
      requires Valid() && |compilers| >= 2
      requires compilers[|compilers| - 2].chunk.Valid() && compilers[|compilers| - 2].chunk != Chunk()
      modifies this`compilers, Chunk()`code, Chunk()`lines, compilers[|compilers| - 2].chunk
      ensures Valid() && st != Panicked && compilers == old(compilers)[..|old(compilers)| - 1]
      ensures inner == old(Current()) && RustloxCompiler.Valid(inner)
      ensures inner.chunk.code == old(Chunk().code) + [RC.OpByte(RC.Op.Nil), RC.OpByte(RC.Op.Return)]
      ensures var outer := old(compilers[|compilers| - 2].chunk); var n := |old(outer.constants)|;
        (st == Compiled <==> n < 256)
        && (st == Compiled ==> (Chunk().constants == old(outer.constants) + [RV.FunctionValue(FunctionOf(inner))]
              && Chunk().code == old(outer.code) + [RC.OpByte(RC.Op.Closure), n as byte] + UpvalueBytes(inner.upvalues)))
    {
      inner := EndCompiler();
      var constant := MakeConstant(RV.FunctionValue(FunctionOf(inner)));
      if constant.Err? {
        return Failed, inner;
      }
      EmitBytes(RC.OpByte(RC.Op.Closure), constant.value);
      EmitUpvalues(inner.upvalues);
      st := Compiled;
    }

    /** The loop of `function` over the finished function's upvalues. */
    method EmitUpvalues(upvalues: seq<Upvalue>)
      requires Valid()
      modifies Chunk()`code, Chunk()`lines
      ensures Valid() && Chunk().code == old(Chunk().code) + UpvalueBytes(upvalues)
    {
      var i := 0;
      while i < |upvalues|
        invariant 0 <= i <= |upvalues| && Valid()
        invariant Chunk().code == old(Chunk().code) + UpvalueBytes(upvalues[..i])
      {
        var u := upvalues[i];
        EmitByte(if u.isLocal then 1 else 0);
        EmitByte(u.index);
        assert upvalues[..i + 1] == upvalues[..i] + [u];
        UpvalueBytesAppend(upvalues[..i], u);
        i := i + 1;
      }
      assert upvalues[..i] == upvalues;
    }

    /** `compile` of the wrapper: every statement is compiled, on after a
        failure too; `Err(CompileError)` when any failed, else the script
        function from `end_compiler`. A panic ends it at once. `statuses`
        are the results of the statements tried. */
    method Compile(statements: seq<A.Stmt>) returns (r: Outcome, ghost statuses: seq<Status>)
      requires Valid() && |compilers| == 1
      modifies this, Chunk(), strings
      ensures |statuses| <= |statements|
      ensures r.Aborted? <==> |statuses| > 0 && statuses[|statuses| - 1] == Panicked
      ensures !r.Aborted? ==> |statuses| == |statements| && Panicked !in statuses
      ensures r.CompileError? <==> |statuses| == |statements| && Panicked !in statuses && Failed in statuses
      ensures r.Finished? <==> |statuses| == |statements| && forall i :: 0 <= i < |statuses| ==> statuses[i] == Compiled
      ensures r.Finished? ==>
        reports == old(reports) && compilers == [] && r.script.chunk == old(Chunk())
        && r.script.arity == old(Current().arity) && r.script.name == old(Current().name)
        && old(Chunk().code) <= r.script.chunk.code && EndsWith(r.script.chunk.code, [RC.OpByte(RC.Op.Nil), RC.OpByte(RC.Op.Return)])
    {
      var error := false;
      statuses := [];
      var i := 0;
      while i < |statements|
        invariant 0 <= i <= |statements| && |statuses| == i && Valid()
        invariant Chunk() == old(Chunk()) || fresh(Chunk())
        invariant Panicked !in statuses && (error <==> Failed in statuses)
        invariant !error ==>
          |compilers| == 1 && Chunk() == old(Chunk()) && reports == old(reports) && old(Chunk().code) <= Chunk().code
          && Current().arity == old(Current().arity) && Current().name == old(Current().name)
      {
        var st := Statement(statements[i]);
        statuses := statuses + [st];
        if st == Panicked {
          return Aborted, statuses;
        }
        if st == Failed {
          error := true;
        }
        i := i + 1;
      }
      if error {
        return CompileError, statuses;
      }
      var script := EndCompiler();
      r := Finished(FunctionOf(script));
    }
  }

  /** `compile`: the tokens parsed (the parser takes the last token as
      its end, so no tokens at all panic); a parse error, reported by the
      parser, is `CompileError`; otherwise a new wrapper compiles the
      statements. The diagnostics of the parser and of the compiler are
      results. */
  method Compile(tokens: seq<S.Token>, strings: LoxString.Interner, ops: FloatOps)
    returns (r: Outcome, parseReports: seq<P.Report>, compileReports: seq<CompileReport>)
    requires strings.Valid()
    modifies strings
    ensures |tokens| == 0 ==> r == Aborted && parseReports == [] && compileReports == []
    ensures parseReports != [] ==> r == CompileError && compileReports == []
    ensures compileReports != [] ==> !r.Finished?
    ensures r.Finished? ==>
      parseReports == [] && compileReports == [] && r.script.arity == 0
      && EndsWith(r.script.chunk.code, [RC.OpByte(RC.Op.Nil), RC.OpByte(RC.Op.Return)])
  {
    if |tokens| == 0 {
      return Aborted, [], [];
    }
    var statements;
    statements, parseReports := P.ParseTokens(tokens);
    if statements.None? {
      return CompileError, parseReports, [];
    }
    var wrapper := new Wrapper(strings, ops);
    ghost var statuses;
    r, statuses := wrapper.Compile(statements.value);
    compileReports := wrapper.reports;
  }
}
