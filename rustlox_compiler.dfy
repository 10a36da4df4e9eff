/** The per-function compiler state of rustlox (`Compiler` in
    `rustlox/src/compiler.rs`): the function being built, its locals with
    their scope depths, the upvalues it captures, and the enclosing
    compiler. Local and upvalue resolution live here; code emission is in
    `RustloxCodegen`. */
module RustloxCompiler {
  import opened Base
  import RC = RustloxChunk
  import RV = RustloxValue
  import LoxString

  /** `Local`: a name, the scope depth once initialized (`None` while its
      initializer is compiled), and whether a closure captures it. */
  datatype Local = Local(name: string, depth: Option<nat>, isCaptured: bool)

  /** `Upvalue`: the slot (a local of the enclosing function, or one of its
      upvalues) and which of the two it is. */
  datatype Upvalue = Upvalue(index: byte, isLocal: bool)

  // ---------------------------------------------------------------------
  // Locals

  /** The highest index below `n` of a local with the name. */
  function LastMatch(locals: seq<Local>, name: string, n: nat): (r: Option<nat>)
    requires n <= |locals|
    ensures r.Some? ==> r.value < n && locals[r.value].name == name
    ensures r.Some? ==> forall j :: r.value < j < n ==> locals[j].name != name
    ensures r.None? ==> forall j :: 0 <= j < n ==> locals[j].name != name
    decreases n
  {
    if n == 0 then None
    else if locals[n - 1].name == name then Some(n - 1)
    else LastMatch(locals, name, n - 1)
  }

  /** What `resolve_local` answers for the locals: no match, the slot of
      the innermost match (as `i as u8`, which truncates), or an error when
      that local is still being initialized. */
  function ResolveLocalSpec(locals: seq<Local>, name: string): (r: Result<Option<byte>, string>)
  {
    match LastMatch(locals, name, |locals|)
    case None => Ok(None)
    case Some(i) =>
      if locals[i].depth.None? then Err("Can't read local variable in its own initializer.")
      else Ok(Some((i % 256) as byte))
  }

  /** Resolution finds the innermost declaration: an answer `Ok(Some(i))`
      names a local of that name, initialized, and no later local has the
      name; `Ok(None)` means no local has it. */
  lemma ResolveLocalFindsInnermost(locals: seq<Local>, name: string)
    requires |locals| <= 256
    ensures var r := ResolveLocalSpec(locals, name);
      (r == Ok(None) <==> forall j :: 0 <= j < |locals| ==> locals[j].name != name)
      && (r.Ok? && r.value.Some? ==>
            var i := r.value.value as nat;
            i < |locals| && locals[i].name == name && locals[i].depth.Some?
            && forall j :: i < j < |locals| ==> locals[j].name != name)
      && (r.Err? ==> exists i :: 0 <= i < |locals| && locals[i].name == name && locals[i].depth.None?)
  {
    var m := LastMatch(locals, name, |locals|);
    if m.Some? {
      assert locals[m.value].name == name;
    }
  }

  // ---------------------------------------------------------------------
  // Upvalues: the finding and the corrected behaviour

  /** The loop test of `add_upvalue` as written: the loop variable `index`
      shadows the parameter, so an entry matches when its stored index
      equals its own position and the kind agrees. The first such
      position. */
  function FindUpvalueAsWritten(upvalues: seq<Upvalue>, isLocal: bool, from: nat): (r: Option<nat>)
    requires from <= |upvalues|
    ensures r.Some? ==> from <= r.value < |upvalues| && upvalues[r.value].index as nat == r.value && upvalues[r.value].isLocal == isLocal
    ensures r.None? ==> forall j :: from <= j < |upvalues| ==> upvalues[j].index as nat != j || upvalues[j].isLocal != isLocal
    decreases |upvalues| - from
  {
    if from == |upvalues| then None
    else if upvalues[from].index as nat == from && upvalues[from].isLocal == isLocal then Some(from)
    else FindUpvalueAsWritten(upvalues, isLocal, from + 1)
  }

  /** `add_upvalue` as written: the result and the new upvalue list. A
      matching entry returns its stored index; otherwise the upvalue is
      pushed and its position returned, an error past 255. Either way an
      answer names one of the entries, of the requested kind, but a reused
      entry need not be the requested upvalue. */
  function AddUpvalueAsWritten(upvalues: seq<Upvalue>, index: byte, isLocal: bool): (r: (Result<byte, string>, seq<Upvalue>))
    ensures upvalues <= r.1 && |r.1| <= |upvalues| + 1
    ensures r.0.Ok? ==> r.0.value as nat < |r.1| && r.1[r.0.value].isLocal == isLocal
    ensures |r.1| == |upvalues| + 1 ==> r.1[|upvalues|] == Upvalue(index, isLocal) && (r.0.Ok? <==> |upvalues| <= 255)
  {
    match FindUpvalueAsWritten(upvalues, isLocal, 0)
    case Some(j) => (Ok(upvalues[j].index), upvalues)
    case None =>
      var pushed := upvalues + [Upvalue(index, isLocal)];
      (if |pushed| - 1 <= 255 then Ok((|pushed| - 1) as byte) else Err("Too many closure variables in function."), pushed)
  }

  /** The first position holding exactly this upvalue. */
  function FindUpvalue(upvalues: seq<Upvalue>, u: Upvalue, from: nat): (r: Option<nat>)
    requires from <= |upvalues|
    ensures r.Some? ==> from <= r.value < |upvalues| && upvalues[r.value] == u
    ensures r.Some? ==> forall j :: from <= j < r.value ==> upvalues[j] != u
    ensures r.None? ==> forall j :: from <= j < |upvalues| ==> upvalues[j] != u
    decreases |upvalues| - from
  {
    if from == |upvalues| then None
    else if upvalues[from] == u then Some(from)
    else FindUpvalue(upvalues, u, from + 1)
  }

  /** `add_upvalue` as evidently intended (and as in clox): an entry equal
      to the requested upvalue is reused and its position returned;
      otherwise the upvalue is pushed and its position returned, an error
      past 255. */
  function AddUpvalueIntended(upvalues: seq<Upvalue>, index: byte, isLocal: bool): (Result<byte, string>, seq<Upvalue>)
  {
    var u := Upvalue(index, isLocal);
    match FindUpvalue(upvalues, u, 0)
    case Some(j) => (if j <= 255 then Ok(j as byte) else Err("Too many closure variables in function."), upvalues)
    case None =>
      var pushed := upvalues + [u];
      (if |pushed| - 1 <= 255 then Ok((|pushed| - 1) as byte) else Err("Too many closure variables in function."), pushed)
  }

  /** No upvalue is recorded twice. */
  ghost predicate Distinct(upvalues: seq<Upvalue>)
  {
    forall i, j :: 0 <= i < j < |upvalues| ==> upvalues[i] != upvalues[j]
  }

  /** The intended `add_upvalue` returns a position holding the requested
      upvalue, grows the list by at most that one entry, and keeps the
      entries distinct. */
  lemma AddUpvalueIntendedCorrect(upvalues: seq<Upvalue>, index: byte, isLocal: bool)
    requires Distinct(upvalues)
    ensures var (r, after) := AddUpvalueIntended(upvalues, index, isLocal);
      Distinct(after) && upvalues <= after && |after| <= |upvalues| + 1
      && Upvalue(index, isLocal) in after
      && (r.Ok? ==> r.value as nat < |after| && after[r.value] == Upvalue(index, isLocal))
      && (Upvalue(index, isLocal) in upvalues ==> after == upvalues)
  {
    var u := Upvalue(index, isLocal);
    var f := FindUpvalue(upvalues, u, 0);
    if f.None? {
      var after := upvalues + [u];
      assert after[|upvalues|] == u;
      forall i, j | 0 <= i < j < |after|
        ensures after[i] != after[j]
      {
        if j == |upvalues| {
          assert after[i] == upvalues[i];
        }
      }
    }
  }

  /** As written, asking for slot 5 when the first entry happens to be local
      slot 0 gives back that entry (the wrong variable), and asking again
      for a recorded slot that differs from its position records it a
      second time. The intended version does neither. */
  lemma AddUpvalueCounterexample()
    ensures AddUpvalueAsWritten([Upvalue(0, true)], 5, true) == (Ok(0), [Upvalue(0, true)])
    ensures AddUpvalueIntended([Upvalue(0, true)], 5, true) == (Ok(1), [Upvalue(0, true), Upvalue(5, true)])
    ensures AddUpvalueAsWritten([Upvalue(3, true)], 3, true) == (Ok(1), [Upvalue(3, true), Upvalue(3, true)])
    ensures AddUpvalueIntended([Upvalue(3, true)], 3, true) == (Ok(0), [Upvalue(3, true)])
  {
    assert FindUpvalueAsWritten([Upvalue(0, true)], true, 0) == Some(0);
    assert FindUpvalue([Upvalue(0, true)], Upvalue(5, true), 1) == None;
    assert FindUpvalue([Upvalue(0, true)], Upvalue(5, true), 0) == None;
    assert [Upvalue(0, true)] + [Upvalue(5, true)] == [Upvalue(0, true), Upvalue(5, true)];
    assert FindUpvalueAsWritten([Upvalue(3, true)], true, 1) == None;
    assert FindUpvalueAsWritten([Upvalue(3, true)], true, 0) == None;
    assert [Upvalue(3, true)] + [Upvalue(3, true)] == [Upvalue(3, true), Upvalue(3, true)];
    assert FindUpvalue([Upvalue(3, true)], Upvalue(3, true), 0) == Some(0);
  }


  // ---------------------------------------------------------------------
  // The compiler

  /** `Compiler`: the function under construction, kept as its fields (the
      chunk it writes, the interned `name`, `arity`, `upvalueCount`), and
      its locals, scope depth and upvalues. The compilers in progress form
      a stack, innermost last, in which each compiler's `enclosing` is the
      one beneath it. */
  datatype Compiler = Compiler(chunk: RC.Chunk<RV.Value>, name: LoxString.Handle, arity: nat, upvalueCount: nat,
                               locals: seq<Local>, scopeDepth: nat, upvalues: seq<Upvalue>)

  /** Slot 0 is always there and `add_local` stops at 255 locals; the
      function counts its upvalues; the locals are nested scopes no deeper
      than the current one. */
  ghost predicate Valid(c: Compiler)
  {
    1 <= |c.locals| <= 255 && c.upvalueCount == |c.upvalues| && Nested(c.locals, c.scopeDepth)
  }

  /** A non-empty stack of valid compilers. */
  ghost predicate StackValid(stack: seq<Compiler>)
  {
    |stack| >= 1 && forall k :: 0 <= k < |stack| ==> Valid(stack[k])
  }

  /** `Compiler::new`: slot 0 holds the unnamed local of depth 0, with a
      fresh chunk and the interned name. */
  method NewCompiler(name: string, strings: LoxString.Interner) returns (c: Compiler)
    requires strings.Valid()
    modifies strings
    ensures Valid(c) && fresh(c.chunk) && c.chunk.Valid() && c.chunk.code == [] && c.chunk.constants == []
    ensures c.arity == 0 && c.upvalueCount == 0 && c.scopeDepth == 0 && c.upvalues == []
    ensures c.locals == [Local("", Some(0), false)]
    ensures strings.Valid() && c.name.index < |strings.strings| && LoxString.AsStr(strings, c.name) == name
    ensures old(strings.strings) <= strings.strings
  {
    var chunk := new RC.Chunk();
    var handle := LoxString.FromStr(strings, name);
    c := Compiler(chunk, handle, 0, 0, [Local("", Some(0), false)], 0, []);
  }

  /** The function built so far. */
  function FunctionOf(c: Compiler): RV.Function
  {
    RV.Function(c.arity, c.chunk, c.name, c.upvalueCount)
  }

  /** `resolve_local`: scans the locals from the innermost outward. */
  method ResolveLocal(locals: seq<Local>, name: string) returns (r: Result<Option<byte>, string>)
    ensures r == ResolveLocalSpec(locals, name)
  {
    var i := |locals|;
    while i > 0
      invariant 0 <= i <= |locals|
      invariant LastMatch(locals, name, |locals|) == LastMatch(locals, name, i)
      decreases i
    {
      var local := locals[i - 1];
      if local.name == name {
        if local.depth.None? {
          return Err("Can't read local variable in its own initializer.");
        }
        return Ok(Some(((i - 1) % 256) as byte));
      }
      i := i - 1;
    }
    return Ok(None);
  }

  /** `add_upvalue`: the loop looks for an entry whose stored index equals
      its own position (the shadowed `index`) and returns that stored
      index; otherwise the upvalue is pushed and counted. */
  method AddUpvalue(c: Compiler, index: byte, isLocal: bool) returns (r: Result<byte, string>, after: Compiler)
    requires Valid(c)
    ensures Valid(after) && Grows(c, after)
    ensures (r, after.upvalues) == AddUpvalueAsWritten(c.upvalues, index, isLocal)
    ensures after == c.(upvalues := after.upvalues, upvalueCount := |after.upvalues|)
  {
    SameShapeRefl(c.locals);
    var position := 0;
    while position < |c.upvalues|
      invariant 0 <= position <= |c.upvalues|
      invariant FindUpvalueAsWritten(c.upvalues, isLocal, 0) == FindUpvalueAsWritten(c.upvalues, isLocal, position)
      decreases |c.upvalues| - position
    {
      var upvalue := c.upvalues[position];
      if upvalue.index as nat == position && upvalue.isLocal == isLocal {
        return Ok(upvalue.index), c;
      }
      position := position + 1;
    }
    after := c.(upvalues := c.upvalues + [Upvalue(index, isLocal)], upvalueCount := c.upvalueCount + 1);
    if |after.upvalues| - 1 <= 255 {
      r := Ok((|after.upvalues| - 1) as byte);
    } else {
      r := Err("Too many closure variables in function.");
    }
  }

  /** The local in `slot` marked as captured by a closure. */
  function MarkCaptured(c: Compiler, slot: nat): (r: Compiler)
    requires slot < |c.locals|
    ensures Grows(c, r) && (Valid(c) ==> Valid(r)) && r.locals[slot] == c.locals[slot].(isCaptured := true)
    ensures forall j :: 0 <= j < |c.locals| && j != slot ==> r.locals[j] == c.locals[j]
  {
    var r := c.(locals := c.locals[slot := c.locals[slot].(isCaptured := true)]);
    assert SameShape(c.locals, r.locals) by {
      SameShapeOf(c.locals, r.locals);
    }
    assert Valid(c) ==> Valid(r) by {
      if Valid(c) {
        OrderedShape(c.locals, r.locals, c.scopeDepth);
      }
    }
    r
  }

  /** A resolution answer that names an upvalue names one that the last
      compiler of the stack records. (As written, `add_upvalue` can hand
      back an entry that stands for another variable, so nothing more is
      promised of it.) */
  ghost predicate Found(r: Result<Option<byte>, string>, stack: seq<Compiler>)
  {
    r.Ok? && r.value.Some? && |stack| > 0 ==> r.value.value as nat < |stack[|stack| - 1].upvalues|
  }

  /** No compiler of the stack has a local named `name`. */
  ghost predicate Unbound(stack: seq<Compiler>, name: string)
  {
    forall k, j :: 0 <= k < |stack| && 0 <= j < |stack[k].locals| ==> stack[k].locals[j].name != name
  }

  /** `resolve_upvalue` on the stack, whose last compiler is the one
      resolving: a local of the enclosing compiler is marked captured and
      recorded as a local upvalue; otherwise an upvalue of the enclosing
      compiler is recorded as a non-local one. Errors from either step
      propagate. An upvalue found stands for a variable of the name; no
      upvalue means that no enclosing compiler has a local of the name, and
      nothing changed. */
  method ResolveUpvalue(stack: seq<Compiler>, name: string) returns (r: Result<Option<byte>, string>, after: seq<Compiler>)
    requires StackValid(stack)
    ensures StackValid(after) && Extends(stack, after)
    ensures |stack| == 1 ==> r == Ok(None)
    ensures r == Ok(None) ==> after == stack && Unbound(stack[..|stack| - 1], name)
    ensures r.Ok? && r.value.Some? ==> !Unbound(stack[..|stack| - 1], name)
    ensures Found(r, after)
    decreases |stack|, 1
  {
    ExtendsRefl(stack);
    var n := |stack|;
    if n == 1 {
      return Ok(None), stack;
    }
    var local := ResolveLocal(stack[n - 2].locals, name);
    if local.Err? {
      return Err(local.error), stack;
    }
    if local.value.Some? {
      r, after := CaptureLocal(stack, local.value.value, name);
      assert Found(r, after);
    } else {
      r, after := CaptureUpvalue(stack, name);
      assert Found(r, after);
    }
  }

  /** The enclosing compiler has the name as a local: it is marked
      captured and recorded as a local upvalue. */
  method CaptureLocal(stack: seq<Compiler>, slot: byte, name: string) returns (r: Result<Option<byte>, string>, after: seq<Compiler>)
    requires StackValid(stack) && |stack| >= 2
    requires ResolveLocalSpec(stack[|stack| - 2].locals, name) == Ok(Some(slot))
    ensures StackValid(after) && Extends(stack, after)
    ensures r.Ok? ==> r.value.Some?
    ensures r.Ok? ==> !Unbound(stack[..|stack| - 1], name)
    ensures Found(r, after)
    ensures r.Ok? ==> after[|after| - 1].upvalues[r.value.value].isLocal && after[|after| - 2].locals[slot].isCaptured
  {
    var n := |stack|;
    ResolveLocalFindsInnermost(stack[n - 2].locals, name);
    var marked := MarkCaptured(stack[n - 2], slot as nat);
    var added, c := AddUpvalue(stack[n - 1], slot, true);
    after := stack[..n - 2] + [marked, c];
    PushGrownTwo(stack, marked, c);
    if added.Err? {
      return Err(added.error), after;
    }
    return Ok(Some(added.value)), after;
  }

  /** The stack with its last two compilers grown. */
  lemma PushGrownTwo(stack: seq<Compiler>, marked: Compiler, c: Compiler)
    requires StackValid(stack) && |stack| >= 2
    requires Grows(stack[|stack| - 2], marked) && Grows(stack[|stack| - 1], c) && Valid(marked) && Valid(c)
    ensures var after := stack[..|stack| - 2] + [marked, c];
      Extends(stack, after) && StackValid(after)
  {
    var n := |stack|;
    var after := stack[..n - 2] + [marked, c];
    assert after[n - 2] == marked && after[n - 1] == c;
    forall k | 0 <= k < n - 2
      ensures after[k] == stack[k] && Grows(stack[k], after[k])
    {
      SameShapeRefl(stack[k].locals);
    }
  }

  /** Otherwise the enclosing compiler resolves the name as an upvalue of
      its own, which is recorded here as a non-local upvalue. */
  method CaptureUpvalue(stack: seq<Compiler>, name: string) returns (r: Result<Option<byte>, string>, after: seq<Compiler>)
    requires StackValid(stack) && |stack| >= 2
    requires ResolveLocalSpec(stack[|stack| - 2].locals, name) == Ok(None)
    ensures StackValid(after) && Extends(stack, after)
    ensures r == Ok(None) ==> after == stack && Unbound(stack[..|stack| - 1], name)
    ensures r.Ok? && r.value.Some? ==> !Unbound(stack[..|stack| - 1], name)
    ensures Found(r, after)
    decreases |stack|, 0
  {
    ExtendsRefl(stack);
    var n := |stack|;
    var outer, prefix := ResolveUpvalue(stack[..n - 1], name);
    if outer == Ok(None) {
      UnboundBelow(stack, name);
      return Ok(None), stack;
    }
    r, after := RecordOuter(stack, outer, prefix, name);
  }

  /** What `resolve_upvalue` does with the enclosing compiler's answer
      once that answer is not `Ok(None)`: an error propagates, and an
      upvalue of the enclosing compiler is recorded here as a non-local
      one. */
  method RecordOuter(stack: seq<Compiler>, outer: Result<Option<byte>, string>, prefix: seq<Compiler>, name: string)
    returns (r: Result<Option<byte>, string>, after: seq<Compiler>)
    requires StackValid(stack) && |stack| >= 2 && StackValid(prefix) && Extends(stack[..|stack| - 1], prefix)
    requires outer != Ok(None) && Found(outer, prefix)
    requires outer.Ok? && outer.value.Some? ==> !Unbound(stack[..|stack| - 1][..|stack| - 2], name)
    ensures StackValid(after) && Extends(stack, after) && r != Ok(None)
    ensures r.Ok? ==> !Unbound(stack[..|stack| - 1], name)
    ensures Found(r, after)
    ensures r.Ok? ==> !after[|after| - 1].upvalues[r.value.value].isLocal
  {
    var n := |stack|;
    if outer.Err? {
      SameShapeRefl(stack[n - 1].locals);
      PushGrown(stack, prefix, stack[n - 1]);
      return outer, prefix + [stack[n - 1]];
    }
    var added, c := AddUpvalue(stack[n - 1], outer.value.value, false);
    PushGrown(stack, prefix, c);
    after := prefix + [c];
    if added.Err? {
      return Err(added.error), after;
    }
    r := Ok(Some(added.value));
    assert Found(r, after);
  }

  /** A grown stack below a grown compiler is a grown stack. */
  lemma PushGrown(stack: seq<Compiler>, prefix: seq<Compiler>, c: Compiler)
    requires |stack| >= 2 && Extends(stack[..|stack| - 1], prefix) && Grows(stack[|stack| - 1], c)
    requires StackValid(prefix) && Valid(c)
    ensures Extends(stack, prefix + [c]) && StackValid(prefix + [c])
  {
    var after := prefix + [c];
    forall i | 0 <= i < |after|
      ensures Grows(stack[i], after[i]) && Valid(after[i])
    {
      if i < |prefix| {
        assert stack[..|stack| - 1][i] == stack[i] && after[i] == prefix[i];
      }
    }
  }

  /** No local of the name in the last compiler, nor in the ones below
      it. */
  lemma UnboundCurrent(stack: seq<Compiler>, name: string)
    requires |stack| >= 1 && Unbound(stack[..|stack| - 1], name)
    requires |stack[|stack| - 1].locals| <= 255 && ResolveLocalSpec(stack[|stack| - 1].locals, name) == Ok(None)
    ensures Unbound(stack, name)
  {
    var n := |stack|;
    ResolveLocalFindsInnermost(stack[n - 1].locals, name);
    forall k, j | 0 <= k < n && 0 <= j < |stack[k].locals|
      ensures stack[k].locals[j].name != name
    {
      if k < n - 1 {
        assert stack[..n - 1][k] == stack[k];
      }
    }
  }

  /** No local of the name in the enclosing compiler, nor in the ones
      below it. */
  lemma UnboundBelow(stack: seq<Compiler>, name: string)
    requires |stack| >= 2 && Unbound(stack[..|stack| - 1][..|stack| - 2], name)
    requires |stack[|stack| - 2].locals| <= 255 && ResolveLocalSpec(stack[|stack| - 2].locals, name) == Ok(None)
    ensures Unbound(stack[..|stack| - 1], name)
  {
    var n := |stack|;
    ResolveLocalFindsInnermost(stack[n - 2].locals, name);
    forall k, j | 0 <= k < n - 1 && 0 <= j < |stack[k].locals|
      ensures stack[k].locals[j].name != name
    {
      if k < n - 2 {
        assert stack[..n - 1][..n - 2][k] == stack[k];
      }
    }
  }

  /** Locals as scopes leave them: slot 0 at depth 0, and the initialized
      ones in order of depth, none deeper than `depth`. Locals still being
      initialized may sit anywhere. */
  ghost predicate Nested(locals: seq<Local>, depth: nat)
  {
    |locals| > 0 && locals[0].depth == Some(0) && Ordered(locals, depth)
  }

  /** The initialized locals in order of depth and none deeper than
      `bound`, read from the innermost local out. */
  ghost predicate Ordered(locals: seq<Local>, bound: nat)
    decreases |locals|
  {
    |locals| == 0 ||
    match locals[|locals| - 1].depth
    case None => Ordered(locals[..|locals| - 1], bound)
    case Some(d) => d <= bound && Ordered(locals[..|locals| - 1], d)
  }

  /** No initialized local is deeper than the bound. */
  lemma {:induction false} OrderedBound(locals: seq<Local>, bound: nat, k: nat)
    requires Ordered(locals, bound) && k < |locals| && locals[k].depth.Some?
    ensures locals[k].depth.value <= bound
    decreases |locals|
  {
    var n := |locals|;
    var rest := locals[..n - 1];
    if k < n - 1 {
      assert rest[k] == locals[k];
      match locals[n - 1].depth
      case None => OrderedBound(rest, bound, k);
      case Some(d) => OrderedBound(rest, d, k);
    }
  }

  /** Initialized locals appear in order of depth. */
  lemma {:induction false} OrderedPair(locals: seq<Local>, bound: nat, i: nat, j: nat)
    requires Ordered(locals, bound) && i < j < |locals| && locals[i].depth.Some? && locals[j].depth.Some?
    ensures locals[i].depth.value <= locals[j].depth.value
    decreases |locals|
  {
    var n := |locals|;
    var rest := locals[..n - 1];
    assert rest[i] == locals[i];
    if j == n - 1 {
      OrderedBound(rest, locals[j].depth.value, i);
    } else {
      assert rest[j] == locals[j];
      match locals[n - 1].depth
      case None => OrderedPair(rest, bound, i, j);
      case Some(d) => OrderedPair(rest, d, i, j);
    }
  }

  /** A looser bound still holds. */
  lemma {:induction false} OrderedWeaken(locals: seq<Local>, bound: nat, looser: nat)
    requires Ordered(locals, bound) && bound <= looser
    ensures Ordered(locals, looser)
  {
    if |locals| > 0 && locals[|locals| - 1].depth.None? {
      OrderedWeaken(locals[..|locals| - 1], bound, looser);
    }
  }

  /** Every prefix is ordered under the same bound. */
  lemma {:induction false} OrderedPrefix(locals: seq<Local>, bound: nat, m: nat)
    requires Ordered(locals, bound) && m <= |locals|
    ensures Ordered(locals[..m], bound)
    decreases |locals|
  {
    var n := |locals|;
    if m < n {
      var rest := locals[..n - 1];
      assert rest[..m] == locals[..m];
      match locals[n - 1].depth
      case None => OrderedPrefix(rest, bound, m);
      case Some(d) =>
        OrderedPrefix(rest, d, m);
        OrderedWeaken(rest[..m], d, bound);
    } else {
      assert locals[..m] == locals;
    }
  }

  /** Order reads only the depths. */
  lemma {:induction false} OrderedShape(a: seq<Local>, b: seq<Local>, bound: nat)
    requires Ordered(a, bound) && SameShape(a, b)
    ensures Ordered(b, bound)
    decreases |a|
  {
    var n := |a|;
    if n > 0 {
      match a[n - 1].depth
      case None => OrderedShape(a[..n - 1], b[..n - 1], bound);
      case Some(d) => OrderedShape(a[..n - 1], b[..n - 1], d);
    }
  }

  /** Locals of the same shape have prefixes of the same shape. */
  lemma ShapePrefix(y: seq<Local>, z: seq<Local>, m: nat)
    requires m <= |y| && SameShape(y, z)
    ensures SameShape(y[..m], z[..m])
  {
    forall j | 0 <= j < m
      ensures y[..m][j].name == z[..m][j].name && y[..m][j].depth == z[..m][j].depth
    {
      SameShapeAt(y, z, j);
    }
    SameShapeOf(y[..m], z[..m]);
  }

  /** `after` differs from `before` at most by capture flags and new
      upvalues: resolving a name changes nothing else. */
  ghost predicate Grows(before: Compiler, after: Compiler)
  {
    before.chunk == after.chunk && before.name == after.name && before.arity == after.arity
    && before.scopeDepth == after.scopeDepth && SameShape(before.locals, after.locals)
    && before.upvalues <= after.upvalues
  }

  /** The same stack, each compiler of it grown. */
  ghost predicate Extends(before: seq<Compiler>, after: seq<Compiler>)
  {
    |before| == |after| && forall i :: 0 <= i < |after| ==> Grows(before[i], after[i])
  }

  /** Every compiler grows into itself. */
  lemma ExtendsRefl(s: seq<Compiler>)
    ensures Extends(s, s)
  {
    forall i | 0 <= i < |s|
      ensures Grows(s[i], s[i])
    {
      SameShapeRefl(s[i].locals);
    }
  }

  /** Resolving names only grows a stack: `Extends` composes. */
  lemma ExtendsTrans(a: seq<Compiler>, b: seq<Compiler>, c: seq<Compiler>)
    requires Extends(a, b) && Extends(b, c)
    ensures Extends(a, c)
  {
    forall i | 0 <= i < |a|
      ensures Grows(a[i], c[i])
    {
      SameShapeTrans(a[i].locals, b[i].locals, c[i].locals);
    }
  }

  /** The locals have the same names and depths, one by one. */
  ghost predicate SameShape(a: seq<Local>, b: seq<Local>)
    decreases |a|
  {
    |a| == |b|
    && (|a| > 0 ==> (a[|a| - 1].name == b[|a| - 1].name && a[|a| - 1].depth == b[|a| - 1].depth
                     && SameShape(a[..|a| - 1], b[..|a| - 1])))
  }

  lemma {:induction false} SameShapeAt(a: seq<Local>, b: seq<Local>, i: nat)
    requires SameShape(a, b) && i < |a|
    ensures a[i].name == b[i].name && a[i].depth == b[i].depth
    decreases |a|
  {
    var n := |a|;
    if i < n - 1 {
      SameShapeAt(a[..n - 1], b[..n - 1], i);
      assert a[..n - 1][i] == a[i] && b[..n - 1][i] == b[i];
    }
  }

  lemma {:induction false} SameShapeOf(a: seq<Local>, b: seq<Local>)
    requires |a| == |b| && forall i :: 0 <= i < |a| ==> a[i].name == b[i].name && a[i].depth == b[i].depth
    ensures SameShape(a, b)
    decreases |a|
  {
    var n := |a|;
    if n > 0 {
      SameShapeOf(a[..n - 1], b[..n - 1]);
    }
  }

  lemma SameShapeRefl(a: seq<Local>)
    ensures SameShape(a, a)
  {
    SameShapeOf(a, a);
  }

  lemma SameShapeTrans(a: seq<Local>, b: seq<Local>, c: seq<Local>)
    requires SameShape(a, b) && SameShape(b, c)
    ensures SameShape(a, c)
  {
    forall i | 0 <= i < |a|
      ensures a[i].name == c[i].name && a[i].depth == c[i].depth
    {
      SameShapeAt(a, b, i);
      SameShapeAt(b, c, i);
    }
    SameShapeOf(a, c);
  }

  /** Resolution reads only names and depths, so locals of the same shape
      resolve alike. */
  lemma ShapeResolves(before: seq<Local>, after: seq<Local>, name: string)
    requires SameShape(before, after)
    ensures ResolveLocalSpec(before, name) == ResolveLocalSpec(after, name)
  {
    forall j | 0 <= j < |before|
      ensures before[j].name == after[j].name && before[j].depth == after[j].depth
    {
      SameShapeAt(before, after, j);
    }
    SameNamesMatch(before, after, name, |before|);
  }

  lemma {:induction false} SameNamesMatch(before: seq<Local>, after: seq<Local>, name: string, n: nat)
    requires n <= |before| == |after|
    requires forall j :: 0 <= j < |before| ==> before[j].name == after[j].name
    ensures LastMatch(before, name, n) == LastMatch(after, name, n)
    decreases n
  {
    if n > 0 {
      SameNamesMatch(before, after, name, n - 1);
    }
  }
}
