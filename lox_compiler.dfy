/** The single-pass Pratt compiler of the `src/` interpreter
    (`src/compiler.rs`): it pulls tokens from the scanner one at a time and
    emits bytecode for one expression into a chunk, with the precedence
    ladder, the rule table, panic-mode error reporting, and a final return.

    `scan_token` returns `None` once the source is exhausted, where the
    compiler expects a token of kind `EOF`; the model turns that `None` into
    an `EOF` token on the scanner's current line. */
module LoxCompiler {
  import opened Base
  import S = Scanner
  import LoxChunk
  import LoxValue

  // ---------------------------------------------------------------------
  // Precedence and the rule table

  /** `Precedence`; `Precedence::None` is `NoPrecedence` here. */
  datatype Precedence =
    | NoPrecedence | Assignment | Or | And | Equality | Comparison
    | Term | Factor | Unary | Call | Primary

  /** The discriminant (`#[repr(u8)]`), which the derived `PartialOrd`
      compares. */
  function Level(p: Precedence): nat
  {
    match p
    case NoPrecedence => 0
    case Assignment => 1
    case Or => 2
    case And => 3
    case Equality => 4
    case Comparison => 5
    case Term => 6
    case Factor => 7
    case Unary => 8
    case Call => 9
    case Primary => 10
  }

  /** `Precedence::higher`: the next level up; `Call` and `Primary` both go
      to `Primary`. */
  function Higher(p: Precedence): Precedence
  {
    match p
    case NoPrecedence => Assignment
    case Assignment => Or
    case Or => And
    case And => Equality
    case Equality => Comparison
    case Comparison => Term
    case Term => Factor
    case Factor => Unary
    case Unary => Call
    case _ => Primary
  }

  /** The levels are the numbers 0 to 10, one per precedence. */
  lemma LevelInjective(p: Precedence, q: Precedence)
    ensures Level(p) <= 10
    ensures Level(p) == Level(q) ==> p == q
  {
  }

  /** `higher` never goes down, climbs exactly one level below `Primary`,
      and stays put only at `Primary`. */
  lemma HigherClimbs(p: Precedence)
    ensures Level(p) <= Level(Higher(p))
    ensures Higher(p) == p <==> p == Primary
    ensures p != Primary ==> Level(Higher(p)) == Level(p) + 1
  {
  }

  /** The parse functions a rule can name. */
  datatype PrefixFn = GroupingFn | UnaryFn | NumberFn | LiteralFn
  datatype InfixFn = BinaryFn

  /** `ParseRule`: the prefix function, the infix function, and the
      precedence of the token as an infix operator. */
  datatype Rule = Rule(prefix: Option<PrefixFn>, infix: Option<InfixFn>, precedence: Precedence)

  /** `get_rule`. */
  function GetRule(kind: S.TokenKind): (r: Rule)
    ensures r.infix.Some? <==> kind in {S.Minus, S.Plus, S.Slash, S.Star}
    ensures r.prefix.Some? <==> kind in {S.LeftParen, S.Minus, S.Bang, S.Number, S.False, S.True, S.Nil}
    ensures r.precedence == if kind in {S.Minus, S.Plus} then Term else if kind in {S.Slash, S.Star} then Factor else NoPrecedence
  {
    match kind
    case LeftParen => Rule(Some(GroupingFn), None, NoPrecedence)
    case Minus => Rule(Some(UnaryFn), Some(BinaryFn), Term)
    case Plus => Rule(None, Some(BinaryFn), Term)
    case Slash => Rule(None, Some(BinaryFn), Factor)
    case Star => Rule(None, Some(BinaryFn), Factor)
    case Bang => Rule(Some(UnaryFn), None, NoPrecedence)
    case Number => Rule(Some(NumberFn), None, NoPrecedence)
    case False => Rule(Some(LiteralFn), None, NoPrecedence)
    case True => Rule(Some(LiteralFn), None, NoPrecedence)
    case Nil => Rule(Some(LiteralFn), None, NoPrecedence)
    case _ => Rule(None, None, NoPrecedence)
  }

  /** A token binds as an infix operator (has a precedence above `None`)
      exactly when it has an infix function, so the loop of
      `parse_precedence` only ever steps onto an operator it can compile. */
  lemma BindsIffInfix(kind: S.TokenKind)
    ensures Level(GetRule(kind).precedence) > 0 <==> GetRule(kind).infix.Some?
  {
  }

  /** An operator's right operand is parsed one level above the operator,
      so the operand's loop stops at the next operator of the same level,
      which the enclosing loop then takes: same-level operators associate
      to the left. Parsing at `Unary` likewise takes no binary operator. */
  lemma SameLevelStops(op: S.TokenKind, next: S.TokenKind)
    requires GetRule(op).infix.Some? && GetRule(next).precedence == GetRule(op).precedence
    ensures Level(Higher(GetRule(op).precedence)) > Level(GetRule(next).precedence)
    ensures Level(Unary) > Level(GetRule(next).precedence)
  {
  }

  /** The opcode `binary` emits after both operands of an infix token. */
  function BinaryOp(kind: S.TokenKind): (op: LoxChunk.Op)
    requires GetRule(kind).infix.Some?
    ensures kind == S.Plus <==> op == LoxChunk.Add
    ensures kind == S.Minus <==> op == LoxChunk.Subtract
    ensures kind == S.Star <==> op == LoxChunk.Multiply
    ensures kind == S.Slash <==> op == LoxChunk.Divide
  {
    if kind == S.Plus then LoxChunk.Add
    else if kind == S.Minus then LoxChunk.Subtract
    else if kind == S.Star then LoxChunk.Multiply
    else LoxChunk.Divide
  }

  // ---------------------------------------------------------------------
  // Diagnostics

  /** Where a diagnostic points: at the end, nowhere (an error token, whose
      message is its lexeme), or at a quoted text. The code quotes the
      message itself, not the token's lexeme. */
  datatype Location = AtEnd | Unplaced | Quoted(text: string)

  /** One printed diagnostic: `[line N] Error`, the location, the message. */
  datatype Report = Report(line: int, location: Location, message: string)

  /** The location `error_at` prints for a token of the kind. */
  function Placement(kind: S.TokenKind, message: string): (l: Location)
    ensures l.AtEnd? <==> kind == S.EOF
    ensures l.Unplaced? <==> kind == S.Error
    ensures l.Quoted? ==> l.text == message
  {
    if kind == S.EOF then AtEnd
    else if kind == S.Error then Unplaced
    else Quoted(message)
  }

  // ---------------------------------------------------------------------
  // make_constant: the finding and the corrected behaviour

  /** What `make_constant` does for a pool of the given size: the new index,
      a reported error yielding 0, or a panic. */
  datatype ConstantOutcome = Index(index: byte) | Reported | Panicked

  /** `make_constant` as written: `add_constant` converts the new index to a
      `u8` with `expect`, so past 255 it panics, and the `constant > u8::MAX`
      test that follows can never hold. */
  function MakeConstantAsWritten(poolSize: nat): (r: ConstantOutcome)
    ensures !r.Reported?
  {
    var constant := poolSize;
    if constant <= 255 then
      var b: byte := constant;
      if b > 255 then Reported else Index(b)
    else Panicked
  }

  /** `make_constant` as evidently intended: report "Too many constants in
      one chunk." and go on with index 0 once the pool is full. */
  function MakeConstantIntended(poolSize: nat): (r: ConstantOutcome)
    ensures !r.Panicked?
    ensures r.Index? <==> poolSize <= 255
    ensures r.Index? ==> r.index == poolSize
  {
    if poolSize <= 255 then Index(poolSize) else Reported
  }

  /** The two agree below 256 constants, and the 257th constant, which should
      be reported, panics instead. */
  lemma MakeConstantDiscrepancy(poolSize: nat)
    ensures poolSize <= 255 ==> MakeConstantAsWritten(poolSize) == MakeConstantIntended(poolSize)
    ensures poolSize > 255 ==> MakeConstantAsWritten(poolSize) == Panicked && MakeConstantIntended(poolSize) == Reported
  {
  }

  // ---------------------------------------------------------------------
  // The compiler

  /** `Compiler`: the parser's two tokens and flags, the scanner it pulls
      tokens from, and the chunk it writes. `reports` collects what the
      source prints to standard error. */
  class Compiler {
    const scanner: S.Scanner
    const chunk: LoxChunk.Chunk<LoxValue.Value>
    /** The host's float parsing, for number literals. */
    const ops: FloatOps
    var previous: Option<S.Token>
    var current: Option<S.Token>
    var hadError: bool
    var panicMode: bool
    var reports: seq<Report>
    /** Whether `add_constant`'s `expect` has panicked. The process stops
        there; the model runs on, and what it does afterwards means
        nothing. */
    var aborted: bool

    /** The scanner is the `src/` one and has seen its newlines; every
        chunk byte has its line; after the first `advance` the current token
        is never an error token, and it is `EOF` only with the scanner at
        the end. The flags are set together, by the one report panic mode
        lets through. A panic of `add_constant` left more than 256
        constants. */
    ghost predicate Valid()
      reads this, scanner, chunk
    {
      scanner.Valid() && scanner.dialect == S.Lox && chunk.Valid() && (aborted ==> |chunk.constants| > 256)
      && (current.Some? ==> current.value.kind != S.Error)
      && (current.Some? && current.value.kind == S.EOF ==> scanner.pos == |scanner.source|)
      && hadError == panicMode && (panicMode <==> reports != []) && |reports| <= 1
    }

    /** Compilation has started: both tokens are there. */
    ghost predicate Started()
      reads this
    {
      previous.Some? && current.Some?
    }

    /** What is left to read: twice the unread characters, plus one unless
        the current token is the final `EOF`. Every `advance` over a token
        other than `EOF` makes it smaller. */
    ghost function Remaining(): nat
      reads this, scanner
      requires scanner.Valid()
    {
      2 * (|scanner.source| - scanner.pos) + (if current.Some? && current.value.kind == S.EOF then 0 else 1)
    }

    /** `Compiler::new`. */
    constructor (scanner: S.Scanner, chunk: LoxChunk.Chunk<LoxValue.Value>, ops: FloatOps)
      requires scanner.Valid() && scanner.dialect == S.Lox && chunk.Valid()
      ensures Valid() && this.scanner == scanner && this.chunk == chunk && this.ops == ops
      ensures previous == None && current == None && !hadError && !panicMode && reports == [] && !aborted
    {
      this.scanner, this.chunk, this.ops := scanner, chunk, ops;
      previous, current := None, None;
      hadError, panicMode, reports, aborted := false, false, [], false;
    }

    /** `error_at`: nothing under panic mode; otherwise one report, and both
        flags set. Nothing clears them. */
    method ErrorAt(line: int, kind: S.TokenKind, message: string)
      requires Valid()
      modifies this`hadError, this`panicMode, this`reports
      ensures Valid() && panicMode
      ensures old(panicMode) ==> reports == old(reports)
      ensures !old(panicMode) ==> reports == old(reports) + [Report(line, Placement(kind, message), message)]
    {
      if panicMode {
        return;
      }
      panicMode := true;
      reports := reports + [Report(line, Placement(kind, message), message)];
      hadError := true;
    }

    /** `error_at_current`. */
    method ErrorAtCurrent(message: string)
      requires Valid() && current.Some?
      modifies this`hadError, this`panicMode, this`reports
      ensures Valid() && panicMode
      ensures old(panicMode) ==> reports == old(reports)
      ensures !old(panicMode) ==>
        reports == old(reports) + [Report(current.value.line, Placement(current.value.kind, message), message)]
    {
      ErrorAt(current.value.line, current.value.kind, message);
    }

    /** `error`: at the previous token. */
    method Error(message: string)
      requires Valid() && previous.Some?
      modifies this`hadError, this`panicMode, this`reports
      ensures Valid() && panicMode
      ensures old(panicMode) ==> reports == old(reports)
      ensures !old(panicMode) ==>
        reports == old(reports) + [Report(previous.value.line, Placement(previous.value.kind, message), message)]
    {
      ErrorAt(previous.value.line, previous.value.kind, message);
    }

    /** `scan_token`, with `None` read as an `EOF` token. */
    method ScanToken() returns (t: S.Token)
      requires Valid()
      modifies scanner`pos, scanner`lines, scanner`start
      ensures Valid() && old(scanner.pos) <= scanner.pos
      ensures t.kind == S.EOF ==> scanner.pos == |scanner.source|
      ensures t.kind != S.EOF ==> old(scanner.pos) < scanner.pos
      ensures var i := S.SkipEnd(scanner.source, old(scanner.pos));
        t == if i == |scanner.source| then S.Token(S.EOF, scanner.lines, "") else S.TokenAt(S.Lox, scanner.source, i)
    {
      var r := scanner.Next();
      if r.None? {
        t := S.Token(S.EOF, scanner.lines, "");
      } else {
        t := r.value;
      }
    }

    /** The next token the scanner makes is an error token. */
    ghost predicate ErrorTokenNext()
      reads scanner
      requires scanner.Valid()
    {
      var i := S.SkipEnd(scanner.source, scanner.pos);
      i < |scanner.source| && S.TokenAt(S.Lox, scanner.source, i).kind == S.Error
    }

    /** The loop of `advance`: tokens are scanned until one is not an error
        token; each error token is reported (its lexeme is the message).
        Outside panic mode, the first error token met is the one report;
        when the next token is no error token, nothing is reported. */
    method ScanPastErrors() returns (token: S.Token)
      requires Valid()
      modifies this`hadError, this`panicMode, this`reports
      modifies scanner`pos, scanner`lines, scanner`start
      ensures Valid() && token.kind != S.Error && old(scanner.pos) <= scanner.pos
      ensures token.kind == S.EOF ==> scanner.pos == |scanner.source|
      ensures token.kind != S.EOF ==> old(scanner.pos) < scanner.pos
      ensures old(panicMode) ==> panicMode && reports == old(reports)
      ensures !old(panicMode) ==>
        (!panicMode ==> reports == old(reports)) && (panicMode ==> |reports| == |old(reports)| + 1)
      ensures old(ErrorTokenNext()) ==> panicMode
      ensures !old(ErrorTokenNext()) ==> panicMode == old(panicMode) && reports == old(reports)
      ensures current == old(current) && previous == old(previous)
    {
      ghost var first := true;
      while true
        invariant Valid() && old(scanner.pos) <= scanner.pos
        invariant current == old(current) && previous == old(previous)
        invariant old(panicMode) ==> panicMode && reports == old(reports)
        invariant !old(panicMode) ==>
          (!panicMode ==> reports == old(reports)) && (panicMode ==> |reports| == |old(reports)| + 1)
        invariant first ==> scanner.pos == old(scanner.pos) && panicMode == old(panicMode) && reports == old(reports)
        invariant !first ==> panicMode && old(ErrorTokenNext())
        decreases |scanner.source| - scanner.pos
      {
        token := ScanToken();
        if token.kind != S.Error {
          return;
        }
        // `error_at_current`, with the error token as the current one
        ErrorAt(token.line, token.kind, token.lexeme);
        first := false;
      }
    }

    /** `advance`: the current token becomes the previous one, and the next
        token that is not an error token becomes the current one. */
    method Advance()
      requires Valid()
      modifies this`previous, this`current, this`hadError, this`panicMode, this`reports
      modifies scanner`pos, scanner`lines, scanner`start
      ensures Valid() && current.Some? && previous == old(current)
      ensures old(panicMode) ==> panicMode && reports == old(reports)
      ensures !old(panicMode) ==>
        (!panicMode ==> reports == old(reports)) && (panicMode ==> |reports| == |old(reports)| + 1)
      ensures old(ErrorTokenNext()) ==> panicMode
      ensures !old(ErrorTokenNext()) ==> panicMode == old(panicMode) && reports == old(reports)
      ensures Remaining() <= old(Remaining())
      ensures old(current).None? || old(current).value.kind != S.EOF ==> Remaining() < old(Remaining())
    {
      previous := current;
      current := None;
      var token := ScanPastErrors();
      current := Some(token);
    }

    /** `consume`: advance over a token of the kind, or report the message
        at the current token. */
    method Consume(kind: S.TokenKind, message: string)
      requires Valid() && Started()
      modifies this`previous, this`current, this`hadError, this`panicMode, this`reports
      modifies scanner`pos, scanner`lines, scanner`start
      ensures Valid() && Started() && Remaining() <= old(Remaining())
      ensures old(panicMode) ==> panicMode && reports == old(reports)
      ensures old(current.value.kind) == kind ==> previous == old(current)
      ensures old(current.value.kind) != kind ==>
        panicMode && previous == old(previous) && current == old(current)
        && (!old(panicMode) ==> reports == old(reports) + [Report(current.value.line, Placement(current.value.kind, message), message)])
    {
      if current.value.kind == kind {
        Advance();
        return;
      }
      ErrorAtCurrent(message);
    }

    /** `emit_byte`: the byte goes into the chunk with the previous token's
        line. */
    method EmitByte(b: byte)
      requires Valid() && Started()
      modifies chunk`code, chunk`lines
      ensures Valid()
      ensures chunk.code == old(chunk.code) + [b] && chunk.lines == old(chunk.lines) + [previous.value.line]
    {
      chunk.Write(b, previous.value.line);
    }

    /** `emit_bytes`. */
    method EmitBytes(b1: byte, b2: byte)
      requires Valid() && Started()
      modifies chunk`code, chunk`lines
      ensures Valid()
      ensures chunk.code == old(chunk.code) + [b1, b2]
      ensures chunk.lines == old(chunk.lines) + [previous.value.line, previous.value.line]
    {
      EmitByte(b1);
      EmitByte(b2);
    }

    /** `emit_return`. */
    method EmitReturn()
      requires Valid() && Started()
      modifies chunk`code, chunk`lines
      ensures Valid()
      ensures chunk.code == old(chunk.code) + [LoxChunk.OpByte(LoxChunk.Return)]
      ensures chunk.lines == old(chunk.lines) + [previous.value.line]
    {
      EmitByte(LoxChunk.OpByte(LoxChunk.Return));
    }

    /** `make_constant`: `add_constant` pushes the value and converts its
        index to a `u8` with `expect`, which panics past 255; the
        `constant > u8::MAX` test that follows can never hold, so nothing is
        ever reported. */
    method MakeConstant(value: LoxValue.Value) returns (index: byte)
      requires Valid() && Started()
      modifies chunk`constants, this`aborted
      ensures Valid() && reports == old(reports) && panicMode == old(panicMode)
      ensures chunk.constants == old(chunk.constants) + [value]
      ensures |old(chunk.constants)| <= 255 ==> index == |old(chunk.constants)| && aborted == old(aborted)
      ensures |old(chunk.constants)| > 255 ==> aborted && index == 0
    {
      var constant := chunk.AddConstant(value);
      if constant.None? {
        aborted := true;
        return 0;
      }
      index := constant.value;
    }

    /** `emit_constant`: `Constant` and the new index; past 255 the run has
        panicked. */
    method EmitConstant(value: LoxValue.Value)
      requires Valid() && Started()
      modifies chunk, this`aborted
      ensures Valid() && reports == old(reports) && panicMode == old(panicMode)
      ensures chunk.constants == old(chunk.constants) + [value]
      ensures chunk.code == old(chunk.code) + [LoxChunk.OpByte(LoxChunk.Constant), if |old(chunk.constants)| <= 255 then |old(chunk.constants)| else 0]
      ensures |old(chunk.constants)| <= 255 ==> chunk.constants[chunk.code[|chunk.code| - 1]] == value && aborted == old(aborted)
      ensures |old(chunk.constants)| > 255 ==> aborted
    {
      var constant := MakeConstant(value);
      EmitBytes(LoxChunk.OpByte(LoxChunk.Constant), constant);
    }

    /** `binary`: the right operand is parsed one level above the operator,
        and the operator's opcode follows both operands. */
    method Binary()
      requires Valid() && Started() && GetRule(previous.value.kind).infix.Some?
      modifies this, scanner`pos, scanner`lines, scanner`start, chunk
      ensures Valid() && Started() && Remaining() <= old(Remaining())
      ensures old(panicMode) ==> panicMode && reports == old(reports)
      ensures old(chunk.code) < chunk.code
      ensures chunk.code[|chunk.code| - 1] == LoxChunk.OpByte(BinaryOp(old(previous.value.kind)))
      ensures !old(panicMode) && !panicMode ==>
        Level(Higher(GetRule(old(previous.value.kind)).precedence)) > Level(GetRule(current.value.kind).precedence)
      decreases Remaining(), 2
    {
      var operatorType := previous.value.kind;
      var rule := GetRule(operatorType);
      ParsePrecedence(Higher(rule.precedence));
      EmitByte(LoxChunk.OpByte(BinaryOp(operatorType)));
    }

    /** `literal`: `false`, `nil` and `true` each push their constant. */
    method Literal()
      requires Valid() && Started()
      modifies chunk`code, chunk`lines
      ensures Valid()
      ensures var k := previous.value.kind;
        chunk.code == old(chunk.code) +
          (if k == S.False then [LoxChunk.OpByte(LoxChunk.False)]
           else if k == S.Nil then [LoxChunk.OpByte(LoxChunk.Nil)]
           else if k == S.True then [LoxChunk.OpByte(LoxChunk.True)]
           else [])
    {
      var k := previous.value.kind;
      if k == S.False {
        EmitByte(LoxChunk.OpByte(LoxChunk.False));
      } else if k == S.Nil {
        EmitByte(LoxChunk.OpByte(LoxChunk.Nil));
      } else if k == S.True {
        EmitByte(LoxChunk.OpByte(LoxChunk.True));
      }
    }

    /** `grouping`: an expression and its closing parenthesis. */
    method Grouping()
      requires Valid() && Started()
      modifies this, scanner`pos, scanner`lines, scanner`start, chunk
      ensures Valid() && Started() && Remaining() <= old(Remaining())
      ensures old(panicMode) ==> panicMode && reports == old(reports)
      ensures old(chunk.code) <= chunk.code
      decreases Remaining(), 3
    {
      Expression();
      Consume(S.RightParen, "Expect ')' after expression.");
    }

    /** `number`: the lexeme read as a float, as a constant. */
    method Number()
      requires Valid() && Started()
      modifies chunk, this`aborted
      ensures Valid() && reports == old(reports) && panicMode == old(panicMode)
      ensures chunk.constants == old(chunk.constants) + [LoxValue.Number(ops.parse(previous.value.lexeme))]
      ensures chunk.code == old(chunk.code) + [LoxChunk.OpByte(LoxChunk.Constant), if |old(chunk.constants)| <= 255 then |old(chunk.constants)| else 0]
      ensures |old(chunk.constants)| <= 255 ==> aborted == old(aborted)
      ensures |old(chunk.constants)| > 255 ==> aborted
    {
      var value := ops.parse(previous.value.lexeme);
      EmitConstant(LoxValue.Number(value));
    }

    /** `unary`: the operand is parsed at `Unary`, then `-` emits Negate and
        `!` emits Not. */
    method Unary()
      requires Valid() && Started() && previous.value.kind in {S.Minus, S.Bang}
      modifies this, scanner`pos, scanner`lines, scanner`start, chunk
      ensures Valid() && Started() && Remaining() <= old(Remaining())
      ensures old(panicMode) ==> panicMode && reports == old(reports)
      ensures old(chunk.code) < chunk.code
      ensures chunk.code[|chunk.code| - 1] ==
        if old(previous.value.kind) == S.Minus then LoxChunk.OpByte(LoxChunk.Negate) else LoxChunk.OpByte(LoxChunk.Not)
      ensures !old(panicMode) && !panicMode ==> Level(Precedence.Unary) > Level(GetRule(current.value.kind).precedence)
      decreases Remaining(), 2
    {
      var operatorType := previous.value.kind;
      ParsePrecedence(Precedence.Unary);
      if operatorType == S.Minus {
        EmitByte(LoxChunk.OpByte(LoxChunk.Negate));
      } else {
        EmitByte(LoxChunk.OpByte(LoxChunk.Not));
      }
    }

    /** The prefix function of a rule, called on the token just passed. */
    method Prefix(f: PrefixFn)
      requires Valid() && Started() && GetRule(previous.value.kind).prefix == Some(f)
      modifies this, scanner`pos, scanner`lines, scanner`start, chunk
      ensures Valid() && Started() && Remaining() <= old(Remaining())
      ensures old(panicMode) ==> panicMode && reports == old(reports)
      ensures old(chunk.code) <= chunk.code
      decreases Remaining(), 4
    {
      match f
      case GroupingFn => Grouping();
      case UnaryFn => Unary();
      case NumberFn => Number();
      case LiteralFn => Literal();
    }

    /** The report of a token that cannot start an expression. */
    const ExpectExpression := "Expect expression."

    /** `parse_precedence`: a prefix expression, then every infix operator
        that binds at least as tightly as `precedence`. Without a prefix
        rule for the first token, "Expect expression." is reported (unless
        panic mode, or an error token met while advancing, silences it) and
        nothing is emitted. When no error occurs, the loop stops at a token
        that binds more loosely than `precedence`. */
    method ParsePrecedence(precedence: Precedence)
      requires Valid() && current.Some? && precedence != NoPrecedence
      modifies this, scanner`pos, scanner`lines, scanner`start, chunk
      ensures Valid() && Started() && Remaining() <= old(Remaining())
      ensures old(panicMode) ==> panicMode && reports == old(reports)
      ensures old(chunk.code) <= chunk.code
      ensures GetRule(old(current.value.kind)).prefix.None? ==> panicMode && chunk.code == old(chunk.code)
      ensures GetRule(old(current.value.kind)).prefix.None? && !old(panicMode) ==> |reports| == |old(reports)| + 1
      ensures GetRule(old(current.value.kind)).prefix.None? && !old(panicMode) && !old(ErrorTokenNext()) ==>
        reports == old(reports) + [Report(old(current.value.line), Placement(old(current.value.kind), ExpectExpression), ExpectExpression)]
      ensures !old(panicMode) && !panicMode ==> Level(precedence) > Level(GetRule(current.value.kind).precedence)
      decreases Remaining(), 1
    {
      Advance();
      var prefixRule := GetRule(previous.value.kind).prefix;
      if prefixRule.None? {
        Error(ExpectExpression);
        return;
      }
      Prefix(prefixRule.value);
      InfixOperators(precedence);
    }

    /** The loop of `parse_precedence`: while the current token binds at
        least as tightly as `precedence`, advance over it and compile it as
        an infix operator. It stops at a token that binds more loosely. */
    method InfixOperators(precedence: Precedence)
      requires Valid() && Started() && precedence != NoPrecedence
      modifies this, scanner`pos, scanner`lines, scanner`start, chunk
      ensures Valid() && Started() && Remaining() <= old(Remaining())
      ensures old(panicMode) ==> panicMode && reports == old(reports)
      ensures old(chunk.code) <= chunk.code
      ensures Level(precedence) > Level(GetRule(current.value.kind).precedence)
      decreases Remaining(), 0
    {
      while Level(precedence) <= Level(GetRule(current.value.kind).precedence)
        invariant Valid() && Started() && Remaining() <= old(Remaining())
        invariant old(panicMode) ==> panicMode && reports == old(reports)
        invariant old(chunk.code) <= chunk.code
        decreases Remaining()
      {
        assert current.value.kind in {S.Minus, S.Plus, S.Slash, S.Star};
        Advance();
        var infixRule := GetRule(previous.value.kind).infix;
        if infixRule.Some? {
          Binary();
        }
      }
    }

    /** `expression`: everything from `Assignment` up. */
    method Expression()
      requires Valid() && current.Some?
      modifies this, scanner`pos, scanner`lines, scanner`start, chunk
      ensures Valid() && Started() && Remaining() <= old(Remaining())
      ensures old(panicMode) ==> panicMode && reports == old(reports)
      ensures old(chunk.code) <= chunk.code
      ensures !old(panicMode) && !panicMode ==> GetRule(current.value.kind).precedence == NoPrecedence
      decreases Remaining(), 2
    {
      ParsePrecedence(Assignment);
    }

    /** `end_compiler`: exactly one Return; the disassembly it prints when
        there was no error is left out. */
    method EndCompiler()
      requires Valid() && Started()
      modifies chunk`code, chunk`lines
      ensures Valid()
      ensures chunk.code == old(chunk.code) + [LoxChunk.OpByte(LoxChunk.Return)]
      ensures chunk.lines == old(chunk.lines) + [previous.value.line]
    {
      EmitReturn();
    }

    /** `Compiler::compile`: one expression, then the return; the result is
        whether no error was reported. */
    method CompileExpression() returns (ok: bool)
      requires Valid() && previous.None? && current.None? && !panicMode
      modifies this, scanner`pos, scanner`lines, scanner`start, chunk
      ensures Valid() && Started()
      ensures ok <==> !hadError
      ensures ok <==> reports == []
      ensures |chunk.code| > |old(chunk.code)| && chunk.code[..|old(chunk.code)|] == old(chunk.code)
      ensures chunk.code[|chunk.code| - 1] == LoxChunk.OpByte(LoxChunk.Return)
    {
      Advance();
      Expression();
      EndCompiler();
      ok := !hadError;
    }
  }

  /** `compile`: a fresh scanner over the source and a compiler writing into
      `chunk`; true when no error was reported. `reports` are the errors
      the compiler wrote to standard error. `panicked` says that a 257th
      constant made `add_constant` panic. */
  method Compile(source: seq<char>, chunk: LoxChunk.Chunk<LoxValue.Value>, ops: FloatOps) returns (ok: bool, reports: seq<Report>, panicked: bool)
    requires chunk.Valid()
    modifies chunk
    ensures ok <==> reports == []
    ensures chunk.Valid() && (panicked ==> |chunk.constants| > 256)
    ensures |chunk.code| > |old(chunk.code)| && chunk.code[..|old(chunk.code)|] == old(chunk.code)
    ensures chunk.code[|chunk.code| - 1] == LoxChunk.OpByte(LoxChunk.Return)
  {
    var scanner := new S.Scanner(S.Lox, source);
    var compiler := new Compiler(scanner, chunk, ops);
    ok := compiler.CompileExpression();
    reports := compiler.reports;
    panicked := compiler.aborted;
    assert compiler.Valid();
  }
}
