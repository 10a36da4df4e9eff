/** The recursive-descent parser of rustlox (`rustlox/src/parser.rs`): it
    turns the scanner's tokens into the syntax tree, reports the first error
    it meets (panic mode, never cleared) and resynchronises at statement
    boundaries. Diagnostics, which the source prints, are collected in
    `reports`. */
module RustloxParser {
  import opened Base
  import S = Scanner
  import A = RustloxAst

  /** Where a diagnostic points: past the last token, at a lexeme, or
      nowhere in particular (for an error token, whose lexeme is already the
      message). */
  datatype Location = AtEnd | AtLexeme(lexeme: string) | Unplaced

  /** The diagnostics the parser can print, one constructor per message
      text (the text is shown beside each). The texts are not modelled as
      strings: nothing in the parser depends on them. */
  datatype Message =
    | FunctionName        // Expect function name.
    | FunctionNameParen   // Expect '(' after function name
    | ParametersParen     // Expect ')' after parameters.
    | BodyBrace           // Expect '{' before function body.
    | TooManyParameters   // Can't have more than 255 parameters.
    | ParameterName       // Expect parameter name.
    | VariableName        // Expect variable name.
    | VariableSemicolon   // Expect ';' after variable declaration.
    | ForParen            // Expect '(' after 'for'.
    | ConditionSemicolon  // Expect ';' after loop condition.
    | ForClausesParen     // Expect ')' after for clauses
    | IfParen             // Expect '(' after 'if'.
    | ConditionParen      // Expect ')' after condition.
    | ValueSemicolon      // Expect ';' after value.
    | ReturnSemicolon     // Expect ';' after return value.
    | WhileParen          // Expect '(' after 'while'.
    | BlockBrace          // Expect '}' after block.
    | ExpressionSemicolon // Expect ';' after expression.
    | InvalidAssignment   // Invalid assignment target.
    | TooManyArguments    // Can't have more than 255 arguments.
    | ArgumentsParen      // Expect ')' after args.
    | GroupingParen       // Expect ')' after expression
    | ExpectedExpression  // Expected expression.

  /** One printed diagnostic. */
  datatype Report = Report(line: int, location: Location, message: Message)

  /** The parser's `Loop` enum. */
  datatype LoopKind = NoLoop | WhileLoop | ForLoop

  // ---------------------------------------------------------------------
  // The shape of what the parser builds

  /** The grammar level of a binary operator: equality 4, comparison 5,
      term 6, factor 7; 0 for a token that is no binary operator. */
  function BinaryLevel(k: S.TokenKind): (level: nat)
    ensures level == 0 || 4 <= level <= 7
  {
    if k == S.EqualEqual || k == S.BangEqual then 4
    else if k == S.Greater || k == S.GreaterEqual || k == S.Less || k == S.LessEqual then 5
    else if k == S.Plus || k == S.Minus then 6
    else if k == S.Star || k == S.Slash then 7
    else 0
  }

  /** The expressions the grammar derives from level `k` upwards, where
      the levels are assignment 1, `or` 2, `and` 3, equality 4, comparison
      5, term 6, factor 7, unary 8, call 9 and primary 10. An operator at
      level `n` is a tree at level `n` or below; `or`, comparison, term and
      factor are left-associative (the right operand comes from the level
      above), `and` and equality nest to the right (the left operand comes
      from the level above). A call's callee is a primary, so a call has
      a single argument list. */
  predicate Shaped(e: A.Expr, k: nat)
  {
    match e
    case Assign(name, value) => k <= 1 && name.kind == S.Identifier && Shaped(value, 1)
    case Logical(l, op, r) =>
      if op.kind == S.Or then k <= 2 && Shaped(l, 2) && Shaped(r, 3)
      else op.kind == S.And && k <= 3 && Shaped(l, 4) && Shaped(r, 3)
    case Binary(l, op, r) =>
      var n := BinaryLevel(op.kind);
      n != 0 && k <= n
      && (if n == 4 then Shaped(l, 5) && Shaped(r, 4) else Shaped(l, n) && Shaped(r, n + 1))
    case Unary(op, r) => k <= 8 && (op.kind == S.Bang || op.kind == S.Minus) && Shaped(r, 8)
    case Call(callee, paren, args) =>
      k <= 9 && paren.kind == S.RightParen && Shaped(callee, 10)
      && forall i :: 0 <= i < |args| ==> Shaped(args[i], 1)
    case Literal(t) => t.kind in {S.False, S.True, S.Nil, S.Number, S.String}
    case Variable(t) => t.kind == S.Identifier
    case Grouping(inner) => Shaped(inner, 1)
  }

  /** What a level derives, every level below it derives too. */
  lemma ShapedMonotone(e: A.Expr, j: nat, k: nat)
    requires Shaped(e, k) && j <= k
    ensures Shaped(e, j)
  {
  }

  /** The statements the parser can produce. `break` and `continue` are not
      among them: their parsing is commented out. */
  predicate WellFormedStmt(s: A.Stmt)
  {
    match s
    case Block(statements) => forall i :: 0 <= i < |statements| ==> WellFormedStmt(statements[i])
    case Break(_) => false
    case Continue(_) => false
    case Expression(e) => Shaped(e, 1)
    case For(init, cond, inc, body) =>
      (init.Some? ==> (init.value.Var? || init.value.Expression?) && WellFormedStmt(init.value))
      && (cond.Some? ==> Shaped(cond.value, 1))
      && (inc.Some? ==> Shaped(inc.value, 1))
      && WellFormedStmt(body)
    case Function(name, params, body, _, brace) =>
      name.kind == S.Identifier && brace.kind == S.RightBrace
      && (forall i :: 0 <= i < |params| ==> params[i].kind == S.Identifier)
      && (forall i :: 0 <= i < |body| ==> WellFormedStmt(body[i]))
    case If(c, t, e) => Shaped(c, 1) && WellFormedStmt(t) && (e.Some? ==> WellFormedStmt(e.value))
    case Print(k, e) => k.kind == S.Print && Shaped(e, 1)
    case Return(k, v) => k.kind == S.Return && (v.Some? ==> Shaped(v.value, 1))
    case Var(name, init) => name.kind == S.Identifier && (init.Some? ==> Shaped(init.value, 1))
    case While(c, b) => Shaped(c, 1) && WellFormedStmt(b)
  }

  /** Left associativity: `a - b - c` can only be `(a - b) - c`. */
  lemma TermIsLeftAssociative(l: A.Expr, op: S.Token, r: A.Expr)
    requires Shaped(A.Binary(l, op, r), 1) && BinaryLevel(op.kind) == 6
    ensures !(r.Binary? && BinaryLevel(r.operator.kind) == 6)
  {
  }

  /** Right nesting: `a == b == c` can only be `a == (b == c)`. */
  lemma EqualityNestsRight(l: A.Expr, op: S.Token, r: A.Expr)
    requires Shaped(A.Binary(l, op, r), 1) && BinaryLevel(op.kind) == 4
    ensures !(l.Binary? && BinaryLevel(l.operator.kind) == 4)
  {
  }

  /** A tighter operator never holds a looser one as a bare operand: the
      operands of `*` and `/` are unary expressions or above, unless
      parenthesised. */
  lemma FactorOperands(l: A.Expr, op: S.Token, r: A.Expr)
    requires Shaped(A.Binary(l, op, r), 1) && BinaryLevel(op.kind) == 7
    ensures !l.Assign? && !l.Logical? && !(l.Binary? && BinaryLevel(l.operator.kind) < 7)
    ensures !r.Assign? && !r.Logical? && !r.Binary?
  {
  }

  /** The header of a function declaration. */
  datatype Signature = Signature(name: S.Token, params: seq<S.Token>)

  /** The three clauses of a `for` loop. */
  datatype ForClauses = ForClauses(init: Option<A.Stmt>, cond: Option<A.Expr>, increment: Option<A.Expr>)

  /** The keywords at which `synchronize` stops. */
  predicate StatementStart(k: S.TokenKind)
  {
    k in {S.Class, S.Fun, S.Var, S.For, S.If, S.While, S.Print, S.Return}
  }

  /** `synchronize` goes on past position `k`: the token before it is not
      a `;` and the token at it starts no statement. */
  predicate PassesOver(tokens: seq<S.Token>, k: nat)
  {
    0 < k < |tokens| && tokens[k - 1].kind != S.Semicolon && !StatementStart(tokens[k].kind)
  }

  // ---------------------------------------------------------------------
  // The parser object

  class Parser {
    const tokens: seq<S.Token>
    /** The index of the next token. */
    var current: nat
    /** The line used for diagnostics at the end of input. */
    const lastLine: int
    var hadError: bool
    var panicMode: bool
    var functionKind: A.FunctionKind
    var loopKind: LoopKind
    var reports: seq<Report>

    /** `had_error` and `panic_mode` are set together and never cleared, so
        at most one diagnostic is ever printed, and it is printed exactly
        when they are set. */
    ghost predicate Valid()
      reads this`current, this`hadError, this`panicMode, this`reports
    {
      0 < |tokens| && current <= |tokens| && lastLine == tokens[|tokens| - 1].line
      && hadError == panicMode && (panicMode <==> reports != []) && |reports| <= 1
    }

    /** `Parser::new`: `last()` panics on an empty vector. */
    constructor (tokens: seq<S.Token>)
      requires |tokens| > 0
      ensures Valid() && this.tokens == tokens && current == 0
      ensures !hadError && !panicMode && reports == []
      ensures functionKind == A.Script && loopKind == NoLoop
    {
      this.tokens := tokens;
      current := 0;
      lastLine := tokens[|tokens| - 1].line;
      hadError, panicMode := false, false;
      functionKind, loopKind := A.Script, NoLoop;
      reports := [];
    }

    function Peek(): (t: Option<S.Token>)
      reads this
      requires current <= |tokens|
      ensures t.Some? <==> current < |tokens|
      ensures t.Some? ==> t.value == tokens[current]
    {
      if current < |tokens| then Some(tokens[current]) else None
    }

    predicate IsAtEnd()
      reads this
      requires current <= |tokens|
    {
      Peek().None?
    }

    /** `previous().unwrap()`. */
    function Previous(): (t: S.Token)
      reads this
      requires 0 < current <= |tokens|
      ensures t == tokens[current - 1]
    {
      tokens[current - 1]
    }

    predicate Check(kind: S.TokenKind)
      reads this
      requires current <= |tokens|
    {
      Peek().Some? && Peek().value.kind == kind
    }

    /** `advance`: steps over the current token unless at the end, and
        returns the token just passed. */
    method Advance() returns (t: S.Token)
      requires Valid()
      modifies this`current
      ensures Valid()
      ensures current == if old(current) < |tokens| then old(current) + 1 else old(current)
      ensures 0 < current && t == tokens[current - 1]
    {
      if !IsAtEnd() {
        current := current + 1;
      }
      t := Previous();
    }

    /** `match_current`. */
    method MatchCurrent(kind: S.TokenKind) returns (matched: bool)
      requires Valid()
      modifies this`current
      ensures Valid()
      ensures matched <==> old(Check(kind))
      ensures current == if matched then old(current) + 1 else old(current)
      ensures matched ==> tokens[current - 1].kind == kind
    {
      if Check(kind) {
        var _ := Advance();
        return true;
      }
      return false;
    }

    /** The current token is an operator of the binary level. */
    predicate AtOperator(level: nat)
      reads this
    {
      current < |tokens| && BinaryLevel(tokens[current].kind) == level
    }

    /** `match_current(a) || match_current(b) || …` over the operators of
        one binary level: the kinds are distinct and all compared with the
        same token, so at most one matches. */
    method MatchOperator(level: nat) returns (matched: bool)
      requires Valid() && 4 <= level <= 7
      modifies this`current
      ensures Valid()
      ensures matched <==> old(AtOperator(level))
      ensures current == if matched then old(current) + 1 else old(current)
      ensures matched ==> BinaryLevel(tokens[current - 1].kind) == level
    {
      if current < |tokens| && BinaryLevel(tokens[current].kind) == level {
        var _ := Advance();
        return true;
      }
      return false;
    }

    /** `error`: nothing under panic mode; otherwise one diagnostic, and
        both flags set. */
    method Error(token: Option<S.Token>, message: Message)
      requires Valid()
      modifies this`hadError, this`panicMode, this`reports
      ensures Valid() && panicMode
      ensures old(panicMode) ==> reports == old(reports)
      ensures !old(panicMode) ==>
        reports == old(reports) + [Report(if token.Some? then token.value.line else lastLine,
                                          if token.None? then AtEnd
                                          else if token.value.kind == S.Error then Unplaced
                                          else AtLexeme(token.value.lexeme),
                                          message)]
    {
      if panicMode {
        return;
      }
      var line := if token.Some? then token.value.line else lastLine;
      var location := if token.None? then AtEnd
                      else if token.value.kind == S.Error then Unplaced
                      else AtLexeme(token.value.lexeme);
      reports := reports + [Report(line, location, message)];
      panicMode := true;
      hadError := true;
    }

    /** `consume`: the expected token is passed and returned; anything
        else is reported at the current token and nothing is consumed. */
    method Consume(kind: S.TokenKind, message: Message) returns (r: Result<S.Token, ()>)
      requires Valid()
      modifies this`current, this`hadError, this`panicMode, this`reports
      ensures Valid() && (old(panicMode) ==> panicMode && reports == old(reports))
      ensures old(Check(kind)) ==>
        current == old(current) + 1 && r == Ok(tokens[old(current)]) && reports == old(reports)
      ensures !old(Check(kind)) ==> current == old(current) && r.Err? && panicMode
      ensures !old(Check(kind)) && !old(panicMode) ==> |reports| == 1 && reports[0].message == message
    {
      if Check(kind) {
        var _ := Advance();
        return Ok(Previous());
      }
      Error(Peek(), message);
      return Err(());
    }

    // -------------------------------------------------------------------
    // Declarations and statements

    method Declaration() returns (r: Result<A.Stmt, ()>)
      requires Valid()
      modifies this
      ensures Valid() && old(current) <= current && (old(panicMode) ==> panicMode && reports == old(reports))
      ensures r.Err? ==> panicMode
      ensures r.Ok? ==> old(current) < current && WellFormedStmt(r.value)
      decreases |tokens| - current, 13
    {
      var m := MatchCurrent(S.Fun);
      if m {
        r := Function(A.Ordinary);
        return;
      }
      m := MatchCurrent(S.Var);
      if m {
        r := VarDeclaration();
        return;
      }
      r := Statement();
    }

    /** `function`: the kind is in force while the body is parsed, and is
        restored only when parsing succeeds. */
    method Function(kind: A.FunctionKind) returns (r: Result<A.Stmt, ()>)
      requires Valid()
      modifies this
      ensures Valid() && old(current) <= current && (old(panicMode) ==> panicMode && reports == old(reports))
      ensures r.Err? ==> panicMode
      ensures r.Ok? ==> old(current) < current && WellFormedStmt(r.value)
      ensures r.Ok? ==> r.value.Function? && r.value.kind == kind && |r.value.params| <= |tokens|
      ensures r.Ok? ==> functionKind == old(functionKind)
      decreases |tokens| - current, 15
    {
      var enclosing := functionKind;
      functionKind := kind;

      var signature := Header();
      if signature.Err? {
        return Err(());
      }
      var body := Block();
      if body.Err? {
        return Err(());
      }
      functionKind := enclosing;
      return Ok(A.Function(signature.value.name, signature.value.params, body.value, kind, Previous()));
    }

    /** One parameter name, when `count` have been parsed already: from
        the 256th on, each is reported. */
    method Parameter(count: nat) returns (r: Result<S.Token, ()>)
      requires Valid()
      modifies this`current, this`hadError, this`panicMode, this`reports
      ensures Valid() && old(current) <= current && (old(panicMode) ==> panicMode && reports == old(reports))
      ensures r.Err? ==> panicMode
      ensures count >= 255 ==> panicMode
      ensures r.Ok? ==> current == old(current) + 1 && r.value.kind == S.Identifier
    {
      if count >= 255 {
        Error(Peek(), TooManyParameters);
      }
      r := Consume(S.Identifier, ParameterName);
    }

    /** The header of `function`, up to and including the `{` of its body:
        the name, then the parameters between parentheses. */
    method Header() returns (r: Result<Signature, ()>)
      requires Valid()
      modifies this`current, this`hadError, this`panicMode, this`reports
      ensures Valid() && old(current) <= current && (old(panicMode) ==> panicMode && reports == old(reports))
      ensures r.Err? ==> panicMode
      ensures r.Ok? ==> old(current) < current && |r.value.params| <= |tokens|
      ensures r.Ok? ==> r.value.name.kind == S.Identifier
      ensures r.Ok? ==> forall i :: 0 <= i < |r.value.params| ==> r.value.params[i].kind == S.Identifier
    {
      var name := Consume(S.Identifier, FunctionName);
      if name.Err? {
        return Err(());
      }
      var open := Consume(S.LeftParen, FunctionNameParen);
      if open.Err? {
        return Err(());
      }
      var params := Parameters();
      if params.Err? {
        return Err(());
      }
      var close := Consume(S.RightParen, ParametersParen);
      if close.Err? {
        return Err(());
      }
      var brace := Consume(S.LeftBrace, BodyBrace);
      if brace.Err? {
        return Err(());
      }
      return Ok(Signature(name.value, params.value));
    }

    /** The parameter list of `function`, up to the `)`: identifiers
        separated by commas; more than 255 are reported, and parsing goes
        on. */
    method Parameters() returns (r: Result<seq<S.Token>, ()>)
      requires Valid()
      modifies this`current, this`hadError, this`panicMode, this`reports
      ensures Valid() && old(current) <= current && (old(panicMode) ==> panicMode && reports == old(reports))
      ensures r.Err? ==> panicMode
      ensures r.Ok? ==> |r.value| <= current - old(current)
      ensures r.Ok? ==> forall i :: 0 <= i < |r.value| ==> r.value[i].kind == S.Identifier
    {
      var params: seq<S.Token> := [];
      var failed := false;
      var more := !Check(S.RightParen);
      while more
        invariant Valid() && old(current) <= current && (old(panicMode) ==> panicMode && reports == old(reports))
        invariant forall i :: 0 <= i < |params| ==> params[i].kind == S.Identifier
        invariant |params| <= current - old(current)
        invariant failed ==> panicMode
        decreases |tokens| - current, more
      {
        var param := Parameter(|params|);
        if param.Err? {
          failed, more := true, false;
        } else {
          params := params + [param.value];
          more := MatchCurrent(S.Comma);
        }
      }
      r := if failed then Err(()) else Ok(params);
    }

    /** `statement`: the `match_current` tests in order. A failed test
        consumes nothing, so testing with `check` and advancing on success
        is the same. */
    method Statement() returns (r: Result<A.Stmt, ()>)
      requires Valid()
      modifies this
      ensures Valid() && old(current) <= current && (old(panicMode) ==> panicMode && reports == old(reports))
      ensures r.Err? ==> panicMode
      ensures r.Ok? ==> old(current) < current && WellFormedStmt(r.value)
      decreases |tokens| - current, 12
    {
      if Check(S.For) {
        var _ := Advance();
        r := ForStatement();
      } else if Check(S.If) {
        var _ := Advance();
        r := IfStatement();
      } else if Check(S.Print) {
        var _ := Advance();
        r := PrintStatement();
      } else if Check(S.Return) || Check(S.While) || Check(S.LeftBrace) {
        r := LaterStatement();
      } else {
        r := ExpressionStatement();
      }
    }

    /** The last three keyword tests of `statement`, split off for a smaller
        proof. */
    method LaterStatement() returns (r: Result<A.Stmt, ()>)
      requires Valid() && (Check(S.Return) || Check(S.While) || Check(S.LeftBrace))
      modifies this
      ensures Valid() && old(current) <= current && (old(panicMode) ==> panicMode && reports == old(reports))
      ensures r.Err? ==> panicMode
      ensures r.Ok? ==> old(current) < current && WellFormedStmt(r.value)
      decreases |tokens| - current, 11
    {
      var keyword := Advance();
      if keyword.kind == S.Return {
        r := ReturnStatement();
      } else if keyword.kind == S.While {
        r := WhileStatement();
      } else {
        r := BlockStatement();
      }
    }

    method VarDeclaration() returns (r: Result<A.Stmt, ()>)
      requires Valid()
      modifies this`current, this`hadError, this`panicMode, this`reports
      ensures Valid() && old(current) <= current && (old(panicMode) ==> panicMode && reports == old(reports))
      ensures r.Err? ==> panicMode
      ensures r.Ok? ==> old(current) < current && r.value.Var? && WellFormedStmt(r.value)
      decreases |tokens| - current, 11
    {
      var name := Consume(S.Identifier, VariableName);
      if name.Err? {
        return Err(());
      }
      var initializer: Option<A.Expr> := None;
      var equals := MatchCurrent(S.Equal);
      if equals {
        var e := Expression();
        if e.Err? {
          return Err(());
        }
        initializer := Some(e.value);
      }
      var semicolon := Consume(S.Semicolon, VariableSemicolon);
      if semicolon.Err? {
        return Err(());
      }
      return Ok(A.Var(name.value, initializer));
    }

    /** `for_statement`: the loop kind is `For` while the body is parsed. */
    method ForStatement() returns (r: Result<A.Stmt, ()>)
      requires Valid()
      modifies this
      ensures Valid() && old(current) <= current && (old(panicMode) ==> panicMode && reports == old(reports))
      ensures r.Err? ==> panicMode
      ensures r.Ok? ==> old(current) < current && r.value.For? && WellFormedStmt(r.value)
      ensures r.Ok? ==> loopKind == old(loopKind)
      decreases |tokens| - current, 14
    {
      var clauses := Clauses();
      if clauses.Err? {
        return Err(());
      }

      var enclosing := loopKind;
      loopKind := ForLoop;
      var body := Statement();
      if body.Err? {
        return Err(());
      }
      loopKind := enclosing;
      return Ok(A.For(clauses.value.init, clauses.value.cond, clauses.value.increment, body.value));
    }

    /** The parenthesised clauses of `for_statement`. */
    method Clauses() returns (r: Result<ForClauses, ()>)
      requires Valid()
      modifies this`current, this`hadError, this`panicMode, this`reports
      ensures Valid() && old(current) <= current && (old(panicMode) ==> panicMode && reports == old(reports))
      ensures r.Err? ==> panicMode
      ensures r.Ok? ==> old(current) < current
      ensures r.Ok? && r.value.init.Some? ==>
        (r.value.init.value.Var? || r.value.init.value.Expression?) && WellFormedStmt(r.value.init.value)
      ensures r.Ok? && r.value.cond.Some? ==> Shaped(r.value.cond.value, 1)
      ensures r.Ok? && r.value.increment.Some? ==> Shaped(r.value.increment.value, 1)
      decreases |tokens| - current, 13
    {
      var open := Consume(S.LeftParen, ForParen);
      if open.Err? {
        return Err(());
      }

      var initializer := ForInitializer();
      if initializer.Err? {
        return Err(());
      }
      var condition := ExpressionUnless(S.Semicolon);
      if condition.Err? {
        return Err(());
      }
      var afterCondition := Consume(S.Semicolon, ConditionSemicolon);
      if afterCondition.Err? {
        return Err(());
      }
      var increment := ExpressionUnless(S.RightParen);
      if increment.Err? {
        return Err(());
      }
      var close := Consume(S.RightParen, ForClausesParen);
      if close.Err? {
        return Err(());
      }
      return Ok(ForClauses(initializer.value, condition.value, increment.value));

    }

    /** The initializer clause of `for_statement`: nothing after a `;`, a
        variable declaration after `var`, or an expression statement. */
    method ForInitializer() returns (r: Result<Option<A.Stmt>, ()>)
      requires Valid()
      modifies this`current, this`hadError, this`panicMode, this`reports
      ensures Valid() && old(current) <= current && (old(panicMode) ==> panicMode && reports == old(reports))
      ensures r.Err? ==> panicMode
      ensures r.Ok? ==> old(current) < current
      ensures r.Ok? && r.value.Some? ==>
        (r.value.value.Var? || r.value.value.Expression?) && WellFormedStmt(r.value.value)
      decreases |tokens| - current, 12
    {
      var semicolon := MatchCurrent(S.Semicolon);
      if semicolon {
        return Ok(None);
      }
      var isVar := MatchCurrent(S.Var);
      if isVar {
        var d := VarDeclaration();
        if d.Err? {
          return Err(());
        }
        return Ok(Some(d.value));
      }
      var d := ExpressionStatement();
      if d.Err? {
        return Err(());
      }
      return Ok(Some(d.value));
    }

    /** An optional clause of `for_statement`: no expression when the next
        token is `terminator`, which is left for the caller to consume. */
    method ExpressionUnless(terminator: S.TokenKind) returns (r: Result<Option<A.Expr>, ()>)
      requires Valid()
      modifies this`current, this`hadError, this`panicMode, this`reports
      ensures Valid() && old(current) <= current && (old(panicMode) ==> panicMode && reports == old(reports))
      ensures r.Err? ==> panicMode
      ensures r.Ok? && r.value.None? ==> old(Check(terminator)) && current == old(current)
      ensures r.Ok? && r.value.Some? ==> old(current) < current && Shaped(r.value.value, 1)
      decreases |tokens| - current, 11
    {
      if Check(terminator) {
        return Ok(None);
      }
      var e := Expression();
      if e.Err? {
        return Err(());
      }
      return Ok(Some(e.value));
    }

    method IfStatement() returns (r: Result<A.Stmt, ()>)
      requires Valid()
      modifies this
      ensures Valid() && old(current) <= current && (old(panicMode) ==> panicMode && reports == old(reports))
      ensures r.Err? ==> panicMode
      ensures r.Ok? ==> old(current) < current && r.value.If? && WellFormedStmt(r.value)
      decreases |tokens| - current, 13
    {
      var condition := Condition(IfParen);
      if condition.Err? {
        return Err(());
      }
      var thenBranch := Statement();
      if thenBranch.Err? {
        return Err(());
      }
      var elseBranch := ElseBranch();
      if elseBranch.Err? {
        return Err(());
      }
      return Ok(A.If(condition.value, thenBranch.value, elseBranch.value));
    }

    /** The optional `else` branch of `if_statement`. */
    method ElseBranch() returns (r: Result<Option<A.Stmt>, ()>)
      requires Valid()
      modifies this
      ensures Valid() && old(current) <= current && (old(panicMode) ==> panicMode && reports == old(reports))
      ensures r.Err? ==> panicMode
      ensures r.Ok? && r.value.Some? ==> WellFormedStmt(r.value.value)
      ensures r.Ok? && r.value.None? ==> current == old(current)
      decreases |tokens| - current, 13
    {
      var hasElse := MatchCurrent(S.Else);
      if !hasElse {
        return Ok(None);
      }
      var e := Statement();
      if e.Err? {
        return Err(());
      }
      return Ok(Some(e.value));
    }

    /** The parenthesised condition of `if_statement` and `while_statement`;
        `open` is the message for a missing `(`. */
    method Condition(open: Message) returns (r: Result<A.Expr, ()>)
      requires Valid()
      modifies this`current, this`hadError, this`panicMode, this`reports
      ensures Valid() && old(current) <= current && (old(panicMode) ==> panicMode && reports == old(reports))
      ensures r.Err? ==> panicMode
      ensures r.Ok? ==> old(current) < current && Shaped(r.value, 1)
      decreases |tokens| - current, 11
    {
      var paren := Consume(S.LeftParen, open);
      if paren.Err? {
        return Err(());
      }
      var condition := Expression();
      if condition.Err? {
        return Err(());
      }
      var close := Consume(S.RightParen, ConditionParen);
      if close.Err? {
        return Err(());
      }
      return Ok(condition.value);
    }

    /** `print_statement`, after the `print` keyword. */
    method PrintStatement() returns (r: Result<A.Stmt, ()>)
      requires Valid() && 0 < current && tokens[current - 1].kind == S.Print
      modifies this`current, this`hadError, this`panicMode, this`reports
      ensures Valid() && old(current) <= current && (old(panicMode) ==> panicMode && reports == old(reports))
      ensures r.Err? ==> panicMode
      ensures r.Ok? ==> old(current) < current && r.value.Print? && WellFormedStmt(r.value)
      decreases |tokens| - current, 11
    {
      var keyword := Previous();
      var e := Expression();
      if e.Err? {
        return Err(());
      }
      var semicolon := Consume(S.Semicolon, ValueSemicolon);
      if semicolon.Err? {
        return Err(());
      }
      return Ok(A.Print(keyword, e.value));
    }

    /** `return_statement`, after the `return` keyword. */
    method ReturnStatement() returns (r: Result<A.Stmt, ()>)
      requires Valid() && 0 < current && tokens[current - 1].kind == S.Return
      modifies this`current, this`hadError, this`panicMode, this`reports
      ensures Valid() && old(current) <= current && (old(panicMode) ==> panicMode && reports == old(reports))
      ensures r.Err? ==> panicMode
      ensures r.Ok? ==> old(current) < current && r.value.Return? && WellFormedStmt(r.value)
      decreases |tokens| - current, 11
    {
      var keyword := Previous();
      var value: Option<A.Expr> := None;
      if !Check(S.Semicolon) {
        var e := Expression();
        if e.Err? {
          return Err(());
        }
        value := Some(e.value);
      }
      var semicolon := Consume(S.Semicolon, ReturnSemicolon);
      if semicolon.Err? {
        return Err(());
      }
      return Ok(A.Return(keyword, value));
    }

    /** `while_statement`: the loop kind is `While` while the body is
        parsed. */
    method WhileStatement() returns (r: Result<A.Stmt, ()>)
      requires Valid()
      modifies this
      ensures Valid() && old(current) <= current && (old(panicMode) ==> panicMode && reports == old(reports))
      ensures r.Err? ==> panicMode
      ensures r.Ok? ==> old(current) < current && r.value.While? && WellFormedStmt(r.value)
      ensures r.Ok? ==> loopKind == old(loopKind)
      decreases |tokens| - current, 13
    {
      var condition := Condition(WhileParen);
      if condition.Err? {
        return Err(());
      }
      var enclosing := loopKind;
      loopKind := WhileLoop;
      var body := Statement();
      if body.Err? {
        return Err(());
      }
      loopKind := enclosing;
      return Ok(A.While(condition.value, body.value));
    }

    /** `block`: declarations up to the closing brace, which is consumed. */
    method Block() returns (r: Result<seq<A.Stmt>, ()>)
      requires Valid()
      modifies this
      ensures Valid() && old(current) <= current && (old(panicMode) ==> panicMode && reports == old(reports))
      ensures r.Err? ==> panicMode
      ensures r.Ok? ==> old(current) < current && tokens[current - 1].kind == S.RightBrace
      ensures r.Ok? ==> forall i :: 0 <= i < |r.value| ==> WellFormedStmt(r.value[i])
      decreases |tokens| - current, 14
    {
      var statements: seq<A.Stmt> := [];
      while !IsAtEnd() && !Check(S.RightBrace)
        invariant Valid() && old(current) <= current && (old(panicMode) ==> panicMode && reports == old(reports))
        invariant forall i :: 0 <= i < |statements| ==> WellFormedStmt(statements[i])
        decreases |tokens| - current
      {
        var d := Declaration();
        if d.Err? {
          return Err(());
        }
        statements := statements + [d.value];
      }
      var close := Consume(S.RightBrace, BlockBrace);
      if close.Err? {
        return Err(());
      }
      return Ok(statements);
    }

    method BlockStatement() returns (r: Result<A.Stmt, ()>)
      requires Valid()
      modifies this
      ensures Valid() && old(current) <= current && (old(panicMode) ==> panicMode && reports == old(reports))
      ensures r.Err? ==> panicMode
      ensures r.Ok? ==> old(current) < current && r.value.Block? && WellFormedStmt(r.value)
      decreases |tokens| - current, 15
    {
      var statements := Block();
      if statements.Err? {
        return Err(());
      }
      return Ok(A.Block(statements.value));
    }

    method ExpressionStatement() returns (r: Result<A.Stmt, ()>)
      requires Valid()
      modifies this`current, this`hadError, this`panicMode, this`reports
      ensures Valid() && old(current) <= current && (old(panicMode) ==> panicMode && reports == old(reports))
      ensures r.Err? ==> panicMode
      ensures r.Ok? ==> old(current) < current && r.value.Expression? && WellFormedStmt(r.value)
      decreases |tokens| - current, 11
    {
      var e := Expression();
      if e.Err? {
        return Err(());
      }
      var semicolon := Consume(S.Semicolon, ExpressionSemicolon);
      if semicolon.Err? {
        return Err(());
      }
      return Ok(A.Expression(e.value));
    }

    // -------------------------------------------------------------------
    // Expressions, from the loosest level to the tightest

    method Expression() returns (r: Result<A.Expr, ()>)
      requires Valid()
      modifies this`current, this`hadError, this`panicMode, this`reports
      ensures Valid() && old(current) <= current && (old(panicMode) ==> panicMode && reports == old(reports))
      ensures r.Err? ==> panicMode
      ensures r.Ok? ==> old(current) < current && Shaped(r.value, 1)
      decreases |tokens| - current, 10
    {
      r := Assignment();
    }

    /** `assignment`: a right-nested `=` whose target must be a variable;
        any other target is reported, and the left side is returned. */
    method Assignment() returns (r: Result<A.Expr, ()>)
      requires Valid()
      modifies this`current, this`hadError, this`panicMode, this`reports
      ensures Valid() && old(current) <= current && (old(panicMode) ==> panicMode && reports == old(reports))
      ensures r.Err? ==> panicMode
      ensures r.Ok? ==> old(current) < current && Shaped(r.value, 1)
      decreases |tokens| - current, 9
    {
      var e := Or();
      if e.Err? {
        return Err(());
      }
      var m := MatchCurrent(S.Equal);
      if m {
        var equals := Previous();
        ghost var before, quiet;
        r, before, quiet := FinishAssignment(e.value, equals);
        return;
      }
      return Ok(e.value);
    }

    /** The rest of `assignment` once `=` has been consumed after `left`:
        the right side, then an `Assign` to a variable target. Any other
        target is reported as "Invalid assignment target." at the `=`
        (unless the parser is already in panic mode), and `left` is
        returned unchanged. `before` and `quiet` are the reports and the
        panic mode once the right side has been parsed. */
    method FinishAssignment(left: A.Expr, equals: S.Token) returns (r: Result<A.Expr, ()>, ghost before: seq<Report>, ghost quiet: bool)
      requires Valid() && Shaped(left, 2) && 0 < current
      modifies this`current, this`hadError, this`panicMode, this`reports
      ensures Valid() && old(current) <= current && (old(panicMode) ==> panicMode && reports == old(reports))
      ensures r.Err? ==> panicMode
      ensures r.Ok? ==> old(current) < current && Shaped(r.value, 1)
      ensures r.Ok? && left.Variable? ==> r.value.Assign? && r.value.name == left.name && reports == before
      ensures r.Ok? && !left.Variable? ==>
        r == Ok(left) && panicMode
        && (quiet ==> reports == before)
        && (!quiet ==> reports == before + [Report(equals.line, if equals.kind == S.Error then Unplaced else AtLexeme(equals.lexeme), InvalidAssignment)])
      decreases |tokens| - current + 1, 0
    {
      var value := Assignment();
      before, quiet := reports, panicMode;
      if value.Err? {
        return Err(()), before, quiet;
      }
      if left.Variable? {
        return Ok(A.Assign(left.name, value.value)), before, quiet;
      }
      Error(Some(equals), InvalidAssignment);
      r := Ok(left);
    }

    /** `or`: a left-associative loop. */
    method Or() returns (r: Result<A.Expr, ()>)
      requires Valid()
      modifies this`current, this`hadError, this`panicMode, this`reports
      ensures Valid() && old(current) <= current && (old(panicMode) ==> panicMode && reports == old(reports))
      ensures r.Err? ==> panicMode
      ensures r.Ok? ==> old(current) < current && Shaped(r.value, 2)
      decreases |tokens| - current, 8
    {
      var left := And();
      if left.Err? {
        return Err(());
      }
      var e := left.value;
      var m := MatchCurrent(S.Or);
      while m
        invariant Valid() && old(current) < current && (old(panicMode) ==> panicMode && reports == old(reports))
        invariant Shaped(e, 2)
        invariant m ==> tokens[current - 1].kind == S.Or
        decreases |tokens| - current
      {
        var operator := Previous();
        var right := And();
        if right.Err? {
          return Err(());
        }
        e := A.Logical(e, operator, right.value);
        m := MatchCurrent(S.Or);
      }
      return Ok(e);
    }

    /** `and`: the right operand is parsed by `and` itself, so it nests to
        the right. */
    method And() returns (r: Result<A.Expr, ()>)
      requires Valid()
      modifies this`current, this`hadError, this`panicMode, this`reports
      ensures Valid() && old(current) <= current && (old(panicMode) ==> panicMode && reports == old(reports))
      ensures r.Err? ==> panicMode
      ensures r.Ok? ==> old(current) < current && Shaped(r.value, 3)
      ensures r.Ok? ==> !Check(S.And)
      decreases |tokens| - current, 7
    {
      var left := Equality();
      if left.Err? {
        return Err(());
      }
      var e := left.value;
      var m := MatchCurrent(S.And);
      while m
        invariant Valid() && old(current) < current && (old(panicMode) ==> panicMode && reports == old(reports))
        invariant Shaped(e, 3)
        invariant m ==> tokens[current - 1].kind == S.And && Shaped(e, 4)
        invariant !m ==> !Check(S.And)
        decreases |tokens| - current
      {
        var operator := Previous();
        var right := And();
        if right.Err? {
          return Err(());
        }
        e := A.Logical(e, operator, right.value);
        m := MatchCurrent(S.And);
      }
      return Ok(e);
    }

    /** `equality`: the right operand is parsed by `equality` itself, so it
        nests to the right. */
    method Equality() returns (r: Result<A.Expr, ()>)
      requires Valid()
      modifies this`current, this`hadError, this`panicMode, this`reports
      ensures Valid() && old(current) <= current && (old(panicMode) ==> panicMode && reports == old(reports))
      ensures r.Err? ==> panicMode
      ensures r.Ok? ==> old(current) < current && Shaped(r.value, 4)
      ensures r.Ok? ==> !AtOperator(4)
      decreases |tokens| - current, 6
    {
      var left := Comparison();
      if left.Err? {
        return Err(());
      }
      var e := left.value;
      var m := MatchOperator(4);
      while m
        invariant Valid() && old(current) < current && (old(panicMode) ==> panicMode && reports == old(reports))
        invariant Shaped(e, 4)
        invariant m ==> BinaryLevel(tokens[current - 1].kind) == 4
        invariant m ==> Shaped(e, 5)
        invariant !m ==> !AtOperator(4)
        decreases |tokens| - current
      {
        var operator := Previous();
        var right := Equality();
        if right.Err? {
          return Err(());
        }
        e := A.Binary(e, operator, right.value);
        m := MatchOperator(4);
      }
      return Ok(e);
    }

    /** `comparison`: a left-associative loop over `>`, `>=`, `<`, `<=`. */
    method Comparison() returns (r: Result<A.Expr, ()>)
      requires Valid()
      modifies this`current, this`hadError, this`panicMode, this`reports
      ensures Valid() && old(current) <= current && (old(panicMode) ==> panicMode && reports == old(reports))
      ensures r.Err? ==> panicMode
      ensures r.Ok? ==> old(current) < current && Shaped(r.value, 5)
      decreases |tokens| - current, 5
    {
      var left := Term();
      if left.Err? {
        return Err(());
      }
      var e := left.value;
      var m := MatchOperator(5);
      while m
        invariant Valid() && old(current) < current && (old(panicMode) ==> panicMode && reports == old(reports))
        invariant Shaped(e, 5)
        invariant m ==> BinaryLevel(tokens[current - 1].kind) == 5
        decreases |tokens| - current
      {
        var operator := Previous();
        var right := Term();
        if right.Err? {
          return Err(());
        }
        e := A.Binary(e, operator, right.value);
        m := MatchOperator(5);
      }
      return Ok(e);
    }

    /** `term`: a left-associative loop over `+` and `-`. */
    method Term() returns (r: Result<A.Expr, ()>)
      requires Valid()
      modifies this`current, this`hadError, this`panicMode, this`reports
      ensures Valid() && old(current) <= current && (old(panicMode) ==> panicMode && reports == old(reports))
      ensures r.Err? ==> panicMode
      ensures r.Ok? ==> old(current) < current && Shaped(r.value, 6)
      decreases |tokens| - current, 4
    {
      var left := Factor();
      if left.Err? {
        return Err(());
      }
      var e := left.value;
      var m := MatchOperator(6);
      while m
        invariant Valid() && old(current) < current && (old(panicMode) ==> panicMode && reports == old(reports))
        invariant Shaped(e, 6)
        invariant m ==> BinaryLevel(tokens[current - 1].kind) == 6
        decreases |tokens| - current
      {
        var operator := Previous();
        var right := Factor();
        if right.Err? {
          return Err(());
        }
        e := A.Binary(e, operator, right.value);
        m := MatchOperator(6);
      }
      return Ok(e);
    }

    /** `factor`: a left-associative loop over `*` and `/`. */
    method Factor() returns (r: Result<A.Expr, ()>)
      requires Valid()
      modifies this`current, this`hadError, this`panicMode, this`reports
      ensures Valid() && old(current) <= current && (old(panicMode) ==> panicMode && reports == old(reports))
      ensures r.Err? ==> panicMode
      ensures r.Ok? ==> old(current) < current && Shaped(r.value, 7)
      decreases |tokens| - current, 3
    {
      var left := Unary();
      if left.Err? {
        return Err(());
      }
      var e := left.value;
      var m := MatchOperator(7);
      while m
        invariant Valid() && old(current) < current && (old(panicMode) ==> panicMode && reports == old(reports))
        invariant Shaped(e, 7)
        invariant m ==> BinaryLevel(tokens[current - 1].kind) == 7
        decreases |tokens| - current
      {
        var operator := Previous();
        var right := Unary();
        if right.Err? {
          return Err(());
        }
        e := A.Binary(e, operator, right.value);
        m := MatchOperator(7);
      }
      return Ok(e);
    }

    /** `unary`: `!` and `-` apply to a unary operand. */
    method Unary() returns (r: Result<A.Expr, ()>)
      requires Valid()
      modifies this`current, this`hadError, this`panicMode, this`reports
      ensures Valid() && old(current) <= current && (old(panicMode) ==> panicMode && reports == old(reports))
      ensures r.Err? ==> panicMode
      ensures r.Ok? ==> old(current) < current && Shaped(r.value, 8)
      decreases |tokens| - current, 2
    {
      var m := MatchCurrent(S.Bang);
      if !m {
        m := MatchCurrent(S.Minus);
      }
      if m {
        var operator := Previous();
        var right := Unary();
        if right.Err? {
          return Err(());
        }
        return Ok(A.Unary(operator, right.value));
      }
      r := Call();
    }

    /** `finish_call`, after the `(`: comma-separated arguments (more than
        255 are reported, and parsing goes on), then `)`. */
    method FinishCall(callee: A.Expr) returns (r: Result<A.Expr, ()>)
      requires Valid() && Shaped(callee, 10)
      modifies this`current, this`hadError, this`panicMode, this`reports
      ensures Valid() && old(current) <= current && (old(panicMode) ==> panicMode && reports == old(reports))
      ensures r.Err? ==> panicMode
      ensures r.Ok? ==> old(current) < current && Shaped(r.value, 9)
      ensures r.Ok? ==> r.value.Call? && r.value.callee == callee
      decreases |tokens| - current, 13
    {
      var args := Arguments();
      if args.Err? {
        return Err(());
      }
      var paren := Consume(S.RightParen, ArgumentsParen);
      if paren.Err? {
        return Err(());
      }
      return Ok(A.Call(callee, paren.value, args.value));
    }

    /** The argument list of `finish_call`, up to the `)`. */
    method Arguments() returns (r: Result<seq<A.Expr>, ()>)
      requires Valid()
      modifies this`current, this`hadError, this`panicMode, this`reports
      ensures Valid() && old(current) <= current && (old(panicMode) ==> panicMode && reports == old(reports))
      ensures r.Err? ==> panicMode
      ensures r.Ok? ==> forall i :: 0 <= i < |r.value| ==> Shaped(r.value[i], 1)
      decreases |tokens| - current, 12
    {
      var args: seq<A.Expr> := [];
      var failed := false;
      var more := !Check(S.RightParen);
      while more
        invariant Valid() && old(current) <= current && (old(panicMode) ==> panicMode && reports == old(reports))
        invariant forall i :: 0 <= i < |args| ==> Shaped(args[i], 1)
        invariant failed ==> panicMode
        decreases |tokens| - current, more
      {
        var arg := Argument(|args|);
        if arg.Err? {
          failed, more := true, false;
        } else {
          args := args + [arg.value];
          more := MatchCurrent(S.Comma);
        }
      }
      r := if failed then Err(()) else Ok(args);
    }

    /** One argument, when `count` have been parsed already: from the 256th
        on, each is reported (once, as panic mode silences the rest). */
    method Argument(count: nat) returns (r: Result<A.Expr, ()>)
      requires Valid()
      modifies this`current, this`hadError, this`panicMode, this`reports
      ensures Valid() && old(current) <= current && (old(panicMode) ==> panicMode && reports == old(reports))
      ensures r.Err? ==> panicMode
      ensures count >= 255 ==> panicMode
      ensures r.Ok? ==> old(current) < current && Shaped(r.value, 1)
      decreases |tokens| - current, 11
    {
      if count >= 255 {
        Error(Peek(), TooManyArguments);
      }
      r := Expression();
    }

    /** `call`: a primary with at most one argument list. */
    method Call() returns (r: Result<A.Expr, ()>)
      requires Valid()
      modifies this`current, this`hadError, this`panicMode, this`reports
      ensures Valid() && old(current) <= current && (old(panicMode) ==> panicMode && reports == old(reports))
      ensures r.Err? ==> panicMode
      ensures r.Ok? ==> old(current) < current && Shaped(r.value, 9)
      decreases |tokens| - current, 1
    {
      var e := Primary();
      if e.Err? {
        return Err(());
      }
      var m := MatchCurrent(S.LeftParen);
      if m {
        r := FinishCall(e.value);
        return;
      }
      return Ok(e.value);
    }

    /** `primary`: a literal, a variable or a parenthesised expression;
        anything else is reported as ExpectedExpression. */
    method Primary() returns (r: Result<A.Expr, ()>)
      requires Valid()
      modifies this`current, this`hadError, this`panicMode, this`reports
      ensures Valid() && old(current) <= current && (old(panicMode) ==> panicMode && reports == old(reports))
      ensures r.Err? ==> panicMode
      ensures r.Ok? ==> old(current) < current && Shaped(r.value, 10)
      decreases |tokens| - current, 0
    {
      var peeked := Peek();
      if peeked.Some? && peeked.value.kind in {S.False, S.True, S.Nil, S.Number, S.String} {
        var _ := Advance();
        return Ok(A.Literal(peeked.value));
      }
      var m := MatchCurrent(S.Identifier);
      if m {
        return Ok(A.Variable(Previous()));
      }
      m := MatchCurrent(S.LeftParen);
      if m {
        var e := Expression();
        if e.Err? {
          return Err(());
        }
        var close := Consume(S.RightParen, GroupingParen);
        if close.Err? {
          return Err(());
        }
        return Ok(A.Grouping(e.value));
      }
      Error(Peek(), ExpectedExpression);
      return Err(());
    }

    /** `synchronize`: steps over at least one token (unless at the end),
        then stops just after a `;`, before a statement keyword, or at the
        end. */
    method Synchronize()
      requires Valid()
      modifies this`current
      ensures Valid() && old(current) <= current
      ensures old(current) < |tokens| ==> old(current) < current
      ensures current == |tokens|
        || (0 < current && (tokens[current - 1].kind == S.Semicolon || StatementStart(tokens[current].kind)))
      ensures forall k :: old(current) < k < current ==> PassesOver(tokens, k)
    {
      var _ := Advance();
      ghost var first := current;
      while !IsAtEnd()
        invariant Valid() && 0 < first <= current && old(current) <= current
        invariant old(current) < |tokens| ==> old(current) < first
        invariant first == if old(current) < |tokens| then old(current) + 1 else old(current)
        invariant forall k :: old(current) < k < current ==> PassesOver(tokens, k)
        decreases |tokens| - current
      {
        if Previous().kind == S.Semicolon {
          return;
        }
        if StatementStart(Peek().value.kind) {
          return;
        }
        var _ := Advance();
      }
    }
  }

  /** `parse_tokens`: declarations until the tokens run out, resynchronising
      after each failed one; `None` exactly when an error was reported.
      Returns the diagnostics too. */
  method ParseTokens(tokens: seq<S.Token>) returns (r: Option<seq<A.Stmt>>, reports: seq<Report>)
    requires |tokens| > 0
    ensures |reports| <= 1
    ensures r.None? <==> reports != []
    ensures r.Some? ==> |r.value| <= |tokens| && forall i :: 0 <= i < |r.value| ==> WellFormedStmt(r.value[i])
  {
    var parser := new Parser(tokens);
    var statements: seq<A.Stmt> := [];
    while !parser.IsAtEnd()
      invariant parser.Valid() && parser.tokens == tokens
      invariant |statements| <= parser.current
      invariant forall i :: 0 <= i < |statements| ==> WellFormedStmt(statements[i])
      decreases |tokens| - parser.current
    {
      var d := parser.Declaration();
      if d.Ok? {
        statements := statements + [d.value];
      } else {
        parser.Synchronize();
      }
    }
    reports := parser.reports;
    if parser.hadError {
      return None, reports;
    }
    return Some(statements), reports;
  }
}
