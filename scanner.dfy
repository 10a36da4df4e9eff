/** The two Lox scanners, `rustlox/src/scanner.rs` and `src/scanner.rs`.
    They share their structure (a peekable iterator over the source, a line
    counter, the start of the current lexeme) and differ in three places,
    which `Dialect` selects: the first line number, the characters that may
    continue an identifier, and the keyword table.

    The source is a sequence of ASCII characters, so character indices and
    byte indices coincide. */
module Scanner {
  import opened Base

  datatype Dialect = Rustlox | Lox

  /** The token kinds of `rustlox/src/scanner.rs`, in order. `src/scanner.rs`
      lacks `Break` and `Continue` and never produces them. `EOF` is declared
      by neither file; `src/compiler.rs` uses it, and no scanner produces it. */
  datatype TokenKind =
    | LeftParen | RightParen | LeftBrace | RightBrace
    | Comma | Dot | Minus | Plus | Semicolon | Slash | Star
    | Bang | BangEqual | Equal | EqualEqual
    | Greater | GreaterEqual | Less | LessEqual
    | Identifier | String | Number
    | And | Break | Class | Continue | Else | False | For | Fun | If | Nil
    | Or | Print | Return | Super | This | True | Var | While
    | Error
    | EOF

  /** A token: its kind, the line counter when it was made, and its lexeme
      (the source slice, or the message of an error token). */
  datatype Token = Token(kind: TokenKind, line: int, lexeme: string)

  // ---------------------------------------------------------------------
  // Character classes and the dialects' differences

  /** The value the line counter starts from. */
  function FirstLine(d: Dialect): int
  {
    match d
    case Rustlox => 1
    case Lox => 0
  }

  predicate IsDigit(c: char) { '0' <= c <= '9' }

  predicate IsAlpha(c: char) { 'a' <= c <= 'z' || 'A' <= c <= 'Z' }

  /** The runs of characters the scanner consumes in one loop. */
  datatype Run = Digits | NotNewline | NotQuote | IdentifierRest(d: Dialect)

  /** Whether `c` continues a run. The characters that continue an
      identifier are alphanumerics and `_` in rustlox, only letters and `_`
      in `src/`. */
  predicate InRun(run: Run, c: char)
  {
    match run
    case Digits => IsDigit(c)
    case NotNewline => c != '\n'
    case NotQuote => c != '"'
    case IdentifierRest(d) => IsAlpha(c) || c == '_' || (d == Rustlox && IsDigit(c))
  }

  /** The keyword table of each dialect. */
  function KeywordTable(d: Dialect): map<string, TokenKind>
  {
    var common := map["and" := And, "class" := Class, "else" := Else, "false" := False,
                       "for" := For, "fun" := Fun, "if" := If, "nil" := Nil, "or" := Or,
                       "print" := Print, "return" := Return, "super" := Super, "this" := This,
                       "true" := True, "var" := Var, "while" := While];
    match d
    case Rustlox => common["break" := Break]["continue" := Continue]
    case Lox => common
  }

  /** The kind of an identifier-shaped lexeme. */
  function KeywordKind(d: Dialect, w: string): TokenKind
  {
    var table := KeywordTable(d);
    if w in table then table[w] else Identifier
  }

  /** The reserved words of each dialect: the words its table lists. */
  function Keywords(d: Dialect): set<string>
  {
    KeywordTable(d).Keys
  }

  /** A lexeme is reserved exactly when it is in the dialect's table. */
  lemma KeywordKindReserved(d: Dialect, w: string)
    ensures KeywordKind(d, w) != Identifier <==> w in Keywords(d)
  {
  }

  /** `break` and `continue` are reserved in rustlox only. */
  lemma LoopKeywords()
    ensures KeywordKind(Rustlox, "break") == Break && KeywordKind(Rustlox, "continue") == Continue
    ensures KeywordKind(Lox, "break") == Identifier && KeywordKind(Lox, "continue") == Identifier
  {
  }

  /** The single-character tokens. */
  function SingleCharKind(c: char): Option<TokenKind>
  {
    if c == '(' then Some(LeftParen)
    else if c == ')' then Some(RightParen)
    else if c == '{' then Some(LeftBrace)
    else if c == '}' then Some(RightBrace)
    else if c == ';' then Some(Semicolon)
    else if c == ',' then Some(Comma)
    else if c == '.' then Some(Dot)
    else if c == '-' then Some(Minus)
    else if c == '+' then Some(Plus)
    else if c == '*' then Some(Star)
    else if c == '/' then Some(Slash)
    else None
  }

  /** The characters that start a one- or two-character operator. */
  predicate IsOperatorStart(c: char) { c == '!' || c == '=' || c == '<' || c == '>' }

  /** The operator `c` alone, or `c` followed by `=`. */
  function OperatorKind(c: char, withEqual: bool): TokenKind
    requires IsOperatorStart(c)
  {
    if c == '!' then (if withEqual then BangEqual else Bang)
    else if c == '=' then (if withEqual then EqualEqual else Equal)
    else if c == '<' then (if withEqual then LessEqual else Less)
    else (if withEqual then GreaterEqual else Greater)
  }

  // ---------------------------------------------------------------------
  // The reference lexer

  /** The number of newline characters among the first `k` of `s`. */
  function Newlines(s: seq<char>, k: nat): nat
    requires k <= |s|
  {
    if k == 0 then 0 else Newlines(s, k - 1) + (if s[k - 1] == '\n' then 1 else 0)
  }

  /** Where consuming characters that continue `run`, from index `i`, stops. */
  function ConsumeEnd(s: seq<char>, i: nat, run: Run): (r: nat)
    requires i <= |s|
    ensures i <= r <= |s|
    decreases |s| - i
  {
    if i < |s| && InRun(run, s[i]) then ConsumeEnd(s, i + 1, run) else i
  }

  /** Consuming takes every character up to the first that does not continue `run`. */
  lemma {:induction false} ConsumeEndSpec(s: seq<char>, i: nat, run: Run)
    requires i <= |s|
    ensures forall k :: i <= k < ConsumeEnd(s, i, run) ==> InRun(run, s[k])
    ensures ConsumeEnd(s, i, run) == |s| || !InRun(run, s[ConsumeEnd(s, i, run)])
    decreases |s| - i
  {
    if i < |s| && InRun(run, s[i]) {
      ConsumeEndSpec(s, i + 1, run);
    }
  }

  /** Where skipping whitespace and `//` comments from `i` stops. A comment
      runs up to, not over, the newline that ends it. */
  function SkipEnd(s: seq<char>, i: nat): (r: nat)
    requires i <= |s|
    ensures i <= r <= |s|
    decreases |s| - i
  {
    if i >= |s| then i
    else if s[i] == ' ' || s[i] == '\r' || s[i] == '\t' || s[i] == '\n' then SkipEnd(s, i + 1)
    else if s[i] == '/' && i + 1 < |s| && s[i + 1] == '/' then
      SkipEnd(s, ConsumeEnd(s, i + 1, NotNewline))
    else i
  }

  /** Skipping stops at the end or at a character that starts a token. */
  lemma {:induction false} SkipEndSpec(s: seq<char>, i: nat)
    requires i <= |s|
    ensures var j := SkipEnd(s, i);
      j == |s| || (s[j] != ' ' && s[j] != '\r' && s[j] != '\t' && s[j] != '\n'
                   && !(s[j] == '/' && j + 1 < |s| && s[j + 1] == '/'))
    decreases |s| - i
  {
    if i < |s| {
      if s[i] == ' ' || s[i] == '\r' || s[i] == '\t' || s[i] == '\n' {
        SkipEndSpec(s, i + 1);
      } else if s[i] == '/' && i + 1 < |s| && s[i + 1] == '/' {
        SkipEndSpec(s, ConsumeEnd(s, i + 1, NotNewline));
      }
    }
  }

  /** One token scanned from a non-blank position: its kind, where it ends,
      and its lexeme. */
  datatype Scanned = Scanned(kind: TokenKind, end: nat, lexeme: string)

  /** `!`, `=`, `<` or `>`, with a following `=` taken along. */
  function ScanOperator(s: seq<char>, i: nat): (r: Scanned)
    requires i < |s| && IsOperatorStart(s[i])
    ensures i < r.end <= |s| && r.lexeme == s[i..r.end]
  {
    if i + 1 < |s| && s[i + 1] == '=' then Scanned(OperatorKind(s[i], true), i + 2, s[i..i + 2])
    else Scanned(OperatorKind(s[i], false), i + 1, s[i..i + 1])
  }

  /** A string from the opening quote at `i` to the closing one; without a
      closing quote, an error that takes the rest of the source. */
  function ScanStringAt(s: seq<char>, i: nat): (r: Scanned)
    requires i < |s|
    ensures i < r.end <= |s|
    ensures r.kind == String || r.kind == Error
    ensures r.kind == String ==> r.lexeme == s[i..r.end]
  {
    var j := ConsumeEnd(s, i + 1, NotQuote);
    if j < |s| then Scanned(String, j + 1, s[i..j + 1])
    else Scanned(Error, j, "Unterminated string.")
  }

  /** Where a number whose first digit is at `i - 1` ends: more digits, then
      a fraction only when a `.` is followed by a digit. */
  function NumberEnd(s: seq<char>, i: nat): (r: nat)
    requires i <= |s|
    ensures i <= r <= |s|
  {
    var j := ConsumeEnd(s, i, Digits);
    if j < |s| && s[j] == '.' && j + 1 < |s| && IsDigit(s[j + 1]) then
      ConsumeEnd(s, j + 1, Digits)
    else j
  }

  /** A number whose first digit is at `i`. */
  function ScanNumberAt(s: seq<char>, i: nat): (r: Scanned)
    requires i < |s|
    ensures i < r.end <= |s| && r.kind == Number && r.lexeme == s[i..r.end]
  {
    var j := NumberEnd(s, i + 1);
    Scanned(Number, j, s[i..j])
  }

  /** An identifier or keyword whose first character is at `i`. */
  function ScanIdentifierAt(d: Dialect, s: seq<char>, i: nat): (r: Scanned)
    requires i < |s|
    ensures i < r.end <= |s| && r.lexeme == s[i..r.end] && r.kind == KeywordKind(d, r.lexeme)
  {
    var j := ConsumeEnd(s, i + 1, IdentifierRest(d));
    Scanned(KeywordKind(d, s[i..j]), j, s[i..j])
  }

  /** The token that starts at `i`. */
  function ScanAt(d: Dialect, s: seq<char>, i: nat): (r: Scanned)
    requires i < |s|
    ensures i < r.end <= |s|
    ensures r.kind != Error ==> r.lexeme == s[i..r.end]
    ensures r.kind != EOF
  {
    var c := s[i];
    if SingleCharKind(c).Some? then Scanned(SingleCharKind(c).value, i + 1, s[i..i + 1])
    else if IsOperatorStart(c) then ScanOperator(s, i)
    else if c == '"' then ScanStringAt(s, i)
    else if IsDigit(c) then ScanNumberAt(s, i)
    else if IsAlpha(c) || c == '_' then ScanIdentifierAt(d, s, i)
    else Scanned(Error, i + 1, "Unexpected character.")
  }

  /** The token at `i`, with the line the counter shows when it is made:
      the first line plus every newline before the token's end. */
  function TokenAt(d: Dialect, s: seq<char>, i: nat): Token
    requires i < |s|
  {
    var sc := ScanAt(d, s, i);
    Token(sc.kind, FirstLine(d) + Newlines(s, sc.end), sc.lexeme)
  }

  /** Every token from position `i` to the end of the source, in order. */
  function LexFrom(d: Dialect, s: seq<char>, i: nat): seq<Token>
    requires i <= |s|
    decreases |s| - i
  {
    var j := SkipEnd(s, i);
    if j == |s| then []
    else [TokenAt(d, s, j)] + LexFrom(d, s, ScanAt(d, s, j).end)
  }

  /** No token is longer than nothing: there are at most as many tokens as
      characters, and none of them is an end-of-file token. */
  lemma {:induction false} LexFromBounds(d: Dialect, s: seq<char>, i: nat)
    requires i <= |s|
    ensures |LexFrom(d, s, i)| <= |s| - i
    ensures forall k :: 0 <= k < |LexFrom(d, s, i)| ==> LexFrom(d, s, i)[k].kind != EOF
    decreases |s| - i
  {
    var j := SkipEnd(s, i);
    if j < |s| {
      LexFromBounds(d, s, ScanAt(d, s, j).end);
    }
  }

  /** One scanned token, then the rest. */
  lemma LexFromStep(d: Dialect, s: seq<char>, i: nat, token: Token, next: nat)
    requires i <= |s| && SkipEnd(s, i) < |s|
    requires token == TokenAt(d, s, SkipEnd(s, i)) && next == ScanAt(d, s, SkipEnd(s, i)).end
    ensures LexFrom(d, s, i) == [token] + LexFrom(d, s, next)
  {
  }

  /** Source made of whitespace and comments only has no tokens. */
  lemma BlankHasNoTokens(d: Dialect, s: seq<char>, i: nat)
    requires i <= |s| && SkipEnd(s, i) == |s|
    ensures LexFrom(d, s, i) == []
  {
  }

  // ---------------------------------------------------------------------
  // Properties of single tokens

  /** Maximal munch: `!`, `=`, `<` and `>` followed by `=` make one
      two-character token. */
  lemma TwoCharOperators(d: Dialect, s: seq<char>, i: nat)
    requires i + 1 < |s| && IsOperatorStart(s[i]) && s[i + 1] == '='
    ensures ScanAt(d, s, i) == Scanned(OperatorKind(s[i], true), i + 2, s[i..i + 2])
  {
  }

  /** A `/` not followed by `/` is a Slash token. */
  lemma LoneSlash(d: Dialect, s: seq<char>, i: nat)
    requires i < |s| && s[i] == '/' && !(i + 1 < |s| && s[i + 1] == '/')
    ensures SkipEnd(s, i) == i && ScanAt(d, s, i) == Scanned(Slash, i + 1, "/")
  {
  }

  /** The token at a quote is a string. */
  lemma ScanAtQuote(d: Dialect, s: seq<char>, i: nat)
    requires i < |s| && s[i] == '"'
    ensures ScanAt(d, s, i) == ScanStringAt(s, i)
  {
  }

  /** The token at a digit is a number. */
  lemma ScanAtDigit(d: Dialect, s: seq<char>, i: nat)
    requires i < |s| && IsDigit(s[i])
    ensures ScanAt(d, s, i) == ScanNumberAt(s, i)
  {
  }

  /** The token at a letter or `_` is an identifier or keyword. */
  lemma ScanAtAlpha(d: Dialect, s: seq<char>, i: nat)
    requires i < |s| && (IsAlpha(s[i]) || s[i] == '_')
    ensures ScanAt(d, s, i) == ScanIdentifierAt(d, s, i)
  {
  }

  /** A string token runs from its opening to its closing quote, both
      included; with no closing quote it is the error "Unterminated string."
      and takes the rest of the source. */
  lemma StringToken(d: Dialect, s: seq<char>, i: nat)
    requires i < |s| && s[i] == '"'
    ensures var r := ScanStringAt(s, i);
      ScanAt(d, s, i) == r &&
      (r.kind == String || (r.kind == Error && r.lexeme == "Unterminated string." && r.end == |s|))
      && (r.kind == String ==> s[r.end - 1] == '"' && r.lexeme[0] == '"' && r.lexeme[|r.lexeme| - 1] == '"'
                                && forall k :: i < k < r.end - 1 ==> s[k] != '"')
      && (r.kind == Error ==> forall k :: i < k < |s| ==> s[k] != '"')
  {
    ScanAtQuote(d, s, i);
    ConsumeEndSpec(s, i + 1, NotQuote);
  }

  /** A number is digits, then optionally `.` and digits; it stops before
      any further digit, and a number without a fraction stops before a `.`
      only when no digit follows it. */
  lemma NumberToken(d: Dialect, s: seq<char>, i: nat)
    requires i < |s| && IsDigit(s[i])
    ensures var r := ScanNumberAt(s, i);
      ScanAt(d, s, i) == r && r.kind == Number
      && (forall k :: i <= k < r.end ==> IsDigit(s[k]) || s[k] == '.')
      && (r.end == |s| || !IsDigit(s[r.end]))
      && ((forall k :: i <= k < r.end ==> s[k] != '.') ==>
            !(r.end + 1 < |s| && s[r.end] == '.' && IsDigit(s[r.end + 1])))
  {
    ScanAtDigit(d, s, i);
    var j := ConsumeEnd(s, i + 1, Digits);
    ConsumeEndSpec(s, i + 1, Digits);
    var r := ScanNumberAt(s, i);
    if j < |s| && s[j] == '.' && j + 1 < |s| && IsDigit(s[j + 1]) {
      ConsumeEndSpec(s, j + 1, Digits);
      assert r.end == ConsumeEnd(s, j + 1, Digits);
      forall k | i <= k < r.end
        ensures IsDigit(s[k]) || s[k] == '.'
      {
        if k > j {
          assert IsDigit(s[k]);
        }
      }
    } else {
      assert r.end == j;
    }
  }

  /** An identifier starts with a letter or `_`, continues with the
      dialect's identifier characters as far as they go, and takes its kind
      from the keyword table. */
  lemma IdentifierToken(d: Dialect, s: seq<char>, i: nat)
    requires i < |s| && (IsAlpha(s[i]) || s[i] == '_')
    ensures var r := ScanIdentifierAt(d, s, i);
      ScanAt(d, s, i) == r &&
      (forall k :: i < k < r.end ==> InRun(IdentifierRest(d), s[k]))
      && (r.end == |s| || !InRun(IdentifierRest(d), s[r.end]))
      && r.kind == KeywordKind(d, s[i..r.end])
  {
    ScanAtAlpha(d, s, i);
    ConsumeEndSpec(s, i + 1, IdentifierRest(d));
  }

  /** Any other character is the error "Unexpected character.". */
  lemma UnexpectedCharacter(d: Dialect, s: seq<char>, i: nat)
    requires i < |s|
    requires SingleCharKind(s[i]).None? && !IsOperatorStart(s[i]) && s[i] != '"'
    requires !IsDigit(s[i]) && !IsAlpha(s[i]) && s[i] != '_'
    ensures ScanAt(d, s, i) == Scanned(Error, i + 1, "Unexpected character.")
  {
  }

  // ---------------------------------------------------------------------
  // Whole-source examples

  /** A prefix without a newline character counts none. */
  lemma {:induction false} NoNewlines(s: seq<char>, k: nat)
    requires k <= |s| && forall j :: 0 <= j < k ==> s[j] != '\n'
    ensures Newlines(s, k) == 0
  {
    if k > 0 {
      NoNewlines(s, k - 1);
    }
  }

  /** "1." is the number "1" and then a dot. */
  lemma NumberWithoutFraction()
    ensures LexFrom(Rustlox, "1.", 0) == [Token(Number, 1, "1"), Token(Dot, 1, ".")]
  {
    var s := "1.";
    assert SkipEnd(s, 0) == 0 && SkipEnd(s, 1) == 1;
    ScanAtDigit(Rustlox, s, 0);
    assert ConsumeEnd(s, 1, Digits) == 1;
    assert s[0..1] == "1" && s[1..2] == ".";
    assert ScanAt(Rustlox, s, 0) == Scanned(Number, 1, "1");
    assert ScanAt(Rustlox, s, 1) == Scanned(Dot, 2, ".");
    NoNewlines(s, 1);
    NoNewlines(s, 2);
    LexFromStep(Rustlox, s, 0, Token(Number, 1, "1"), 1);
    LexFromStep(Rustlox, s, 1, Token(Dot, 1, "."), 2);
    BlankHasNoTokens(Rustlox, s, 2);
  }

  /** "1.5" is one number. */
  lemma NumberWithFraction()
    ensures LexFrom(Lox, "1.5", 0) == [Token(Number, 0, "1.5")]
  {
    var s := "1.5";
    assert SkipEnd(s, 0) == 0;
    ScanAtDigit(Lox, s, 0);
    assert ConsumeEnd(s, 1, Digits) == 1;
    assert ConsumeEnd(s, 2, Digits) == 3;
    assert s[0..3] == s;
    assert ScanAt(Lox, s, 0) == Scanned(Number, 3, "1.5");
    NoNewlines(s, 3);
    LexFromStep(Lox, s, 0, Token(Number, 0, "1.5"), 3);
    BlankHasNoTokens(Lox, s, 3);
  }

  /** In `src/` a digit ends an identifier and starts a number. */
  lemma IdentifierThenDigit(s: seq<char>)
    requires 2 <= |s| && IsAlpha(s[0]) && IsDigit(s[1])
    ensures ScanAt(Lox, s, 0) == Scanned(KeywordKind(Lox, s[..1]), 1, s[..1])
    ensures ScanAt(Lox, s, 1).kind == Number
  {
    ScanAtAlpha(Lox, s, 0);
    ScanAtDigit(Lox, s, 1);
  }

  /** In rustlox a digit continues an identifier. */
  lemma IdentifierWithDigit(s: seq<char>)
    requires 2 <= |s| && IsAlpha(s[0]) && IsDigit(s[1])
    ensures var r := ScanAt(Rustlox, s, 0);
      r.end >= 2 && r.kind == KeywordKind(Rustlox, s[..r.end])
  {
    ScanAtAlpha(Rustlox, s, 0);
  }

  /** A comment ends at the newline, which is then counted as a line. */
  lemma CommentThenNewline()
    ensures LexFrom(Rustlox, "//x\n;", 0) == [Token(Semicolon, 2, ";")]
  {
    var s := "//x\n;";
    assert ConsumeEnd(s, 1, NotNewline) == 3;
    assert SkipEnd(s, 3) == 4;
    assert SkipEnd(s, 0) == 4 && SkipEnd(s, 5) == 5;
    assert s[4..5] == ";";
    assert ScanAt(Rustlox, s, 4) == Scanned(Semicolon, 5, ";");
    assert Newlines(s, 5) == 1 by {
      NoNewlines(s, 3);
    }
    LexFromStep(Rustlox, s, 0, Token(Semicolon, 2, ";"), 5);
    BlankHasNoTokens(Rustlox, s, 5);
  }

  // ---------------------------------------------------------------------
  // The scanner object

  class Scanner {
    const dialect: Dialect
    const source: seq<char>
    /** The index of the next character the iterator yields. */
    var pos: nat
    /** The index where the current lexeme starts. */
    var start: nat
    /** The line counter. */
    var lines: int

    /** The counter has seen every newline before the iterator's position. */
    ghost predicate Valid()
      reads this
    {
      start <= pos <= |source| && lines == FirstLine(dialect) + Newlines(source, pos)
    }

    /** `Scanner::new`. */
    constructor (d: Dialect, s: seq<char>)
      ensures Valid() && dialect == d && source == s && pos == 0 && start == 0 && lines == FirstLine(d)
    {
      dialect, source := d, s;
      pos, start, lines := 0, 0, FirstLine(d);
      new;
      assert source[..0] == [];
    }

    /** The iterator's `peek`. */
    function Peek(): (r: Option<(nat, char)>)
      reads this
      requires pos <= |source|
      ensures r.Some? <==> pos < |source|
      ensures r.Some? ==> r.value == (pos, source[pos])
    {
      if pos < |source| then Some((pos, source[pos])) else None
    }

    /** `peek_next`: the byte after the peeked character. */
    function PeekNext(): (r: Option<(nat, char)>)
      reads this
      requires pos <= |source|
      ensures r.Some? <==> pos + 1 < |source|
      ensures r.Some? ==> r.value == (pos + 1, source[pos + 1])
    {
      if pos < |source| && pos + 1 < |source| then Some((pos + 1, source[pos + 1])) else None
    }

    /** `advance`: the iterator's `next`. */
    method Advance() returns (r: Option<(nat, char)>)
      requires pos <= |source|
      modifies this`pos
      ensures r == old(Peek())
      ensures pos == if old(pos) < |source| then old(pos) + 1 else old(pos)
    {
      r := Peek();
      if pos < |source| {
        pos := pos + 1;
      }
    }

    /** `consume_while`: skips the characters that continue `run`. */
    method ConsumeWhile(run: Run)
      requires Valid() && !InRun(run, '\n')
      modifies this`pos
      ensures Valid() && pos == ConsumeEnd(source, old(pos), run)
    {
      while pos < |source| && InRun(run, source[pos])
        invariant Valid() && ConsumeEnd(source, pos, run) == ConsumeEnd(source, old(pos), run)
        decreases |source| - pos
      {
        pos := pos + 1;
      }
    }

    /** `match_current`: consumes the next character if it is `expected`. */
    method MatchCurrent(expected: char) returns (matched: bool)
      requires Valid() && expected != '\n'
      modifies this`pos
      ensures Valid()
      ensures matched <==> old(pos) < |source| && source[old(pos)] == expected
      ensures pos == if matched then old(pos) + 1 else old(pos)
    {
      matched := pos < |source| && source[pos] == expected;
      if matched {
        pos := pos + 1;
      }
    }

    /** `skip_whitespace`: blanks, newlines (counted) and `//` comments. */
    method SkipWhitespace()
      requires Valid()
      modifies this`pos, this`lines
      ensures Valid() && pos == SkipEnd(source, old(pos))
    {
      while pos < |source|
        invariant Valid() && SkipEnd(source, pos) == SkipEnd(source, old(pos))
        decreases |source| - pos
      {
        var c := source[pos];
        if c == ' ' || c == '\r' || c == '\t' {
          var _ := Advance();
        } else if c == '\n' {
          lines := lines + 1;
          var _ := Advance();
        } else if c == '/' {
          var next := PeekNext();
          if next.Some? && next.value.1 == '/' {
            ConsumeWhile(NotNewline);
          } else {
            return;
          }
        } else {
          return;
        }
      }
    }

    /** `get_lexeme`: from the start to the next unread character. */
    function GetLexeme(): (lexeme: string)
      reads this
      requires start <= pos <= |source|
      ensures |lexeme| == pos - start
    {
      source[start..pos]
    }

    /** `make_token`: the current line and lexeme. */
    function MakeToken(kind: TokenKind): (t: Token)
      reads this
      requires start <= pos <= |source|
      ensures t.kind == kind && t.line == lines && t.lexeme == source[start..pos]
    {
      Token(kind, lines, GetLexeme())
    }

    /** `make_error_token`: the message is the lexeme. */
    function MakeErrorToken(message: string): (t: Token)
      reads this
      ensures t.kind == Error && t.line == lines && t.lexeme == message
    {
      Token(Error, lines, message)
    }

    /** `string`, after the opening quote: everything up to the closing
        quote, counting newlines. */
    method ScanString() returns (t: Token)
      requires Valid() && 0 < pos && start == pos - 1 && source[start] == '"'
      modifies this`pos, this`lines
      ensures Valid()
      ensures var sc := ScanStringAt(source, start);
        pos == sc.end && t == Token(sc.kind, lines, sc.lexeme)
    {
      ConsumeStringBody();
      ConsumeEndSpec(source, start + 1, NotQuote);
      var closed := MatchCurrent('"');
      if closed {
        t := MakeToken(String);
      } else {
        t := MakeErrorToken("Unterminated string.");
      }
    }

    /** The loop of `string`: up to the closing quote, counting newlines. */
    method ConsumeStringBody()
      requires Valid()
      modifies this`pos, this`lines
      ensures Valid() && start == old(start) && pos == ConsumeEnd(source, old(pos), NotQuote)
    {
      while pos < |source| && source[pos] != '"'
        invariant Valid() && ConsumeEnd(source, pos, NotQuote) == ConsumeEnd(source, old(pos), NotQuote)
        decreases |source| - pos
      {
        var c := source[pos];
        pos := pos + 1;
        if c == '\n' {
          lines := lines + 1;
        }
      }
    }

    /** `number`, after the first digit. */
    method ScanNumber() returns (t: Token)
      requires Valid() && 0 < pos && start == pos - 1 && IsDigit(source[start])
      modifies this`pos
      ensures Valid()
      ensures var sc := ScanNumberAt(source, start);
        pos == sc.end && t == Token(sc.kind, lines, sc.lexeme)
    {
      ConsumeWhile(Digits);
      ghost var j := pos;
      var peeked := Peek();
      if peeked.Some? && peeked.value.1 == '.' {
        var next := PeekNext();
        if next.Some? && IsDigit(next.value.1) {
          var _ := Advance();
          ConsumeWhile(Digits);
          assert pos == ConsumeEnd(source, j + 1, Digits);
        }
      }
      assert pos == NumberEnd(source, start + 1);
      t := MakeToken(Number);
    }

    /** `identifier`, after the first character: the longest run of
        identifier characters, looked up in the keyword table. */
    method ScanIdentifier() returns (t: Token)
      requires Valid() && 0 < pos && start == pos - 1 && (IsAlpha(source[start]) || source[start] == '_')
      modifies this`pos
      ensures Valid()
      ensures var sc := ScanIdentifierAt(dialect, source, start);
        pos == sc.end && t == Token(sc.kind, lines, sc.lexeme)
    {
      ConsumeWhile(IdentifierRest(dialect));
      var lexeme := GetLexeme();
      var kind := KeywordKind(dialect, lexeme);
      t := Token(kind, lines, lexeme);
    }

    /** `next` (rustlox) and `scan_token` (`src/`): skips blanks, then scans
        one token; `None` once the source is exhausted. */
    method Next() returns (r: Option<Token>)
      requires Valid()
      modifies this`pos, this`lines, this`start
      ensures Valid()
      ensures var i := SkipEnd(source, old(pos));
        if i == |source| then r.None? && pos == i
        else r == Some(TokenAt(dialect, source, i)) && pos == ScanAt(dialect, source, i).end
      ensures r.None? ==> LexFrom(dialect, source, old(pos)) == []
      ensures r.Some? ==> LexFrom(dialect, source, old(pos)) == [r.value] + LexFrom(dialect, source, pos)
    {
      SkipWhitespace();
      SkipEndSpec(source, old(pos));
      var next := Advance();
      if next.None? {
        BlankHasNoTokens(dialect, source, old(pos));
        return None;
      }
      var (st, c) := next.value;
      start := st;
      var t := ScanToken(c);
      assert t == TokenAt(dialect, source, start);
      LexFromStep(dialect, source, old(pos), t, pos);
      r := Some(t);
    }

    /** The dispatch of `next` on the character just taken. */
    method ScanToken(c: char) returns (t: Token)
      requires Valid() && 0 < pos && start == pos - 1 && source[start] == c
      modifies this`pos, this`lines
      ensures Valid() && start == old(start)
      ensures var sc := ScanAt(dialect, source, start);
        pos == sc.end && t == Token(sc.kind, lines, sc.lexeme)
    {
      if SingleCharKind(c).Some? {
        t := MakeToken(SingleCharKind(c).value);
      } else if IsOperatorStart(c) {
        var withEqual := MatchCurrent('=');
        t := MakeToken(OperatorKind(c, withEqual));
      } else if c == '"' {
        t := ScanString();
      } else if IsDigit(c) {
        t := ScanNumber();
      } else if IsAlpha(c) || c == '_' {
        t := ScanIdentifier();
      } else {
        t := MakeErrorToken("Unexpected character.");
      }
    }
  }

  lemma Regroup(done: seq<Token>, t: Token, rest: seq<Token>)
    ensures (done + [t]) + rest == done + ([t] + rest)
  {
  }

  /** `scan_tokens` (rustlox): every token of the source in order, with no
      end-of-file token appended. */
  method ScanTokens(d: Dialect, source: seq<char>) returns (tokens: seq<Token>)
    ensures tokens == LexFrom(d, source, 0)
    ensures |tokens| <= |source|
    ensures forall k :: 0 <= k < |tokens| ==> tokens[k].kind != EOF
  {
    var scanner := new Scanner(d, source);
    tokens := [];
    while true
      invariant scanner.Valid() && scanner.dialect == d && scanner.source == source
      invariant tokens + LexFrom(d, source, scanner.pos) == LexFrom(d, source, 0)
      decreases |source| - scanner.pos
    {
      var token := scanner.Next();
      if token.None? {
        break;
      }
      Regroup(tokens, token.value, LexFrom(d, source, scanner.pos));
      tokens := tokens + [token.value];
    }
    LexFromBounds(d, source, 0);
  }
}
