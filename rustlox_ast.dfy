/** The syntax tree of rustlox (`rustlox/src/expr.rs` and
    `rustlox/src/stmt.rs`). Every node keeps the tokens the parser stores in
    it. */
module RustloxAst {
  import opened Base
  import Scanner

  /** `Expr`. `Grouping` is not declared in `expr.rs`, but the parser and the
      compiler use it; it is added here. */
  datatype Expr =
    | Assign(name: Scanner.Token, value: Expr)
    | Binary(left: Expr, operator: Scanner.Token, right: Expr)
    | Call(callee: Expr, paren: Scanner.Token, args: seq<Expr>)
    | Literal(token: Scanner.Token)
    | Logical(left: Expr, operator: Scanner.Token, right: Expr)
    | Unary(operator: Scanner.Token, right: Expr)
    | Variable(name: Scanner.Token)
    | Grouping(expr: Expr)

  /** `FunctionKind`: the top-level script, or a declared function
      (`FunctionKind::Function`). */
  datatype FunctionKind = Script | Ordinary

  /** `Stmt`. The parser never sets `Block.brace`, so a block holds only its
      statements. Fields that share a name in the source but differ in type
      (a `for`'s optional initializer and condition, a function's body) are
      renamed. */
  datatype Stmt =
    | Block(statements: seq<Stmt>)
    | Break(keyword: Scanner.Token)
    | Continue(keyword: Scanner.Token)
    | Expression(expression: Expr)
    | For(init: Option<Stmt>, cond: Option<Expr>, increment: Option<Expr>, body: Stmt)
    | Function(name: Scanner.Token, params: seq<Scanner.Token>, funBody: seq<Stmt>, kind: FunctionKind, brace: Scanner.Token)
    | If(condition: Expr, thenBranch: Stmt, elseBranch: Option<Stmt>)
    | Print(keyword: Scanner.Token, expression: Expr)
    | Return(keyword: Scanner.Token, value: Option<Expr>)
    | Var(name: Scanner.Token, initializer: Option<Expr>)
    | While(condition: Expr, body: Stmt)
}
