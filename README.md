# Lox bytecode front and back ends, in Dafny

This project models the bytecode halves of three Lox interpreters from
*Crafting Interpreters*.

- **clox** (`clox/chunk.c`): the chunk. It is a growable byte buffer, a
  constant pool and a run-length line table searched by binary search. It
  also has `writeConstant` with its short and long constant forms.
- **The `src/` interpreter** (Rust, expressions only). It has:
  - a scanner;
  - a single-pass Pratt compiler;
  - a chunk with opcode decoding;
  - values and an interned string table;
  - a stack machine that runs one chunk.
- **rustlox** (`rustlox/src/`). It has:
  - a scanner;
  - a recursive-descent parser that builds a syntax tree;
  - a code generator with locals, scopes, closures and upvalues;
  - a chunk and a disassembler;
  - values with closures and upvalues;
  - a function interner;
  - a stack machine with call frames and a list of open upvalues.

How the source's forms are modelled:

- Objects that the source updates in place are classes, with `modifies`
  clauses. These are the chunks, the interners, the scanner, the parser,
  the code generator's `CompilerWrapper` and both machines.
- Each method is proved against a function that states what it computes:
  - `GetLine` against `LineAt`;
  - `ScanTokens` against the reference lexer `LexFrom`;
  - the `src/` machine's `Run` against `Exec`;
  - `end_scope` against `PopScope`;
  - `capture_upvalue` and `close_upvalues` against `Captured` and
    `CloseCount`.
- Rust panics (`unwrap`, `expect`, an index out of bounds, integer
  overflow in a debug build) are explicit outcomes: `Panic`, `Panicked`,
  `Aborted` or `None`. They are not preconditions, except where noted
  under "Left out".
- Where the code does not do what it evidently means, the model follows
  the code as written. The intended behaviour is defined beside it and
  proved, and "Findings" lists each such case.

Modules:

| module | file | source |
|---|---|---|
| `Base` | base.dfy | bytes, `u16`, `Option`/`Result`, the `F64` number carrier with its operations passed as `FloatOps` |
| `CloxChunk` | clox_chunk.dfy | clox/chunk.c (identical to clox/src/chunk.c) |
| `Scanner` | scanner.dfy | rustlox/src/scanner.rs and src/scanner.rs, selected by a `Dialect` |
| `LoxChunk`, `LoxValue`, `LoxString`, `LoxCompiler`, `LoxVm` | lox_*.dfy | src/chunk.rs, src/value.rs, src/string.rs, src/compiler.rs, src/vm.rs |
| `RustloxChunk`, `RustloxValue`, `RustloxFunction` | rustlox_chunk.dfy, rustlox_value.dfy, rustlox_function.dfy | rustlox/src/chunk.rs, value.rs, function.rs |
| `RustloxAst`, `RustloxParser` | rustlox_ast.dfy, rustlox_parser.dfy | rustlox/src/expr.rs, stmt.rs, parser.rs |
| `RustloxCompiler`, `RustloxCodegen` | rustlox_compiler.dfy, rustlox_codegen.dfy | rustlox/src/compiler.rs (`Compiler`, then `CompilerWrapper`) |
| `RustloxVm` | rustlox_vm.dfy | rustlox/src/vm.rs |

## Model

| member | source | states |
|---|---|---|
| Base.BigEndian16 | rustlox/src/chunk.rs:185-186 | two operand bytes read high byte first give a value below 65536, equal to 256 times the first byte plus the second |
| CloxChunk.OpByte | clox/chunk.c:58-63 | every opcode's byte is its position in the C enum, below 8; `OpByteInjective` shows distinct opcodes get distinct bytes |
| CloxChunk.GrowCapacity | clox/chunk.c:24-28 | a grown capacity is at least 8 and strictly larger than the old one |
| CloxChunk.EncodeWellFormed | clox/chunk.c:34-47 | the run table that `writeChunk` builds starts at offset 0, with strictly increasing offsets, adjacent runs on different lines, and every offset inside the code |
| CloxChunk.EncodeSize | clox/chunk.c:34-47 | the run table has one run for the first byte and one more for each change of line, and none for an empty chunk |
| CloxChunk.LineAtRun | clox/chunk.c:68-84 | the line the lookup returns is that of the last run starting at or before the instruction |
| CloxChunk.EncodeRoundTrip | clox/chunk.c:23-48 | looking up any written offset in the run table gives back the line that byte was written with |
| CloxChunk.EncodeLineAtEnd | clox/chunk.c:68-84 | an offset past the last byte reads the last line written |
| CloxChunk.StoppingRun | clox/chunk.c:77-79 | the run at which the binary search stops gives the line of the instruction |
| CloxChunk.ConstantInstruction | clox/chunk.c:55-66 | the bytes `writeConstant` emits: `OP_CONSTANT` and the index up to 255, otherwise `OP_CONSTANT_LONG` and three operand bytes, each below 16 |
| CloxChunk.LongFormRoundTrip | clox/chunk.c:57-61 | the three long-form operand bytes read back as index mod 4096, so they give back the index exactly when it is below 4096 |
| CloxChunk.LongFormCollision | clox/chunk.c:57-61 | constants 256 and 4352 are emitted as identical bytes |
| CloxChunk.ConstantInstructionIntended | clox/chunk.c:55-66 | the corrected long form: three whole bytes that `DecodeLongOperand` reads back as the index, for every index below 2^24 |
| CloxChunk.Realloc | clox/chunk.c:27-28 | a reallocated buffer has the new capacity and keeps the old contents as its prefix |
| CloxChunk.Chunk.constructor | clox/chunk.c:6-14 | a fresh chunk is empty, with no buffers and no constants |
| CloxChunk.Chunk.Init | clox/chunk.c:6-14 | `initChunk` sets every count and capacity to zero and empties the pool |
| CloxChunk.Chunk.Free | clox/chunk.c:16-21 | after `freeChunk` the chunk is back in the state `initChunk` leaves |
| CloxChunk.Chunk.Write | clox/chunk.c:23-48 | the byte is appended and the count grows by one; the line table gains a run only when the line changes, and stays the run-length encoding of every line written; capacity grows by `GrowCapacity` only when full; the pool is unchanged |
| CloxChunk.Chunk.GrowCode | clox/chunk.c:24-29 | afterwards there is room for one more byte and the bytes in use are kept |
| CloxChunk.Chunk.GrowLines | clox/chunk.c:38-43 | afterwards there is room for one more run and the runs in use are kept |
| CloxChunk.Chunk.AddConstant | clox/chunk.c:50-53 | the value is appended to the pool and its index, the old pool size, is returned |
| CloxChunk.Chunk.WriteConstant | clox/chunk.c:55-66 | the pool gains the value, the code gains exactly `ConstantInstruction` of its index, and every byte is on the given line |
| CloxChunk.Chunk.GetLine | clox/chunk.c:68-84 | the binary search returns the line written with that instruction, or the last line for an offset past the end |
| Scanner.KeywordKindReserved | rustlox/src/scanner.rs:175-206 | a lexeme gets a keyword kind exactly when it is in the dialect's keyword table |
| Scanner.LoopKeywords | rustlox/src/scanner.rs:175-206 | `break` and `continue` are keywords in rustlox and plain identifiers in `src/` |
| Scanner.ConsumeEnd | rustlox/src/scanner.rs:82-84 | consuming a run of characters stops inside the source and not before where it started |
| Scanner.ConsumeEndSpec | rustlox/src/scanner.rs:82-84 | the consumed characters all continue the run, and the one it stops at does not |
| Scanner.SkipEnd | rustlox/src/scanner.rs:90-110 | skipping whitespace and comments stays within the source |
| Scanner.SkipEndSpec | rustlox/src/scanner.rs:90-110 | skipping stops at the end or at a character that is neither whitespace nor the start of a `//` comment |
| Scanner.ScanStringAt | rustlox/src/scanner.rs:146-158 | a string scan always consumes the quote; it yields either a string token whose lexeme is its source slice or an error token |
| Scanner.NumberEnd | rustlox/src/scanner.rs:160-173 | a number ends after its digits, or after the digits of a fraction when a `.` is followed by a digit |
| Scanner.ScanIdentifierAt | rustlox/src/scanner.rs:175-206 | an identifier's lexeme is its source slice and its kind is the keyword table's verdict on it |
| Scanner.ScanAt | rustlox/src/scanner.rs:212-265 | every token consumes at least one character, has its source slice as lexeme unless it is an error, and is never an end-of-file token |
| Scanner.LexFromBounds | rustlox/src/scanner.rs:268-275 | the reference lexer yields at most one token per character and no end-of-file token |
| Scanner.TwoCharOperators | rustlox/src/scanner.rs:230-257 | `!`, `=`, `<` and `>` followed by `=` scan as one two-character token |
| Scanner.LoneSlash | rustlox/src/scanner.rs:100-105 | a `/` not followed by `/` is a slash token, not a comment |
| Scanner.StringToken | rustlox/src/scanner.rs:146-158 | a string token is quote-delimited with no quote inside; with no closing quote it is "Unterminated string." and takes the rest of the source |
| Scanner.NumberToken | rustlox/src/scanner.rs:160-173 | a number is made of digits and at most one `.`; it is not followed by a digit; without a fraction it stops before a `.` only when no digit follows |
| Scanner.IdentifierToken | rustlox/src/scanner.rs:175-206 | an identifier takes the dialect's identifier characters as far as they go, and its kind comes from the keyword table |
| Scanner.UnexpectedCharacter | rustlox/src/scanner.rs:261-261 | any other character is the error "Unexpected character." |
| Scanner.NumberWithoutFraction | rustlox/src/scanner.rs:163-169 | `1.` scans as the number `1` and then a dot |
| Scanner.NumberWithFraction | src/scanner.rs:163-180 | `1.5` scans as one number |
| Scanner.IdentifierThenDigit | src/scanner.rs:182-188 | in `src/` a digit ends an identifier and starts a number |
| Scanner.IdentifierWithDigit | rustlox/src/scanner.rs:175-179 | in rustlox a digit continues an identifier |
| Scanner.CommentThenNewline | rustlox/src/scanner.rs:97-108 | a comment stops at its newline, which is still counted, so the next token is on line 2 |
| Scanner.NoNewlines | rustlox/src/scanner.rs:90-110 | a prefix without newline characters adds no lines |
| Scanner.Scanner.constructor | rustlox/src/scanner.rs:69-76 | a new scanner starts at index 0 with the dialect's first line number |
| Scanner.Scanner.Peek | rustlox/src/scanner.rs:91-91 | the next character if there is one, without consuming it |
| Scanner.Scanner.PeekNext | rustlox/src/scanner.rs:138-144 | the character after the next one, if there is one |
| Scanner.Scanner.Advance | rustlox/src/scanner.rs:78-80 | the next character and its index are taken and the position moves on by one; at the end nothing moves and `None` is returned |
| Scanner.Scanner.ConsumeWhile | rustlox/src/scanner.rs:82-84 | the position moves to `ConsumeEnd` of the run |
| Scanner.Scanner.MatchCurrent | rustlox/src/scanner.rs:86-88 | the next character is consumed exactly when it is the expected one |
| Scanner.Scanner.SkipWhitespace | rustlox/src/scanner.rs:90-110 | the position moves to `SkipEnd`, past blanks, newlines and `//` comments |
| Scanner.Scanner.GetLexeme | rustlox/src/scanner.rs:112-120 | the lexeme spans exactly from the token's start to the current position |
| Scanner.Scanner.MakeToken | rustlox/src/scanner.rs:122-128 | a token of the given kind with the current line and the lexeme |
| Scanner.Scanner.MakeErrorToken | rustlox/src/scanner.rs:130-136 | an error token whose lexeme is the message |
| Scanner.Scanner.ScanString | rustlox/src/scanner.rs:146-158 | the scanner's string token is the reference lexer's `ScanStringAt` token |
| Scanner.Scanner.ScanNumber | rustlox/src/scanner.rs:160-173 | the scanner's number token ends where `NumberEnd` says |
| Scanner.Scanner.ScanIdentifier | rustlox/src/scanner.rs:175-206 | the scanner's identifier token is the reference lexer's |
| Scanner.Scanner.Next | rustlox/src/scanner.rs:212-265 | `next` (and `scan_token` of `src/`) skips blanks and comments; it returns `None` when only they remain, and otherwise the reference lexer's next token, moving just past it |
| Scanner.Scanner.ScanToken | rustlox/src/scanner.rs:218-262 | the dispatch on the character just taken gives the reference lexer's `ScanAt` token and leaves the position at its end |
| Scanner.ScanTokens | rustlox/src/scanner.rs:268-275 | the collected tokens are exactly the reference lexer's `LexFrom` of the whole source |
| LoxChunk.TryFrom | src/chunk.rs:23-48 | a decoded byte is the byte of the opcode it decodes to, and a rejected byte comes back as the error |
| LoxChunk.TryFromOkRange | src/chunk.rs:23-48 | a byte decodes exactly when it is at most 13 |
| LoxChunk.TryFromInverse | src/chunk.rs:5-48 | decoding inverts `op as u8` for every opcode |
| LoxChunk.DisassembleInstruction | src/chunk.rs:95-141 | the next offset is two on for `Constant` and one on otherwise; a line equal to the one before shows as a continuation; it panics exactly past the code or line table, or on a `Constant` whose operand is missing or names no constant |
| LoxChunk.Chunk.constructor | src/chunk.rs:65-71 | a new chunk has no code, lines or constants |
| LoxChunk.Chunk.Write | src/chunk.rs:73-76 | the byte and its line are appended |
| LoxChunk.Chunk.AddConstant | src/chunk.rs:78-83 | the value is pushed first; the index is returned when it fits a byte, and a panic (`None`) follows the push otherwise |
| LoxChunk.Chunk.Disassemble | src/chunk.rs:85-93 | the disassembler visits offsets that strictly increase from 0, each found by `DisassembleInstruction` |
| LoxValue.IsFalsy | src/value.rs:19-25 | a value is falsy exactly when it is `nil` or `false` |
| LoxValue.EqBoolNil | src/value.rs:8-17 | booleans are equal when their truth values are, and `nil == nil` |
| LoxValue.EqDifferentVariants | src/value.rs:8-17 | values of different variants are never equal |
| LoxValue.EqIsIdentity | src/value.rs:8-17 | on any pair that is not two numbers, equality is identity |
| LoxValue.FalsyIffEqualsNilOrFalse | src/value.rs:8-25 | being falsy is being equal to `nil` or to `false` |
| LoxString.Interner.constructor | src/string.rs:43-46 | a new interner is empty and keeps its invariant: map and vector agree on the texts and their indices |
| LoxString.Interner.Intern | src/string.rs:48-58 | a known text gives back its handle with nothing changed; a new text gets the next index, is appended and is recorded in the map |
| LoxString.Interner.Get | src/string.rs:60-62 | the text at an index is the one the map sends to that index |
| LoxString.DistinctHandles | src/string.rs:48-58 | two texts share a handle exactly when they are the same text |
| LoxString.FromStr | src/string.rs:18-20 | the handle reads back as the text, and the texts already interned are kept |
| LoxString.AsStr | src/string.rs:10-16 | the text of a handle is one that interning again would map to that same handle |
| LoxString.Add | src/string.rs:23-29 | the sum of two handles reads back as the concatenation of their texts |
| LoxCompiler.LevelInjective | src/compiler.rs:7-19 | different precedences have different levels |
| LoxCompiler.HigherClimbs | src/compiler.rs:22-35 | `higher` is one level up, and `Primary` stays `Primary` |
| LoxCompiler.GetRule | src/compiler.rs:55-69 | only `-`, `+`, `/` and `*` have an infix rule, at `Term` or `Factor`; `(`, `-`, `!`, numbers and the three literals have a prefix rule; every other token has precedence `None` |
| LoxCompiler.BindsIffInfix | src/compiler.rs:55-69 | a token binds (its precedence is above `None`) exactly when it has an infix rule |
| LoxCompiler.SameLevelStops | src/compiler.rs:179-192 | an operator's right operand stops before an operator of the same level, so binary operators associate to the left |
| LoxCompiler.BinaryOp | src/compiler.rs:185-191 | the opcode `binary` emits for `+`, `-`, `*` and `/`, and none for the other tokens |
| LoxCompiler.Placement | src/compiler.rs:92-107 | where an error is placed: "at end" at EOF, nothing for an error token, otherwise at the quoted message, as written |
| LoxCompiler.MakeConstantAsWritten | src/compiler.rs:164-172 | as written, the outcome is never the report: once the pool is full `add_constant` has already panicked, so the `> u8::MAX` test cannot fire |
| LoxCompiler.MakeConstantIntended | src/compiler.rs:164-172 | the corrected behaviour: a full pool reports "Too many constants in one chunk." and is left unchanged |
| LoxCompiler.MakeConstantDiscrepancy | src/chunk.rs:78-83 | as written, a full pool panics where the intended version reports |
| LoxCompiler.Compiler.constructor | src/compiler.rs:71-82 | a fresh compiler over the source and chunk, with no error and no panic mode |
| LoxCompiler.Compiler.ErrorAt | src/compiler.rs:92-107 | sets panic mode; in panic mode nothing more is reported, otherwise one report with the line, `Placement` and the message |
| LoxCompiler.Compiler.ErrorAtCurrent | src/compiler.rs:109-115 | reports at the current token |
| LoxCompiler.Compiler.Error | src/compiler.rs:117-123 | reports at the previous token |
| LoxCompiler.Compiler.ScanToken | src/compiler.rs:125-138 | the `src/` scanner's next token after blanks, or an EOF token once the source is exhausted |
| LoxCompiler.Compiler.ScanPastErrors | src/compiler.rs:128-137 | returns the first token that is not an error, with the scanner moved on (to the end on EOF) and the current and previous tokens untouched; no report is added in panic mode; outside it, an error token next gives exactly one report and panic mode, and any other next token leaves reports and panic mode as they were |
| LoxCompiler.Compiler.Advance | src/compiler.rs:125-138 | `previous` takes the old current token and `current` is filled; the scanner moves on unless it was already at EOF; reports change only when the next token is an error token, by the one report panic mode lets through |
| LoxCompiler.Compiler.Consume | src/compiler.rs:140-147 | advances when the current token has the kind, and reports the message otherwise |
| LoxCompiler.Compiler.EmitByte | src/compiler.rs:149-153 | appends the byte with the previous token's line |
| LoxCompiler.Compiler.EmitBytes | src/compiler.rs:155-158 | appends both bytes in order |
| LoxCompiler.Compiler.EmitReturn | src/compiler.rs:160-162 | appends `Return` |
| LoxCompiler.Compiler.MakeConstant | src/compiler.rs:164-172 | behaves as `MakeConstantAsWritten`: the index below 256, else a panic after the push |
| LoxCompiler.Compiler.EmitConstant | src/compiler.rs:174-177 | appends `Constant` and the index; with a full pool the value is still pushed, `Constant 0` is appended and the panic is recorded |
| LoxCompiler.Compiler.Binary | src/compiler.rs:179-192 | compiles the right operand one level up, then emits `BinaryOp` of the operator |
| LoxCompiler.Compiler.Literal | src/compiler.rs:194-201 | `nil`, `true` and `false` emit their opcodes |
| LoxCompiler.Compiler.Grouping | src/compiler.rs:203-206 | compiles the parenthesised expression; the code and the scanner only move forward, and panic mode is never left |
| LoxCompiler.Compiler.Number | src/compiler.rs:208-219 | emits the constant parsed from the lexeme |
| LoxCompiler.Compiler.Unary | src/compiler.rs:221-231 | the operand at unary level, then `Negate` for `-` or `Not` for `!` |
| LoxCompiler.Compiler.Prefix | src/compiler.rs:236-241 | runs the previous token's prefix rule; the code and the scanner only move forward |
| LoxCompiler.Compiler.ParsePrecedence | src/compiler.rs:233-249 | a token with no prefix rule emits nothing and, outside panic mode, adds exactly one report, which is "Expect expression." at that token unless the next token is an error token; otherwise, outside panic mode, it stops only at a token binding looser than the precedence |
| LoxCompiler.Compiler.InfixOperators | src/compiler.rs:243-248 | stops exactly at the first token binding looser than the precedence |
| LoxCompiler.Compiler.Expression | src/compiler.rs:251-253 | compiles an expression and, outside panic mode, stops only at a token that does not bind |
| LoxCompiler.Compiler.EndCompiler | src/compiler.rs:255-260 | appends `Return` |
| LoxCompiler.Compiler.CompileExpression | src/compiler.rs:262-267 | compiles one expression and ends the chunk with `Return`; the result is true exactly when no error was reported |
| LoxCompiler.Compile | src/compiler.rs:270-274 | compiles the source into the chunk: it succeeds exactly when nothing was reported, and the reports are returned; the old code is kept as a prefix and the new code ends with `Return`; a panic means a 257th constant was added |
| LoxVm.ArithAsWrittenSwaps | src/vm.rs:83-84 | as written, the top of the stack is the left operand: the result is the intended operation with its operands swapped |
| LoxVm.ArithIntended | src/vm.rs:81-95 | the corrected operator: the value pushed first is the left operand |
| LoxVm.ArithCounterexample | src/vm.rs:83-84 | `3 - 1` gives -2 as written and 2 as intended, and `1 < 2` gives false as written |
| LoxVm.RuntimeFailure | src/vm.rs:29-36 | a runtime error reports the message with the line of the failing instruction and clears the stack; a line past the table panics |
| LoxVm.Step | src/vm.rs:97-166 | one pass of the loop: a machine that keeps running has moved `ip` forward within the code, with its reports and printed values unchanged |
| LoxVm.Exec | src/vm.rs:67-167 | the loop always stops, with a result or a panic |
| LoxVm.StepStackEffect | src/vm.rs:108-160 | each instruction that keeps running changes the stack by its fixed effect and leaves the values below its operands alone |
| LoxVm.ReturnStep | src/vm.rs:156-160 | `Return` pops and prints the top value and ends with `Ok`, and panics on an empty stack |
| LoxVm.EqualStep | src/vm.rs:118-122 | `Equal` replaces the two operands with whether they are equal |
| LoxVm.NotStep | src/vm.rs:142-145 | `Not` replaces the top with whether it is falsy |
| LoxVm.NegateStep | src/vm.rs:146-155 | `Negate` negates a number, and anything else is "Operand must be a number." with an empty stack |
| LoxVm.ArithStep | src/vm.rs:123-141 | `Add` adds left to right; the other binary operators compute with the top of the stack on the left, as written |
| LoxVm.ConstantStep | src/vm.rs:109-114 | `Constant` pushes the pool entry its operand names and skips the operand |
| LoxVm.ExecOutcomes | src/vm.rs:67-167 | a run never yields `CompileError`; a runtime error leaves an empty stack and exactly one more report; `Ok` prints exactly one value and reports nothing |
| LoxVm.VM.constructor | src/vm.rs:21-23 | a machine with no chunk, `ip` 0 and an empty stack |
| LoxVm.VM.ResetStack | src/vm.rs:25-27 | the stack is empty |
| LoxVm.VM.RuntimeError | src/vm.rs:29-36 | reports the message with the line of the instruction just read, then clears the stack; panics when there is no such line |
| LoxVm.VM.Push | src/vm.rs:52-54 | the value is on top |
| LoxVm.VM.Pop | src/vm.rs:56-58 | the top value is removed and returned, or a panic on an empty stack |
| LoxVm.VM.Peek | src/vm.rs:60-65 | the value `index` places below the top, or a panic when there is none |
| LoxVm.VM.ReadByte | src/vm.rs:68-73 | `ip` moves on by one and the byte it passed is returned, or a panic past the end |
| LoxVm.VM.ReadConstant | src/vm.rs:75-79 | the pool entry the next byte names, or a panic |
| LoxVm.VM.ArithOp | src/vm.rs:81-95 | the arm agrees with `Step`: operands as written, a runtime error for non-numbers |
| LoxVm.VM.AddOp | src/vm.rs:125-138 | the arm agrees with `Step` |
| LoxVm.VM.EqualOp | src/vm.rs:118-122 | the arm agrees with `Step` |
| LoxVm.VM.NotOp | src/vm.rs:142-145 | the arm agrees with `Step` |
| LoxVm.VM.NegateOp | src/vm.rs:146-155 | the arm agrees with `Step` |
| LoxVm.VM.ReturnOp | src/vm.rs:156-160 | the arm agrees with `Step` |
| LoxVm.VM.StepOnce | src/vm.rs:107-165 | one pass of the loop agrees with `Step` |
| LoxVm.VM.Run | src/vm.rs:67-167 | the loop ends as `Exec` does, and unless it panics, in `Exec`'s final state |
| LoxVm.Interpret | src/vm.rs:38-50 | a compile failure is `CompileError` without running and comes with at least one report (a compiler panic is passed on); after a clean compile nothing was reported, and a fresh machine runs the chunk from `ip` 0 as `Exec` says |
| RustloxChunk.TryFrom | rustlox/src/chunk.rs:33-67 | a decoded byte is the byte of a declared opcode, and a rejected byte comes back as the error |
| RustloxChunk.TryFromOkRange | rustlox/src/chunk.rs:33-67 | a byte decodes exactly when it is at most 22 |
| RustloxChunk.TryFromInverse | rustlox/src/chunk.rs:6-67 | decoding inverts `op as u8` for the 23 declared opcodes and rejects the bytes of the six undeclared ones |
| RustloxChunk.OpByteInjective | rustlox/src/chunk.rs:6-31 | distinct opcodes have distinct bytes |
| RustloxChunk.JumpTarget | rustlox/src/chunk.rs:184-194 | a jump's target is its offset plus 3 plus the sign times its big-endian operand |
| RustloxChunk.DisassembleInstruction | rustlox/src/chunk.rs:121-182 | the next offset skips the opcode's operand bytes; jumps carry a target; it panics only past the code or line table, on a missing operand, or on a constant index outside the pool |
| RustloxChunk.DisassembleTotal | rustlox/src/chunk.rs:121-182 | an instruction with all its operand bytes and a valid constant index always disassembles |
| RustloxChunk.Chunk.constructor | rustlox/src/chunk.rs:84-90 | a new chunk is empty |
| RustloxChunk.Chunk.Write | rustlox/src/chunk.rs:92-95 | the byte and its line are appended |
| RustloxChunk.Chunk.AddConstant | rustlox/src/chunk.rs:97-105 | below 256 constants the value is appended and its index returned; otherwise `Err(())` with the pool unchanged |
| RustloxChunk.Chunk.Disassemble | rustlox/src/chunk.rs:111-119 | the disassembler visits strictly increasing offsets from 0 |
| RustloxValue.GetName | rustlox/src/value.rs:16-21 | a named function shows its name, and the name shown is never empty (the script shows as "script") |
| RustloxValue.GetNameCollision | rustlox/src/value.rs:16-21 | the script and a function named `script` show alike |
| RustloxValue.GetNameInjective | rustlox/src/value.rs:16-21 | apart from that case, different names show differently |
| RustloxValue.NewClosure | rustlox/src/value.rs:38-46 | a new closure has the function, no upvalues yet, and room for the function's upvalue count |
| RustloxValue.Upvalue.NewClosed | rustlox/src/value.rs:71-77 | a closed upvalue holds its value and links nowhere |
| RustloxValue.Upvalue.NewOpen | rustlox/src/value.rs:79-85 | an open upvalue refers to its stack slot and links to the next one |
| RustloxValue.Upvalue.GetLocation | rustlox/src/value.rs:87-92 | the slot of an open upvalue, and 0 for a closed one |
| RustloxValue.Upvalue.SetLocation | rustlox/src/value.rs:94-100 | a closed upvalue stores the value; an open one moves to the new slot and keeps `closed`; the link is kept |
| RustloxValue.IsFalsy | rustlox/src/value.rs:128-134 | a value is falsy exactly when it is `nil` or `false` |
| RustloxValue.EqSameVariant | rustlox/src/value.rs:114-126 | equal values are of the same variant |
| RustloxValue.ClosureNeverEqual | rustlox/src/value.rs:114-126 | a closure equals nothing, not even itself |
| RustloxValue.FunctionEqByChunk | rustlox/src/value.rs:114-126 | two functions are equal exactly when they share their chunk |
| RustloxValue.EqReflexive | rustlox/src/value.rs:114-126 | every value that is neither a number nor a closure equals itself |
| RustloxValue.EqSymmetric | rustlox/src/value.rs:114-126 | equality is symmetric when float equality is |
| RustloxValue.FalsyIffEqualsNilOrFalse | rustlox/src/value.rs:114-134 | being falsy is being equal to `nil` or `false` |
| RustloxFunction.Interner.constructor | rustlox/src/function.rs:40-43 | a new interner is empty |
| RustloxFunction.Interner.Intern | rustlox/src/function.rs:45-55 | keyed by the name's text: a known name gives its handle and drops the new function; a new name is appended under the next index |
| RustloxFunction.Interner.Get | rustlox/src/function.rs:57-59 | the function stored at the index, which the map names by its key |
| RustloxParser.BinaryLevel | rustlox/src/parser.rs:392-460 | each binary operator's grammar level: equality 4, comparison 5, term 6, factor 7 |
| RustloxParser.ShapedMonotone | rustlox/src/parser.rs:336-539 | what a grammar level derives, every lower level derives too |
| RustloxParser.TermIsLeftAssociative | rustlox/src/parser.rs:429-444 | `a - b - c` can only be `(a - b) - c` |
| RustloxParser.EqualityNestsRight | rustlox/src/parser.rs:392-408 | as written, `equality` recurses for its right operand, so `a == b == c` can only be `a == (b == c)` |
| RustloxParser.FactorOperands | rustlox/src/parser.rs:445-460 | the operands of `*` and `/` are never looser expressions unless parenthesised |
| RustloxParser.Parser.constructor | rustlox/src/parser.rs:26-37 | a parser at the first token, with no error, at script level and outside any loop |
| RustloxParser.Parser.Peek | rustlox/src/parser.rs:38-41 | the current token, or `None` past the end |
| RustloxParser.Parser.Previous | rustlox/src/parser.rs:46-49 | the token before the current one |
| RustloxParser.Parser.Advance | rustlox/src/parser.rs:50-56 | moves on by one token unless at the end, and returns the previous token |
| RustloxParser.Parser.MatchCurrent | rustlox/src/parser.rs:64-71 | consumes the current token exactly when it has the kind |
| RustloxParser.Parser.MatchOperator | rustlox/src/parser.rs:395-395 | consumes the current token exactly when it is one of the operators |
| RustloxParser.Parser.Error | rustlox/src/parser.rs:73-96 | in panic mode nothing is reported; otherwise one report with the token's line and place and the message; both flags are set |
| RustloxParser.Parser.Consume | rustlox/src/parser.rs:97-106 | a token of the kind is consumed and returned; otherwise `Err` and the message is reported |
| RustloxParser.Parser.Declaration | rustlox/src/parser.rs:107-117 | a declaration consumes tokens and is well formed; on `Err` the parser is in panic mode |
| RustloxParser.Parser.Function | rustlox/src/parser.rs:118-157 | a well-formed function declaration of the given kind (identifier name and parameters, closing brace, well-formed body); the enclosing function kind is restored |
| RustloxParser.Parser.Parameters | rustlox/src/parser.rs:128-146 | the parameter list: identifiers separated by commas |
| RustloxParser.Parser.Statement | rustlox/src/parser.rs:158-185 | a well-formed statement that consumes tokens |
| RustloxParser.Parser.VarDeclaration | rustlox/src/parser.rs:186-201 | a well-formed `var`: an identifier name and an optional initializer at assignment level |
| RustloxParser.Parser.ForStatement | rustlox/src/parser.rs:202-239 | a well-formed `for`: a `var` or expression initializer, optional condition and increment, and a body; the enclosing loop kind is restored |
| RustloxParser.Parser.IfStatement | rustlox/src/parser.rs:240-258 | a well-formed `if`: a condition, a statement and an optional `else` statement |
| RustloxParser.Parser.PrintStatement | rustlox/src/parser.rs:259-268 | a `print` of one expression |
| RustloxParser.Parser.ReturnStatement | rustlox/src/parser.rs:269-279 | a `return` with an optional value |
| RustloxParser.Parser.WhileStatement | rustlox/src/parser.rs:280-292 | a well-formed `while`; the enclosing loop kind is restored |
| RustloxParser.Parser.Block | rustlox/src/parser.rs:293-303 | declarations up to and including the closing brace, all well formed |
| RustloxParser.Parser.BlockStatement | rustlox/src/parser.rs:304-309 | the block as a statement |
| RustloxParser.Parser.ExpressionStatement | rustlox/src/parser.rs:330-335 | one expression followed by `;` |
| RustloxParser.Parser.Expression | rustlox/src/parser.rs:336-339 | an expression at assignment level |
| RustloxParser.Parser.Assignment | rustlox/src/parser.rs:340-359 | an expression at assignment level: an assignment to a variable, or anything tighter |
| RustloxParser.Parser.FinishAssignment | rustlox/src/parser.rs:343-357 | after `=`, a variable target gives an assignment to that name; any other target returns the left side unchanged and reports "Invalid assignment target." at the `=` (nothing new when already in panic mode) |
| RustloxParser.Parser.Or | rustlox/src/parser.rs:360-375 | an expression at `or` level or tighter; `or` chains associate to the left |
| RustloxParser.Parser.And | rustlox/src/parser.rs:376-391 | an expression at `and` level or tighter, stopping only before a token that is not `and`; as written, the right operand nests |
| RustloxParser.Parser.Equality | rustlox/src/parser.rs:392-408 | an expression at equality level or tighter, stopping only before a token that is not an equality operator; as written, the right operand nests |
| RustloxParser.Parser.Comparison | rustlox/src/parser.rs:409-428 | an expression at comparison level or tighter, associating to the left |
| RustloxParser.Parser.Term | rustlox/src/parser.rs:429-444 | an expression at term level or tighter, associating to the left |
| RustloxParser.Parser.Factor | rustlox/src/parser.rs:445-460 | an expression at factor level or tighter, associating to the left |
| RustloxParser.Parser.Unary | rustlox/src/parser.rs:461-473 | an expression at unary level or tighter: `!` or `-` applied to a unary expression, or a call |
| RustloxParser.Parser.FinishCall | rustlox/src/parser.rs:474-498 | a call of the given callee with its argument list |
| RustloxParser.Parser.Call | rustlox/src/parser.rs:499-508 | a primary, called at most once |
| RustloxParser.Parser.Primary | rustlox/src/parser.rs:509-539 | a literal, a variable or a parenthesised expression |
| RustloxParser.Parser.Synchronize | rustlox/src/parser.rs:540-562 | moves on at least one token, to the end or to just after `;` or before a statement keyword |
| RustloxParser.ParseTokens | rustlox/src/parser.rs:565-582 | at most one diagnostic; `None` exactly when one was reported; otherwise well-formed statements |
| RustloxCompiler.LastMatch | rustlox/src/compiler.rs:69-80 | the innermost index whose local has the name, or none |
| RustloxCompiler.ResolveLocalFindsInnermost | rustlox/src/compiler.rs:69-80 | resolution picks the innermost local of that name; one still being initialized is the error "Can't read local variable in its own initializer." |
| RustloxCompiler.FindUpvalueAsWritten | rustlox/src/compiler.rs:82-95 | as written, the scan compares each entry's own position with its stored index, not with the index asked for |
| RustloxCompiler.AddUpvalueAsWritten | rustlox/src/compiler.rs:82-95 | `add_upvalue` as written: the list grows by at most one entry, which is `(index, is_local)` and is refused past 256; an index returned names an upvalue of the requested kind |
| RustloxCompiler.FindUpvalue | rustlox/src/compiler.rs:82-95 | the corrected scan finds an upvalue exactly when one with that index and kind is recorded |
| RustloxCompiler.AddUpvalueIntendedCorrect | rustlox/src/compiler.rs:82-95 | the corrected version never records one capture twice, and the index it returns names the capture asked for |
| RustloxCompiler.AddUpvalueCounterexample | rustlox/src/compiler.rs:82-95 | as written, capturing slot 5 after slot 0 returns upvalue 0, and capturing 3 twice records it twice |
| RustloxCompiler.NewCompiler | rustlox/src/compiler.rs:38-55 | a new compiler: slot 0 reserved for the function, scope depth 0, no upvalues, and a fresh chunk |
| RustloxCompiler.ResolveLocal | rustlox/src/compiler.rs:69-80 | the loop from the top finds what `ResolveLocalSpec` does: the innermost local of the name, `None` when there is none, and an error for one still being initialized |
| RustloxCompiler.AddUpvalue | rustlox/src/compiler.rs:82-95 | the result and the new upvalue list are `AddUpvalueAsWritten`'s |
| RustloxCompiler.MarkCaptured | rustlox/src/compiler.rs:104-106 | only the local at that slot becomes captured |
| RustloxCompiler.ResolveUpvalue | rustlox/src/compiler.rs:97-112 | finds the name as a local of an enclosing function or as its upvalue, recording the chain of upvalues; an upvalue found means some enclosing function has a local of the name, and no upvalue (nothing changed) means none has; without an enclosing function it is unbound |
| RustloxCompiler.CaptureLocal | rustlox/src/compiler.rs:102-107 | a local of the enclosing function is marked captured and recorded as a local upvalue; on success the name is bound in an enclosing function |
| RustloxCompiler.CaptureUpvalue | rustlox/src/compiler.rs:108-111 | an upvalue of the enclosing function is recorded as a non-local upvalue; an upvalue found means some enclosing function has a local of the name, and no upvalue means none has |
| RustloxCompiler.RecordOuter | rustlox/src/compiler.rs:97-112 | the enclosing compilers grow only by recorded upvalues and captured marks; an error propagates, and an upvalue recorded here stands for a name bound in an enclosing function |
| RustloxCompiler.ShapePrefix | rustlox/src/compiler.rs:349-373 | two local lists with the same names and depths still agree after both are cut to the same length |
| RustloxCompiler.ExtendsRefl | rustlox/src/compiler.rs:97-112 | every compiler stack is a growth of itself |
| RustloxCompiler.ExtendsTrans | rustlox/src/compiler.rs:97-112 | growth of the compiler stack (more upvalues, more captured marks) composes |
| RustloxCompiler.ShapeResolves | rustlox/src/compiler.rs:69-80 | locals with the same names and depths resolve every name alike |
| RustloxCompiler.SameNamesMatch | rustlox/src/compiler.rs:69-80 | the innermost match of a name depends only on the locals' names |
| RustloxCodegen.OpBytes | rustlox/src/compiler.rs:165-172 | the bytes of a sequence of opcodes, one per opcode |
| RustloxCodegen.BinaryLowering | rustlox/src/compiler.rs:658-677 | `binary` lowers exactly the ten operators; `!=`, `>=` and `<=` become the complementary comparison followed by `Not` |
| RustloxCodegen.Operand | rustlox/src/compiler.rs:192-193 | the two bytes written for a jump distance read back as that distance |
| RustloxCodegen.PatchedCode | rustlox/src/compiler.rs:218-232 | patching fails with "Too much code to jump over." exactly when the distance exceeds 65535; otherwise only the two placeholder bytes change |
| RustloxCodegen.PatchedJumpLands | rustlox/src/compiler.rs:218-232 | a patched forward jump lands at the end of the code as it was when patched |
| RustloxCodegen.PatchKeepsPrefix | rustlox/src/compiler.rs:218-232 | patching leaves the code before the placeholder alone |
| RustloxCodegen.AndLands | rustlox/src/compiler.rs:728-736 | in `a and b` a false left operand jumps past the right operand |
| RustloxCodegen.OrLands | rustlox/src/compiler.rs:738-749 | in `a or b` a true left operand jumps past the right operand |
| RustloxCodegen.LoopOperand | rustlox/src/compiler.rs:179-195 | a loop operand exists exactly when the backward distance fits in 16 bits |
| RustloxCodegen.LoopLands | rustlox/src/compiler.rs:179-195 | a loop emitted at the end of the code jumps back to the loop start |
| RustloxCodegen.RedeclaresExactly | rustlox/src/compiler.rs:261-288 | the redeclaration scan succeeds exactly when a local of that name lies in the current scope, above every local of an outer scope |
| RustloxCodegen.PopScope | rustlox/src/compiler.rs:349-373 | leaving a scope keeps a prefix of the locals and emits one opcode per local dropped |
| RustloxCodegen.PopScopePops | rustlox/src/compiler.rs:349-373 | the locals dropped are the initialized ones deeper than the new depth, from the top; a captured local gets `CloseUpvalue` and the others `Pop` |
| RustloxCodegen.PopScopeFails | rustlox/src/compiler.rs:349-373 | leaving a scope panics only at a local still being initialized, with every local above it initialized deeper than the new depth |
| RustloxCodegen.PopScopeNested | rustlox/src/compiler.rs:349-373 | on scopes nested in order, with every local initialized, leaving a scope never panics; it keeps exactly the locals at or below the new depth, at least the reserved slot 0 |
| RustloxCodegen.PopLocals | rustlox/src/compiler.rs:350-368 | the loop of `end_scope` computes `PopScope` |
| RustloxCodegen.UpvalueBytes | rustlox/src/compiler.rs:466-469 | two bytes per upvalue, `is_local` as 1 or 0, then its index |
| RustloxCodegen.UpvalueBytesAppend | rustlox/src/compiler.rs:466-469 | one more upvalue appends its pair |
| RustloxCodegen.JoinAppend | rustlox/src/compiler.rs:349-373 | prepending two runs of opcodes to a scope's result is prepending their concatenation |
| RustloxCodegen.ExtendsThenScoped | rustlox/src/compiler.rs:402-416 | a grown compiler stack followed by a statement's change is a statement's change |
| RustloxCodegen.ScopedTrans | rustlox/src/compiler.rs:418-425 | the changes of consecutive statements compose |
| RustloxCodegen.PopDeclared | rustlox/src/compiler.rs:418-425 | leaving a block drops exactly the locals the block declared |
| RustloxCodegen.MarkedAgain | rustlox/src/compiler.rs:300-308 | marking the newest local initialized a second time changes nothing |
| RustloxCodegen.CloseScoped | rustlox/src/compiler.rs:418-425 | a block whose body compiled and whose scope closed leaves the compiler stack as before it, grown only by upvalues and captured marks |
| RustloxCodegen.IfLands | rustlox/src/compiler.rs:541-557 | a false condition jumps to the else branch and the end of the then branch jumps past it |
| RustloxCodegen.WhileLands | rustlox/src/compiler.rs:578-598 | a false condition leaves the loop, and the body loops back to the condition |
| RustloxCodegen.ForLands | rustlox/src/compiler.rs:473-531 | the loop instruction goes back to the increment or the condition, and the patched exit jump lands just after the loop |
| RustloxCodegen.ForJumpsGrow | rustlox/src/compiler.rs:473-531 | jumps already emitted stay in place while code is appended |
| RustloxCodegen.Wrapper.constructor | rustlox/src/compiler.rs:124-133 | one compiler for the script, with an empty chunk and no reports |
| RustloxCodegen.Wrapper.EmitByte | rustlox/src/compiler.rs:160-163 | appends the byte with the current line |
| RustloxCodegen.Wrapper.EmitOp | rustlox/src/compiler.rs:165-167 | appends the opcode's byte |
| RustloxCodegen.Wrapper.EmitOps | rustlox/src/compiler.rs:169-172 | appends both opcodes |
| RustloxCodegen.Wrapper.EmitBytes | rustlox/src/compiler.rs:174-177 | appends both bytes |
| RustloxCodegen.Wrapper.EmitAll | rustlox/src/compiler.rs:370-372 | appends every opcode, in order |
| RustloxCodegen.Wrapper.Error | rustlox/src/compiler.rs:394-400 | adds one report with the lexeme and the message, and fails |
| RustloxCodegen.Wrapper.EmitJump | rustlox/src/compiler.rs:197-202 | appends the jump and two placeholder bytes, and returns the placeholder's offset |
| RustloxCodegen.Wrapper.PatchJump | rustlox/src/compiler.rs:218-232 | the code becomes `PatchedCode`, or the error is reported |
| RustloxCodegen.Wrapper.EmitLoop | rustlox/src/compiler.rs:179-195 | appends `Loop` and `LoopOperand`'s bytes, or reports "Loop body too large." |
| RustloxCodegen.Wrapper.EmitReturn | rustlox/src/compiler.rs:204-207 | appends `Nil` and `Return` |
| RustloxCodegen.Wrapper.MakeConstant | rustlox/src/compiler.rs:209-211 | below 256 constants the value's index; otherwise `Err` with the pool unchanged |
| RustloxCodegen.Wrapper.EmitConstant | rustlox/src/compiler.rs:213-216 | appends `Constant` and the index, or fails without a report when the pool is full |
| RustloxCodegen.Wrapper.IdentifierConstant | rustlox/src/compiler.rs:239-241 | the pool gains the interned name and its index is returned |
| RustloxCodegen.Wrapper.AddLocal | rustlox/src/compiler.rs:243-259 | below 255 locals, an uninitialized local of the name is added; otherwise "Too many local variables in function." |
| RustloxCodegen.Wrapper.InScope | rustlox/src/compiler.rs:266-278 | the scan reports a redeclaration exactly when `Redeclares` holds |
| RustloxCodegen.Wrapper.DeclareVariable | rustlox/src/compiler.rs:261-288 | at top level nothing; in a scope, a redeclaration is reported, otherwise a local is added |
| RustloxCodegen.Wrapper.ParseVariable | rustlox/src/compiler.rs:290-298 | in a scope an uninitialized local of the name is added and 0 is returned; at top level the name's constant index is returned |
| RustloxCodegen.Wrapper.MarkInitialized | rustlox/src/compiler.rs:300-308 | in a scope the newest local gets the current depth; at top level nothing changes |
| RustloxCodegen.Wrapper.DefineVariable | rustlox/src/compiler.rs:310-317 | at top level `DefineGlobal` and its constant are emitted; in a scope the newest local is marked initialized and no code is emitted |
| RustloxCodegen.Wrapper.BeginScope | rustlox/src/compiler.rs:345-347 | the depth grows by one |
| RustloxCodegen.Wrapper.EndScope | rustlox/src/compiler.rs:349-373 | the depth shrinks by one, the locals are cut and the code extended as `PopScope` says; a local still being initialized panics and changes nothing |
| RustloxCodegen.Wrapper.EndCompiler | rustlox/src/compiler.rs:330-343 | the innermost compiler is popped and returned, with its code ending in `Nil`, `Return` |
| RustloxCodegen.Wrapper.GetArg | rustlox/src/compiler.rs:626-646 | a local slot, an upvalue or a global name constant, as `Resolution` says; a local read in its own initializer is reported; at top level only a full pool keeps a global from resolving |
| RustloxCodegen.Wrapper.Expression | rustlox/src/compiler.rs:613-624 | the compiler stack only grows, the code and the pool only grow, and at most one report is added, none on success |
| RustloxCodegen.Wrapper.Literal | rustlox/src/compiler.rs:688-699 | `nil`, `true` and `false` emit their opcodes; a number emits `Constant` with its index in the pool; a string emits `Constant` naming its text without the quotes; a full pool fails, and a string lexeme shorter than two characters or any other token panics |
| RustloxCodegen.Wrapper.Variable | rustlox/src/compiler.rs:720-726 | outside an error, emits the get instruction that `Resolution` chose for the name and its operand; reading a local in its own initializer is reported |
| RustloxCodegen.Wrapper.Unary | rustlox/src/compiler.rs:709-718 | when compiled, the code ends with `Not` for `!` or `Negate` for `-` |
| RustloxCodegen.Wrapper.Binary | rustlox/src/compiler.rs:658-677 | when compiled, the operator is one of the ten binary operators and the code ends with the opcodes of `BinaryOps` |
| RustloxCodegen.Wrapper.Call | rustlox/src/compiler.rs:679-686 | when compiled, the code ends with `Call` and the argument count (as a byte) |
| RustloxCodegen.Wrapper.Logical | rustlox/src/compiler.rs:701-707 | when compiled, `and` has the `And` layout and `or` the `Or` layout; any other operator panics |
| RustloxCodegen.Wrapper.AndExpr | rustlox/src/compiler.rs:728-736 | when compiled, the new code has the `And` layout: a false left operand jumps past the right one |
| RustloxCodegen.Wrapper.OrExpr | rustlox/src/compiler.rs:738-749 | when compiled, the new code has the `Or` layout: a true left operand jumps past the right one |
| RustloxCodegen.Wrapper.Assignment | rustlox/src/compiler.rs:648-656 | when compiled, the code ends with the set instruction `Resolution` chose for the target and its operand |
| RustloxCodegen.Wrapper.Statement | rustlox/src/compiler.rs:402-416 | a compiled statement changes the compiler stack only as a statement may (`Scoped`) and only grows the code; `break` and `continue` fail without a report |
| RustloxCodegen.Wrapper.Block | rustlox/src/compiler.rs:418-425 | when compiled, the statements ran in a new scope that was closed: the compiler stack is as before, grown only by upvalues and captured marks |
| RustloxCodegen.Wrapper.ExpressionStatement | rustlox/src/compiler.rs:427-431 | when compiled, the code ends with `Pop` |
| RustloxCodegen.Wrapper.Print | rustlox/src/compiler.rs:559-564 | when compiled, the code ends with `Print` |
| RustloxCodegen.Wrapper.Return | rustlox/src/compiler.rs:566-576 | when compiled, the code ends with `Return`; without a value it emits exactly `Nil`, `Return` |
| RustloxCodegen.Wrapper.Var | rustlox/src/compiler.rs:600-611 | when compiled in a scope, one local of the name is added; at top level the code ends with `DefineGlobal` and the name's constant |
| RustloxCodegen.Wrapper.If | rustlox/src/compiler.rs:541-557 | when compiled, the new code has the `IfShape` layout: a false condition jumps to the else part, and the then part jumps past it |
| RustloxCodegen.Wrapper.While | rustlox/src/compiler.rs:578-598 | when compiled, the new code has the `WhileShape` layout: a false condition exits, and the body loops back to the condition |
| RustloxCodegen.Wrapper.For | rustlox/src/compiler.rs:473-531 | when compiled, the compiler stack is as before, grown only by upvalues and captured marks, and the code only grows |
| RustloxCodegen.Wrapper.FunDeclaration | rustlox/src/compiler.rs:533-539 | when compiled in a scope, one local of the name is added; at top level the code ends with `DefineGlobal` and the name's constant |
| RustloxCodegen.Wrapper.Function | rustlox/src/compiler.rs:443-471 | a fresh chunk for the body ends with `Nil`, `Return` and records the arity; the enclosing code gains `Closure`, the function's constant and `UpvalueBytes` of its upvalues |
| RustloxCodegen.Wrapper.Compile | rustlox/src/compiler.rs:375-392 | all statements compile (`Finished`, with the script's chunk ending in `Nil`, `Return` and no report), some fail (`CompileError`), or one panics and compilation stops (`Aborted`) |
| RustloxCodegen.Compile | rustlox/src/compiler.rs:764-772 | no tokens panic; a parse error gives `CompileError` with no compile report; a finished script has arity 0, no reports and code ending in `Nil`, `Return` |
| RustloxVm.Decode | rustlox/src/vm.rs:333-339 | a byte decodes exactly when it is below 29, to the opcode whose `op as u8` is that byte; any other byte is returned as the error |
| RustloxVm.DecodeInverse | rustlox/src/vm.rs:333-339 | decoding agrees with `Op::try_from` wherever that succeeds |
| RustloxVm.CallAsWritten | rustlox/src/vm.rs:166-189 | `call` as written: a frame it enters starts just below the callee and its arguments |
| RustloxVm.CallIntended | rustlox/src/vm.rs:166-189 | the corrected guard: a frame it enters starts just below the callee and its arguments, and only while fewer than 64 frames are in use |
| RustloxVm.CallGuardNeverFires | rustlox/src/vm.rs:184-186 | as written, "Stack overflow." is never reported; the 64th frame is entered and the next call indexes past the array |
| RustloxVm.CallIntendedStaysInBounds | rustlox/src/vm.rs:166-189 | the corrected guard reports overflow with all 64 frames in use and otherwise agrees with the code |
| RustloxVm.SourceIntended | rustlox/src/vm.rs:477-486 | the corrected `Closure` arm: an inherited upvalue is the enclosing closure's upvalue `index` |
| RustloxVm.ClosureOperandsMeanUpvalues | rustlox/src/compiler.rs:466-469 | with the corrected arm, the pairs the compiler emits give each upvalue the source the compiler resolved |
| RustloxVm.ClosureSources | rustlox/src/vm.rs:477-486 | the sources of all operand pairs of a `Closure` instruction, as written |
| RustloxVm.SourceCounterexample | rustlox/src/vm.rs:483 | as written, a function whose first upvalue is its enclosing function's second gets the first instead |
| RustloxVm.CellRead | rustlox/src/vm.rs:389-395 | what an upvalue reads: its stack slot while open, its own value once closed |
| RustloxVm.SetIntended | rustlox/src/vm.rs:396-404 | the corrected write: an open upvalue writes its stack slot, a closed one its own value |
| RustloxVm.SetThenRead | rustlox/src/vm.rs:389-404 | with the corrected write, reading back gives the value written, and no other slot changes |
| RustloxVm.SetUpvalueCounterexample | rustlox/src/vm.rs:403 | as written, assigning through an open upvalue leaves the variable unchanged |
| RustloxVm.CaptureStop | rustlox/src/vm.rs:214-224 | the walk stops at the first entry whose slot is not above the one asked for |
| RustloxVm.CapturedSorted | rustlox/src/vm.rs:210-248 | capturing keeps the open list sorted; it adds the slot and nothing else, and reuses an existing entry for it |
| RustloxVm.CloseCount | rustlox/src/vm.rs:251-265 | the entries closed are the head entries at or above the slot |
| RustloxVm.CloseCountUnique | rustlox/src/vm.rs:251-265 | that count is the only one stopping at the end or below the slot |
| RustloxVm.CloseExactly | rustlox/src/vm.rs:251-265 | on a sorted list, exactly the entries at or above the slot are closed, and the rest stay sorted |
| RustloxVm.Trace | rustlox/src/vm.rs:123-132 | the trace has one line per frame exactly when every frame's `ip` has a line to report; otherwise there is none and the lookup panics |
| RustloxVm.NatText | rustlox/src/vm.rs:169-172 | the counts in the arity message are non-empty runs of decimal digits |
| RustloxVm.VM.constructor | rustlox/src/vm.rs:73-89 | empty stack and frames, no open upvalues, and `clock` as the only global |
| RustloxVm.VM.ResetStack | rustlox/src/vm.rs:91-97 | no values, no frames, and every frame back to its default |
| RustloxVm.VM.TraceFrames | rustlox/src/vm.rs:123-132 | the loop over the frames computes `Trace` |
| RustloxVm.VM.RuntimeError | rustlox/src/vm.rs:120-135 | one report with the message and the trace, then an empty stack, and `Err(RuntimeError)`; a panic leaves everything unchanged |
| RustloxVm.VM.Push | rustlox/src/vm.rs:142-145 | succeeds exactly when the stack is not full: the value goes to slot `stack_count`; a full stack panics and changes nothing |
| RustloxVm.VM.Pop | rustlox/src/vm.rs:148-155 | the top value is taken, its slot reset to `nil`; an empty stack is `InternalError` |
| RustloxVm.VM.Peek | rustlox/src/vm.rs:158-163 | the value `index` slots below the top; below the bottom the subtraction panics |
| RustloxVm.VM.ReadU8 | rustlox/src/vm.rs:268-277 | `ip` moves on by one; the byte at the old `ip`, or "Failed to read byte." past the end; no frame panics |
| RustloxVm.VM.ReadU16 | rustlox/src/vm.rs:289-293 | two bytes read high byte first and `ip` moved by two, or "Failed to read byte." past the end |
| RustloxVm.VM.ReadConstant | rustlox/src/vm.rs:280-286 | the pool entry the next byte names; "Failed to read byte." past the end, "Failed to read constant." past the pool |
| RustloxVm.VM.ReadName | rustlox/src/vm.rs:296-301 | succeeds exactly when the next byte names a string constant, giving its interned text |
| RustloxVm.VM.CaptureUpvalue | rustlox/src/vm.rs:210-248 | the open list's slots become `Captured`'s; the result is open on the slot, new only when no entry had it |
| RustloxVm.VM.InsertOpen | rustlox/src/vm.rs:233-247 | a fresh open upvalue joins the list where the walk stopped |
| RustloxVm.VM.LinkOpen | rustlox/src/vm.rs:241-245 | the new entry is linked at the walk's stop, from the head or from the previous entry |
| RustloxVm.VM.CloseHead | rustlox/src/vm.rs:255-263 | the head entry is closed on its slot's value and unlinked |
| RustloxVm.VM.CloseUpvalues | rustlox/src/vm.rs:251-265 | the first `CloseCount` entries are closed with their slots' values and unlinked |
| RustloxVm.VM.Fail | rustlox/src/vm.rs:309 | a runtime error from inside `run` |
| RustloxVm.VM.PushValue | rustlox/src/vm.rs:342-348 | `Constant`, `Nil`, `True` and `False` push their value |
| RustloxVm.VM.ConstantOp | rustlox/src/vm.rs:342-345 | `Pushing`: the constant the operand names is pushed and `ip` moves past the operand; a missing byte or pool entry is `InternalError` |
| RustloxVm.VM.Discard | rustlox/src/vm.rs:349-351 | `Pop` drops the top value, leaving its slot `nil` (`Popping`); an empty stack is `InternalError` |
| RustloxVm.VM.GetLocal | rustlox/src/vm.rs:352-356 | pushes the frame's slot, counted from `starts_at` |
| RustloxVm.VM.SetLocal | rustlox/src/vm.rs:357-361 | copies the top value into the frame's slot |
| RustloxVm.VM.GetLocalOp | rustlox/src/vm.rs:352-356 | `LocalRead`: the frame's slot the operand names is pushed; a slot past the stack or a full stack panics |
| RustloxVm.VM.SetLocalOp | rustlox/src/vm.rs:357-361 | `LocalWrite`: the top value is copied into the frame's slot the operand names and stays on the stack |
| RustloxVm.VM.GetGlobal | rustlox/src/vm.rs:362-374 | pushes the global; an undefined name is "Undefined variable '...'." |
| RustloxVm.VM.DefineGlobal | rustlox/src/vm.rs:375-379 | pops the top value into the global |
| RustloxVm.VM.SetGlobal | rustlox/src/vm.rs:380-388 | a defined global takes the top value; an undefined one stays undefined and is reported |
| RustloxVm.VM.GetGlobalOp | rustlox/src/vm.rs:362-374 | `GlobalRead`: the global the name operand names is pushed; an undefined one is "Undefined variable '...'." |
| RustloxVm.VM.DefineGlobalOp | rustlox/src/vm.rs:375-379 | `GlobalDefine`: the top value is popped into the global the name operand names |
| RustloxVm.VM.SetGlobalOp | rustlox/src/vm.rs:380-388 | `GlobalWrite`: a defined global takes the top value, which stays; an undefined one stays undefined and is reported |
| RustloxVm.VM.GetUpvalue | rustlox/src/vm.rs:389-395 | pushes what the frame closure's upvalue reads as (`CellRead`); an upvalue index past the closure's panics |
| RustloxVm.VM.SetUpvalue | rustlox/src/vm.rs:396-404 | as written, the top value goes where `SetAsWritten` puts it (the upvalue's `closed`, open or not); no other upvalue changes |
| RustloxVm.VM.Equal | rustlox/src/vm.rs:405-409 | replaces the two operands with whether they are equal, the second from the top on the left (`Equality`); fewer than two is `InternalError` |
| RustloxVm.VM.Binary | rustlox/src/vm.rs:410-428 | `Arithmetic`: two numbers are replaced by `Arith` of the second from the top (left) and the top (right), frames and reports unchanged; any other pair is "Operands must be numbers."; fewer than two panics |
| RustloxVm.VM.Combine | rustlox/src/vm.rs:422-424 | both operands give way to the result |
| RustloxVm.VM.Concatenate | rustlox/src/vm.rs:415 | the two operands give way to a handle whose text is their texts concatenated, in order |
| RustloxVm.VM.Add | rustlox/src/vm.rs:412-425 | `Addition`: numbers add and strings concatenate, second from the top first, the result replacing both operands; a handle the interner lacks panics; otherwise "Operands must be two numbers or two strings." |
| RustloxVm.VM.Not | rustlox/src/vm.rs:429-432 | replaces the top with whether it is falsy (`Falsity`); an empty stack is `InternalError` |
| RustloxVm.VM.Negate | rustlox/src/vm.rs:433-441 | `Negation`: a number on top is replaced by its negation; anything else is "Operand must be a number."; an empty stack is `InternalError` |
| RustloxVm.VM.Print | rustlox/src/vm.rs:442-444 | pops the top value and appends it to what was printed (`Printing`); an empty stack is `InternalError` |
| RustloxVm.VM.Jump | rustlox/src/vm.rs:445-449 | `ip` moves forward by the operand |
| RustloxVm.VM.JumpIfFalse | rustlox/src/vm.rs:450-456 | `ip` moves forward when the top value is falsy and stays otherwise; the value stays on the stack |
| RustloxVm.VM.Loop | rustlox/src/vm.rs:457-461 | `ip` moves back by the operand; moving before the start panics |
| RustloxVm.VM.Call | rustlox/src/vm.rs:166-189 | follows `CallAsWritten`: the arity message, "Stack overflow.", the panics, or a new frame at `starts_at` with `ip` 0 and nothing reported |
| RustloxVm.VM.CallNative | rustlox/src/vm.rs:192-198 | the native's result, computed from the callee's slot up, replaces the callee and its arguments; too few values panic |
| RustloxVm.VM.CallValue | rustlox/src/vm.rs:201-207 | closures follow `Call` (the stack untouched), natives replace the callee and arguments by their result, anything else is "Can only call functions and classes." |
| RustloxVm.VM.ResolveUpvalues | rustlox/src/vm.rs:477-486 | reads the operand pairs; each upvalue resolves to the source `ClosureSources` names, as written; it succeeds whenever every source is resolvable |
| RustloxVm.VM.MakeClosure | rustlox/src/vm.rs:474-487 | pushes a closure of the function whose upvalues resolve to the sources the operand pairs name, `ip` past the pairs |
| RustloxVm.VM.ClosureOp | rustlox/src/vm.rs:467-488 | a missing byte or constant faults as `read_constant` does and a constant that is no function is "Expected function for closure"; on success the closure of that function is pushed with every other slot unchanged, its upvalues resolve to the sources the operand pairs after the constant byte name, and `ip` moves past those pairs; it succeeds whenever the constant is a function, the pairs are present, the stack has room and every source is resolvable |
| RustloxVm.VM.CloseUpvalueOp | rustlox/src/vm.rs:489-492 | `Closing`: the upvalues open on the top slot or above are closed on their slots' values and leave the list, then the top is popped; an empty stack panics |
| RustloxVm.VM.CloseTop | rustlox/src/vm.rs:489-492 | on a non-empty stack: the first `CloseCount` open upvalues are closed on their slots' values and unlinked, then the top is popped |
| RustloxVm.VM.Return | rustlox/src/vm.rs:493-505 | `Returning`: the frame's upvalues are closed on their slots; the last frame pops the script and halts; otherwise the stack drops to `starts_at` and holds the result; with no frame it panics |
| RustloxVm.VM.JumpOp | rustlox/src/vm.rs:445-449 | `Jumping`: `ip` lands where the disassembler's `JumpTarget` says, nothing else changing; a truncated operand is "Failed to read byte." |
| RustloxVm.VM.JumpIfFalseOp | rustlox/src/vm.rs:450-456 | `Branching`: on a falsy top value `ip` lands at the jump's target, otherwise just past the operand; the stack is unchanged |
| RustloxVm.VM.LoopOp | rustlox/src/vm.rs:457-461 | `Looping`: `ip` lands at the loop's target; a target before the start panics |
| RustloxVm.VM.CallOp | rustlox/src/vm.rs:462-466 | `Calling`: the operand is read, then the value `argCount` slots below the top is called as `CallValue` says; a count past the stack panics |
| RustloxVm.VM.CallWith | rustlox/src/vm.rs:464-465 | `CallingWith`: `peek(argCount)` then `call_value`, every outcome of `CallValue` stated against the state before |
| RustloxVm.VM.DispatchPush | rustlox/src/vm.rs:342-351 | the `Effect` of `Constant`, `Nil`, `True`, `False` and `Pop` |
| RustloxVm.VM.DispatchLocal | rustlox/src/vm.rs:352-404 | the `Effect` of `GetLocal` and `SetLocal`; the upvalue arms as `GetUpvalue` and `SetUpvalue` state |
| RustloxVm.VM.DispatchGlobal | rustlox/src/vm.rs:362-388 | the `Effect` of `GetGlobal`, `DefineGlobal` and `SetGlobal`, with the name `read_string` gives |
| RustloxVm.VM.DispatchValue | rustlox/src/vm.rs:405-428 | the `Effect` of `Equal`, `Add` and the `binary_op!` arms |
| RustloxVm.VM.DispatchUnary | rustlox/src/vm.rs:429-461 | the `Effect` of `Not`, `Negate`, `Print`, `Jump`, `JumpIfFalse` and `Loop` |
| RustloxVm.VM.DispatchCall | rustlox/src/vm.rs:462-505 | the `Effect` of `Call`, `CloseUpvalue` and `Return`; the `Closure` arm as `ClosureOp` states |
| RustloxVm.VM.Dispatch | rustlox/src/vm.rs:333-506 | for a byte that decodes to an instruction, that arm's `Effect` against the state before (stack, frames, globals, reports, printed values, open upvalues); any other byte is reported as "Got unexpected instruction"; the run halts only with no frames left |
| RustloxVm.VM.Step | rustlox/src/vm.rs:319-506 | the byte at the frame's `ip` is read and its arm's `Effect` holds against the state with `ip` past it; past the end of the chunk "Failed to read byte."; with no frame it panics |
| RustloxVm.VM.Run | rustlox/src/vm.rs:303-508 | a run that ends `Ok` has no frames left; without a frame it panics |
| RustloxVm.VM.Start | rustlox/src/vm.rs:63-68 | the script's closure is pushed and called with no arguments |
| RustloxVm.VM.Interpret | rustlox/src/vm.rs:63-70 | start, then run; a full stack panics at once |

## Left out

- Printing. What `print`, `println!` and `eprintln!` write becomes lists of values and reports: `printed`, `reports`, `errors` and the reports of the parser and compilers. Formatting is not modelled.
- The stack dump and disassembly printed before each instruction. In `src/` they run unconditionally (src/vm.rs:97-105) and are left out as printing; their panics happen where the loop's own reads would panic anyway. In rustlox they exist only under the `trace-execution` feature (rustlox/src/vm.rs:320-331).
- Floating point. `f64` is an opaque `F64` with its operations passed in as `FloatOps`, and number literals are parsed by a `FloatOps` function.
- Thread-locals, `Rc` and `RefCell`. The interners and the VM are explicit objects; `with_vm`, `with_interner` and borrow panics are not modelled.
- Text is ASCII: character and byte indices coincide, and there is no UTF-8 decoding.
- rustlox/src/main.rs, src/main.rs, clox/src/main.c, rustlox/src/native.rs, clox/table.h and the clox `memory.h`/`value.h` are not part of this model. The native `clock` is a parameter.
- `Value::String` in src/vm.rs:128: src/value.rs declares no string variant, so the `Add` arm for strings is dropped.
- `crate::string`: rustlox/src/main.rs:5 declares `mod string;`, and no string.rs is present under rustlox/src. The module is taken to be src/string.rs, the `LoxString` interner, and rustlox's interned strings are modelled by `LoxString`.
- RustloxVm.Decode: rustlox/src/chunk.rs declares 23 opcodes and `try_from` rejects every byte from 23 up. The compiler and the VM use six more (`Loop`, `Call`, `Closure`, `GetUpvalue`, `SetUpvalue`, `CloseUpvalue`), which are numbered 23 to 28 in the order `run` lists them, and `Decode` accepts them.
- The EOF token: src/compiler.rs uses `TokenKind::EOF`, which src/scanner.rs does not declare. `scan_token`'s `None` is read as an EOF token.
- `Expr::Grouping` is used by rustlox/src/parser.rs and compiler.rs but not declared in expr.rs; the model adds it. `Block.brace` (stmt.rs:6) is never read and is dropped.
- RustloxCodegen.Wrapper.For: the method states only that the compiler stack keeps its shape and the code grows; the jump layout is proved separately, by `RustloxCodegen.ForLands` and `RustloxCodegen.ForJumpsGrow`.
- RustloxCodegen.Wrapper.MakeConstant: rustlox/src/compiler.rs:209-211 returns `add_constant`'s `Result<u8, ()>` from a function declared to return `u8`. An `Err` is read as the statement failing without a report.
- RustloxVm.CellRead: `Upvalue::as_value` is not defined in value.rs. It is read as clox's `*upvalue->location`: the slot while open, `closed` once closed.
- RustloxVm.VM.LinkOpen: `Upvalue::new(location, next)` (rustlox/src/vm.rs:233) is not defined in value.rs, which has only `new_closed` and `new_open`. It is read as `new_open`: an upvalue open on the slot and linked to `next`. The `*const Value` it is given is taken to be that slot's number.
- RustloxVm.VM.CloseHead: `upvalue.close()` (rustlox/src/vm.rs:261) is not defined in value.rs. It is read as clox's close: `closed` takes the value in the upvalue's stack slot and the location becomes `Here`. The loop guard's pointer comparison (rustlox/src/vm.rs:253) is read as a comparison of slot numbers, so pointer order is taken to be slot order.
- RustloxVm.VM.CaptureUpvalue: rustlox/src/vm.rs:215 and 228 compare a `Location` with a `*const Value` by `as usize`, which value.rs does not allow. The comparison is read as one between stack slot numbers, so pointer order is taken to be slot order. The same reading applies to the `>=` of `close_upvalues` (rustlox/src/vm.rs:253) in `RustloxVm.VM.CloseHead` and `RustloxVm.VM.CloseUpvalues`.
- RustloxVm.VM.Run: a `fuel` argument bounds the number of instructions. Running out returns `None`; nothing is claimed about runs longer than the fuel. Beyond halting with no frames and the panic without a frame, `Run` states no end state: each instruction's effect is the `Effect` that `Step` states, and the steps are not composed into a result for the whole program.
- RustloxVm.VM.Interpret: states the start (the script's closure pushed and called, a full stack panicking at once) and what `Run` states; the program's result is not stated as a function of the source.
- RustloxVm.VM.Dispatch: the `Effect` of `GetUpvalue`, `SetUpvalue` and `Closure` is `true`. Their effect reads upvalue objects as they were before the instruction, which a `Snapshot` does not hold; `GetUpvalue`, `SetUpvalue` and `ClosureOp` (the method the `Closure` arm calls) state it in their own contracts. For `Add` on strings, the text of the result is stated and its handle is not.
- RustloxVm.VM.Step: for the upvalue and closure instructions, as under `RustloxVm.VM.Dispatch`.
- CloxChunk.Chunk.Write: C `int` overflow of `count`, `capacity`, `lineCount` and `lineCapacity` is not modelled, and neither is allocation failure in `reallocate`. `freeChunk` freeing the line table with the byte capacity only affects the allocator's bookkeeping.
- CloxChunk.Chunk.GetLine: an empty line table (where `lineCount - 1` wraps) and a negative instruction are excluded by the precondition.
- RustloxParser.ParseTokens: an empty token list panics in `Parser::new` (`last().unwrap()`); the model requires at least one token.
- LoxCompiler.Compiler.ParsePrecedence: it is called only with `Assignment` or a `higher` precedence, and the precondition excludes `None`.
- `break` and `continue`: their parsing and compilation are commented out in the source. The scanner still produces their tokens, and the code generator fails on them without a report.
- RustloxParser.Parser.Declaration: states the shape of what it builds, not the exact tree for each token sequence.
- RustloxParser.Parser.Function: states the shape of what it builds, not the exact tree for each token sequence.
- RustloxParser.Parser.Parameters: states the shape of what it builds, not the exact tree for each token sequence.
- RustloxParser.Parser.Statement: states the shape of what it builds, not the exact tree for each token sequence.
- RustloxParser.Parser.VarDeclaration: states the shape of what it builds, not the exact tree for each token sequence.
- RustloxParser.Parser.ForStatement: states the shape of what it builds, not the exact tree for each token sequence.
- RustloxParser.Parser.IfStatement: states the shape of what it builds, not the exact tree for each token sequence.
- RustloxParser.Parser.PrintStatement: states the shape of what it builds, not the exact tree for each token sequence.
- RustloxParser.Parser.ReturnStatement: states the shape of what it builds, not the exact tree for each token sequence.
- RustloxParser.Parser.WhileStatement: states the shape of what it builds, not the exact tree for each token sequence.
- RustloxParser.Parser.Block: states the shape of what it builds, not the exact tree for each token sequence.
- RustloxParser.Parser.BlockStatement: states the shape of what it builds, not the exact tree for each token sequence.
- RustloxParser.Parser.ExpressionStatement: states the shape of what it builds, not the exact tree for each token sequence.
- RustloxParser.Parser.Expression: states the shape of what it builds, not the exact tree for each token sequence.
- RustloxParser.Parser.Assignment: states the shape of what it builds, not the exact tree for each token sequence.
- RustloxParser.Parser.FinishAssignment: states the shape of what it builds, not the exact tree for each token sequence.
- RustloxParser.Parser.Or: states the shape of what it builds, not the exact tree for each token sequence.
- RustloxParser.Parser.And: states the shape of what it builds, not the exact tree for each token sequence.
- RustloxParser.Parser.Equality: states the shape of what it builds, not the exact tree for each token sequence.
- RustloxParser.Parser.Comparison: states the shape of what it builds, not the exact tree for each token sequence.
- RustloxParser.Parser.Term: states the shape of what it builds, not the exact tree for each token sequence.
- RustloxParser.Parser.Factor: states the shape of what it builds, not the exact tree for each token sequence.
- RustloxParser.Parser.Unary: states the shape of what it builds, not the exact tree for each token sequence.
- RustloxParser.Parser.FinishCall: states the shape of what it builds, not the exact tree for each token sequence.
- RustloxParser.Parser.Call: states the shape of what it builds, not the exact tree for each token sequence.
- RustloxParser.Parser.Primary: states the shape of what it builds, not the exact tree for each token sequence.

## Findings

| source | as written | input that shows it | evidently intended | confidence | as-written member | corrected member |
|---|---|---|---|---|---|---|
| clox/chunk.c:57-61 | the long form writes the index as three 4-bit nibbles, keeping only its low 12 bits | constants 256 and 4352 get the same bytes `[1, 1, 0, 0]` | three whole operand bytes, so every index below 2^24 reads back | not executed | CloxChunk.LongFormCollision | CloxChunk.ConstantInstructionIntended |
| src/vm.rs:83-84 | `binary_op!` binds `b` to `peek(1)` and `a` to `peek(0)`, so the top of the stack is the left operand | `3 - 1` gives -2, and `1 < 2` gives false | left operand first, as `Add` and the compiler order them | not executed | LoxVm.ArithCounterexample | LoxVm.ArithIntended |
| src/compiler.rs:164-172 | `add_constant` pushes the value and then panics in `expect` past 255, so the `> u8::MAX` test never reports | an expression with 257 constants | report "Too many constants in one chunk." and leave the pool unchanged | not executed | LoxCompiler.MakeConstantDiscrepancy | LoxCompiler.MakeConstantIntended |
| rustlox/src/compiler.rs:82-95 | the closure's `index` shadows the parameter, so each upvalue's index is compared with its own position | capturing slot 5 after slot 0 returns upvalue 0; capturing 3 twice records it twice | compare with the parameter `index` | not executed | RustloxCompiler.AddUpvalueCounterexample | RustloxCompiler.AddUpvalueIntendedCorrect |
| rustlox/src/vm.rs:178-186 | the frame is written at `frame_count` before the count is compared with `STACK_MAX` (256) instead of `CALL_FRAME_MAX` (64) | 65 nested calls index past the frames array; "Stack overflow." is never reported | test against 64 frames before writing | not executed | RustloxVm.CallGuardNeverFires | RustloxVm.CallIntendedStaysInBounds |
| rustlox/src/vm.rs:483 | an inherited upvalue is taken at the loop position `i` rather than at the operand `index` | a function whose upvalues are its enclosing function's second and then first gets the first twice | `upvalues[index]` | not executed | RustloxVm.SourceCounterexample | RustloxVm.ClosureOperandsMeanUpvalues |
| rustlox/src/vm.rs:403 | `SetUpvalue` writes `closed` even while the upvalue is open on a stack slot | `a = true` from an inner function, then `print a` in the outer one, prints `nil` | write the slot while open | not executed | RustloxVm.SetUpvalueCounterexample | RustloxVm.SetThenRead |
