# clang-highlight token classifier in Dafny

This project models the token classifier of clang-highlight (`TokenClassifier.cpp`).
The classifier does three things:

- It collects the raw lexer's tokens into a vector, resolving raw identifiers
  through clang's identifier table, up to and including the eof token.
- It lets the fuzzy parser attach AST references to the tokens.
- It walks the vector once. For each token after the first, it writes the source
  text from the previous token's start to this token's start, tagged with the
  previous token's class. The class comes from the token's AST reference, through
  rules that override one another in source order (Namespace, Type, String,
  Preprocessor, Variable, Function). When no rule fired, or the token is eod, the
  class comes from a fixed table on the token kind.

Modules:

- `ClangTokens` (`clang_tokens.dfy`): clang token kinds, tokens located by a
  byte offset into the buffer, and what the lexer is assumed to deliver
  (`LexerOutput`). The buffer is an `llvm::MemoryBuffer` of bytes; each `char`
  of the Dafny `string` that stands for it is one byte.
- `FuzzyAST` (`fuzzy_ast.dfy`): a fuzzy AST node seen through `isa<>`, i.e. as
  the set of node classes it is an instance of. Also the annotated token.
- `Output` (`output_writer.dfy`): token classes, spans, and the output writer.
  The writer is a class whose `written` sequence records every `writeToken`
  call.
- `TokenClassifier` (`token_classifier.dfy`):
  - the language options and the kind-to-class table;
  - the collection loop (`CollectTokens`) and the emission loop (`EmitSpans`),
    each an imperative method proved against a specification function
    (`Collected`, `Spans`);
  - `Highlight`, which puts them together;
  - the lemmas.

The classification rules are specified by `Classify`, a decision table read from
the highest precedence down. `ClassifyToken`, called by `EmitSpans` for each
token, performs the rules as the source does, as a chain of `if` statements that
overwrite the class. Its postcondition shows that the two agree.

Two details of the code are modelled as written:

- The Type rule rewrites the token's kind to `annot_typename` in place. The
  Function rule and the later eod test both see the rewritten kind.
- So an eod token is written as Whitespace exactly when the Type rule did not
  fire on it (`EodWrittenAsWhitespace`). Without the identifiers-only flag, an
  eod token that refers to a type node keeps the class the rules gave it.

Character literals: `utf8_char_constant` is not among the four kinds that
`isCharLiteral` accepts. The model therefore maps it to Other, as the code does.

## Model

| member | source | states |
|---|---|---|
| `TokenClassifier.GetFormattingLangOpts` | TokenClassifier.cpp:27-36 | C++, line comments, `bool` and Objective-C are always on; C++11 and C++14 are on exactly when the C++03 flag is off |
| `TokenClassifier.IsCharLiteral` | TokenClassifier.cpp:38-48 | true exactly for char, wide char, UTF-16 char and UTF-32 char constants, false for every other kind |
| `TokenClassifier.IsKeyword` | TokenClassifier.cpp:50-58 | a keyword kind is never also a char or string literal, so the keyword test cannot shadow an earlier table row |
| `TokenClassifier.ConvertTokenKindToTokenClass` | TokenClassifier.cpp:60-76 | total; each of Char, String, Numeric, Keyword, Type, Comment and Whitespace is returned exactly for its own kinds; the result is one of the eight table classes and never NONE or an AST class |
| `TokenClassifier.CollectTokens` | TokenClassifier.cpp:102-127 | the loop's vector equals the resolved lexer tokens up to and including the first eof |
| `TokenClassifier.CollectedShape` | TokenClassifier.cpp:104-127 | the vector is non-empty and no longer than the lexer stream; token i is lexer token i after identifier resolution; eof occurs exactly once, as the last token |
| `TokenClassifier.CollectedResolvesIdentifiers` | TokenClassifier.cpp:119-126 | with an identifier table that yields identifiers and keywords, no raw identifier is left and the vector ends at the lexer's first eof |
| `TokenClassifier.CollectedOrdered` | TokenClassifier.cpp:113-117 | the collected, annotated tokens keep the lexer's nondecreasing starts inside the buffer, so every written slice is well formed |
| `TokenClassifier.Classify` | TokenClassifier.cpp:155-187 | a token without a reference has class NONE; only the kind can change, and only to annot_typename; Type implies annot_typename; Function and Namespace need an identifier; the class is NONE or one of the six AST classes |
| `TokenClassifier.EmittedClass` | TokenClassifier.cpp:143-145 | the class handed to the writer is never NONE |
| `TokenClassifier.ClassifyToken` | TokenClassifier.cpp:150-187 | the chain of overriding rules, applied in source order with the Type rule's kind rewrite, gives the same token and class as the `Classify` decision table |
| `TokenClassifier.WritePrevious` | TokenClassifier.cpp:143-147 | the writer receives one more span: the slice from the previous token's start to this token's start, with the previous token's class, or the class of its kind when that class is NONE or the token is eod |
| `TokenClassifier.EmitSpans` | TokenClassifier.cpp:136-191 | the emission loop, which writes each token's text when the next token is reached and stores rewritten kinds back into the vector, writes exactly `Spans`: the spans given by the `Classify` decision table and the kind-table fallback |
| `TokenClassifier.SpansCount` | TokenClassifier.cpp:139-148 | one write per token after the first: after n tokens, no write if n is 0, otherwise n - 1 writes |
| `TokenClassifier.SpanAt` | TokenClassifier.cpp:139-148 | write i covers token i's start to token i+1's start and carries token i's class |
| `TokenClassifier.SpansTile` | TokenClassifier.cpp:142-147 | after n tokens, the written texts put together are the buffer from the first token's start to the n-th token's start |
| `TokenClassifier.SpansClassified` | TokenClassifier.cpp:143-147 | no span is written with class NONE |
| `TokenClassifier.Highlight` | TokenClassifier.cpp:78-191 | with the AST dump nothing is written; otherwise the writer receives exactly the spans of the collected, annotated tokens |
| `TokenClassifier.HighlightTiles` | TokenClassifier.cpp:104-148 | highlight writes one span fewer than the tokens collected, the last token is eof, and the spans tile the buffer from the first token's start to the eof token's start; the eof token's own text is never written |
| `TokenClassifier.HighlightReconstructsSource` | TokenClassifier.cpp:139-191 | when the lexer starts at offset 0 and its eof lies at the buffer's end, the written texts are the whole buffer |
| `TokenClassifier.IdentifiersOnlyRestrictsType` | TokenClassifier.cpp:161-174 | for a token that is not an identifier: with the flag set it is never Type and keeps its kind; with the flag clear it is Type exactly when it refers to a type or type decoration and no later rule (string, directive, variable) wins |
| `TokenClassifier.IdentifiersOnlyKeepsIdentifiers` | TokenClassifier.cpp:170-171 | for an identifier the identifiers-only flag changes neither class nor kind |
| `TokenClassifier.TypeDeclNeedsIdentifier` | TokenClassifier.cpp:165-169 | a token that is not an identifier is never made Type by a class declaration or template type parameter, whatever the flag |
| `TokenClassifier.UnclassifiedFallsBack` | TokenClassifier.cpp:144-150 | a token without reference, or that no rule classified, is written with the class of its kind |
| `TokenClassifier.EodWrittenAsWhitespace` | TokenClassifier.cpp:144-145 | an eod token is written as Whitespace exactly when the Type rule did not fire on it |
| `TokenClassifier.ClassifiedKeepsClass` | TokenClassifier.cpp:143-147 | a token that some rule classified and whose kind after the rules is not eod is written with that rule's class; so an eod token that the Type rule rewrote keeps the class the rules gave it |
| `Output.OutputWriter.WriteToken` | TokenClassifier.cpp:146-147 | a write appends one (text, class) span to what the writer has received |

## Left out

- The clang `Lexer`, `SourceManager`, `FileManager`, `DiagnosticsEngine` and
  `IdentifierTable` are foreign libraries. The lexer's output is a parameter
  `lexed`, assumed to stay inside the buffer, to have nondecreasing token starts
  and to reach an eof. The identifier-table lookup is a parameter `resolve`,
  applied to the formatting options and the token's spelling.
- The preprocessor-directive toggles of the collection loop are left out. Their
  only effect is inside the lexer, whose output is given.
- The identifier info pointer that `setIdentifierInfo` stores is left out.
  Nothing in the classifier reads it.
- `fuzzy::fuzzyparse` is not part of this model. It is a parameter `astRef`
  that gives the reference of each token. `Annotate` pairs each token with
  that reference. That the parser only attaches references, and leaves the
  tokens and their order alone, is assumed in this definition, not proved.
  Token kinds are assumed to be read through the token itself, as
  `AnnotatedToken::getTokenKind` does.
- `fuzzy::printAST` is not part of this model. The AST dump is an early return
  that writes nothing.
- IsKeyword: the keyword list of `TokenKinds.def` is abstracted to the `Kw`
  family of kinds, so the contract does not name individual keywords.
- clang's `isStringLiteral` is abstracted to the `StringLiteral` family of kinds.
- `OutputWriter`, `makeOutputWriter` and the renderers are modelled only as the
  sequence of written spans.
- `LangOptions` fields that the classifier does not set are not modelled.
- `ClangHighlight.cpp` (option parsing, file I/O, exit codes) is not part of
  this model.
