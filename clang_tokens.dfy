/**
 * The part of clang's lexer interface that the classifier sees: token kinds
 * and tokens located by a byte offset into the source buffer.
 */
module ClangTokens {

  /** The encoding prefix of a string literal ("", L, u8, u, U). */
  datatype Encoding = Ordinary | Wide | Utf8 | Utf16 | Utf32

  /**
   * clang's tok::TokenKind. The keyword kinds (tok::kw_*) are one family,
   * told apart by their spelling; every punctuator is one family too.
   */
  datatype TokenKind =
    | Unknown                   // tok::unknown
    | Eof                       // tok::eof
    | Eod                       // tok::eod, end of a preprocessor directive
    | Comment                   // tok::comment
    | Identifier                // tok::identifier
    | RawIdentifier             // tok::raw_identifier, before the identifier table is consulted
    | NumericConstant           // tok::numeric_constant
    | CharConstant              // tok::char_constant
    | WideCharConstant          // tok::wide_char_constant
    | Utf8CharConstant          // tok::utf8_char_constant
    | Utf16CharConstant         // tok::utf16_char_constant
    | Utf32CharConstant         // tok::utf32_char_constant
    | StringLiteral(encoding: Encoding)
    | Kw(spelling: string)      // tok::kw_<spelling>
    | AnnotTypename             // tok::annot_typename
    | Punctuator(spelling: string)

  /** clang's tok::isStringLiteral: the five string literal kinds. */
  predicate IsStringLiteral(k: TokenKind) {
    k.StringLiteral?
  }

  /**
   * A lexed token: its kind, the byte offset of its first byte in the
   * source buffer, and its length in bytes.
   */
  datatype Token = Token(kind: TokenKind, start: nat, length: nat)

  /**
   * What the raw lexer delivers for a buffer `source`: every token lies
   * inside the buffer, token starts never go backwards, and the stream
   * reaches an eof token.
   */
  predicate LexerOutput(source: string, lexed: seq<Token>) {
    && InBuffer(source, lexed)
    && (forall i, j :: 0 <= i <= j < |lexed| ==> lexed[i].start <= lexed[j].start)
    && ReachesEof(lexed)
  }

  /** Every token lies inside the buffer. */
  predicate InBuffer(source: string, lexed: seq<Token>) {
    forall i :: 0 <= i < |lexed| ==> lexed[i].start + lexed[i].length <= |source|
  }

  /** The stream holds an eof token. */
  predicate ReachesEof(lexed: seq<Token>) {
    exists i :: 0 <= i < |lexed| && lexed[i].kind == Eof
  }
}
