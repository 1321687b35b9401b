/**
 * The token classifier of clang-highlight: it collects the raw lexer's
 * tokens, lets the fuzzy parser attach AST references to them, classifies
 * every token from its reference (falling back to its kind) and writes the
 * source, token start to token start, to an output writer.
 */
module TokenClassifier {
  import opened ClangTokens
  import opened FuzzyAST
  import opened Output

  // ---------------------------------------------------------------------
  // Language options
  // ---------------------------------------------------------------------

  /** The LangOptions fields the classifier sets; all others keep clang's defaults. */
  datatype LangOptions = LangOptions(
    cPlusPlus: bool,
    cPlusPlus11: bool,
    cPlusPlus14: bool,
    lineComment: bool,
    boolType: bool,
    objC: bool)

  /** C++ with line comments, `bool` and Objective-C; C++11/14 unless `cpp03`. */
  function GetFormattingLangOpts(cpp03: bool := false): (r: LangOptions)
    ensures r.cPlusPlus && r.lineComment && r.boolType && r.objC
    ensures r.cPlusPlus11 <==> !cpp03
    ensures r.cPlusPlus14 <==> !cpp03
  {
    LangOptions(
      cPlusPlus := true,
      cPlusPlus11 := !cpp03,
      cPlusPlus14 := !cpp03,
      lineComment := true,
      boolType := true,
      objC := true)
  }

  // ---------------------------------------------------------------------
  // Token kind to token class
  // ---------------------------------------------------------------------

  /** The character literal kinds that isCharLiteral accepts. */
  const CharLiteralKinds: set<TokenKind> :=
    {CharConstant, WideCharConstant, Utf16CharConstant, Utf32CharConstant}

  predicate IsCharLiteral(k: TokenKind)
    ensures IsCharLiteral(k) <==> k in CharLiteralKinds
  {
    match k
    case CharConstant => true
    case WideCharConstant => true
    case Utf16CharConstant => true
    case Utf32CharConstant => true
    case _ => false
  }

  /** Membership in the keyword family tok::kw_*. */
  predicate IsKeyword(k: TokenKind)
    ensures IsKeyword(k) ==> !IsCharLiteral(k) && !IsStringLiteral(k)
  {
    k.Kw?
  }

  /**
   * The fallback class of a token kind. The tests are made in the order
   * Char, String, Numeric, Keyword, Type, Comment, Whitespace, Other; no kind
   * passes two of them, so each class is reached by exactly its own kinds.
   */
  function ConvertTokenKindToTokenClass(k: TokenKind): (r: TokenClass)
    ensures r == Char <==> k in CharLiteralKinds
    ensures r == String <==> IsStringLiteral(k)
    ensures r == Numeric <==> k == NumericConstant
    ensures r == Keyword <==> IsKeyword(k)
    ensures r == Type <==> k == AnnotTypename
    ensures r == TokenClass.Comment <==> k == TokenKind.Comment
    ensures r == Whitespace <==> k == Unknown || k == Eod
    ensures r in {Char, String, Numeric, Keyword, Type, TokenClass.Comment, Whitespace, Other}
  {
    if IsCharLiteral(k) then Char
    else if IsStringLiteral(k) then String
    else if k == NumericConstant then Numeric
    else if IsKeyword(k) then Keyword
    else if k == AnnotTypename then Type
    else if k == TokenKind.Comment then TokenClass.Comment
    else if k == Unknown || k == Eod then Whitespace
    else Other
  }

  // ---------------------------------------------------------------------
  // Collecting the tokens
  // ---------------------------------------------------------------------

  /**
   * A lexed token after identifier-table lookup: a raw identifier takes the
   * kind that `resolve` (the identifier table built for `opts`) gives its
   * spelling; every other token is unchanged.
   */
  function Resolved(source: string, t: Token, resolve: (LangOptions, string) -> TokenKind): Token
    requires t.start + t.length <= |source|
  {
    if t.kind == RawIdentifier then
      t.(kind := resolve(GetFormattingLangOpts(), source[t.start..t.start + t.length]))
    else t
  }

  /**
   * The token vector: the resolved lexer tokens up to and including the
   * first eof. `CollectedFrom(.., i)` is what the loop still appends once it
   * has consumed the first `i` lexer tokens.
   */
  function Collected(source: string, lexed: seq<Token>, resolve: (LangOptions, string) -> TokenKind): seq<Token>
    requires InBuffer(source, lexed)
  {
    CollectedFrom(source, lexed, resolve, 0)
  }

  function CollectedFrom(source: string, lexed: seq<Token>, resolve: (LangOptions, string) -> TokenKind, i: nat): seq<Token>
    requires InBuffer(source, lexed) && i <= |lexed|
    decreases |lexed| - i
  {
    if i == |lexed| then []
    else
      var t := Resolved(source, lexed[i], resolve);
      if t.kind == Eof then [t] else [t] + CollectedFrom(source, lexed, resolve, i + 1)
  }

  /**
   * The token-collection loop: lex a token, append it, resolve a raw
   * identifier through the identifier table, stop after the eof token.
   * `lexed` is what successive calls of the raw lexer return.
   */
  method CollectTokens(source: string, lexed: seq<Token>, resolve: (LangOptions, string) -> TokenKind)
    returns (allTokens: seq<Token>)
    requires InBuffer(source, lexed) && ReachesEof(lexed)
    ensures allTokens == Collected(source, lexed, resolve)
  {
    ghost var e :| 0 <= e < |lexed| && lexed[e].kind == Eof;
    ghost var target := Collected(source, lexed, resolve);
    allTokens := [];
    var i := 0;
    while true
      invariant 0 <= i <= e
      invariant allTokens + CollectedFrom(source, lexed, resolve, i) == target
      decreases e - i
    {
      ghost var before := allTokens;
      var tmpTok := lexed[i];
      allTokens := allTokens + [tmpTok];
      var thisTok := Resolved(source, tmpTok, resolve);
      allTokens := allTokens[|allTokens| - 1 := thisTok];
      assert allTokens == before + [thisTok];
      CollectStep(source, lexed, resolve, before, i);
      if thisTok.kind == Eof {
        break;
      }
      assert i != e;
      i := i + 1;
    }
  }

  /** What one turn of the collection loop appends, in terms of `CollectedFrom`. */
  lemma CollectStep(source: string, lexed: seq<Token>, resolve: (LangOptions, string) -> TokenKind,
                    before: seq<Token>, i: nat)
    requires InBuffer(source, lexed) && i < |lexed|
    ensures var t := Resolved(source, lexed[i], resolve);
      t.kind == Eof ==> before + [t] == before + CollectedFrom(source, lexed, resolve, i)
    ensures var t := Resolved(source, lexed[i], resolve);
      t.kind != Eof ==>
        (before + [t]) + CollectedFrom(source, lexed, resolve, i + 1) == before + CollectedFrom(source, lexed, resolve, i)
  {
    var t := Resolved(source, lexed[i], resolve);
    if t.kind != Eof {
      var next := CollectedFrom(source, lexed, resolve, i + 1);
      assert CollectedFrom(source, lexed, resolve, i) == [t] + next;
      assert (before + [t]) + next == before + ([t] + next);
    }
  }

  /** The tokens with the references the fuzzy parser `astRef` attaches to them. */
  function Annotate(toks: seq<Token>, astRef: (seq<Token>, nat) -> Option<ASTNode>): seq<AnnotatedToken> {
    seq(|toks|, i requires 0 <= i < |toks| => AnnotatedToken(toks[i], astRef(toks, i)))
  }

  // ---------------------------------------------------------------------
  // Classifying one token
  // ---------------------------------------------------------------------

  /** The Namespace rule: an identifier referring to a namespace declaration. */
  predicate NamespaceRuleFires(node: ASTNode, kind: TokenKind) {
    Isa(node, NamespaceDecl) && kind == Identifier
  }

  /**
   * The Type rule: a reference to a type or a type decoration, or an
   * identifier referring to a class declaration or a template type
   * parameter; with `identifiersOnly` set, identifiers only.
   */
  predicate TypeRuleFires(node: ASTNode, kind: TokenKind, identifiersOnly: bool) {
    && (!identifiersOnly || kind == Identifier)
    && (|| Isa(node, TypeNode)
        || Isa(node, TypeDecoration)
        || (kind == Identifier && (Isa(node, ClassDecl) || Isa(node, TemplateParameterType))))
  }

  /** The Function rule: an identifier referring to a call or a function declaration. */
  predicate FunctionRuleFires(node: ASTNode, kind: TokenKind) {
    kind == Identifier && (Isa(node, CallExpr) || Isa(node, FunctionDecl))
  }

  /** A token after classification: its (possibly rewritten) self and its class. */
  datatype Classified = Classified(tok: Token, cls: TokenClass)

  /**
   * The classification of one token from its AST reference, as a decision
   * table read from the highest precedence down: Function, Variable,
   * Preprocessor, String, Type, Namespace, else NONE. A token the Type rule
   * fires on has its kind rewritten to annot_typename, and the Function rule
   * sees the rewritten kind.
   */
  function Classify(at: AnnotatedToken, identifiersOnly: bool): (r: Classified)
    ensures r.tok.start == at.tok.start && r.tok.length == at.tok.length
    ensures at.ref.None? ==> r == Classified(at.tok, NONE)
    ensures r.cls == Type ==> r.tok.kind == AnnotTypename
    ensures r.tok.kind != at.tok.kind ==> r.tok.kind == AnnotTypename && r.cls in {Type, String, Preprocessor, Variable}
    ensures r.cls in {Function, Namespace} ==> at.tok.kind == Identifier && r.tok == at.tok
    ensures r.cls in {NONE, Namespace, Type, String, Preprocessor, Variable, Function}
  {
    match at.ref
    case None => Classified(at.tok, NONE)
    case Some(node) =>
      var typed := TypeRuleFires(node, at.tok.kind, identifiersOnly);
      var tok := if typed then at.tok.(kind := AnnotTypename) else at.tok;
      var cls :=
        if FunctionRuleFires(node, tok.kind) then Function
        else if Isa(node, DeclRefExpr) then Variable
        else if Isa(node, PPDirective) then Preprocessor
        else if Isa(node, PPString) then String
        else if typed then Type
        else if NamespaceRuleFires(node, at.tok.kind) then Namespace
        else NONE;
      Classified(tok, cls)
  }

  /**
   * The class a classified token is written with: its own class, unless it
   * has none or is an eod token, in which case the class of its kind.
   */
  function EmittedClass(c: Classified): (r: TokenClass)
    ensures r != NONE
  {
    if c.cls == NONE || c.tok.kind == Eod then ConvertTokenKindToTokenClass(c.tok.kind) else c.cls
  }

  // ---------------------------------------------------------------------
  // Emitting the spans
  // ---------------------------------------------------------------------

  /** Token starts lie in the buffer and never go backwards. */
  predicate Ordered(source: string, toks: seq<AnnotatedToken>) {
    && (forall i :: 0 <= i < |toks| ==> toks[i].tok.start <= |source|)
    && (forall i, j :: 0 <= i <= j < |toks| ==> toks[i].tok.start <= toks[j].tok.start)
  }

  /** The span written for token `at` once the next token, at `nextStart`, is reached. */
  function SpanOf(source: string, at: AnnotatedToken, nextStart: nat, identifiersOnly: bool): Span
    requires at.tok.start <= nextStart <= |source|
  {
    Span(source[at.tok.start..nextStart], EmittedClass(Classify(at, identifiersOnly)))
  }

  /**
   * The spans the emission loop has written, in order, once it has gone
   * through the first `n` tokens of `toks`: one for each of them but the
   * last, whose text is only written when the next token is reached.
   */
  function Spans(source: string, toks: seq<AnnotatedToken>, n: nat, identifiersOnly: bool): seq<Span>
    requires Ordered(source, toks) && n <= |toks|
  {
    if n < 2 then []
    else Spans(source, toks, n - 1, identifiersOnly) + [SpanOf(source, toks[n - 2], toks[n - 1].tok.start, identifiersOnly)]
  }

  /**
   * The rules of the emission loop for one token, as the source applies them:
   * each rule that matches overwrites the class set by the rules before it,
   * and the Type rule also rewrites the token's kind in place.
   */
  method ClassifyToken(aTok: AnnotatedToken, identifiersOnly: bool) returns (thisTok: Token, cls: TokenClass)
    ensures Classified(thisTok, cls) == Classify(aTok, identifiersOnly)
  {
    thisTok := aTok.tok;
    cls := NONE;
    if aTok.ref.Some? {
      var r := aTok.ref.value;
      if Isa(r, NamespaceDecl) && thisTok.kind == Identifier {
        cls := Namespace;
      }
      var isType := Isa(r, TypeNode) || Isa(r, TypeDecoration);
      var isTypeDecl := thisTok.kind == Identifier && (Isa(r, ClassDecl) || Isa(r, TemplateParameterType));
      if (!identifiersOnly || thisTok.kind == Identifier) && (isType || isTypeDecl) {
        cls := Type;
        thisTok := thisTok.(kind := AnnotTypename);
      }
      if Isa(r, PPString) {
        cls := String;
      }
      if Isa(r, PPDirective) {
        cls := Preprocessor;
      }
      if Isa(r, DeclRefExpr) {
        cls := Variable;
      }
      if thisTok.kind == Identifier && (Isa(r, CallExpr) || Isa(r, FunctionDecl)) {
        cls := Function;
      }
    }
  }

  /**
   * The write the emission loop makes for the previous token once this token
   * is reached: its text up to this token's start, with its class, or the
   * class of its kind when no rule classified it or it is eod.
   */
  method WritePrevious(source: string, lastTokenStart: nat, thisTokenStart: nat, lastTok: Token, cls: TokenClass,
                       ow: OutputWriter)
    requires lastTokenStart <= thisTokenStart <= |source|
    modifies ow
    ensures ow.written == old(ow.written)
      + [Span(source[lastTokenStart..thisTokenStart], EmittedClass(Classified(lastTok, cls)))]
  {
    var c := cls;
    if c == NONE || lastTok.kind == Eod {
      c := ConvertTokenKindToTokenClass(lastTok.kind);
    }
    ow.WriteToken(source[lastTokenStart..thisTokenStart], c);
  }

  /**
   * The emission loop: for each token after the first, write the text from
   * the previous token's start to this token's start with the previous
   * token's class; then classify this token, storing a rewritten kind back
   * into the token vector.
   */
  method EmitSpans(source: string, allTokens: seq<AnnotatedToken>, ow: OutputWriter, identifiersOnly: bool)
    requires Ordered(source, allTokens)
    modifies ow
    ensures ow.written == old(ow.written) + Spans(source, allTokens, |allTokens|, identifiersOnly)
  {
    var toks := allTokens;
    var lastTokenStart: Option<nat> := None;
    var lastTok := Token(Unknown, 0, 0);
    var cls := NONE;
    var i := 0;
    while i < |toks|
      invariant 0 <= i <= |toks| == |allTokens|
      invariant forall j :: i <= j < |toks| ==> toks[j] == allTokens[j]
      invariant forall j :: 0 <= j < i ==> toks[j] == allTokens[j].(tok := Classify(allTokens[j], identifiersOnly).tok)
      invariant i == 0 <==> lastTokenStart.None?
      invariant i > 0 ==> lastTokenStart == Some(allTokens[i - 1].tok.start)
      invariant i > 0 ==> Classified(lastTok, cls) == Classify(allTokens[i - 1], identifiersOnly)
      invariant ow.written == old(ow.written) + Spans(source, allTokens, i, identifiersOnly)
    {
      var aTok := toks[i];
      var thisTokenStart := aTok.tok.start;
      if lastTokenStart.Some? {
        WritePrevious(source, lastTokenStart.value, thisTokenStart, lastTok, cls, ow);
      }
      var thisTok;
      thisTok, cls := ClassifyToken(aTok, identifiersOnly);
      toks := toks[i := aTok.(tok := thisTok)];
      lastTok := thisTok;
      lastTokenStart := Some(thisTokenStart);
      i := i + 1;
    }
  }

  /** What highlight writes for a buffer, unless the AST is dumped instead. */
  function HighlightedSpans(source: string, lexed: seq<Token>, resolve: (LangOptions, string) -> TokenKind,
                            astRef: (seq<Token>, nat) -> Option<ASTNode>, identifiersOnly: bool): seq<Span>
    requires LexerOutput(source, lexed)
  {
    var toks := Annotate(Collected(source, lexed, resolve), astRef);
    CollectedOrdered(source, lexed, resolve, astRef);
    Spans(source, toks, |toks|, identifiersOnly)
  }

  /**
   * highlight: collect the tokens, let the fuzzy parser annotate them, and
   * either stop (the AST dump, which writes nothing to `ow`) or emit the spans.
   */
  method Highlight(source: string, lexed: seq<Token>, resolve: (LangOptions, string) -> TokenKind,
                   astRef: (seq<Token>, nat) -> Option<ASTNode>, ow: OutputWriter,
                   identifiersOnly: bool, dumpAST: bool)
    requires LexerOutput(source, lexed)
    modifies ow
    ensures dumpAST ==> ow.written == old(ow.written)
    ensures !dumpAST ==>
      ow.written == old(ow.written) + HighlightedSpans(source, lexed, resolve, astRef, identifiersOnly)
  {
    var allTokens := CollectTokens(source, lexed, resolve);
    var annotated := Annotate(allTokens, astRef);
    if dumpAST {
      return;
    }
    CollectedOrdered(source, lexed, resolve, astRef);
    EmitSpans(source, annotated, ow, identifiersOnly);
  }

  // ---------------------------------------------------------------------
  // Properties of the token vector
  // ---------------------------------------------------------------------

  /**
   * The token vector is the resolved prefix of the lexer's stream that ends
   * at the first token whose kind is eof: it is non-empty and holds exactly
   * one eof, its last token.
   */
  lemma CollectedShape(source: string, lexed: seq<Token>, resolve: (LangOptions, string) -> TokenKind)
    requires InBuffer(source, lexed) && ReachesEof(lexed)
    ensures var r := Collected(source, lexed, resolve);
      && 0 < |r| <= |lexed|
      && (forall i :: 0 <= i < |r| ==> r[i] == Resolved(source, lexed[i], resolve))
      && (forall i :: 0 <= i < |r| ==> (r[i].kind == Eof <==> i == |r| - 1))
  {
    var e :| 0 <= e < |lexed| && lexed[e].kind == Eof;
    CollectedFromShape(source, lexed, resolve, 0, e);
  }

  /** `CollectedShape` for the tokens appended from lexer position `from` on. */
  lemma {:induction false} CollectedFromShape(source: string, lexed: seq<Token>, resolve: (LangOptions, string) -> TokenKind,
                                             from: nat, e: nat)
    requires InBuffer(source, lexed) && from <= e < |lexed| && lexed[e].kind == Eof
    ensures var r := CollectedFrom(source, lexed, resolve, from);
      && 0 < |r| <= |lexed| - from
      && (forall i :: 0 <= i < |r| ==> r[i] == Resolved(source, lexed[from + i], resolve))
      && (forall i :: 0 <= i < |r| ==> (r[i].kind == Eof <==> i == |r| - 1))
    decreases e - from
  {
    var t := Resolved(source, lexed[from], resolve);
    if t.kind != Eof {
      assert from != e;
      CollectedFromShape(source, lexed, resolve, from + 1, e);
      var rest := CollectedFrom(source, lexed, resolve, from + 1);
      assert forall i :: 0 < i < |rest| + 1 ==> ([t] + rest)[i] == rest[i - 1];
    }
  }

  /** The identifier table yields an identifier or a keyword for every spelling. */
  ghost predicate IdentifierTableKinds(resolve: (LangOptions, string) -> TokenKind) {
    forall opts, s :: resolve(opts, s) == Identifier || resolve(opts, s).Kw?
  }

  /**
   * With a proper identifier table no raw identifier survives collection, and
   * the vector ends at the lexer's own first eof.
   */
  lemma CollectedResolvesIdentifiers(source: string, lexed: seq<Token>, resolve: (LangOptions, string) -> TokenKind, e: nat)
    requires LexerOutput(source, lexed)
    requires IdentifierTableKinds(resolve)
    requires e < |lexed| && lexed[e].kind == Eof && forall i :: 0 <= i < e ==> lexed[i].kind != Eof
    ensures var r := Collected(source, lexed, resolve);
      && |r| == e + 1
      && forall i :: 0 <= i < |r| ==> r[i].kind != RawIdentifier
  {
    CollectedShape(source, lexed, resolve);
    var r := Collected(source, lexed, resolve);
    var n := |r| - 1;
    assert r[n] == Resolved(source, lexed[n], resolve);
    assert lexed[n].kind == Eof;
    assert r[e] == Resolved(source, lexed[e], resolve);
  }

  /** The annotated token vector inherits the lexer's ordering of token starts. */
  lemma CollectedOrdered(source: string, lexed: seq<Token>, resolve: (LangOptions, string) -> TokenKind,
                         astRef: (seq<Token>, nat) -> Option<ASTNode>)
    requires LexerOutput(source, lexed)
    ensures Ordered(source, Annotate(Collected(source, lexed, resolve), astRef))
  {
    CollectedShape(source, lexed, resolve);
    var r := Collected(source, lexed, resolve);
    assert forall i :: 0 <= i < |r| ==> r[i].start == lexed[i].start;
  }

  // ---------------------------------------------------------------------
  // Properties of the spans
  // ---------------------------------------------------------------------

  /** One write per token after the first. */
  lemma {:induction false} SpansCount(source: string, toks: seq<AnnotatedToken>, n: nat, identifiersOnly: bool)
    requires Ordered(source, toks) && n <= |toks|
    ensures |Spans(source, toks, n, identifiersOnly)| == if n == 0 then 0 else n - 1
  {
    if n >= 2 {
      SpansCount(source, toks, n - 1, identifiersOnly);
    }
  }

  /** Write i covers token i's start to token i+1's start and carries token i's class. */
  lemma {:induction false} SpanAt(source: string, toks: seq<AnnotatedToken>, n: nat, identifiersOnly: bool, i: nat)
    requires Ordered(source, toks) && n <= |toks| && i + 1 < n
    ensures |Spans(source, toks, n, identifiersOnly)| == n - 1
    ensures Spans(source, toks, n, identifiersOnly)[i]
      == Span(source[toks[i].tok.start..toks[i + 1].tok.start], EmittedClass(Classify(toks[i], identifiersOnly)))
  {
    SpansCount(source, toks, n, identifiersOnly);
    SpansCount(source, toks, n - 1, identifiersOnly);
    if i + 2 < n {
      SpanAt(source, toks, n - 1, identifiersOnly, i);
    }
  }

  /** Adjacent slices join. */
  lemma SliceJoin(s: string, a: nat, b: nat, c: nat)
    requires a <= b <= c <= |s|
    ensures s[a..b] + s[b..c] == s[a..c]
  {
  }

  /** The written texts tile the source from the first token's start to the n-th token's start. */
  lemma {:induction false} SpansTile(source: string, toks: seq<AnnotatedToken>, n: nat, identifiersOnly: bool)
    requires Ordered(source, toks) && 0 < n <= |toks|
    ensures Text(Spans(source, toks, n, identifiersOnly)) == source[toks[0].tok.start..toks[n - 1].tok.start]
  {
    if n >= 2 {
      var before := Spans(source, toks, n - 1, identifiersOnly);
      var last := SpanOf(source, toks[n - 2], toks[n - 1].tok.start, identifiersOnly);
      TextAppend(before, last);
      SpansTile(source, toks, n - 1, identifiersOnly);
      SliceJoin(source, toks[0].tok.start, toks[n - 2].tok.start, toks[n - 1].tok.start);
    }
  }

  /** No span is ever written with class NONE. */
  lemma SpansClassified(source: string, toks: seq<AnnotatedToken>, n: nat, identifiersOnly: bool)
    requires Ordered(source, toks) && n <= |toks|
    ensures forall s :: s in Spans(source, toks, n, identifiersOnly) ==> s.cls != NONE
  {
    var spans := Spans(source, toks, n, identifiersOnly);
    SpansCount(source, toks, n, identifiersOnly);
    forall i | 0 <= i < |spans|
      ensures spans[i].cls != NONE
    {
      SpanAt(source, toks, n, identifiersOnly, i);
    }
  }

  /**
   * What highlight writes: one span per token before the eof token, whose
   * texts put together are the buffer from the first token to the eof token.
   */
  lemma HighlightTiles(source: string, lexed: seq<Token>, resolve: (LangOptions, string) -> TokenKind,
                       astRef: (seq<Token>, nat) -> Option<ASTNode>, identifiersOnly: bool)
    requires LexerOutput(source, lexed)
    ensures var toks := Collected(source, lexed, resolve);
      var spans := HighlightedSpans(source, lexed, resolve, astRef, identifiersOnly);
      && toks != [] && toks[|toks| - 1].kind == Eof
      && |spans| == |toks| - 1
      && lexed[0].start <= toks[|toks| - 1].start <= |source|
      && Text(spans) == source[lexed[0].start..toks[|toks| - 1].start]
  {
    CollectedShape(source, lexed, resolve);
    CollectedOrdered(source, lexed, resolve, astRef);
    var annotated := Annotate(Collected(source, lexed, resolve), astRef);
    SpansCount(source, annotated, |annotated|, identifiersOnly);
    SpansTile(source, annotated, |annotated|, identifiersOnly);
  }

  /**
   * When the lexer's first token starts the buffer and its first eof token
   * sits at the buffer's end, the written texts are the whole buffer.
   */
  lemma HighlightReconstructsSource(source: string, lexed: seq<Token>, resolve: (LangOptions, string) -> TokenKind,
                                    astRef: (seq<Token>, nat) -> Option<ASTNode>, identifiersOnly: bool, e: nat)
    requires LexerOutput(source, lexed)
    requires IdentifierTableKinds(resolve)
    requires e < |lexed| && lexed[e].kind == Eof && forall i :: 0 <= i < e ==> lexed[i].kind != Eof
    requires lexed[0].start == 0 && lexed[e].start == |source|
    ensures Text(HighlightedSpans(source, lexed, resolve, astRef, identifiersOnly)) == source
  {
    HighlightTiles(source, lexed, resolve, astRef, identifiersOnly);
    CollectedResolvesIdentifiers(source, lexed, resolve, e);
    CollectedShape(source, lexed, resolve);
    var toks := Collected(source, lexed, resolve);
    assert toks[e] == Resolved(source, lexed[e], resolve);
    assert source[0..|source|] == source;
  }

  // ---------------------------------------------------------------------
  // Properties of the classification
  // ---------------------------------------------------------------------

  /**
   * With identifiers-only set, a token that is not an identifier is never
   * classed Type and keeps its kind; with it clear, such a token referring
   * to a type or type decoration is classed Type unless a later rule wins.
   */
  lemma IdentifiersOnlyRestrictsType(at: AnnotatedToken, node: ASTNode)
    requires at.ref == Some(node) && at.tok.kind != Identifier
    ensures Classify(at, true).cls != Type && Classify(at, true).tok == at.tok
    ensures Classify(at, false).cls == Type <==>
      && (Isa(node, TypeNode) || Isa(node, TypeDecoration))
      && !Isa(node, PPString) && !Isa(node, PPDirective) && !Isa(node, DeclRefExpr)
  {
  }

  /** For an identifier the identifiers-only flag changes nothing. */
  lemma IdentifiersOnlyKeepsIdentifiers(at: AnnotatedToken)
    requires at.tok.kind == Identifier
    ensures Classify(at, true) == Classify(at, false)
  {
  }

  /** The class-declaration and template-parameter case needs an identifier, whatever the flag. */
  lemma TypeDeclNeedsIdentifier(at: AnnotatedToken, node: ASTNode, identifiersOnly: bool)
    requires at.ref == Some(node) && at.tok.kind != Identifier
    requires !Isa(node, TypeNode) && !Isa(node, TypeDecoration)
    ensures Classify(at, identifiersOnly).cls != Type
    ensures Classify(at, identifiersOnly).tok == at.tok
  {
  }

  /** A token no rule classified is written with the class of its own kind. */
  lemma UnclassifiedFallsBack(at: AnnotatedToken, identifiersOnly: bool)
    requires at.ref.None? || Classify(at, identifiersOnly).cls == NONE
    ensures EmittedClass(Classify(at, identifiersOnly)) == ConvertTokenKindToTokenClass(at.tok.kind)
  {
  }

  /**
   * An eod token is written as Whitespace exactly when the Type rule did not
   * fire on it: the Type rule rewrites its kind to annot_typename before the
   * eod test is made.
   */
  lemma EodWrittenAsWhitespace(at: AnnotatedToken, identifiersOnly: bool)
    requires at.tok.kind == Eod
    ensures EmittedClass(Classify(at, identifiersOnly)) == Whitespace <==>
      !(at.ref.Some? && TypeRuleFires(at.ref.value, Eod, identifiersOnly))
  {
  }

  /**
   * A token that a rule classified, and whose kind after the rules is not eod,
   * is written with that class. This includes an eod token that the Type rule
   * rewrote to annot_typename: it keeps the class the rules gave it.
   */
  lemma ClassifiedKeepsClass(at: AnnotatedToken, identifiersOnly: bool)
    requires Classify(at, identifiersOnly).cls != NONE && Classify(at, identifiersOnly).tok.kind != Eod
    ensures EmittedClass(Classify(at, identifiersOnly)) == Classify(at, identifiersOnly).cls
  {
  }
}
