/**
 * The interface of the fuzzy parser that the classifier uses: tokens that
 * may carry a reference to the fuzzy AST node they belong to.
 */
module FuzzyAST {
  import opened ClangTokens

  datatype Option<T> = None | Some(value: T)

  /** The fuzzy AST classes the classifier tests a node against with isa<>. */
  datatype NodeClass =
    | NamespaceDecl
    | TypeNode               // fuzzy::Type
    | TypeDecoration         // fuzzy::Type::Decoration
    | ClassDecl
    | TemplateParameterType
    | PPString
    | PPDirective
    | DeclRefExpr
    | CallExpr
    | FunctionDecl

  /**
   * A fuzzy AST node, seen through isa<>: the set of the classes above that
   * the node is an instance of (its own class and its base classes).
   */
  datatype ASTNode = ASTNode(classes: set<NodeClass>)

  /** llvm::isa<C>(node). */
  predicate Isa(node: ASTNode, c: NodeClass) {
    c in node.classes
  }

  /** fuzzy::AnnotatedToken: a token and, optionally, its AST reference. */
  datatype AnnotatedToken = AnnotatedToken(tok: Token, ref: Option<ASTNode>)
}
