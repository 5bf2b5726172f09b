/**
 * The part of the SQL AST the HSQL dialect rules look at: expressions,
 * predicates (among them InListArrayPredicate), comparison and arithmetic
 * operators, and the JDBC type an expression carries.
 *
 * Java compares AST nodes by reference; every node carries an id so that
 * structural equality of the model stands for identity of the Java nodes.
 */
module SqlAst {
  import opened Wrappers

  /** SqlTypes.ARRAY, the JDBC type code of java.sql.Types.ARRAY. */
  const ARRAY: int := 2003

  /** A JDBC type: its type code, and whether it is an ArrayJdbcType. */
  datatype JdbcType = JdbcType(jdbcTypeCode: int, isArrayJdbcType: bool)

  /** The expression type of a node, seen through its first JDBC mapping (getJdbcMappings().get(0)). */
  datatype JdbcMappingContainer = JdbcMappingContainer(firstJdbcType: JdbcType)

  datatype ArithmeticOperator = Add | Subtract | Multiply | Divide | Quotient | Modulo

  datatype ComparisonOperator =
    | Equal | NotEqual | LessThan | LessThanOrEqual | GreaterThan | GreaterThanOrEqual
    | DistinctFrom | NotDistinctFrom

  /** SQL expressions. A missing expressionType is a null getExpressionType(). */
  datatype Expr =
    | Literal(id: nat, expressionType: Option<JdbcMappingContainer>)
    | Parameter(id: nat, expressionType: Option<JdbcMappingContainer>)
    | ColumnReference(id: nat, expressionType: Option<JdbcMappingContainer>)
    | BinaryArithmetic(id: nat, expressionType: Option<JdbcMappingContainer>, operator: ArithmeticOperator, lhs: Expr, rhs: Expr)
    | CaseSearched(id: nat, expressionType: Option<JdbcMappingContainer>, whens: seq<WhenFragment>, otherwise: Option<Expr>)
    | CaseSimple(id: nat, expressionType: Option<JdbcMappingContainer>, fixture: Expr, whens: seq<WhenFragment>, otherwise: Option<Expr>)
    | Summarization(id: nat, expressionType: Option<JdbcMappingContainer>, groupings: seq<Expr>)
    | OtherExpression(id: nat, expressionType: Option<JdbcMappingContainer>)

  /** A when fragment of a CASE: its test (a predicate, or the value the fixture is checked against) and its result. */
  datatype WhenFragment = WhenFragment(test: WhenTest, result: Expr)

  datatype WhenTest = SearchCondition(condition: Predicate) | CheckValue(value: Expr)

  datatype Predicate =
    | BooleanExpressionPredicate(expression: Expr, negated: bool)
    | ComparisonPredicate(left: Expr, comparison: ComparisonOperator, right: Expr)
    | InListArray(inList: InListArrayPredicate)
    | OtherPredicate(predicateId: nat)

  /**
   * `testExpression IN (elements of arrayExpression)`. A missing array
   * expression is the null the shorter constructors pass on.
   */
  datatype InListArrayPredicate = InListArrayPredicate(
    testExpression: Expr,
    arrayExpression: Option<Expr>,
    negated: bool,
    expressionType: Option<JdbcMappingContainer>)

  /** The call accept makes on the walker. */
  datatype WalkerCall = VisitInListArrayPredicate(visited: InListArrayPredicate)

  /** The CASE expressions. */
  predicate IsCase(e: Expr)
  {
    e.CaseSearched? || e.CaseSimple?
  }

  /** A CASE has at least one when fragment, at every level the rendering rules descend into. */
  predicate ValidExpr(e: Expr)
  {
    match e
    case BinaryArithmetic(_, _, _, l, r) => ValidExpr(l) && ValidExpr(r)
    case CaseSearched(_, _, whens, otherwise) =>
      |whens| > 0
      && (forall k :: 0 <= k < |whens| ==> ValidExpr(whens[k].result))
      && (otherwise.Some? ==> ValidExpr(otherwise.value))
    case CaseSimple(_, _, _, whens, otherwise) =>
      |whens| > 0
      && (forall k :: 0 <= k < |whens| ==> ValidExpr(whens[k].result))
      && (otherwise.Some? ==> ValidExpr(otherwise.value))
    case _ => true
  }

  // ---------------------------------------------------------------------------
  // InListArrayPredicate: the four constructors, the getters and accept

  /** InListArrayPredicate(testExpression, arrayExpression, negated, expressionType) */
  function NewInListArrayPredicate(testExpression: Expr, arrayExpression: Option<Expr>, negated: bool,
                                   expressionType: Option<JdbcMappingContainer>): (p: InListArrayPredicate)
    ensures GetTestExpression(p) == testExpression && GetArrayExpression(p) == arrayExpression
    ensures IsNegated(p) == negated && GetExpressionType(p) == expressionType
  {
    InListArrayPredicate(testExpression, arrayExpression, negated, expressionType)
  }

  /** InListArrayPredicate(testExpression, arrayExpression): not negated, no expression type. */
  function NewInListArrayPredicateOf(testExpression: Expr, arrayExpression: Option<Expr>): (p: InListArrayPredicate)
    ensures GetTestExpression(p) == testExpression && GetArrayExpression(p) == arrayExpression
    ensures !IsNegated(p) && GetExpressionType(p).None?
  {
    NewInListArrayPredicate(testExpression, arrayExpression, false, None)
  }

  /** InListArrayPredicate(testExpression, negated, expressionType): no array expression. */
  function NewNegatableInListArrayPredicate(testExpression: Expr, negated: bool, expressionType: Option<JdbcMappingContainer>)
    : (p: InListArrayPredicate)
    ensures GetTestExpression(p) == testExpression && GetArrayExpression(p).None?
    ensures IsNegated(p) == negated && GetExpressionType(p) == expressionType
  {
    NewInListArrayPredicate(testExpression, None, negated, expressionType)
  }

  /** InListArrayPredicate(testExpression): no array expression, not negated, no expression type. */
  function NewTestOnlyInListArrayPredicate(testExpression: Expr): (p: InListArrayPredicate)
    ensures GetTestExpression(p) == testExpression && GetArrayExpression(p).None?
    ensures !IsNegated(p) && GetExpressionType(p).None?
  {
    NewInListArrayPredicateOf(testExpression, None)
  }

  /** getTestExpression(): the node is its test expression together with its other three fields. */
  function GetTestExpression(p: InListArrayPredicate): (testExpression: Expr)
    ensures p == InListArrayPredicate(testExpression, p.arrayExpression, p.negated, p.expressionType)
  {
    p.testExpression
  }

  /** getArrayExpression(): the node is its array expression together with its other three fields; null is None. */
  function GetArrayExpression(p: InListArrayPredicate): (arrayExpression: Option<Expr>)
    ensures p == InListArrayPredicate(p.testExpression, arrayExpression, p.negated, p.expressionType)
  {
    p.arrayExpression
  }

  function IsNegated(p: InListArrayPredicate): bool
  {
    p.negated
  }

  function GetExpressionType(p: InListArrayPredicate): Option<JdbcMappingContainer>
  {
    p.expressionType
  }

  /** accept(walker): the walker is called exactly once, with this node. */
  function Accept(p: InListArrayPredicate): (calls: seq<WalkerCall>)
    ensures |calls| == 1 && calls[0].visited == p
  {
    [VisitInListArrayPredicate(p)]
  }

  /** The shorter constructors are the full one with null, false and null filled in. */
  lemma ConstructorsChain(testExpression: Expr, arrayExpression: Option<Expr>, negated: bool, expressionType: Option<JdbcMappingContainer>)
    ensures NewTestOnlyInListArrayPredicate(testExpression) == NewInListArrayPredicate(testExpression, None, false, None)
    ensures NewInListArrayPredicateOf(testExpression, arrayExpression) == NewInListArrayPredicate(testExpression, arrayExpression, false, None)
    ensures NewNegatableInListArrayPredicate(testExpression, negated, expressionType)
      == NewInListArrayPredicate(testExpression, None, negated, expressionType)
  {
  }
}
