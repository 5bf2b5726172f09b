/**
 * The SQL text the HSQL dialect's translator produces, as pure functions of the
 * AST node and the current parameter rendering mode, and the rules proved
 * about it. What the generic translator renders is given by a BaseRenderer
 * whose functions are left uninterpreted.
 */
module HsqlRules {
  import opened Wrappers
  import opened JavaRuntime
  import opened SqlAst

  /** The parameter rendering modes the dialect distinguishes. */
  datatype RenderingMode = Default | NoPlainParameter

  /** The consumer a CASE renders its result arms with: accept on the node, or one supplied by the caller. */
  datatype ResultRenderer = AcceptResult | SuppliedRenderer(renderResult: (Expr, RenderingMode) -> string)

  /** A query part (select query or query group), known only by identity. */
  datatype QueryPart = QueryPart(id: nat)

  /** A select-clause item. */
  datatype SqlSelection = SqlSelection(expression: Expr)

  /**
   * What the generic translator contributes. The functions take the rendering
   * mode in force, because plain parameters render according to it.
   */
  datatype BaseRenderer = BaseRenderer(
    /** literals, parameters, column references, summarizations and other expressions */
    leaf: (Expr, RenderingMode) -> string,
    /** renderComparisonStandard */
    comparisonStandard: (Expr, ComparisonOperator, Expr, RenderingMode) -> string,
    /** renderCasted */
    casted: (Expr, RenderingMode) -> string,
    /** the keywords, tests and fixture the generic CASE places before result arm i (and after the last arm) */
    caseGlue: (Expr, nat, RenderingMode) -> string,
    /** areAllResultsParameters */
    areAllResultsParameters: Expr -> bool,
    /** the generic visitRecursivePath */
    recursivePath: (Expr, int, RenderingMode) -> string,
    /** renderSelectExpressionWithCastedOrInlinedPlainParameters */
    selectExpression: (Expr, RenderingMode) -> string,
    /** emulateSelectTupleComparison */
    emulateSelectTupleComparison: (seq<SqlSelection>, seq<Expr>, ComparisonOperator, bool, RenderingMode) -> string,
    /** ComparisonOperator.sqlText() */
    comparisonSqlText: ComparisonOperator -> string,
    /** BinaryArithmeticOperator.getOperatorSqlTextString() */
    arithmeticSqlText: ArithmeticOperator -> string,
    /** assertRowsOnlyFetchClauseType, with the exception it raises */
    assertRowsOnlyFetchClauseType: QueryPart -> Option<JavaException>,
    /** renderOffsetFetchClause */
    offsetFetchClause: (QueryPart, bool) -> string,
    /** renderLimitOffsetClause */
    limitOffsetClause: QueryPart -> string)

  // ---------------------------------------------------------------------------
  // Expressions

  /**
   * The text accept(expression) appends under mode. A CASE goes to the dialect's
   * override with accept as its result renderer; arithmetic is always closed by
   * a parenthesis, so nested operands keep their precedence.
   */
  function RenderExpr(b: BaseRenderer, e: Expr, mode: RenderingMode): (text: string)
    requires ValidExpr(e)
    ensures IsCase(e) ==> text == CaseText(b, e, AcceptResult, mode)
    ensures !IsCase(e) && !e.BinaryArithmetic? ==> text == b.leaf(e, mode)
    decreases e, 1, 0
  {
    match e
    case BinaryArithmetic(_, _, op, l, r) =>
      if op == Modulo then "mod(" + RenderExpr(b, l, mode) + "," + RenderExpr(b, r, mode) + ")"
      else "(" + RenderExpr(b, l, NoPlainParameter) + b.arithmeticSqlText(op) + RenderExpr(b, r, NoPlainParameter) + ")"
    case CaseSearched(_, _, _, _) => CaseText(b, e, AcceptResult, mode)
    case CaseSimple(_, _, _, _, _) => CaseText(b, e, AcceptResult, mode)
    case _ => b.leaf(e, mode)
  }

  /** isParameter(e) && mode == DEFAULT, or isLiteral(e) */
  predicate PlainParameterOrLiteral(e: Expr, mode: RenderingMode)
  {
    e.Literal? || (e.Parameter? && mode == Default)
  }

  /** The condition areAllResultsPlainParametersOrLiterals computes, on a CASE with at least one when fragment. */
  predicate AllResultsPlainParametersOrLiterals(e: Expr, mode: RenderingMode): (r: bool)
    requires IsCase(e)
    ensures mode == NoPlainParameter ==> (r <==> forall k :: 0 <= k < |e.whens| ==> e.whens[k].result.Literal?)
    ensures (forall k :: 0 <= k < |e.whens| ==> e.whens[k].result.Literal?) ==> r
    ensures (exists k :: 0 <= k < |e.whens| && !e.whens[k].result.Literal? && !e.whens[k].result.Parameter?) ==> !r
  {
    forall k :: 0 <= k < |e.whens| ==> PlainParameterOrLiteral(e.whens[k].result, mode)
  }

  /** The condition under which the dialect renders the first result casted. */
  predicate CastsFirstResult(b: BaseRenderer, e: Expr, mode: RenderingMode): (r: bool)
    requires IsCase(e)
    ensures mode == Default ==>
      (r <==> b.areAllResultsParameters(e) || forall k :: 0 <= k < |e.whens| ==> e.whens[k].result.Literal? || e.whens[k].result.Parameter?)
    ensures mode == NoPlainParameter ==> (r <==> forall k :: 0 <= k < |e.whens| ==> e.whens[k].result.Literal?)
  {
    (mode == Default && b.areAllResultsParameters(e)) || AllResultsPlainParametersOrLiterals(e, mode)
  }

  /** The first when fragment's result. */
  function FirstResult(e: Expr): Expr
    requires IsCase(e) && |e.whens| > 0
  {
    e.whens[0].result
  }

  /** The number of result arms: the when results, then the otherwise. */
  function ArmCount(e: Expr): nat
    requires IsCase(e)
  {
    |e.whens| + if e.otherwise.Some? then 1 else 0
  }

  /** The arm is the first result (by identity) and the cast condition holds. */
  predicate RendersCasted(b: BaseRenderer, e: Expr, mode: RenderingMode, arm: Expr)
    requires IsCase(e) && |e.whens| > 0
  {
    CastsFirstResult(b, e, mode) && arm == FirstResult(e)
  }

  /** What the dialect's result consumer appends for one arm. */
  function ArmText(b: BaseRenderer, e: Expr, rr: ResultRenderer, mode: RenderingMode, arm: Expr): string
    requires IsCase(e) && |e.whens| > 0 && ValidExpr(arm)
    decreases arm, 2
  {
    if RendersCasted(b, e, mode, arm) then b.casted(arm, mode)
    else ResultText(b, rr, arm, mode)
  }

  /** What the caller's result consumer appends for one arm. */
  function ResultText(b: BaseRenderer, rr: ResultRenderer, arm: Expr, mode: RenderingMode): string
    requires ValidExpr(arm)
    decreases arm, 1, 1
  {
    match rr
    case AcceptResult => RenderExpr(b, arm, mode)
    case SuppliedRenderer(f) => f(arm, mode)
  }

  /** The first k when arms, each preceded by its part of the CASE skeleton. */
  function WhenArmsText(b: BaseRenderer, e: Expr, rr: ResultRenderer, mode: RenderingMode, k: nat): string
    requires IsCase(e) && ValidExpr(e) && k <= |e.whens|
    decreases e, 0, k
  {
    if k == 0 then ""
    else WhenArmsText(b, e, rr, mode, k - 1) + b.caseGlue(e, k - 1, mode) + ArmText(b, e, rr, mode, e.whens[k - 1].result)
  }

  /** The otherwise arm, preceded by its part of the skeleton, if there is one. */
  function OtherwiseText(b: BaseRenderer, e: Expr, rr: ResultRenderer, mode: RenderingMode): string
    requires IsCase(e) && ValidExpr(e)
    decreases e, 0, 0
  {
    match e.otherwise
    case None => ""
    case Some(o) => b.caseGlue(e, |e.whens|, mode) + ArmText(b, e, rr, mode, o)
  }

  /**
   * visitAnsiCaseSearchedExpression / visitAnsiCaseSimpleExpression: the when
   * arms in order, then the otherwise arm if there is one, then the closing part
   * of the skeleton.
   */
  function CaseText(b: BaseRenderer, e: Expr, rr: ResultRenderer, mode: RenderingMode): (text: string)
    requires IsCase(e) && ValidExpr(e)
    ensures e.otherwise.None? ==> text == WhenArmsText(b, e, rr, mode, |e.whens|) + b.caseGlue(e, |e.whens|, mode)
    ensures e.otherwise.Some? ==>
      text == WhenArmsText(b, e, rr, mode, |e.whens|) + b.caseGlue(e, |e.whens|, mode)
              + ArmText(b, e, rr, mode, e.otherwise.value) + b.caseGlue(e, |e.whens| + 1, mode)
    decreases e, 0, |e.whens| + 1
  {
    WhenArmsText(b, e, rr, mode, |e.whens|) + OtherwiseText(b, e, rr, mode) + b.caseGlue(e, ArmCount(e), mode)
  }

  /** The generic CASE rendering, every arm going to the caller's consumer. */
  function DelegatedCaseText(b: BaseRenderer, e: Expr, rr: ResultRenderer, mode: RenderingMode): string
    requires IsCase(e) && ValidExpr(e)
  {
    DelegatedWhenArmsText(b, e, rr, mode, |e.whens|)
    + (match e.otherwise
       case None => ""
       case Some(o) => b.caseGlue(e, |e.whens|, mode) + ResultText(b, rr, o, mode))
    + b.caseGlue(e, ArmCount(e), mode)
  }

  function DelegatedWhenArmsText(b: BaseRenderer, e: Expr, rr: ResultRenderer, mode: RenderingMode, k: nat): string
    requires IsCase(e) && ValidExpr(e) && k <= |e.whens|
  {
    if k == 0 then ""
    else DelegatedWhenArmsText(b, e, rr, mode, k - 1) + b.caseGlue(e, k - 1, mode) + ResultText(b, rr, e.whens[k - 1].result, mode)
  }

  /** visitBooleanExpressionPredicate: the expression, wrapped in not(...) exactly when negated. */
  function BooleanPredicateText(b: BaseRenderer, p: Predicate, mode: RenderingMode): (text: string)
    requires p.BooleanExpressionPredicate? && ValidExpr(p.expression)
    ensures !p.negated ==> text == RenderExpr(b, p.expression, mode)
    ensures p.negated ==>
      |text| == |RenderExpr(b, p.expression, mode)| + 5 && text[..4] == "not("
      && text[4..|text| - 1] == RenderExpr(b, p.expression, mode) && text[|text| - 1] == ')'
  {
    if p.negated then "not(" + RenderExpr(b, p.expression, mode) + ")" else RenderExpr(b, p.expression, mode)
  }

  /**
   * renderComparison: only (in)equality and (not) distinct from on a typed left
   * side leave the standard comparison.
   */
  function ComparisonText(b: BaseRenderer, lhs: Expr, op: ComparisonOperator, rhs: Expr, mode: RenderingMode): (text: string)
    requires ValidExpr(lhs) && ValidExpr(rhs)
    ensures lhs.expressionType.None? ==> text == b.comparisonStandard(lhs, op, rhs, mode)
    ensures op !in {Equal, NotEqual, DistinctFrom, NotDistinctFrom} ==> text == b.comparisonStandard(lhs, op, rhs, mode)
  {
    match lhs.expressionType
    case None => b.comparisonStandard(lhs, op, rhs, mode)
    case Some(container) =>
      if op == Equal || op == NotEqual then EqualityText(b, lhs, op, rhs, mode, container.firstJdbcType)
      else if op == DistinctFrom || op == NotDistinctFrom then DistinctFromText(b, lhs, op, rhs, mode, container.firstJdbcType)
      else b.comparisonStandard(lhs, op, rhs, mode)
  }

  /** The keyword an array (in)equality becomes. */
  function InKeyword(op: ComparisonOperator): string
  {
    if op == Equal then " IN(" else " NOT IN("
  }

  /** The EQUAL and NOT_EQUAL cases of renderComparison. */
  function EqualityText(b: BaseRenderer, lhs: Expr, op: ComparisonOperator, rhs: Expr, mode: RenderingMode, jdbcType: JdbcType): string
    requires ValidExpr(lhs) && ValidExpr(rhs) && (op == Equal || op == NotEqual)
  {
    if jdbcType.jdbcTypeCode == ARRAY then
      RenderExpr(b, lhs, mode) + InKeyword(op) + RenderExpr(b, rhs, mode) + ")"
    else b.comparisonStandard(lhs, op, rhs, mode)
  }

  /** The DISTINCT_FROM and NOT_DISTINCT_FROM cases of renderComparison. */
  function DistinctFromText(b: BaseRenderer, lhs: Expr, op: ComparisonOperator, rhs: Expr, mode: RenderingMode, jdbcType: JdbcType): string
    requires ValidExpr(lhs) && ValidExpr(rhs) && (op == DistinctFrom || op == NotDistinctFrom)
  {
    if jdbcType.isArrayJdbcType then
      RenderExpr(b, lhs, mode) + (if op == DistinctFrom then "<>" else "=") + RenderExpr(b, rhs, mode)
    else
      RenderExpr(b, lhs, NoPlainParameter) + b.comparisonSqlText(op) + RenderExpr(b, rhs, NoPlainParameter)
  }

  const SummarizationNotSupported: string := "Summarization is not supported by DBMS"

  /**
   * renderPartitionItem: any literal becomes the same constant expression, a
   * summarization is refused, everything else renders as usual.
   */
  function PartitionItemText(b: BaseRenderer, e: Expr, mode: RenderingMode): (r: Result<string, JavaException>)
    requires ValidExpr(e)
    ensures r.Err? <==> e.Summarization?
    ensures r.Err? ==> r.error == UnsupportedOperation("Summarization is not supported by DBMS")
    ensures e.Literal? ==> r == Ok("'0' || '0'")
    ensures !e.Literal? && !e.Summarization? ==> r == Ok(RenderExpr(b, e, mode))
  {
    if e.Literal? then Ok("'0' || '0'")
    else if e.Summarization? then Err(UnsupportedOperation(SummarizationNotSupported))
    else Ok(RenderExpr(b, e, mode))
  }

  /**
   * visitRecursivePath: the generic rendering for an unknown size (-1), otherwise
   * a cast to a varchar whose size is the decimal text of the estimate.
   */
  function RecursivePathText(b: BaseRenderer, e: Expr, sizeEstimate: int, mode: RenderingMode): (text: string)
    requires ValidExpr(e)
    ensures sizeEstimate == -1 ==> text == b.recursivePath(e, -1, mode)
    ensures sizeEstimate != -1 ==>
      text == "cast(" + RenderExpr(b, e, mode) + " as varchar(" + IntToDecimal(sizeEstimate) + "))"
      && DecimalValue(IntToDecimal(sizeEstimate)) == sizeEstimate
  {
    if sizeEstimate == -1 then b.recursivePath(e, sizeEstimate, mode)
    else
      IntToDecimalRoundTrip(sizeEstimate);
      "cast(" + RenderExpr(b, e, mode) + " as varchar(" + IntToDecimal(sizeEstimate) + "))"
  }

  /** supportsOffsetFetchClause(): HSQL has the standard OFFSET/FETCH clause. */
  function SupportsOffsetFetchClause(): (supported: bool)
    ensures supported
  {
    true
  }

  /**
   * visitOffsetFetchClause: never the limit/offset emulation; the rows-only check
   * runs first, and the native clause is rendered with true.
   */
  function OffsetFetchText(b: BaseRenderer, q: QueryPart): (r: Result<string, JavaException>)
    ensures r.Ok? <==> b.assertRowsOnlyFetchClauseType(q).None?
    ensures r.Ok? ==> r.value == b.offsetFetchClause(q, true)
    ensures r.Err? ==> r.error == b.assertRowsOnlyFetchClauseType(q).value
  {
    if SupportsOffsetFetchClause() then
      match b.assertRowsOnlyFetchClauseType(q)
      case Some(thrown) => Err(thrown)
      case None => Ok(b.offsetFetchClause(q, true))
    else Ok(b.limitOffsetClause(q))
  }

  // ---------------------------------------------------------------------------
  // Capability flags and FROM-dual strings

  /** Array constructors (ARRAY[...]) are supported. */
  function SupportsArrayConstructor(): (supported: bool)
    ensures supported
  { true }

  /** Correlations in the WITH clause are not. */
  function SupportsWithClauseInSubquery(): (supported: bool)
    ensures !supported
  { false }

  /** Arrays cannot be used in CTEs, so recursive clauses are not emulated with arrays or rows. */
  function SupportsRecursiveClauseArrayAndRowEmulation(): (supported: bool)
    ensures !supported
  { false }

  /** The FILTER clause of aggregate functions is rendered natively. */
  function SupportsFilterClause(): (supported: bool)
    ensures supported
  { true }

  /** Row value constructors are not supported: not plain ... */
  function SupportsRowValueConstructorSyntax(): (supported: bool)
    ensures !supported
  { false }

  /** ... not in IN lists ... */
  function SupportsRowValueConstructorSyntaxInInList(): (supported: bool)
    ensures !supported
  { false }

  /** ... and not in quantified predicates. */
  function SupportsRowValueConstructorSyntaxInQuantifiedPredicates(): (supported: bool)
    ensures !supported
  { false }

  /** The dual table is a one-row VALUES table. */
  function FromDual(): (fromDual: string)
    ensures fromDual == " from (values(0))"
  {
    " from (values(0))"
  }

  /** Selects without a FROM clause use the same one-row VALUES table. */
  function FromDualForSelectOnly(): (fromDual: string)
    ensures fromDual == " from (values(0))"
  {
    FromDual()
  }

  // ---------------------------------------------------------------------------
  // Decimal text of an int (String.valueOf)

  predicate IsDigit(c: char)
  {
    '0' <= c <= '9'
  }

  function DigitChar(d: nat): (c: char)
    requires d < 10
    ensures IsDigit(c)
  {
    ('0' as int + d) as char
  }

  function DigitValue(c: char): nat
    requires IsDigit(c)
  {
    c as int - '0' as int
  }

  /** The decimal digits of n, most significant first, with no leading zero. */
  function NatToDecimal(n: nat): (s: string)
    ensures |s| > 0 && forall i :: 0 <= i < |s| ==> IsDigit(s[i])
    ensures s[0] == '0' ==> n == 0
  {
    if n < 10 then [DigitChar(n)] else NatToDecimal(n / 10) + [DigitChar(n % 10)]
  }

  /** String.valueOf(n): a minus sign before the digits of a negative number. */
  function IntToDecimal(n: int): string
  {
    if n < 0 then "-" + NatToDecimal(-n) else NatToDecimal(n)
  }

  predicate IsDigits(s: string)
  {
    forall i :: 0 <= i < |s| ==> IsDigit(s[i])
  }

  function DigitsValue(s: string): nat
    requires IsDigits(s)
  {
    if s == [] then 0 else DigitsValue(s[..|s| - 1]) * 10 + DigitValue(s[|s| - 1])
  }

  /** Integer.parseInt on what String.valueOf produces. */
  function DecimalValue(s: string): int
    requires |s| > 0 && (if s[0] == '-' then IsDigits(s[1..]) else IsDigits(s))
  {
    if s[0] == '-' then -(DigitsValue(s[1..]) as int) else DigitsValue(s)
  }

  lemma {:induction false} NatToDecimalRoundTrip(n: nat)
    ensures DigitsValue(NatToDecimal(n)) == n
    decreases n
  {
    var s := NatToDecimal(n);
    if n < 10 {
      assert s[..|s| - 1] == [];
    } else {
      NatToDecimalRoundTrip(n / 10);
      assert s[..|s| - 1] == NatToDecimal(n / 10);
    }
  }

  /** The size written into the varchar cast reads back as the size estimate. */
  lemma IntToDecimalRoundTrip(n: int)
    ensures var s := IntToDecimal(n); |s| > 0 && (if s[0] == '-' then IsDigits(s[1..]) else IsDigits(s))
    ensures DecimalValue(IntToDecimal(n)) == n
  {
    if n < 0 {
      NatToDecimalRoundTrip(-n);
      assert IntToDecimal(n)[1..] == NatToDecimal(-n);
    } else {
      NatToDecimalRoundTrip(n);
    }
  }

  // ---------------------------------------------------------------------------
  // Rules

  /** Under NO_PLAIN_PARAMETER one parameter among the when results rules the condition out. */
  lemma ParameterResultRulesOutNoPlainCondition(b: BaseRenderer, e: Expr, k: nat)
    requires IsCase(e) && k < |e.whens| && e.whens[k].result.Parameter?
    ensures !AllResultsPlainParametersOrLiterals(e, NoPlainParameter)
    ensures !CastsFirstResult(b, e, NoPlainParameter)
  {
  }

  /** A CASE whose results are all plain parameters gets its first arm cast, as HSQL needs a typed arm. */
  lemma AllParameterCaseCastsFirstArm(b: BaseRenderer, e: Expr, rr: ResultRenderer)
    requires IsCase(e) && ValidExpr(e)
    requires forall k :: 0 <= k < |e.whens| ==> e.whens[k].result.Parameter?
    ensures ArmText(b, e, rr, Default, FirstResult(e)) == b.casted(FirstResult(e), Default)
  {
    assert PlainParameterOrLiteral(e.whens[0].result, Default);
  }

  /** Only the first result, by identity, is ever cast; every other arm goes to the caller's consumer. */
  lemma OnlyFirstResultIsCast(b: BaseRenderer, e: Expr, rr: ResultRenderer, mode: RenderingMode, arm: Expr)
    requires IsCase(e) && ValidExpr(e) && ValidExpr(arm)
    ensures RendersCasted(b, e, mode, arm) ==> arm == e.whens[0].result
    ensures arm != e.whens[0].result ==> ArmText(b, e, rr, mode, arm) == ResultText(b, rr, arm, mode)
    ensures !CastsFirstResult(b, e, mode) ==> ArmText(b, e, rr, mode, arm) == ResultText(b, rr, arm, mode)
  {
  }

  lemma {:induction false} UncastWhenArmsAreDelegated(b: BaseRenderer, e: Expr, rr: ResultRenderer, mode: RenderingMode, k: nat)
    requires IsCase(e) && ValidExpr(e) && k <= |e.whens| && !CastsFirstResult(b, e, mode)
    ensures WhenArmsText(b, e, rr, mode, k) == DelegatedWhenArmsText(b, e, rr, mode, k)
  {
    if k > 0 {
      UncastWhenArmsAreDelegated(b, e, rr, mode, k - 1);
    }
  }

  /** When the cast condition fails, the CASE renders exactly as the generic translator renders it. */
  lemma UncastCaseIsDelegated(b: BaseRenderer, e: Expr, rr: ResultRenderer, mode: RenderingMode)
    requires IsCase(e) && ValidExpr(e) && !CastsFirstResult(b, e, mode)
    ensures CaseText(b, e, rr, mode) == DelegatedCaseText(b, e, rr, mode)
  {
    UncastWhenArmsAreDelegated(b, e, rr, mode, |e.whens|);
    if e.otherwise.Some? {
      assert OtherwiseText(b, e, rr, mode) == b.caseGlue(e, |e.whens|, mode) + ResultText(b, rr, e.otherwise.value, mode);
    }
  }

  /** Arithmetic other than MODULO renders its operands without plain parameters, whatever the mode around it. */
  lemma ArithmeticIgnoresMode(b: BaseRenderer, e: Expr)
    requires e.BinaryArithmetic? && e.operator != Modulo && ValidExpr(e)
    ensures RenderExpr(b, e, Default) == RenderExpr(b, e, NoPlainParameter)
    ensures RenderExpr(b, e, Default)
      == "(" + RenderExpr(b, e.lhs, NoPlainParameter) + b.arithmeticSqlText(e.operator) + RenderExpr(b, e.rhs, NoPlainParameter) + ")"
  {
  }

  /** MODULO renders as the mod function, its operands in the mode around it. */
  lemma ModuloRendersModFunction(b: BaseRenderer, e: Expr, mode: RenderingMode)
    requires e.BinaryArithmetic? && e.operator == Modulo && ValidExpr(e)
    ensures RenderExpr(b, e, mode) == "mod(" + RenderExpr(b, e.lhs, mode) + "," + RenderExpr(b, e.rhs, mode) + ")"
  {
  }

  /** A negated boolean predicate is the plain one wrapped in not(...). */
  lemma NegationWrapsInNot(b: BaseRenderer, expression: Expr, mode: RenderingMode)
    requires ValidExpr(expression)
    ensures BooleanPredicateText(b, BooleanExpressionPredicate(expression, true), mode)
      == "not(" + BooleanPredicateText(b, BooleanExpressionPredicate(expression, false), mode) + ")"
    ensures BooleanPredicateText(b, BooleanExpressionPredicate(expression, false), mode) == RenderExpr(b, expression, mode)
  {
  }

  /** Equality on an ARRAY-typed left side becomes IN(...), inequality NOT IN(...), around the same operand texts. */
  lemma ArrayEqualityBecomesInList(b: BaseRenderer, lhs: Expr, rhs: Expr, mode: RenderingMode)
    requires ValidExpr(lhs) && ValidExpr(rhs)
    requires lhs.expressionType.Some? && lhs.expressionType.value.firstJdbcType.jdbcTypeCode == ARRAY
    ensures ComparisonText(b, lhs, Equal, rhs, mode) == RenderExpr(b, lhs, mode) + " IN(" + RenderExpr(b, rhs, mode) + ")"
    ensures ComparisonText(b, lhs, NotEqual, rhs, mode) == RenderExpr(b, lhs, mode) + " NOT IN(" + RenderExpr(b, rhs, mode) + ")"
  {
  }

  /** Equality on any other typed left side is the standard comparison. */
  lemma NonArrayEqualityIsStandard(b: BaseRenderer, lhs: Expr, op: ComparisonOperator, rhs: Expr, mode: RenderingMode)
    requires ValidExpr(lhs) && ValidExpr(rhs) && (op == Equal || op == NotEqual)
    requires lhs.expressionType.Some? && lhs.expressionType.value.firstJdbcType.jdbcTypeCode != ARRAY
    ensures ComparisonText(b, lhs, op, rhs, mode) == b.comparisonStandard(lhs, op, rhs, mode)
  {
  }

  /** On an array JDBC type, DISTINCT FROM is <> and NOT DISTINCT FROM is =, around the same operand texts. */
  lemma ArrayDistinctFromIsInequality(b: BaseRenderer, lhs: Expr, rhs: Expr, mode: RenderingMode)
    requires ValidExpr(lhs) && ValidExpr(rhs)
    requires lhs.expressionType.Some? && lhs.expressionType.value.firstJdbcType.isArrayJdbcType
    ensures ComparisonText(b, lhs, DistinctFrom, rhs, mode) == RenderExpr(b, lhs, mode) + "<>" + RenderExpr(b, rhs, mode)
    ensures ComparisonText(b, lhs, NotDistinctFrom, rhs, mode) == RenderExpr(b, lhs, mode) + "=" + RenderExpr(b, rhs, mode)
  {
  }

  /** On any other typed left side, DISTINCT FROM renders its operands without plain parameters, whatever the mode. */
  lemma DistinctFromAvoidsPlainParameters(b: BaseRenderer, lhs: Expr, op: ComparisonOperator, rhs: Expr)
    requires ValidExpr(lhs) && ValidExpr(rhs) && (op == DistinctFrom || op == NotDistinctFrom)
    requires lhs.expressionType.Some? && !lhs.expressionType.value.firstJdbcType.isArrayJdbcType
    ensures ComparisonText(b, lhs, op, rhs, Default) == ComparisonText(b, lhs, op, rhs, NoPlainParameter)
    ensures ComparisonText(b, lhs, op, rhs, Default)
      == RenderExpr(b, lhs, NoPlainParameter) + b.comparisonSqlText(op) + RenderExpr(b, rhs, NoPlainParameter)
  {
  }

  /** A recursive path with a size estimate other than -1 is cast to a varchar whose size reads back as the estimate. */
  lemma RecursivePathCastsToVarchar(b: BaseRenderer, e: Expr, sizeEstimate: int, mode: RenderingMode)
    requires ValidExpr(e) && sizeEstimate != -1
    ensures exists size: string ::
      RecursivePathText(b, e, sizeEstimate, mode) == "cast(" + RenderExpr(b, e, mode) + " as varchar(" + size + "))"
      && |size| > 0 && (if size[0] == '-' then IsDigits(size[1..]) else IsDigits(size))
      && DecimalValue(size) == sizeEstimate
  {
    IntToDecimalRoundTrip(sizeEstimate);
    var size := IntToDecimal(sizeEstimate);
    assert RecursivePathText(b, e, sizeEstimate, mode) == "cast(" + RenderExpr(b, e, mode) + " as varchar(" + size + "))";
  }
}
