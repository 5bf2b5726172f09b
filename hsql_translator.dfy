/**
 * HSQLSqlAstTranslator: the HSQL dialect's overrides of the SQL AST
 * translator. The translator appends to its SQL buffer and switches its
 * parameter rendering mode around nested renders; every method is proved to
 * append exactly the text the rules in HsqlRules give for the mode in force
 * when it was called, and to leave that mode as it found it.
 */
module HsqlTranslation {
  import opened Wrappers
  import opened JavaRuntime
  import opened SqlAst
  import opened HsqlRules

  class HsqlTranslator {
    const base: BaseRenderer
    var sql: string
    var parameterRenderingMode: RenderingMode

    constructor (base: BaseRenderer)
      ensures this.base == base && sql == [] && parameterRenderingMode == Default
    {
      this.base := base;
      sql := [];
      parameterRenderingMode := Default;
    }

    method AppendSql(fragment: string)
      modifies this
      ensures sql == old(sql) + fragment
      ensures parameterRenderingMode == old(parameterRenderingMode)
    {
      sql := sql + fragment;
    }

    /** render(e, mode) of the generic translator: accept under mode, then the previous mode again. */
    method Render(e: Expr, mode: RenderingMode)
      requires ValidExpr(e)
      modifies this
      decreases e, 2
      ensures sql == old(sql) + RenderExpr(base, e, mode)
      ensures parameterRenderingMode == old(parameterRenderingMode)
    {
      var original := parameterRenderingMode;
      parameterRenderingMode := mode;
      Accept(e);
      parameterRenderingMode := original;
    }

    /** e.accept(this): the nodes the dialect overrides go to its visit methods, the rest to the generic translator. */
    method Accept(e: Expr)
      requires ValidExpr(e)
      modifies this
      decreases e, 1, 0
      ensures sql == old(sql) + RenderExpr(base, e, old(parameterRenderingMode))
      ensures parameterRenderingMode == old(parameterRenderingMode)
    {
      match e
      case BinaryArithmetic(_, _, _, _, _) =>
        VisitBinaryArithmeticExpression(e);
      case CaseSearched(_, _, _, _) =>
        VisitAnsiCaseExpression(e, AcceptResult);
      case CaseSimple(_, _, _, _, _) =>
        VisitAnsiCaseExpression(e, AcceptResult);
      case _ =>
        AppendSql(base.leaf(e, parameterRenderingMode));
    }

    method RenderExpressionAsClauseItem(e: Expr)
      requires ValidExpr(e)
      modifies this
      ensures sql == old(sql) + RenderExpr(base, e, old(parameterRenderingMode))
      ensures parameterRenderingMode == old(parameterRenderingMode)
    {
      Accept(e);
    }

    method VisitBinaryArithmeticExpression(e: Expr)
      requires e.BinaryArithmetic? && ValidExpr(e)
      modifies this
      decreases e, 0, 1
      ensures sql == old(sql) + RenderExpr(base, e, old(parameterRenderingMode))
      ensures parameterRenderingMode == old(parameterRenderingMode)
    {
      if e.operator == Modulo {
        ModuloRendersModFunction(base, e, parameterRenderingMode);
        RenderModFunction(e);
      } else {
        ArithmeticIgnoresMode(base, e);
        RenderInfixArithmetic(e);
      }
    }

    /** MODULO: mod(lhs,rhs), the operands accepted in the current mode. */
    method RenderModFunction(e: Expr)
      requires e.BinaryArithmetic? && ValidExpr(e)
      modifies this
      decreases e, 0, 0
      ensures sql == old(sql) + "mod(" + RenderExpr(base, e.lhs, old(parameterRenderingMode)) + ","
        + RenderExpr(base, e.rhs, old(parameterRenderingMode)) + ")"
      ensures parameterRenderingMode == old(parameterRenderingMode)
    {
      ghost var before := sql;
      AppendSql("mod");
      AppendSql("(");
      Accept(e.lhs);
      AppendSql(",");
      Accept(e.rhs);
      AppendSql(")");
      assert sql == before + "mod" + "(" + RenderExpr(base, e.lhs, old(parameterRenderingMode)) + ","
        + RenderExpr(base, e.rhs, old(parameterRenderingMode)) + ")";
    }

    /** Any other operator: (lhs op rhs), the operands rendered under NO_PLAIN_PARAMETER. */
    method RenderInfixArithmetic(e: Expr)
      requires e.BinaryArithmetic? && ValidExpr(e)
      modifies this
      decreases e, 0, 0
      ensures sql == old(sql) + "(" + RenderExpr(base, e.lhs, NoPlainParameter) + base.arithmeticSqlText(e.operator)
        + RenderExpr(base, e.rhs, NoPlainParameter) + ")"
      ensures parameterRenderingMode == old(parameterRenderingMode)
    {
      ghost var before := sql;
      AppendSql("(");
      Render(e.lhs, NoPlainParameter);
      AppendSql(base.arithmeticSqlText(e.operator));
      Render(e.rhs, NoPlainParameter);
      AppendSql(")");
      assert sql == before + "(" + RenderExpr(base, e.lhs, NoPlainParameter) + base.arithmeticSqlText(e.operator)
        + RenderExpr(base, e.rhs, NoPlainParameter) + ")";
    }

    /**
     * Both overloads of areAllResultsPlainParametersOrLiterals: the first when
     * result decides whether the rest are looked at; a CASE without when
     * fragments fails at get(0).
     */
    method AreAllResultsPlainParametersOrLiterals(e: Expr) returns (r: Result<bool, JavaException>)
      requires IsCase(e)
      ensures r.Err? <==> |e.whens| == 0
      ensures r.Err? ==> r.error == IndexOutOfBounds
      ensures r.Ok? ==> (r.value <==> AllResultsPlainParametersOrLiterals(e, parameterRenderingMode))
    {
      var whenFragments := e.whens;
      if |whenFragments| == 0 {
        return Err(IndexOutOfBounds);
      }
      var firstResult := whenFragments[0].result;
      if (firstResult.Parameter? && parameterRenderingMode == Default) || firstResult.Literal? {
        for i := 1 to |whenFragments|
          invariant forall k :: 0 <= k < i ==> PlainParameterOrLiteral(whenFragments[k].result, parameterRenderingMode)
        {
          var result := whenFragments[i].result;
          if result.Parameter? {
            if parameterRenderingMode != Default {
              return Ok(false);
            }
          } else if !result.Literal? {
            return Ok(false);
          }
        }
        return Ok(true);
      }
      return Ok(false);
    }

    /** The consumer the dialect hands to the generic CASE rendering. */
    method RenderArm(e: Expr, rr: ResultRenderer, arm: Expr, castFirst: bool)
      requires IsCase(e) && ValidExpr(e) && |e.whens| > 0 && ValidExpr(arm)
      requires castFirst == CastsFirstResult(base, e, parameterRenderingMode)
      modifies this
      decreases arm, 2
      ensures sql == old(sql) + ArmText(base, e, rr, old(parameterRenderingMode), arm)
      ensures parameterRenderingMode == old(parameterRenderingMode)
    {
      if castFirst && arm == e.whens[0].result {
        AppendSql(base.casted(arm, parameterRenderingMode));
      } else {
        match rr
        case AcceptResult =>
          Accept(arm);
        case SuppliedRenderer(f) =>
          AppendSql(f(arm, parameterRenderingMode));
      }
    }

    /**
     * visitAnsiCaseSearchedExpression and visitAnsiCaseSimpleExpression, which
     * are the same: decide whether the first result is cast, then render the
     * generic CASE skeleton with the dialect's consumer for the result arms.
     */
    method VisitAnsiCaseExpression(e: Expr, rr: ResultRenderer)
      requires IsCase(e) && ValidExpr(e)
      modifies this
      decreases e, 0, |e.whens| + 1
      ensures sql == old(sql) + CaseText(base, e, rr, old(parameterRenderingMode))
      ensures parameterRenderingMode == old(parameterRenderingMode)
    {
      var castFirst := CastsFirstResultNow(e);
      RenderWhenArms(e, rr, castFirst);
      ghost var arms := sql;
      RenderOtherwise(e, rr, castFirst);
      AppendSql(base.caseGlue(e, ArmCount(e), parameterRenderingMode));
      assert sql == arms + OtherwiseText(base, e, rr, parameterRenderingMode) + base.caseGlue(e, ArmCount(e), parameterRenderingMode);
    }

    /** The when arms of the generic CASE skeleton, in order. */
    method RenderWhenArms(e: Expr, rr: ResultRenderer, castFirst: bool)
      requires IsCase(e) && ValidExpr(e)
      requires castFirst == CastsFirstResult(base, e, parameterRenderingMode)
      modifies this
      decreases e, 0, |e.whens|
      ensures sql == old(sql) + WhenArmsText(base, e, rr, old(parameterRenderingMode), |e.whens|)
      ensures parameterRenderingMode == old(parameterRenderingMode)
    {
      var k := 0;
      while k < |e.whens|
        invariant 0 <= k <= |e.whens|
        invariant sql == old(sql) + WhenArmsText(base, e, rr, old(parameterRenderingMode), k)
        invariant parameterRenderingMode == old(parameterRenderingMode)
      {
        RenderWhenArm(e, rr, k, castFirst);
        k := k + 1;
      }
    }

    /** One when arm: its part of the generic CASE skeleton, then its result through the dialect's consumer. */
    method RenderWhenArm(e: Expr, rr: ResultRenderer, k: nat, castFirst: bool)
      requires IsCase(e) && ValidExpr(e) && k < |e.whens|
      requires castFirst == CastsFirstResult(base, e, parameterRenderingMode)
      modifies this
      decreases e, 0, 0
      ensures sql == old(sql) + base.caseGlue(e, k, old(parameterRenderingMode))
        + ArmText(base, e, rr, old(parameterRenderingMode), e.whens[k].result)
      ensures parameterRenderingMode == old(parameterRenderingMode)
    {
      AppendSql(base.caseGlue(e, k, parameterRenderingMode));
      RenderArm(e, rr, e.whens[k].result, castFirst);
    }

    /**
     * The condition of both visitAnsiCase overrides: all results parameters under
     * DEFAULT, or all plain parameters or literals.
     */
    method CastsFirstResultNow(e: Expr) returns (castFirst: bool)
      requires IsCase(e) && |e.whens| > 0
      ensures castFirst == CastsFirstResult(base, e, parameterRenderingMode)
    {
      if parameterRenderingMode == Default && base.areAllResultsParameters(e) {
        return true;
      }
      var plain := AreAllResultsPlainParametersOrLiterals(e);
      return plain.Ok? && plain.value;
    }

    /** The otherwise arm of the generic CASE skeleton, if there is one. */
    method RenderOtherwise(e: Expr, rr: ResultRenderer, castFirst: bool)
      requires IsCase(e) && ValidExpr(e)
      requires castFirst == CastsFirstResult(base, e, parameterRenderingMode)
      modifies this
      decreases e, 0, 0
      ensures sql == old(sql) + OtherwiseText(base, e, rr, old(parameterRenderingMode))
      ensures parameterRenderingMode == old(parameterRenderingMode)
    {
      if e.otherwise.Some? {
        AppendSql(base.caseGlue(e, |e.whens|, parameterRenderingMode));
        RenderArm(e, rr, e.otherwise.value, castFirst);
      }
    }

    method VisitBooleanExpressionPredicate(p: Predicate)
      requires p.BooleanExpressionPredicate? && ValidExpr(p.expression)
      modifies this
      ensures sql == old(sql) + BooleanPredicateText(base, p, old(parameterRenderingMode))
      ensures parameterRenderingMode == old(parameterRenderingMode)
    {
      var isNegated := p.negated;
      if isNegated {
        AppendSql("not(");
      }
      Accept(p.expression);
      if isNegated {
        AppendSql(")");
      }
    }

    method RenderComparison(lhs: Expr, operator: ComparisonOperator, rhs: Expr)
      requires ValidExpr(lhs) && ValidExpr(rhs)
      modifies this
      ensures sql == old(sql) + ComparisonText(base, lhs, operator, rhs, old(parameterRenderingMode))
      ensures parameterRenderingMode == old(parameterRenderingMode)
    {
      match lhs.expressionType
      case None =>
        AppendSql(base.comparisonStandard(lhs, operator, rhs, parameterRenderingMode));
      case Some(lhsExpressionType) =>
        if operator == Equal || operator == NotEqual {
          RenderEquality(lhs, operator, rhs, lhsExpressionType.firstJdbcType);
        } else if operator == DistinctFrom || operator == NotDistinctFrom {
          RenderDistinctFrom(lhs, operator, rhs, lhsExpressionType.firstJdbcType);
        } else {
          AppendSql(base.comparisonStandard(lhs, operator, rhs, parameterRenderingMode));
        }
    }

    /** The EQUAL and NOT_EQUAL cases of renderComparison. */
    method RenderEquality(lhs: Expr, operator: ComparisonOperator, rhs: Expr, jdbcType: JdbcType)
      requires ValidExpr(lhs) && ValidExpr(rhs) && (operator == Equal || operator == NotEqual)
      modifies this
      ensures sql == old(sql) + EqualityText(base, lhs, operator, rhs, old(parameterRenderingMode), jdbcType)
      ensures parameterRenderingMode == old(parameterRenderingMode)
    {
      if jdbcType.jdbcTypeCode == ARRAY {
        ghost var before := sql;
        ghost var mode := parameterRenderingMode;
        Accept(lhs);
        AppendSql(InKeyword(operator));
        Accept(rhs);
        AppendSql(")");
        assert sql == before + RenderExpr(base, lhs, mode) + InKeyword(operator) + RenderExpr(base, rhs, mode) + ")";
      } else {
        AppendSql(base.comparisonStandard(lhs, operator, rhs, parameterRenderingMode));
      }
    }

    /** The DISTINCT_FROM and NOT_DISTINCT_FROM cases of renderComparison. */
    method RenderDistinctFrom(lhs: Expr, operator: ComparisonOperator, rhs: Expr, jdbcType: JdbcType)
      requires ValidExpr(lhs) && ValidExpr(rhs) && (operator == DistinctFrom || operator == NotDistinctFrom)
      modifies this
      ensures sql == old(sql) + DistinctFromText(base, lhs, operator, rhs, old(parameterRenderingMode), jdbcType)
      ensures parameterRenderingMode == old(parameterRenderingMode)
    {
      ghost var before := sql;
      if jdbcType.isArrayJdbcType {
        ghost var mode := parameterRenderingMode;
        Accept(lhs);
        AppendSql(if operator == DistinctFrom then "<>" else "=");
        Accept(rhs);
        assert sql == before + RenderExpr(base, lhs, mode) + (if operator == DistinctFrom then "<>" else "=") + RenderExpr(base, rhs, mode);
      } else {
        Render(lhs, NoPlainParameter);
        AppendSql(base.comparisonSqlText(operator));
        Render(rhs, NoPlainParameter);
        assert sql == before + RenderExpr(base, lhs, NoPlainParameter) + base.comparisonSqlText(operator) + RenderExpr(base, rhs, NoPlainParameter);
      }
    }

    method RenderPartitionItem(e: Expr) returns (r: Result<(), JavaException>)
      requires ValidExpr(e)
      modifies this
      ensures PartitionItemText(base, e, old(parameterRenderingMode)).Ok? ==>
        r.Ok? && sql == old(sql) + PartitionItemText(base, e, old(parameterRenderingMode)).value
      ensures PartitionItemText(base, e, old(parameterRenderingMode)).Err? ==>
        r == Err(PartitionItemText(base, e, old(parameterRenderingMode)).error) && sql == old(sql)
      ensures parameterRenderingMode == old(parameterRenderingMode)
    {
      if e.Literal? {
        AppendSql("'0' || '0'");
      } else if e.Summarization? {
        return Err(UnsupportedOperation(SummarizationNotSupported));
      } else {
        Accept(e);
      }
      return Ok(());
    }

    method VisitRecursivePath(recursivePath: Expr, sizeEstimate: int)
      requires ValidExpr(recursivePath)
      modifies this
      ensures sql == old(sql) + RecursivePathText(base, recursivePath, sizeEstimate, old(parameterRenderingMode))
      ensures parameterRenderingMode == old(parameterRenderingMode)
    {
      if sizeEstimate == -1 {
        AppendSql(base.recursivePath(recursivePath, sizeEstimate, parameterRenderingMode));
      } else {
        RenderVarcharCast(recursivePath, IntToDecimal(sizeEstimate));
      }
    }

    /** The path cast to a varchar of the given size, as visitRecursivePath writes it. */
    method RenderVarcharCast(recursivePath: Expr, size: string)
      requires ValidExpr(recursivePath)
      modifies this
      ensures sql == old(sql) + ("cast(" + RenderExpr(base, recursivePath, old(parameterRenderingMode)) + " as varchar(" + size + "))")
      ensures parameterRenderingMode == old(parameterRenderingMode)
    {
      AppendSql("cast(");
      Accept(recursivePath);
      AppendSql(" as varchar(");
      AppendSql(size);
      AppendSql("))");
    }

    /** supportsOffsetFetchClause() holds, so only the offset/fetch branch is ever taken. */
    method VisitOffsetFetchClause(queryPart: QueryPart) returns (r: Result<(), JavaException>)
      modifies this
      ensures OffsetFetchText(base, queryPart).Ok? ==> r.Ok? && sql == old(sql) + OffsetFetchText(base, queryPart).value
      ensures OffsetFetchText(base, queryPart).Err? ==> r == Err(OffsetFetchText(base, queryPart).error) && sql == old(sql)
      ensures parameterRenderingMode == old(parameterRenderingMode)
    {
      var thrown := base.assertRowsOnlyFetchClauseType(queryPart);
      if thrown.Some? {
        return Err(thrown.value);
      }
      AppendSql(base.offsetFetchClause(queryPart, true));
      return Ok(());
    }

    method RenderSelectExpression(e: Expr)
      modifies this
      ensures sql == old(sql) + base.selectExpression(e, old(parameterRenderingMode))
      ensures parameterRenderingMode == old(parameterRenderingMode)
    {
      AppendSql(base.selectExpression(e, parameterRenderingMode));
    }

    /** The tuple comparison is emulated, with the index-optimised form requested. */
    method RenderSelectTupleComparison(lhsExpressions: seq<SqlSelection>, tupleExpressions: seq<Expr>, operator: ComparisonOperator)
      modifies this
      ensures sql == old(sql) + base.emulateSelectTupleComparison(lhsExpressions, tupleExpressions, operator, true, old(parameterRenderingMode))
      ensures parameterRenderingMode == old(parameterRenderingMode)
    {
      AppendSql(base.emulateSelectTupleComparison(lhsExpressions, tupleExpressions, operator, true, parameterRenderingMode));
    }
  }
}
