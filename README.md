# Hibernate ORM: array basic type, HSQL dialect rules and the in-list-array predicate

This Dafny project models three pieces of Hibernate ORM and proves properties of them.

- **`BasicArrayType`** is the basic type that maps a database ARRAY to a Java array of some element type.
  - If the element type has a value converter, the JDBC binder and extractor convert the array element by element. Both keep an identity fast path.
  - Before binding, `forEachJdbcValue` reshapes a value into an array of the Java component class. The value can be a primitive array, a wrapper array or a `Collection`. The result goes to the values consumer exactly once.
- **`HSQLSqlAstTranslator`** holds the HSQL dialect's overrides of the SQL AST translator:
  - the `not(...)` form of boolean predicates;
  - the varchar cast of recursive CTE paths;
  - the decision to cast the first arm of a CASE whose results are all plain parameters or literals;
  - array equality written as `IN(...)`, and the two distinct-from forms;
  - the `'0' || '0'` partition item and the refusal of summarizations;
  - `mod(...)` and parenthesised arithmetic;
  - the native offset/fetch clause;
  - the constant capability flags and the FROM-dual text.
- **`InListArrayPredicate`** is the immutable AST node with four chained constructors.

Files:

- `wrappers.dfy` holds `Option` and `Result`. Together they stand for Java's `null` and for thrown exceptions.
- `java_runtime.dfy` (module `JavaRuntime`) models the runtime behaviour the array code depends on:
  - `Class` objects as a closed enumeration of the primitive classes, `void` included, plus named reference classes;
  - boxed and primitive values;
  - arrays as objects with identity and writable cells;
  - the exceptions that casts, unboxing and `Array.newInstance` raise.
- `basic_array_type.dfy` (module `ArrayTypes`) has these parts:
  - pure functions on sequences. Each states what one conversion produces, or which exception it raises;
  - the class `BasicArrayType`. Its final fields are `const`s. Its methods allocate arrays and fill them in loops, and each method is proved against one of those functions. The exception is `ToReferenceArray`: it fills its array with a `forall` statement, which stands for `collection.toArray(array)`;
  - the values consumer, a class that records each call made to it.
- `sql_ast.dfy` (module `SqlAst`) holds the expressions and predicates the dialect looks at, and the `InListArrayPredicate` node. Java compares AST nodes by reference. Every node carries an `id`, so equality of model values stands for identity of Java nodes.
- `hsql_rules.dfy` (module `HsqlRules`) gives the SQL text each override produces, as pure functions of the node and the parameter rendering mode, and proves the dialect's rules about it. What the generic translator renders is a `BaseRenderer` of uninterpreted functions.
- `hsql_translator.dfy` (module `HsqlTranslation`) holds the class `HsqlTranslator`:
  - it has a SQL buffer and a parameter rendering mode;
  - its visit and render methods append to the buffer and switch the mode around nested renders;
  - each method is proved to append exactly the text `HsqlRules` gives for the mode in force at the call, and to restore that mode.

## Model

| member | source | states |
|---|---|---|
| ArrayTypes.UnboxAll | hibernate-core/src/main/java/org/hibernate/type/BasicArrayType.java:344-383 | All elements unbox exactly when each one is a wrapper of the target kind. The result keeps length and order, and element i is the primitive of input element i. Otherwise the exception is that of the first element that fails. |
| ArrayTypes.ElementJdbcJavaTypeClass | hibernate-core/src/main/java/org/hibernate/type/BasicArrayType.java:80-91 | The binder's target element class is the driver's preferred class when there is one, else the JDBC type's recommended class. |
| ArrayTypes.ConvertForBinding | hibernate-core/src/main/java/org/hibernate/type/BasicArrayType.java:96-105 | The converted array has the input's length, and element i is `unwrap(toRelationalValue(value[i]), target)`. A primitive target class fails as the `(Object[])` cast of `Array.newInstance` does. |
| ArrayTypes.ConvertForExtraction | hibernate-core/src/main/java/org/hibernate/type/BasicArrayType.java:134-141 | The converted array has the input's length and order, and element i is `toDomainValue(value[i])`. A primitive domain class fails. |
| ArrayTypes.BindThenExtractRestores | hibernate-core/src/main/java/org/hibernate/type/BasicArrayType.java:73-142 | If the converter's two directions are inverse, extracting what the binder produced gives back the original domain elements. |
| ArrayTypes.WrapperToPrimitive | hibernate-core/src/main/java/org/hibernate/type/BasicArrayType.java:338-388 | Conversion succeeds exactly when the target is one of the eight value kinds and every element is a wrapper of that kind. The result keeps length and order. A `void` target gives `IllegalArgumentException` from `Array.newInstance`, and a reference class gives "Unrecognized primitive type class : " and its name. A non-empty primitive input array fails the `(Object[])` cast with `ClassCastException`. |
| ArrayTypes.PrimitiveToWrapper | hibernate-core/src/main/java/org/hibernate/type/BasicArrayType.java:390-439 | Conversion succeeds exactly when the target is a reference class, the value class is a value kind, and a non-empty input has that class. Element i is input element i boxed. A primitive target fails the `(Object[])` cast: `ClassCastException`, or `IllegalArgumentException` for `void`. A value class outside the eight kinds gives the "Unrecognized primitive type class" exception. A non-empty input whose actual class is not the value class fails the primitive-array cast with `ClassCastException`. |
| ArrayTypes.ToPrimitive | hibernate-core/src/main/java/org/hibernate/type/BasicArrayType.java:271-328 | This is `toPrimitiveArray` as written. It succeeds exactly for a value-kind class with every element a wrapper of that kind. For `int`, it succeeds only on an empty collection, and a non-empty one raises `ClassCastException`. The result has length `collection.size()` and follows iteration order. A reference class gives the "Unrecognized primitive type class" exception. |
| ArrayTypes.ToPrimitiveIntended | hibernate-core/src/main/java/org/hibernate/type/BasicArrayType.java:271-328 | This is `toPrimitiveArray` with the int branch unboxing into the `int[]`. It succeeds exactly for a value-kind class with every element a wrapper of that kind, in iteration order. |
| ArrayTypes.ToReference | hibernate-core/src/main/java/org/hibernate/type/BasicArrayType.java:330-336 | `toReferenceArray` gives exactly the collection's elements in iteration order. It fails only for a primitive component class. |
| ArrayTypes.BoxingRoundTrip | hibernate-core/src/main/java/org/hibernate/type/BasicArrayType.java:338-439 | Boxing a primitive array of one value kind into that kind's wrapper class (`Integer[]` for `int`) and unboxing it again gives back its cells. |
| ArrayTypes.UnboxingRoundTrip | hibernate-core/src/main/java/org/hibernate/type/BasicArrayType.java:338-439 | Unboxing an array of one kind's wrappers and boxing it into that wrapper class again gives back its cells. |
| ArrayTypes.CollectionAgreesWithWrapperArray | hibernate-core/src/main/java/org/hibernate/type/BasicArrayType.java:271-328 | For every value kind except `int`, a collection and an array of that kind's wrapper class with the same elements become the same primitive cells or the same exception. |
| ArrayTypes.IntCollectionDefect | hibernate-core/src/main/java/org/hibernate/type/BasicArrayType.java:300-305 | The one-element collection `[Integer 7]` fails with `ClassCastException` for `int`. The same element in a wrapper array, and the corrected function, give `[7]`. |
| ArrayTypes.IntendedAgreesWithWrapperArray | hibernate-core/src/main/java/org/hibernate/type/BasicArrayType.java:271-328 | With the int branch corrected, a collection and an array of the kind's wrapper class agree for all eight value kinds. |
| ArrayTypes.IntendedDiffersOnlyForInt | hibernate-core/src/main/java/org/hibernate/type/BasicArrayType.java:300-305 | The source's `toPrimitiveArray` and the corrected one differ only for `int` on a non-empty collection. |
| ArrayTypes.BasicArrayType.constructor | hibernate-core/src/main/java/org/hibernate/type/BasicArrayType.java:46-177 | The name is the element name followed by `[]`. With a converter, the binder and extractor are the converting ones, and the literal formatter is the array formatter over the element's Java type wrapping the inherited formatter. Without one, all three are exactly the inherited ones. |
| ArrayTypes.BasicArrayType.GetName | hibernate-core/src/main/java/org/hibernate/type/BasicArrayType.java:49 | The name is the element type's name with `[]` appended, and nothing else. |
| ArrayTypes.BasicArrayType.GetElementType | hibernate-core/src/main/java/org/hibernate/type/BasicArrayType.java:179-182 | It returns the element type given to the constructor. |
| ArrayTypes.BasicArrayType.BinderGetValue | hibernate-core/src/main/java/org/hibernate/type/BasicArrayType.java:69-106 | Null maps to null. An array whose component class is the target is returned as the same object. Any other array gives a new array holding `ConvertForBinding`'s cells, or that function's exception. |
| ArrayTypes.BasicArrayType.ExtractorGetValue | hibernate-core/src/main/java/org/hibernate/type/BasicArrayType.java:126-142 | Null maps to null. An array of the domain class is returned as it is. Any other array gives a new array holding `ConvertForExtraction`'s cells, or that function's exception. |
| ArrayTypes.BasicArrayType.Bind | hibernate-core/src/main/java/org/hibernate/type/BasicArrayType.java:56-67 | The inherited binder receives the value unchanged when there is no converter. Otherwise it receives what the converting `getValue` produced. |
| ArrayTypes.BasicArrayType.Extract | hibernate-core/src/main/java/org/hibernate/type/BasicArrayType.java:108-124 | The inherited extractor's result is returned unchanged when there is no converter. Otherwise it goes through the converting `getValue`. |
| ArrayTypes.BasicArrayType.WrapperToPrimitiveArray | hibernate-core/src/main/java/org/hibernate/type/BasicArrayType.java:338-388 | The method returns a new array of the target class whose cells are what `WrapperToPrimitive` gives, or that function's exception. |
| ArrayTypes.BasicArrayType.PrimitiveToWrapperArray | hibernate-core/src/main/java/org/hibernate/type/BasicArrayType.java:390-439 | The method returns a new array of the target class whose cells are what `PrimitiveToWrapper` gives, or that function's exception. |
| ArrayTypes.BasicArrayType.ToPrimitiveArray | hibernate-core/src/main/java/org/hibernate/type/BasicArrayType.java:271-328 | The method returns a new array whose cells are what `ToPrimitive` gives, or that function's exception. The int branch is included. |
| ArrayTypes.BasicArrayType.ToPrimitiveArrayCorrected | hibernate-core/src/main/java/org/hibernate/type/BasicArrayType.java:271-328 | The method returns a new array whose cells are what `ToPrimitiveIntended` gives, or that function's exception. |
| ArrayTypes.BasicArrayType.ToReferenceArray | hibernate-core/src/main/java/org/hibernate/type/BasicArrayType.java:330-336 | The method returns a new array holding the collection's elements in iteration order, or the cast failure for a primitive class. |
| ArrayTypes.BasicArrayType.ForEachJdbcValue | hibernate-core/src/main/java/org/hibernate/type/BasicArrayType.java:214-269 | Null gives `NullPointerException`. A value that is neither an array nor a collection gives `IllegalStateException("unknown type")`. A primitive array against a primitive component class is passed through untouched. A reference array against a reference component class goes through the Java type descriptor's `unwrap`. Every other shape is converted by the matching function, and a collection always becomes a new array. On success, the consumer is called exactly once, at the given offset, with this type, and the result is `getJdbcTypeCount()`. On failure it is not called. |
| SqlAst.NewInListArrayPredicate | hibernate-core/src/main/java/org/hibernate/sql/ast/tree/predicate/InListArrayPredicate.java:34-42 | The four getters return exactly the four constructor arguments. |
| SqlAst.NewInListArrayPredicateOf | hibernate-core/src/main/java/org/hibernate/sql/ast/tree/predicate/InListArrayPredicate.java:28-32 | It keeps the test and array expressions. The node is not negated and has no expression type. |
| SqlAst.NewNegatableInListArrayPredicate | hibernate-core/src/main/java/org/hibernate/sql/ast/tree/predicate/InListArrayPredicate.java:24-26 | The node has no array expression, and `negated` and the expression type are kept as given. |
| SqlAst.NewTestOnlyInListArrayPredicate | hibernate-core/src/main/java/org/hibernate/sql/ast/tree/predicate/InListArrayPredicate.java:20-22 | The node has no array expression, is not negated and has no expression type. |
| SqlAst.GetTestExpression | hibernate-core/src/main/java/org/hibernate/sql/ast/tree/predicate/InListArrayPredicate.java:44-46 | The node is exactly its test expression together with its other three fields, so the getter returns what the constructor stored. |
| SqlAst.GetArrayExpression | hibernate-core/src/main/java/org/hibernate/sql/ast/tree/predicate/InListArrayPredicate.java:48-50 | The node is exactly its array expression, which may be null, together with its other three fields. |
| SqlAst.ConstructorsChain | hibernate-core/src/main/java/org/hibernate/sql/ast/tree/predicate/InListArrayPredicate.java:20-32 | Each shorter constructor is the full one with null, false and null filled in. |
| SqlAst.Accept | hibernate-core/src/main/java/org/hibernate/sql/ast/tree/predicate/InListArrayPredicate.java:52-55 | Accept makes exactly one walker call, `visitInListArrayPredicate`, with this node. |
| HsqlRules.RenderExpr | hibernate-core/src/main/java/org/hibernate/dialect/HSQLSqlAstTranslator.java:314-332 | A CASE that is `accept`ed renders through the dialect's CASE override with `accept` as its result renderer. Leaves render through the generic translator. The arithmetic branch of these lines is stated by HsqlRules.ArithmeticIgnoresMode and HsqlRules.ModuloRendersModFunction. |
| HsqlRules.AllResultsPlainParametersOrLiterals | hibernate-core/src/main/java/org/hibernate/dialect/HSQLSqlAstTranslator.java:148-188 | Under NO_PLAIN_PARAMETER, the condition holds exactly when every when result is a literal. All-literal results always pass. A when result that is neither a parameter nor a literal always fails it. |
| HsqlRules.CastsFirstResult | hibernate-core/src/main/java/org/hibernate/dialect/HSQLSqlAstTranslator.java:102-103 | Under DEFAULT, the first arm is cast exactly when all results are parameters, or every when result is a parameter or a literal. Under NO_PLAIN_PARAMETER, it is cast exactly when every when result is a literal, whatever `areAllResultsParameters` says. |
| HsqlRules.CaseText | hibernate-core/src/main/java/org/hibernate/dialect/HSQLSqlAstTranslator.java:98-146 | The CASE text is the when arms in order, then the otherwise arm if there is one, then the closing part of the skeleton. |
| HsqlRules.BooleanPredicateText | hibernate-core/src/main/java/org/hibernate/dialect/HSQLSqlAstTranslator.java:49-59 | The text is the expression's text. When negated, it is that text wrapped in `not(` and `)`, and nothing else. |
| HsqlRules.ComparisonText | hibernate-core/src/main/java/org/hibernate/dialect/HSQLSqlAstTranslator.java:219-267 | With no expression type on the left, or for any operator other than EQUAL, NOT_EQUAL, DISTINCT_FROM and NOT_DISTINCT_FROM, the text is the standard comparison. |
| HsqlRules.PartitionItemText | hibernate-core/src/main/java/org/hibernate/dialect/HSQLSqlAstTranslator.java:269-283 | Any literal becomes `'0' \|\| '0'`. Rendering fails exactly for a summarization, with `UnsupportedOperationException("Summarization is not supported by DBMS")`. Anything else renders as usual. |
| HsqlRules.RecursivePathText | hibernate-core/src/main/java/org/hibernate/dialect/HSQLSqlAstTranslator.java:78-92 | A size estimate of -1 gives the generic rendering. Any other estimate gives `cast(` path ` as varchar(` size `))`, where the size text parses back as the estimate. |
| HsqlRules.OffsetFetchText | hibernate-core/src/main/java/org/hibernate/dialect/HSQLSqlAstTranslator.java:195-204 | The limit/offset emulation is never used. The clause fails exactly when the rows-only check raises, with that exception, and otherwise is the native offset/fetch clause rendered with `true`. |
| HsqlRules.SupportsOffsetFetchClause | hibernate-core/src/main/java/org/hibernate/dialect/HSQLSqlAstTranslator.java:310-312 | HSQL has the standard OFFSET/FETCH clause. |
| HsqlRules.SupportsArrayConstructor | hibernate-core/src/main/java/org/hibernate/dialect/HSQLSqlAstTranslator.java:61-64 | Array constructors are supported. |
| HsqlRules.SupportsWithClauseInSubquery | hibernate-core/src/main/java/org/hibernate/dialect/HSQLSqlAstTranslator.java:66-70 | Correlations in the WITH clause of a subquery are not supported. |
| HsqlRules.SupportsRecursiveClauseArrayAndRowEmulation | hibernate-core/src/main/java/org/hibernate/dialect/HSQLSqlAstTranslator.java:72-76 | Recursive CTEs are not emulated with arrays or rows. |
| HsqlRules.SupportsFilterClause | hibernate-core/src/main/java/org/hibernate/dialect/HSQLSqlAstTranslator.java:190-193 | The FILTER clause is supported. |
| HsqlRules.SupportsRowValueConstructorSyntax | hibernate-core/src/main/java/org/hibernate/dialect/HSQLSqlAstTranslator.java:285-288 | Row value constructors are not supported. |
| HsqlRules.SupportsRowValueConstructorSyntaxInInList | hibernate-core/src/main/java/org/hibernate/dialect/HSQLSqlAstTranslator.java:290-293 | Row value constructors are not supported in IN lists. |
| HsqlRules.SupportsRowValueConstructorSyntaxInQuantifiedPredicates | hibernate-core/src/main/java/org/hibernate/dialect/HSQLSqlAstTranslator.java:295-298 | Row value constructors are not supported in quantified predicates. |
| HsqlRules.FromDual | hibernate-core/src/main/java/org/hibernate/dialect/HSQLSqlAstTranslator.java:300-303 | The dual table is ` from (values(0))`, a one-row VALUES table. |
| HsqlRules.FromDualForSelectOnly | hibernate-core/src/main/java/org/hibernate/dialect/HSQLSqlAstTranslator.java:305-308 | Selects without a table use the same ` from (values(0))`. |
| HsqlRules.ParameterResultRulesOutNoPlainCondition | hibernate-core/src/main/java/org/hibernate/dialect/HSQLSqlAstTranslator.java:151-159 | Under NO_PLAIN_PARAMETER, a single parameter among the when results makes the condition false, and with it the cast decision. |
| HsqlRules.AllParameterCaseCastsFirstArm | hibernate-core/src/main/java/org/hibernate/dialect/HSQLSqlAstTranslator.java:94-116 | Under DEFAULT rendering mode, a CASE whose when results are all parameters renders its first result through `renderCasted`, so HSQL gets one typed arm. (Under NO_PLAIN_PARAMETER a parameter result rules the cast out; HsqlRules.ParameterResultRulesOutNoPlainCondition states that.) |
| HsqlRules.OnlyFirstResultIsCast | hibernate-core/src/main/java/org/hibernate/dialect/HSQLSqlAstTranslator.java:104-116 | Only an arm identical to the first result is ever cast. Every other arm, and every arm when the condition fails, goes to the caller's result renderer. |
| HsqlRules.UncastCaseIsDelegated | hibernate-core/src/main/java/org/hibernate/dialect/HSQLSqlAstTranslator.java:118-120 | When the condition fails, the CASE text is exactly the generic rendering with the caller's result renderer. |
| HsqlRules.ArithmeticIgnoresMode | hibernate-core/src/main/java/org/hibernate/dialect/HSQLSqlAstTranslator.java:325-331 | Other operators render `(` l op r `)` with both operands under NO_PLAIN_PARAMETER, so the text is the same in either surrounding mode. |
| HsqlRules.ModuloRendersModFunction | hibernate-core/src/main/java/org/hibernate/dialect/HSQLSqlAstTranslator.java:317-324 | MODULO renders `mod(l,r)`, with both operands in the surrounding mode. |
| HsqlRules.NegationWrapsInNot | hibernate-core/src/main/java/org/hibernate/dialect/HSQLSqlAstTranslator.java:50-59 | A negated boolean predicate is the un-negated text wrapped in `not(` ... `)`. The un-negated text is the expression's text alone. |
| HsqlRules.ArrayEqualityBecomesInList | hibernate-core/src/main/java/org/hibernate/dialect/HSQLSqlAstTranslator.java:226-247 | With an ARRAY type code on the left, EQUAL renders `lhs IN(rhs)` and NOT_EQUAL renders `lhs NOT IN(rhs)`, around the same operand texts. |
| HsqlRules.NonArrayEqualityIsStandard | hibernate-core/src/main/java/org/hibernate/dialect/HSQLSqlAstTranslator.java:233-235 | EQUAL and NOT_EQUAL on any other typed left side go to the standard comparison. |
| HsqlRules.ArrayDistinctFromIsInequality | hibernate-core/src/main/java/org/hibernate/dialect/HSQLSqlAstTranslator.java:248-255 | On an array JDBC type, DISTINCT_FROM renders `lhs<>rhs` and NOT_DISTINCT_FROM renders `lhs=rhs`. |
| HsqlRules.DistinctFromAvoidsPlainParameters | hibernate-core/src/main/java/org/hibernate/dialect/HSQLSqlAstTranslator.java:256-261 | Otherwise, both operands render under NO_PLAIN_PARAMETER around the operator's SQL text, so the text does not depend on the surrounding mode. |
| HsqlRules.RecursivePathCastsToVarchar | hibernate-core/src/main/java/org/hibernate/dialect/HSQLSqlAstTranslator.java:79-92 | A size estimate other than -1 renders as `cast(` path ` as varchar(` size `))`, where the size text reads back as the estimate. |
| HsqlRules.NatToDecimal | hibernate-core/src/main/java/org/hibernate/dialect/HSQLSqlAstTranslator.java:89 | The decimal text of a natural number is non-empty, all digits, and has no leading zero. |
| HsqlRules.NatToDecimalRoundTrip | hibernate-core/src/main/java/org/hibernate/dialect/HSQLSqlAstTranslator.java:89 | Reading the digits back gives the number. |
| HsqlRules.IntToDecimalRoundTrip | hibernate-core/src/main/java/org/hibernate/dialect/HSQLSqlAstTranslator.java:89 | `String.valueOf(int)` is an optional minus sign followed by digits, and parses back to the int. |
| HsqlTranslation.HsqlTranslator.constructor | hibernate-core/src/main/java/org/hibernate/dialect/HSQLSqlAstTranslator.java:40-42 | A new translator has an empty SQL buffer and DEFAULT parameter rendering. |
| HsqlTranslation.HsqlTranslator.RenderExpressionAsClauseItem | hibernate-core/src/main/java/org/hibernate/dialect/HSQLSqlAstTranslator.java:44-47 | It appends the expression's own rendering in the current mode and leaves the mode unchanged. |
| HsqlTranslation.HsqlTranslator.VisitBinaryArithmeticExpression | hibernate-core/src/main/java/org/hibernate/dialect/HSQLSqlAstTranslator.java:314-332 | It appends exactly the arithmetic text for the current mode, and the mode is the same after the nested NO_PLAIN_PARAMETER renders. |
| HsqlTranslation.HsqlTranslator.RenderModFunction | hibernate-core/src/main/java/org/hibernate/dialect/HSQLSqlAstTranslator.java:317-324 | For MODULO it appends `mod(`, the left operand accepted in the current mode, a comma, the right operand likewise, then `)`. The mode is unchanged. |
| HsqlTranslation.HsqlTranslator.RenderInfixArithmetic | hibernate-core/src/main/java/org/hibernate/dialect/HSQLSqlAstTranslator.java:325-331 | For any other operator it appends `(`, the left operand rendered under NO_PLAIN_PARAMETER, the operator's SQL text, the right operand likewise, then `)`. The mode afterwards is the mode before. |
| HsqlTranslation.HsqlTranslator.AreAllResultsPlainParametersOrLiterals | hibernate-core/src/main/java/org/hibernate/dialect/HSQLSqlAstTranslator.java:148-188 | The early-return loop of both overloads answers true exactly when every when result is a literal, or a parameter under DEFAULT. A CASE without when fragments raises `IndexOutOfBoundsException` at `get(0)`. |
| HsqlTranslation.HsqlTranslator.CastsFirstResultNow | hibernate-core/src/main/java/org/hibernate/dialect/HSQLSqlAstTranslator.java:102-103 | It returns exactly the cast decision for the current mode. |
| HsqlTranslation.HsqlTranslator.RenderArm | hibernate-core/src/main/java/org/hibernate/dialect/HSQLSqlAstTranslator.java:108-115 | The lambda appends the casted first result, or what the caller's renderer gives. |
| HsqlTranslation.HsqlTranslator.VisitAnsiCaseExpression | hibernate-core/src/main/java/org/hibernate/dialect/HSQLSqlAstTranslator.java:98-146 | Both CASE overrides append exactly `CaseText` for the current mode: the skeleton with the when arms in order, then the otherwise arm, with the cast decision applied. |
| HsqlTranslation.HsqlTranslator.VisitBooleanExpressionPredicate | hibernate-core/src/main/java/org/hibernate/dialect/HSQLSqlAstTranslator.java:49-59 | It appends the predicate text, wrapped in `not(...)` exactly when negated. |
| HsqlTranslation.HsqlTranslator.RenderComparison | hibernate-core/src/main/java/org/hibernate/dialect/HSQLSqlAstTranslator.java:219-267 | It appends exactly `ComparisonText` for the current mode and restores the mode. |
| HsqlTranslation.HsqlTranslator.RenderEquality | hibernate-core/src/main/java/org/hibernate/dialect/HSQLSqlAstTranslator.java:226-247 | The EQUAL and NOT_EQUAL cases append `IN(`/`NOT IN(` for an ARRAY type code, and the standard comparison otherwise. |
| HsqlTranslation.HsqlTranslator.RenderDistinctFrom | hibernate-core/src/main/java/org/hibernate/dialect/HSQLSqlAstTranslator.java:248-262 | The distinct-from cases append `<>`/`=` for an array JDBC type. Otherwise they append NO_PLAIN_PARAMETER operands around the operator text. |
| HsqlTranslation.HsqlTranslator.RenderPartitionItem | hibernate-core/src/main/java/org/hibernate/dialect/HSQLSqlAstTranslator.java:269-283 | It appends `PartitionItemText`. For a summarization it appends nothing and raises the exception. |
| HsqlTranslation.HsqlTranslator.VisitRecursivePath | hibernate-core/src/main/java/org/hibernate/dialect/HSQLSqlAstTranslator.java:78-92 | It appends the generic recursive path for -1, and the varchar cast with the decimal size otherwise. |
| HsqlTranslation.HsqlTranslator.RenderVarcharCast | hibernate-core/src/main/java/org/hibernate/dialect/HSQLSqlAstTranslator.java:86-90 | The five appends produce `cast(` path ` as varchar(` size `))`. |
| HsqlTranslation.HsqlTranslator.VisitOffsetFetchClause | hibernate-core/src/main/java/org/hibernate/dialect/HSQLSqlAstTranslator.java:195-204 | It checks rows-only fetching first and appends nothing if that raises. Otherwise it appends the native offset/fetch clause. |
| HsqlTranslation.HsqlTranslator.RenderSelectExpression | hibernate-core/src/main/java/org/hibernate/dialect/HSQLSqlAstTranslator.java:206-209 | Select expressions always go to the casted-or-inlined-plain-parameters rendering. |
| HsqlTranslation.HsqlTranslator.RenderSelectTupleComparison | hibernate-core/src/main/java/org/hibernate/dialect/HSQLSqlAstTranslator.java:211-217 | Tuple comparisons are always emulated, with the index-optimised form requested (`true`). |

## Left out

- JDBC I/O is not modelled: `PreparedStatement`, `CallableStatement`, `ResultSet` and `SQLException`. `Bind` returns what the inherited binder would receive, and `Extract` takes what the inherited extractor read.
- Registry and type-configuration lookups are not modelled. For the binder, the driver's preferred class and the recommended class are parameters of `Bind`, and `ElementJdbcJavaTypeClass` chooses between them.
- Converter internals are not modelled. `toRelationalValue`, `toDomainValue`, the relational `unwrap` and the array Java type's `unwrap` are uninterpreted functions. Element values are opaque payloads that are only copied, boxed and unboxed, so float and double semantics do not arise.
- `JdbcLiteralFormatterArray` is not part of this model. The constructor records only which formatter the type holds: the element's Java type and the inherited formatter it wraps.
- The generic translator's renderers are uninterpreted functions of `BaseRenderer`. This covers `renderComparisonStandard`, `renderCasted`, the generic ANSI CASE skeleton around the result arms, `areAllResultsParameters`, the generic recursive path, select-expression rendering, `emulateSelectTupleComparison`, the operators' SQL text, `assertRowsOnlyFetchClauseType`, `renderOffsetFetchClause` and `renderLimitOffsetClause`. Literals, parameters, columns and other leaves render through `leaf`. When-clause conditions are part of the CASE skeleton, so the model does not follow them into the dialect's predicate rendering.
- Only the DEFAULT and NO_PLAIN_PARAMETER rendering modes are modelled. The generic `render` does not switch modes under INLINE_ALL_PARAMETERS, and that mode is not modelled.
- Rendering requires every CASE, at every level, to have at least one when fragment (`ValidExpr`). On an empty CASE the source fails with `IndexOutOfBoundsException` in the cast decision. `HsqlTranslator.AreAllResultsPlainParametersOrLiterals` models that failure; the rendering functions do not carry it.
- An expression type with no JDBC mapping is not modelled: `getJdbcMappings().get(0)` is assumed to exist.
- The generic translator passes each CASE's result renderer along, and the model assumes the one that `accept`s the node for nested CASEs. Callers can supply any other with `SuppliedRenderer`.
- The model assumes a `ComparisonPredicate` reaches `renderComparison`.
- `HsqlTranslator.VisitOffsetFetchClause`: the limit/offset branch cannot be taken, because `supportsOffsetFetchClause()` is constantly true (lines 310-312). The method therefore has no such branch; `HsqlRules.OffsetFetchText` keeps it.
- `ArrayStoreException` is not modelled. Storing a converted or boxed element into an array whose component class does not accept it would raise it.
- `Array.getLength` and the cast of element values to the array's own element type are assumed to succeed on Java's well-typed arrays.
- `ArrayTypes.BasicArrayType.ForEachJdbcValue` states the source's behaviour, including the int-branch `ClassCastException` (see Findings). `ToPrimitiveArrayCorrected` is the drop-in replacement for its collection path.
- `ArrayTypes.BasicArrayType.ForEachJdbcValue`: values bound past the first are not covered. The type is single-column, so `getJdbcTypeCount()` is 1.
- `resolveIndicatedType` is not modelled; it returns `this`.
- `registerUnderJavaType` is not modelled; it is a constant `true`.
- The commented-out converter code is not modelled.
- The integer `sizeEstimate` of `visitRecursivePath` is unbounded. `String.valueOf` is modelled for any integer, which includes Java's 32-bit range.
- The two test files need a live database and an SQL statement inspector. The `= ANY(?)` and `IN(UNNEST(?))` forms they check are produced by code that is not part of this model.

## Findings

| source | as written | input that shows it | evidently intended | confidence | as-written member | corrected member |
|---|---|---|---|---|---|---|
| hibernate-core/src/main/java/org/hibernate/type/BasicArrayType.java:300-305 | The `int` branch of `toPrimitiveArray` casts the new `int[]` to `short[]` and each element to `Short`. Storing the first element raises `ClassCastException`. | A collection holding the single `Integer` 7, with `int` as the component class | Unbox each `Integer` into the `int[]`, as the other seven branches and `wrapperToPrimitiveArray` do | not executed | ArrayTypes.IntCollectionDefect | ArrayTypes.IntendedAgreesWithWrapperArray |
