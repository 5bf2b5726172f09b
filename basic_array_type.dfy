/**
 * BasicArrayType: the basic type that maps a database ARRAY to a Java array.
 *
 * The pure functions at the top state, on sequences of values, what each
 * conversion computes (or which exception it raises); the class below holds the
 * type's final fields and the methods that allocate Java arrays and fill them
 * element by element, each proved against one of those functions.
 */
module ArrayTypes {
  import opened Wrappers
  import opened JavaRuntime

  // ---------------------------------------------------------------------------
  // Element-wise conversion

  /** Applies f to every element, keeping length and order. */
  function Map<A, B>(f: A -> B, s: seq<A>): (r: seq<B>)
    ensures |r| == |s|
    ensures forall i :: 0 <= i < |s| ==> r[i] == f(s[i])
  {
    if s == [] then [] else [f(s[0])] + Map(f, s[1..])
  }

  /** Every element unboxes to kind k. */
  predicate AllBoxedAs(s: seq<Value>, k: PrimitiveKind)
  {
    forall i :: 0 <= i < |s| ==> s[i].Boxed? && s[i].kind == k
  }

  /**
   * Unboxes every element in order; the first element that does not unbox stops
   * the loop with its exception.
   */
  function UnboxAll(s: seq<Value>, k: PrimitiveKind): (r: Result<seq<Value>, JavaException>)
    ensures r.Ok? <==> AllBoxedAs(s, k)
    ensures r.Ok? ==> |r.value| == |s| && forall i :: 0 <= i < |s| ==> r.value[i] == Prim(k, s[i].bits)
    ensures r.Err? ==>
      exists j :: 0 <= j < |s| && Unbox(s[j], k) == Err(r.error) && forall i :: 0 <= i < j ==> Unbox(s[i], k).Ok?
  {
    if s == [] then Ok([])
    else
      match Unbox(s[0], k)
      case Err(e) => Err(e)
      case Ok(v) =>
        var rest := UnboxAll(s[1..], k);
        match rest
        case Err(e) =>
          ghost var j :| 0 <= j < |s| - 1 && Unbox(s[1..][j], k) == Err(e) && forall i :: 0 <= i < j ==> Unbox(s[1..][i], k).Ok?;
          assert Unbox(s[j + 1], k) == Err(e);
          Err(e)
        case Ok(vs) => Ok([v] + vs)
  }

  /** The message of the IllegalArgumentException for a class that is not one of the eight value kinds. */
  function UnrecognizedPrimitiveMessage(c: ClassRef): string
  {
    "Unrecognized primitive type class : " + ClassName(c)
  }

  /** The exception of (Object[]) Array.newInstance(c, n) for a primitive class c. */
  function ReferenceArrayFailure(c: ClassRef): JavaException
    requires IsPrimitive(c)
  {
    if c == Primitive(VoidKind) then IllegalArgument(None) else ClassCast
  }

  /** Converts a value through an element converter into the element class the driver expects. */
  datatype ValueConverter = ValueConverter(
    domainJavaType: ClassRef,
    toDomainValue: Value -> Value,
    toRelationalValue: Value -> Value,
    relationalUnwrap: (Value, ClassRef) -> Value)

  /**
   * The element class the binder converts to: the driver's preferred class when
   * there is one, otherwise the class the JDBC type recommends.
   */
  function ElementJdbcJavaTypeClass(preferred: Option<ClassRef>, recommended: ClassRef): (c: ClassRef)
    ensures preferred.Some? ==> c == preferred.value
    ensures preferred.None? ==> c == recommended
  {
    match preferred
    case Some(p) => p
    case None => recommended
  }

  /** The cells of the array the binder allocates when the element classes differ. */
  function ConvertForBinding(converter: ValueConverter, target: ClassRef, s: seq<Value>): (r: Result<seq<Value>, JavaException>)
    ensures r.Ok? <==> !IsPrimitive(target)
    ensures r.Ok? ==> |r.value| == |s|
    ensures r.Ok? ==> forall i :: 0 <= i < |s| ==>
      r.value[i] == converter.relationalUnwrap(converter.toRelationalValue(s[i]), target)
    ensures r.Err? ==> r.error == ReferenceArrayFailure(target)
  {
    if IsPrimitive(target) then Err(ReferenceArrayFailure(target))
    else Ok(Map(x => converter.relationalUnwrap(converter.toRelationalValue(x), target), s))
  }

  /** The cells of the array the extractor allocates when the element class is not the domain class. */
  function ConvertForExtraction(converter: ValueConverter, s: seq<Value>): (r: Result<seq<Value>, JavaException>)
    ensures r.Ok? <==> !IsPrimitive(converter.domainJavaType)
    ensures r.Ok? ==> |r.value| == |s| && forall i :: 0 <= i < |s| ==> r.value[i] == converter.toDomainValue(s[i])
    ensures r.Err? ==> r.error == ReferenceArrayFailure(converter.domainJavaType)
  {
    if IsPrimitive(converter.domainJavaType) then Err(ReferenceArrayFailure(converter.domainJavaType))
    else Ok(Map(converter.toDomainValue, s))
  }

  /** Converting x for binding and back for extraction gives x again. */
  predicate RestoresAt(converter: ValueConverter, target: ClassRef, x: Value)
  {
    converter.toDomainValue(converter.relationalUnwrap(converter.toRelationalValue(x), target)) == x
  }

  /** If the converter's two directions are inverse, extracting what was bound gives back the domain values. */
  lemma BindThenExtractRestores(converter: ValueConverter, target: ClassRef, s: seq<Value>)
    requires !IsPrimitive(target) && !IsPrimitive(converter.domainJavaType)
    requires forall x :: RestoresAt(converter, target, x)
    ensures ConvertForBinding(converter, target, s).Ok?
    ensures ConvertForExtraction(converter, ConvertForBinding(converter, target, s).value) == Ok(s)
  {
    var bound := ConvertForBinding(converter, target, s).value;
    var back := ConvertForExtraction(converter, bound).value;
    assert |back| == |s|;
    forall i | 0 <= i < |s| ensures back[i] == s[i] {
      assert back[i] == converter.toDomainValue(bound[i]);
      assert RestoresAt(converter, target, s[i]);
    }
    assert back == s;
  }

  // ---------------------------------------------------------------------------
  // Shape conversions of forEachJdbcValue

  /**
   * wrapperToPrimitiveArray(value, javaComponentType), given the class and the
   * cells of value.
   */
  function WrapperToPrimitive(valueComponentType: ClassRef, cells: seq<Value>, javaComponentType: ClassRef): (r: Result<seq<Value>, JavaException>)
    ensures r.Ok? <==>
      IsValueKind(javaComponentType) && (|cells| == 0 || !IsPrimitive(valueComponentType)) && AllBoxedAs(cells, javaComponentType.kind)
    ensures r.Ok? ==> |r.value| == |cells| && forall i :: 0 <= i < |cells| ==> r.value[i] == Prim(javaComponentType.kind, cells[i].bits)
    ensures javaComponentType == Primitive(VoidKind) ==> r == Err(IllegalArgument(None))
    ensures !IsPrimitive(javaComponentType) ==> r == Err(IllegalArgument(Some(UnrecognizedPrimitiveMessage(javaComponentType))))
    ensures IsValueKind(javaComponentType) && |cells| > 0 && IsPrimitive(valueComponentType) ==> r == Err(ClassCast)
  {
    if javaComponentType == Primitive(VoidKind) then Err(IllegalArgument(None))
    else if !IsValueKind(javaComponentType) then Err(IllegalArgument(Some(UnrecognizedPrimitiveMessage(javaComponentType))))
    else if |cells| > 0 && IsPrimitive(valueComponentType) then Err(ClassCast)
    else UnboxAll(cells, javaComponentType.kind)
  }

  /**
   * primitiveToWrapperArray(value, javaComponentType, valueComponentType), given
   * the actual class and the cells of value.
   */
  function PrimitiveToWrapper(actualComponentType: ClassRef, cells: seq<Value>, javaComponentType: ClassRef, valueComponentType: ClassRef): (r: Result<seq<Value>, JavaException>)
    ensures r.Ok? <==>
      !IsPrimitive(javaComponentType) && IsValueKind(valueComponentType) && (|cells| == 0 || actualComponentType == valueComponentType)
    ensures r.Ok? ==> |r.value| == |cells| && forall i :: 0 <= i < |cells| ==> r.value[i] == Box(cells[i])
    ensures IsPrimitive(javaComponentType) ==> r == Err(ReferenceArrayFailure(javaComponentType))
    ensures !IsPrimitive(javaComponentType) && !IsValueKind(valueComponentType) ==>
      r == Err(IllegalArgument(Some(UnrecognizedPrimitiveMessage(valueComponentType))))
    ensures !IsPrimitive(javaComponentType) && IsValueKind(valueComponentType) && |cells| > 0 && actualComponentType != valueComponentType ==>
      r == Err(ClassCast)
  {
    if IsPrimitive(javaComponentType) then Err(ReferenceArrayFailure(javaComponentType))
    else if !IsValueKind(valueComponentType) then Err(IllegalArgument(Some(UnrecognizedPrimitiveMessage(valueComponentType))))
    else if |cells| > 0 && actualComponentType != valueComponentType then Err(ClassCast)
    else Ok(Map(Box, cells))
  }

  /**
   * toPrimitiveArray(javaComponentType, collection) as written: the int branch
   * casts the new int[] to short[], which fails as soon as a first element is stored.
   */
  function ToPrimitive(javaComponentType: ClassRef, collection: seq<Value>): (r: Result<seq<Value>, JavaException>)
    ensures r.Ok? <==>
      IsValueKind(javaComponentType)
      && (if javaComponentType.kind == IntKind then |collection| == 0 else AllBoxedAs(collection, javaComponentType.kind))
    ensures r.Ok? ==> |r.value| == |collection| && forall i :: 0 <= i < |collection| ==> r.value[i] == Prim(javaComponentType.kind, collection[i].bits)
    ensures javaComponentType == Primitive(IntKind) && |collection| > 0 ==> r == Err(ClassCast)
    ensures !IsPrimitive(javaComponentType) ==> r == Err(IllegalArgument(Some(UnrecognizedPrimitiveMessage(javaComponentType))))
  {
    if javaComponentType == Primitive(VoidKind) then Err(IllegalArgument(None))
    else if !IsValueKind(javaComponentType) then Err(IllegalArgument(Some(UnrecognizedPrimitiveMessage(javaComponentType))))
    else if javaComponentType.kind == IntKind then (if |collection| == 0 then Ok([]) else Err(ClassCast))
    else UnboxAll(collection, javaComponentType.kind)
  }

  /** toPrimitiveArray as evidently intended: the int branch unboxes into the int[] like every other branch. */
  function ToPrimitiveIntended(javaComponentType: ClassRef, collection: seq<Value>): (r: Result<seq<Value>, JavaException>)
    ensures r.Ok? <==> IsValueKind(javaComponentType) && AllBoxedAs(collection, javaComponentType.kind)
    ensures r.Ok? ==> |r.value| == |collection| && forall i :: 0 <= i < |collection| ==> r.value[i] == Prim(javaComponentType.kind, collection[i].bits)
    ensures !IsPrimitive(javaComponentType) ==> r == Err(IllegalArgument(Some(UnrecognizedPrimitiveMessage(javaComponentType))))
  {
    if javaComponentType == Primitive(VoidKind) then Err(IllegalArgument(None))
    else if !IsValueKind(javaComponentType) then Err(IllegalArgument(Some(UnrecognizedPrimitiveMessage(javaComponentType))))
    else UnboxAll(collection, javaComponentType.kind)
  }

  /** toReferenceArray(javaComponentType, collection): the elements in iteration order. */
  function ToReference(javaComponentType: ClassRef, collection: seq<Value>): (r: Result<seq<Value>, JavaException>)
    ensures r.Ok? <==> !IsPrimitive(javaComponentType)
    ensures r.Ok? ==> r.value == collection
    ensures r.Err? ==> r.error == ReferenceArrayFailure(javaComponentType)
  {
    if IsPrimitive(javaComponentType) then Err(ReferenceArrayFailure(javaComponentType)) else Ok(collection)
  }

  // ---------------------------------------------------------------------------
  // Properties relating the conversions

  /** Boxing a well-typed primitive array and unboxing it again gives back its cells. */
  lemma BoxingRoundTrip(k: PrimitiveKind, cells: seq<Value>)
    requires IsValueKind(Primitive(k))
    requires forall i :: 0 <= i < |cells| ==> cells[i].Prim? && cells[i].kind == k
    ensures PrimitiveToWrapper(Primitive(k), cells, WrapperClass(k), Primitive(k)).Ok?
    ensures WrapperToPrimitive(WrapperClass(k), PrimitiveToWrapper(Primitive(k), cells, WrapperClass(k), Primitive(k)).value, Primitive(k))
      == Ok(cells)
  {
    var boxed := PrimitiveToWrapper(Primitive(k), cells, WrapperClass(k), Primitive(k)).value;
    assert AllBoxedAs(boxed, k);
    var back := WrapperToPrimitive(WrapperClass(k), boxed, Primitive(k)).value;
    assert |back| == |cells|;
    forall i | 0 <= i < |cells| ensures back[i] == cells[i] {
      assert boxed[i] == Box(cells[i]);
      UnboxInvertsBox(cells[i]);
    }
    assert back == cells;
  }

  /** Unboxing, then boxing again, gives back the wrapper array's cells. */
  lemma UnboxingRoundTrip(k: PrimitiveKind, cells: seq<Value>)
    requires IsValueKind(Primitive(k)) && AllBoxedAs(cells, k)
    ensures WrapperToPrimitive(WrapperClass(k), cells, Primitive(k)).Ok?
    ensures PrimitiveToWrapper(Primitive(k), WrapperToPrimitive(WrapperClass(k), cells, Primitive(k)).value, WrapperClass(k), Primitive(k))
      == Ok(cells)
  {
    var prims := WrapperToPrimitive(WrapperClass(k), cells, Primitive(k)).value;
    var back := PrimitiveToWrapper(Primitive(k), prims, WrapperClass(k), Primitive(k)).value;
    forall i | 0 <= i < |cells| ensures back[i] == cells[i] {
      assert prims[i] == Prim(k, cells[i].bits);
    }
    assert back == cells;
  }

  /**
   * Apart from int, a collection and a wrapper array with the same elements are
   * turned into the same primitive cells.
   */
  lemma CollectionAgreesWithWrapperArray(k: PrimitiveKind, s: seq<Value>)
    requires IsValueKind(Primitive(k)) && k != IntKind
    ensures ToPrimitive(Primitive(k), s) == WrapperToPrimitive(WrapperClass(k), s, Primitive(k))
  {
  }

  /** The int branch of toPrimitiveArray fails on a one-element collection that a wrapper array converts fine. */
  lemma IntCollectionDefect()
    ensures ToPrimitive(Primitive(IntKind), [Boxed(IntKind, 7)]) == Err(ClassCast)
    ensures WrapperToPrimitive(WrapperClass(IntKind), [Boxed(IntKind, 7)], Primitive(IntKind)) == Ok([Prim(IntKind, 7)])
    ensures ToPrimitiveIntended(Primitive(IntKind), [Boxed(IntKind, 7)]) == Ok([Prim(IntKind, 7)])
  {
    assert AllBoxedAs([Boxed(IntKind, 7)], IntKind);
    var unboxed := UnboxAll([Boxed(IntKind, 7)], IntKind).value;
    assert unboxed[0] == Prim(IntKind, 7);
    assert unboxed == [Prim(IntKind, 7)];
  }

  /** With the int branch corrected, a collection and a wrapper array agree for every value kind. */
  lemma IntendedAgreesWithWrapperArray(k: PrimitiveKind, s: seq<Value>)
    requires IsValueKind(Primitive(k))
    ensures ToPrimitiveIntended(Primitive(k), s) == WrapperToPrimitive(WrapperClass(k), s, Primitive(k))
  {
  }

  /** The corrected function differs from the source's only in the int branch on a non-empty collection. */
  lemma IntendedDiffersOnlyForInt(c: ClassRef, s: seq<Value>)
    ensures ToPrimitive(c, s) != ToPrimitiveIntended(c, s) ==> c == Primitive(IntKind) && |s| > 0
  {
  }

  // ---------------------------------------------------------------------------
  // The type itself

  /** An element type (baseDescriptor): its name, Java type and optional converter. */
  datatype BasicType = BasicType(name: string, javaTypeName: string, valueConverter: Option<ValueConverter>)

  /** The array's Java type descriptor: the component class, and its unwrap to another array class. */
  datatype ArrayJavaType = ArrayJavaType(componentType: ClassRef, unwrap: (JArray, ClassRef) -> Value)

  /** The binder the type hands out: the inherited JDBC binder, or the one that converts elements first. */
  datatype ValueBinder = InheritedBinder | ConvertingBinder(converter: ValueConverter)

  /** The extractor the type hands out: the inherited JDBC extractor, or the one that converts elements after. */
  datatype ValueExtractor = InheritedExtractor | ConvertingExtractor(converter: ValueConverter)

  /**
   * The literal formatter: the inherited one, or an array formatter over the
   * element Java type that delegates to the formatter it wraps.
   */
  datatype LiteralFormatter =
    | InheritedLiteralFormatter
    | JdbcLiteralFormatterArray(elementJavaTypeName: string, wrapped: LiteralFormatter)

  /** One call of the values consumer. */
  datatype ConsumedValue = ConsumedValue(offset: int, value: Value, jdbcMapping: BasicArrayType)

  /** The JdbcValuesConsumer callback, recording its calls. */
  class JdbcValuesConsumer {
    var consumed: seq<ConsumedValue>

    constructor ()
      ensures consumed == []
    {
      consumed := [];
    }

    method Consume(offset: int, value: Value, jdbcMapping: BasicArrayType)
      modifies this
      ensures consumed == old(consumed) + [ConsumedValue(offset, value, jdbcMapping)]
    {
      consumed := consumed + [ConsumedValue(offset, value, jdbcMapping)];
    }
  }

  function Cells(a: JArray?): set<object>
  {
    if a == null then {} else {a.cells}
  }

  function ResultCells<T>(r: Result<JArray?, T>): set<object>
  {
    if r.Ok? then Cells(r.value) else {}
  }

  /** r is the array holding exactly the cells expected, or the expected exception. */
  ghost predicate Materialises(r: Result<JArray, JavaException>, componentType: ClassRef, expected: Result<seq<Value>, JavaException>)
    reads if r.Ok? then {r.value.cells} else {}
  {
    match expected
    case Ok(cells) => r.Ok? && r.value.componentType == componentType && r.value.cells[..] == cells
    case Err(e) => r == Err(e)
  }

  /** The binder's getValue: null stays null, an array of the target class is passed on, any other is converted. */
  ghost predicate BinderOutcome(value: JArray?, r: Result<JArray?, JavaException>, converter: ValueConverter, target: ClassRef)
    reads Cells(value), ResultCells(r)
  {
    if value == null then r == Ok(null)
    else if value.componentType == target then r == Ok(value)
    else
      match ConvertForBinding(converter, target, value.cells[..])
      case Ok(cells) => r.Ok? && r.value != null && r.value.componentType == target && r.value.cells[..] == cells
      case Err(e) => r == Err(e)
  }

  /** The extractor's getValue: null stays null, an array of the domain class is passed on, any other is converted. */
  ghost predicate ExtractorOutcome(value: JArray?, r: Result<JArray?, JavaException>, converter: ValueConverter)
    reads Cells(value), ResultCells(r)
  {
    if value == null then r == Ok(null)
    else if value.componentType == converter.domainJavaType then r == Ok(value)
    else
      match ConvertForExtraction(converter, value.cells[..])
      case Ok(cells) => r.Ok? && r.value != null && r.value.componentType == converter.domainJavaType && r.value.cells[..] == cells
      case Err(e) => r == Err(e)
  }

  /** The consumer was called once more, at offset, with this mapping, and nothing before changed. */
  ghost predicate ConsumedOnce(before: seq<ConsumedValue>, after: seq<ConsumedValue>, offset: int, mapping: BasicArrayType)
  {
    |after| == |before| + 1 && after[..|before|] == before
    && after[|before|].offset == offset && after[|before|].jdbcMapping == mapping
  }

  function LastValue(calls: seq<ConsumedValue>): Value
    requires |calls| > 0
  {
    calls[|calls| - 1].value
  }

  function LastCells(calls: seq<ConsumedValue>): set<object>
  {
    if |calls| > 0 && LastValue(calls).ArrayRef? then {LastValue(calls).obj.cells} else {}
  }

  /**
   * forEachJdbcValue handed the consumer a new array holding the expected cells,
   * or raised the expected exception without calling the consumer.
   */
  ghost predicate DeliveredArray(r: Result<int, JavaException>, before: seq<ConsumedValue>, after: seq<ConsumedValue>,
                                 offset: int, mapping: BasicArrayType, componentType: ClassRef, expected: Result<seq<Value>, JavaException>)
    reads LastCells(after)
  {
    match expected
    case Ok(cells) =>
      r.Ok? && ConsumedOnce(before, after, offset, mapping)
      && LastValue(after).ArrayRef? && LastValue(after).obj.componentType == componentType
      && LastValue(after).obj.cells[..] == cells
    case Err(e) => r == Err(e) && after == before
  }

  /** A basic type mapping a database ARRAY to a Java array of baseDescriptor's elements. */
  class BasicArrayType {
    const baseDescriptor: BasicType
    const javaTypeDescriptor: ArrayJavaType
    const name: string := baseDescriptor.name + "[]"
    const jdbcValueBinder: ValueBinder :=
      if baseDescriptor.valueConverter.Some? then ConvertingBinder(baseDescriptor.valueConverter.value) else InheritedBinder
    const jdbcValueExtractor: ValueExtractor :=
      if baseDescriptor.valueConverter.Some? then ConvertingExtractor(baseDescriptor.valueConverter.value) else InheritedExtractor
    const jdbcLiteralFormatter: LiteralFormatter :=
      if baseDescriptor.valueConverter.Some? then JdbcLiteralFormatterArray(baseDescriptor.javaTypeName, InheritedLiteralFormatter) else InheritedLiteralFormatter

    constructor (baseDescriptor: BasicType, arrayTypeDescriptor: ArrayJavaType)
      ensures this.baseDescriptor == baseDescriptor && javaTypeDescriptor == arrayTypeDescriptor
      ensures name == baseDescriptor.name + "[]"
      ensures baseDescriptor.valueConverter.None? ==>
        jdbcValueBinder == InheritedBinder && jdbcValueExtractor == InheritedExtractor
        && jdbcLiteralFormatter == InheritedLiteralFormatter
      ensures baseDescriptor.valueConverter.Some? ==>
        jdbcValueBinder == ConvertingBinder(baseDescriptor.valueConverter.value)
        && jdbcValueExtractor == ConvertingExtractor(baseDescriptor.valueConverter.value)
        && jdbcLiteralFormatter == JdbcLiteralFormatterArray(baseDescriptor.javaTypeName, InheritedLiteralFormatter)
    {
      this.baseDescriptor := baseDescriptor;
      javaTypeDescriptor := arrayTypeDescriptor;
    }

    function GetName(): (r: string)
      ensures |r| == |baseDescriptor.name| + 2
      ensures r[..|baseDescriptor.name|] == baseDescriptor.name && r[|baseDescriptor.name|..] == "[]"
    {
      name
    }

    function GetElementType(): (t: BasicType)
      ensures t == baseDescriptor
    {
      baseDescriptor
    }

    /** A single-column type binds exactly one JDBC value. */
    function JdbcTypeCount(): nat
    {
      1
    }

    /**
     * The converting binder's getValue, with the element class the driver
     * expects already resolved from the JDBC type registry.
     */
    static method BinderGetValue(value: JArray?, converter: ValueConverter, elementJdbcJavaTypeClass: ClassRef)
      returns (r: Result<JArray?, JavaException>)
      ensures BinderOutcome(value, r, converter, elementJdbcJavaTypeClass)
      ensures r.Ok? && r.value != null && r.value != value ==> fresh(r.value.cells)
    {
      if value == null {
        return Ok(null);
      }
      if value.componentType == elementJdbcJavaTypeClass {
        return Ok(value);
      }
      var created := NewReferenceArray(elementJdbcJavaTypeClass, value.cells.Length);
      if created.Err? {
        return Err(created.error);
      }
      var newArray := created.value;
      for i := 0 to value.cells.Length
        invariant forall j :: 0 <= j < i ==>
          newArray.cells[j] == converter.relationalUnwrap(converter.toRelationalValue(value.cells[j]), elementJdbcJavaTypeClass)
      {
        newArray.cells[i] := converter.relationalUnwrap(converter.toRelationalValue(value.cells[i]), elementJdbcJavaTypeClass);
      }
      return Ok(newArray);
    }

    /** The converting extractor's getValue, applied to what the inherited extractor read. */
    static method ExtractorGetValue(value: JArray?, converter: ValueConverter) returns (r: Result<JArray?, JavaException>)
      ensures ExtractorOutcome(value, r, converter)
      ensures r.Ok? && r.value != null && r.value != value ==> fresh(r.value.cells)
    {
      if value == null {
        return Ok(null);
      }
      if value.componentType == converter.domainJavaType {
        return Ok(value);
      }
      var created := NewReferenceArray(converter.domainJavaType, value.cells.Length);
      if created.Err? {
        return Err(created.error);
      }
      var newArray := created.value;
      for i := 0 to value.cells.Length
        invariant forall j :: 0 <= j < i ==> newArray.cells[j] == converter.toDomainValue(value.cells[j])
      {
        newArray.cells[i] := converter.toDomainValue(value.cells[i]);
      }
      return Ok(newArray);
    }

    /**
     * What the type's binder hands to the JDBC binder for value; preferred and
     * recommended are the registry's answers for the element's JDBC type.
     */
    method Bind(value: JArray?, preferred: Option<ClassRef>, recommended: ClassRef) returns (r: Result<JArray?, JavaException>)
      ensures jdbcValueBinder == InheritedBinder ==> r == Ok(value)
      ensures jdbcValueBinder.ConvertingBinder? ==>
        BinderOutcome(value, r, jdbcValueBinder.converter, ElementJdbcJavaTypeClass(preferred, recommended))
    {
      match jdbcValueBinder
      case InheritedBinder =>
        r := Ok(value);
      case ConvertingBinder(converter) =>
        r := BinderGetValue(value, converter, ElementJdbcJavaTypeClass(preferred, recommended));
    }

    /** What the type's extractor returns for the array the JDBC extractor read. */
    method Extract(extracted: JArray?) returns (r: Result<JArray?, JavaException>)
      ensures jdbcValueExtractor == InheritedExtractor ==> r == Ok(extracted)
      ensures jdbcValueExtractor.ConvertingExtractor? ==> ExtractorOutcome(extracted, r, jdbcValueExtractor.converter)
    {
      match jdbcValueExtractor
      case InheritedExtractor =>
        r := Ok(extracted);
      case ConvertingExtractor(converter) =>
        r := ExtractorGetValue(extracted, converter);
    }

    /** Unboxes source into array, element by element in order, stopping at the first failure. */
    static method FillUnboxed(newArray: JArray, source: seq<Value>, k: PrimitiveKind) returns (r: Result<JArray, JavaException>)
      requires newArray.cells.Length == |source|
      modifies newArray.cells
      ensures Materialises(r, newArray.componentType, UnboxAll(source, k))
      ensures r.Ok? ==> r.value == newArray
    {
      for i := 0 to |source|
        invariant forall j :: 0 <= j < i ==> Unbox(source[j], k).Ok? && newArray.cells[j] == Prim(k, source[j].bits)
      {
        var unboxed := Unbox(source[i], k);
        if unboxed.Err? {
          return Err(unboxed.error);
        }
        newArray.cells[i] := unboxed.value;
      }
      return Ok(newArray);
    }

    static method WrapperToPrimitiveArray(value: JArray, javaComponentType: ClassRef) returns (r: Result<JArray, JavaException>)
      ensures Materialises(r, javaComponentType, WrapperToPrimitive(value.componentType, value.cells[..], javaComponentType))
      ensures r.Ok? ==> fresh(r.value.cells)
    {
      var length := value.cells.Length;
      var created := NewInstance(javaComponentType, length);
      if created.Err? {
        return Err(created.error);
      }
      var newArray := created.value;
      if !IsValueKind(javaComponentType) {
        return Err(IllegalArgument(Some(UnrecognizedPrimitiveMessage(javaComponentType))));
      }
      if length > 0 && IsPrimitive(value.componentType) {
        // (Object[]) value, evaluated when the first element is read
        return Err(ClassCast);
      }
      r := FillUnboxed(newArray, value.cells[..], javaComponentType.kind);
    }

    static method PrimitiveToWrapperArray(value: JArray, javaComponentType: ClassRef, valueComponentType: ClassRef)
      returns (r: Result<JArray, JavaException>)
      ensures Materialises(r, javaComponentType, PrimitiveToWrapper(value.componentType, value.cells[..], javaComponentType, valueComponentType))
      ensures r.Ok? ==> fresh(r.value.cells)
    {
      var length := value.cells.Length;
      var created := NewReferenceArray(javaComponentType, length);
      if created.Err? {
        return Err(created.error);
      }
      var newArray := created.value;
      if !IsValueKind(valueComponentType) {
        return Err(IllegalArgument(Some(UnrecognizedPrimitiveMessage(valueComponentType))));
      }
      for i := 0 to length
        invariant i > 0 ==> value.componentType == valueComponentType
        invariant forall j :: 0 <= j < i ==> newArray.cells[j] == Box(value.cells[j])
      {
        if value.componentType != valueComponentType {
          // the cast of value to an array of valueComponentType
          return Err(ClassCast);
        }
        newArray.cells[i] := Box(value.cells[i]);
      }
      return Ok(newArray);
    }

    /** toPrimitiveArray as written, int branch included. */
    static method ToPrimitiveArray(javaComponentType: ClassRef, collection: seq<Value>) returns (r: Result<JArray, JavaException>)
      ensures Materialises(r, javaComponentType, ToPrimitive(javaComponentType, collection))
      ensures r.Ok? ==> fresh(r.value.cells)
    {
      var created := NewInstance(javaComponentType, |collection|);
      if created.Err? {
        return Err(created.error);
      }
      var newArray := created.value;
      if !IsValueKind(javaComponentType) {
        return Err(IllegalArgument(Some(UnrecognizedPrimitiveMessage(javaComponentType))));
      }
      if javaComponentType.kind == IntKind {
        if |collection| > 0 {
          // (short[]) array on the new int[], evaluated when the first element is stored
          return Err(ClassCast);
        }
        return Ok(newArray);
      }
      r := FillUnboxed(newArray, collection, javaComponentType.kind);
    }

    /** toPrimitiveArray with the int branch storing into the int[] it allocated. */
    static method ToPrimitiveArrayCorrected(javaComponentType: ClassRef, collection: seq<Value>) returns (r: Result<JArray, JavaException>)
      ensures Materialises(r, javaComponentType, ToPrimitiveIntended(javaComponentType, collection))
      ensures r.Ok? ==> fresh(r.value.cells)
    {
      var created := NewInstance(javaComponentType, |collection|);
      if created.Err? {
        return Err(created.error);
      }
      var newArray := created.value;
      if !IsValueKind(javaComponentType) {
        return Err(IllegalArgument(Some(UnrecognizedPrimitiveMessage(javaComponentType))));
      }
      r := FillUnboxed(newArray, collection, javaComponentType.kind);
    }

    static method ToReferenceArray(javaComponentType: ClassRef, collection: seq<Value>) returns (r: Result<JArray, JavaException>)
      ensures Materialises(r, javaComponentType, ToReference(javaComponentType, collection))
      ensures r.Ok? ==> fresh(r.value.cells)
    {
      var created := NewReferenceArray(javaComponentType, |collection|);
      if created.Err? {
        return Err(created.error);
      }
      var newArray := created.value;
      // collection.toArray(array) fills the array of exactly the right size
      forall i | 0 <= i < |collection| {
        newArray.cells[i] := collection[i];
      }
      return Ok(newArray);
    }

    /**
     * Normalises value to the array shape of the type's Java component class
     * and hands it to the consumer once, at offset.
     */
    method ForEachJdbcValue(value: Value, offset: int, consumer: JdbcValuesConsumer) returns (r: Result<int, JavaException>)
      modifies consumer
      ensures r.Ok? ==> r.value == JdbcTypeCount() && ConsumedOnce(old(consumer.consumed), consumer.consumed, offset, this)
      ensures r.Err? ==> consumer.consumed == old(consumer.consumed)
      ensures r.Ok? && value.CollectionRef? ==> LastValue(consumer.consumed).ArrayRef? && fresh(LastValue(consumer.consumed).obj.cells)
      ensures value.Null? ==> r == Err(NullPointer)
      ensures !value.Null? && !value.ArrayRef? && !value.CollectionRef? ==> r == Err(IllegalState("unknown type"))
      ensures value.ArrayRef? && IsPrimitive(value.obj.componentType) && IsPrimitive(javaTypeDescriptor.componentType) ==>
        r.Ok? && LastValue(consumer.consumed) == value
      ensures value.ArrayRef? && IsPrimitive(value.obj.componentType) && !IsPrimitive(javaTypeDescriptor.componentType) ==>
        DeliveredArray(r, old(consumer.consumed), consumer.consumed, offset, this, javaTypeDescriptor.componentType,
          PrimitiveToWrapper(value.obj.componentType, value.obj.cells[..], javaTypeDescriptor.componentType, value.obj.componentType))
      ensures value.ArrayRef? && !IsPrimitive(value.obj.componentType) && IsPrimitive(javaTypeDescriptor.componentType) ==>
        DeliveredArray(r, old(consumer.consumed), consumer.consumed, offset, this, javaTypeDescriptor.componentType,
          WrapperToPrimitive(value.obj.componentType, value.obj.cells[..], javaTypeDescriptor.componentType))
      ensures value.ArrayRef? && !IsPrimitive(value.obj.componentType) && !IsPrimitive(javaTypeDescriptor.componentType) ==>
        r.Ok? && LastValue(consumer.consumed) == javaTypeDescriptor.unwrap(value.obj, javaTypeDescriptor.componentType)
      ensures value.CollectionRef? && IsPrimitive(javaTypeDescriptor.componentType) ==>
        DeliveredArray(r, old(consumer.consumed), consumer.consumed, offset, this, javaTypeDescriptor.componentType,
          ToPrimitive(javaTypeDescriptor.componentType, value.elements))
      ensures value.CollectionRef? && !IsPrimitive(javaTypeDescriptor.componentType) ==>
        DeliveredArray(r, old(consumer.consumed), consumer.consumed, offset, this, javaTypeDescriptor.componentType,
          ToReference(javaTypeDescriptor.componentType, value.elements))
    {
      var javaComponentType := javaTypeDescriptor.componentType;
      match value {
        case Null =>
          // value.getClass() on null
          return Err(NullPointer);
        case ArrayRef(a) =>
          if IsPrimitive(a.componentType) {
            if IsPrimitive(javaComponentType) {
              // primitive on both sides: passed through as it is
              consumer.Consume(offset, value, this);
            } else {
              var wrapperArray := PrimitiveToWrapperArray(a, javaComponentType, a.componentType);
              if wrapperArray.Err? {
                return Err(wrapperArray.error);
              }
              consumer.Consume(offset, ArrayRef(wrapperArray.value), this);
            }
          } else {
            if IsPrimitive(javaComponentType) {
              var primitiveArray := WrapperToPrimitiveArray(a, javaComponentType);
              if primitiveArray.Err? {
                return Err(primitiveArray.error);
              }
              consumer.Consume(offset, ArrayRef(primitiveArray.value), this);
            } else {
              // both sides are reference arrays: the Java type descriptor unwraps to the target array class
              consumer.Consume(offset, javaTypeDescriptor.unwrap(a, javaComponentType), this);
            }
          }
        case CollectionRef(elements) =>
          var newArray;
          if IsPrimitive(javaComponentType) {
            newArray := ToPrimitiveArray(javaComponentType, elements);
          } else {
            newArray := ToReferenceArray(javaComponentType, elements);
          }
          if newArray.Err? {
            return Err(newArray.error);
          }
          consumer.Consume(offset, ArrayRef(newArray.value), this);
        case _ =>
          return Err(IllegalState("unknown type"));
      }
      return Ok(JdbcTypeCount());
    }
  }
}
