/**
 * The small part of the Java runtime the array marshalling depends on: classes
 * (as a closed enumeration instead of reflection), boxed and primitive values,
 * arrays with identity and a component class, and the exceptions that casts,
 * unboxing and Array.newInstance raise.
 */
module JavaRuntime {
  import opened Wrappers

  /** The primitive classes: the eight value kinds, and void (void.class.isPrimitive() holds too). */
  datatype PrimitiveKind =
    | BooleanKind | CharKind | ByteKind | ShortKind | IntKind | LongKind | FloatKind | DoubleKind
    | VoidKind

  /** A java.lang.Class: a primitive class, or a reference class known by its name. */
  datatype ClassRef = Primitive(kind: PrimitiveKind) | Reference(name: string)

  /** The exceptions the modelled code can raise. A missing message is one the Java runtime chooses. */
  datatype JavaException =
    | NullPointer
    | ClassCast
    | IndexOutOfBounds
    | IllegalArgument(detail: Option<string>)
    | IllegalState(message: string)
    | UnsupportedOperation(message: string)

  function PrimitiveName(k: PrimitiveKind): string
  {
    match k
    case BooleanKind => "boolean"
    case CharKind => "char"
    case ByteKind => "byte"
    case ShortKind => "short"
    case IntKind => "int"
    case LongKind => "long"
    case FloatKind => "float"
    case DoubleKind => "double"
    case VoidKind => "void"
  }

  /** Class.getName() */
  function ClassName(c: ClassRef): string
  {
    match c
    case Primitive(k) => PrimitiveName(k)
    case Reference(n) => n
  }

  /** Class.isPrimitive() */
  predicate IsPrimitive(c: ClassRef)
  {
    c.Primitive?
  }

  /** The primitive classes that have values, that is all of them but void. */
  predicate IsValueKind(c: ClassRef)
  {
    c.Primitive? && c.kind != VoidKind
  }

  /**
   * A Java value. Primitive and boxed values carry their kind and an opaque
   * payload (their bits); the payload is only ever copied, never computed with.
   */
  datatype Value =
    | Null
    | Prim(kind: PrimitiveKind, bits: int)
    | Boxed(kind: PrimitiveKind, bits: int)
    | Instance(id: nat)
    | ArrayRef(obj: JArray)
    | CollectionRef(elements: seq<Value>)

  /** A Java array object: its component class is fixed at creation, its cells can be written. */
  class JArray {
    const componentType: ClassRef
    const cells: array<Value>

    constructor (componentType: ClassRef, length: nat)
      ensures this.componentType == componentType
      ensures fresh(cells) && cells.Length == length
    {
      this.componentType := componentType;
      cells := new Value[length];
    }
  }

  /** The wrapper class auto-boxing uses for a primitive kind (Integer for int, Void for void). */
  function WrapperClass(k: PrimitiveKind): (c: ClassRef)
    ensures !IsPrimitive(c)
  {
    match k
    case BooleanKind => Reference("java.lang.Boolean")
    case CharKind => Reference("java.lang.Character")
    case ByteKind => Reference("java.lang.Byte")
    case ShortKind => Reference("java.lang.Short")
    case IntKind => Reference("java.lang.Integer")
    case LongKind => Reference("java.lang.Long")
    case FloatKind => Reference("java.lang.Float")
    case DoubleKind => Reference("java.lang.Double")
    case VoidKind => Reference("java.lang.Void")
  }

  /** Auto-boxing of a value read from a primitive array. */
  function Box(v: Value): (r: Value)
    ensures v.Prim? ==> r.Boxed? && r.kind == v.kind && r.bits == v.bits
    ensures !v.Prim? ==> r == v
  {
    match v
    case Prim(k, b) => Boxed(k, b)
    case _ => v
  }

  /**
   * A cast to the wrapper class of k followed by auto-unboxing: null fails with
   * a NullPointerException, anything but a wrapper of kind k with a ClassCastException.
   */
  function Unbox(v: Value, k: PrimitiveKind): (r: Result<Value, JavaException>)
    ensures r.Ok? <==> v.Boxed? && v.kind == k
    ensures r.Ok? ==> r.value == Prim(k, v.bits)
    ensures v.Null? ==> r == Err(NullPointer)
    ensures !v.Null? && !r.Ok? ==> r == Err(ClassCast)
  {
    match v
    case Null => Err(NullPointer)
    case Boxed(k', b) => if k' == k then Ok(Prim(k, b)) else Err(ClassCast)
    case _ => Err(ClassCast)
  }

  /** Unboxing a boxed primitive as its own kind gives back the primitive. */
  lemma UnboxInvertsBox(v: Value)
    requires v.Prim?
    ensures Unbox(Box(v), v.kind) == Ok(v)
  {
  }

  /** Array.newInstance(componentType, length): creating an array of void fails. */
  method NewInstance(componentType: ClassRef, length: nat) returns (r: Result<JArray, JavaException>)
    ensures componentType == Primitive(VoidKind) <==> r.Err?
    ensures r.Err? ==> r.error == IllegalArgument(None)
    ensures r.Ok? ==> fresh(r.value.cells) && r.value.componentType == componentType && r.value.cells.Length == length
  {
    if componentType == Primitive(VoidKind) {
      return Err(IllegalArgument(None));
    }
    var a := new JArray(componentType, length);
    return Ok(a);
  }

  /**
   * (Object[]) Array.newInstance(componentType, length): the new array must also
   * be an array of references, so a primitive component class fails the cast.
   */
  method NewReferenceArray(componentType: ClassRef, length: nat) returns (r: Result<JArray, JavaException>)
    ensures r.Ok? <==> !IsPrimitive(componentType)
    ensures r.Err? ==> r.error == (if componentType == Primitive(VoidKind) then IllegalArgument(None) else ClassCast)
    ensures r.Ok? ==> fresh(r.value.cells) && r.value.componentType == componentType && r.value.cells.Length == length
  {
    r := NewInstance(componentType, length);
    if r.Ok? && IsPrimitive(componentType) {
      r := Err(ClassCast);
    }
  }
}
