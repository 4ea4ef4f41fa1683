/** The small part of the Java runtime the binding layer depends on, as plain data:
    class objects become type tags, objects become runtime values, and
    Class.isAssignableFrom is answered from a table of supertypes. */
module Java {
  import opened Wrappers

  /** Java's `int`: row counts and sizes arrive as 32-bit values. */
  type Int32 = x: int | -0x8000_0000 <= x < 0x8000_0000

  /** Java's `long`. */
  type Int64 = x: int | -0x8000_0000_0000_0000 <= x < 0x8000_0000_0000_0000

  datatype PrimKind = IntK | LongK | BooleanK | ByteK | ShortK | CharK | FloatK | DoubleK

  /** A `Class<?>` object: `void.class`, a primitive class, an array class, or a named class or interface. */
  datatype JType =
    | VoidT
    | Prim(kind: PrimKind)
    | ArrayT(component: JType)
    | ClassT(name: string)

  const ObjectName := "java.lang.Object"
  const IntegerClass := ClassT("java.lang.Integer")
  const LongClass := ClassT("java.lang.Long")
  const BooleanClass := ClassT("java.lang.Boolean")
  const OptionalClass := ClassT("java.util.Optional")
  const CursorClass := ClassT("org.apache.ibatis.cursor.Cursor")
  const MapClass := ClassT("java.util.Map")
  const CollectionClass := ClassT("java.util.Collection")
  const ParamMapClass := ClassT("org.apache.ibatis.binding.MapperMethod$ParamMap")

  /** `Class.isPrimitive()`: true for the eight primitive classes and for `void.class`. */
  predicate IsPrimitive(t: JType) {
    t.VoidT? || t.Prim?
  }

  /** For every loaded class, the names of all its proper supertypes (transitively closed). */
  datatype ClassTable = ClassTable(supertypes: map<string, set<string>>)

  /** `to.isAssignableFrom(from)`. */
  predicate IsAssignableFrom(ct: ClassTable, to: JType, from: JType)
    decreases to
  {
    if to == from then true
    else match (to, from)
      case (ClassT(t), ClassT(f)) => t == ObjectName || (f in ct.supertypes && t in ct.supertypes[f])
      case (ClassT(t), ArrayT(_)) => t in {ObjectName, "java.lang.Cloneable", "java.io.Serializable"}
      case (ArrayT(a), ArrayT(b)) => !IsPrimitive(a) && !IsPrimitive(b) && IsAssignableFrom(ct, a, b)
      case _ => false
  }

  /** A runtime value the binding layer passes around. Values the layer never looks
      inside (RowBounds, ResultHandler, maps and cursors from the session, entities)
      are `Obj`: an object of a class, told apart by an identity. An `Obj` is never
      of a wrapper class: a boxed int, long or boolean is always `IntV`, `LongV` or
      `BoolV`. */
  datatype Value =
    | Null
    | IntV(i: Int32)                        // java.lang.Integer
    | LongV(l: Int64)                       // java.lang.Long
    | BoolV(b: bool)                        // java.lang.Boolean
    | ParamMapV(entries: map<string, Value>)
    | ListV(cls: JType, elems: seq<Value>)  // a java.util.List of runtime class `cls`
    | ArrayV(component: JType, elems: seq<Value>)
    | OptionalV(content: Option<Value>)
    | CreatedV(cls: JType, appended: seq<Value>)  // made by the object factory, then filled by addAll
    | Obj(cls: JType, id: nat)

  /** `v.getClass()`; None stands for a null receiver. */
  function ClassOf(v: Value): Option<JType> {
    match v
    case Null => None
    case IntV(_) => Some(IntegerClass)
    case LongV(_) => Some(LongClass)
    case BoolV(_) => Some(BooleanClass)
    case ParamMapV(_) => Some(ParamMapClass)
    case ListV(c, _) => Some(c)
    case ArrayV(c, _) => Some(ArrayT(c))
    case OptionalV(_) => Some(OptionalClass)
    case CreatedV(c, _) => Some(c)
    case Obj(c, _) => Some(c)
  }

  function Digit(d: nat): char
    requires d < 10
  {
    (48 + d) as char
  }

  /** `String.valueOf(n)` for a non-negative n. */
  function Decimal(n: nat): (s: string)
    ensures 1 <= |s|
    decreases n
  {
    if n < 10 then [Digit(n)] else Decimal(n / 10) + [Digit(n % 10)]
  }

  /** Different numbers have different decimal forms. */
  lemma {:induction false} DecimalInjective(a: nat, b: nat)
    requires Decimal(a) == Decimal(b)
    ensures a == b
    decreases a
  {
    var s := Decimal(a);
    if 10 <= a && 10 <= b {
      var n := |s|;
      assert Digit(a % 10) == s[n - 1] == Digit(b % 10);
      assert Decimal(a / 10) == s[..n - 1] == Decimal(b / 10);
      DecimalInjective(a / 10, b / 10);
    }
  }

  /** Names built from one prefix and two different numbers differ. */
  lemma PrefixedDecimalInjective(prefix: string, a: nat, b: nat)
    requires prefix + Decimal(a) == prefix + Decimal(b)
    ensures a == b
  {
    var s := prefix + Decimal(a);
    assert Decimal(a) == s[|prefix|..] == Decimal(b);
    DecimalInjective(a, b);
  }
}
