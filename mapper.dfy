/** A mapper interface and its methods as data: what the binding layer reads
    through reflection and annotations. */
module Mapper {
  import opened Wrappers
  import opened Java
  import opened ParamNameResolver

  /** A mapper interface and, in declaration order, the interfaces it extends. */
  datatype Interface = Interface(name: string, interfaces: seq<Interface>)

  /** `declaringClass.isAssignableFrom(i)` for an interface i: i is the named
      interface or extends it. */
  predicate Extends(i: Interface, declaringClass: string)
    decreases i
  {
    i.name == declaringClass || exists s :: s in i.interfaces && Extends(s, declaringClass)
  }

  /** x is i or one of its ancestors. */
  ghost predicate Reaches(i: Interface, x: Interface)
    decreases i
  {
    i == x || exists s :: s in i.interfaces && Reaches(s, x)
  }

  /** What the generic-type resolver reports for a method's return type, seen
      through the mapper interface: a class, a parameterized type (with its raw
      class), or anything else (a type variable, a wildcard, a generic array). */
  datatype ResolvedType = ClassType(cls: JType) | ParameterizedType(rawType: JType) | OtherType

  /** A mapper method, with its annotations. */
  datatype MethodInfo = MethodInfo(
    declaringClass: string,
    name: string,
    params: seq<Param>,
    returnType: JType,                 // method.getReturnType(), the erased type
    resolvedReturnType: ResolvedType,  // the return type resolved against the mapper interface
    mapKey: Option<string>,            // the value of @MapKey, if present
    flush: bool,                       // @Flush is present
    isDefault: bool)                   // the method has a default body in its interface
}
