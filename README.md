# MyBatis mapper binding, modelled in Dafny

This project models the binding layer of MyBatis 3: the code that turns a call on a
mapper interface into one call on the `SqlSession` and turns the session's answer
back into the method's declared return type. It has three parts.

- **Parameter naming** (`ParamNameResolver`, in `param_name_resolver.dfy`). The
  constructor walks the declared parameters once and builds a sorted table from
  position to name. A parameter's name is its `@Param` value, else its actual name
  when `useActualParamName` is on, else the decimal form of the table's current size.
  RowBounds and ResultHandler parameters are skipped and keep no entry. At call time,
  `getNamedParams` turns the argument array into null, the single raw argument, or a
  `ParamMap` that also binds the generic aliases `param1`, `param2`, ... The
  constructor and `getNamedParams` are methods with loops. Each is proved equal to a
  fold (`TableOf`, `ParamMapAfter`), and the naming rules are lemmas about those folds.
- **Command and signature resolution, and dispatch** (`sql_command.dfy`,
  `method_signature.dfy`, `mapper_method.dfy`). `SqlCommand` looks up the statement
  `Interface.method` and searches the superinterfaces depth-first. It falls back to
  FLUSH for a `@Flush` method and rejects UNKNOWN statements. `MethodSignature`
  classifies the return type and finds the unique RowBounds and ResultHandler
  positions; `getUniqueParamIndex` is a loop proved against `UniqueParamIndex`.
  `execute` dispatches on the command type and return shape. It coerces row counts,
  copies lists into arrays (`ConvertToArray` fills a Dafny `array`, unboxing and widening each element as `Array.set` does), wraps Optionals
  and refuses null for a primitive return type.
- **The invoker cache** (`mapper_proxy.dfy`). `MapperProxy` is a class whose
  `methodCache` is an object holding a `map` from method to invoker. `CachedInvoker`
  states the hit/miss frame conditions, and the invariant `Valid()` (every cached
  invoker is what a miss would build) lets `Invoke` promise that a call does what it
  would do without the cache.

Reflection is replaced by data. A parameter is a `Param` record (is it a RowBounds,
is it a ResultHandler, its `@Param` value, its actual name). A method is a
`MethodInfo` with its annotations and its return type as resolved against the mapper
interface. An interface is a tree of the interfaces it extends. A `Class` object is a
`JType` tag, and `isAssignableFrom` is answered from a table of supertypes. The
`SqlSession` is an oracle: a record of functions giving the row count, the list and
the answer for each `SessionCall`. An execution reports the one call it made and its
outcome, a value or a `Failure` that stands for the exception thrown.

`wrappers.dfy` holds `Option` and `Result`, `java.dfy` the Java runtime as data,
`mapper.dfy` interfaces and methods, and `session.dfy` the configuration, the session
calls and the failures.

## Model

| member | source | states |
|---|---|---|
| `ParamNameResolver.BuildNameTable` | src/main/java/org/apache/ibatis/reflection/ParamNameResolver.java:52-107 | the constructor's loop builds exactly the table `TableOf` describes: entries in ascending position, every position below the parameter count |
| `ParamNameResolver.TableOf` | src/main/java/org/apache/ibatis/reflection/ParamNameResolver.java:64-103 | the table after k parameters is sorted by position and holds only positions below k |
| `ParamNameResolver.PositionInTable` | src/main/java/org/apache/ibatis/reflection/ParamNameResolver.java:67-70 | a position has an entry exactly when its parameter is neither a RowBounds nor a ResultHandler; positions are the original ones |
| `ParamNameResolver.EntryNamed` | src/main/java/org/apache/ibatis/reflection/ParamNameResolver.java:74-102 | the j-th entry's name is its `@Param` value, else its actual name (when enabled), else the decimal form of j, the number of entries before it |
| `ParamNameResolver.HasParamAnnotationIff` | src/main/java/org/apache/ibatis/reflection/ParamNameResolver.java:74-76 | `hasParamAnnotation` holds exactly when some non-special parameter carries `@Param` |
| `ParamNameResolver.PositionalNames` | src/main/java/org/apache/ibatis/reflection/ParamNameResolver.java:94-102 | with no `@Param` and no actual names, the k ordinary parameters are named "0" .. "k-1" in order |
| `ParamNameResolver.AppendPositional` | src/main/java/org/apache/ibatis/reflection/ParamNameResolver.java:99 | appending the decimal form of the current size keeps every entry named by its own rank |
| `ParamNameResolver.ParamAnnotationWins` | src/main/java/org/apache/ibatis/reflection/ParamNameResolver.java:74-83 | a parameter with `@Param("s")` is entered under its own position with name s, whatever its actual name |
| `ParamNameResolver.RowBoundsExample` | src/main/java/org/apache/ibatis/reflection/ParamNameResolver.java:40-46 | `aMethod(int a, RowBounds rb, int b)` gives the table {0: "0", 2: "1"} |
| `ParamNameResolver.GetNames` | src/main/java/org/apache/ibatis/reflection/ParamNameResolver.java:120-122 | `getNames` lists the table's names, one per entry, in ascending position order |
| `ParamNameResolver.GetNamesInDeclarationOrder` | src/main/java/org/apache/ibatis/reflection/ParamNameResolver.java:120-122 | an earlier name in `getNames` belongs to an earlier parameter, and is the name that parameter was given |
| `ParamNameResolver.GetNamedParams` | src/main/java/org/apache/ibatis/reflection/ParamNameResolver.java:132-166 | the loop returns exactly `NamedParams`: null, the single raw argument, or the map `ParamMapAfter` describes |
| `ParamNameResolver.ParamMapKeys` | src/main/java/org/apache/ibatis/reflection/ParamNameResolver.java:142-161 | the map's keys are the table's names and the generic aliases that are not table names, and nothing else |
| `ParamNameResolver.ParamMapNamed` | src/main/java/org/apache/ibatis/reflection/ParamNameResolver.java:148 | a table name maps to the argument of the last entry carrying that name |
| `ParamNameResolver.ParamMapGeneric` | src/main/java/org/apache/ibatis/reflection/ParamNameResolver.java:150-158 | "param(j+1)" maps to the j-th entry's argument unless it is a table name |
| `ParamNameResolver.ParamMapBindsNames` | src/main/java/org/apache/ibatis/reflection/ParamNameResolver.java:142-161 | the finished map binds every table name to its argument |
| `ParamNameResolver.ParamMapBindsAliases` | src/main/java/org/apache/ibatis/reflection/ParamNameResolver.java:150-158 | the finished map binds every non-colliding generic alias to its entry's argument |
| `ParamNameResolver.NamedParamsShape` | src/main/java/org/apache/ibatis/reflection/ParamNameResolver.java:134-139 | null without arguments or names; the raw argument for one unannotated name; otherwise a ParamMap binding every name and alias |
| `Java.DecimalInjective` | src/main/java/org/apache/ibatis/reflection/ParamNameResolver.java:150 | different counters give different decimal forms, so generic aliases of different entries never coincide |
| `SqlCommand.ResolveMappedStatement` | src/main/java/org/apache/ibatis/binding/MapperMethod.java:298-324 | the interface's own `Interface.method` statement when it is registered; otherwise nothing when the interface is the declaring one, else the superinterface search; whatever it returns is registered |
| `SqlCommand.Candidate` | src/main/java/org/apache/ibatis/binding/MapperMethod.java:315-321 | a superinterface that is not assignable to the declaring interface contributes nothing; whatever one contributes is a registered statement |
| `SqlCommand.SearchSuperInterfaces` | src/main/java/org/apache/ibatis/binding/MapperMethod.java:314-323 | every statement the search returns is a registered one |
| `SqlCommand.SearchFindsFirst` | src/main/java/org/apache/ibatis/binding/MapperMethod.java:314-323 | the superinterface search returns the first superinterface's hit, in declaration order |
| `SqlCommand.SearchFindsAny` | src/main/java/org/apache/ibatis/binding/MapperMethod.java:314-323 | the search finds a statement exactly when some superinterface (assignable to the declaring class) yields one |
| `SqlCommand.ResolvedFromAncestor` | src/main/java/org/apache/ibatis/binding/MapperMethod.java:302-321 | a resolved statement is the one registered as `X.method` for the interface itself or one of its ancestors X |
| `SqlCommand.FirstHitExists` | src/main/java/org/apache/ibatis/binding/MapperMethod.java:314-321 | if some superinterface yields a statement, a first one does |
| `SqlCommand.NewSqlCommand` | src/main/java/org/apache/ibatis/binding/MapperMethod.java:260-288 | a found statement gives its id and type, or the unknown-execution-method error naming it when its type is UNKNOWN; not found with `@Flush`: no name and FLUSH; otherwise the invalid-bound-statement error naming `Interface.method` |
| `SqlCommand.InheritedStatement` | src/main/java/org/apache/ibatis/binding/MapperMethod.java:309-321 | a method whose declaring interface is the first direct superinterface leading to it, called through a child with no statement of its own, runs the declaring interface's statement |
| `SqlCommand.DeclaringStatementResolved` | src/main/java/org/apache/ibatis/binding/MapperMethod.java:298-324 | through any number of intermediate interfaces, when only the declaring interface registers the method, the mapper resolves to the declaring interface's statement |
| `SqlCommand.SubInterfaceResolves` | src/main/java/org/apache/ibatis/binding/MapperMethod.java:315-321 | under the same conditions, a superinterface leading to the declaring interface contributes the declaring interface's statement |
| `SqlCommand.DeclaringStatementCommand` | src/main/java/org/apache/ibatis/binding/MapperMethod.java:260-288 | such a method's SqlCommand carries the declaring interface's statement id and type |
| `MethodSignature.GetMapKey` | src/main/java/org/apache/ibatis/binding/MapperMethod.java:433-442 | a map key exactly when the erased return type is Map-assignable and `@MapKey` is present, and then it is the annotation's value |
| `MethodSignature.MatchingIndices` | src/main/java/org/apache/ibatis/binding/MapperMethod.java:418-429 | the positions scanned so far whose parameter is of the kind, strictly ascending |
| `MethodSignature.MatchingIndicesGrow` | src/main/java/org/apache/ibatis/binding/MapperMethod.java:418-429 | scanning further never loses a match |
| `MethodSignature.UniqueParamIndex` | src/main/java/org/apache/ibatis/binding/MapperMethod.java:415-431 | none when no parameter matches, the sole position when one does, an error naming the method when two do |
| `MethodSignature.GetUniqueParamIndex` | src/main/java/org/apache/ibatis/binding/MapperMethod.java:415-431 | the loop, with its early exit on the second match, returns exactly `UniqueParamIndex` |
| `MethodSignature.SignatureOf` | src/main/java/org/apache/ibatis/binding/MapperMethod.java:340-358 | succeeds exactly without two RowBounds or two ResultHandlers (RowBounds reported first); flags agree with the return type, `returnsMap` iff a map key |
| `MethodSignature.NewMethodSignature` | src/main/java/org/apache/ibatis/binding/MapperMethod.java:340-358 | the constructor as code returns exactly `SignatureOf` |
| `MethodSignature.DeclaredArgsFit` | src/main/java/org/apache/ibatis/binding/MapperMethod.java:366-380 | an argument array of the declared length covers every position the signature records |
| `MethodSignature.ExtractedSpecialArguments` | src/main/java/org/apache/ibatis/binding/MapperMethod.java:366-380 | the extractors hand over the argument at the unique RowBounds or ResultHandler position, and null when the method declares none |
| `MapperMethod.MapperMethodOf` | src/main/java/org/apache/ibatis/binding/MapperMethod.java:50-57 | built exactly when both the command and the signature are, and then it holds exactly that command and that signature; a command error wins, and a signature error is passed on when the command builds; the command is never UNKNOWN |
| `MapperMethod.NewMapperMethod` | src/main/java/org/apache/ibatis/binding/MapperMethod.java:50-57 | the constructor as code returns exactly `MapperMethodOf` |
| `MapperMethod.ParamMapGet` | src/main/java/org/apache/ibatis/binding/MapperMethod.java:246-251 | the stored value for a present key; for a missing key an error carrying the key and the available keys |
| `MapperMethod.ParamMapLookup` | src/main/java/org/apache/ibatis/binding/MapperMethod.java:246-251 | in a call's ParamMap a parameter name yields its argument, and an unknown name is an error |
| `MapperMethod.RowCountResult` | src/main/java/org/apache/ibatis/binding/MapperMethod.java:129-148 | void gives null; int/Integer and long/Long the count; boolean/Boolean whether it is positive; any other type an error |
| `MapperMethod.RowCountExamples` | src/main/java/org/apache/ibatis/binding/MapperMethod.java:136-146 | a count of 3 is true, null and 3L for boolean, void and Long methods, and an error for Object |
| `MapperMethod.StoreInto` | src/main/java/org/apache/ibatis/binding/MapperMethod.java:219-224 | what storing one element puts in the array: a primitive array refuses null and any non-wrapper, takes an Integer into int/long/float/double (widened to a Long for long), a Long into long/float/double, a Boolean only into boolean; an object array takes null or an instance of its component type, unchanged |
| `MapperMethod.StoreAll` | src/main/java/org/apache/ibatis/binding/MapperMethod.java:219-224 | every element stored in order; fails exactly when some element is refused, with the first refused element; otherwise one stored value per element |
| `MapperMethod.ArrayOf` | src/main/java/org/apache/ibatis/binding/MapperMethod.java:216-227 | an array of the component type with one stored element per list element (the list itself for an object array); fails exactly when an element is refused, naming the first one |
| `MapperMethod.RejectedAt` | src/main/java/org/apache/ibatis/binding/MapperMethod.java:219-224 | the first refused element is the one the conversion reports |
| `MapperMethod.ConvertToArray` | src/main/java/org/apache/ibatis/binding/MapperMethod.java:216-227 | storing into a new array element by element, stopping at the first refused element, returns exactly `ArrayOf` |
| `MapperMethod.IntArrayExample` | src/main/java/org/apache/ibatis/binding/MapperMethod.java:219-225 | [10, 20] becomes the int array {10, 20} |
| `MapperMethod.LongArrayExample` | src/main/java/org/apache/ibatis/binding/MapperMethod.java:219-225 | [10, 20] becomes the long array {10L, 20L}: each Integer is widened |
| `MapperMethod.RejectedElementExamples` | src/main/java/org/apache/ibatis/binding/MapperMethod.java:219-226 | a null or a Long cannot go into an int array, and a Long cannot go into an Integer array |
| `MapperMethod.BoxedArrayExample` | src/main/java/org/apache/ibatis/binding/MapperMethod.java:226 | an Integer array takes [10, null] as is |
| `MapperMethod.ExecuteWithResultHandler` | src/main/java/org/apache/ibatis/binding/MapperMethod.java:150-174 | an unregistered statement fails before any call; a non-callable statement without a result type fails (void result type: the missing-result-type error exactly then); a callable statement or one with a non-void result type makes one `select` with the caller's handler and returns null |
| `MapperMethod.ExecuteForMany` | src/main/java/org/apache/ibatis/binding/MapperMethod.java:176-194 | one `selectList`; the list itself when the return type accepts its class, else `convertToArray` for an array type, and otherwise a new collection of the return type to which every list element was appended in order; a returned list or array has one element per list element, the same elements unless it is a primitive array |
| `MapperMethod.IntArrayResult` | src/main/java/org/apache/ibatis/binding/MapperMethod.java:186-188 | a select declared to return int[] whose session answers the list [10, 20] returns the int array {10, 20} |
| `MapperMethod.ExecuteForMap` | src/main/java/org/apache/ibatis/binding/MapperMethod.java:229-239 | one `selectMap` with the method's map key, returning the session's answer |
| `MapperMethod.ExecuteForCursor` | src/main/java/org/apache/ibatis/binding/MapperMethod.java:196-206 | one `selectCursor`, returning the session's cursor as is |
| `MapperMethod.ExecuteForOne` | src/main/java/org/apache/ibatis/binding/MapperMethod.java:108-113 | one `selectOne`; without Optional the row as is; with Optional the row itself when it already has the return type's class, otherwise the row wrapped (empty for null) |
| `MapperMethod.Dispatch` | src/main/java/org/apache/ibatis/binding/MapperMethod.java:61-121 | each command type makes only its own kind of session call; no call is made only on failure; the unknown-execution-method error arises exactly for an UNKNOWN command; a SELECT is exactly the helper its return shape selects (handler, many, map, cursor, one, in that order) |
| `MapperMethod.Execute` | src/main/java/org/apache/ibatis/binding/MapperMethod.java:59-127 | the dispatched outcome, except that a null for a primitive non-void return type becomes the null-for-primitive error naming the statement and type; every call names the command's statement and passes the converted arguments |
| `MapperMethod.MutationDispatch` | src/main/java/org/apache/ibatis/binding/MapperMethod.java:62-88 | INSERT, UPDATE and DELETE make the matching call and return `rowCountResult` of its count |
| `MapperMethod.SelectDispatchOrder` | src/main/java/org/apache/ibatis/binding/MapperMethod.java:89-115 | SELECT tests void-with-handler, then many, map, cursor, and finally makes a `selectOne` |
| `MapperMethod.RowBoundsPassedExactlyWhenDeclared` | src/main/java/org/apache/ibatis/binding/MapperMethod.java:164-173 | a select passes a RowBounds exactly when the method declares one, and passes that argument |
| `MapperMethod.FlushDispatch` | src/main/java/org/apache/ibatis/binding/MapperMethod.java:116-126 | FLUSH calls `flushStatements` and returns its answer, for every return type; a null answer for a primitive non-void return type is the null-for-primitive error |
| `MapperMethod.SelectOneNullPrimitive` | src/main/java/org/apache/ibatis/binding/MapperMethod.java:122-125 | a primitive method whose `selectOne` finds nothing fails instead of returning null |
| `MapperMethod.BuiltMethodsKnown` | src/main/java/org/apache/ibatis/binding/MapperMethod.java:119-120 | a built MapperMethod never reaches the unknown-execution-method error, and only FLUSH lacks a statement name |
| `MapperProxy.InvokerFor` | src/main/java/org/apache/ibatis/binding/MapperProxy.java:104-123 | a default method gets a call-through invoker; any other a PlainMethodInvoker around its new MapperMethod, or that constructor's error |
| `MapperProxy.MethodCache.constructor` | src/main/java/org/apache/ibatis/binding/MapperProxy.java:47 | a new cache is empty |
| `MapperProxy.MapperProxy.constructor` | src/main/java/org/apache/ibatis/binding/MapperProxy.java:49-53 | the proxy keeps its session, interface and shared cache, and is in a valid state when the cache starts empty |
| `MapperProxy.MapperProxy.CachedInvoker` | src/main/java/org/apache/ibatis/binding/MapperProxy.java:100-128 | hit: the stored invoker, cache unchanged; miss: exactly one entry added for this method; failure: nothing stored, the error passed on |
| `MapperProxy.InvocationOf` | src/main/java/org/apache/ibatis/binding/MapperProxy.java:85-98 | a method declared by Object runs on the handler itself; any other method whose invoker cannot be built fails with that construction error |
| `MapperProxy.MapperProxy.Invoke` | src/main/java/org/apache/ibatis/binding/MapperProxy.java:85-98 | Object methods run on the handler and leave the cache alone; other calls do what they would do without a cache |
| `MapperProxy.InvokeTwice` | src/main/java/org/apache/ibatis/binding/MapperProxy.java:104 | a caller invoking one method twice gets the same result both times, and the cache gains no key but that method (exactly that key on a first successful build) |
| `MapperProxy.RunInvoker` | src/main/java/org/apache/ibatis/binding/MapperProxy.java:176-194 | a PlainMethodInvoker returns exactly what `execute` returns; a DefaultMethodInvoker runs the method's body with the proxy as receiver and the call's arguments |
| `MapperProxy.PlainCallExecutes` | src/main/java/org/apache/ibatis/binding/MapperProxy.java:176-178 | a plain method's call returns exactly `execute` of its MapperMethod, or the constructor's error |
| `MapperProxy.DefaultCallRunsBody` | src/main/java/org/apache/ibatis/binding/MapperProxy.java:190-194 | a default method runs its own body with the proxy as receiver |

## Left out

- Method-handle lookup and the JDK 8 / JDK 9 detection: a default method's invoker is the abstract "run the body on the proxy" (`RanDefaultBody`). Errors while acquiring a method handle are not modelled.
- Concurrency: `computeIfAbsent` on a `ConcurrentHashMap` is modelled as a sequential lookup-then-insert.
- The SQL session's behaviour: it is an oracle whose answers are arbitrary functions of the call. Cursor laziness and closing are not modelled.
- `convertToDeclaredCollection`: the object factory and `MetaObject.addAll` are foreign calls. Their result is the value `CreatedV(type, elements)`.
- `ParamNameUtil.getParamNames` and `TypeParameterResolver.resolveReturnType` are inputs (`Param.actualName` and `MethodInfo.resolvedReturnType`).
- `ExceptionUtil.unwrapThrowable` and the unwrapping of a RuntimeException's cause in `cachedInvoker` are not modelled: every failure is a `Failure` value with no cause chain. The BindingExceptions raised here have no cause, so they are passed on as themselves.
- Exception message text: a `Failure` keeps only what identifies the error (the `Interface.method` name, the parameter kind, the missing key and the available keys).
- `MapperMethod.StoreInto`: float and double arrays hold an int or long element as the exact integer it came from, so the rounding of a widening to float is not modelled. Wrapper objects of byte, short, char, float and double are not modelled as values.
- `MapperMethod.ExecuteForMany`: the collection made for a declared collection type is `CreatedV(type, elements)`, the elements appended to it in order. What the collection then holds is not modelled: a `Set` drops duplicate rows and need not keep their order.
- `MapperMethod.Execute`: does not model the ClassCastException the proxy raises when the answer does not fit the declared return type.
- `MapperMethod.ExecuteWithResultHandler`: the statement lookup through the session's configuration fails with `StatementNotRegistered` rather than Java's IllegalArgumentException text. An empty result-map list is `NoResultMap`, in place of an index error.
- Java's 64-bit `long` only receives a widened 32-bit count, so no overflow arises. Integer boxing identity is not modelled.
- Serializable and the serial version fields.
