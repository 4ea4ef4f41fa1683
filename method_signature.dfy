/** What a mapper method's signature tells the binding layer: the shape of its
    return type, its @MapKey, where its RowBounds and ResultHandler parameters
    sit, and how its other parameters are named. */
module MethodSignature {
  import opened Wrappers
  import opened Java
  import opened Mapper
  import opened Session
  import opened ParamNameResolver

  datatype MethodSignature = MethodSignature(
    returnsMany: bool,
    returnsMap: bool,
    returnsVoid: bool,
    returnsCursor: bool,
    returnsOptional: bool,
    returnType: JType,
    mapKey: Option<string>,
    resultHandlerIndex: Option<nat>,
    rowBoundsIndex: Option<nat>,
    paramNameResolver: NameTable)

  /** The return type as a class: the resolved class, the raw class of a
      parameterized type, and otherwise the method's erased return type. */
  function ReturnTypeOf(m: MethodInfo): JType {
    match m.resolvedReturnType
    case ClassType(cls) => cls
    case ParameterizedType(rawType) => rawType
    case OtherType => m.returnType
  }

  /** `getMapKey`: the @MapKey value, kept only when the method's declared (erased)
      return type is a Map. */
  function GetMapKey(config: Configuration, m: MethodInfo): (r: Option<string>)
    ensures r.Some? <==> IsAssignableFrom(config.classes, MapClass, m.returnType) && m.mapKey.Some?
    ensures r.Some? ==> r == m.mapKey
  {
    if IsAssignableFrom(config.classes, MapClass, m.returnType) && m.mapKey.Some? then m.mapKey
    else None
  }

  /** `kind.isAssignableFrom(p's type)`. */
  predicate Matches(p: Param, kind: SpecialKind) {
    match kind
    case RowBoundsKind => p.isRowBounds
    case ResultHandlerKind => p.isResultHandler
  }

  predicate StrictlyAscending(s: seq<nat>) {
    forall j, k :: 0 <= j < k < |s| ==> s[j] < s[k]
  }

  /** The positions below n whose parameter is of the given kind, in ascending order. */
  function MatchingIndices(params: seq<Param>, kind: SpecialKind, n: nat): (r: seq<nat>)
    requires n <= |params|
    ensures forall i :: i in r <==> 0 <= i < n && Matches(params[i], kind)
    ensures StrictlyAscending(r)
    decreases n
  {
    if n == 0 then []
    else
      var r := MatchingIndices(params, kind, n - 1);
      if Matches(params[n - 1], kind) then
        assert forall j :: 0 <= j < |r| ==> r[j] in r;
        r + [n - 1]
      else r
  }

  /** Scanning further never loses a match already found. */
  lemma {:induction false} MatchingIndicesGrow(params: seq<Param>, kind: SpecialKind, i: nat, n: nat)
    requires i <= n <= |params|
    ensures |MatchingIndices(params, kind, i)| <= |MatchingIndices(params, kind, n)|
    decreases n - i
  {
    if i < n {
      MatchingIndicesGrow(params, kind, i, n - 1);
    }
  }

  /** The position of the one parameter of the given kind, if there is one. */
  predicate IsUniqueIndex(params: seq<Param>, kind: SpecialKind, index: Option<nat>) {
    && (index.None? <==> forall i :: 0 <= i < |params| ==> !Matches(params[i], kind))
    && (index.Some? ==>
          && index.value < |params| && Matches(params[index.value], kind)
          && forall i :: 0 <= i < |params| && i != index.value ==> !Matches(params[i], kind))
  }

  /** Two different parameters are of the given kind. */
  predicate HasTwo(params: seq<Param>, kind: SpecialKind) {
    exists i, j :: 0 <= i < j < |params| && Matches(params[i], kind) && Matches(params[j], kind)
  }

  /** `getUniqueParamIndex`: no such parameter, the position of the only one, or an
      error naming the method when there are several. */
  function UniqueParamIndex(m: MethodInfo, kind: SpecialKind): (r: Result<Option<nat>, Failure>)
    ensures r.Ok? <==> !HasTwo(m.params, kind)
    ensures r.Ok? ==> IsUniqueIndex(m.params, kind, r.value)
    ensures r.Err? ==> r.error == MultipleSpecialParameters(m.name, kind)
  {
    var found := MatchingIndices(m.params, kind, |m.params|);
    if |found| == 0 then Ok(None)
    else if |found| == 1 then
      assert found[0] in found;
      Ok(Some(found[0]))
    else
      assert found[0] in found && found[1] in found;
      Err(MultipleSpecialParameters(m.name, kind))
  }

  /** The constructor's loop: remembers the first match and fails on the second. */
  method GetUniqueParamIndex(m: MethodInfo, kind: SpecialKind) returns (r: Result<Option<nat>, Failure>)
    ensures r == UniqueParamIndex(m, kind)
  {
    var index: Option<nat> := None;
    for i := 0 to |m.params|
      invariant |MatchingIndices(m.params, kind, i)| <= 1
      invariant index.None? <==> |MatchingIndices(m.params, kind, i)| == 0
      invariant index.Some? ==> index == Some(MatchingIndices(m.params, kind, i)[0])
    {
      assert MatchingIndices(m.params, kind, i + 1) ==
        if Matches(m.params[i], kind) then MatchingIndices(m.params, kind, i) + [i]
        else MatchingIndices(m.params, kind, i);
      if Matches(m.params[i], kind) {
        if index.None? {
          index := Some(i);
        } else {
          MatchingIndicesGrow(m.params, kind, i + 1, |m.params|);
          return Err(MultipleSpecialParameters(m.name, kind));
        }
      }
    }
    return Ok(index);
  }

  /** The MethodSignature constructor. The RowBounds position is looked for before the
      ResultHandler position, so a method with two of each reports the RowBounds. */
  function SignatureOf(config: Configuration, m: MethodInfo): (r: Result<MethodSignature, Failure>)
    ensures r.Ok? <==> !HasTwo(m.params, RowBoundsKind) && !HasTwo(m.params, ResultHandlerKind)
    ensures r.Err? ==> r.error == MultipleSpecialParameters(m.name,
      if HasTwo(m.params, RowBoundsKind) then RowBoundsKind else ResultHandlerKind)
    ensures r.Ok? ==> Describes(config, m, r.value)
  {
    var rowBoundsIndex :- UniqueParamIndex(m, RowBoundsKind);
    var resultHandlerIndex :- UniqueParamIndex(m, ResultHandlerKind);
    var returnType := ReturnTypeOf(m);
    var mapKey := GetMapKey(config, m);
    Ok(MethodSignature(
      returnsMany := IsCollection(config, returnType) || returnType.ArrayT?,
      returnsMap := mapKey.Some?,
      returnsVoid := returnType == VoidT,
      returnsCursor := returnType == CursorClass,
      returnsOptional := returnType == OptionalClass,
      returnType := returnType,
      mapKey := mapKey,
      resultHandlerIndex := resultHandlerIndex,
      rowBoundsIndex := rowBoundsIndex,
      paramNameResolver := NameTableOf(m.params, config.useActualParamName)))
  }

  /** What a signature built for m records: flags that agree with the return type,
      the @MapKey only for a Map-returning method, the unique special positions and
      the method's name table. */
  predicate Describes(config: Configuration, m: MethodInfo, sig: MethodSignature) {
    && sig.returnType == ReturnTypeOf(m)
    && (sig.returnsVoid <==> sig.returnType == VoidT)
    && (sig.returnsMany <==> IsCollection(config, sig.returnType) || sig.returnType.ArrayT?)
    && (sig.returnsCursor <==> sig.returnType == CursorClass)
    && (sig.returnsOptional <==> sig.returnType == OptionalClass)
    && (sig.returnsMap <==> sig.mapKey.Some?)
    && sig.mapKey == GetMapKey(config, m)
    && IsUniqueIndex(m.params, RowBoundsKind, sig.rowBoundsIndex)
    && IsUniqueIndex(m.params, ResultHandlerKind, sig.resultHandlerIndex)
    && sig.paramNameResolver == NameTableOf(m.params, config.useActualParamName)
  }

  /** The constructor as code: two scans for special parameters, then the name table. */
  method NewMethodSignature(config: Configuration, m: MethodInfo) returns (r: Result<MethodSignature, Failure>)
    ensures r == SignatureOf(config, m)
  {
    var rowBoundsIndex := GetUniqueParamIndex(m, RowBoundsKind);
    if rowBoundsIndex.Err? {
      return Err(rowBoundsIndex.error);
    }
    var resultHandlerIndex := GetUniqueParamIndex(m, ResultHandlerKind);
    if resultHandlerIndex.Err? {
      return Err(resultHandlerIndex.error);
    }
    var returnType := ReturnTypeOf(m);
    var mapKey := GetMapKey(config, m);
    var names := BuildNameTable(m.params, config.useActualParamName);
    r := Ok(MethodSignature(
      returnsMany := IsCollection(config, returnType) || returnType.ArrayT?,
      returnsMap := mapKey.Some?,
      returnsVoid := returnType == VoidT,
      returnsCursor := returnType == CursorClass,
      returnsOptional := returnType == OptionalClass,
      returnType := returnType,
      mapKey := mapKey,
      resultHandlerIndex := resultHandlerIndex.value,
      rowBoundsIndex := rowBoundsIndex.value,
      paramNameResolver := names));
  }

  /** An argument array the signature can be applied to: every recorded position is
      inside it, and without an array there are no special parameters to extract. */
  predicate ArgsFit(sig: MethodSignature, args: Option<seq<Value>>) {
    match args
    case None => sig.rowBoundsIndex.None? && sig.resultHandlerIndex.None?
    case Some(a) =>
      && (sig.rowBoundsIndex.Some? ==> sig.rowBoundsIndex.value < |a|)
      && (sig.resultHandlerIndex.Some? ==> sig.resultHandlerIndex.value < |a|)
      && IndicesBelow(sig.paramNameResolver, |a|)
  }

  /** The arguments of a call (one per declared parameter, or no array for a method
      without parameters) always fit the method's signature. */
  lemma DeclaredArgsFit(config: Configuration, m: MethodInfo, sig: MethodSignature, args: Option<seq<Value>>)
    requires Describes(config, m, sig)
    requires args.Some? ==> |args.value| == |m.params|
    requires args.None? ==> |m.params| == 0
    ensures ArgsFit(sig, args)
  {
    if args.Some? {
      var t := TableOf(m.params, config.useActualParamName, |m.params|);
      assert forall e :: e in t.names ==> e.index < |m.params|;
    }
  }

  /** `extractRowBounds`: the RowBounds argument, or null without one. */
  function ExtractRowBounds(sig: MethodSignature, args: Option<seq<Value>>): Value
    requires ArgsFit(sig, args)
  {
    if sig.rowBoundsIndex.Some? then args.value[sig.rowBoundsIndex.value] else Null
  }

  /** `extractResultHandler`: the ResultHandler argument, or null without one. */
  function ExtractResultHandler(sig: MethodSignature, args: Option<seq<Value>>): Value
    requires ArgsFit(sig, args)
  {
    if sig.resultHandlerIndex.Some? then args.value[sig.resultHandlerIndex.value] else Null
  }

  /** `convertArgsToSqlCommandParam`. */
  function ConvertArgs(sig: MethodSignature, args: Option<seq<Value>>): Value
    requires ArgsFit(sig, args)
  {
    NamedParams(sig.paramNameResolver, args)
  }

  /** The extractors hand over exactly the argument at the unique RowBounds or
      ResultHandler position. */
  lemma ExtractedSpecialArguments(config: Configuration, m: MethodInfo, sig: MethodSignature, args: seq<Value>)
    requires Describes(config, m, sig) && |args| == |m.params|
    requires ArgsFit(sig, Some(args))
    ensures forall i :: 0 <= i < |m.params| && m.params[i].isRowBounds ==>
      ExtractRowBounds(sig, Some(args)) == args[i]
    ensures forall i :: 0 <= i < |m.params| && m.params[i].isResultHandler ==>
      ExtractResultHandler(sig, Some(args)) == args[i]
    ensures (forall i :: 0 <= i < |m.params| ==> !m.params[i].isRowBounds) ==>
      ExtractRowBounds(sig, Some(args)) == Null
    ensures (forall i :: 0 <= i < |m.params| ==> !m.params[i].isResultHandler) ==>
      ExtractResultHandler(sig, Some(args)) == Null
  {
    forall i | 0 <= i < |m.params| && m.params[i].isRowBounds
      ensures ExtractRowBounds(sig, Some(args)) == args[i]
    {
      assert Matches(m.params[i], RowBoundsKind);
    }
    forall i | 0 <= i < |m.params| && m.params[i].isResultHandler
      ensures ExtractResultHandler(sig, Some(args)) == args[i]
    {
      assert Matches(m.params[i], ResultHandlerKind);
    }
  }
}
