/** A mapper method bound to its statement: how a call's arguments become one SQL
    session call, and how the session's answer becomes the method's return value. */
module MapperMethod {
  import opened Wrappers
  import opened Java
  import opened Mapper
  import opened Session
  import opened ParamNameResolver
  import opened SqlCommand
  import opened MethodSignature

  datatype MapperMethod = MapperMethod(command: SqlCommand, signature: MethodSignature)

  /** The MapperMethod constructor: the SqlCommand first, then the MethodSignature,
      so a missing statement is reported before a bad signature. */
  function MapperMethodOf(config: Configuration, mapperInterface: Interface, m: MethodInfo)
    : (r: Result<MapperMethod, Failure>)
    ensures r.Ok? <==> NewSqlCommand(config, mapperInterface, m).Ok? && SignatureOf(config, m).Ok?
    ensures NewSqlCommand(config, mapperInterface, m).Err? ==> r.Err? && r.error == NewSqlCommand(config, mapperInterface, m).error
    ensures r.Ok? ==> r.value.command.commandType != UNKNOWN && Describes(config, m, r.value.signature)
    ensures r.Ok? ==> r.value == MapperMethod(NewSqlCommand(config, mapperInterface, m).value, SignatureOf(config, m).value)
    ensures NewSqlCommand(config, mapperInterface, m).Ok? && SignatureOf(config, m).Err? ==>
      r == Err(SignatureOf(config, m).error)
  {
    var command :- NewSqlCommand(config, mapperInterface, m);
    var signature :- SignatureOf(config, m);
    Ok(MapperMethod(command, signature))
  }

  method NewMapperMethod(config: Configuration, mapperInterface: Interface, m: MethodInfo)
    returns (r: Result<MapperMethod, Failure>)
    ensures r == MapperMethodOf(config, mapperInterface, m)
  {
    var command := NewSqlCommand(config, mapperInterface, m);
    if command.Err? {
      return Err(command.error);
    }
    var signature := NewMethodSignature(config, m);
    if signature.Err? {
      return Err(signature.error);
    }
    r := Ok(MapperMethod(command.value, signature.value));
  }

  /** `ParamMap.get`: a missing key is an error listing the keys that exist. */
  function ParamMapGet(entries: map<string, Value>, key: string): (r: Result<Value, Failure>)
    ensures r.Ok? <==> key in entries
    ensures r.Ok? ==> r.value == entries[key]
    ensures r.Err? ==> r.error == ParameterNotFound(key, entries.Keys)
  {
    if key !in entries then Err(ParameterNotFound(key, entries.Keys)) else Ok(entries[key])
  }

  /** Looking a name up in the ParamMap built for a call yields the argument of the
      parameter that carries it (when no later parameter reuses the name), and a name
      that is neither a parameter name nor a generic alias is reported missing. */
  lemma ParamMapLookup(t: NameTable, args: seq<Value>, key: string)
    requires IndicesBelow(t, |args|)
    ensures forall j :: 0 <= j < |t.names| && t.names[j].name == key && LastWithName(t, j) ==>
      ParamMapGet(ParamMapAfter(t, args, |t.names|), key) == Ok(args[t.names[j].index])
    ensures !ContainsName(t, key) && (forall j :: 1 <= j <= |t.names| ==> key != GenericName(j)) ==>
      ParamMapGet(ParamMapAfter(t, args, |t.names|), key).Err?
  {
    ParamMapBindsNames(t, args);
    ParamMapKeys(t, args, |t.names|, key);
    forall j | 0 <= j < |t.names| && t.names[j].name == key
      ensures (exists e :: e in t.names && e.name == key)
    {
      assert t.names[j] in t.names;
    }
  }

  /** The Java types the row count of an insert, update or delete can be returned as. */
  predicate IntReturn(t: JType) { t == IntegerClass || t == Prim(IntK) }
  predicate LongReturn(t: JType) { t == LongClass || t == Prim(LongK) }
  predicate BooleanReturn(t: JType) { t == BooleanClass || t == Prim(BooleanK) }

  /** `rowCountResult`: the row count as the method's return type: nothing for void,
      the count for int and long, whether any row was touched for boolean. */
  function RowCountResult(mm: MapperMethod, rowCount: Int32): (r: Result<Value, Failure>)
    ensures r.Err? <==>
      !mm.signature.returnsVoid && !IntReturn(mm.signature.returnType)
      && !LongReturn(mm.signature.returnType) && !BooleanReturn(mm.signature.returnType)
    ensures r.Err? ==> r.error == UnsupportedReturnType(mm.command.name, mm.signature.returnType)
    ensures r.Ok? && mm.signature.returnsVoid ==> r.value == Null
    ensures r.Ok? && !mm.signature.returnsVoid ==> CountAs(r.value, mm.signature.returnType, rowCount)
  {
    var returnType := mm.signature.returnType;
    if mm.signature.returnsVoid then Ok(Null)
    else if IntReturn(returnType) then Ok(IntV(rowCount))
    else if LongReturn(returnType) then Ok(LongV(rowCount))
    else if BooleanReturn(returnType) then Ok(BoolV(rowCount > 0))
    else Err(UnsupportedReturnType(mm.command.name, returnType))
  }

  /** v carries the row count in the form the return type t asks for. */
  predicate CountAs(v: Value, t: JType, rowCount: int) {
    match v
    case IntV(i) => IntReturn(t) && i == rowCount
    case LongV(l) => LongReturn(t) && l == rowCount
    case BoolV(b) => BooleanReturn(t) && (b <==> rowCount > 0)
    case _ => false
  }

  /** The number an Integer or Long carries. */
  function NumberOf(v: Value): Option<int> {
    match v
    case IntV(i) => Some(i)
    case LongV(l) => Some(l)
    case _ => None
  }

  /** What storing v into an array of the given component type puts there, or None
      when the store throws. Into a primitive array (`Array.set`) a wrapper is unboxed
      and widened: an Integer goes into int, long, float and double arrays, a Long into
      long, float and double arrays, a Boolean only into a boolean array, and a null or
      any other object is refused. Into an array of references (`toArray`) an element
      goes in unchanged when it is null or an instance of the component type. */
  function StoreInto(ct: ClassTable, component: JType, v: Value): (r: Option<Value>)
    ensures IsPrimitive(component) && v == Null ==> r.None?
    ensures IsPrimitive(component) && r.Some? ==>
      || (r.value.BoolV? && component == Prim(BooleanK) && r.value == v)
      || (NumberOf(v).Some? && NumberOf(r.value) == NumberOf(v))
    ensures component == Prim(IntK) ==> (r.Some? <==> v.IntV?) && (r.Some? ==> r.value.IntV?)
    ensures component == Prim(LongK) ==> (r.Some? <==> v.IntV? || v.LongV?) && (r.Some? ==> r.value.LongV?)
    ensures component == Prim(BooleanK) ==> (r.Some? <==> v.BoolV?)
    ensures component == Prim(FloatK) || component == Prim(DoubleK) ==> (r.Some? <==> v.IntV? || v.LongV?)
    ensures component in {VoidT, Prim(ByteK), Prim(ShortK), Prim(CharK)} ==> r.None?
    ensures !IsPrimitive(component) ==>
      && (r.Some? <==> v == Null || IsAssignableFrom(ct, component, ClassOf(v).value))
      && (r.Some? ==> r.value == v)
  {
    match component
    case Prim(IntK) => if v.IntV? then Some(v) else None
    case Prim(LongK) =>
      (match v
       case IntV(i) => Some(LongV(i))
       case LongV(_) => Some(v)
       case _ => None)
    case Prim(FloatK) => if v.IntV? || v.LongV? then Some(v) else None
    case Prim(DoubleK) => if v.IntV? || v.LongV? then Some(v) else None
    case Prim(BooleanK) => if v.BoolV? then Some(v) else None
    case Prim(_) => None
    case VoidT => None
    case _ =>
      if v == Null || IsAssignableFrom(ct, component, ClassOf(v).value) then Some(v) else None
  }

  /** i is the first position whose element cannot be stored. */
  predicate FirstRejected(ct: ClassTable, component: JType, list: seq<Value>, i: int) {
    && 0 <= i < |list| && StoreInto(ct, component, list[i]).None?
    && forall j :: 0 <= j < i ==> StoreInto(ct, component, list[j]).Some?
  }

  /** Every element stored in turn: the stored values, or the exception of the first
      element that cannot be stored. */
  function StoreAll(ct: ClassTable, component: JType, list: seq<Value>): (r: Result<seq<Value>, Failure>)
    ensures r.Err? <==> exists i :: 0 <= i < |list| && StoreInto(ct, component, list[i]).None?
    ensures r.Err? ==> exists i :: FirstRejected(ct, component, list, i)
                                   && r.error == ArrayElementRejected(component, list[i])
    ensures r.Ok? ==> |r.value| == |list|
                      && forall i :: 0 <= i < |list| ==> StoreInto(ct, component, list[i]) == Some(r.value[i])
    decreases |list|
  {
    if |list| == 0 then Ok([])
    else
      match StoreInto(ct, component, list[0])
      case None =>
        assert FirstRejected(ct, component, list, 0);
        Err(ArrayElementRejected(component, list[0]))
      case Some(x) =>
        var tail := StoreAll(ct, component, list[1..]);
        if tail.Err? then
          var k :| FirstRejected(ct, component, list[1..], k) && tail.error == ArrayElementRejected(component, list[1..][k]);
          assert FirstRejected(ct, component, list, k + 1);
          Err(tail.error)
        else
          assert forall i :: 1 <= i < |list| ==> list[i] == list[1..][i - 1];
          Ok([x] + tail.value)
  }

  /** `convertToArray`: the list's elements stored one by one into a new array of the
      return type's component type. */
  function ArrayOf(ct: ClassTable, component: JType, list: seq<Value>): (r: Result<Value, Failure>)
    ensures r.Err? <==> exists i :: 0 <= i < |list| && StoreInto(ct, component, list[i]).None?
    ensures r.Err? ==> exists i :: FirstRejected(ct, component, list, i)
                                   && r.error == ArrayElementRejected(component, list[i])
    ensures r.Ok? ==> && r.value.ArrayV? && r.value.component == component && |r.value.elems| == |list|
                      && forall i :: 0 <= i < |list| ==> StoreInto(ct, component, list[i]) == Some(r.value.elems[i])
    ensures r.Ok? && !IsPrimitive(component) ==> r.value.elems == list
  {
    var elems :- StoreAll(ct, component, list);
    Ok(ArrayV(component, elems))
  }

  /** A list in which the i-th element is the first that cannot be stored fails on it. */
  lemma RejectedAt(ct: ClassTable, component: JType, list: seq<Value>, i: nat)
    requires FirstRejected(ct, component, list, i)
    ensures ArrayOf(ct, component, list) == Err(ArrayElementRejected(component, list[i]))
  {
    var r := ArrayOf(ct, component, list);
    var k :| FirstRejected(ct, component, list, k) && r.error == ArrayElementRejected(component, list[k]);
    assert k == i;
  }

  /** The conversion as code: a new array, then each element stored in turn (by
      `Array.set` for primitives; `toArray` copies element by element the same way). */
  method ConvertToArray(ct: ClassTable, component: JType, list: seq<Value>) returns (r: Result<Value, Failure>)
    ensures r == ArrayOf(ct, component, list)
  {
    var elems := new Value[|list|];
    for i := 0 to |list|
      invariant forall j :: 0 <= j < i ==> StoreInto(ct, component, list[j]) == Some(elems[j])
    {
      var stored := StoreInto(ct, component, list[i]);
      if stored.None? {
        RejectedAt(ct, component, list, i);
        return Err(ArrayElementRejected(component, list[i]));
      }
      elems[i] := stored.value;
    }
    assert forall k :: 0 <= k < |list| ==> StoreInto(ct, component, list[k]).Some?;
    var expected := ArrayOf(ct, component, list);
    assert elems[..] == expected.value.elems;
    r := Ok(ArrayV(component, elems[..]));
  }

  /** What an execution did: the one session call it made, if it got that far, and
      the value it returns or the exception it raises. */
  datatype Execution = Execution(call: Option<SessionCall>, outcome: Result<Value, Failure>)

  /** The RowBounds argument of a select, when the method declares one. */
  function RowBoundsArg(mm: MapperMethod, args: Option<seq<Value>>): Option<Value>
    requires ArgsFit(mm.signature, args)
  {
    if mm.signature.rowBoundsIndex.Some? then Some(ExtractRowBounds(mm.signature, args)) else None
  }

  /** `executeWithResultHandler`: the rows go to the caller's ResultHandler; the
      statement must declare a result type unless it is a stored-procedure call. */
  function ExecuteWithResultHandler(session: SqlSession, mm: MapperMethod, args: Option<seq<Value>>): (e: Execution)
    requires ArgsFit(mm.signature, args)
    ensures e.call.Some? ==> e.outcome == Ok(Null)
    ensures e.outcome.Ok? ==>
      e.call.Some? && e.call.value.Select? && e.call.value.handler == ExtractResultHandler(mm.signature, args)
    ensures e.outcome == Err(MissingResultMap(mm.command.name)) <==>
      && mm.command.name.Some? && mm.command.name.value in session.configuration.mappedStatements
      && var ms := session.configuration.mappedStatements[mm.command.name.value];
         !ms.callable && |ms.resultMapTypes| > 0 && ms.resultMapTypes[0] == VoidT
    ensures mm.command.name.None? || mm.command.name.value !in session.configuration.mappedStatements ==>
      e == Execution(None, Err(StatementNotRegistered(mm.command.name)))
    ensures mm.command.name.Some? && mm.command.name.value in session.configuration.mappedStatements ==>
      var ms := session.configuration.mappedStatements[mm.command.name.value];
      && (!ms.callable && |ms.resultMapTypes| == 0 ==> e == Execution(None, Err(NoResultMap)))
      && (ms.callable || (|ms.resultMapTypes| > 0 && ms.resultMapTypes[0] != VoidT) ==>
            e.call.Some? && e.outcome == Ok(Null))
  {
    var name := mm.command.name;
    if name.None? || name.value !in session.configuration.mappedStatements then
      Execution(None, Err(StatementNotRegistered(name)))
    else
      var ms := session.configuration.mappedStatements[name.value];
      if !ms.callable && |ms.resultMapTypes| == 0 then Execution(None, Err(NoResultMap))
      else if !ms.callable && ms.resultMapTypes[0] == VoidT then Execution(None, Err(MissingResultMap(name)))
      else
        var param := ConvertArgs(mm.signature, args);
        var call := Select(name, param, RowBoundsArg(mm, args), ExtractResultHandler(mm.signature, args));
        Execution(Some(call), Ok(Null))
  }

  /** `executeForMany`: the list from selectList, returned as is when the declared
      type accepts it, else copied into an array or into a fresh declared collection. */
  function ExecuteForMany(session: SqlSession, mm: MapperMethod, args: Option<seq<Value>>): (e: Execution)
    requires ArgsFit(mm.signature, args)
    ensures e.call.Some? && e.call.value.SelectList?
    ensures var list := session.list(e.call.value);
      var returnType := mm.signature.returnType;
      var ct := session.configuration.classes;
      && (IsAssignableFrom(ct, returnType, list.cls) ==> e.outcome == Ok(ListV(list.cls, list.elems)))
      && (!IsAssignableFrom(ct, returnType, list.cls) && returnType.ArrayT? ==>
            e.outcome == ArrayOf(ct, returnType.component, list.elems))
      && (!IsAssignableFrom(ct, returnType, list.cls) && !returnType.ArrayT? ==>
            e.outcome == Ok(CreatedV(returnType, list.elems)))
      && (e.outcome.Ok? ==> |Elements(e.outcome.value)| == |list.elems|)
      && (e.outcome.Ok? && !(returnType.ArrayT? && IsPrimitive(returnType.component)) ==>
            Elements(e.outcome.value) == list.elems)
  {
    var param := ConvertArgs(mm.signature, args);
    var call := SelectList(mm.command.name, param, RowBoundsArg(mm, args));
    var list := session.list(call);
    var returnType := mm.signature.returnType;
    if !IsAssignableFrom(session.configuration.classes, returnType, list.cls) then
      if returnType.ArrayT? then
        Execution(Some(call), ArrayOf(session.configuration.classes, returnType.component, list.elems))
      else Execution(Some(call), Ok(CreatedV(returnType, list.elems)))
    else Execution(Some(call), Ok(ListV(list.cls, list.elems)))
  }

  /** The elements a list, array or filled collection holds. */
  function Elements(v: Value): seq<Value> {
    match v
    case ListV(_, elems) => elems
    case ArrayV(_, elems) => elems
    case CreatedV(_, appended) => appended
    case _ => []
  }

  /** `executeForMap`: selectMap with the method's @MapKey. */
  function ExecuteForMap(session: SqlSession, mm: MapperMethod, args: Option<seq<Value>>): (e: Execution)
    requires ArgsFit(mm.signature, args)
    ensures e.call.Some? && e.call.value.SelectMap? && e.call.value.mapKey == mm.signature.mapKey
    ensures e.outcome == Ok(session.answer(e.call.value))
  {
    var param := ConvertArgs(mm.signature, args);
    var call := SelectMap(mm.command.name, param, mm.signature.mapKey, RowBoundsArg(mm, args));
    Execution(Some(call), Ok(session.answer(call)))
  }

  /** `executeForCursor`: selectCursor; the cursor is returned unopened. */
  function ExecuteForCursor(session: SqlSession, mm: MapperMethod, args: Option<seq<Value>>): (e: Execution)
    requires ArgsFit(mm.signature, args)
    ensures e.call.Some? && e.call.value.SelectCursor?
    ensures e.outcome == Ok(session.answer(e.call.value))
  {
    var param := ConvertArgs(mm.signature, args);
    var call := SelectCursor(mm.command.name, param, RowBoundsArg(mm, args));
    Execution(Some(call), Ok(session.answer(call)))
  }

  /** The single row from selectOne, wrapped in an Optional when the method returns
      Optional and the row is not already one. */
  function ExecuteForOne(session: SqlSession, mm: MapperMethod, args: Option<seq<Value>>): (e: Execution)
    requires ArgsFit(mm.signature, args)
    ensures e.call.Some? && e.call.value.SelectOne?
    ensures var row := session.answer(e.call.value);
      && (!mm.signature.returnsOptional ==> e.outcome == Ok(row))
      && (mm.signature.returnsOptional && mm.signature.returnType == OptionalClass ==>
            && e.outcome.Ok? && ClassOf(e.outcome.value) == Some(OptionalClass)
            && (e.outcome.value == row || e.outcome.value == OptionalV(if row == Null then None else Some(row))))
      && (mm.signature.returnsOptional && row != Null && ClassOf(row) == Some(mm.signature.returnType) ==>
            e.outcome == Ok(row))
      && (mm.signature.returnsOptional && (row == Null || ClassOf(row) != Some(mm.signature.returnType)) ==>
            e.outcome == Ok(OptionalV(if row == Null then None else Some(row))))
  {
    var param := ConvertArgs(mm.signature, args);
    var call := SelectOne(mm.command.name, param);
    var row := session.answer(call);
    if mm.signature.returnsOptional && (row == Null || ClassOf(row) != Some(mm.signature.returnType)) then
      Execution(Some(call), Ok(OptionalV(if row == Null then None else Some(row))))
    else Execution(Some(call), Ok(row))
  }

  /** The session calls a command of the given type may make. */
  predicate CallFor(commandType: SqlCommandType, call: SessionCall) {
    match commandType
    case INSERT => call.Insert?
    case UPDATE => call.Update?
    case DELETE => call.Delete?
    case SELECT => call.Select? || call.SelectList? || call.SelectMap? || call.SelectCursor? || call.SelectOne?
    case FLUSH => call.FlushStatements?
    case UNKNOWN => false
  }

  /** The result of the command before the null-for-primitive check: each command
      type makes only its own kind of session call, no call is made only on failure,
      and only an UNKNOWN command meets the unknown-execution-method error. */
  function Dispatch(session: SqlSession, mm: MapperMethod, args: Option<seq<Value>>): (e: Execution)
    requires ArgsFit(mm.signature, args)
    ensures e.call.Some? ==> CallFor(mm.command.commandType, e.call.value)
    ensures e.call.None? ==> e.outcome.Err?
    ensures mm.command.commandType == UNKNOWN <==> e.outcome == Err(UnknownExecutionMethod(mm.command.name))
    ensures mm.command.commandType == SELECT ==>
      var sig := mm.signature;
      e == if sig.returnsVoid && sig.resultHandlerIndex.Some? then ExecuteWithResultHandler(session, mm, args)
           else if sig.returnsMany then ExecuteForMany(session, mm, args)
           else if sig.returnsMap then ExecuteForMap(session, mm, args)
           else if sig.returnsCursor then ExecuteForCursor(session, mm, args)
           else ExecuteForOne(session, mm, args)
  {
    match mm.command.commandType
    case INSERT =>
      var call := Insert(mm.command.name, ConvertArgs(mm.signature, args));
      Execution(Some(call), RowCountResult(mm, session.rowCount(call)))
    case UPDATE =>
      var call := Update(mm.command.name, ConvertArgs(mm.signature, args));
      Execution(Some(call), RowCountResult(mm, session.rowCount(call)))
    case DELETE =>
      var call := Delete(mm.command.name, ConvertArgs(mm.signature, args));
      Execution(Some(call), RowCountResult(mm, session.rowCount(call)))
    case SELECT =>
      if mm.signature.returnsVoid && mm.signature.resultHandlerIndex.Some? then ExecuteWithResultHandler(session, mm, args)
      else if mm.signature.returnsMany then ExecuteForMany(session, mm, args)
      else if mm.signature.returnsMap then ExecuteForMap(session, mm, args)
      else if mm.signature.returnsCursor then ExecuteForCursor(session, mm, args)
      else ExecuteForOne(session, mm, args)
    case FLUSH =>
      Execution(Some(FlushStatements), Ok(session.answer(FlushStatements)))
    case UNKNOWN =>
      Execution(None, Err(UnknownExecutionMethod(mm.command.name)))
  }

  /** `execute`: dispatch on the command type, then refuse a null for a primitive
      return type. */
  function Execute(session: SqlSession, mm: MapperMethod, args: Option<seq<Value>>): (e: Execution)
    requires ArgsFit(mm.signature, args)
    ensures e.call == Dispatch(session, mm, args).call
    ensures e.outcome.Ok? && e.outcome.value == Null ==> mm.signature.returnsVoid || !IsPrimitive(mm.signature.returnType)
    ensures e.outcome.Err? <==>
      || Dispatch(session, mm, args).outcome.Err?
      || (Dispatch(session, mm, args).outcome == Ok(Null)
          && IsPrimitive(mm.signature.returnType) && !mm.signature.returnsVoid)
    ensures e.outcome.Ok? ==> e.outcome == Dispatch(session, mm, args).outcome
    ensures e.outcome ==
      if Dispatch(session, mm, args).outcome == Ok(Null) && IsPrimitive(mm.signature.returnType) && !mm.signature.returnsVoid
      then Err(NullForPrimitive(mm.command.name, mm.signature.returnType))
      else Dispatch(session, mm, args).outcome
    ensures e.call.Some? && NamesStatement(e.call.value) ==>
      e.call.value.statement == mm.command.name && e.call.value.param == ConvertArgs(mm.signature, args)
  {
    var e := Dispatch(session, mm, args);
    if e.outcome == Ok(Null) && IsPrimitive(mm.signature.returnType) && !mm.signature.returnsVoid then
      Execution(e.call, Err(NullForPrimitive(mm.command.name, mm.signature.returnType)))
    else e
  }

  /** INSERT, UPDATE and DELETE call the matching session operation with the
      command's statement and the converted arguments, and return its row count as
      the method's return type. */
  lemma MutationDispatch(session: SqlSession, mm: MapperMethod, args: Option<seq<Value>>)
    requires ArgsFit(mm.signature, args)
    requires mm.command.commandType in {INSERT, UPDATE, DELETE}
    ensures var e := Execute(session, mm, args);
      var param := ConvertArgs(mm.signature, args);
      && e.call == Some(match mm.command.commandType
                        case INSERT => Insert(mm.command.name, param)
                        case UPDATE => Update(mm.command.name, param)
                        case _ => Delete(mm.command.name, param))
      && e.outcome == RowCountResult(mm, session.rowCount(e.call.value))
  {
  }

  /** The session call a SELECT makes, in the order the return shape is tested:
      a void method with a ResultHandler first, then many, map, cursor and one. */
  predicate SelectCallFits(mm: MapperMethod, call: SessionCall) {
    var sig := mm.signature;
    if sig.returnsVoid && sig.resultHandlerIndex.Some? then call.Select?
    else if sig.returnsMany then call.SelectList?
    else if sig.returnsMap then call.SelectMap?
    else if sig.returnsCursor then call.SelectCursor?
    else call.SelectOne?
  }

  lemma SelectDispatchOrder(session: SqlSession, mm: MapperMethod, args: Option<seq<Value>>)
    requires ArgsFit(mm.signature, args)
    requires mm.command.commandType == SELECT
    ensures var e := Execute(session, mm, args);
      && (e.call.None? ==> mm.signature.returnsVoid && mm.signature.resultHandlerIndex.Some? && e.outcome.Err?)
      && (e.call.Some? ==> SelectCallFits(mm, e.call.value))
      && (mm.signature.returnsVoid && mm.signature.resultHandlerIndex.Some? && e.outcome.Ok? ==> e.outcome.value == Null)
  {
  }

  /** For a method built from its declaration, a select passes a RowBounds exactly
      when the method declares a RowBounds parameter, and it passes that argument. */
  lemma RowBoundsPassedExactlyWhenDeclared(config: Configuration, m: MethodInfo, session: SqlSession,
                                           mm: MapperMethod, args: seq<Value>)
    requires Describes(config, m, mm.signature) && |args| == |m.params|
    requires mm.command.commandType == SELECT
    ensures ArgsFit(mm.signature, Some(args))
    ensures var e := Execute(session, mm, Some(args));
      e.call.Some? && TakesRowBounds(e.call.value) ==>
        && (e.call.value.rowBounds.Some? <==> exists i :: 0 <= i < |args| && m.params[i].isRowBounds)
        && forall i :: 0 <= i < |args| && m.params[i].isRowBounds ==> e.call.value.rowBounds == Some(args[i])
  {
    DeclaredArgsFit(config, m, mm.signature, Some(args));
    ExtractedSpecialArguments(config, m, mm.signature, args);
    if exists i :: 0 <= i < |args| && m.params[i].isRowBounds {
      var i :| 0 <= i < |args| && m.params[i].isRowBounds;
      assert Matches(m.params[i], RowBoundsKind);
    }
  }

  /** FLUSH calls flushStatements and returns its answer, which like any other result
      cannot be null for a primitive non-void return type. */
  lemma FlushDispatch(session: SqlSession, mm: MapperMethod, args: Option<seq<Value>>)
    requires ArgsFit(mm.signature, args)
    requires mm.command.commandType == FLUSH
    ensures var answer := session.answer(FlushStatements);
      Execute(session, mm, args) == Execution(Some(FlushStatements),
        if answer == Null && IsPrimitive(mm.signature.returnType) && !mm.signature.returnsVoid
        then Err(NullForPrimitive(mm.command.name, mm.signature.returnType))
        else Ok(answer))
  {
  }

  /** A method returning a primitive (other than void) whose select finds no row fails
      instead of returning null. */
  lemma SelectOneNullPrimitive(session: SqlSession, mm: MapperMethod, args: Option<seq<Value>>)
    requires ArgsFit(mm.signature, args)
    requires mm.command.commandType == SELECT
    requires !mm.signature.returnsVoid && !mm.signature.returnsMany && !mm.signature.returnsMap
    requires !mm.signature.returnsCursor && !mm.signature.returnsOptional
    requires mm.signature.returnType.Prim?
    requires session.answer(SelectOne(mm.command.name, ConvertArgs(mm.signature, args))) == Null
    ensures Execute(session, mm, args).outcome == Err(NullForPrimitive(mm.command.name, mm.signature.returnType))
  {
  }

  /** A MapperMethod that was built never meets the "unknown execution method" error,
      and only a FLUSH command has no statement name. */
  lemma BuiltMethodsKnown(config: Configuration, mapperInterface: Interface, m: MethodInfo,
                          session: SqlSession, args: Option<seq<Value>>)
    requires MapperMethodOf(config, mapperInterface, m).Ok?
    requires ArgsFit(MapperMethodOf(config, mapperInterface, m).value.signature, args)
    ensures var mm := MapperMethodOf(config, mapperInterface, m).value;
      && (mm.command.name.None? ==> mm.command.commandType == FLUSH)
      && Execute(session, mm, args).outcome != Err(UnknownExecutionMethod(mm.command.name))
  {
  }

  /** A row count of 3 comes back as true, as null and as 3L for boolean, void and
      long methods. */
  lemma RowCountExamples(command: SqlCommand, sig: MethodSignature)
    ensures RowCountResult(MapperMethod(command, sig.(returnsVoid := false, returnType := Prim(BooleanK))), 3) == Ok(BoolV(true))
    ensures RowCountResult(MapperMethod(command, sig.(returnsVoid := true, returnType := VoidT)), 3) == Ok(Null)
    ensures RowCountResult(MapperMethod(command, sig.(returnsVoid := false, returnType := LongClass)), 3) == Ok(LongV(3))
    ensures RowCountResult(MapperMethod(command, sig.(returnsVoid := false, returnType := ClassT(ObjectName))), 3)
         == Err(UnsupportedReturnType(command.name, ClassT(ObjectName)))
  {
  }

  /** The list [10, 20] becomes the int array {10, 20}. */
  lemma IntArrayExample()
    ensures ArrayOf(ClassTable(map[]), Prim(IntK), [IntV(10), IntV(20)]) == Ok(ArrayV(Prim(IntK), [IntV(10), IntV(20)]))
  {
    var list := [IntV(10), IntV(20)];
    assert forall k :: 0 <= k < |list| ==> StoreInto(ClassTable(map[]), Prim(IntK), list[k]) == Some(list[k]);
    var r := ArrayOf(ClassTable(map[]), Prim(IntK), list);
    assert r.value.elems == list;
  }

  /** The list [10, 20] becomes the long array {10L, 20L}: each Integer is widened. */
  lemma LongArrayExample()
    ensures ArrayOf(ClassTable(map[]), Prim(LongK), [IntV(10), IntV(20)]) == Ok(ArrayV(Prim(LongK), [LongV(10), LongV(20)]))
  {
    var list := [IntV(10), IntV(20)];
    assert StoreInto(ClassTable(map[]), Prim(LongK), list[0]) == Some(LongV(10));
    assert StoreInto(ClassTable(map[]), Prim(LongK), list[1]) == Some(LongV(20));
    var r := ArrayOf(ClassTable(map[]), Prim(LongK), list);
    assert r.value.elems == [LongV(10), LongV(20)];
  }

  /** A null or a Long cannot go into an int array; an Integer array takes the null
      but not the Long. */
  lemma RejectedElementExamples()
    ensures ArrayOf(ClassTable(map[]), Prim(IntK), [IntV(10), Null]) == Err(ArrayElementRejected(Prim(IntK), Null))
    ensures ArrayOf(ClassTable(map[]), Prim(IntK), [LongV(5)]) == Err(ArrayElementRejected(Prim(IntK), LongV(5)))
    ensures ArrayOf(ClassTable(map[]), IntegerClass, [LongV(5)]) == Err(ArrayElementRejected(IntegerClass, LongV(5)))
  {
    RejectedAt(ClassTable(map[]), Prim(IntK), [IntV(10), Null], 1);
    RejectedAt(ClassTable(map[]), Prim(IntK), [LongV(5)], 0);
    RejectedAt(ClassTable(map[]), IntegerClass, [LongV(5)], 0);
  }

  /** An Integer array takes a null element as is. */
  lemma BoxedArrayExample()
    ensures ArrayOf(ClassTable(map[]), IntegerClass, [IntV(10), Null]) == Ok(ArrayV(IntegerClass, [IntV(10), Null]))
  {
    var list := [IntV(10), Null];
    assert StoreInto(ClassTable(map[]), IntegerClass, list[0]).Some?;
    assert StoreInto(ClassTable(map[]), IntegerClass, list[1]).Some?;
  }

  /** A select declared to return int[] whose session hands back the list [10, 20]
      returns the int array {10, 20}. */
  lemma IntArrayResult(session: SqlSession, mm: MapperMethod, args: Option<seq<Value>>)
    requires ArgsFit(mm.signature, args)
    requires mm.command.commandType == SELECT
    requires mm.signature.returnsMany && !mm.signature.returnsVoid
    requires mm.signature.returnType == ArrayT(Prim(IntK))
    requires session.list(SelectList(mm.command.name, ConvertArgs(mm.signature, args), RowBoundsArg(mm, args)))
             == ListResult(ClassT("java.util.ArrayList"), [IntV(10), IntV(20)])
    ensures Execute(session, mm, args).outcome == Ok(ArrayV(Prim(IntK), [IntV(10), IntV(20)]))
  {
    var list := [IntV(10), IntV(20)];
    var ct := session.configuration.classes;
    assert !IsAssignableFrom(ct, ArrayT(Prim(IntK)), ClassT("java.util.ArrayList"));
    assert forall k :: 0 <= k < |list| ==> StoreInto(ct, Prim(IntK), list[k]) == Some(list[k]);
    var r := ArrayOf(ct, Prim(IntK), list);
    assert r.value.elems == list;
    assert ExecuteForMany(session, mm, args).outcome == r;
  }
}
