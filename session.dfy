/** The collaborators at the binding layer's boundary: the configuration's
    registry of mapped statements, the SQL session (an oracle: each operation's
    answer is a function of the call made), and the failures the layer raises. */
module Session {
  import opened Wrappers
  import opened Java

  datatype SqlCommandType = UNKNOWN | INSERT | UPDATE | DELETE | SELECT | FLUSH

  /** A registered statement: its id, its command type, whether it is a stored
      procedure call, and the types of its result maps in order. */
  datatype MappedStatement = MappedStatement(
    id: string,
    sqlCommandType: SqlCommandType,
    callable: bool,
    resultMapTypes: seq<JType>)

  datatype Configuration = Configuration(
    mappedStatements: map<string, MappedStatement>,
    useActualParamName: bool,
    classes: ClassTable)

  /** The default object factory's `isCollection`: the type is a Collection. */
  predicate IsCollection(config: Configuration, t: JType) {
    IsAssignableFrom(config.classes, CollectionClass, t)
  }

  /** One call on the SQL session. `rowBounds` is None for the overload without a
      RowBounds argument. */
  datatype SessionCall =
    | Insert(statement: Option<string>, param: Value)
    | Update(statement: Option<string>, param: Value)
    | Delete(statement: Option<string>, param: Value)
    | Select(statement: Option<string>, param: Value, rowBounds: Option<Value>, handler: Value)
    | SelectList(statement: Option<string>, param: Value, rowBounds: Option<Value>)
    | SelectMap(statement: Option<string>, param: Value, mapKey: Option<string>, rowBounds: Option<Value>)
    | SelectCursor(statement: Option<string>, param: Value, rowBounds: Option<Value>)
    | SelectOne(statement: Option<string>, param: Value)
    | FlushStatements

  /** The calls that name a statement and pass a parameter object. */
  predicate NamesStatement(c: SessionCall) {
    !c.FlushStatements?
  }

  /** The calls that have a RowBounds overload. */
  predicate TakesRowBounds(c: SessionCall) {
    c.Select? || c.SelectList? || c.SelectMap? || c.SelectCursor?
  }

  /** A list as `selectList` returns it: its runtime class and its elements. */
  datatype ListResult = ListResult(cls: JType, elems: seq<Value>)

  /** The SQL session: its configuration, and what each operation answers. */
  datatype SqlSession = SqlSession(
    configuration: Configuration,
    rowCount: SessionCall -> Int32,      // insert, update, delete
    list: SessionCall -> ListResult,     // selectList
    answer: SessionCall -> Value)        // selectOne, selectMap, selectCursor, flushStatements

  datatype SpecialKind = RowBoundsKind | ResultHandlerKind

  /** The exceptions raised by the binding layer, and by the collaborators it calls. */
  datatype Failure =
    | InvalidBoundStatement(qualifiedMethod: string)       // BindingException: no statement, no @Flush
    | UnknownExecutionMethod(commandName: Option<string>)  // BindingException: UNKNOWN command type
    | MultipleSpecialParameters(methodName: string, kind: SpecialKind)  // BindingException
    | UnsupportedReturnType(commandName: Option<string>, returnType: JType)  // BindingException
    | NullForPrimitive(commandName: Option<string>, returnType: JType)  // BindingException
    | MissingResultMap(commandName: Option<string>)        // BindingException: ResultHandler without a result type
    | ParameterNotFound(key: string, available: set<string>)  // BindingException from ParamMap.get
    | StatementNotRegistered(id: Option<string>)           // the configuration has no such statement
    | NoResultMap                                          // the statement's result map list is empty
    | ArrayElementRejected(component: JType, element: Value)  // Array.set (IllegalArgumentException) or toArray (ArrayStoreException)
}
