/** Which registered statement a mapper method runs: the id `Interface.method`,
    searched depth-first through the interfaces the mapper extends. */
module SqlCommand {
  import opened Wrappers
  import opened Java
  import opened Mapper
  import opened Session

  /** The statement's id (null for a @Flush method) and its command type. */
  datatype SqlCommand = SqlCommand(name: Option<string>, commandType: SqlCommandType)

  function StatementId(i: Interface, methodName: string): string {
    i.name + "." + methodName
  }

  /** `resolveMappedStatement`: the statement registered for `Interface.method`, else,
      unless this interface declares the method, the first statement found in the
      superinterfaces (in declaration order) that extend the declaring interface. */
  function ResolveMappedStatement(config: Configuration, mapperInterface: Interface,
                                  methodName: string, declaringClass: string): (r: Option<MappedStatement>)
    ensures r.Some? ==> r.value in config.mappedStatements.Values
    ensures StatementId(mapperInterface, methodName) in config.mappedStatements ==>
      r == Some(config.mappedStatements[StatementId(mapperInterface, methodName)])
    ensures StatementId(mapperInterface, methodName) !in config.mappedStatements ==>
      r == if mapperInterface.name == declaringClass then None
           else SearchSuperInterfaces(config, mapperInterface, 0, methodName, declaringClass)
    decreases mapperInterface, 1
  {
    var statementId := StatementId(mapperInterface, methodName);
    if statementId in config.mappedStatements then Some(config.mappedStatements[statementId])
    else if mapperInterface.name == declaringClass then None
    else SearchSuperInterfaces(config, mapperInterface, 0, methodName, declaringClass)
  }

  /** What the k-th superinterface contributes to the search. */
  function Candidate(config: Configuration, mapperInterface: Interface, k: nat,
                     methodName: string, declaringClass: string): (r: Option<MappedStatement>)
    requires k < |mapperInterface.interfaces|
    ensures r.Some? ==> r.value in config.mappedStatements.Values
    ensures !Extends(mapperInterface.interfaces[k], declaringClass) ==> r.None?
    decreases mapperInterface, 0, 0
  {
    var superInterface := mapperInterface.interfaces[k];
    if Extends(superInterface, declaringClass)
    then ResolveMappedStatement(config, superInterface, methodName, declaringClass)
    else None
  }

  /** The loop over the superinterfaces from the k-th on; the first hit wins. */
  function SearchSuperInterfaces(config: Configuration, mapperInterface: Interface, k: nat,
                                 methodName: string, declaringClass: string): (r: Option<MappedStatement>)
    requires k <= |mapperInterface.interfaces|
    ensures r.Some? ==> r.value in config.mappedStatements.Values
    decreases mapperInterface, 0, |mapperInterface.interfaces| - k + 1
  {
    if k == |mapperInterface.interfaces| then None
    else
      var ms := Candidate(config, mapperInterface, k, methodName, declaringClass);
      if ms.Some? then ms else SearchSuperInterfaces(config, mapperInterface, k + 1, methodName, declaringClass)
  }

  /** The search returns the first candidate that finds a statement, and nothing
      when none does. */
  lemma {:induction false} SearchFindsFirst(config: Configuration, mapperInterface: Interface, k: nat,
                                            methodName: string, declaringClass: string, j: nat)
    requires k <= j < |mapperInterface.interfaces|
    requires forall l :: k <= l < j ==> Candidate(config, mapperInterface, l, methodName, declaringClass).None?
    ensures SearchSuperInterfaces(config, mapperInterface, k, methodName, declaringClass)
         == if Candidate(config, mapperInterface, j, methodName, declaringClass).Some?
            then Candidate(config, mapperInterface, j, methodName, declaringClass)
            else SearchSuperInterfaces(config, mapperInterface, j + 1, methodName, declaringClass)
    decreases j - k
  {
    if k < j {
      SearchFindsFirst(config, mapperInterface, k + 1, methodName, declaringClass, j);
    }
  }

  /** The search finds a statement exactly when some candidate from the k-th on does. */
  lemma {:induction false} SearchFindsAny(config: Configuration, mapperInterface: Interface, k: nat,
                                          methodName: string, declaringClass: string)
    requires k <= |mapperInterface.interfaces|
    ensures SearchSuperInterfaces(config, mapperInterface, k, methodName, declaringClass).Some?
        <==> exists l :: k <= l < |mapperInterface.interfaces|
               && Candidate(config, mapperInterface, l, methodName, declaringClass).Some?
    decreases |mapperInterface.interfaces| - k
  {
    var n := |mapperInterface.interfaces|;
    var found := SearchSuperInterfaces(config, mapperInterface, k, methodName, declaringClass).Some?;
    if k < n {
      SearchFindsAny(config, mapperInterface, k + 1, methodName, declaringClass);
      var c := Candidate(config, mapperInterface, k, methodName, declaringClass);
      if c.None? {
        assert found == SearchSuperInterfaces(config, mapperInterface, k + 1, methodName, declaringClass).Some?;
        if found {
          var l :| k + 1 <= l < n && Candidate(config, mapperInterface, l, methodName, declaringClass).Some?;
          assert k <= l < n;
        } else {
          forall l | k <= l < n
            ensures Candidate(config, mapperInterface, l, methodName, declaringClass).None?
          {
            if l == k {
              assert Candidate(config, mapperInterface, l, methodName, declaringClass) == c;
            }
          }
        }
      } else {
        assert found;
      }
    }
    assert found ==> exists l :: k <= l < n && Candidate(config, mapperInterface, l, methodName, declaringClass).Some?;
    assert (exists l :: k <= l < n && Candidate(config, mapperInterface, l, methodName, declaringClass).Some?) ==> found;
  }

  /** A resolved statement is the one registered under `X.method` for the mapper
      interface itself or one of its ancestors X. */
  lemma {:induction false} ResolvedFromAncestor(config: Configuration, mapperInterface: Interface,
                                                methodName: string, declaringClass: string)
    requires ResolveMappedStatement(config, mapperInterface, methodName, declaringClass).Some?
    ensures exists x :: (Reaches(mapperInterface, x)
      && StatementId(x, methodName) in config.mappedStatements
      && config.mappedStatements[StatementId(x, methodName)]
         == ResolveMappedStatement(config, mapperInterface, methodName, declaringClass).value)
    decreases mapperInterface
  {
    if StatementId(mapperInterface, methodName) !in config.mappedStatements {
      var n := |mapperInterface.interfaces|;
      SearchFindsAny(config, mapperInterface, 0, methodName, declaringClass);
      var j :| 0 <= j < n && Candidate(config, mapperInterface, j, methodName, declaringClass).Some?;
      var j0 := FirstHitExists(config, mapperInterface, methodName, declaringClass, j);
      SearchFindsFirst(config, mapperInterface, 0, methodName, declaringClass, j0);
      var s := mapperInterface.interfaces[j0];
      ResolvedFromAncestor(config, s, methodName, declaringClass);
      var x :| Reaches(s, x) && StatementId(x, methodName) in config.mappedStatements
        && config.mappedStatements[StatementId(x, methodName)]
           == ResolveMappedStatement(config, s, methodName, declaringClass).value;
      assert s in mapperInterface.interfaces;
      assert Reaches(mapperInterface, x);
    }
  }

  /** The first superinterface position at or before j whose candidate finds a statement. */
  lemma {:induction false} FirstHitExists(config: Configuration, mapperInterface: Interface,
                                          methodName: string, declaringClass: string, j: nat)
    returns (j0: nat)
    requires j < |mapperInterface.interfaces|
    requires Candidate(config, mapperInterface, j, methodName, declaringClass).Some?
    ensures j0 <= j && Candidate(config, mapperInterface, j0, methodName, declaringClass).Some?
    ensures forall l :: 0 <= l < j0 ==> Candidate(config, mapperInterface, l, methodName, declaringClass).None?
    decreases j
  {
    if exists l :: 0 <= l < j && Candidate(config, mapperInterface, l, methodName, declaringClass).Some? {
      var l :| 0 <= l < j && Candidate(config, mapperInterface, l, methodName, declaringClass).Some?;
      j0 := FirstHitExists(config, mapperInterface, methodName, declaringClass, l);
    } else {
      j0 := j;
    }
  }

  /** The SqlCommand constructor: the resolved statement's id and type (an UNKNOWN
      type is rejected); with no statement, a @Flush method becomes a FLUSH command
      without a name, and any other method is an error naming `Interface.method`. */
  function NewSqlCommand(config: Configuration, mapperInterface: Interface, m: MethodInfo)
    : (r: Result<SqlCommand, Failure>)
    ensures r.Ok? ==> r.value.commandType != UNKNOWN
    ensures var ms := ResolveMappedStatement(config, mapperInterface, m.name, m.declaringClass);
      && (r.Ok? && r.value.name.None? <==> ms.None? && m.flush)
      && (r.Ok? && r.value.name.None? ==> r.value.commandType == FLUSH)
      && (r == Err(InvalidBoundStatement(StatementId(mapperInterface, m.name))) <==> ms.None? && !m.flush)
      && (r.Ok? && r.value.name.Some? ==> ms.Some? && r.value == SqlCommand(Some(ms.value.id), ms.value.sqlCommandType))
      && (ms.Some? ==> r == if ms.value.sqlCommandType == UNKNOWN then Err(UnknownExecutionMethod(Some(ms.value.id)))
                            else Ok(SqlCommand(Some(ms.value.id), ms.value.sqlCommandType)))
  {
    var ms := ResolveMappedStatement(config, mapperInterface, m.name, m.declaringClass);
    if ms.None? then
      if m.flush then Ok(SqlCommand(None, FLUSH))
      else Err(InvalidBoundStatement(StatementId(mapperInterface, m.name)))
    else if ms.value.sqlCommandType == UNKNOWN then Err(UnknownExecutionMethod(Some(ms.value.id)))
    else Ok(SqlCommand(Some(ms.value.id), ms.value.sqlCommandType))
  }

  /** A method declared on an ancestor interface and called through a descendant
      that has no statement of its own runs the statement bound to the ancestor,
      provided the ancestor is the first superinterface leading to the declaring one. */
  lemma InheritedStatement(config: Configuration, child: Interface, k: nat, m: MethodInfo)
    requires k < |child.interfaces|
    requires child.name != m.declaringClass && child.interfaces[k].name == m.declaringClass
    requires forall l :: 0 <= l < k ==> !Extends(child.interfaces[l], m.declaringClass)
    requires StatementId(child, m.name) !in config.mappedStatements
    requires StatementId(child.interfaces[k], m.name) in config.mappedStatements
    requires config.mappedStatements[StatementId(child.interfaces[k], m.name)].sqlCommandType != UNKNOWN
    ensures var ms := config.mappedStatements[StatementId(child.interfaces[k], m.name)];
      NewSqlCommand(config, child, m) == Ok(SqlCommand(Some(ms.id), ms.sqlCommandType))
  {
    SearchFindsFirst(config, child, 0, m.name, m.declaringClass, k);
  }

  /** Through any number of intermediate interfaces: when the declaring interface
      registers the method and no other interface on the way from the mapper to it
      does, the mapper resolves to the declaring interface's statement. */
  lemma {:induction false} DeclaringStatementResolved(config: Configuration, i: Interface,
                                                      methodName: string, declaringClass: string)
    requires Extends(i, declaringClass)
    requires declaringClass + "." + methodName in config.mappedStatements
    requires forall x :: Reaches(i, x) && x.name != declaringClass ==>
      StatementId(x, methodName) !in config.mappedStatements
    ensures ResolveMappedStatement(config, i, methodName, declaringClass)
         == Some(config.mappedStatements[declaringClass + "." + methodName])
    decreases i
  {
    if i.name != declaringClass {
      assert Reaches(i, i);
      var s :| s in i.interfaces && Extends(s, declaringClass);
      var j :| 0 <= j < |i.interfaces| && i.interfaces[j] == s;
      SubInterfaceResolves(config, i, j, methodName, declaringClass);
      var j0 := FirstHitExists(config, i, methodName, declaringClass, j);
      SearchFindsFirst(config, i, 0, methodName, declaringClass, j0);
      SubInterfaceResolves(config, i, j0, methodName, declaringClass);
    }
  }

  /** One step of the induction above: a superinterface leading to the declaring
      interface resolves to the declaring interface's statement. */
  lemma {:induction false} SubInterfaceResolves(config: Configuration, i: Interface, j: nat,
                                                methodName: string, declaringClass: string)
    requires j < |i.interfaces|
    requires declaringClass + "." + methodName in config.mappedStatements
    requires forall x :: Reaches(i, x) && x.name != declaringClass ==>
      StatementId(x, methodName) !in config.mappedStatements
    requires Extends(i.interfaces[j], declaringClass) || Candidate(config, i, j, methodName, declaringClass).Some?
    ensures Candidate(config, i, j, methodName, declaringClass)
         == Some(config.mappedStatements[declaringClass + "." + methodName])
    decreases i, 0
  {
    var s := i.interfaces[j];
    assert s in i.interfaces;
    forall x | Reaches(s, x) && x.name != declaringClass
      ensures StatementId(x, methodName) !in config.mappedStatements
    {
      assert Reaches(i, x);
    }
    if Extends(s, declaringClass) {
      DeclaringStatementResolved(config, s, methodName, declaringClass);
    }
  }

  /** The same statement becomes the SqlCommand of a method called through such a mapper. */
  lemma DeclaringStatementCommand(config: Configuration, i: Interface, m: MethodInfo)
    requires Extends(i, m.declaringClass)
    requires m.declaringClass + "." + m.name in config.mappedStatements
    requires forall x :: Reaches(i, x) && x.name != m.declaringClass ==>
      StatementId(x, m.name) !in config.mappedStatements
    requires config.mappedStatements[m.declaringClass + "." + m.name].sqlCommandType != UNKNOWN
    ensures var ms := config.mappedStatements[m.declaringClass + "." + m.name];
      NewSqlCommand(config, i, m) == Ok(SqlCommand(Some(ms.id), ms.sqlCommandType))
  {
    DeclaringStatementResolved(config, i, m.name, m.declaringClass);
  }
}
