/** The invocation handler behind a mapper interface: methods of Object run on the
    handler itself, every other method goes through an invoker that is built once
    per method and kept in a cache shared by the proxies of one interface. */
module MapperProxy {
  import opened Wrappers
  import opened Java
  import opened Mapper
  import opened Session
  import opened MethodSignature
  import opened MapperMethod

  /** A cached invoker: one that executes a MapperMethod, or one that calls the
      method's default body (the method handle is left abstract). */
  datatype Invoker =
    | PlainMethodInvoker(mapperMethod: MapperMethod)
    | DefaultMethodInvoker(m: MethodInfo)

  /** What a call on the proxy came to. */
  datatype Invocation =
    | RanOnHandler(m: MethodInfo, args: Option<seq<Value>>)                    // an Object method, on the handler
    | RanDefaultBody(m: MethodInfo, receiver: Value, args: Option<seq<Value>>)  // a default method's own body
    | Executed(execution: Execution)                                           // MapperMethod.execute
    | Failed(failure: Failure)                                                 // building the invoker failed

  /** The arguments the JVM passes to a proxy: one per declared parameter, and no
      array at all for a method without parameters. */
  predicate DeclaredArgs(m: MethodInfo, args: Option<seq<Value>>) {
    match args
    case None => |m.params| == 0
    case Some(a) => |a| == |m.params|
  }

  /** The invoker computeIfAbsent builds for a method on a cache miss: a default
      method gets a call-through invoker, any other method a PlainMethodInvoker
      around a new MapperMethod, whose construction errors propagate unchanged. */
  function InvokerFor(config: Configuration, mapperInterface: Interface, m: MethodInfo): (r: Result<Invoker, Failure>)
    ensures m.isDefault ==> r == Ok(DefaultMethodInvoker(m))
    ensures !m.isDefault ==> (r.Ok? <==> MapperMethodOf(config, mapperInterface, m).Ok?)
    ensures !m.isDefault && r.Ok? ==> r.value == PlainMethodInvoker(MapperMethodOf(config, mapperInterface, m).value)
    ensures !m.isDefault && r.Err? ==> r.error == MapperMethodOf(config, mapperInterface, m).error
    ensures r.Ok? && r.value.PlainMethodInvoker? ==> Describes(config, m, r.value.mapperMethod.signature)
  {
    if m.isDefault then Ok(DefaultMethodInvoker(m))
    else
      var mm :- MapperMethodOf(config, mapperInterface, m);
      Ok(PlainMethodInvoker(mm))
  }

  /** `MapperMethodInvoker.invoke`: a PlainMethodInvoker returns exactly what
      `execute` returns; a DefaultMethodInvoker runs the body with the proxy bound
      as its receiver. */
  function RunInvoker(inv: Invoker, proxy: Value, args: Option<seq<Value>>, session: SqlSession): (r: Invocation)
    requires inv.PlainMethodInvoker? ==> ArgsFit(inv.mapperMethod.signature, args)
    ensures r.Executed? <==> inv.PlainMethodInvoker?
    ensures r.Executed? ==> r.execution == Execute(session, inv.mapperMethod, args)
    ensures r.RanDefaultBody? <==> inv.DefaultMethodInvoker?
    ensures r.RanDefaultBody? ==> r.m == inv.m && r.receiver == proxy && r.args == args
  {
    match inv
    case PlainMethodInvoker(mm) => Executed(Execute(session, mm, args))
    case DefaultMethodInvoker(m) => RanDefaultBody(m, proxy, args)
  }

  /** What one call on the proxy does, leaving the cache aside. */
  function InvocationOf(session: SqlSession, mapperInterface: Interface, proxy: Value,
                        m: MethodInfo, args: Option<seq<Value>>): (r: Invocation)
    requires DeclaredArgs(m, args)
    ensures m.declaringClass == ObjectName ==> r == RanOnHandler(m, args)
    ensures m.declaringClass != ObjectName && InvokerFor(session.configuration, mapperInterface, m).Err? ==>
      r == Failed(InvokerFor(session.configuration, mapperInterface, m).error)
  {
    if m.declaringClass == ObjectName then RanOnHandler(m, args)
    else match InvokerFor(session.configuration, mapperInterface, m)
      case Err(failure) => Failed(failure)
      case Ok(inv) =>
        if inv.PlainMethodInvoker? then
          DeclaredArgsFit(session.configuration, m, inv.mapperMethod.signature, args);
          RunInvoker(inv, proxy, args, session)
        else RunInvoker(inv, proxy, args, session)
  }

  /** The method → invoker map, shared by every proxy of one mapper interface. */
  class MethodCache {
    var entries: map<MethodInfo, Invoker>

    constructor()
      ensures entries == map[]
    {
      entries := map[];
    }
  }

  class MapperProxy {
    const sqlSession: SqlSession
    const mapperInterface: Interface
    const methodCache: MethodCache

    /** Every cached invoker is the one a miss would build for its method, so the
        cache never changes what a call does. */
    ghost predicate Valid()
      reads methodCache
    {
      forall m :: m in methodCache.entries ==>
        InvokerFor(sqlSession.configuration, mapperInterface, m) == Ok(methodCache.entries[m])
    }

    constructor(sqlSession: SqlSession, mapperInterface: Interface, methodCache: MethodCache)
      ensures this.sqlSession == sqlSession && this.mapperInterface == mapperInterface
      ensures this.methodCache == methodCache
      ensures methodCache.entries == map[] ==> Valid()
    {
      this.sqlSession := sqlSession;
      this.mapperInterface := mapperInterface;
      this.methodCache := methodCache;
    }

    /** `cachedInvoker`: a hit returns the stored invoker and leaves the cache alone;
        a miss builds the invoker, stores it under this method and nothing else; a
        failure while building stores nothing. */
    method CachedInvoker(m: MethodInfo) returns (r: Result<Invoker, Failure>)
      requires Valid()
      modifies methodCache
      ensures Valid()
      ensures r == InvokerFor(sqlSession.configuration, mapperInterface, m)
      ensures old(m in methodCache.entries) ==>
        r == Ok(old(methodCache.entries[m])) && methodCache.entries == old(methodCache.entries)
      ensures old(m !in methodCache.entries) && r.Ok? ==>
        methodCache.entries == old(methodCache.entries)[m := r.value]
      ensures r.Err? ==> methodCache.entries == old(methodCache.entries)
    {
      if m in methodCache.entries {
        return Ok(methodCache.entries[m]);
      }
      var inv: Invoker;
      if m.isDefault {
        inv := DefaultMethodInvoker(m);
      } else {
        var mm := NewMapperMethod(sqlSession.configuration, mapperInterface, m);
        if mm.Err? {
          return Err(mm.error);
        }
        inv := PlainMethodInvoker(mm.value);
      }
      methodCache.entries := methodCache.entries[m := inv];
      r := Ok(inv);
    }

    /** `invoke`: an Object method runs on the handler without touching the cache;
        any other call runs the cached invoker, and does what it would have done
        without a cache. */
    method Invoke(proxy: Value, m: MethodInfo, args: Option<seq<Value>>) returns (r: Invocation)
      requires Valid() && DeclaredArgs(m, args)
      modifies methodCache
      ensures Valid()
      ensures r == InvocationOf(sqlSession, mapperInterface, proxy, m, args)
      ensures m.declaringClass == ObjectName ==> methodCache.entries == old(methodCache.entries)
      ensures m.declaringClass != ObjectName ==>
        methodCache.entries == match InvokerFor(sqlSession.configuration, mapperInterface, m)
                               case Ok(inv) => old(methodCache.entries)[m := inv]
                               case Err(_) => old(methodCache.entries)
    {
      if m.declaringClass == ObjectName {
        return RanOnHandler(m, args);
      }
      var inv := CachedInvoker(m);
      if inv.Err? {
        return Failed(inv.error);
      }
      if inv.value.PlainMethodInvoker? {
        DeclaredArgsFit(sqlSession.configuration, m, inv.value.mapperMethod.signature, args);
      }
      r := RunInvoker(inv.value, proxy, args, sqlSession);
    }
  }

  /** A usage scenario rather than a piece of the handler: a caller invoking the same
      mapper method twice through one proxy. The invoker is built at most once, the
      second call finds it in the cache and does the same thing as the first, and the
      cache gains no key other than this method. */
  method InvokeTwice(p: MapperProxy, proxy: Value, m: MethodInfo, args: Option<seq<Value>>)
    returns (first: Invocation, second: Invocation)
    requires p.Valid() && DeclaredArgs(m, args)
    modifies p.methodCache
    ensures p.Valid()
    ensures first == second
    ensures p.methodCache.entries.Keys <= old(p.methodCache.entries).Keys + {m}
    ensures m.declaringClass != ObjectName && m !in old(p.methodCache.entries) ==>
      p.methodCache.entries.Keys == old(p.methodCache.entries).Keys
        + if InvokerFor(p.sqlSession.configuration, p.mapperInterface, m).Ok? then {m} else {}
  {
    first := p.Invoke(proxy, m, args);
    second := p.Invoke(proxy, m, args);
  }

  /** A mapper method that is neither an Object method nor a default method returns
      exactly what its MapperMethod's `execute` returns. */
  lemma PlainCallExecutes(session: SqlSession, mapperInterface: Interface, proxy: Value,
                          m: MethodInfo, args: Option<seq<Value>>)
    requires DeclaredArgs(m, args)
    requires m.declaringClass != ObjectName && !m.isDefault
    ensures var mm := MapperMethodOf(session.configuration, mapperInterface, m);
      && (mm.Err? ==> InvocationOf(session, mapperInterface, proxy, m, args) == Failed(mm.error))
      && (mm.Ok? ==> ArgsFit(mm.value.signature, args))
      && (mm.Ok? && ArgsFit(mm.value.signature, args) ==>
            InvocationOf(session, mapperInterface, proxy, m, args) == Executed(Execute(session, mm.value, args)))
  {
    var mm := MapperMethodOf(session.configuration, mapperInterface, m);
    if mm.Ok? {
      DeclaredArgsFit(session.configuration, m, mm.value.signature, args);
    }
  }

  /** A default method runs its own body on the proxy, whatever the statements. */
  lemma DefaultCallRunsBody(session: SqlSession, mapperInterface: Interface, proxy: Value,
                            m: MethodInfo, args: Option<seq<Value>>)
    requires DeclaredArgs(m, args)
    requires m.declaringClass != ObjectName && m.isDefault
    ensures InvocationOf(session, mapperInterface, proxy, m, args) == RanDefaultBody(m, proxy, args)
  {
  }
}
