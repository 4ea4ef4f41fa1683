/** How a mapper method's parameters are named: the table from parameter position
    to name built once per method, and the conversion of a call's argument array
    into the single object handed to the SQL session. */
module ParamNameResolver {
  import opened Wrappers
  import opened Java

  const GenericNamePrefix := "param"

  /** What reflection reports about one declared parameter. */
  datatype Param = Param(
    isRowBounds: bool,           // RowBounds.class.isAssignableFrom(its type)
    isResultHandler: bool,       // ResultHandler.class.isAssignableFrom(its type)
    annotation: Option<string>,  // the value of its @Param annotation, if it has one
    actualName: Option<string>)  // its name in the source, if the compiler recorded one

  /** One entry of the sorted name table: parameter position and name. */
  datatype Entry = Entry(index: nat, name: string)

  /** The resolver's state once built: `names`, a sorted map from position to name,
      held as its entries in ascending position order, and `hasParamAnnotation`. */
  datatype NameTable = NameTable(names: seq<Entry>, hasParamAnnotation: bool)

  /** RowBounds and ResultHandler parameters are never named. */
  predicate IsSpecialParameter(p: Param) {
    p.isRowBounds || p.isResultHandler
  }

  predicate Ascending(names: seq<Entry>) {
    forall j, k :: 0 <= j < k < |names| ==> names[j].index < names[k].index
  }

  /** The name a non-special parameter gets when `size` entries are already in the
      table: its @Param value, else its actual name (when the configuration asks for
      actual names and one is known), else the decimal form of `size`. */
  function NameFor(p: Param, useActualParamName: bool, size: nat): string {
    if p.annotation.Some? then p.annotation.value
    else if useActualParamName && p.actualName.Some? then p.actualName.value
    else Decimal(size)
  }

  /** The table after the constructor's loop has visited the first n parameters. */
  function TableOf(params: seq<Param>, useActualParamName: bool, n: nat): (t: NameTable)
    requires n <= |params|
    ensures Ascending(t.names)
    ensures forall e :: e in t.names ==> e.index < n
    decreases n
  {
    if n == 0 then NameTable([], false)
    else
      var t := TableOf(params, useActualParamName, n - 1);
      var p := params[n - 1];
      if IsSpecialParameter(p) then t
      else NameTable(t.names + [Entry(n - 1, NameFor(p, useActualParamName, |t.names|))],
                     t.hasParamAnnotation || p.annotation.Some?)
  }

  function NameTableOf(params: seq<Param>, useActualParamName: bool): NameTable {
    TableOf(params, useActualParamName, |params|)
  }

  /** The constructor: one pass over the parameters, filling the table in place and
      using its current size as the positional counter. */
  method BuildNameTable(params: seq<Param>, useActualParamName: bool) returns (t: NameTable)
    ensures t == NameTableOf(params, useActualParamName)
  {
    var names: seq<Entry> := [];
    var hasParamAnnotation := false;
    for paramIndex := 0 to |params|
      invariant NameTable(names, hasParamAnnotation) == TableOf(params, useActualParamName, paramIndex)
    {
      var p := params[paramIndex];
      if IsSpecialParameter(p) {
        continue;
      }
      var name: string;
      if p.annotation.Some? {
        hasParamAnnotation := true;
        name := p.annotation.value;
      } else if useActualParamName && p.actualName.Some? {
        name := p.actualName.value;
      } else {
        name := Decimal(|names|);
      }
      names := names + [Entry(paramIndex, name)];
    }
    t := NameTable(names, hasParamAnnotation);
  }

  /** A position is in the table exactly when it belongs to a non-special parameter:
      special parameters are skipped and the others keep their original positions. */
  lemma {:induction false} PositionInTable(params: seq<Param>, useActualParamName: bool, n: nat, i: nat)
    requires n <= |params|
    ensures (exists e :: e in TableOf(params, useActualParamName, n).names && e.index == i)
        <==> (i < n && !IsSpecialParameter(params[i]))
    decreases n
  {
    if n > 0 {
      PositionInTable(params, useActualParamName, n - 1, i);
      var t := TableOf(params, useActualParamName, n - 1);
      if i == n - 1 && !IsSpecialParameter(params[i]) {
        assert Entry(n - 1, NameFor(params[n - 1], useActualParamName, |t.names|))
          in TableOf(params, useActualParamName, n).names;
      }
    }
  }

  /** The j-th entry (in ascending position) names a non-special parameter, and its
      name is what NameFor gives with j entries already present: the @Param value
      first, then the actual name, then the decimal form of j. */
  lemma {:induction false} EntryNamed(params: seq<Param>, useActualParamName: bool, n: nat, j: nat)
    requires n <= |params|
    requires j < |TableOf(params, useActualParamName, n).names|
    ensures var e := TableOf(params, useActualParamName, n).names[j];
      e.index < n && !IsSpecialParameter(params[e.index])
      && e.name == NameFor(params[e.index], useActualParamName, j)
    decreases n
  {
    var t := TableOf(params, useActualParamName, n - 1);
    if j < |t.names| {
      EntryNamed(params, useActualParamName, n - 1, j);
    }
  }

  /** `hasParamAnnotation` holds exactly when some non-special parameter carries @Param. */
  lemma {:induction false} HasParamAnnotationIff(params: seq<Param>, useActualParamName: bool, n: nat)
    requires n <= |params|
    ensures TableOf(params, useActualParamName, n).hasParamAnnotation
        <==> exists i :: 0 <= i < n && !IsSpecialParameter(params[i]) && params[i].annotation.Some?
    decreases n
  {
    if n > 0 {
      HasParamAnnotationIff(params, useActualParamName, n - 1);
    }
  }

  /** The number of non-special parameters among the first n. */
  function CountNormal(params: seq<Param>, n: nat): nat
    requires n <= |params|
  {
    if n == 0 then 0
    else CountNormal(params, n - 1) + if IsSpecialParameter(params[n - 1]) then 0 else 1
  }

  /** The j-th entry is named by the decimal form of j. */
  predicate NamedPositionally(names: seq<Entry>) {
    forall j :: 0 <= j < |names| ==> names[j].name == Decimal(j)
  }

  lemma AppendPositional(names: seq<Entry>, i: nat)
    requires NamedPositionally(names)
    ensures NamedPositionally(names + [Entry(i, Decimal(|names|))])
  {
    var longer := names + [Entry(i, Decimal(|names|))];
    forall j | 0 <= j < |longer|
      ensures longer[j].name == Decimal(j)
    {
      if j < |names| {
        assert longer[j] == names[j];
      } else {
        assert j == |names| && longer[j] == Entry(i, Decimal(|names|));
      }
    }
  }

  /** Without @Param and without actual names, the k non-special parameters are named
      "0" .. "k-1" in declaration order. */
  lemma {:induction false} PositionalNames(params: seq<Param>, useActualParamName: bool, n: nat)
    requires n <= |params|
    requires forall i :: 0 <= i < n ==> params[i].annotation.None?
    requires forall i :: 0 <= i < n ==> !useActualParamName || params[i].actualName.None?
    ensures |TableOf(params, useActualParamName, n).names| == CountNormal(params, n)
    ensures NamedPositionally(TableOf(params, useActualParamName, n).names)
    decreases n
  {
    if n > 0 {
      PositionalNames(params, useActualParamName, n - 1);
      var t := TableOf(params, useActualParamName, n - 1);
      var p := params[n - 1];
      if !IsSpecialParameter(p) {
        assert NameFor(p, useActualParamName, |t.names|) == Decimal(|t.names|);
        AppendPositional(t.names, n - 1);
      }
    }
  }

  /** A parameter carrying @Param("s") is entered under its own position with name s. */
  lemma ParamAnnotationWins(params: seq<Param>, useActualParamName: bool, i: nat)
    requires i < |params| && !IsSpecialParameter(params[i]) && params[i].annotation.Some?
    ensures Entry(i, params[i].annotation.value) in NameTableOf(params, useActualParamName).names
  {
    var t := NameTableOf(params, useActualParamName);
    PositionInTable(params, useActualParamName, |params|, i);
    var e :| e in t.names && e.index == i;
    var j :| 0 <= j < |t.names| && t.names[j] == e;
    EntryNamed(params, useActualParamName, |params|, j);
  }

  /** `aMethod(int a, RowBounds rb, int b)` gives the table {0: "0", 2: "1"}. */
  lemma RowBoundsExample(useActualParamName: bool)
    ensures var normal := Param(false, false, None, None);
      var rb := Param(true, false, None, None);
      NameTableOf([normal, rb, normal], useActualParamName).names == [Entry(0, "0"), Entry(2, "1")]
  {
    var normal := Param(false, false, None, None);
    var rb := Param(true, false, None, None);
    var params := [normal, rb, normal];
    assert Decimal(0) == "0" && Decimal(1) == "1";
    assert TableOf(params, useActualParamName, 1).names == [Entry(0, "0")];
    assert TableOf(params, useActualParamName, 2).names == [Entry(0, "0")];
  }

  /** `getNames()`: the names, in ascending position order. */
  function GetNames(t: NameTable): (r: seq<string>)
    ensures |r| == |t.names|
    ensures forall j :: 0 <= j < |r| ==> r[j] == t.names[j].name
  {
    seq(|t.names|, j requires 0 <= j < |t.names| => t.names[j].name)
  }

  /** In the built table, an earlier name in `getNames()` belongs to an earlier parameter. */
  lemma GetNamesInDeclarationOrder(params: seq<Param>, useActualParamName: bool, j: nat, k: nat)
    requires j < k < |GetNames(NameTableOf(params, useActualParamName))|
    ensures var t := NameTableOf(params, useActualParamName);
      t.names[j].index < t.names[k].index
      && GetNames(t)[j] == NameFor(params[t.names[j].index], useActualParamName, j)
  {
    EntryNamed(params, useActualParamName, |params|, j);
  }

  /** `names.containsValue(x)`. */
  predicate ContainsName(t: NameTable, x: string) {
    exists e :: e in t.names && e.name == x
  }

  /** The generic alias of the j-th parameter (1-based): "param1", "param2", ... */
  function GenericName(j: nat): string {
    GenericNamePrefix + Decimal(j)
  }

  predicate IndicesBelow(t: NameTable, len: nat) {
    forall e :: e in t.names ==> e.index < len
  }

  /** The ParamMap after the loop of getNamedParams has visited the first n entries. */
  function ParamMapAfter(t: NameTable, args: seq<Value>, n: nat): map<string, Value>
    requires n <= |t.names| && IndicesBelow(t, |args|)
    decreases n
  {
    if n == 0 then map[]
    else
      var e := t.names[n - 1];
      var m := ParamMapAfter(t, args, n - 1)[e.name := args[e.index]];
      if ContainsName(t, GenericName(n)) then m else m[GenericName(n) := args[e.index]]
  }

  /** What getNamedParams returns: null, the single raw argument, or a ParamMap. */
  function NamedParams(t: NameTable, args: Option<seq<Value>>): Value
    requires args.Some? ==> IndicesBelow(t, |args.value|)
  {
    if args.None? || |t.names| == 0 then Null
    else if !t.hasParamAnnotation && |t.names| == 1 then args.value[t.names[0].index]
    else ParamMapV(ParamMapAfter(t, args.value, |t.names|))
  }

  /** `getNamedParams(args)`: fills a fresh ParamMap entry by entry. */
  method GetNamedParams(t: NameTable, args: Option<seq<Value>>) returns (r: Value)
    requires args.Some? ==> IndicesBelow(t, |args.value|)
    ensures r == NamedParams(t, args)
  {
    var paramCount := |t.names|;
    if args.None? || paramCount == 0 {
      return Null;
    } else if !t.hasParamAnnotation && paramCount == 1 {
      return args.value[t.names[0].index];
    }
    var param: map<string, Value> := map[];
    var i := 0;
    while i < paramCount
      invariant 0 <= i <= paramCount
      invariant param == ParamMapAfter(t, args.value, i)
    {
      var e := t.names[i];
      param := param[e.name := args.value[e.index]];
      var genericParamName := GenericNamePrefix + Decimal(i + 1);
      if !ContainsName(t, genericParamName) {
        param := param[genericParamName := args.value[e.index]];
      }
      i := i + 1;
    }
    r := ParamMapV(param);
  }

  /** The keys of the ParamMap: the table's names and the generic aliases that are not
      table names. */
  lemma {:induction false} ParamMapKeys(t: NameTable, args: seq<Value>, n: nat, key: string)
    requires n <= |t.names| && IndicesBelow(t, |args|)
    ensures key in ParamMapAfter(t, args, n) <==>
      ((exists j :: 0 <= j < n && t.names[j].name == key)
       || (!ContainsName(t, key) && exists j :: 1 <= j <= n && key == GenericName(j)))
    decreases n
  {
    if n > 0 {
      ParamMapKeys(t, args, n - 1, key);
      if key == GenericName(n) && !ContainsName(t, key) {
        assert key in ParamMapAfter(t, args, n);
      }
    }
  }

  /** A table name maps to the argument of the last entry carrying that name. */
  lemma {:induction false} ParamMapNamed(t: NameTable, args: seq<Value>, n: nat, j: nat)
    requires n <= |t.names| && IndicesBelow(t, |args|)
    requires j < n && forall k :: j < k < n ==> t.names[k].name != t.names[j].name
    ensures t.names[j].name in ParamMapAfter(t, args, n)
    ensures ParamMapAfter(t, args, n)[t.names[j].name] == args[t.names[j].index]
    decreases n
  {
    assert t.names[j] in t.names;
    if j < n - 1 {
      ParamMapNamed(t, args, n - 1, j);
    }
  }

  /** The generic alias "param<j+1>" maps to the j-th entry's argument unless it is
      itself one of the table's names; a generic alias never replaces a table name. */
  lemma {:induction false} ParamMapGeneric(t: NameTable, args: seq<Value>, n: nat, j: nat)
    requires n <= |t.names| && IndicesBelow(t, |args|)
    requires j < n && !ContainsName(t, GenericName(j + 1))
    ensures GenericName(j + 1) in ParamMapAfter(t, args, n)
    ensures ParamMapAfter(t, args, n)[GenericName(j + 1)] == args[t.names[j].index]
    decreases n
  {
    if j < n - 1 {
      ParamMapGeneric(t, args, n - 1, j);
      var e := t.names[n - 1];
      assert e in t.names;
      if GenericName(n) == GenericName(j + 1) {
        PrefixedDecimalInjective(GenericNamePrefix, n, j + 1);
      }
    }
  }

  /** No later entry of the table carries the j-th entry's name. */
  predicate LastWithName(t: NameTable, j: nat)
    requires j < |t.names|
  {
    forall k :: j < k < |t.names| ==> t.names[k].name != t.names[j].name
  }

  /** Every table name is bound to the argument of the last entry carrying it. */
  ghost predicate NamesBound(t: NameTable, args: seq<Value>, m: map<string, Value>)
    requires IndicesBelow(t, |args|)
  {
    forall j :: 0 <= j < |t.names| && LastWithName(t, j) ==>
      t.names[j].name in m && m[t.names[j].name] == args[t.names[j].index]
  }

  /** The generic alias of the j-th entry, unless it is a table name, is bound to
      that entry's argument. */
  ghost predicate AliasBound(t: NameTable, args: seq<Value>, m: map<string, Value>, j: nat)
    requires IndicesBelow(t, |args|) && j < |t.names|
  {
    !ContainsName(t, GenericName(j + 1)) ==>
      GenericName(j + 1) in m && m[GenericName(j + 1)] == args[t.names[j].index]
  }

  /** Every generic alias that is not a table name is bound to its entry's argument. */
  ghost predicate AliasesBound(t: NameTable, args: seq<Value>, m: map<string, Value>)
    requires IndicesBelow(t, |args|)
  {
    forall j :: 0 <= j < |t.names| ==> AliasBound(t, args, m, j)
  }

  /** The complete ParamMap binds every table name and every non-colliding alias. */
  lemma ParamMapBindsNames(t: NameTable, args: seq<Value>)
    requires IndicesBelow(t, |args|)
    ensures NamesBound(t, args, ParamMapAfter(t, args, |t.names|))
  {
    var n := |t.names|;
    forall j | 0 <= j < n && LastWithName(t, j)
      ensures t.names[j].name in ParamMapAfter(t, args, n)
      ensures ParamMapAfter(t, args, n)[t.names[j].name] == args[t.names[j].index]
    {
      ParamMapNamed(t, args, n, j);
    }
  }

  lemma ParamMapBindsAliases(t: NameTable, args: seq<Value>)
    requires IndicesBelow(t, |args|)
    ensures AliasesBound(t, args, ParamMapAfter(t, args, |t.names|))
  {
    var n := |t.names|;
    forall j | 0 <= j < n
      ensures AliasBound(t, args, ParamMapAfter(t, args, n), j)
    {
      if !ContainsName(t, GenericName(j + 1)) {
        ParamMapGeneric(t, args, n, j);
      }
    }
  }

  /** The three shapes of getNamedParams' result: null without arguments or names, the
      raw argument for one unannotated name, and otherwise a ParamMap binding every
      table name and every non-colliding generic alias. */
  lemma NamedParamsShape(t: NameTable, args: Option<seq<Value>>)
    requires args.Some? ==> IndicesBelow(t, |args.value|)
    ensures args.None? || |t.names| == 0 ==> NamedParams(t, args) == Null
    ensures args.Some? && !t.hasParamAnnotation && |t.names| == 1 ==>
      NamedParams(t, args) == args.value[t.names[0].index]
    ensures args.Some? && 1 <= |t.names| && (t.hasParamAnnotation || 2 <= |t.names|) ==>
      && NamedParams(t, args).ParamMapV?
      && NamesBound(t, args.value, NamedParams(t, args).entries)
      && AliasesBound(t, args.value, NamedParams(t, args).entries)
  {
    if args.Some? && 1 <= |t.names| && (t.hasParamAnnotation || 2 <= |t.names|) {
      ParamMapBindsNames(t, args.value);
      ParamMapBindsAliases(t, args.value);
    }
  }
}
