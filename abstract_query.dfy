/** The query builder shared by the SQL and document translators. A query is
    a list of AND groups of OR-ed predicates, plus selections, sort keys,
    joins, a limit and a skip. The SQL query adds table aliases (`from`), and
    the SQLite query refuses the regular-expression operators; both are
    carried by the same class here. */
module AbstractQuery {
  import opened Values
  import opened Assoc
  import SqliteQuery

  /** The ten search operators, spelled as the builder stores them. */
  datatype Op = Is | IsNot | Greater | Less | In | NotIn | Like | NotLike | Match | NotMatch

  function OpName(op: Op): string {
    match op
    case Is => "is"
    case IsNot => "is not"
    case Greater => "greater"
    case Less => "less"
    case In => "in"
    case NotIn => "not in"
    case Like => "like"
    case NotLike => "not like"
    case Match => "match"
    case NotMatch => "not match"
  }

  /** The operator called s, if there is one. */
  function ParseOp(s: string): (r: Option<Op>)
    ensures r.Some? ==> OpName(r.value) == s
    ensures r.None? ==> forall op: Op :: OpName(op) != s
  {
    if s == "is" then Some(Is)
    else if s == "is not" then Some(IsNot)
    else if s == "greater" then Some(Greater)
    else if s == "less" then Some(Less)
    else if s == "in" then Some(In)
    else if s == "not in" then Some(NotIn)
    else if s == "like" then Some(Like)
    else if s == "not like" then Some(NotLike)
    else if s == "match" then Some(Match)
    else if s == "not match" then Some(NotMatch)
    else None
  }

  /** Every operator is parsed back from its name. */
  lemma ParseOpName(op: Op)
    ensures ParseOp(OpName(op)) == Some(op)
  {
    match op
    case Is =>
    case IsNot =>
    case Greater =>
    case Less =>
    case In =>
    case NotIn =>
    case Like =>
    case NotLike =>
    case Match =>
    case NotMatch =>
  }

  /** The operators whose value must be an array. */
  predicate NeedsList(op: Op) {
    op == In || op == NotIn
  }

  datatype Predicate = Predicate(field: string, op: Op, value: Value)

  /** Predicates joined by OR. */
  type Group = seq<Predicate>

  datatype Selection = Selection(field: string, alias: string)

  datatype SortKey = SortKey(field: string, order: string)

  datatype JoinSpec = JoinSpec(container1: string, field1: string, container2: string, field2: string)

  predicate WellFormedPredicate(p: Predicate) {
    NeedsList(p.op) ==> p.value.List?
  }

  /** What every search list built by this class satisfies: no empty group,
      and 'in' / 'not in' always carry an array. */
  predicate WellFormed(search: seq<Group>) {
    forall i :: 0 <= i < |search| ==>
      |search[i]| > 0 && forall j :: 0 <= j < |search[i]| ==> WellFormedPredicate(search[i][j])
  }

  /** The predicate that search(...) registers, if any: none for no argument,
      an '_id' predicate for one argument, a field predicate for three. */
  function BuildSearch(args: seq<Value>): (r: Result<Option<Predicate>>)
    ensures r.Ok? && r.value.Some? ==> WellFormedPredicate(r.value.value)
    ensures r.Ok? && r.value.None? <==> |args| == 0
  {
    if |args| == 0 then Ok(None)
    else if |args| == 1 then
      match args[0]
      case Str(_) => Ok(Some(Predicate("_id", Is, args[0])))
      case List(_) => Ok(Some(Predicate("_id", In, args[0])))
      case _ => Err(NotStringOrArray)
    else if |args| == 3 then
      match ParseOp(Lower(ToStr(args[1])))
      case None => Err(InvalidOperator)
      case Some(op) =>
        if NeedsList(op) && !args[2].List? then Err(InNeedsArray)
        else Ok(Some(Predicate(ToStr(args[0]), op, args[2])))
    else Err(BadArgumentCount)
  }

  /** One argument: a string is an identifier, an array a list of them. */
  lemma SearchById(id: Value)
    ensures id.Str? ==> BuildSearch([id]) == Ok(Some(Predicate("_id", Is, id)))
    ensures id.List? ==> BuildSearch([id]) == Ok(Some(Predicate("_id", In, id)))
    ensures !id.Str? && !id.List? ==> BuildSearch([id]) == Err(NotStringOrArray)
  {
  }

  /** Three arguments: accepted exactly when the lower-cased operator names
      one of the ten operators and, for 'in' / 'not in', the value is an
      array; the stored predicate is that operator on the field's string form
      with the value untouched. An unknown operator is reported before a
      missing array. */
  lemma SearchByOperator(field: Value, operator: Value, value: Value)
    ensures BuildSearch([field, operator, value]).Ok? <==>
      exists op: Op :: OpName(op) == Lower(ToStr(operator)) && (NeedsList(op) ==> value.List?)
    ensures forall op: Op :: OpName(op) == Lower(ToStr(operator)) && (NeedsList(op) ==> value.List?) ==>
      BuildSearch([field, operator, value]) == Ok(Some(Predicate(ToStr(field), op, value)))
    ensures (forall op: Op :: OpName(op) != Lower(ToStr(operator))) ==>
      BuildSearch([field, operator, value]) == Err(InvalidOperator)
  {
    var args := [field, operator, value];
    var name := Lower(ToStr(args[1]));
    match ParseOp(name)
    case None =>
      assert BuildSearch(args) == Err(InvalidOperator);
    case Some(op) =>
      forall op2: Op | OpName(op2) == name
        ensures op2 == op
      {
        ParseOpName(op2);
      }
      if !NeedsList(op) || value.List? {
        assert BuildSearch(args) == Ok(Some(Predicate(ToStr(field), op, value)));
      } else {
        assert BuildSearch(args) == Err(InNeedsArray);
      }
  }

  /** Two arguments, or more than three, are refused. */
  lemma SearchArity(args: seq<Value>)
    requires |args| == 2 || |args| > 3
    ensures BuildSearch(args) == Err(BadArgumentCount)
  {
  }

  /** The search list after search(...) when it returns, or the exception:
      the predicate, if any, becomes a new AND group of its own. On the
      SQLite query the guard runs first. */
  function SearchCall(sqlite: bool, search: seq<Group>, args: seq<Value>): (r: (seq<Group>, Outcome))
    ensures WellFormed(search) ==> WellFormed(r.0)
    ensures r.1.Fail? ==> r.0 == search
  {
    if sqlite && SqliteQuery.MatchGuard(args).Fail? then (search, SqliteQuery.MatchGuard(args))
    else match BuildSearch(args)
      case Err(e) => (search, Fail(e))
      case Ok(None) => (search, Pass)
      case Ok(Some(p)) => (search + [[p]], Pass)
  }

  /** The search list after orSearch(...) and its outcome: search(...) is
      called, its last group is popped and the popped group's first predicate
      is added to the group that is now last. When no group is left to extend
      the pop has already happened. */
  function OrSearchCall(sqlite: bool, search: seq<Group>, args: seq<Value>): (r: (seq<Group>, Outcome))
    requires WellFormed(search)
    ensures WellFormed(r.0)
  {
    var (pushed, o) := SearchCall(sqlite, search, args);
    if o.Fail? then (search, o)
    else if |pushed| == 0 then (pushed, Fail(NoSearchToExtend))
    else
      var popped := pushed[..|pushed| - 1];
      var p := pushed[|pushed| - 1][0];
      // groups are never empty, so the last one is always truthy
      if |popped| == 0 then (popped, Fail(NoSearchToExtend))
      else
        var last := popped[|popped| - 1];
        (popped[..|popped| - 1] + [last + [p]], Pass)
  }

  /** search(...) with a predicate appends a group; orSearch(...) with the
      same arguments puts that predicate into the last group instead, and
      fails without a group to extend. */
  lemma OrSearchExtendsLastGroup(sqlite: bool, search: seq<Group>, args: seq<Value>, p: Predicate)
    requires WellFormed(search)
    requires SearchCall(sqlite, search, args) == (search + [[p]], Pass)
    ensures |search| == 0 ==> OrSearchCall(sqlite, search, args) == (search, Fail(NoSearchToExtend))
    ensures |search| > 0 ==>
      OrSearchCall(sqlite, search, args) == (search[..|search| - 1] + [search[|search| - 1] + [p]], Pass)
  {
    var pushed := search + [[p]];
    assert pushed[..|pushed| - 1] == search;
  }

  /** orSearch() without arguments pops the last group, keeps its first
      predicate only and adds it to the group before; with a single group,
      that group is lost and the call fails. */
  lemma OrSearchWithoutArguments(sqlite: bool, search: seq<Group>)
    requires WellFormed(search)
    ensures |search| == 0 ==> OrSearchCall(sqlite, search, []) == ([], Fail(NoSearchToExtend))
    ensures |search| == 1 ==> OrSearchCall(sqlite, search, []) == ([], Fail(NoSearchToExtend))
    ensures |search| >= 2 ==>
      var s := search[..|search| - 2] + [search[|search| - 2] + [search[|search| - 1][0]]];
      OrSearchCall(sqlite, search, []) == (s, Pass)
  {
    assert SqliteQuery.MatchGuard([]) == Pass;
    if |search| >= 2 {
      var popped := search[..|search| - 1];
      assert popped[..|popped| - 1] == search[..|search| - 2];
    }
  }

  /** A row satisfies a search list when each group has a predicate that
      holds for it; h says which predicates hold. */
  predicate Holds(h: Predicate -> bool, search: seq<Group>) {
    forall i :: 0 <= i < |search| ==> AnyHolds(h, search[i])
  }

  predicate AnyHolds(h: Predicate -> bool, g: Group) {
    exists j :: 0 <= j < |g| && h(g[j])
  }

  lemma HoldsSnoc(h: Predicate -> bool, search: seq<Group>, g: Group)
    ensures Holds(h, search + [g]) <==> Holds(h, search) && AnyHolds(h, g)
  {
    var s := search + [g];
    assert forall i :: 0 <= i < |search| ==> s[i] == search[i];
    assert s[|search|] == g;
  }

  lemma AnyHoldsSnoc(h: Predicate -> bool, g: Group, p: Predicate)
    ensures AnyHolds(h, g + [p]) <==> AnyHolds(h, g) || h(p)
  {
    var t := g + [p];
    assert t[|g|] == p;
    if AnyHolds(h, g) {
      var j :| 0 <= j < |g| && h(g[j]);
      assert t[j] == g[j];
    }
    if AnyHolds(h, t) {
      var j :| 0 <= j < |t| && h(t[j]);
      if j < |g| {
        assert t[j] == g[j];
      }
    }
  }

  /** Read as a condition, search(...) adds a conjunct and orSearch(...) a
      disjunct of the last group. */
  lemma SearchMeaning(h: Predicate -> bool, sqlite: bool, search: seq<Group>, args: seq<Value>, p: Predicate)
    requires WellFormed(search) && |search| > 0
    requires SearchCall(sqlite, search, args) == (search + [[p]], Pass)
    ensures Holds(h, search + [[p]]) <==> Holds(h, search) && h(p)
    ensures var (s, o) := OrSearchCall(sqlite, search, args);
      o == Pass &&
      (Holds(h, s) <==> Holds(h, search[..|search| - 1]) && (AnyHolds(h, search[|search| - 1]) || h(p)))
  {
    HoldsSnoc(h, search, [p]);
    assert AnyHolds(h, [p]) <==> h(p) by {
      assert [p][0] == p;
    }
    OrSearchExtendsLastGroup(sqlite, search, args, p);
    var init, last := search[..|search| - 1], search[|search| - 1];
    HoldsSnoc(h, init, last + [p]);
    AnyHoldsSnoc(h, last, p);
    HoldsSnoc(h, init, last);
    assert init + [last] == search;
  }

  /** On the SQLite query, an operator that passes the guard is handled by
      the parent exactly as on any SQL query; 'MATCH' in capitals does pass
      it and then becomes the 'match' operator. */
  lemma SqliteDelegates(search: seq<Group>, args: seq<Value>, field: Value, value: Value)
    requires SqliteQuery.MatchGuard(args) == Pass
    ensures SearchCall(true, search, args) == SearchCall(false, search, args)
    ensures SearchCall(true, search, [field, Str("MATCH"), value]) ==
      (search + [[Predicate(ToStr(field), Match, value)]], Pass)
  {
    var upper := "MATCH";
    var args3 := [field, Str(upper), value];
    assert !LooseEqualsWord(args3[1], "match") && !LooseEqualsWord(args3[1], "not match");
    assert SqliteQuery.MatchGuard(args3) == Pass;
    assert Lower(upper) == "match";
    assert ParseOp(Lower(ToStr(args3[1]))) == Some(Match);
  }

  /** join(a, b): each argument is split on '.', its first two parts naming
      a container and a field; a missing or falsy field part is refused. */
  function ParseJoin(field1: string, field2: string): (r: Result<JoinSpec>)
  {
    var p1, p2 := Split(field1, '.'), Split(field2, '.');
    var f1 := if |p1| > 1 then Str(p1[1]) else Null;
    var f2 := if |p2| > 1 then Str(p2[1]) else Null;
    if !Truthy(f1) || !Truthy(f2) then Err(InvalidJoin)
    else Ok(JoinSpec(p1[0], p1[1], p2[0], p2[1]))
  }

  lemma SplitPair(c: string, f: string)
    requires '.' !in c && '.' !in f
    ensures Split(c + "." + f, '.') == [c, f]
  {
    assert Join(".", [c, f]) == c + "." + f;
    SplitJoin([c, f], '.');
  }

  /** 'container.field' arguments are taken apart into exactly the parts
      they were written from. */
  lemma JoinRoundTrip(c1: string, f1: string, c2: string, f2: string)
    requires '.' !in c1 && '.' !in f1 && '.' !in c2 && '.' !in f2
    requires f1 != "" && f1 != "0" && f2 != "" && f2 != "0"
    ensures ParseJoin(c1 + "." + f1, c2 + "." + f2) == Ok(JoinSpec(c1, f1, c2, f2))
  {
    SplitPair(c1, f1);
    SplitPair(c2, f2);
  }

  /** An argument without a dot, or with an empty or '0' field, is refused. */
  lemma JoinRefused(field1: string, field2: string)
    ensures ('.' !in field1 || '.' !in field2) ==> ParseJoin(field1, field2) == Err(InvalidJoin)
    ensures forall c: string, f: string :: '.' !in c && '.' !in f && (f == "" || f == "0") ==>
      ParseJoin(c + "." + f, field2) == Err(InvalidJoin)
  {
    forall c: string, f: string | '.' !in c && '.' !in f && (f == "" || f == "0")
      ensures ParseJoin(c + "." + f, field2) == Err(InvalidJoin)
    {
      SplitPair(c, f);
    }
  }

  /** A snapshot of everything the translators read from a query. */
  datatype QueryState = QueryState(
    name: string, search: seq<Group>, select: seq<Selection>, sort: seq<SortKey>,
    join: seq<JoinSpec>, limit: Option<int>, skip: Option<int>, from: seq<Entry<string>>)

  /** The builder's state. `from` maps each alias to its table, in the order
      the aliases were first given; `sqlite` marks the SQLite query, whose
      search (also when called from orSearch) runs the match guard. */
  class Query {
    const name: string
    const sqlite: bool
    var search: seq<Group>
    var select: seq<Selection>
    var sort: seq<SortKey>
    var join: seq<JoinSpec>
    var limit: Option<int>
    var skip: Option<int>
    var from: seq<Entry<string>>

    ghost predicate Valid()
      reads this
    {
      WellFormed(search) && UniqueKeys(from)
    }

    function State(): QueryState
      reads this
    {
      QueryState(name, search, select, sort, join, limit, skip, from)
    }

    constructor (name: string, sqlite: bool)
      ensures Valid()
      ensures this.name == name && this.sqlite == sqlite
      ensures search == [] && select == [] && sort == [] && join == []
      ensures limit == None && skip == None && from == []
    {
      this.name := name;
      this.sqlite := sqlite;
      search := [];
      select := [];
      sort := [];
      join := [];
      limit := None;
      skip := None;
      from := [];
    }

    method Search(args: seq<Value>) returns (o: Outcome)
      requires Valid()
      modifies this`search
      ensures Valid()
      ensures (search, o) == SearchCall(sqlite, old(search), args)
    {
      if sqlite {
        o := SqliteQuery.MatchGuard(args);
        if o.Fail? {
          return;
        }
      }
      var r := BuildSearch(args);
      match r
      case Err(e) =>
        o := Fail(e);
      case Ok(None) =>
        o := Pass;
      case Ok(Some(p)) =>
        search := search + [[p]];
        o := Pass;
    }

    method OrSearch(args: seq<Value>) returns (o: Outcome)
      requires Valid()
      modifies this`search
      ensures Valid()
      ensures (search, o) == OrSearchCall(sqlite, old(search), args)
    {
      o := Search(args);
      if o.Fail? {
        return;
      }
      if |search| == 0 {
        o := Fail(NoSearchToExtend);
        return;
      }
      var p := search[|search| - 1][0];
      search := search[..|search| - 1];
      if |search| == 0 {
        o := Fail(NoSearchToExtend);
        return;
      }
      var k := |search| - 1;
      search := search[k := search[k] + [p]];
      assert search == search[..k] + [search[k]];
    }

    method Join(field1: string, field2: string) returns (o: Outcome)
      requires Valid()
      modifies this`join
      ensures Valid()
      ensures ParseJoin(field1, field2).Err? ==> join == old(join) && o == Fail(InvalidJoin)
      ensures ParseJoin(field1, field2).Ok? ==> join == old(join) + [ParseJoin(field1, field2).value] && o == Pass
    {
      match ParseJoin(field1, field2)
      case Err(e) =>
        o := Fail(e);
      case Ok(j) =>
        join := join + [j];
        o := Pass;
    }

    /** select(field, alias = ''): both are cast to strings. */
    method Select(field: Value, alias: Value := Str(""))
      requires Valid()
      modifies this`select
      ensures Valid()
      ensures select == old(select) + [Selection(ToStr(field), ToStr(alias))]
    {
      select := select + [Selection(ToStr(field), ToStr(alias))];
    }

    /** sort(field, order = 'asc'): the order is lower-cased. */
    method Sort(field: Value, order: Value := Str("asc"))
      requires Valid()
      modifies this`sort
      ensures Valid()
      ensures sort == old(sort) + [SortKey(ToStr(field), Lower(ToStr(order)))]
    {
      sort := sort + [SortKey(ToStr(field), Lower(ToStr(order)))];
    }

    method Limit(number: Value)
      requires Valid()
      modifies this`limit
      ensures Valid()
      ensures limit == Some(ToInt(number))
    {
      limit := Some(ToInt(number));
    }

    method Skip(number: Value)
      requires Valid()
      modifies this`skip
      ensures Valid()
      ensures skip == Some(ToInt(number))
    {
      skip := Some(ToInt(number));
    }

    /** from(table, alias): giving an alias again replaces its table in place. */
    method From(table: Value, alias: Value)
      requires Valid()
      modifies this`from
      ensures Valid()
      ensures from == Set(old(from), ToStr(alias), ToStr(table))
      ensures Lookup(from, ToStr(alias)) == Some(ToStr(table))
      ensures forall a :: a != ToStr(alias) ==> Lookup(from, a) == Lookup(old(from), a)
    {
      UniqueSet(from, ToStr(alias), ToStr(table));
      forall a {
        LookupSet(from, ToStr(alias), ToStr(table), a);
      }
      from := Set(from, ToStr(alias), ToStr(table));
    }
  }
}
