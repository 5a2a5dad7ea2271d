/** The document-store query (newer API): the search list becomes a filter
    document, the selections a projection, the sort keys a sort document;
    fetched documents have their aliases resolved, joined collections merged
    in, and their identifiers turned into strings. */
module MongodbQuery {
  import opened Values
  import opened Assoc
  import opened Documents
  import opened AbstractQuery
  import PdoQuery

  // ------------------------------------------------------------ conditions

  /** str_replace of one character by a string, left to right. */
  function ReplaceChar(s: string, c: char, with: string): string
    decreases |s|
  {
    if |s| == 0 then "" else (if s[0] == c then with else [s[0]]) + ReplaceChar(s[1..], c, with)
  }

  /** The LIKE wildcards as a regular expression, written as the source does
      it: every '_' becomes '.', then every '%' becomes '.+?'. */
  function LikeText(s: string): string {
    ReplaceChar(ReplaceChar(s, '_', "."), '%', ".+?")
  }

  /** The same rewriting read character by character. */
  function WildcardChar(c: char): string {
    if c == '_' then "." else if c == '%' then ".+?" else [c]
  }

  function Wildcards(s: string): string
    decreases |s|
  {
    if |s| == 0 then "" else WildcardChar(s[0]) + Wildcards(s[1..])
  }

  lemma {:induction false} ReplaceCharAppend(a: string, b: string, c: char, with: string)
    ensures ReplaceChar(a + b, c, with) == ReplaceChar(a, c, with) + ReplaceChar(b, c, with)
    decreases |a|
  {
    if |a| > 0 {
      assert (a + b)[1..] == a[1..] + b;
      ReplaceCharAppend(a[1..], b, c, with);
    } else {
      assert a + b == b;
    }
  }

  /** The two passes never interfere: the dot that replaces '_' holds no
      '%', so each wildcard is rewritten once, and nothing else changes. */
  lemma {:induction false} LikeTextCharwise(s: string)
    ensures LikeText(s) == Wildcards(s)
    decreases |s|
  {
    if |s| > 0 {
      var head := if s[0] == '_' then "." else [s[0]];
      var rest := ReplaceChar(s[1..], '_', ".");
      assert ReplaceChar(s, '_', ".") == head + rest;
      ReplaceCharAppend(head, rest, '%', ".+?");
      assert ReplaceChar(head, '%', ".+?") == WildcardChar(s[0]) by {
        assert ReplaceChar(head[1..], '%', ".+?") == "";
      }
      LikeTextCharwise(s[1..]);
    }
  }

  /** The regular expression for a LIKE value: str_replace casts a single
      value to a string and rewrites each scalar entry of an array. */
  function LikePattern(v: Value): (r: Value)
    ensures !v.List? ==> r == Str(LikeText(ToStr(v)))
  {
    match v
    case List(xs) =>
      List(seq(|xs|, i requires 0 <= i < |xs| =>
        if xs[i].List? || xs[i].ObjectId? then xs[i] else Str(LikeText(ToStr(xs[i])))))
    case _ => Str(LikeText(ToStr(v)))
  }

  /** composeCondition: one predicate as a filter document. */
  function Condition(field: string, op: Op, value: Value): Bson {
    match op
    case Is => Pair(field, Val(value))
    case IsNot => Pair(field, Pair("$ne", Val(value)))
    case Greater => Pair(field, Pair("$gt", Val(value)))
    case Less => Pair(field, Pair("$lt", Val(value)))
    case In => Pair(field, Pair("$in", Val(value)))
    case NotIn => Pair(field, Pair("$nin", Val(value)))
    case Like => Pair(field, Pair("$regex", Val(LikePattern(value))))
    case NotLike => Pair(field, Pair("$not", Pair("$regex", Val(LikePattern(value)))))
    case Match => Pair(field, Pair("$regex", Val(value)))
    case NotMatch => Pair(field, Pair("$not", Pair("$regex", Val(value))))
  }

  /** Reads a condition document back as field, operator and value. */
  function ReadCondition(c: Bson): Option<Predicate> {
    if !c.Doc? || |c.fields| != 1 then None
    else
      var field, test := c.fields[0].key, c.fields[0].val;
      match test
      case Val(v) => Some(Predicate(field, Is, v))
      case Arr(_) => None
      case Doc(fs) =>
        if |fs| != 1 then None
        else
          var key, inner := fs[0].key, fs[0].val;
          if key == "$not" then
            (if inner.Doc? && |inner.fields| == 1 && inner.fields[0].key == "$regex" && inner.fields[0].val.Val?
             then Some(Predicate(field, NotMatch, inner.fields[0].val.v)) else None)
          else if !inner.Val? then None
          else if key == "$ne" then Some(Predicate(field, IsNot, inner.v))
          else if key == "$gt" then Some(Predicate(field, Greater, inner.v))
          else if key == "$lt" then Some(Predicate(field, Less, inner.v))
          else if key == "$in" then Some(Predicate(field, In, inner.v))
          else if key == "$nin" then Some(Predicate(field, NotIn, inner.v))
          else if key == "$regex" then Some(Predicate(field, Match, inner.v))
          else None
  }

  /** What a condition says once LIKE is written as a regular expression. */
  function AsRegex(p: Predicate): Predicate {
    match p.op
    case Like => Predicate(p.field, Match, LikePattern(p.value))
    case NotLike => Predicate(p.field, NotMatch, LikePattern(p.value))
    case _ => p
  }

  /** A condition keeps its field, operator and value: reading it back
      gives the predicate, with LIKE read as the regular expression for
      its pattern. */
  lemma ConditionRoundTrip(field: string, op: Op, value: Value)
    ensures ReadCondition(Condition(field, op, value)) == Some(AsRegex(Predicate(field, op, value)))
  {
  }

  /** like / not like are match / not match on the rewritten pattern. */
  lemma LikeIsMatch(field: string, value: Value)
    ensures Condition(field, Like, value) == Condition(field, Match, LikePattern(value))
    ensures Condition(field, NotLike, value) == Condition(field, NotMatch, LikePattern(value))
  {
  }

  /** Identifiers are searched as ObjectID objects: the value itself, or
      each element of a list. Other fields keep their value. */
  function FormatId(field: string, value: Value): (r: Value)
    ensures field != "_id" ==> r == value
    ensures field == "_id" && !value.List? ==> r == ObjectId(value)
    ensures field == "_id" && value.List? ==>
      r.List? && |r.elems| == |value.elems| &&
      forall i :: 0 <= i < |value.elems| ==> r.elems[i] == ObjectId(value.elems[i])
  {
    if field != "_id" then value
    else if value.List? then List(seq(|value.elems|, i requires 0 <= i < |value.elems| => ObjectId(value.elems[i])))
    else ObjectId(value)
  }

  function PredicateCondition(p: Predicate): Bson {
    Condition(p.field, p.op, FormatId(p.field, p.value))
  }

  function GroupConds(g: Group): (r: seq<Bson>)
    ensures |r| == |g|
  {
    seq(|g|, i requires 0 <= i < |g| => PredicateCondition(g[i]))
  }

  function GroupFilters(search: seq<Group>): (r: seq<Bson>)
    ensures |r| == |search|
  {
    seq(|search|, i requires 0 <= i < |search| => OrOf(GroupConds(search[i])))
  }

  /** _prepareQuery: the filter for a search list. */
  function SearchFilter(search: seq<Group>): Bson {
    AndOf(GroupFilters(search))
  }

  /** A condition is never read as {} or as a combinator. */
  lemma ConditionIsLeaf(p: Predicate, leaf: Bson -> bool)
    ensures Eval(PredicateCondition(p), leaf) == leaf(PredicateCondition(p))
  {
    var c := PredicateCondition(p);
    assert c.fields[0].key == p.field;
    assert !c.fields[0].val.Arr?;
  }

  /** The filter matches a document exactly when, in every group, one of the
      predicates' conditions matches it: collapsing one-member groups and a
      one-group list changes nothing, and no search at all matches all. */
  lemma FilterMeaning(search: seq<Group>, leaf: Bson -> bool)
    ensures Eval(SearchFilter(search), leaf) <==> Holds(p => leaf(PredicateCondition(p)), search)
  {
    var h := p => leaf(PredicateCondition(p));
    var gs := GroupFilters(search);
    EvalAndOf(gs, leaf);
    forall i | 0 <= i < |search| ensures Eval(gs[i], leaf) <==> AnyHolds(h, search[i]) {
      var cs := GroupConds(search[i]);
      EvalOrOf(cs, leaf);
      forall j | 0 <= j < |cs| ensures Eval(cs[j], leaf) == h(search[i][j]) {
        ConditionIsLeaf(search[i][j], leaf);
      }
    }
  }

  /** The filter's outer shape follows the number of groups and the size of
      a single group. */
  lemma FilterShape(search: seq<Group>)
    ensures |search| == 0 ==> SearchFilter(search) == Doc([])
    ensures |search| == 1 && |search[0]| == 1 ==> SearchFilter(search) == PredicateCondition(search[0][0])
    ensures |search| == 1 && |search[0]| != 1 ==> SearchFilter(search) == Pair("$or", Arr(GroupConds(search[0])))
    ensures |search| > 1 ==> SearchFilter(search) == Pair("$and", Arr(GroupFilters(search)))
  {
  }

  /** The values of an identifier search wrapped one by one. */
  method WrapIds(elems: seq<Value>) returns (wrapped: seq<Value>)
    ensures List(wrapped) == FormatId("_id", List(elems))
  {
    wrapped := elems;
    for i := 0 to |elems|
      invariant |wrapped| == |elems|
      invariant forall k :: 0 <= k < i ==> wrapped[k] == ObjectId(elems[k])
      invariant forall k :: i <= k < |elems| ==> wrapped[k] == elems[k]
    {
      wrapped := wrapped[i := ObjectId(wrapped[i])];
    }
  }

  method PrepareConditions(g: Group) returns (ors: seq<Bson>)
    ensures ors == GroupConds(g)
  {
    ors := [];
    for j := 0 to |g|
      invariant ors == GroupConds(g[..j])
    {
      var value := g[j].value;
      if g[j].field == "_id" {
        if value.List? {
          var elems := WrapIds(value.elems);
          value := List(elems);
        } else {
          value := ObjectId(value);
        }
      }
      assert g[..j + 1][..j] == g[..j];
      ors := ors + [Condition(g[j].field, g[j].op, value)];
    }
    assert g[..|g|] == g;
  }

  method PrepareQuery(searches: seq<Group>) returns (filter: Bson)
    ensures filter == SearchFilter(searches)
  {
    var ands: seq<Bson> := [];
    for i := 0 to |searches|
      invariant ands == GroupFilters(searches[..i])
    {
      var ors := PrepareConditions(searches[i]);
      assert searches[..i + 1][..i] == searches[..i];
      if |ors| == 1 {
        ands := ands + [ors[0]];
      } else {
        ands := ands + [Pair("$or", Arr(ors))];
      }
    }
    assert searches[..|searches|] == searches;
    if |ands| == 0 {
      filter := Doc([]);
    } else if |ands| == 1 {
      filter := ands[0];
    } else {
      filter := Pair("$and", Arr(ands));
    }
  }

  // ------------------------------------------------- projection and sorting

  /** The projection: every selected field without a '.', mapped to 1; the
      dotted ones belong to joined collections. */
  function Projection(select: seq<Selection>): seq<Entry<Value>>
    decreases |select|
  {
    if |select| == 0 then []
    else
      var proj := Projection(select[..|select| - 1]);
      var s := select[|select| - 1];
      if '.' !in s.field then Set(proj, s.field, Int(1)) else proj
  }

  function Direction(order: string): int {
    if order == "asc" then 1 else -1
  }

  /** The sort document: each field mapped to 1 for 'asc' and -1 otherwise;
      a field sorted again keeps its place and takes the later order. */
  function Sorts(sort: seq<SortKey>): seq<Entry<Value>>
    decreases |sort|
  {
    if |sort| == 0 then []
    else Set(Sorts(sort[..|sort| - 1]), sort[|sort| - 1].field, Int(Direction(sort[|sort| - 1].order)))
  }

  predicate Selected(select: seq<Selection>, f: string) {
    exists i :: 0 <= i < |select| && select[i].field == f
  }

  lemma SelectedSnoc(select: seq<Selection>, f: string)
    requires |select| > 0
    ensures Selected(select, f) <==> Selected(select[..|select| - 1], f) || select[|select| - 1].field == f
  {
    var init := select[..|select| - 1];
    if Selected(select, f) {
      var i :| 0 <= i < |select| && select[i].field == f;
      if i < |init| {
        assert init[i] == select[i];
      }
    }
    if Selected(init, f) {
      var i :| 0 <= i < |init| && init[i].field == f;
      assert select[i] == init[i];
    }
  }

  /** Exactly the undotted selected fields are projected, each to 1. */
  lemma {:induction false} ProjectionFields(select: seq<Selection>, f: string)
    ensures Lookup(Projection(select), f) == if '.' !in f && Selected(select, f) then Some(Int(1)) else None
    decreases |select|
  {
    if |select| > 0 {
      var init, s := select[..|select| - 1], select[|select| - 1];
      ProjectionFields(init, f);
      SelectedSnoc(select, f);
      if '.' !in s.field {
        LookupSet(Projection(init), s.field, Int(1), f);
      }
    }
  }

  /** A sorted field reads the direction of its last sort key; unsorted
      fields are absent. */
  lemma {:induction false} SortsLast(sort: seq<SortKey>, f: string, i: nat)
    requires i < |sort| && sort[i].field == f
    requires forall j :: i < j < |sort| ==> sort[j].field != f
    ensures Lookup(Sorts(sort), f) == Some(Int(Direction(sort[i].order)))
    decreases |sort|
  {
    var init, last := sort[..|sort| - 1], sort[|sort| - 1];
    LookupSet(Sorts(init), last.field, Int(Direction(last.order)), f);
    if i < |init| {
      SortsLast(init, f, i);
    }
  }

  lemma {:induction false} SortsAbsent(sort: seq<SortKey>, f: string)
    requires forall j :: 0 <= j < |sort| ==> sort[j].field != f
    ensures Lookup(Sorts(sort), f) == None
    decreases |sort|
  {
    if |sort| > 0 {
      var init, last := sort[..|sort| - 1], sort[|sort| - 1];
      LookupSet(Sorts(init), last.field, Int(Direction(last.order)), f);
      SortsAbsent(init, f);
    }
  }

  method PrepareProjection(select: seq<Selection>) returns (projection: seq<Entry<Value>>)
    ensures projection == Projection(select)
  {
    projection := [];
    for i := 0 to |select|
      invariant projection == Projection(select[..i])
    {
      assert select[..i + 1][..i] == select[..i];
      if '.' !in select[i].field {
        projection := Set(projection, select[i].field, Int(1));
      }
    }
    assert select[..|select|] == select;
  }

  method PrepareSorts(sort: seq<SortKey>) returns (sorts: seq<Entry<Value>>)
    ensures sorts == Sorts(sort)
  {
    sorts := [];
    for i := 0 to |sort|
      invariant sorts == Sorts(sort[..i])
    {
      assert sort[..i + 1][..i] == sort[..i];
      var order := if sort[i].order == "asc" then 1 else -1;
      sorts := Set(sorts, sort[i].field, Int(order));
    }
    assert sort[..|sort|] == sort;
  }

  /** What _initCursor hands to the driver. */
  datatype FindRequest = FindRequest(
    filter: Bson, projection: seq<Entry<Value>>, sort: seq<Entry<Value>>, limit: Option<int>, skip: Option<int>)

  function Request(st: QueryState): FindRequest {
    FindRequest(SearchFilter(st.search), Projection(st.select), Sorts(st.sort), st.limit, st.skip)
  }

  // ------------------------------------------------------------- aliases

  /** A row has the field set and the alias set too. */
  predicate Clash(row: Row, field: string, alias: string) {
    IsSet(row, field) && IsSet(row, alias)
  }

  /** The field's value moves to the alias, in a row that has the field set. */
  function MoveAlias(row: Row, field: string, alias: string): Row {
    if IsSet(row, field) then Unset(Set(row, alias, Get(row, field)), field) else row
  }

  /** The resolve closure: refused as ambiguous when a row has both the
      field and the alias set, otherwise every row moves the field. */
  function Resolve(field: string, alias: string, rows: seq<Row>): (r: Result<seq<Row>>)
    ensures r.Ok? ==> |r.value| == |rows|
  {
    if exists i :: 0 <= i < |rows| && Clash(rows[i], field, alias) then Err(AmbiguousAlias)
    else Ok(seq(|rows|, i requires 0 <= i < |rows| => MoveAlias(rows[i], field, alias)))
  }

  /** After the move the alias reads the field's old value and the field is
      gone; every other key reads as before. */
  lemma MoveAliasReads(row: Row, field: string, alias: string, k: string)
    requires UniqueKeys(row) && !Clash(row, field, alias) && IsSet(row, field)
    ensures Get(MoveAlias(row, field, alias), k) ==
      if k == alias then Get(row, field) else if k == field then Null else Get(row, k)
  {
    var moved := Set(row, alias, Get(row, field));
    UniqueSet(row, alias, Get(row, field));
    LookupUnset(moved, field, k);
    LookupSet(row, alias, Get(row, field), k);
  }

  /** The field a selection renames in the rows of a collection: an
      undotted field only in the root collection, 'coll.field' only in the
      collection named coll; none without a truthy alias. */
  function AliasTarget(s: Selection, collection: string, root: string): Option<string> {
    if !Truthy(Str(s.alias)) then None
    else if '.' !in s.field then (if collection == root then Some(s.field) else None)
    else
      var parts := Split(s.field, '.');
      if parts[0] == collection && |parts| >= 2 then Some(parts[1]) else None
  }

  /** _resolveAliases: the selections are applied in order. */
  function ResolveAliases(select: seq<Selection>, collection: string, root: string, rows: seq<Row>): (r: Result<seq<Row>>)
    ensures r.Ok? ==> |r.value| == |rows|
    decreases |select|
  {
    if |select| == 0 then Ok(rows)
    else
      match ResolveAliases(select[..|select| - 1], collection, root, rows)
      case Err(e) => Err(e)
      case Ok(rs) =>
        var s := select[|select| - 1];
        match AliasTarget(s, collection, root)
        case None => Ok(rs)
        case Some(f) => Resolve(f, s.alias, rs)
  }

  lemma SplitDotted(s: string)
    requires '.' in s
    ensures |Split(s, '.')| >= 2
  {
    var k := IndexOf(s, '.');
    assert k < |s|;
  }

  /** A row of the root collection loses its field to the alias, and a
      dotted selection of another collection leaves it alone. */
  lemma AliasTargets(field: string, alias: string, coll: string, root: string)
    requires Truthy(Str(alias)) && '.' !in field && '.' !in coll
    ensures AliasTarget(Selection(field, alias), root, root) == Some(field)
    ensures coll != root ==> AliasTarget(Selection(field, alias), coll, root) == None
    ensures AliasTarget(Selection(coll + "." + field, alias), coll, root) == Some(field)
    ensures AliasTarget(Selection(field, ""), root, root) == None
  {
    var dotted := coll + "." + field;
    var ps := Split(dotted, '.');
    assert dotted == Join(".", [coll, field]);
    SplitJoin([coll, field], '.');
    assert ps == [coll, field];
  }

  method ResolveRows(field: string, alias: string, rows: seq<Row>) returns (r: Result<seq<Row>>)
    ensures r == Resolve(field, alias, rows)
  {
    var results := rows;
    for i := 0 to |rows|
      invariant |results| == |rows|
      invariant forall k :: 0 <= k < i ==> !Clash(rows[k], field, alias) && results[k] == MoveAlias(rows[k], field, alias)
      invariant forall k :: i <= k < |rows| ==> results[k] == rows[k]
    {
      if IsSet(results[i], field) {
        if IsSet(results[i], alias) {
          return Err(AmbiguousAlias);
        }
        results := results[i := Unset(Set(results[i], alias, Get(results[i], field)), field)];
      }
    }
    r := Ok(results);
    assert results == seq(|rows|, i requires 0 <= i < |rows| => MoveAlias(rows[i], field, alias));
  }

  /** A refusal stops the resolution: later selections are not looked at. */
  lemma {:induction false} ResolveAliasesStops(select: seq<Selection>, i: nat, collection: string, root: string, rows: seq<Row>)
    requires i <= |select| && ResolveAliases(select[..i], collection, root, rows).Err?
    ensures ResolveAliases(select, collection, root, rows) == ResolveAliases(select[..i], collection, root, rows)
    decreases |select|
  {
    if i < |select| {
      var init := select[..|select| - 1];
      assert init[..i] == select[..i];
      ResolveAliasesStops(init, i, collection, root, rows);
    } else {
      assert select[..i] == select;
    }
  }

  /** The field a selection renames, worked out as the source does. */
  method Target(s: Selection, collection: string, root: string) returns (t: Option<string>)
    ensures t == AliasTarget(s, collection, root)
  {
    t := None;
    if !Truthy(Str(s.alias)) {
      return;
    }
    if '.' !in s.field {
      if collection == root {
        t := Some(s.field);
      }
    } else {
      var parts := Split(s.field, '.');
      SplitDotted(s.field);
      if parts[0] == collection {
        t := Some(parts[1]);
      }
    }
  }

  method PrepareAliases(select: seq<Selection>, collection: string, root: string, rows: seq<Row>)
    returns (r: Result<seq<Row>>)
    ensures r == ResolveAliases(select, collection, root, rows)
  {
    var results := rows;
    for i := 0 to |select|
      invariant ResolveAliases(select[..i], collection, root, rows) == Ok(results)
    {
      assert select[..i + 1][..i] == select[..i];
      var t := Target(select[i], collection, root);
      if t.Some? {
        var rr := ResolveRows(t.value, select[i].alias, results);
        if rr.Err? {
          ResolveAliasesStops(select, i + 1, collection, root, rows);
          return rr;
        }
        results := rr.value;
      }
    }
    assert select[..|select|] == select;
    r := Ok(results);
  }

  /** Resolving one alias: refused exactly when some row has both the field
      and the alias set; otherwise, in each row that has the field set, the
      alias takes its value and the field is dropped, and the other keys and
      rows stay as they were. */
  lemma ResolveMeaning(field: string, alias: string, rows: seq<Row>, i: nat, k: string)
    requires i < |rows| && UniqueKeys(rows[i])
    ensures Resolve(field, alias, rows).Err? <==> exists j :: 0 <= j < |rows| && Clash(rows[j], field, alias)
    ensures Resolve(field, alias, rows).Ok? ==>
      Get(Resolve(field, alias, rows).value[i], k) ==
        if !IsSet(rows[i], field) then Get(rows[i], k)
        else if k == alias then Get(rows[i], field)
        else if k == field then Null
        else Get(rows[i], k)
  {
    if Resolve(field, alias, rows).Ok? && IsSet(rows[i], field) {
      assert !Clash(rows[i], field, alias);
      MoveAliasReads(rows[i], field, alias, k);
    }
  }

  // ---------------------------------------------------------------- joins

  /** A join as seen from the collections joined so far: the field of the
      current rows, the collection to fetch and the field matched there. */
  datatype Side = Side(field1: string, collection2: string, field2: string)

  function OrientJoin(j: JoinSpec, joined: seq<string>): Side {
    if j.container1 in joined then Side(j.field1, j.container2, j.field2)
    else Side(j.field2, j.container1, j.field1)
  }

  /** The documents are joined by the same rule as the SQL tables: the side
      already joined keeps its field, and the other side is reached. */
  lemma OrientLikeSql(j: JoinSpec, joined: seq<string>)
    ensures var l := PdoQuery.Orient(j, joined);
      OrientJoin(j, joined) == Side(l.field1, l.table2, l.field2) &&
      (j.container1 in joined ==> l.table1 == j.container1)
  {
  }

  /** The non-null values of field1, in row order: what the secondary
      collection is searched for. */
  function JoinValues(rows: seq<Row>, field1: string): seq<Value>
    decreases |rows|
  {
    if |rows| == 0 then []
    else
      var v := Get(rows[|rows| - 1], field1);
      JoinValues(rows[..|rows| - 1], field1) + (if v != Null then [v] else [])
  }

  lemma {:induction false} JoinValuesMembers(rows: seq<Row>, field1: string, v: Value)
    ensures v in JoinValues(rows, field1) <==> v != Null && exists i :: 0 <= i < |rows| && Get(rows[i], field1) == v
    decreases |rows|
  {
    if |rows| > 0 {
      var init := rows[..|rows| - 1];
      JoinValuesMembers(init, field1, v);
      if exists i :: 0 <= i < |rows| && Get(rows[i], field1) == v {
        var i :| 0 <= i < |rows| && Get(rows[i], field1) == v;
        if i < |init| {
          assert init[i] == rows[i];
        }
      }
      if exists i :: 0 <= i < |init| && Get(init[i], field1) == v {
        var i :| 0 <= i < |init| && Get(init[i], field1) == v;
        assert rows[i] == init[i];
      }
    }
  }

  /** A value used as an array key: null is '', booleans are 0 and 1,
      integers and strings stand for themselves (a decimal string and its
      integer are one key); arrays and objects are illegal offsets. */
  function KeyOf(v: Value): Result<string> {
    match v
    case Null => Ok("")
    case Bool(b) => Ok(if b then "1" else "0")
    case Int(i) => Ok(IntToStr(i))
    case Str(s) => Ok(s)
    case List(_) => Err(IllegalOffset)
    case ObjectId(_) => Err(IllegalOffset)
  }

  /** The row positions listed under a key. */
  function Bucket(index: seq<Entry<seq<nat>>>, k: string): seq<nat> {
    match Lookup(index, k)
    case Some(ids) => ids
    case None => []
  }

  /** One row of the index loop, as written: the bucket of the row's key k
      is emptied first whenever the index has a key spelt like the field's
      name, then the row's position is appended to it. */
  function AddRow(index: seq<Entry<seq<nat>>>, field1: string, k: string, pos: nat): seq<Entry<seq<nat>>> {
    var cleared := if Has(index, field1) then Set(index, k, []) else index;
    Set(cleared, k, Bucket(cleared, k) + [pos])
  }

  lemma AddRowReads(index: seq<Entry<seq<nat>>>, field1: string, k: string, pos: nat, j: string)
    ensures Bucket(AddRow(index, field1, k, pos), j) ==
      if j != k then Bucket(index, j)
      else if Has(index, field1) then [pos]
      else Bucket(index, k) + [pos]
    ensures Has(AddRow(index, field1, k, pos), j) <==> j == k || Has(index, j)
  {
    var cleared := if Has(index, field1) then Set(index, k, []) else index;
    LookupSet(cleared, k, Bucket(cleared, k) + [pos], j);
    LookupSet(index, k, [], j);
    LookupSet(index, k, [], k);
    FindHas(AddRow(index, field1, k, pos), j);
    FindHas(cleared, j);
    FindHas(index, j);
  }

  /** The array keys the rows' field1 values stand for; a value that cannot
      be an array key fails the loop. */
  function RowKeys(rows: seq<Row>, field1: string): (r: Result<seq<string>>)
    ensures r.Err? <==> exists i :: 0 <= i < |rows| && KeyOf(Get(rows[i], field1)).Err?
    ensures r.Err? ==> r.error == IllegalOffset
    ensures r.Ok? ==> |r.value| == |rows| && forall i :: 0 <= i < |rows| ==> Ok(r.value[i]) == KeyOf(Get(rows[i], field1))
    decreases |rows|
  {
    if |rows| == 0 then Ok([])
    else
      var init := rows[..|rows| - 1];
      var prev := RowKeys(init, field1);
      var key := KeyOf(Get(rows[|rows| - 1], field1));
      assert forall i :: 0 <= i < |init| ==> init[i] == rows[i];
      if prev.Err? then prev
      else if key.Err? then Err(key.error)
      else Ok(prev.value + [key.value])
  }

  /** The index loop over the keys, the bucket quirk included. */
  function IndexKeys(keys: seq<string>, field1: string): seq<Entry<seq<nat>>>
    decreases |keys|
  {
    if |keys| == 0 then []
    else AddRow(IndexKeys(keys[..|keys| - 1], field1), field1, keys[|keys| - 1], |keys| - 1)
  }

  /** The index from field1 values to row positions. */
  function BuildMap(rows: seq<Row>, field1: string): Result<seq<Entry<seq<nat>>>> {
    match RowKeys(rows, field1)
    case Ok(keys) => Ok(IndexKeys(keys, field1))
    case Err(e) => Err(e)
  }

  /** The positions holding the key k. */
  function Positions(keys: seq<string>, k: string): (r: seq<nat>)
    decreases |keys|
  {
    if |keys| == 0 then []
    else Positions(keys[..|keys| - 1], k) + (if keys[|keys| - 1] == k then [|keys| - 1] else [])
  }

  /** Every key of the index is one of the keys. */
  lemma {:induction false} IndexKeysHas(keys: seq<string>, field1: string, k: string)
    ensures Has(IndexKeys(keys, field1), k) <==> k in keys
    decreases |keys|
  {
    if |keys| > 0 {
      var init := keys[..|keys| - 1];
      IndexKeysHas(init, field1, k);
      AddRowReads(IndexKeys(init, field1), field1, keys[|keys| - 1], |keys| - 1, k);
      assert keys == init + [keys[|keys| - 1]];
    }
  }

  /** While no key is spelt like the field's name, every bucket lists the
      positions holding its key, in order. */
  lemma {:induction false} IndexKeysPositions(keys: seq<string>, field1: string, k: string)
    requires field1 !in keys
    ensures Bucket(IndexKeys(keys, field1), k) == Positions(keys, k)
    decreases |keys|
  {
    if |keys| > 0 {
      var init := keys[..|keys| - 1];
      assert field1 !in init;
      IndexKeysPositions(init, field1, k);
      IndexKeysHas(init, field1, field1);
      AddRowReads(IndexKeys(init, field1), field1, keys[|keys| - 1], |keys| - 1, k);
    }
  }

  /** The index of the rows, read against the rows: the loop fails exactly
      when a value is an array or object, and while no row's value is spelt
      like the field's name each bucket lists the rows holding that value. */
  lemma BuildMapPositions(rows: seq<Row>, field1: string, k: string, i: nat)
    requires BuildMap(rows, field1).Ok?
    requires forall j :: 0 <= j < |rows| ==> KeyOf(Get(rows[j], field1)) != Ok(field1)
    requires i < |rows|
    ensures i in Bucket(BuildMap(rows, field1).value, k) <==> KeyOf(Get(rows[i], field1)) == Ok(k)
  {
    var keys := RowKeys(rows, field1).value;
    assert forall j :: 0 <= j < |keys| ==> keys[j] != field1;
    IndexKeysPositions(keys, field1, k);
    PositionsMembers(keys, k, i);
  }

  lemma {:induction false} PositionsMembers(keys: seq<string>, k: string, i: nat)
    ensures i in Positions(keys, k) <==> i < |keys| && keys[i] == k
    decreases |keys|
  {
    if |keys| > 0 {
      PositionsMembers(keys[..|keys| - 1], k, i);
    }
  }

  /** The quirk at work: once a row's value equals the field's name, the
      bucket of each later row is emptied first, so a value seen before the
      name and again after it keeps only its last position. */
  lemma MapQuirk(field1: string, a: string)
    requires a != field1
    ensures var keys := [a, field1, a];
      Bucket(IndexKeys(keys, field1), a) == [2] && Positions(keys, a) == [0, 2]
  {
    var keys := [a, field1, a];
    assert keys[..2] == [a, field1] && [a, field1][..1] == [a] && [a][..0] == [];
    var m1 := AddRow([], field1, a, 0);
    AddRowReads([], field1, a, 0, field1);
    assert IndexKeys([a], field1) == m1;
    var m2 := AddRow(m1, field1, field1, 1);
    AddRowReads(m1, field1, field1, 1, field1);
    assert IndexKeys([a, field1], field1) == m2;
    assert IndexKeys(keys, field1) == AddRow(m2, field1, a, 2);
    AddRowReads(m2, field1, a, 2, a);
    assert Positions([a], a) == [0];
    assert Positions([a, field1], a) == [0];
    assert Positions(keys, a) == Positions([a, field1], a) + [2];
  }

  /** Row positions, each listed once and in increasing order. */
  predicate Increasing(ids: seq<nat>) {
    forall a, b :: 0 <= a < b < |ids| ==> ids[a] < ids[b]
  }

  /** The buckets of the index list positions below the number of keys, in
      increasing order, so no row is merged twice by one secondary row. */
  lemma {:induction false} IndexKeysBuckets(keys: seq<string>, field1: string, k: string)
    ensures Increasing(Bucket(IndexKeys(keys, field1), k))
    ensures forall a :: 0 <= a < |Bucket(IndexKeys(keys, field1), k)| ==> Bucket(IndexKeys(keys, field1), k)[a] < |keys|
    decreases |keys|
  {
    if |keys| > 0 {
      var n := |keys| - 1;
      var init := keys[..n];
      var prev := IndexKeys(init, field1);
      IndexKeysBuckets(init, field1, k);
      assert IndexKeys(keys, field1) == AddRow(prev, field1, keys[n], n);
      AddRowReads(prev, field1, keys[n], n, k);
      if keys[n] == k && !Has(prev, field1) {
        IncreasingSnoc(Bucket(prev, k), n);
      }
    }
  }

  lemma IncreasingSnoc(ids: seq<nat>, x: nat)
    requires Increasing(ids) && forall a :: 0 <= a < |ids| ==> ids[a] < x
    ensures Increasing(ids + [x])
    ensures forall a :: 0 <= a < |ids + [x]| ==> (ids + [x])[a] <= x
  {
  }

  /** One secondary row merged into the rows listed in a bucket, as the
      loop does it: positions past the end are skipped. */
  function MergeInto(rows: seq<Row>, ids: seq<nat>, other: Row): (r: seq<Row>)
    ensures |r| == |rows|
    decreases |ids|
  {
    if |ids| == 0 then rows
    else
      var prev := MergeInto(rows, ids[..|ids| - 1], other);
      var id := ids[|ids| - 1];
      if id < |prev| then prev[id := ArrayMerge(prev[id], other)] else prev
  }

  /** With each position listed once, a listed row becomes array_merge of
      itself and the secondary row, and every other row is left alone. */
  lemma {:induction false} MergeIntoReads(rows: seq<Row>, ids: seq<nat>, other: Row, i: nat)
    requires Increasing(ids) && i < |rows|
    ensures MergeInto(rows, ids, other)[i] == if i in ids then ArrayMerge(rows[i], other) else rows[i]
    decreases |ids|
  {
    if |ids| > 0 {
      var init := ids[..|ids| - 1];
      assert Increasing(init);
      MergeIntoReads(rows, init, other, i);
      assert i in ids <==> i in init || i == ids[|ids| - 1];
      assert forall a :: 0 <= a < |init| ==> init[a] < ids[|ids| - 1];
    }
  }

  /** array_merge renumbers integer keys: a field "0" in both rows is kept
      twice, the secondary row's under the next index "1". */
  lemma MergeIntoRenumbers()
    ensures MergeInto([[Entry("0", Str("a"))]], [0], [Entry("0", Str("b"))])
      == [[Entry("0", Str("a")), Entry("1", Str("b"))]]
  {
    ArrayMergeZeroKeys(Str("a"), Str("b"));
    assert [0][..0] == [];
  }

  lemma ArrayMergeZeroKeys(x: Value, y: Value)
    ensures ArrayMerge([Entry("0", x)], [Entry("0", y)]) == [Entry("0", x), Entry("1", y)]
  {
    var a := [Entry("0", x)];
    ZeroKey();
    AppendAllOne([], Entry("0", x));
    assert Push([], x) == a;
    AppendAllOne(a, Entry("0", y));
    assert NextIndex(a) == 1;
    assert IntToStr(1) == "1";
  }

  lemma ZeroKey()
    ensures IntKey("0") && IntToStr(0) == "0"
  {
    IntKeyOf(0);
  }

  /** The merge loop: every secondary row is merged into the rows whose
      field1 value is its field2 value; a value that cannot be an array key
      fails. */
  function MergeRows(rows: seq<Row>, index: seq<Entry<seq<nat>>>, field2: string, news: seq<Row>): (r: Result<seq<Row>>)
    ensures r.Ok? ==> |r.value| == |rows|
    decreases |news|
  {
    if |news| == 0 then Ok(rows)
    else
      var prev := MergeRows(rows, index, field2, news[..|news| - 1]);
      var key := KeyOf(Get(news[|news| - 1], field2));
      if prev.Err? then prev
      else if key.Err? then Err(key.error)
      else Ok(MergeInto(prev.value, Bucket(index, key.value), news[|news| - 1]))
  }

  /** The reference reading of the merge: a row takes, in order, the values
      of every secondary row whose field2 value is the row's own key. */
  function Matched(row: Row, key: string, field2: string, news: seq<Row>): Row
    decreases |news|
  {
    if |news| == 0 then row
    else
      var prev := Matched(row, key, field2, news[..|news| - 1]);
      if KeyOf(Get(news[|news| - 1], field2)) == Ok(key) then ArrayMerge(prev, news[|news| - 1]) else prev
  }

  /** Merging through the index is the reference reading, for every row,
      as long as no row's value is spelt like field1. */
  lemma {:induction false} MergeRowsMatched(rows: seq<Row>, keys: seq<string>, field1: string, field2: string,
                                            news: seq<Row>, i: nat)
    requires |keys| == |rows| && field1 !in keys && i < |rows|
    requires MergeRows(rows, IndexKeys(keys, field1), field2, news).Ok?
    ensures MergeRows(rows, IndexKeys(keys, field1), field2, news).value[i] == Matched(rows[i], keys[i], field2, news)
    decreases |news|
  {
    if |news| > 0 {
      var init := news[..|news| - 1];
      var index := IndexKeys(keys, field1);
      MergeRowsMatched(rows, keys, field1, field2, init, i);
      var k := KeyOf(Get(news[|news| - 1], field2)).value;
      var prev := MergeRows(rows, index, field2, init).value;
      IndexKeysBuckets(keys, field1, k);
      MergeIntoReads(prev, Bucket(index, k), news[|news| - 1], i);
      IndexKeysPositions(keys, field1, k);
      PositionsMembers(keys, k, i);
    }
  }

  /** The merge fails exactly when a secondary row's field2 value is an
      array or object. */
  lemma {:induction false} MergeRowsFails(rows: seq<Row>, index: seq<Entry<seq<nat>>>, field2: string, news: seq<Row>)
    ensures MergeRows(rows, index, field2, news).Err? <==> exists i :: 0 <= i < |news| && KeyOf(Get(news[i], field2)).Err?
    decreases |news|
  {
    if |news| > 0 {
      var init := news[..|news| - 1];
      MergeRowsFails(rows, index, field2, init);
      assert forall i :: 0 <= i < |init| ==> init[i] == news[i];
      assert news == init + [news[|news| - 1]];
    }
  }

  /** The query of the secondary collection a join needs: the documents of
      that collection whose field is one of the values. */
  datatype JoinRequest = JoinRequest(collection: string, field: string, values: seq<Value>)

  /** One join: orient it, collect the values and the index, resolve the
      aliases of the secondary rows (fetched stands for the secondary
      query's result) and merge them. */
  function JoinStep(rows: seq<Row>, j: JoinSpec, joined: seq<string>, select: seq<Selection>, root: string,
                    fetched: JoinRequest -> seq<Row>): (r: Result<seq<Row>>)
    ensures r.Ok? ==> |r.value| == |rows|
  {
    var side := OrientJoin(j, joined);
    match BuildMap(rows, side.field1)
    case Err(e) => Err(e)
    case Ok(index) =>
      var news := fetched(JoinRequest(side.collection2, side.field2, JoinValues(rows, side.field1)));
      match ResolveAliases(select, side.collection2, root, news)
      case Err(e) => Err(e)
      case Ok(resolved) => MergeRows(rows, index, side.field2, resolved)
  }

  /** The collections joined after the joins js, starting from joined. */
  function Joined(js: seq<JoinSpec>, joined: seq<string>): (r: seq<string>)
    ensures |r| == |joined| + |js|
    decreases |js|
  {
    if |js| == 0 then joined
    else
      var init := Joined(js[..|js| - 1], joined);
      init + [OrientJoin(js[|js| - 1], init).collection2]
  }

  /** _joinCollectionsTo: the joins in order, the collections joined so far
      starting with the query's own (without the namespace). */
  function JoinAll(rows: seq<Row>, js: seq<JoinSpec>, name: string, select: seq<Selection>, root: string,
                   fetched: JoinRequest -> seq<Row>): (r: Result<seq<Row>>)
    ensures r.Ok? ==> |r.value| == |rows|
    decreases |js|
  {
    if |js| == 0 then Ok(rows)
    else
      var init := js[..|js| - 1];
      match JoinAll(rows, init, name, select, root, fetched)
      case Err(e) => Err(e)
      case Ok(rs) => JoinStep(rs, js[|js| - 1], Joined(init, [name]), select, root, fetched)
  }

  lemma {:induction false} JoinAllStops(rows: seq<Row>, js: seq<JoinSpec>, i: nat, name: string, select: seq<Selection>,
                                        root: string, fetched: JoinRequest -> seq<Row>)
    requires i <= |js| && JoinAll(rows, js[..i], name, select, root, fetched).Err?
    ensures JoinAll(rows, js, name, select, root, fetched) == JoinAll(rows, js[..i], name, select, root, fetched)
    decreases |js|
  {
    if i < |js| {
      var init := js[..|js| - 1];
      assert init[..i] == js[..i];
      JoinAllStops(rows, init, i, name, select, root, fetched);
    } else {
      assert js[..i] == js;
    }
  }

  method CollectValues(rows: seq<Row>, field1: string) returns (values: seq<Value>)
    ensures values == JoinValues(rows, field1)
  {
    values := [];
    for i := 0 to |rows|
      invariant values == JoinValues(rows[..i], field1)
    {
      assert rows[..i + 1][..i] == rows[..i];
      var v := Get(rows[i], field1);
      if v != Null {
        values := values + [v];
      }
    }
    assert rows[..|rows|] == rows;
  }

  method BuildIndex(rows: seq<Row>, field1: string) returns (r: Result<seq<Entry<seq<nat>>>>)
    ensures r == BuildMap(rows, field1)
  {
    var index: seq<Entry<seq<nat>>> := [];
    ghost var keys: seq<string> := [];
    for i := 0 to |rows|
      invariant RowKeys(rows[..i], field1) == Ok(keys) && index == IndexKeys(keys, field1)
    {
      assert rows[..i + 1][..i] == rows[..i];
      assert rows[..i + 1][i] == rows[i];
      var key := KeyOf(Get(rows[i], field1));
      if key.Err? {
        assert RowKeys(rows, field1).Err?;
        return Err(IllegalOffset);
      }
      assert keys == (keys + [key.value])[..i];
      index := AddRow(index, field1, key.value, i);
      keys := keys + [key.value];
    }
    assert rows[..|rows|] == rows;
    r := Ok(index);
  }

  method MergeBucket(rows: seq<Row>, ids: seq<nat>, other: Row) returns (results: seq<Row>)
    ensures results == MergeInto(rows, ids, other)
  {
    results := rows;
    for i := 0 to |ids|
      invariant results == MergeInto(rows, ids[..i], other)
    {
      assert ids[..i + 1][..i] == ids[..i];
      if ids[i] < |results| {
        results := results[ids[i] := ArrayMerge(results[ids[i]], other)];
      }
    }
    assert ids[..|ids|] == ids;
  }

  lemma {:induction false} MergeRowsStops(rows: seq<Row>, index: seq<Entry<seq<nat>>>, field2: string, news: seq<Row>, i: nat)
    requires i <= |news| && MergeRows(rows, index, field2, news[..i]).Err?
    ensures MergeRows(rows, index, field2, news) == MergeRows(rows, index, field2, news[..i])
    decreases |news|
  {
    if i < |news| {
      var init := news[..|news| - 1];
      assert init[..i] == news[..i];
      MergeRowsStops(rows, index, field2, init, i);
    } else {
      assert news[..i] == news;
    }
  }

  method MergeAll(rows: seq<Row>, index: seq<Entry<seq<nat>>>, field2: string, news: seq<Row>) returns (r: Result<seq<Row>>)
    ensures r == MergeRows(rows, index, field2, news)
  {
    var results := rows;
    for i := 0 to |news|
      invariant MergeRows(rows, index, field2, news[..i]) == Ok(results)
    {
      assert news[..i + 1][..i] == news[..i];
      assert news[..i + 1][i] == news[i];
      var key := KeyOf(Get(news[i], field2));
      if key.Err? {
        MergeRowsStops(rows, index, field2, news, i + 1);
        return Err(key.error);
      }
      results := MergeBucket(results, Bucket(index, key.value), news[i]);
    }
    assert news[..|news|] == news;
    r := Ok(results);
  }

  method JoinOne(rows: seq<Row>, j: JoinSpec, joined: seq<string>, select: seq<Selection>, root: string,
                 fetched: JoinRequest -> seq<Row>) returns (r: Result<seq<Row>>)
    ensures r == JoinStep(rows, j, joined, select, root, fetched)
  {
    var side := if j.container1 in joined then Side(j.field1, j.container2, j.field2)
                else Side(j.field2, j.container1, j.field1);
    var values := CollectValues(rows, side.field1);
    var index := BuildIndex(rows, side.field1);
    if index.Err? {
      return Err(index.error);
    }
    var news := fetched(JoinRequest(side.collection2, side.field2, values));
    var resolved := PrepareAliases(select, side.collection2, root, news);
    if resolved.Err? {
      return Err(resolved.error);
    }
    r := MergeAll(rows, index.value, side.field2, resolved.value);
  }

  /** The joins up to i + 1: one more step on those up to i. */
  lemma JoinAllNext(rows: seq<Row>, js: seq<JoinSpec>, i: nat, name: string, select: seq<Selection>, root: string,
                    fetched: JoinRequest -> seq<Row>)
    requires i < |js| && JoinAll(rows, js[..i], name, select, root, fetched).Ok?
    ensures JoinAll(rows, js[..i + 1], name, select, root, fetched)
            == JoinStep(JoinAll(rows, js[..i], name, select, root, fetched).value, js[i], Joined(js[..i], [name]), select, root, fetched)
    ensures Joined(js[..i + 1], [name]) == Joined(js[..i], [name]) + [OrientJoin(js[i], Joined(js[..i], [name])).collection2]
  {
    assert js[..i + 1][..i] == js[..i];
    assert js[..i + 1][i] == js[i];
  }

  method JoinCollections(rows: seq<Row>, js: seq<JoinSpec>, name: string, select: seq<Selection>, root: string,
                         fetched: JoinRequest -> seq<Row>) returns (r: Result<seq<Row>>)
    ensures r == JoinAll(rows, js, name, select, root, fetched)
  {
    var results := rows;
    var joined := [name];
    for i := 0 to |js|
      invariant JoinAll(rows, js[..i], name, select, root, fetched) == Ok(results)
      invariant joined == Joined(js[..i], [name])
    {
      JoinAllNext(rows, js, i, name, select, root, fetched);
      var step := JoinOne(results, js[i], joined, select, root, fetched);
      if step.Err? {
        JoinAllStops(rows, js, i + 1, name, select, root, fetched);
        return step;
      }
      joined := joined + [OrientJoin(js[i], joined).collection2];
      results := step.value;
    }
    assert js[..|js|] == js;
    r := Ok(results);
  }

  // ------------------------------------------------------------ fetching

  /** The identifier of a fetched document as a string. */
  function StringifyId(row: Row): Row {
    Set(row, "_id", Str(ToStr(Get(row, "_id"))))
  }

  /** fetch: the documents of the find request, their aliases resolved for
      the query's own (namespaced) collection, the joins applied and every
      identifier turned into a string. */
  function FetchRows(st: QueryState, ns: string, docs: seq<Row>, fetched: JoinRequest -> seq<Row>): (r: Result<seq<Row>>)
  {
    var root := ns + st.name;
    match ResolveAliases(st.select, root, root, docs)
    case Err(e) => Err(e)
    case Ok(rs) =>
      match JoinAll(rs, st.join, st.name, st.select, root, fetched)
      case Err(e) => Err(e)
      case Ok(joined) => Ok(seq(|joined|, i requires 0 <= i < |joined| => StringifyId(joined[i])))
  }

  /** Every fetched document keeps its place and has a string identifier
      holding the text of the one it had after the joins. */
  lemma FetchRowsIds(st: QueryState, ns: string, docs: seq<Row>, fetched: JoinRequest -> seq<Row>, i: nat)
    requires FetchRows(st, ns, docs, fetched).Ok? && i < |FetchRows(st, ns, docs, fetched).value|
    ensures |FetchRows(st, ns, docs, fetched).value| == |docs|
    ensures Get(FetchRows(st, ns, docs, fetched).value[i], "_id").Str?
  {
    var rows := FetchRows(st, ns, docs, fetched).value;
    var root := ns + st.name;
    var rs := ResolveAliases(st.select, root, root, docs).value;
    var joined := JoinAll(rs, st.join, st.name, st.select, root, fetched).value;
    GetSet(joined[i], "_id", Str(ToStr(Get(joined[i], "_id"))), "_id");
  }

  /** Without aliases and joins, fetching only turns the identifiers into
      strings; every other field reads as the driver gave it. */
  lemma FetchRowsPlain(st: QueryState, ns: string, docs: seq<Row>, fetched: JoinRequest -> seq<Row>, i: nat, k: string)
    requires st.join == [] && forall j :: 0 <= j < |st.select| ==> !Truthy(Str(st.select[j].alias))
    requires i < |docs| && k != "_id"
    ensures FetchRows(st, ns, docs, fetched).Ok?
    ensures Get(FetchRows(st, ns, docs, fetched).value[i], k) == Get(docs[i], k)
  {
    var root := ns + st.name;
    NoAliases(st.select, root, docs);
    GetSet(docs[i], "_id", Str(ToStr(Get(docs[i], "_id"))), k);
  }

  lemma {:induction false} NoAliases(select: seq<Selection>, root: string, rows: seq<Row>)
    requires forall j :: 0 <= j < |select| ==> !Truthy(Str(select[j].alias))
    ensures ResolveAliases(select, root, root, rows) == Ok(rows)
    decreases |select|
  {
    if |select| > 0 {
      NoAliases(select[..|select| - 1], root, rows);
    }
  }

  /** fetchOne: the first document or, when there is none, the failure of
      counting null; a non-empty row has its identifier turned into a
      string. */
  function FetchOneRow(st: QueryState, ns: string, first: Option<Row>, fetched: JoinRequest -> seq<Row>): (r: Result<Row>)
    ensures first.None? ==> r == Err(TypeError)
  {
    match first
    case None => Err(TypeError)
    case Some(doc) =>
      var root := ns + st.name;
      match ResolveAliases(st.select, root, root, [doc])
      case Err(e) => Err(e)
      case Ok(rs) =>
        match JoinAll(rs, st.join, st.name, st.select, root, fetched)
        case Err(e) => Err(e)
        case Ok(joined) =>
          var row := joined[0];
          Ok(if |row| > 0 then StringifyId(row) else row)
  }

  /** fetchOne is fetch on the first document alone. */
  lemma FetchOneIsFetch(st: QueryState, ns: string, doc: Row, fetched: JoinRequest -> seq<Row>)
    requires |doc| > 0 && UniqueKeys(doc)
    requires FetchRows(st, ns, [doc], fetched).Ok?
    requires forall j :: 0 <= j < |st.select| ==> !Truthy(Str(st.select[j].alias))
    requires st.join == []
    ensures FetchOneRow(st, ns, Some(doc), fetched) == Ok(FetchRows(st, ns, [doc], fetched).value[0])
  {
    NoAliases(st.select, ns + st.name, [doc]);
  }

  /** update: the options as given, with limit forced to 0 and upsert
      dropped; the filter of the search and $set of the document. */
  function UpdateOptions(options: seq<Entry<Value>>): (r: seq<Entry<Value>>)
    requires UniqueKeys(options)
    ensures Get(r, "limit") == Int(0) && !IsSet(r, "upsert")
    ensures forall k :: k != "limit" && k != "upsert" ==> Lookup(r, k) == Lookup(options, k)
  {
    var limited := Set(options, "limit", Int(0));
    UniqueSet(options, "limit", Int(0));
    LookupSet(options, "limit", Int(0), "limit");
    LookupUnset(limited, "upsert", "limit");
    LookupUnset(limited, "upsert", "upsert");
    assert forall k :: k != "limit" && k != "upsert" ==> Lookup(Unset(limited, "upsert"), k) == Lookup(options, k) by {
      forall k | k != "limit" && k != "upsert"
        ensures Lookup(Unset(limited, "upsert"), k) == Lookup(options, k)
      {
        LookupUnset(limited, "upsert", k);
        LookupSet(options, "limit", Int(0), k);
      }
    }
    Unset(limited, "upsert")
  }

  /** A document of values. */
  function ValuesDoc(document: seq<Entry<Value>>): Bson {
    Doc(seq(|document|, i requires 0 <= i < |document| => Field(document[i].key, Val(document[i].val))))
  }

  datatype WriteRequest =
    | UpdateRequest(filter: Bson, update: Bson, options: seq<Entry<Value>>)
    | DeleteRequest(filter: Bson, options: seq<Entry<Value>>)

  /** The document-store query: the builder's state and the namespace of its
      database. The driver's answers are passed in: the documents the find
      request returns, and those of the secondary queries of the joins. */
  class DocQuery {
    const query: Query
    const namespace: string

    constructor (namespace: string, name: string)
      ensures this.namespace == namespace && fresh(query) && query.Valid()
      ensures query.State() == QueryState(name, [], [], [], [], None, None, [])
    {
      this.namespace := namespace;
      query := new Query(name, false);
    }

    /** The find request the cursor is opened with. */
    method FindQuery() returns (req: FindRequest)
      ensures req == Request(query.State())
    {
      var filter := PrepareQuery(query.search);
      var projection := PrepareProjection(query.select);
      var sorts := PrepareSorts(query.sort);
      req := FindRequest(filter, projection, sorts, query.limit, query.skip);
    }

    method Fetch(docs: seq<Row>, fetched: JoinRequest -> seq<Row>) returns (req: FindRequest, r: Result<seq<Row>>)
      ensures req == Request(query.State())
      ensures r == FetchRows(query.State(), namespace, docs, fetched)
    {
      req := FindQuery();
      var root := namespace + query.name;
      var resolved := PrepareAliases(query.select, root, root, docs);
      if resolved.Err? {
        return req, Err(resolved.error);
      }
      var joined := JoinCollections(resolved.value, query.join, query.name, query.select, root, fetched);
      if joined.Err? {
        return req, Err(joined.error);
      }
      var rows := joined.value;
      ghost var before := rows;
      for i := 0 to |rows|
        invariant |rows| == |before|
        invariant forall k :: 0 <= k < i ==> rows[k] == StringifyId(before[k])
        invariant forall k :: i <= k < |rows| ==> rows[k] == before[k]
      {
        rows := rows[i := Set(rows[i], "_id", Str(ToStr(Get(rows[i], "_id"))))];
      }
      assert rows == seq(|before|, i requires 0 <= i < |before| => StringifyId(before[i]));
      r := Ok(rows);
    }

    method FetchOne(first: Option<Row>, fetched: JoinRequest -> seq<Row>) returns (req: FindRequest, r: Result<Row>)
      ensures req == Request(query.State())
      ensures r == FetchOneRow(query.State(), namespace, first, fetched)
    {
      req := FindQuery();
      if first.None? {
        return req, Err(TypeError);
      }
      var root := namespace + query.name;
      var resolved := PrepareAliases(query.select, root, root, [first.value]);
      if resolved.Err? {
        return req, Err(resolved.error);
      }
      var joined := JoinCollections(resolved.value, query.join, query.name, query.select, root, fetched);
      if joined.Err? {
        return req, Err(joined.error);
      }
      var row := joined.value[0];
      if |row| > 0 {
        row := Set(row, "_id", Str(ToStr(Get(row, "_id"))));
      }
      r := Ok(row);
    }

    /** fetchFirst: the first field of fetchOne's document. */
    method FetchFirst(first: Option<Row>, fetched: JoinRequest -> seq<Row>) returns (req: FindRequest, r: Result<Value>)
      ensures req == Request(query.State())
      ensures var one := FetchOneRow(query.State(), namespace, first, fetched);
        r == if one.Err? then Err(one.error) else Ok(PdoQuery.FirstField(one.value))
    {
      var one;
      req, one := FetchOne(first, fetched);
      if one.Err? {
        return req, Err(one.error);
      }
      r := Ok(if |one.value| > 0 then First(one.value) else Null);
    }

    /** count: the number of documents the find request returns. */
    method Count(docs: seq<Row>) returns (req: FindRequest, n: nat)
      ensures req == Request(query.State()) && n == |docs|
    {
      req := FindQuery();
      n := |docs|;
    }

    method Update(document: seq<Entry<Value>>, options: seq<Entry<Value>>) returns (w: WriteRequest)
      requires UniqueKeys(options)
      ensures w == UpdateRequest(SearchFilter(query.search), Pair("$set", ValuesDoc(document)), UpdateOptions(options))
    {
      var filter := PrepareQuery(query.search);
      w := UpdateRequest(filter, Pair("$set", ValuesDoc(document)), UpdateOptions(options));
    }

    method Remove(options: seq<Entry<Value>>) returns (w: WriteRequest)
      ensures w == DeleteRequest(SearchFilter(query.search), options)
    {
      var filter := PrepareQuery(query.search);
      w := DeleteRequest(filter, options);
    }
  }
}
