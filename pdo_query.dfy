/** The SQL translation of a query: the SELECT, FROM, JOIN, WHERE, ORDER BY
    and LIMIT clauses, the placeholders that carry every searched value, and
    the UPDATE and DELETE statements built from the same clauses. */
module PdoQuery {
  import opened Values
  import opened Assoc
  import opened Pdo
  import opened AbstractQuery

  // ---------------------------------------------------------------- SELECT

  function SelectItem(s: Selection): string {
    Escape(s.field) + (if Truthy(Str(s.alias)) then " AS " + Escape(s.alias) else "")
  }

  function SelectItems(select: seq<Selection>): (r: seq<string>)
    ensures |r| == |select|
    ensures forall i :: 0 <= i < |select| ==> r[i] == SelectItem(select[i])
  {
    seq(|select|, i requires 0 <= i < |select| => SelectItem(select[i]))
  }

  lemma SelectItemsOf(select: seq<Selection>, items: seq<string>)
    requires |items| == |select| && forall j :: 0 <= j < |select| ==> items[j] == SelectItem(select[j])
    ensures items == SelectItems(select)
  {
  }

  /** Every selected field, escaped and aliased when the alias is truthy;
      '*' when nothing is selected. */
  function SelectClause(select: seq<Selection>): string {
    "SELECT " + Join(",", if |select| == 0 then ["*"] else SelectItems(select))
  }

  method PrepareSelect(select: seq<Selection>) returns (clause: string)
    ensures clause == SelectClause(select)
  {
    var selects := EachString(select, SelectItem);
    SelectItemsOf(select, selects);
    if |selects| == 0 {
      selects := ["*"];
    }
    clause := "SELECT " + Join(",", selects);
  }

  lemma CountItem(count: string)
    requires count == "COUNT(*)"
    ensures SelectItem(Selection(count, "")) == count
  {
    EscapeStars(count);
    SelectItemPlain(Selection(count, ""));
  }

  /** Without an alias a selection is its escaped field alone. */
  lemma SelectItemPlain(s: Selection)
    requires s.alias == ""
    ensures SelectItem(s) == Escape(s.field)
  {
    assert !Truthy(Str(s.alias));
    assert SelectItem(s) == Escape(s.field) + "";
  }

  /** A single selection is the only column. */
  lemma SelectOne(s: Selection)
    ensures SelectClause([s]) == "SELECT " + SelectItem(s)
  {
    assert SelectItems([s]) == [SelectItem(s)];
  }

  /** Each further selection adds one comma-separated column. */
  lemma SelectAppend(select: seq<Selection>, s: Selection)
    requires |select| > 0
    ensures SelectClause(select + [s]) == SelectClause(select) + "," + SelectItem(s)
  {
    var items := SelectItems(select);
    var x := SelectItem(s);
    assert SelectItems(select + [s]) == items + [x];
    JoinSnoc(",", items, x);
    Regroup("SELECT ", Join(",", items), ",", x);
  }

  /** count() adds a COUNT(*) selection: alone it selects only the count,
      after other selections it is one more column, left unquoted. */
  lemma CountSelection(select: seq<Selection>, count: string)
    requires count == "COUNT(*)"
    ensures SelectClause([Selection(count, "")]) == "SELECT " + count
    ensures |select| > 0 ==>
      SelectClause(select + [Selection(count, "")]) == SelectClause(select) + "," + count
  {
    CountItem(count);
    SelectOne(Selection(count, ""));
    if |select| > 0 {
      SelectAppend(select, Selection(count, ""));
    }
  }

  // ------------------------------------------------------------------ FROM

  function FromItem(ns: string, e: Entry<string>): string {
    Escape(ns + e.val) + " AS " + Escape(ns + e.key)
  }

  function FromItems(ns: string, from: seq<Entry<string>>): (r: seq<string>)
    ensures |r| == |from|
    ensures forall i :: 0 <= i < |from| ==> r[i] == FromItem(ns, from[i])
  {
    seq(|from|, i requires 0 <= i < |from| => FromItem(ns, from[i]))
  }

  lemma FromItemsOf(ns: string, from: seq<Entry<string>>, items: seq<string>)
    requires |items| == |from| && forall j :: 0 <= j < |from| ==> items[j] == FromItem(ns, from[j])
    ensures items == FromItems(ns, from)
  {
  }

  /** The aliased tables. */
  function Tables(from: seq<Entry<string>>): (r: seq<string>)
    ensures |r| == |from|
    ensures forall i :: 0 <= i < |from| ==> r[i] == from[i].val
  {
    seq(|from|, i requires 0 <= i < |from| => from[i].val)
  }

  /** The aliased tables, then the query's own table unless it is one of
      them; names are prefixed with the namespace before escaping. */
  function FromClause(ns: string, name: string, from: seq<Entry<string>>): string {
    var listed := if |from| > 0 then "FROM " + Join(", ", FromItems(ns, from)) else "";
    if name in Tables(from) then listed
    else listed + (if listed != "" then ", " else "FROM ") + Escape(ns + name)
  }

  /** in_array: whether some alias stands for the table. */
  method ContainsTable(from: seq<Entry<string>>, name: string) returns (found: bool)
    ensures found <==> name in Tables(from)
  {
    found := false;
    var k := 0;
    while k < |from| && !found
      invariant 0 <= k <= |from|
      invariant found <==> name in Tables(from[..k])
    {
      assert Tables(from[..k + 1]) == Tables(from[..k]) + [from[k].val];
      found := from[k].val == name;
      k := k + 1;
    }
    if !found {
      assert from[..k] == from;
    } else {
      assert Tables(from[..k]) == Tables(from)[..k];
    }
  }

  method PrepareFrom(ns: string, name: string, from: seq<Entry<string>>) returns (clause: string)
    ensures clause == FromClause(ns, name, from)
  {
    clause := "";
    if |from| > 0 {
      var items := EachString(from, e => FromItem(ns, e));
      FromItemsOf(ns, from, items);
      clause := "FROM " + Join(", ", items);
    }
    var found := ContainsTable(from, name);
    if !found {
      clause := clause + (if clause != "" then ", " else "FROM ") + Escape(ns + name);
    }
  }

  /** Without aliases only the query's table is read. */
  lemma FromOwnTable(ns: string, name: string, from: seq<Entry<string>>)
    requires |from| == 0
    ensures FromClause(ns, name, from) == "FROM " + Escape(ns + name)
  {
    assert name !in Tables(from);
  }

  /** With aliases, a table that was given an alias is not listed again. */
  lemma FromAliasedTable(ns: string, name: string, from: seq<Entry<string>>)
    requires |from| > 0 && name in Tables(from)
    ensures FromClause(ns, name, from) == "FROM " + Join(", ", FromItems(ns, from))
  {
  }

  /** With aliases, the query's own table is one more item at the end. */
  lemma FromAddsTable(ns: string, name: string, from: seq<Entry<string>>)
    requires |from| > 0 && name !in Tables(from)
    ensures FromClause(ns, name, from) == "FROM " + Join(", ", FromItems(ns, from) + [Escape(ns + name)])
  {
    var items := FromItems(ns, from);
    var e := Escape(ns + name);
    var listed := "FROM " + Join(", ", items);
    assert |listed| > 0;
    assert FromClause(ns, name, from) == listed + ", " + e;
    JoinSnoc(", ", items, e);
    Regroup("FROM ", Join(", ", items), ", ", e);
  }

  // ------------------------------------------------------------------ JOIN

  /** One LEFT JOIN: table1.field1 = table2.field2. */
  datatype Link = Link(table1: string, field1: string, table2: string, field2: string)

  /** A join is read as written when its first container has been joined
      already, and the other way round otherwise. */
  function Orient(j: JoinSpec, joined: seq<string>): Link {
    if j.container1 in joined then Link(j.container1, j.field1, j.container2, j.field2)
    else Link(j.container2, j.field2, j.container1, j.field1)
  }

  function LinkSql(ns: string, l: Link): string {
    "LEFT JOIN " + Escape(ns + l.table1) + " ON " +
    Escape(ns + l.table1) + "." + Escape(l.field1) + "=" +
    Escape(ns + l.table2) + "." + Escape(l.field2)
  }

  /** The clauses for the joins js, given the containers joined so far;
      each join adds its second table to them. */
  function JoinPieces(ns: string, joined: seq<string>, js: seq<JoinSpec>): (r: seq<string>)
    ensures |r| == |js|
    decreases |js|
  {
    if |js| == 0 then []
    else
      var l := Orient(js[0], joined);
      [LinkSql(ns, l)] + JoinPieces(ns, joined + [l.table2], js[1..])
  }

  /** The joined containers start with the namespaced query table. */
  function JoinClause(ns: string, name: string, js: seq<JoinSpec>): string {
    if |js| == 0 then "" else Join(" ", JoinPieces(ns, [ns + name], js))
  }

  method PrepareJoin(ns: string, name: string, js: seq<JoinSpec>) returns (clause: string)
    ensures clause == JoinClause(ns, name, js)
  {
    clause := "";
    if |js| > 0 {
      var joins: seq<string> := [];
      var joined := [ns + name];
      var i := 0;
      while i < |js|
        invariant 0 <= i <= |js|
        invariant joins + JoinPieces(ns, joined, js[i..]) == JoinPieces(ns, [ns + name], js)
      {
        var l := Orient(js[i], joined);
        var piece := LinkSql(ns, l);
        assert js[i..][1..] == js[i + 1..];
        var rest := JoinPieces(ns, joined + [l.table2], js[i + 1..]);
        assert JoinPieces(ns, joined, js[i..]) == [piece] + rest;
        assert (joins + [piece]) + rest == joins + ([piece] + rest);
        joined := joined + [l.table2];
        joins := joins + [piece];
        i := i + 1;
      }
      assert JoinPieces(ns, joined, js[i..]) == [];
      assert joins == JoinPieces(ns, [ns + name], js);
      clause := Join(" ", joins);
    }
  }

  /** The joined list holds the namespaced table name, but the joins name
      containers without the namespace: with an empty namespace a join
      starting from the query's table is read as written, with a non-empty
      one it is always turned round. */
  lemma JoinNamespace(ns: string, name: string, j: JoinSpec, rest: seq<JoinSpec>)
    requires j.container1 == name
    ensures ns == "" ==>
      JoinPieces(ns, [ns + name], [j] + rest)[0] == LinkSql(ns, Link(j.container1, j.field1, j.container2, j.field2))
    ensures ns != "" ==>
      JoinPieces(ns, [ns + name], [j] + rest)[0] == LinkSql(ns, Link(j.container2, j.field2, j.container1, j.field1))
  {
    if ns != "" {
      assert |ns + name| > |name|;
      assert j.container1 !in [ns + name];
    } else {
      assert ns + name == name;
    }
  }

  // ----------------------------------------------------------------- WHERE

  /** The placeholder bound to the n-th marker. */
  function Placeholder(n: nat): string {
    ":" + MarkerName(n)
  }

  function OpToken(op: Op): string {
    match op
    case Is => "="
    case IsNot => "<>"
    case Greater => ">"
    case Less => "<"
    case In => " IN "
    case NotIn => " NOT IN "
    case Like => " LIKE "
    case NotLike => " NOT LIKE "
    case Match => " REGEXP "
    case NotMatch => " NOT REGEXP "
  }

  /** The elements an 'in' value is iterated over. */
  function InElems(v: Value): seq<Value> {
    if v.List? then v.elems else []
  }

  /** Binds each element of an 'in' list to a fresh placeholder. */
  function BindElems(elems: seq<Value>, values: seq<Entry<Value>>, m: nat): (r: (seq<Entry<Value>>, nat))
    ensures r.1 == m + |elems|
    decreases |elems|
  {
    if |elems| == 0 then (values, m)
    else
      var (vs, k) := BindElems(elems[..|elems| - 1], values, m);
      (Set(vs, Placeholder(k + 1), elems[|elems| - 1]), k + 1)
  }

  /** The values and marker after binding one predicate: one placeholder
      for a plain value, one per element for 'in' / 'not in'. */
  function BindPredicate(p: Predicate, values: seq<Entry<Value>>, m: nat): (r: (seq<Entry<Value>>, nat))
  {
    if NeedsList(p.op) then BindElems(InElems(p.value), values, m)
    else (Set(values, Placeholder(m + 1), p.value), m + 1)
  }

  /** One predicate as SQL, given the marker before it and the values after
      binding it. The list after IN names every key of those values, that is
      every placeholder bound so far in this WHERE clause. */
  function PredicateText(p: Predicate, m: nat, after: seq<Entry<Value>>): string {
    var value := if NeedsList(p.op) then "(" + Join(",", Keys(after)) + ")" else Placeholder(m + 1);
    Escape(p.field) + OpToken(p.op) + value
  }

  function BindGroup(g: Group, values: seq<Entry<Value>>, m: nat): (r: (seq<Entry<Value>>, nat))
    decreases |g|
  {
    if |g| == 0 then (values, m)
    else
      var (vs, k) := BindGroup(g[..|g| - 1], values, m);
      BindPredicate(g[|g| - 1], vs, k)
  }

  /** The OR-ed parts of one group. */
  function GroupTexts(g: Group, values: seq<Entry<Value>>, m: nat): (r: seq<string>)
    ensures |r| == |g|
    decreases |g|
  {
    if |g| == 0 then []
    else
      var (vs, k) := BindGroup(g[..|g| - 1], values, m);
      GroupTexts(g[..|g| - 1], values, m) + [PredicateText(g[|g| - 1], k, BindPredicate(g[|g| - 1], vs, k).0)]
  }

  function OrText(ors: seq<string>): string {
    "(" + Join(") OR (", ors) + ")"
  }

  /** The values and marker after a whole search list; the values start empty. */
  function BindSearch(search: seq<Group>, m: nat): (r: (seq<Entry<Value>>, nat))
    decreases |search|
  {
    if |search| == 0 then ([], m)
    else
      var (vs, k) := BindSearch(search[..|search| - 1], m);
      BindGroup(search[|search| - 1], vs, k)
  }

  /** The AND-ed parts of a search list. */
  function SearchTexts(search: seq<Group>, m: nat): (r: seq<string>)
    ensures |r| == |search|
    decreases |search|
  {
    if |search| == 0 then []
    else
      var (vs, k) := BindSearch(search[..|search| - 1], m);
      SearchTexts(search[..|search| - 1], m) + [OrText(GroupTexts(search[|search| - 1], vs, k))]
  }

  function WhereQuery(ands: seq<string>): string {
    "(" + Join(") AND (", ands) + ")"
  }

  lemma BindElemsStep(elems: seq<Value>, j: nat, values: seq<Entry<Value>>, m: nat, vs0: seq<Entry<Value>>, vs: seq<Entry<Value>>, k: nat)
    requires 0 < j <= |elems| && vs0 == BindElems(elems[..j - 1], values, m).0
    requires k == m + j && vs == Set(vs0, Placeholder(k), elems[j - 1])
    ensures vs == BindElems(elems[..j], values, m).0
  {
    var d := elems[..j];
    assert d[..|d| - 1] == elems[..j - 1];
    assert d[|d| - 1] == elems[j - 1];
    var (v0, k0) := BindElems(elems[..j - 1], values, m);
    assert v0 == vs0 && k0 + 1 == k;
  }

  method BindList(db: Database, elems: seq<Value>, values0: seq<Entry<Value>>) returns (values: seq<Entry<Value>>)
    requires db.Valid()
    modifies db`marker, db`issued
    ensures db.Valid()
    ensures (values, db.marker) == BindElems(elems, values0, old(db.marker))
  {
    values := values0;
    var k := 0;
    while k < |elems|
      invariant 0 <= k <= |elems|
      invariant db.Valid()
      invariant values == BindElems(elems[..k], values0, old(db.marker)).0 && db.marker == old(db.marker) + k
    {
      ghost var vs0 := values;
      var marker := db.GetMarker();
      values := Set(values, ":" + marker, elems[k]);
      k := k + 1;
      BindElemsStep(elems, k, values0, old(db.marker), vs0, values, db.marker);
    }
    assert elems[..k] == elems;
  }

  method PredicateSql(db: Database, p: Predicate, values0: seq<Entry<Value>>) returns (sql: string, values: seq<Entry<Value>>)
    requires db.Valid()
    modifies db`marker, db`issued
    ensures db.Valid()
    ensures (values, db.marker) == BindPredicate(p, values0, old(db.marker))
    ensures sql == PredicateText(p, old(db.marker), values)
  {
    var value: string;
    if p.op == In || p.op == NotIn {
      values := BindList(db, InElems(p.value), values0);
      value := "(" + Join(",", Keys(values)) + ")";
    } else {
      var marker := db.GetMarker();
      value := ":" + marker;
      values := Set(values0, value, p.value);
    }
    sql := Escape(p.field) + OpToken(p.op) + value;
  }

  method GroupSql(db: Database, g: Group, values0: seq<Entry<Value>>) returns (ors: seq<string>, values: seq<Entry<Value>>)
    requires db.Valid()
    modifies db`marker, db`issued
    ensures db.Valid()
    ensures (values, db.marker) == BindGroup(g, values0, old(db.marker))
    ensures ors == GroupTexts(g, values0, old(db.marker))
  {
    ors, values := [], values0;
    var j := 0;
    while j < |g|
      invariant 0 <= j <= |g|
      invariant db.Valid()
      invariant (values, db.marker) == BindGroup(g[..j], values0, old(db.marker))
      invariant ors == GroupTexts(g[..j], values0, old(db.marker))
    {
      assert g[..j + 1][..j] == g[..j];
      var sql;
      sql, values := PredicateSql(db, g[j], values);
      ors := ors + [sql];
      j := j + 1;
    }
    assert g[..j] == g;
  }

  /** _prepareWhere: the condition text and the placeholder values. */
  method PrepareWhere(db: Database, search: seq<Group>) returns (query: string, values: seq<Entry<Value>>)
    requires db.Valid()
    modifies db`marker, db`issued
    ensures db.Valid()
    ensures (values, db.marker) == BindSearch(search, old(db.marker))
    ensures query == WhereQuery(SearchTexts(search, old(db.marker)))
  {
    var ands: seq<string> := [];
    values := [];
    var i := 0;
    while i < |search|
      invariant 0 <= i <= |search|
      invariant db.Valid()
      invariant (values, db.marker) == BindSearch(search[..i], old(db.marker))
      invariant ands == SearchTexts(search[..i], old(db.marker))
    {
      assert search[..i + 1][..i] == search[..i];
      var ors;
      ors, values := GroupSql(db, search[i], values);
      ands := ands + ["(" + Join(") OR (", ors) + ")"];
      i := i + 1;
    }
    assert search[..i] == search;
    query := "(" + Join(") AND (", ands) + ")";
  }

  // The placeholders, read as a whole.

  /** The values a predicate binds, in order. */
  function PredValues(p: Predicate): seq<Value> {
    if NeedsList(p.op) then InElems(p.value) else [p.value]
  }

  function GroupValues(g: Group): seq<Value>
    decreases |g|
  {
    if |g| == 0 then [] else GroupValues(g[..|g| - 1]) + PredValues(g[|g| - 1])
  }

  /** Every searched value in reading order: groups left to right, their
      predicates left to right, 'in' lists element by element. */
  function SearchValues(search: seq<Group>): seq<Value>
    decreases |search|
  {
    if |search| == 0 then [] else SearchValues(search[..|search| - 1]) + GroupValues(search[|search| - 1])
  }

  /** vals bound to consecutive markers after m0, each name prefixed by tag. */
  function Bound(tag: string, vals: seq<Value>, m0: nat): (r: seq<Entry<Value>>)
    ensures |r| == |vals|
  {
    seq(|vals|, k requires 0 <= k < |vals| => Entry(tag + MarkerName(m0 + k + 1), vals[k]))
  }

  lemma TaggedNamesDistinct(tag: string, a: nat, b: nat)
    requires a != b
    ensures tag + MarkerName(a) != tag + MarkerName(b)
  {
    MarkerNamesDistinct(a, b);
    var x, y := tag + MarkerName(a), tag + MarkerName(b);
    assert x[|tag|..] == MarkerName(a);
    assert y[|tag|..] == MarkerName(b);
  }

  lemma BoundUnique(tag: string, vals: seq<Value>, m0: nat)
    ensures UniqueKeys(Bound(tag, vals, m0))
  {
    var b := Bound(tag, vals, m0);
    forall i, j | 0 <= i < j < |b| ensures b[i].key != b[j].key {
      TaggedNamesDistinct(tag, m0 + i + 1, m0 + j + 1);
    }
  }

  /** Binding the next marker appends it: the name is new. */
  lemma BoundSnoc(tag: string, vals: seq<Value>, v: Value, m0: nat, k: nat)
    requires k == m0 + |vals|
    ensures Set(Bound(tag, vals, m0), tag + MarkerName(k + 1), v) == Bound(tag, vals + [v], m0)
  {
    var b := Bound(tag, vals, m0);
    var key := tag + MarkerName(k + 1);
    forall j | 0 <= j < |b| ensures b[j].key != key {
      TaggedNamesDistinct(tag, m0 + j + 1, k + 1);
    }
    assert Find(b, key) == |b|;
  }

  /** The same for bare marker names, as update and save bind them. */
  lemma BareBound(vals: seq<Value>, v: Value, m0: nat, k: nat)
    requires k == m0 + |vals|
    ensures Set(Bound("", vals, m0), MarkerName(k + 1), v) == Bound("", vals + [v], m0)
  {
    BoundSnoc("", vals, v, m0, k);
    assert "" + MarkerName(k + 1) == MarkerName(k + 1);
  }

  lemma BareSnoc(vals: seq<Value>, v: Value, m0: nat, b: seq<Entry<Value>>, k: nat)
    requires b == Bound("", vals, m0) && k == m0 + |vals|
    ensures Set(b, MarkerName(k + 1), v) == Bound("", vals + [v], m0)
  {
    BareBound(vals, v, m0, k);
  }

  /** Appending the last element of a non-empty list again gives the list. */
  lemma ConcatSnoc(vals: seq<Value>, elems: seq<Value>)
    requires |elems| > 0
    ensures vals + elems[..|elems| - 1] + [elems[|elems| - 1]] == vals + elems
  {
  }

  lemma {:induction false} BindElemsAt(elems: seq<Value>, vals: seq<Value>, m0: nat, vs: seq<Entry<Value>>, k: nat)
    requires vs == Bound(":", vals, m0) && k == m0 + |vals|
    ensures BindElems(elems, vs, k) == (Bound(":", vals + elems, m0), k + |elems|)
    decreases |elems|
  {
    if |elems| == 0 {
      assert vals + elems == vals;
    } else {
      var init, last := elems[..|elems| - 1], elems[|elems| - 1];
      var (vs1, k1) := BindElems(init, vs, k);
      assert BindElems(elems, vs, k) == (Set(vs1, Placeholder(k1 + 1), last), k1 + 1);
      BindElemsAt(init, vals, m0, vs, k);
      assert vs1 == Bound(":", vals + init, m0) && k1 == m0 + |vals + init|;
      BoundSnoc(":", vals + init, last, m0, k1);
      ConcatSnoc(vals, elems);
    }
  }

  lemma BindPredicateAt(p: Predicate, vals: seq<Value>, m0: nat, vs: seq<Entry<Value>>, k: nat)
    requires vs == Bound(":", vals, m0) && k == m0 + |vals|
    ensures BindPredicate(p, vs, k) == (Bound(":", vals + PredValues(p), m0), k + |PredValues(p)|)
  {
    if NeedsList(p.op) {
      BindElemsAt(InElems(p.value), vals, m0, vs, k);
    } else {
      BoundSnoc(":", vals, p.value, m0, k);
    }
  }

  /** A group's values are its first predicates' values, then the last one's. */
  lemma GroupValuesSnoc(vals: seq<Value>, g: Group)
    requires |g| > 0
    ensures vals + GroupValues(g[..|g| - 1]) + PredValues(g[|g| - 1]) == vals + GroupValues(g)
  {
    var a, b := GroupValues(g[..|g| - 1]), PredValues(g[|g| - 1]);
    assert GroupValues(g) == a + b;
    SeqAssoc(vals, a, b);
  }

  lemma {:induction false} BindGroupAt(g: Group, vals: seq<Value>, m0: nat, vs: seq<Entry<Value>>, k: nat)
    requires vs == Bound(":", vals, m0) && k == m0 + |vals|
    ensures BindGroup(g, vs, k) == (Bound(":", vals + GroupValues(g), m0), k + |GroupValues(g)|)
    decreases |g|
  {
    if |g| == 0 {
      assert vals + [] == vals;
    } else {
      var init, last := g[..|g| - 1], g[|g| - 1];
      var (vs1, k1) := BindGroup(init, vs, k);
      BindGroupAt(init, vals, m0, vs, k);
      BindPredicateAt(last, vals + GroupValues(init), m0, vs1, k1);
      GroupValuesSnoc(vals, g);
    }
  }

  lemma {:induction false} BindSearchBound(search: seq<Group>, m0: nat)
    ensures BindSearch(search, m0) == (Bound(":", SearchValues(search), m0), m0 + |SearchValues(search)|)
    decreases |search|
  {
    if |search| > 0 {
      var init, last := search[..|search| - 1], search[|search| - 1];
      var (vs, k) := BindSearch(init, m0);
      BindSearchBound(init, m0);
      BindGroupAt(last, SearchValues(init), m0, vs, k);
      assert SearchValues(search) == SearchValues(init) + GroupValues(last);
    }
  }

  /** The WHERE values bind the k-th searched value to the k-th marker after
      the counter's value, with no two placeholders alike, and the counter
      moves past all of them. */
  lemma WhereBindings(search: seq<Group>, m0: nat)
    ensures var (vs, m) := BindSearch(search, m0);
      && |vs| == |SearchValues(search)|
      && (forall k :: 0 <= k < |vs| ==> vs[k] == Entry(Placeholder(m0 + k + 1), SearchValues(search)[k]))
      && UniqueKeys(vs)
      && m == m0 + |vs|
  {
    BindSearchBound(search, m0);
    BoundUnique(":", SearchValues(search), m0);
  }

  /** The placeholders of the first n markers after m0. */
  function Placeholders(m0: nat, n: nat): (r: seq<string>)
    ensures |r| == n
  {
    seq(n, k requires 0 <= k < n => Placeholder(m0 + k + 1))
  }

  /** The list after IN / NOT IN names every placeholder of the WHERE clause
      so far, those of the predicates before it included, not only the ones
      that hold the predicate's own elements. */
  lemma InListNamesEarlierMarkers(p: Predicate, vals: seq<Value>, m0: nat, k: nat)
    requires NeedsList(p.op) && k == m0 + |vals|
    ensures var after := BindPredicate(p, Bound(":", vals, m0), k).0;
      PredicateText(p, k, after) ==
      Escape(p.field) + OpToken(p.op) + ("(" + Join(",", Placeholders(m0, |vals| + |InElems(p.value)|)) + ")")
  {
    BindElemsAt(InElems(p.value), vals, m0, Bound(":", vals, m0), k);
    var after := BindPredicate(p, Bound(":", vals, m0), k).0;
    BoundKeys(vals + InElems(p.value), m0);
    assert Keys(after) == Placeholders(m0, |vals| + |InElems(p.value)|);
    assert PredicateText(p, k, after) == Escape(p.field) + OpToken(p.op) + ("(" + Join(",", Keys(after)) + ")");
  }

  /** The keys of bound values are the placeholders, in order. */
  lemma BoundKeys(vals: seq<Value>, m0: nat)
    ensures Keys(Bound(":", vals, m0)) == Placeholders(m0, |vals|)
  {
    var b := Bound(":", vals, m0);
    var ps := Placeholders(m0, |vals|);
    forall k | 0 <= k < |b| ensures Keys(b)[k] == ps[k] {
      assert b[k].key == ":" + MarkerName(m0 + k + 1);
    }
  }

  /** For example, a first predicate on one value followed by 'in' on a
      one-element list gives f IN (:marker1,:marker2). */
  lemma InListExample(f: string, v1: Value, v2: Value)
    ensures var p := Predicate(f, In, List([v2]));
      PredicateText(p, 1, BindPredicate(p, Bound(":", [v1], 0), 1).0) ==
      Escape(f) + " IN (" + Placeholder(1) + "," + Placeholder(2) + ")"
  {
    var p := Predicate(f, In, List([v2]));
    InListNamesEarlierMarkers(p, [v1], 0, 1);
    TwoPlaceholders();
  }

  lemma TwoPlaceholders()
    ensures Join(",", Placeholders(0, |[Null]| + |[Null]|)) == Placeholder(1) + "," + Placeholder(2)
  {
    var ps := Placeholders(0, 2);
    assert ps == [Placeholder(1), Placeholder(2)];
  }

  // -------------------------------------------------------------- ORDER BY

  function OrderItem(s: SortKey): string {
    Escape(s.field) + " " + (if s.order == "asc" then "ASC" else "DESC")
  }

  function OrderItems(sort: seq<SortKey>): (r: seq<string>)
    ensures |r| == |sort|
    ensures forall i :: 0 <= i < |sort| ==> r[i] == OrderItem(sort[i])
  {
    seq(|sort|, i requires 0 <= i < |sort| => OrderItem(sort[i]))
  }

  lemma OrderItemsOf(sort: seq<SortKey>, items: seq<string>)
    requires |items| == |sort| && forall j :: 0 <= j < |sort| ==> items[j] == OrderItem(sort[j])
    ensures items == OrderItems(sort)
  {
  }

  function OrderByClause(sort: seq<SortKey>): string {
    if |sort| == 0 then "" else "ORDER BY " + Join(",", OrderItems(sort))
  }

  method PrepareOrderBy(sort: seq<SortKey>) returns (clause: string)
    ensures clause == OrderByClause(sort)
  {
    clause := "";
    if |sort| > 0 {
      var orderby := EachString(sort, OrderItem);
      OrderItemsOf(sort, orderby);
      clause := "ORDER BY " + Join(",", orderby);
    }
  }

  /** sort() lower-cases the order, so 'asc' in any casing sorts ascending;
      every other order, misspelt or empty, sorts descending. */
  lemma SortDirection(field: Value, order: Value)
    ensures var k := SortKey(ToStr(field), Lower(ToStr(order)));
      OrderItem(k) == Escape(ToStr(field)) + (if Lower(ToStr(order)) == "asc" then " ASC" else " DESC")
    ensures Lower("ASC") == "asc" && Lower("Asc") == "asc"
  {
    var e := Escape(ToStr(field));
    SeqAssoc(e, " ", "ASC");
    SeqAssoc(e, " ", "DESC");
    var a, b := "ASC", "Asc";
    assert Lower(a) == "asc";
    assert Lower(b) == "asc";
  }

  // ----------------------------------------------------------------- LIMIT

  /** The stored limit or skip as PHP sees it: null until set. */
  function Stored(o: Option<int>): Value {
    match o
    case None => Null
    case Some(n) => Int(n)
  }

  /** skip,limit when the limit is truthy; skip with a huge count otherwise;
      nothing when neither is truthy. An unset skip prints as nothing. */
  function LimitClause(limit: Option<int>, skip: Option<int>): string {
    var l, s := Stored(limit), Stored(skip);
    if Truthy(l) || Truthy(s) then
      "LIMIT " + (if Truthy(l) then ToStr(s) + "," + ToStr(l) else ToStr(s) + ",9999999999")
    else ""
  }

  /** A clause is emitted exactly when the limit or the skip is truthy. */
  lemma LimitEmitted(limit: Option<int>, skip: Option<int>)
    ensures LimitClause(limit, skip) == "" <==>
      (limit == None || limit == Some(0)) && (skip == None || skip == Some(0))
  {
    var l, s := Stored(limit), Stored(skip);
    if Truthy(l) || Truthy(s) {
      assert LimitClause(limit, skip)[0] == 'L';
    }
  }

  /** A truthy limit with no skip leaves the offset empty. */
  lemma LimitOnly(n: int)
    requires n != 0
    ensures LimitClause(Some(n), None) == "LIMIT ," + IntToStr(n)
  {
  }

  /** A truthy limit with a skip gives 'LIMIT skip,limit'. */
  lemma LimitBoth(n: int, k: int)
    requires n != 0
    ensures LimitClause(Some(n), Some(k)) == "LIMIT " + IntToStr(k) + "," + IntToStr(n)
  {
  }

  /** A truthy skip alone is followed by the huge count. */
  lemma LimitSkip(limit: Option<int>, k: int)
    requires k != 0 && (limit == None || limit == Some(0))
    ensures LimitClause(limit, Some(k)) == "LIMIT " + IntToStr(k) + ",9999999999"
  {
  }

  // ------------------------------------------------------------ statements

  datatype Clauses = Clauses(select: string, from: string, join: string, where: string, limit: string, orderby: string)

  /** _prepareQuery's clauses when the marker counter starts at m0; the
      values and the final counter are BindSearch(st.search, m0). */
  function PreparedClauses(st: QueryState, ns: string, m0: nat): Clauses {
    var where := if |st.search| == 0 then "" else "WHERE (" + WhereQuery(SearchTexts(st.search, m0)) + ")";
    Clauses(SelectClause(st.select), FromClause(ns, st.name, st.from), JoinClause(ns, st.name, st.join),
            where, LimitClause(st.limit, st.skip), OrderByClause(st.sort))
  }

  /** A prepared statement and the values bound to its placeholders. */
  datatype Statement = Statement(sql: string, params: seq<Entry<Value>>)

  function SelectSql(c: Clauses): string {
    c.select + " " + c.from + " " + c.join + " " + c.where + " " + c.orderby + " " + c.limit
  }

  /** The values of an update's SET list, keyed by bare marker names, and
      the counter after them. */
  function SetBind(data: seq<Entry<Value>>, m: nat): (r: (seq<Entry<Value>>, nat))
    ensures r.1 == m + |data|
    decreases |data|
  {
    if |data| == 0 then ([], m)
    else
      var (vs, k) := SetBind(data[..|data| - 1], m);
      (Set(vs, MarkerName(k + 1), data[|data| - 1].val), k + 1)
  }

  /** One column of the SET list, assigned the n-th marker. */
  function SetText(e: Entry<Value>, n: nat): string {
    Escape(e.key) + "=:" + MarkerName(n)
  }

  /** The SET list: each column assigned the next marker. */
  function SetTexts(data: seq<Entry<Value>>, m: nat): (r: seq<string>)
    ensures |r| == |data|
    decreases |data|
  {
    if |data| == 0 then []
    else SetTexts(data[..|data| - 1], m) + [SetText(data[|data| - 1], m + |data|)]
  }

  function DataValues(data: seq<Entry<Value>>): (r: seq<Value>)
    ensures |r| == |data|
    ensures forall i :: 0 <= i < |data| ==> r[i] == data[i].val
  {
    seq(|data|, i requires 0 <= i < |data| => data[i].val)
  }

  function UpdateText(table: string, sets: seq<string>, c: Clauses): string {
    "UPDATE " + table + " SET " + Join(",", sets) + " " + c.join + " " + c.where
  }

  /** The UPDATE statement; the WHERE markers continue from the counter
      the SET list leaves. */
  function UpdateSql(st: QueryState, ns: string, m0: nat, data: seq<Entry<Value>>): string {
    UpdateText(Escape(ns + st.name), SetTexts(data, m0), PreparedClauses(st, ns, SetBind(data, m0).1))
  }

  /** array_merge of the SET values and the WHERE values. */
  function UpdateParams(search: seq<Group>, m0: nat, data: seq<Entry<Value>>): seq<Entry<Value>> {
    var (setValues, m1) := SetBind(data, m0);
    Merge(setValues, BindSearch(search, m1).0)
  }

  /** The pieces update assembles make up its statement. */
  lemma UpdateSqlOf(st: QueryState, ns: string, m0: nat, m1: nat, data: seq<Entry<Value>>, markers: seq<string>, c: Clauses)
    requires m1 == SetBind(data, m0).1 && markers == SetTexts(data, m0) && c == PreparedClauses(st, ns, m1)
    ensures UpdateText(Escape(ns + st.name), markers, c) == UpdateSql(st, ns, m0, data)
  {
  }

  lemma UpdateMarkerOf(search: seq<Group>, m0: nat, m1: nat, data: seq<Entry<Value>>, k: nat)
    requires m1 == m0 + |data| && k == BindSearch(search, m1).1
    ensures k == m0 + |data| + |SearchValues(search)|
  {
    BindSearchBound(search, m1);
  }

  lemma UpdateMergeOf(search: seq<Group>, m0: nat, m1: nat, data: seq<Entry<Value>>,
                      setValues: seq<Entry<Value>>, values: seq<Entry<Value>>)
    requires m1 == m0 + |data| && setValues == SetBind(data, m0).0 && values == BindSearch(search, m1).0
    ensures Merge(setValues, values) == UpdateParams(search, m0, data)
  {
    assert SetBind(data, m0).1 == m1;
  }

  function RemoveText(table: string, c: Clauses): string {
    "DELETE FROM " + table + " " + c.join + " " + c.where
  }

  function RemoveSql(st: QueryState, ns: string, m0: nat): string {
    RemoveText(Escape(ns + st.name), PreparedClauses(st, ns, m0))
  }

  /** update's SET list: one marker per column, in the data's order. */
  lemma SetBindStep(data: seq<Entry<Value>>, j: nat, m: nat, vs0: seq<Entry<Value>>, vs: seq<Entry<Value>>, k: nat)
    requires 0 < j <= |data| && vs0 == SetBind(data[..j - 1], m).0
    requires k == m + j && vs == Set(vs0, MarkerName(k), data[j - 1].val)
    ensures vs == SetBind(data[..j], m).0
  {
    var d := data[..j];
    assert d[..|d| - 1] == data[..j - 1];
    assert d[|d| - 1] == data[j - 1];
  }

  lemma SetTextsStep(data: seq<Entry<Value>>, j: nat, m: nat, ms0: seq<string>, ms: seq<string>, k: nat)
    requires 0 < j <= |data| && ms0 == SetTexts(data[..j - 1], m)
    requires k == m + j && ms == ms0 + [SetText(data[j - 1], k)]
    ensures ms == SetTexts(data[..j], m)
  {
    var d := data[..j];
    assert d[..|d| - 1] == data[..j - 1];
    assert d[|d| - 1] == data[j - 1];
    assert SetTexts(d, m) == SetTexts(data[..j - 1], m) + [SetText(data[j - 1], m + j)];
  }

  method PrepareSet(db: Database, data: seq<Entry<Value>>) returns (markers: seq<string>, setValues: seq<Entry<Value>>)
    requires db.Valid()
    modifies db`marker, db`issued
    ensures db.Valid()
    ensures setValues == SetBind(data, old(db.marker)).0 && db.marker == old(db.marker) + |data|
    ensures markers == SetTexts(data, old(db.marker))
  {
    setValues, markers := [], [];
    var i := 0;
    while i < |data|
      invariant 0 <= i <= |data|
      invariant db.Valid()
      invariant setValues == SetBind(data[..i], old(db.marker)).0 && db.marker == old(db.marker) + i
      invariant markers == SetTexts(data[..i], old(db.marker))
    {
      ghost var vs0, ms0 := setValues, markers;
      var marker := db.GetMarker();
      setValues := Set(setValues, marker, data[i].val);
      markers := markers + [SetText(data[i], db.marker)];
      i := i + 1;
      SetBindStep(data, i, old(db.marker), vs0, setValues, db.marker);
      SetTextsStep(data, i, old(db.marker), ms0, markers, db.marker);
    }
    assert data[..i] == data;
  }

  lemma DataValuesSnoc(data: seq<Entry<Value>>)
    requires |data| > 0
    ensures DataValues(data[..|data| - 1]) + [data[|data| - 1].val] == DataValues(data)
  {
  }

  lemma {:induction false} SetBindBound(data: seq<Entry<Value>>, m0: nat)
    ensures SetBind(data, m0).0 == Bound("", DataValues(data), m0)
    decreases |data|
  {
    if |data| > 0 {
      var init, last := data[..|data| - 1], data[|data| - 1];
      var (vs, k) := SetBind(init, m0);
      SetBindBound(init, m0);
      BareSnoc(DataValues(init), last.val, m0, vs, k);
      DataValuesSnoc(data);
    }
  }

  /** The SET values are keyed by bare marker names and the WHERE values by
      ':'-prefixed ones, so array_merge keeps them all, SET values first. */
  lemma MergeSetAndWhere(data: seq<Value>, search: seq<Value>, m0: nat, m1: nat)
    ensures Merge(Bound("", data, m0), Bound(":", search, m1)) == Bound("", data, m0) + Bound(":", search, m1)
  {
    var a := Bound("", data, m0);
    var b := Bound(":", search, m1);
    BoundUnique(":", search, m1);
    forall i | 0 <= i < |b| ensures !Has(a, b[i].key) {
      assert b[i].key == ":" + MarkerName(m1 + i + 1);
      assert b[i].key[0] == ':';
      forall j | 0 <= j < |a| ensures a[j].key != b[i].key {
        assert a[j].key == "" + MarkerName(m0 + j + 1);
        assert a[j].key[0] == 'm';
      }
      FindHas(a, b[i].key);
    }
    MergeFresh(a, b);
  }

  /** An update binds the new column values to the first markers and the
      WHERE values to the ones after them; none overwrites another. */
  lemma UpdateBindings(search: seq<Group>, m0: nat, data: seq<Entry<Value>>, m1: nat)
    requires m1 == m0 + |data|
    ensures UpdateParams(search, m0, data) == Bound("", DataValues(data), m0) + Bound(":", SearchValues(search), m1)
  {
    var (sv, k) := SetBind(data, m0);
    assert k == m1;
    assert UpdateParams(search, m0, data) == Merge(sv, BindSearch(search, m1).0);
    SetBindBound(data, m0);
    BindSearchBound(search, m1);
    MergeSetAndWhere(DataValues(data), SearchValues(search), m0, m1);
  }

  /** fetchOne: the first row, or an empty row. */
  function FirstRow(rows: seq<Row>): (r: Row)
    ensures |rows| > 0 ==> r == rows[0]
    ensures |rows| == 0 ==> r == []
  {
    if |rows| > 0 then rows[0] else []
  }

  /** fetchFirst: the first column of the first row, or null. */
  function FirstField(row: Row): (v: Value)
    ensures |row| > 0 ==> v == row[0].val
    ensures |row| == 0 ==> v == Null
  {
    if |row| > 0 then First(row) else Null
  }

  /** The SQL query: the builder's state and the adapter it translates for.
      The driver's answer to a statement is passed in as rows. */
  class SqlQuery {
    const query: Query
    const database: Database

    ghost predicate Valid()
      reads this, query, database
    {
      query.Valid() && database.Valid()
    }

    constructor (database: Database, name: string, sqlite: bool)
      requires database.Valid()
      ensures Valid() && this.database == database && fresh(query)
      ensures query.State() == QueryState(name, [], [], [], [], None, None, []) && query.sqlite == sqlite
    {
      this.database := database;
      query := new Query(name, sqlite);
    }

    method PrepareQuery() returns (c: Clauses, values: seq<Entry<Value>>)
      requires Valid()
      modifies database`marker, database`issued
      ensures Valid()
      ensures c == PreparedClauses(query.State(), database.namespace, old(database.marker))
      ensures values == BindSearch(query.search, old(database.marker)).0
      ensures database.marker == BindSearch(query.search, old(database.marker)).1
    {
      var ns := database.namespace;
      var select := PrepareSelect(query.select);
      var from := PrepareFrom(ns, query.name, query.from);
      var join := PrepareJoin(ns, query.name, query.join);
      var where := "";
      values := [];
      if |query.search| > 0 {
        var q;
        q, values := PrepareWhere(database, query.search);
        where := "WHERE (" + q + ")";
      }
      var orderby := PrepareOrderBy(query.sort);
      c := Clauses(select, from, join, where, LimitClause(query.limit, query.skip), orderby);
    }

    /** update: SET markers are taken before the WHERE ones. */
    method Update(data: seq<Entry<Value>>) returns (stmt: Statement)
      requires Valid()
      modifies database`marker, database`issued
      ensures Valid()
      ensures stmt.sql == UpdateSql(query.State(), database.namespace, old(database.marker), data)
      ensures stmt.params == UpdateParams(query.search, old(database.marker), data)
      ensures database.marker == old(database.marker) + |data| + |SearchValues(query.search)|
    {
      ghost var m0 := database.marker;
      var markers, setValues := PrepareSet(database, data);
      ghost var m1 := database.marker;
      var c, values := PrepareQuery();
      UpdateMarkerOf(query.search, m0, m1, data, database.marker);
      stmt := Statement(UpdateText(Escape(database.namespace + query.name), markers, c), Merge(setValues, values));
      UpdateSqlOf(query.State(), database.namespace, m0, m1, data, markers, c);
      UpdateMergeOf(query.search, m0, m1, data, setValues, values);
    }

    method Remove() returns (stmt: Statement)
      requires Valid()
      modifies database`marker, database`issued
      ensures Valid()
      ensures stmt.sql == RemoveSql(query.State(), database.namespace, old(database.marker))
      ensures (stmt.params, database.marker) == BindSearch(query.search, old(database.marker))
    {
      var c, values := PrepareQuery();
      stmt := Statement(RemoveText(Escape(database.namespace + query.name), c), values);
    }

    /** fetch: the select statement that is run; its rows come back as they are. */
    method Fetch(rows: seq<Row>) returns (stmt: Statement, results: seq<Row>)
      requires Valid()
      modifies database`marker, database`issued
      ensures Valid()
      ensures stmt.sql == SelectSql(PreparedClauses(query.State(), database.namespace, old(database.marker)))
      ensures (stmt.params, database.marker) == BindSearch(query.search, old(database.marker))
      ensures results == rows
    {
      var c, values := PrepareQuery();
      stmt := Statement(SelectSql(c), values);
      results := rows;
    }

    method FetchOne(rows: seq<Row>) returns (stmt: Statement, row: Row)
      requires Valid()
      modifies database`marker, database`issued
      ensures Valid()
      ensures stmt.sql == SelectSql(PreparedClauses(query.State(), database.namespace, old(database.marker)))
      ensures (stmt.params, database.marker) == BindSearch(query.search, old(database.marker))
      ensures row == FirstRow(rows)
    {
      var results;
      stmt, results := Fetch(rows);
      if |results| > 0 {
        row := results[0];
      } else {
        row := [];
      }
    }

    method FetchFirst(rows: seq<Row>) returns (stmt: Statement, v: Value)
      requires Valid()
      modifies database`marker, database`issued
      ensures Valid()
      ensures stmt.sql == SelectSql(PreparedClauses(query.State(), database.namespace, old(database.marker)))
      ensures (stmt.params, database.marker) == BindSearch(query.search, old(database.marker))
      ensures v == FirstField(FirstRow(rows))
    {
      var row;
      stmt, row := FetchOne(rows);
      if |row| > 0 {
        v := First(row);
      } else {
        v := Null;
      }
    }

    /** count: selects COUNT(*) for good, then reads the first field. */
    method Count(rows: seq<Row>) returns (stmt: Statement, v: Value)
      requires Valid()
      modifies query`select, database`marker, database`issued
      ensures Valid()
      ensures query.select == old(query.select) + [Selection("COUNT(*)", "")]
      ensures stmt.sql == SelectSql(PreparedClauses(query.State(), database.namespace, old(database.marker)))
      ensures (stmt.params, database.marker) == BindSearch(query.search, old(database.marker))
      ensures v == FirstField(FirstRow(rows))
    {
      query.Select(Str("COUNT(*)"));
      stmt, v := FetchFirst(rows);
    }
  }
}
