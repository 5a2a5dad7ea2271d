/** The older SQL container: a table whose search, select, sort, limit and
    skip requests come from the shared request builder, plus its own joins,
    GROUP BY and HAVING requests and its own marker counter. _prepareQuery
    turns them into clause strings and a marker-to-value map; insert,
    update, save and remove build their statements from them. */
module PdoTable {
  import opened Values
  import opened Assoc
  import opened Pdo
  import PdoQuery
  import Container
  import AbstractQuery

  type Statement = PdoQuery.Statement

  // ------------------------------------------------------------- _escape

  /** _escape on a PHP value: an array fails in preg_match; true compares
      loosely equal to '*' and is returned as it is, printing as 1; any other
      value is quoted through its string form, as Pdo::escape quotes it. */
  function EscapeValue(v: Value): (r: Result<string>)
    ensures r.Err? <==> v.List?
    ensures r.Err? ==> r.error == TypeError
    ensures v.Str? ==> r == Ok(Escape(v.s))
    ensures v == Bool(true) ==> r == Ok("1")
  {
    match v
    case List(_) => Err(TypeError)
    case Bool(b) => if b then Ok("1") else Ok(Escape(""))
    case _ => Ok(Escape(ToStr(v)))
  }

  /** $v[$i] on a search entry: an array's element or null past its end; on
      a string (which the OR recursion meets) a one-character string or ''
      past its end; null on any other scalar. */
  function Offset(v: Value, i: nat): Value
    requires !v.ObjectId?
  {
    match v
    case List(xs) => if i < |xs| then xs[i] else Null
    case Str(s) => Str(if i < |s| then [s[i]] else "")
    case _ => Null
  }

  // ---------------------------------------------------------- operators

  const Operators: seq<string> := ["is", "is not", "greater", "less", "in", "not in"]
  const Tokens: seq<string> := ["=", "<>", ">", "<", " IN ", " NOT IN "]

  /** strtolower and the operator switch of _prepareSearch. */
  function OpToken(op: Value): Result<string> {
    if op.List? then Err(TypeError)
    else
      var o := Lower(ToStr(op));
      if o == "is" then Ok("=")
      else if o == "is not" then Ok("<>")
      else if o == "greater" then Ok(">")
      else if o == "less" then Ok("<")
      else if o == "in" then Ok(" IN ")
      else if o == "not in" then Ok(" NOT IN ")
      else Err(InvalidOperator)
  }

  /** The switch is the table Operators -> Tokens, matched after
      lower-casing; every other operator is refused, an array with a type
      error. */
  lemma OpTokenTable(op: Value)
    ensures op.List? ==> OpToken(op) == Err(TypeError)
    ensures !op.List? ==> forall k :: 0 <= k < |Operators| && Lower(ToStr(op)) == Operators[k] ==> OpToken(op) == Ok(Tokens[k])
    ensures !op.List? && Lower(ToStr(op)) !in Operators ==> OpToken(op) == Err(InvalidOperator)
    ensures OpToken(op).Ok? ==> OpToken(op).value in Tokens
  {
  }

  // ------------------------------------------------------------ markers

  /** Each element of an array value bound to the next marker. */
  function BindElems(elems: seq<Value>, values: seq<Entry<Value>>, m: nat): (r: (seq<Entry<Value>>, nat))
    ensures r.1 == m + |elems|
    decreases |elems|
  {
    if |elems| == 0 then (values, m)
    else
      var (vs, k) := BindElems(elems[..|elems| - 1], values, m);
      (Set(vs, MarkerName(k + 1), elems[|elems| - 1]), k + 1)
  }

  lemma BindElemsSnoc(elems: seq<Value>, j: nat, values: seq<Entry<Value>>, m: nat, vs0: seq<Entry<Value>>, vs: seq<Entry<Value>>, k: nat)
    requires 0 < j <= |elems| && vs0 == BindElems(elems[..j - 1], values, m).0
    requires k == m + j && vs == Set(vs0, MarkerName(k), elems[j - 1])
    ensures vs == BindElems(elems[..j], values, m).0
  {
    var d := elems[..j];
    assert d[..|d| - 1] == elems[..j - 1];
    assert d[|d| - 1] == elems[j - 1];
  }

  /** The placeholder text of a value and the values and counter after it:
      '(:markerA,...)' with one marker per element for an array, one
      ':markerN' for anything else. */
  function BindValue(v: Value, values: seq<Entry<Value>>, m: nat): (r: (string, seq<Entry<Value>>, nat))
  {
    if v.List? then
      var (vs, k) := BindElems(v.elems, values, m);
      ("(" + Join(",", PdoQuery.Placeholders(m, |v.elems|)) + ")", vs, k)
    else (PdoQuery.Placeholder(m + 1), Set(values, MarkerName(m + 1), v), m + 1)
  }

  lemma PlaceholdersSnoc(m0: nat, n: nat)
    ensures PdoQuery.Placeholders(m0, n + 1) == PdoQuery.Placeholders(m0, n) + [":" + MarkerName(m0 + n + 1)]
  {
    assert PdoQuery.Placeholders(m0, n + 1)[n] == PdoQuery.Placeholder(m0 + n + 1);
  }

  lemma PlaceholdersStep(m0: nat, n: nat, ms0: seq<string>, ms: seq<string>, k: nat)
    requires n > 0 && ms0 == PdoQuery.Placeholders(m0, n - 1)
    requires k == m0 + n && ms == ms0 + [":" + MarkerName(k)]
    ensures ms == PdoQuery.Placeholders(m0, n)
  {
    PlaceholdersSnoc(m0, n - 1);
  }

  /** The values a value binds, in order. */
  function ValueElems(v: Value): seq<Value> {
    if v.List? then v.elems else [v]
  }

  // ------------------------------------------------------ _prepareSearch

  /** One entry of _prepareSearch's loop, given the values bound so far:
      the operator is checked first, the value's markers are drawn next,
      and the field decides last. A string field gives field op value; an
      array field is the OR form, which recurses on that array, whose
      elements are the field, operator and value of one triple, and then on
      the operator string, which is not an array: it never yields a clause.
      Errors keep the markers drawn before them. */
  function EntrySql(e: Value, values: seq<Entry<Value>>, m: nat): (r: (Result<(string, seq<Entry<Value>>)>, nat))
    ensures r.1 >= m
    decreases e
  {
    if e.ObjectId? then (Err(TypeError), m)
    else match OpToken(Offset(e, 1))
      case Err(err) => (Err(err), m)
      case Ok(tok) =>
        var (text, vs, m1) := BindValue(Offset(e, 2), values, m);
        var f := Offset(e, 0);
        if f.Str? then (Ok((Escape(f.s) + tok + text, vs)), m1)
        else if f.List? then
          var (sub, m2) := SearchSql(f.elems, m1);
          (Err(if sub.Err? then sub.error else TypeError), m2)
        else (Err(InvalidSearchParameter), m1)
  }

  /** The AND-ed texts and the values of a list of entries, the values
      starting empty; the first error ends the list. */
  function SearchSql(searches: seq<Value>, m: nat): (r: (Result<(seq<string>, seq<Entry<Value>>)>, nat))
    ensures r.1 >= m
    ensures r.0.Ok? ==> |r.0.value.0| == |searches|
    decreases searches
  {
    if |searches| == 0 then (Ok(([], [])), m)
    else
      var (r0, m0) := SearchSql(searches[..|searches| - 1], m);
      if r0.Err? then (r0, m0)
      else
        var (re, m1) := EntrySql(searches[|searches| - 1], r0.value.1, m0);
        if re.Err? then (Err(re.error), m1)
        else (Ok((r0.value.0 + [re.value.0], re.value.1)), m1)
  }

  /** _prepareSearch: '(' a ') AND (' b ... ')' and the values. */
  function PrepareSearch(searches: seq<Value>, m: nat): (r: (Result<(string, seq<Entry<Value>>)>, nat))
  {
    var (s, m1) := SearchSql(searches, m);
    if s.Err? then (Err(s.error), m1)
    else (Ok(("(" + Join(") AND (", s.value.0) + ")", s.value.1)), m1)
  }

  /** Once an entry fails, the later entries are not looked at. */
  lemma {:induction false} SearchSqlStops(searches: seq<Value>, i: nat, m: nat)
    requires i <= |searches|
    requires SearchSql(searches[..i], m).0.Err?
    ensures SearchSql(searches, m) == SearchSql(searches[..i], m)
    decreases |searches| - i
  {
    if i < |searches| {
      assert searches[..i + 1][..i] == searches[..i];
      SearchSqlStops(searches, i + 1, m);
    } else {
      assert searches[..i] == searches;
    }
  }

  /** An operator outside the six is refused before any marker is drawn. */
  lemma EntryInvalidOperator(e: Value, values: seq<Entry<Value>>, m: nat)
    requires !e.ObjectId? && !Offset(e, 1).List? && Lower(ToStr(Offset(e, 1))) !in Operators
    ensures EntrySql(e, values, m) == (Err(InvalidOperator), m)
  {
    OpTokenTable(Offset(e, 1));
  }

  /** The OR form never yields a clause: either its first triple, read as
      a list of entries, fails, or the recursion reaches the operator
      string, which is not an array. */
  lemma EntryOrFails(e: Value, values: seq<Entry<Value>>, m: nat)
    requires !e.ObjectId? && Offset(e, 0).List?
    ensures EntrySql(e, values, m).0.Err?
  {
  }

  /** A field that is neither a string nor an array is refused after the
      value's markers were drawn. */
  lemma EntryInvalidField(e: Value, values: seq<Entry<Value>>, m: nat)
    requires !e.ObjectId? && OpToken(Offset(e, 1)).Ok?
    requires !Offset(e, 0).Str? && !Offset(e, 0).List?
    ensures EntrySql(e, values, m) == (Err(InvalidSearchParameter), m + |ValueElems(Offset(e, 2))|)
  {
  }

  /** The shape of a value as the SQL text sees it: how many markers an
      array takes, or that a single one is taken. */
  function Shape(v: Value): Option<nat> {
    if v.List? then Some(|v.elems|) else None
  }

  /** No searched value reaches the SQL text: two entries alike in field
      and operator whose values take the same markers give the same text,
      whatever the values are and whatever was bound before. */
  lemma EntryTextIgnoresValues(e1: Value, e2: Value, values1: seq<Entry<Value>>, values2: seq<Entry<Value>>, m: nat)
    requires !e1.ObjectId? && !e2.ObjectId?
    requires Offset(e1, 0) == Offset(e2, 0) && Offset(e1, 1) == Offset(e2, 1)
    requires Offset(e1, 0).Str?
    requires Shape(Offset(e1, 2)) == Shape(Offset(e2, 2))
    ensures EntrySql(e1, values1, m).0.Ok? <==> EntrySql(e2, values2, m).0.Ok?
    ensures EntrySql(e1, values1, m).0.Ok? ==>
      EntrySql(e1, values1, m).0.value.0 == EntrySql(e2, values2, m).0.value.0
    ensures EntrySql(e1, values1, m).1 == EntrySql(e2, values2, m).1
  {
  }

  // ---------------------------------------- the values, read as a whole

  /** The values an entry binds when it yields a clause. */
  function EntryVals(e: Value): seq<Value> {
    if e.ObjectId? then [] else ValueElems(Offset(e, 2))
  }

  /** Every searched value in reading order. */
  function SearchVals(searches: seq<Value>): seq<Value>
    decreases |searches|
  {
    if |searches| == 0 then [] else SearchVals(searches[..|searches| - 1]) + EntryVals(searches[|searches| - 1])
  }

  lemma {:induction false} BindElemsAt(elems: seq<Value>, vals: seq<Value>, m0: nat, vs: seq<Entry<Value>>, k: nat)
    requires vs == PdoQuery.Bound("", vals, m0) && k == m0 + |vals|
    ensures BindElems(elems, vs, k) == (PdoQuery.Bound("", vals + elems, m0), k + |elems|)
    decreases |elems|
  {
    if |elems| == 0 {
      assert vals + elems == vals;
    } else {
      var init, last := elems[..|elems| - 1], elems[|elems| - 1];
      var (vs1, k1) := BindElems(init, vs, k);
      BindElemsAt(init, vals, m0, vs, k);
      PdoQuery.BareBound(vals + init, last, m0, k1);
      PdoQuery.ConcatSnoc(vals, elems);
    }
  }

  lemma BindValueAt(v: Value, vals: seq<Value>, m0: nat, vs: seq<Entry<Value>>, k: nat)
    requires vs == PdoQuery.Bound("", vals, m0) && k == m0 + |vals|
    ensures BindValue(v, vs, k).1 == PdoQuery.Bound("", vals + ValueElems(v), m0)
    ensures BindValue(v, vs, k).2 == k + |ValueElems(v)|
  {
    if v.List? {
      BindElemsAt(v.elems, vals, m0, vs, k);
    } else {
      PdoQuery.BareBound(vals, v, m0, k);
    }
  }

  lemma EntrySqlAt(e: Value, vals: seq<Value>, m0: nat, vs: seq<Entry<Value>>, k: nat)
    requires vs == PdoQuery.Bound("", vals, m0) && k == m0 + |vals|
    requires EntrySql(e, vs, k).0.Ok?
    ensures EntrySql(e, vs, k).0.value.1 == PdoQuery.Bound("", vals + EntryVals(e), m0)
    ensures EntrySql(e, vs, k).1 == k + |EntryVals(e)|
  {
    BindValueAt(Offset(e, 2), vals, m0, vs, k);
  }

  /** When the search yields its clauses, the k-th searched value is bound
      to the k-th marker after the counter, no marker twice, no value
      dropped, and the counter moves past all of them. */
  lemma {:induction false} SearchSqlBound(searches: seq<Value>, m0: nat)
    requires SearchSql(searches, m0).0.Ok?
    ensures SearchSql(searches, m0).0.value.1 == PdoQuery.Bound("", SearchVals(searches), m0)
    ensures SearchSql(searches, m0).1 == m0 + |SearchVals(searches)|
    decreases |searches|
  {
    if |searches| > 0 {
      var init, last := searches[..|searches| - 1], searches[|searches| - 1];
      var (r0, k0) := SearchSql(init, m0);
      assert r0.Ok?;
      SearchSqlBound(init, m0);
      EntrySqlAt(last, SearchVals(init), m0, r0.value.1, k0);
    }
  }
  // ------------------------------------------------------------- clauses

  /** The loop that renders each item of a clause, in order, stopping at
      the first item that cannot be rendered. */
  method MapEach<T>(xs: seq<T>, f: T -> Result<string>) returns (r: Result<seq<string>>)
    ensures r == MapAll(xs, f)
  {
    var items: seq<string> := [];
    var i := 0;
    while i < |xs|
      invariant 0 <= i <= |xs|
      invariant MapAll(xs[..i], f) == Ok(items)
    {
      var item := f(xs[i]);
      MapAllStep(xs, f, i + 1, items);
      if item.Err? {
        MapAllStops(xs, f, i + 1);
        return Err(item.error);
      }
      items := items + [item.value];
      i := i + 1;
    }
    assert xs[..i] == xs;
    r := Ok(items);
  }

  /** One SELECT column: a string key is an alias, an integer key is not. */
  function SelectItem(e: Entry<Value>): Result<string> {
    match EscapeValue(e.val)
    case Err(err) => Err(err)
    case Ok(f) => Ok(if IntKey(e.key) then f else f + " AS " + Escape(e.key))
  }

  function SelectClause(select: seq<Entry<Value>>): Result<string> {
    match MapAll(select, SelectItem)
    case Err(err) => Err(err)
    case Ok(items) => Ok("SELECT " + Join(",", if |items| == 0 then ["*"] else items))
  }

  /** An empty select request selects '*'. */
  lemma SelectStar()
    ensures SelectClause([]) == Ok("SELECT *")
  {
    assert MapAll([], SelectItem) == Ok([]);
    assert Join(",", ["*"]) == "*";
    assert "SELECT " + "*" == "SELECT *";
  }

  /** Otherwise each entry is one column: the escaped field, followed by AS
      and the escaped key only when the key is a string; an array field
      fails. */
  lemma SelectColumns(select: seq<Entry<Value>>)
    requires |select| > 0
    ensures SelectClause(select).Ok? <==> forall i :: 0 <= i < |select| ==> !select[i].val.List?
    ensures SelectClause(select).Ok? ==>
      exists items: seq<string> :: |items| == |select| && SelectClause(select) == Ok("SELECT " + Join(",", items)) &&
        forall i :: 0 <= i < |select| ==>
          items[i] == EscapeValue(select[i].val).value + (if IntKey(select[i].key) then "" else " AS " + Escape(select[i].key))
  {
    var r := MapAll(select, SelectItem);
    MapAllSpec(select, SelectItem);
    forall i | 0 <= i < |select| ensures SelectItem(select[i]).Ok? <==> !select[i].val.List? {
      SelectItemOk(select[i]);
    }
    if r.Ok? {
      var items := r.value;
      forall i | 0 <= i < |select|
        ensures items[i] == EscapeValue(select[i].val).value + (if IntKey(select[i].key) then "" else " AS " + Escape(select[i].key))
      {
        SelectItemOk(select[i]);
        assert SelectItem(select[i]) == Ok(items[i]);
      }
      assert SelectClause(select) == Ok("SELECT " + Join(",", items));
    }
  }

  /** One column is refused exactly when its field is an array. */
  lemma SelectItemOk(e: Entry<Value>)
    ensures SelectItem(e).Ok? <==> !e.val.List?
    ensures SelectItem(e).Ok? ==>
      SelectItem(e).value == EscapeValue(e.val).value + (if IntKey(e.key) then "" else " AS " + Escape(e.key))
  {
  }

  /** count() selects COUNT(*) alone, under the integer key 0. */
  lemma CountColumn(count: string)
    requires count == "COUNT(*)"
    ensures SelectClause([Entry("0", Str(count))]) == Ok("SELECT " + count)
  {
    EscapeStars(count);
    IntKeyOf(0);
    var e := Entry("0", Str(count));
    assert SelectItem(e) == Ok(count);
    assert [e][..0] == [];
    assert MapAll([e], SelectItem) == Ok([] + [count]);
    assert Join(",", [count]) == count;
  }

  function FromClause(name: string): string {
    "FROM " + Escape(name)
  }

  /** explode('.') on a join argument: an array is a type error. */
  function JoinArg(v: Value): Result<string> {
    if v.List? then Err(TypeError) else Ok(ToStr(v))
  }

  /** 'LEFT JOIN t ON x=y', every name prefixed with the namespace. */
  function JoinText(ns: string, t: string, x: string, y: string): string {
    "LEFT JOIN " + Escape(ns + t) + " ON " + Escape(ns + x) + "=" + Escape(ns + y)
  }

  /** One join and the table it reaches: when the first argument's table
      is joined already the second table is joined to it, otherwise the
      first table is; the ON condition reads the already joined side first.
      Names are prefixed with the namespace; the joined list is not. */
  function JoinStep(ns: string, joined: seq<string>, j: (Value, Value)): Result<(string, string)> {
    match (JoinArg(j.0), JoinArg(j.1))
    case (Ok(a), Ok(b)) =>
      var t1, t2 := Split(a, '.')[0], Split(b, '.')[0];
      if t1 in joined then Ok((JoinText(ns, t2, a, b), t2))
      else Ok((JoinText(ns, t1, b, a), t1))
    case _ => Err(TypeError)
  }

  /** The join texts and the joined list, which starts with the table. */
  function JoinFold(ns: string, name: string, js: seq<(Value, Value)>): (r: Result<(seq<string>, seq<string>)>)
    ensures r.Ok? ==> |r.value.0| == |js| && |r.value.1| == |js| + 1 && r.value.1[0] == name
    decreases |js|
  {
    if |js| == 0 then Ok(([], [name]))
    else
      match JoinFold(ns, name, js[..|js| - 1])
      case Err(e) => Err(e)
      case Ok((pieces, joined)) =>
        match JoinStep(ns, joined, js[|js| - 1])
        case Err(e) => Err(e)
        case Ok((piece, t)) => Ok((pieces + [piece], joined + [t]))
  }

  function JoinClause(ns: string, name: string, js: seq<(Value, Value)>): Result<string> {
    if |js| == 0 then Ok("")
    else match JoinFold(ns, name, js)
      case Err(e) => Err(e)
      case Ok((pieces, _)) => Ok(Join(" ", pieces))
  }

  /** One step of JoinFold, unfolded once. */
  lemma JoinFoldLast(ns: string, name: string, js: seq<(Value, Value)>, pieces: seq<string>, joined: seq<string>)
    requires |js| > 0 && JoinFold(ns, name, js[..|js| - 1]) == Ok((pieces, joined))
    ensures JoinFold(ns, name, js) ==
      match JoinStep(ns, joined, js[|js| - 1])
      case Err(e) => Err(e)
      case Ok((piece, t)) => Ok((pieces + [piece], joined + [t]))
  {
  }

  lemma JoinFoldSnoc(ns: string, name: string, js: seq<(Value, Value)>, j: nat, pieces: seq<string>, joined: seq<string>)
    requires 0 < j <= |js| && JoinFold(ns, name, js[..j - 1]) == Ok((pieces, joined))
    ensures JoinFold(ns, name, js[..j]) ==
      match JoinStep(ns, joined, js[j - 1])
      case Err(e) => Err(e)
      case Ok((piece, t)) => Ok((pieces + [piece], joined + [t]))
  {
    var d := js[..j];
    assert d[..|d| - 1] == js[..j - 1];
    assert d[|d| - 1] == js[j - 1];
    JoinFoldLast(ns, name, d, pieces, joined);
  }

  /** Once a join fails, the later ones are not looked at. */
  lemma {:induction false} JoinFoldStops(ns: string, name: string, js: seq<(Value, Value)>, i: nat)
    requires i <= |js|
    requires JoinFold(ns, name, js[..i]).Err?
    ensures JoinFold(ns, name, js) == JoinFold(ns, name, js[..i])
    decreases |js| - i
  {
    if i < |js| {
      assert js[..i + 1][..i] == js[..i];
      JoinFoldStops(ns, name, js, i + 1);
    } else {
      assert js[..i] == js;
    }
  }

  /** What a join text starts with: the table it reaches. */
  function JoinHead(ns: string, t: string): string {
    "LEFT JOIN " + Escape(ns + t) + " ON "
  }

  lemma JoinTextHead(ns: string, t: string, x: string, y: string)
    ensures JoinHead(ns, t) <= JoinText(ns, t, x, y)
  {
    assert JoinText(ns, t, x, y) == JoinHead(ns, t) + (Escape(ns + x) + "=" + Escape(ns + y));
  }

  lemma JoinStepReaches(ns: string, joined: seq<string>, j: (Value, Value))
    requires JoinStep(ns, joined, j).Ok?
    ensures JoinHead(ns, JoinStep(ns, joined, j).value.1) <= JoinStep(ns, joined, j).value.0
  {
    var a, b := JoinArg(j.0).value, JoinArg(j.1).value;
    var t1, t2 := Split(a, '.')[0], Split(b, '.')[0];
    if t1 in joined {
      JoinTextHead(ns, t2, a, b);
    } else {
      JoinTextHead(ns, t1, b, a);
    }
  }

  /** Each join emits, after LEFT JOIN, exactly the table it appends to the
      joined list, with the namespace in front. */
  lemma {:induction false} JoinReaches(ns: string, name: string, js: seq<(Value, Value)>)
    requires JoinFold(ns, name, js).Ok?
    ensures var (pieces, joined) := JoinFold(ns, name, js).value;
      forall i :: 0 <= i < |js| ==> JoinHead(ns, joined[i + 1]) <= pieces[i]
    decreases |js|
  {
    if |js| > 0 {
      var init := js[..|js| - 1];
      JoinReaches(ns, name, init);
      var (pieces, joined) := JoinFold(ns, name, init).value;
      JoinStepReaches(ns, joined, js[|js| - 1]);
    }
  }

  lemma SplitHead(c: string, f: string)
    requires '.' !in c
    ensures Split(c + "." + f, '.')[0] == c
  {
    IndexOfPrefix(c, '.', f);
    var s := c + "." + f;
    assert s[..|c|] == c;
  }

  /** On 'container.field' arguments a join is the newer translator's
      orientation: the already joined side first in ON, the other side's
      table joined and appended. */
  lemma JoinStepOrients(ns: string, joined: seq<string>, c1: string, f1: string, c2: string, f2: string)
    requires '.' !in c1 && '.' !in c2
    ensures var l := PdoQuery.Orient(AbstractQuery.JoinSpec(c1, f1, c2, f2), joined);
      JoinStep(ns, joined, (Str(c1 + "." + f1), Str(c2 + "." + f2))) ==
      Ok((JoinText(ns, l.table2, l.table1 + "." + l.field1, l.table2 + "." + l.field2), l.table2))
  {
    var a, b := c1 + "." + f1, c2 + "." + f2;
    SplitHead(c1, f1);
    SplitHead(c2, f2);
    JoinStepOf(ns, joined, a, b, c1, c2);
  }

  lemma JoinStepOf(ns: string, joined: seq<string>, a: string, b: string, t1: string, t2: string)
    requires Split(a, '.')[0] == t1 && Split(b, '.')[0] == t2
    ensures JoinStep(ns, joined, (Str(a), Str(b))) ==
      if t1 in joined then Ok((JoinText(ns, t2, a, b), t2)) else Ok((JoinText(ns, t1, b, a), t1))
  {
    assert JoinArg(Str(a)) == Ok(a) && JoinArg(Str(b)) == Ok(b);
  }

  /** One ORDER BY item: the upper-cased order must be ASC or DESC. */
  function OrderItem(e: Entry<Value>): Result<string> {
    if e.val.List? then Err(TypeError)
    else
      var o := Upper(ToStr(e.val));
      if o != "ASC" && o != "DESC" then Err(InvalidSortOrder)
      else Ok(Escape(e.key) + " " + o)
  }

  function OrderByClause(sort: seq<Entry<Value>>): Result<string> {
    if |sort| == 0 then Ok("")
    else match MapAll(sort, OrderItem)
      case Err(e) => Err(e)
      case Ok(items) => Ok("ORDER BY " + Join(",", items))
  }

  /** The sort request is accepted exactly when every order reads ASC or
      DESC once upper-cased, in which case each field is sorted in that
      direction, in the request's order. */
  lemma OrderByAccepts(sort: seq<Entry<Value>>)
    ensures OrderByClause(sort).Ok? <==>
      forall i :: 0 <= i < |sort| ==> !sort[i].val.List? && Upper(ToStr(sort[i].val)) in ["ASC", "DESC"]
    ensures MapAll(sort, OrderItem).Ok? ==>
      && |MapAll(sort, OrderItem).value| == |sort|
      && forall i :: 0 <= i < |sort| ==>
        MapAll(sort, OrderItem).value[i] == Escape(sort[i].key) + " " + Upper(ToStr(sort[i].val))
  {
    MapAllSpec(sort, OrderItem);
    forall i | 0 <= i < |sort|
      ensures OrderItem(sort[i]).Ok? <==> !sort[i].val.List? && Upper(ToStr(sort[i].val)) in ["ASC", "DESC"]
      ensures OrderItem(sort[i]).Ok? ==> OrderItem(sort[i]).value == Escape(sort[i].key) + " " + Upper(ToStr(sort[i].val))
    {
      OrderItemOk(sort[i]);
    }
  }

  lemma OrderItemOk(e: Entry<Value>)
    ensures OrderItem(e).Ok? <==> !e.val.List? && Upper(ToStr(e.val)) in ["ASC", "DESC"]
    ensures OrderItem(e).Ok? ==> OrderItem(e).value == Escape(e.key) + " " + Upper(ToStr(e.val))
  {
  }

  /** 'asc' in any casing and 'DESC' are accepted; 'up' is not. */
  lemma OrderExamples(f: string)
    ensures OrderItem(Entry(f, Str("asc"))) == Ok(Escape(f) + " ASC")
    ensures OrderItem(Entry(f, Str("Desc"))) == Ok(Escape(f) + " DESC")
    ensures OrderItem(Entry(f, Str("up"))) == Err(InvalidSortOrder)
  {
    var a, d, u := "asc", "Desc", "up";
    assert Upper(a) == "ASC";
    assert Upper(d) == "DESC";
    assert Upper(u) == "UP";
    assert Escape(f) + " " + "ASC" == Escape(f) + " ASC";
    assert Escape(f) + " " + "DESC" == Escape(f) + " DESC";
  }

  /** The LIMIT clause. An integer limit (set means an integer here) is
      checked first and the skip is then never read, so it prints as
      nothing: a non-zero limit gives 'LIMIT 0,n' and a zero one
      'LIMIT ,999999999999999'. Without a limit, a truthy skip gives
      'LIMIT s,999999999999999'. */
  function LimitClause(limit: Option<int>, skip: Option<int>): string {
    if limit.Some? then
      if limit.value != 0 then "LIMIT " + ToStr(Int(ToInt(Null))) + "," + IntToStr(limit.value)
      else "LIMIT " + ToStr(Null) + ",999999999999999"
    else if skip.Some? && skip.value != 0 then "LIMIT " + IntToStr(skip.value) + ",999999999999999"
    else ""
  }

  /** A clause is emitted exactly when a limit is set or the skip is
      truthy. */
  lemma LimitEmitted(limit: Option<int>, skip: Option<int>)
    ensures LimitClause(limit, skip) == "" <==> limit.None? && (skip.None? || skip.value == 0)
  {
    if limit.Some? {
      assert LimitClause(limit, skip)[0] == 'L';
    } else if skip.Some? && skip.value != 0 {
      assert LimitClause(limit, skip)[0] == 'L';
    }
  }

  /** With a limit the skip never counts. */
  lemma LimitIgnoresSkip(n: int, skip: Option<int>)
    ensures LimitClause(Some(n), skip) == LimitClause(Some(n), None)
  {
  }

  /** A non-zero limit reads the unset skip as 0. */
  lemma LimitSet(n: int, skip: Option<int>)
    requires n != 0
    ensures LimitClause(Some(n), skip) == "LIMIT 0," + IntToStr(n)
  {
    assert ToStr(Int(ToInt(Null))) == "0";
  }

  /** A zero limit prints the unset skip as nothing. */
  lemma LimitZero(skip: Option<int>)
    ensures LimitClause(Some(0), skip) == "LIMIT ,999999999999999"
  {
  }

  /** Without a limit, a truthy skip is followed by the huge count. */
  lemma LimitSkip(k: int)
    requires k != 0
    ensures LimitClause(None, Some(k)) == "LIMIT " + IntToStr(k) + ",999999999999999"
  {
  }

  function GroupByClause(groups: seq<Value>): Result<string> {
    if |groups| == 0 then Ok("")
    else match MapAll(groups, EscapeValue)
      case Err(e) => Err(e)
      case Ok(items) => Ok("GROUP BY " + Join(",", items))
  }

  /** Every GROUP BY field is escaped, in order. */
  lemma GroupByEscapes(groups: seq<Value>)
    ensures GroupByClause(groups).Ok? <==> forall i :: 0 <= i < |groups| ==> !groups[i].List?
    ensures |groups| > 0 && GroupByClause(groups).Ok? ==>
      exists items: seq<string> :: |items| == |groups| && GroupByClause(groups) == Ok("GROUP BY " + Join(",", items)) &&
        forall i :: 0 <= i < |groups| ==> EscapeValue(groups[i]) == Ok(items[i])
  {
    var r := MapAll(groups, EscapeValue);
    MapAllSpec(groups, EscapeValue);
    if r.Ok? && |groups| > 0 {
      var items := r.value;
      assert forall i :: 0 <= i < |groups| ==> EscapeValue(groups[i]) == Ok(items[i]);
    }
  }

  /** WHERE or HAVING: nothing for an empty request, otherwise the keyword
      and the parenthesised search. */
  function SearchClause(keyword: string, entries: seq<Value>, m: nat): (r: (Result<(string, seq<Entry<Value>>)>, nat))
    ensures r.1 >= m
  {
    if |entries| == 0 then (Ok(("", [])), m)
    else
      var (s, m1) := PrepareSearch(entries, m);
      if s.Err? then (Err(s.error), m1)
      else (Ok((keyword + " (" + s.value.0 + ")", s.value.1)), m1)
  }

  /** Everything _prepareQuery reads. */
  datatype TableState = TableState(
    name: string, namespace: string, search: Option<seq<Value>>,
    select: seq<Entry<Value>>, sort: seq<Entry<Value>>, limit: Option<int>, skip: Option<int>,
    join: seq<(Value, Value)>, group: seq<Value>, having: seq<Value>)

  /** The clauses, each "" when it is not emitted. */
  datatype Clauses = Clauses(
    select: string, from: string, join: string, where: string,
    limit: string, orderby: string, groupby: string, having: string)

  datatype Request = Request(clauses: Clauses, values: seq<Entry<Value>>)

  /** _prepareQuery, with the marker counter before and after: the clauses
      are built in the order SELECT, FROM, JOIN, WHERE, ORDER BY, LIMIT,
      GROUP BY, HAVING; the first failure ends it, keeping the markers the
      searches before it drew; the HAVING values come after the WHERE
      values. */
  function TableQuery(st: TableState, m0: nat): (r: (Result<Request>, nat))
    ensures r.1 >= m0
  {
    match SelectClause(st.select)
    case Err(e) => (Err(e), m0)
    case Ok(select) =>
      match JoinClause(st.namespace, st.name, st.join)
      case Err(e) => (Err(e), m0)
      case Ok(join) => TableTail(st, select, join, m0)
  }

  /** _prepareQuery from the WHERE clause on, once SELECT and the joins
      are rendered. */
  function TableTail(st: TableState, select: string, join: string, m0: nat): (r: (Result<Request>, nat))
    ensures r.1 >= m0
  {
    var (w, m1) := SearchClause("WHERE", Container.Base(st.search), m0);
    if w.Err? then (Err(w.error), m1)
    else match OrderByClause(st.sort)
      case Err(e) => (Err(e), m1)
      case Ok(orderby) =>
        match GroupByClause(st.group)
        case Err(e) => (Err(e), m1)
        case Ok(groupby) =>
          var (h, m2) := SearchClause("HAVING", st.having, m1);
          if h.Err? then (Err(h.error), m2)
          else
            var c := Clauses(select, FromClause(st.name), join, w.value.0,
                             LimitClause(st.limit, st.skip), orderby, groupby, h.value.0);
            (Ok(Request(c, Merge(Merge([], w.value.1), h.value.1))), m2)
  }

  /** The values of a search list or an empty request: one marker each,
      numbered from m. */
  lemma SearchClauseBound(keyword: string, entries: seq<Value>, m: nat)
    requires SearchClause(keyword, entries, m).0.Ok?
    ensures SearchClause(keyword, entries, m).0.value.1 == PdoQuery.Bound("", SearchVals(entries), m)
    ensures SearchClause(keyword, entries, m).1 == m + |SearchVals(entries)|
  {
    if |entries| > 0 {
      SearchSqlBound(entries, m);
    }
  }

  lemma BoundConcat(x: seq<Value>, y: seq<Value>, m0: nat, m1: nat)
    requires m1 == m0 + |x|
    ensures PdoQuery.Bound("", x, m0) + PdoQuery.Bound("", y, m1) == PdoQuery.Bound("", x + y, m0)
  {
  }

  /** Markers drawn one after the other never clash, so array_merge keeps
      every value, in the order the markers were drawn. */
  lemma MergeBound(x: seq<Value>, y: seq<Value>, m0: nat, m1: nat)
    requires m1 == m0 + |x|
    ensures Merge(PdoQuery.Bound("", x, m0), PdoQuery.Bound("", y, m1)) == PdoQuery.Bound("", x + y, m0)
  {
    var a, b := PdoQuery.Bound("", x, m0), PdoQuery.Bound("", y, m1);
    PdoQuery.BoundUnique("", y, m1);
    forall i | 0 <= i < |b| ensures !Has(a, b[i].key) {
      forall j | 0 <= j < |a| ensures a[j].key != b[i].key {
        PdoQuery.TaggedNamesDistinct("", m0 + j + 1, m1 + i + 1);
      }
      FindHas(a, b[i].key);
    }
    MergeFresh(a, b);
    BoundConcat(x, y, m0, m1);
  }

  lemma MergeIntoEmpty(x: seq<Value>, m0: nat)
    ensures Merge([], PdoQuery.Bound("", x, m0)) == PdoQuery.Bound("", x, m0)
  {
    PdoQuery.BoundUnique("", x, m0);
    MergeFresh([], PdoQuery.Bound("", x, m0));
  }

  /** The values _prepareQuery returns: every value of the WHERE search and
      then of the HAVING search, each under its own marker, numbered on
      from the counter; the counter ends past all of them. */
  lemma TableQueryShape(st: TableState, m0: nat)
    requires TableQuery(st, m0).0.Ok?
    ensures var (w, m1) := SearchClause("WHERE", Container.Base(st.search), m0);
      var (h, m2) := SearchClause("HAVING", st.having, m1);
      w.Ok? && h.Ok? && TableQuery(st, m0).1 == m2
      && TableQuery(st, m0).0.value.values == Merge(Merge([], w.value.1), h.value.1)
  {
  }

  lemma ValuesOf(wv: seq<Value>, hv: seq<Value>, m0: nat, m1: nat, w: seq<Entry<Value>>, h: seq<Entry<Value>>)
    requires w == PdoQuery.Bound("", wv, m0) && m1 == m0 + |wv| && h == PdoQuery.Bound("", hv, m1)
    ensures Merge(Merge([], w), h) == PdoQuery.Bound("", wv + hv, m0)
  {
    MergeIntoEmpty(wv, m0);
    MergeBound(wv, hv, m0, m1);
  }

  lemma TableQueryValues(st: TableState, m0: nat)
    requires TableQuery(st, m0).0.Ok?
    ensures TableQuery(st, m0).0.value.values
      == PdoQuery.Bound("", SearchVals(Container.Base(st.search)) + SearchVals(st.having), m0)
    ensures TableQuery(st, m0).1 == m0 + |SearchVals(Container.Base(st.search))| + |SearchVals(st.having)|
  {
    TableQueryShape(st, m0);
    var (w, m1) := SearchClause("WHERE", Container.Base(st.search), m0);
    SearchClauseBound("WHERE", Container.Base(st.search), m0);
    SearchClauseBound("HAVING", st.having, m1);
    ValuesOf(SearchVals(Container.Base(st.search)), SearchVals(st.having), m0, m1, w.value.1,
             SearchClause("HAVING", st.having, m1).0.value.1);
  }

  /** The SELECT query the cursor runs: the LIMIT clause is placed before
      ORDER BY, as the source writes it. */
  function CursorSql(c: Clauses): string {
    c.select + " " + c.from + " " + c.join + " " + c.where + " " + c.limit + " " + c.orderby + " " + c.groupby + " " + c.having
  }

  // ------------------------------------------------------- statements

  /** insert: the escaped names and ':name' markers, one per key, in key
      order; the row itself is the parameter map. */
  function InsertNames(values: Row): (r: seq<string>)
    ensures |r| == |values| && forall i :: 0 <= i < |values| ==> r[i] == Escape(values[i].key)
  {
    seq(|values|, i requires 0 <= i < |values| => Escape(values[i].key))
  }

  function InsertMarkers(values: Row): (r: seq<string>)
    ensures |r| == |values| && forall i :: 0 <= i < |values| ==> r[i] == ":" + values[i].key
  {
    seq(|values|, i requires 0 <= i < |values| => ":" + values[i].key)
  }

  function InsertStatement(name: string, values: Row): Statement {
    PdoQuery.Statement("INSERT INTO " + Escape(name) + " (" + Join(",", InsertNames(values)) +
                       ") VALUES (" + Join(",", InsertMarkers(values)) + ")", values)
  }

  /** Every marker of an insert names the parameter bound to it: the i-th
      column is the i-th key, escaped, and its marker is that key. */
  lemma InsertBinds(name: string, values: Row)
    ensures var st := InsertStatement(name, values);
      |InsertNames(values)| == |InsertMarkers(values)| == |st.params| == |values|
      && forall i :: 0 <= i < |values| ==>
           InsertMarkers(values)[i][1..] == st.params[i].key && st.params[i] == values[i]
  {
  }

  /** update: the SET list takes the first markers, then _prepareQuery draws
      its own; the statement keeps only the JOIN and WHERE clauses. */
  function UpdateStatement(st: TableState, m0: nat, values: Row): (r: (Result<Statement>, nat))
    ensures r.1 >= m0
  {
    if st.search.None? then (Err(SearchNotCalled), m0)
    else
      var (setValues, m1) := PdoQuery.SetBind(values, m0);
      var (q, m2) := TableQuery(st, m1);
      if q.Err? then (Err(q.error), m2)
      else
        var c := q.value.clauses;
        (Ok(PdoQuery.Statement("UPDATE " + Escape(st.name) + " SET " + Join(",", PdoQuery.SetTexts(values, m0)) +
                               " " + c.join + " " + c.where, Merge(setValues, q.value.values))), m2)
  }

  /** The SET values are bound to the first markers and the search values
      to the ones after them; array_merge keeps every one of them. */
  lemma UpdateShape(st: TableState, m0: nat, values: Row)
    requires UpdateStatement(st, m0, values).0.Ok?
    ensures var (setValues, m1) := PdoQuery.SetBind(values, m0);
      var (q, m2) := TableQuery(st, m1);
      q.Ok? && UpdateStatement(st, m0, values).1 == m2 &&
      UpdateStatement(st, m0, values).0.value.params == Merge(setValues, q.value.values)
  {
  }

  lemma UpdateValues(values: Row, sv: seq<Value>, m0: nat, m1: nat, setValues: seq<Entry<Value>>, qv: seq<Entry<Value>>)
    requires setValues == PdoQuery.SetBind(values, m0).0 && m1 == m0 + |values| && qv == PdoQuery.Bound("", sv, m1)
    ensures Merge(setValues, qv) == PdoQuery.Bound("", PdoQuery.DataValues(values) + sv, m0)
  {
    var d := PdoQuery.DataValues(values);
    PdoQuery.SetBindBound(values, m0);
    MergeBound(d, sv, m0, m1);
  }

  lemma UpdateBindings(st: TableState, m0: nat, values: Row)
    requires UpdateStatement(st, m0, values).0.Ok?
    ensures UpdateStatement(st, m0, values).0.value.params ==
      PdoQuery.Bound("", PdoQuery.DataValues(values) + (SearchVals(Container.Base(st.search)) + SearchVals(st.having)), m0)
    ensures UpdateStatement(st, m0, values).1 ==
      m0 + |values| + |SearchVals(Container.Base(st.search))| + |SearchVals(st.having)|
  {
    UpdateShape(st, m0, values);
    var (setValues, m1) := PdoQuery.SetBind(values, m0);
    TableQueryValues(st, m1);
    UpdateValues(values, SearchVals(Container.Base(st.search)) + SearchVals(st.having), m0, m1, setValues,
                 TableQuery(st, m1).0.value.values);
  }

  /** update as written: `$statement->execute(values)` names the bare
      constant `values`, which PHP 8 rejects with an Error before anything is
      executed. Every update that got that far fails, with the markers
      already drawn; the Error is not an Exception, so it is not wrapped. */
  function UpdateAsWritten(st: TableState, m0: nat, values: Row): (r: (Result<Statement>, nat))
    ensures r.0.Err?
    ensures r.1 == UpdateStatement(st, m0, values).1
    ensures r.0.error == (if UpdateStatement(st, m0, values).0.Ok? then UndefinedConstant
                          else UpdateStatement(st, m0, values).0.error)
  {
    var (u, m) := UpdateStatement(st, m0, values);
    if u.Ok? then (Err(UndefinedConstant), m) else (u, m)
  }

  /** An update the guards accept: it fails as written, while the intended
      statement binds the SET value to the first marker, marker1. */
  lemma UpdateAsWrittenFails()
    ensures var st := TableState("t", "", Some([]), [], [], None, None, [], [], []);
      var row := [Entry("a", Int(1))];
      UpdateStatement(st, 0, row).0.Ok? &&
      UpdateStatement(st, 0, row).0.value.params == [Entry(MarkerName(1), Int(1))] &&
      UpdateAsWritten(st, 0, row).0 == Err(UndefinedConstant)
  {
    var st := TableState("t", "", Some([]), [], [], None, None, [], [], []);
    var row := [Entry("a", Int(1))];
    BareQueryRuns(st, 1);
    assert PdoQuery.SetBind(row, 0).1 == 1;
    UpdateBindings(st, 0, row);
    assert PdoQuery.DataValues(row) + [] == [Int(1)];
    assert PdoQuery.Bound("", [Int(1)], 0)[0] == Entry("" + MarkerName(1), Int(1));
    assert "" + MarkerName(1) == MarkerName(1);
  }

  /** A search with no conditions and nothing else requested always renders. */
  lemma BareQueryRuns(st: TableState, m0: nat)
    requires st.search == Some([]) && st.select == [] && st.join == [] && st.sort == [] && st.group == [] && st.having == []
    ensures TableQuery(st, m0).0.Ok?
  {
    SelectStar();
    assert Container.Base(st.search) == [];
  }

  /** What save has gathered: the INSERT names and markers, the UPDATE
      assignments and the values bound so far. */
  datatype SaveParts = SaveParts(names: seq<string>, markers: seq<string>, updates: seq<string>, vals: seq<Entry<Value>>)

  /** A search entry save accepts: the operator is 'is' in some casing and
      the field is not an array. */
  predicate SaveAllowed(e: Value) {
    !e.ObjectId? && !Offset(e, 1).List? && Lower(ToStr(Offset(e, 1))) == "is" && !Offset(e, 0).List?
  }

  /** One search entry of save: only 'is' is allowed, in any casing; the
      field is escaped and one marker binds the value. */
  function SaveEntry(e: Value, p: SaveParts, m: nat): (r: Result<SaveParts>)
    ensures r.Ok? <==> SaveAllowed(e)
    ensures r.Ok? ==> r.value.updates == p.updates && r.value.markers == p.markers + [PdoQuery.Placeholder(m + 1)]
    ensures r.Ok? ==> |r.value.names| == |p.names| + 1
  {
    if e.ObjectId? || Offset(e, 1).List? then Err(TypeError)
    else if Lower(ToStr(Offset(e, 1))) != "is" then Err(ForbiddenSaveOperator)
    else match EscapeValue(Offset(e, 0))
      case Err(err) => Err(err)
      case Ok(n) => Ok(SaveParts(p.names + [n], p.markers + [PdoQuery.Placeholder(m + 1)], p.updates,
                                 Set(p.vals, MarkerName(m + 1), Offset(e, 2))))
  }

  /** save's first loop: the search entries, each turned into a column. */
  function SaveSearch(searches: seq<Value>, m: nat): (r: (Result<SaveParts>, nat))
    ensures r.0.Ok? ==> r.1 == m + |searches| && |r.0.value.names| == |r.0.value.markers| == |searches|
    ensures r.0.Ok? ==> r.0.value.updates == []
    decreases |searches|
  {
    if |searches| == 0 then (Ok(SaveParts([], [], [], [])), m)
    else
      var prev := SaveSearch(searches[..|searches| - 1], m);
      if prev.0.Err? then prev
      else match SaveEntry(searches[|searches| - 1], prev.0.value, prev.1)
        case Err(err) => (Err(err), prev.1)
        case Ok(p) => (Ok(p), prev.1 + 1)
  }

  /** Each search entry takes the next INSERT marker. */
  lemma {:induction false} SaveSearchMarkers(searches: seq<Value>, m: nat)
    requires SaveSearch(searches, m).0.Ok?
    ensures SaveSearch(searches, m).0.value.markers == PdoQuery.Placeholders(m, |searches|)
    decreases |searches|
  {
    if |searches| > 0 {
      var init, e := searches[..|searches| - 1], searches[|searches| - 1];
      var (r0, k) := SaveSearch(init, m);
      SaveSearchLast(searches, m, init, e, r0, k);
      SaveSearchMarkers(init, m);
      var ms := SaveEntry(e, r0.value, k).value.markers;
      assert ms == r0.value.markers + [":" + MarkerName(k + 1)];
      PlaceholdersStep(m, |searches|, r0.value.markers, ms, k + 1);
    }
  }

  /** The last search entry is saved after the others. */
  lemma SaveSearchLast(searches: seq<Value>, m: nat, init: seq<Value>, e: Value, r0: Result<SaveParts>, k: nat)
    requires |searches| > 0 && init == searches[..|searches| - 1] && e == searches[|searches| - 1]
    requires (r0, k) == SaveSearch(init, m) && SaveSearch(searches, m).0.Ok?
    ensures r0.Ok? && k == m + |init| && SaveSearch(searches, m).0 == SaveEntry(e, r0.value, k)
  {
  }

  lemma SaveSearchStep(searches: seq<Value>, m: nat)
    requires |searches| > 0
    ensures SaveSearch(searches, m).0.Ok? <==>
      SaveSearch(searches[..|searches| - 1], m).0.Ok? && SaveAllowed(searches[|searches| - 1])
  {
  }

  predicate AllAllowed(searches: seq<Value>) {
    forall i :: 0 <= i < |searches| ==> SaveAllowed(searches[i])
  }

  lemma AllowedSnoc(searches: seq<Value>)
    requires |searches| > 0
    ensures AllAllowed(searches) <==> AllAllowed(searches[..|searches| - 1]) && SaveAllowed(searches[|searches| - 1])
  {
    var init := searches[..|searches| - 1];
    assert forall i :: 0 <= i < |init| ==> init[i] == searches[i];
  }

  /** save accepts a search exactly when every entry's operator is 'is' in
      some casing and every field is not an array. */
  lemma {:induction false} SaveSearchAccepts(searches: seq<Value>, m: nat)
    ensures SaveSearch(searches, m).0.Ok? <==> AllAllowed(searches)
    decreases |searches|
  {
    if |searches| > 0 {
      var init := searches[..|searches| - 1];
      SaveSearchAccepts(init, m);
      SaveSearchStep(searches, m);
      AllowedSnoc(searches);
    }
  }

  /** A search entry whose operator is not 'is' makes save refuse, unless
      an earlier entry has failed already. */
  lemma SaveForbids(searches: seq<Value>, m: nat, i: nat)
    requires i < |searches| && SaveSearch(searches[..i], m).0.Ok?
    requires !searches[i].ObjectId? && !Offset(searches[i], 1).List? && Lower(ToStr(Offset(searches[i], 1))) != "is"
    ensures SaveSearch(searches, m).0 == Err(ForbiddenSaveOperator)
  {
    assert searches[..i + 1][..i] == searches[..i];
    assert SaveSearch(searches[..i + 1], m).0 == Err(ForbiddenSaveOperator);
    SaveSearchStops(searches, i + 1, m);
  }

  lemma SaveSearchErr(searches: seq<Value>, m: nat)
    requires |searches| > 0 && SaveSearch(searches[..|searches| - 1], m).0.Err?
    ensures SaveSearch(searches, m) == SaveSearch(searches[..|searches| - 1], m)
  {
  }

  lemma {:induction false} SaveSearchStops(searches: seq<Value>, i: nat, m: nat)
    requires i <= |searches|
    requires SaveSearch(searches[..i], m).0.Err?
    ensures SaveSearch(searches, m) == SaveSearch(searches[..i], m)
    decreases |searches| - i
  {
    if i < |searches| {
      var next := searches[..i + 1];
      assert next[..|next| - 1] == searches[..i];
      SaveSearchErr(next, m);
      SaveSearchStops(searches, i + 1, m);
    } else {
      assert searches[..i] == searches;
    }
  }

  /** One column of save's second loop: an INSERT marker and an UPDATE
      marker, both bound to its value; the UPDATE name is not escaped. */
  function SaveColumn(e: Entry<Value>, q: SaveParts, k: nat): (r: SaveParts)
    ensures r.markers == q.markers + [PdoQuery.Placeholder(k + 1)]
    ensures r.updates == q.updates + [e.key + "=:" + MarkerName(k + 2)]
    ensures |r.names| == |q.names| + 1
  {
    SaveParts(q.names + [Escape(e.key)], q.markers + [PdoQuery.Placeholder(k + 1)],
              q.updates + [e.key + "=:" + MarkerName(k + 2)],
              Set(Set(q.vals, MarkerName(k + 1), e.val), MarkerName(k + 2), e.val))
  }

  /** save's second loop over the columns. */
  function SaveData(data: Row, p: SaveParts, m: nat): (r: (SaveParts, nat))
    ensures r.1 == m + 2 * |data|
    ensures |r.0.markers| == |p.markers| + |data| && |r.0.updates| == |p.updates| + |data|
    ensures |r.0.names| == |p.names| + |data|
    decreases |data|
  {
    if |data| == 0 then (p, m)
    else
      var (q, k) := SaveData(data[..|data| - 1], p, m);
      (SaveColumn(data[|data| - 1], q, k), k + 2)
  }

  /** The INSERT markers of the columns, two markers apart. */
  function ColumnMarkers(m: nat, n: nat): (r: seq<string>)
    ensures |r| == n && forall j :: 0 <= j < n ==> r[j] == PdoQuery.Placeholder(m + 2 * j + 1)
  {
    seq(n, j requires 0 <= j < n => PdoQuery.Placeholder(m + 2 * j + 1))
  }

  /** The UPDATE assignments of the columns, on the unescaped names. */
  function ColumnUpdates(data: Row, m: nat): (r: seq<string>)
    ensures |r| == |data| && forall j :: 0 <= j < |data| ==> r[j] == data[j].key + "=:" + MarkerName(m + 2 * j + 2)
  {
    seq(|data|, j requires 0 <= j < |data| => data[j].key + "=:" + MarkerName(m + 2 * j + 2))
  }

  lemma ColumnMarkersSnoc(m: nat, n: nat)
    ensures ColumnMarkers(m, n + 1) == ColumnMarkers(m, n) + [PdoQuery.Placeholder(m + 2 * n + 1)]
  {
  }

  lemma ColumnUpdatesSnoc(data: Row, m: nat)
    requires |data| > 0
    ensures ColumnUpdates(data, m) == ColumnUpdates(data[..|data| - 1], m)
      + [data[|data| - 1].key + "=:" + MarkerName(m + 2 * (|data| - 1) + 2)]
  {
    var init := data[..|data| - 1];
    assert forall j :: 0 <= j < |init| ==> init[j] == data[j];
  }

  /** One step of save's column loop, with the counter it starts from. */
  lemma SaveDataStep(data: Row, p: SaveParts, m: nat, q: SaveParts, k: nat)
    requires |data| > 0 && q == SaveData(data[..|data| - 1], p, m).0 && k == m + 2 * (|data| - 1)
    ensures SaveData(data, p, m).0 == SaveColumn(data[|data| - 1], q, k)
  {
    var (q0, k0) := SaveData(data[..|data| - 1], p, m);
    assert q0 == q && k0 == k;
  }

  lemma MarkersStep(e: Entry<Value>, q: SaveParts, k: nat, pm: seq<string>, m: nat, n: nat)
    requires q.markers == pm + ColumnMarkers(m, n) && k == m + 2 * n
    ensures SaveColumn(e, q, k).markers == pm + ColumnMarkers(m, n + 1)
  {
    ColumnMarkersSnoc(m, n);
  }

  /** The j-th column's INSERT marker is the first of the two markers drawn
      for it, two markers apart from the previous column's. */
  lemma {:induction false} SaveDataMarkers(data: Row, p: SaveParts, m: nat)
    ensures SaveData(data, p, m).0.markers == p.markers + ColumnMarkers(m, |data|)
    decreases |data|
  {
    if |data| > 0 {
      var init := data[..|data| - 1];
      var (q, k) := SaveData(init, p, m);
      SaveDataMarkers(init, p, m);
      SaveDataStep(data, p, m, q, k);
      MarkersStep(data[|data| - 1], q, k, p.markers, m, |init|);
    }
  }

  lemma UpdatesStep(data: Row, q: SaveParts, k: nat, pu: seq<string>, m: nat)
    requires |data| > 0 && q.updates == pu + ColumnUpdates(data[..|data| - 1], m) && k == m + 2 * (|data| - 1)
    ensures SaveColumn(data[|data| - 1], q, k).updates == pu + ColumnUpdates(data, m)
  {
    ColumnUpdatesSnoc(data, m);
  }

  /** Its UPDATE assignment, on the unescaped name, uses the second. */
  lemma {:induction false} SaveDataUpdates(data: Row, p: SaveParts, m: nat)
    ensures SaveData(data, p, m).0.updates == p.updates + ColumnUpdates(data, m)
    decreases |data|
  {
    if |data| > 0 {
      var init := data[..|data| - 1];
      var (q, k) := SaveData(init, p, m);
      SaveDataUpdates(init, p, m);
      SaveDataStep(data, p, m, q, k);
      UpdatesStep(data, q, k, p.updates, m);
    }
  }

  /** save: the statement is built after _prepareQuery has run, whose
      clauses it does not use but whose failures and markers count. */
  function SaveStatement(st: TableState, m0: nat, values: Row): (r: (Result<Statement>, nat))
  {
    if st.search.None? then (Err(SearchNotCalled), m0)
    else
      var (sp, m1) := SaveSearch(st.search.value, m0);
      if sp.Err? then (Err(sp.error), m1)
      else
        var (p, m2) := SaveData(values, sp.value, m1);
        var (q, m3) := TableQuery(st, m2);
        if q.Err? then (Err(q.error), m3)
        else (Ok(PdoQuery.Statement("INSERT INTO " + Escape(st.name) + " (" + Join(",", p.names) + ") VALUES (" +
                                    Join(",", p.markers) + ") ON DUPLICATE KEY UPDATE " + Join(",", p.updates), p.vals)), m3)
  }

  /** The value a search entry binds in save. */
  function SavedValue(e: Value): Value {
    if e.ObjectId? then Null else Offset(e, 2)
  }

  /** The values save binds, in marker order: each search value, then each
      column's value twice. */
  function SearchSaveVals(searches: seq<Value>): (r: seq<Value>)
    ensures |r| == |searches|
    decreases |searches|
  {
    if |searches| == 0 then [] else SearchSaveVals(searches[..|searches| - 1]) + [SavedValue(searches[|searches| - 1])]
  }

  function DoubleVals(data: Row): (r: seq<Value>)
    ensures |r| == 2 * |data|
    decreases |data|
  {
    if |data| == 0 then [] else DoubleVals(data[..|data| - 1]) + [data[|data| - 1].val, data[|data| - 1].val]
  }

  lemma SaveStepBound(x: seq<Value>, p: SaveParts, e: Value, m0: nat, k: nat)
    requires p.vals == PdoQuery.Bound("", x, m0) && k == m0 + |x| && SaveEntry(e, p, k).Ok?
    ensures SaveEntry(e, p, k).value.vals == PdoQuery.Bound("", x + [SavedValue(e)], m0)
  {
    PdoQuery.BareBound(x, Offset(e, 2), m0, k);
  }

  lemma {:induction false} SaveSearchBound(searches: seq<Value>, m: nat)
    requires SaveSearch(searches, m).0.Ok?
    ensures SaveSearch(searches, m).0.value.vals == PdoQuery.Bound("", SearchSaveVals(searches), m)
    decreases |searches|
  {
    if |searches| > 0 {
      var init, e := searches[..|searches| - 1], searches[|searches| - 1];
      var (r0, k) := SaveSearch(init, m);
      SaveSearchBound(init, m);
      SaveStepBound(SearchSaveVals(init), r0.value, e, m, k);
      assert SaveSearch(searches, m).0 == SaveEntry(e, r0.value, k);
    }
  }

  lemma ColumnBound(x: seq<Value>, q: SaveParts, e: Entry<Value>, m0: nat, k: nat)
    requires q.vals == PdoQuery.Bound("", x, m0) && k == m0 + |x|
    ensures SaveColumn(e, q, k).vals == PdoQuery.Bound("", x + [e.val, e.val], m0)
  {
    PdoQuery.BareBound(x, e.val, m0, k);
    PdoQuery.BareBound(x + [e.val], e.val, m0, k + 1);
    assert x + [e.val] + [e.val] == x + [e.val, e.val];
  }

  lemma {:induction false} SaveDataBound(data: Row, p: SaveParts, x: seq<Value>, m0: nat, m1: nat)
    requires p.vals == PdoQuery.Bound("", x, m0) && m1 == m0 + |x|
    ensures SaveData(data, p, m1).0.vals == PdoQuery.Bound("", x + DoubleVals(data), m0)
    decreases |data|
  {
    if |data| > 0 {
      var init, e := data[..|data| - 1], data[|data| - 1];
      var (q, k) := SaveData(init, p, m1);
      SaveDataBound(init, p, x, m0, m1);
      SaveDataStep(data, p, m1, q, k);
      var y := x + DoubleVals(init);
      assert |y| == |x| + 2 * |init|;
      ColumnBound(y, q, e, m0, k);
      DoubleValsSnoc(x, data);
    }
  }

  lemma DoubleValsSnoc(x: seq<Value>, data: Row)
    requires |data| > 0
    ensures x + DoubleVals(data[..|data| - 1]) + [data[|data| - 1].val, data[|data| - 1].val] == x + DoubleVals(data)
  {
    var a, b := DoubleVals(data[..|data| - 1]), [data[|data| - 1].val, data[|data| - 1].val];
    assert DoubleVals(data) == a + b;
    SeqAssoc(x, a, b);
  }

  /** An accepted save binds every value once, to consecutive markers from
      the counter: the search values first, then each column twice, once
      for its INSERT marker and once for its UPDATE marker. */
  lemma SaveShape(st: TableState, m0: nat, values: Row)
    requires SaveStatement(st, m0, values).0.Ok?
    ensures st.search.Some? && SaveSearch(st.search.value, m0).0.Ok?
    ensures var (sp, m1) := SaveSearch(st.search.value, m0);
      SaveStatement(st, m0, values).0.value.params == SaveData(values, sp.value, m1).0.vals
  {
  }

  lemma SaveValues(x: seq<Value>, values: Row, m0: nat, sp: SaveParts, m1: nat)
    requires sp.vals == PdoQuery.Bound("", x, m0) && m1 == m0 + |x|
    ensures SaveData(values, sp, m1).0.vals == PdoQuery.Bound("", x + DoubleVals(values), m0)
  {
    SaveDataBound(values, sp, x, m0, m1);
  }

  lemma SaveBindings(st: TableState, m0: nat, values: Row)
    requires SaveStatement(st, m0, values).0.Ok?
    ensures SaveStatement(st, m0, values).0.value.params ==
      PdoQuery.Bound("", SearchSaveVals(st.search.value) + DoubleVals(values), m0)
  {
    SaveShape(st, m0, values);
    var (sp, m1) := SaveSearch(st.search.value, m0);
    SaveSearchBound(st.search.value, m0);
    SaveValues(SearchSaveVals(st.search.value), values, m0, sp.value, m1);
  }

  /** remove: the JOIN and WHERE clauses of _prepareQuery and its values. */
  function RemoveStatement(st: TableState, m0: nat): (r: (Result<Statement>, nat))
    ensures r.1 >= m0
  {
    if st.search.None? then (Err(SearchNotCalled), m0)
    else
      var (q, m1) := TableQuery(st, m0);
      if q.Err? then (Err(q.error), m1)
      else (Ok(PdoQuery.Statement("DELETE FROM " + Escape(st.name) + " " + q.value.clauses.join + " " +
                                  q.value.clauses.where, q.value.values)), m1)
  }

  /** A remove statement binds exactly the search values, in order. */
  lemma RemoveBindings(st: TableState, m0: nat)
    requires RemoveStatement(st, m0).0.Ok?
    ensures RemoveStatement(st, m0).0.value.params ==
      PdoQuery.Bound("", SearchVals(Container.Base(st.search)) + SearchVals(st.having), m0)
  {
    TableQueryValues(st, m0);
  }

  // -------------------------------------------------------------- fetch

  /** The filter loop on one row: a filter rewrites its field when the
      field is set. */
  function ApplyFilters(row: Row, filters: seq<Entry<Container.Callback>>): Row
    decreases |filters|
  {
    if |filters| == 0 then row
    else
      var r := ApplyFilters(row, filters[..|filters| - 1]);
      var f := filters[|filters| - 1];
      if IsSet(r, f.key) then Set(r, f.key, f.val(Get(r, f.key))) else r
  }

  lemma LookupSnoc<V>(a: seq<Entry<V>>, e: Entry<V>, k: string)
    ensures Lookup(a + [e], k) == if Has(a, k) then Lookup(a, k) else if e.key == k then Some(e.val) else None
  {
    FindHas(a, k);
    var b := a + [e];
    var i := Find(a, k);
    FindBefore(a, k);
    assert forall j :: 0 <= j < |a| ==> b[j] == a[j];
    if i < |a| {
      FindMin(b, k, i);
    } else if e.key == k {
      FindMin(b, k, |a|);
    }
  }

  /** Filtering keeps every key where it was. */
  lemma {:induction false} ApplyFiltersKeys(row: Row, filters: seq<Entry<Container.Callback>>)
    ensures Keys(ApplyFilters(row, filters)) == Keys(row)
    decreases |filters|
  {
    if |filters| > 0 {
      var r := ApplyFilters(row, filters[..|filters| - 1]);
      ApplyFiltersKeys(row, filters[..|filters| - 1]);
      var f := filters[|filters| - 1];
      if IsSet(r, f.key) {
        KeysSet(r, f.key, f.val(Get(r, f.key)));
        FindHas(r, f.key);
      }
    }
  }

  /** With one filter per field, a filtered row holds the filter's result
      where the field was set and the row's own value everywhere else. */
  lemma {:induction false} ApplyFiltersReads(row: Row, filters: seq<Entry<Container.Callback>>, k: string)
    requires UniqueKeys(filters)
    ensures Get(ApplyFilters(row, filters), k) ==
      match Lookup(filters, k)
      case Some(cb) => if IsSet(row, k) then cb(Get(row, k)) else Get(row, k)
      case None => Get(row, k)
    decreases |filters|
  {
    if |filters| > 0 {
      var init, f := filters[..|filters| - 1], filters[|filters| - 1];
      assert filters == init + [f];
      ApplyFiltersReads(row, init, k);
      LookupSnoc(init, f, k);
      var r := ApplyFilters(row, init);
      if IsSet(r, f.key) {
        GetSet(r, f.key, f.val(Get(r, f.key)), k);
      }
      if f.key == k {
        assert !Has(init, k) by {
          forall j | 0 <= j < |init| ensures init[j].key != k {
            assert init[j] == filters[j];
          }
        }
        LookupSnoc(init, f, k);
        FindHas(init, k);
      }
    }
  }

  /** fetch: every row the cursor returns, filtered; a validator that
      rejects a row only unsets the loop's reference to it, so no row is
      ever dropped. */
  function FetchRows(filters: seq<Entry<Container.Callback>>, rows: seq<Row>): (r: seq<Row>)
    ensures |r| == |rows|
  {
    seq(|rows|, i requires 0 <= i < |rows| => ApplyFilters(rows[i], filters))
  }

  function FetchStatement(st: TableState, m0: nat, filters: seq<Entry<Container.Callback>>, rows: seq<Row>): (r: (Result<seq<Row>>, nat))
  {
    if st.search.None? then (Err(SearchNotCalled), m0)
    else
      var (q, m1) := TableQuery(st, m0);
      if q.Err? then (Err(q.error), m1) else (Ok(FetchRows(filters, rows)), m1)
  }

  /** Every validator whose field is set accepts the row. */
  predicate Passes(row: Row, validators: seq<Entry<Container.Callback>>) {
    forall i :: 0 <= i < |validators| && IsSet(row, validators[i].key) ==>
      Truthy(validators[i].val(Get(row, validators[i].key)))
  }

  /** fetchOne: the first fetched row, filtered a second time, or [] when
      there is none or a validator rejects it. */
  function FetchOneRow(filters: seq<Entry<Container.Callback>>, validators: seq<Entry<Container.Callback>>, rows: seq<Row>): (r: Row)
    ensures |rows| == 0 ==> r == []
    ensures |rows| > 0 ==> var row := ApplyFilters(ApplyFilters(rows[0], filters), filters);
      r == (if Passes(row, validators) then row else [])
  {
    var fetched := FetchRows(filters, rows);
    if |fetched| == 0 then []
    else
      var row := ApplyFilters(fetched[0], filters);
      if Passes(row, validators) then row else []
  }

  /** fetchOne applies each filter twice to the first row: a set field
      whose filtered value is still set comes back filtered twice. */
  lemma FetchOneFiltersTwice(filters: seq<Entry<Container.Callback>>, validators: seq<Entry<Container.Callback>>,
                             rows: seq<Row>, k: string, cb: Container.Callback)
    requires UniqueKeys(filters) && Lookup(filters, k) == Some(cb) && |rows| > 0
    requires IsSet(rows[0], k) && cb(Get(rows[0], k)) != Null
    requires Passes(ApplyFilters(ApplyFilters(rows[0], filters), filters), validators)
    ensures Get(FetchOneRow(filters, validators, rows), k) == cb(cb(Get(rows[0], k)))
  {
    ApplyFiltersReads(rows[0], filters, k);
    ApplyFiltersReads(ApplyFilters(rows[0], filters), filters, k);
  }

  /** fetchFirst: the value under key 0 of that row, or null for []. */
  function FirstValue(row: Row): (v: Value)
    ensures |row| == 0 ==> v == Null
    ensures |row| > 0 ==> v == Get(row, "0")
  {
    if |row| > 0 then Get(row, "0") else Null
  }

  // ------------------------------------------------- loop steps

  lemma InsertListsOf(values: Row, names: seq<string>, markers: seq<string>)
    requires |names| == |markers| == |values|
    requires forall j :: 0 <= j < |values| ==> names[j] == Escape(values[j].key) && markers[j] == ":" + values[j].key
    ensures names == InsertNames(values) && markers == InsertMarkers(values)
  {
  }

  lemma InsertStep(values: Row, j: nat, n0: seq<string>, n: seq<string>, k0: seq<string>, k: seq<string>)
    requires 0 < j <= |values| && n0 == InsertNames(values[..j - 1]) && k0 == InsertMarkers(values[..j - 1])
    requires n == n0 + [Escape(values[j - 1].key)] && k == k0 + [":" + values[j - 1].key]
    ensures n == InsertNames(values[..j]) && k == InsertMarkers(values[..j])
  {
    var d := values[..j];
    forall t | 0 <= t < j
      ensures n[t] == Escape(d[t].key) && k[t] == ":" + d[t].key
    {
      if t < j - 1 {
        assert values[..j - 1][t] == d[t];
      }
    }
    InsertListsOf(d, n, k);
  }

  lemma SaveSearchWhole(searches: seq<Value>, i: nat, m: nat)
    requires i == |searches|
    ensures SaveSearch(searches[..i], m) == SaveSearch(searches, m)
  {
    assert searches[..i] == searches;
  }

  lemma SaveSearchAt(searches: seq<Value>, j: nat, m: nat, p: SaveParts, k: nat, r: Result<SaveParts>)
    requires 0 < j <= |searches| && SaveSearch(searches[..j - 1], m).0 == Ok(p) && k == m + j - 1
    requires r == SaveEntry(searches[j - 1], p, k)
    ensures SaveSearch(searches[..j], m) == (r, if r.Ok? then k + 1 else k)
  {
    var d := searches[..j];
    assert d[..|d| - 1] == searches[..j - 1];
    assert d[|d| - 1] == searches[j - 1];
    assert SaveSearch(searches[..j - 1], m).1 == k;
  }

  lemma SaveDataSnoc(data: Row, j: nat, p: SaveParts, m: nat, q: SaveParts, k: nat, q2: SaveParts, k2: nat)
    requires 0 < j <= |data| && q == SaveData(data[..j - 1], p, m).0 && k == m + 2 * (j - 1)
    requires q2 == SaveColumn(data[j - 1], q, k) && k2 == k + 2
    ensures SaveData(data[..j], p, m).0 == q2 && k2 == m + 2 * j
  {
    var d := data[..j];
    assert d[..|d| - 1] == data[..j - 1];
    assert d[|d| - 1] == data[j - 1];
    SaveDataStep(d, p, m, q, k);
  }

  // ------------------------------------------------------- the container

  class Table {
    const base: Container.Container
    const namespace: string
    var marker: nat
    var joinRequest: seq<(Value, Value)>
    var groupRequest: seq<Value>
    var havingRequest: seq<Value>

    constructor (name: string, namespace: string)
      ensures fresh(base) && base.Valid() && base.name == name && this.namespace == namespace
      ensures base.searchRequest == Some([]) && base.selectRequest == [] && base.sortRequest == []
      ensures base.limitRequest == None && base.skipRequest == None && base.filters == [] && base.validators == []
      ensures marker == 0 && joinRequest == [] && groupRequest == [] && havingRequest == []
    {
      base := new Container.Container(name);
      this.namespace := namespace;
      marker := 0;
      joinRequest := [];
      groupRequest := [];
      havingRequest := [];
    }

    /** What _prepareQuery reads. */
    function State(): TableState
      reads this`joinRequest, this`groupRequest, this`havingRequest, base
    {
      TableState(base.name, namespace, base.searchRequest, base.selectRequest, base.sortRequest,
                 base.limitRequest, base.skipRequest, joinRequest, groupRequest, havingRequest)
    }

    /** _getMarker */
    method GetMarker() returns (m: string)
      modifies this`marker
      ensures marker == old(marker) + 1 && m == MarkerName(marker)
    {
      marker := marker + 1;
      m := MarkerName(marker);
    }

    /** The markers of an array value, one per element. */
    method BindElemsQuery(elems: seq<Value>, values: seq<Entry<Value>>) returns (markers: seq<string>, vs: seq<Entry<Value>>)
      modifies this`marker
      ensures vs == BindElems(elems, values, old(marker)).0 && marker == old(marker) + |elems|
      ensures markers == PdoQuery.Placeholders(old(marker), |elems|)
    {
      markers := [];
      vs := values;
      var i := 0;
      while i < |elems|
        invariant 0 <= i <= |elems|
        invariant vs == BindElems(elems[..i], values, old(marker)).0 && marker == old(marker) + i
        invariant markers == PdoQuery.Placeholders(old(marker), i)
      {
        ghost var vs0, ms0 := vs, markers;
        var m := GetMarker();
        markers := markers + [":" + m];
        vs := Set(vs, m, elems[i]);
        i := i + 1;
        PlaceholdersStep(old(marker), i, ms0, markers, marker);
        BindElemsSnoc(elems, i, values, old(marker), vs0, vs, marker);
      }
      assert elems[..i] == elems;
    }

    /** The placeholder part of one search entry. */
    method BindQuery(v: Value, values: seq<Entry<Value>>) returns (text: string, vs: seq<Entry<Value>>)
      modifies this`marker
      ensures (text, vs, marker) == BindValue(v, values, old(marker))
    {
      if v.List? {
        var markers;
        markers, vs := BindElemsQuery(v.elems, values);
        text := "(" + Values.Join(",", markers) + ")";
      } else {
        var m := GetMarker();
        text := ":" + m;
        vs := Set(values, m, v);
      }
    }

    /** One entry of _prepareSearch's loop. */
    method EntryQuery(e: Value, values: seq<Entry<Value>>) returns (r: Result<(string, seq<Entry<Value>>)>)
      modifies this`marker
      ensures (r, marker) == EntrySql(e, values, old(marker))
      decreases e
    {
      if e.ObjectId? {
        return Err(TypeError);
      }
      var op := OpToken(Offset(e, 1));
      if op.Err? {
        return Err(op.error);
      }
      var text, vs := BindQuery(Offset(e, 2), values);
      var f := Offset(e, 0);
      if f.Str? {
        r := Ok((Escape(f.s) + op.value + text, vs));
      } else if f.List? {
        var sub := SearchQuery(f.elems);
        r := Err(if sub.Err? then sub.error else TypeError);
      } else {
        r := Err(InvalidSearchParameter);
      }
    }

    /** _prepareSearch's loop: the AND-ed texts and the values. */
    method SearchQuery(searches: seq<Value>) returns (r: Result<(seq<string>, seq<Entry<Value>>)>)
      modifies this`marker
      ensures (r, marker) == SearchSql(searches, old(marker))
      decreases searches
    {
      var ands: seq<string> := [];
      var values: seq<Entry<Value>> := [];
      var i := 0;
      while i < |searches|
        invariant 0 <= i <= |searches|
        invariant (Ok((ands, values)), marker) == SearchSql(searches[..i], old(marker))
      {
        assert searches[..i + 1][..i] == searches[..i];
        assert searches[..i + 1][i] == searches[i];
        var e := EntryQuery(searches[i], values);
        if e.Err? {
          SearchSqlStops(searches, i + 1, old(marker));
          return Err(e.error);
        }
        ands := ands + [e.value.0];
        values := e.value.1;
        i := i + 1;
      }
      assert searches[..i] == searches;
      r := Ok((ands, values));
    }

    /** _prepareSearch */
    method PrepareSearchQuery(searches: seq<Value>) returns (r: Result<(string, seq<Entry<Value>>)>)
      modifies this`marker
      ensures (r, marker) == PrepareSearch(searches, old(marker))
    {
      var s := SearchQuery(searches);
      if s.Err? {
        return Err(s.error);
      }
      r := Ok(("(" + Values.Join(") AND (", s.value.0) + ")", s.value.1));
    }

    /** WHERE or HAVING, emitted only for a non-empty request. */
    method SearchClauseQuery(keyword: string, entries: seq<Value>) returns (r: Result<(string, seq<Entry<Value>>)>)
      modifies this`marker
      ensures (r, marker) == SearchClause(keyword, entries, old(marker))
    {
      if |entries| == 0 {
        return Ok(("", []));
      }
      var s := PrepareSearchQuery(entries);
      if s.Err? {
        return Err(s.error);
      }
      r := Ok((keyword + " (" + s.value.0 + ")", s.value.1));
    }

    /** The JOIN loop, growing the joined list. */
    method JoinQuery() returns (r: Result<string>)
      ensures r == JoinClause(namespace, base.name, joinRequest)
    {
      var js := joinRequest;
      if |js| == 0 {
        return Ok("");
      }
      var pieces: seq<string> := [];
      var joined := [base.name];
      var i := 0;
      while i < |js|
        invariant 0 <= i <= |js|
        invariant JoinFold(namespace, base.name, js[..i]) == Ok((pieces, joined))
      {
        var step := JoinStep(namespace, joined, js[i]);
        JoinFoldSnoc(namespace, base.name, js, i + 1, pieces, joined);
        if step.Err? {
          JoinFoldStops(namespace, base.name, js, i + 1);
          return Err(step.error);
        }
        pieces := pieces + [step.value.0];
        joined := joined + [step.value.1];
        i := i + 1;
      }
      assert js[..i] == js;
      r := Ok(Values.Join(" ", pieces));
    }

    /** _prepareQuery */
    method PrepareQuery() returns (r: Result<Request>)
      modifies this`marker
      ensures (r, marker) == TableQuery(State(), old(marker))
    {
      var items := MapEach(base.selectRequest, SelectItem);
      if items.Err? {
        return Err(items.error);
      }
      var select := "SELECT " + Values.Join(",", if |items.value| == 0 then ["*"] else items.value);
      var join := JoinQuery();
      if join.Err? {
        return Err(join.error);
      }
      r := PrepareTail(select, join.value);
    }

    /** _prepareQuery from the WHERE clause on. */
    method PrepareTail(select: string, join: string) returns (r: Result<Request>)
      modifies this`marker
      ensures (r, marker) == TableTail(State(), select, join, old(marker))
    {
      var from := FromClause(base.name);
      var where := SearchClauseQuery("WHERE", Container.Base(base.searchRequest));
      if where.Err? {
        return Err(where.error);
      }
      var orderby: string := "";
      if |base.sortRequest| > 0 {
        var orders := MapEach(base.sortRequest, OrderItem);
        if orders.Err? {
          return Err(orders.error);
        }
        orderby := "ORDER BY " + Values.Join(",", orders.value);
      }
      var limit := LimitClause(base.limitRequest, base.skipRequest);
      var groupby: string := "";
      if |groupRequest| > 0 {
        var groups := MapEach(groupRequest, EscapeValue);
        if groups.Err? {
          return Err(groups.error);
        }
        groupby := "GROUP BY " + Values.Join(",", groups.value);
      }
      var having := SearchClauseQuery("HAVING", havingRequest);
      if having.Err? {
        return Err(having.error);
      }
      var values := Merge([], where.value.1);
      values := Merge(values, having.value.1);
      r := Ok(Request(Clauses(select, from, join, where.value.0, limit, orderby, groupby, having.value.0), values));
    }

    /** _initCursor: the statement the cursor executes. */
    method InitCursor() returns (r: Result<Statement>)
      modifies this`marker
      ensures var (q, m) := TableQuery(State(), old(marker));
        marker == m && r == (if q.Err? then Err(q.error) else Ok(PdoQuery.Statement(CursorSql(q.value.clauses), q.value.values)))
    {
      var req := PrepareQuery();
      if req.Err? {
        return Err(req.error);
      }
      r := Ok(PdoQuery.Statement(CursorSql(req.value.clauses), req.value.values));
    }

    /** insert: no search is needed; each column's marker is its own key. */
    method Insert(values: Row) returns (stmt: Statement)
      ensures stmt == InsertStatement(base.name, values)
    {
      var names: seq<string> := [];
      var markers: seq<string> := [];
      var i := 0;
      while i < |values|
        invariant 0 <= i <= |values|
        invariant names == InsertNames(values[..i]) && markers == InsertMarkers(values[..i])
      {
        ghost var n0, k0 := names, markers;
        names := names + [Escape(values[i].key)];
        markers := markers + [":" + values[i].key];
        i := i + 1;
        InsertStep(values, i, n0, names, k0, markers);
      }
      assert values[..i] == values;
      stmt := PdoQuery.Statement("INSERT INTO " + Escape(base.name) + " (" + Values.Join(",", names) +
                                 ") VALUES (" + Values.Join(",", markers) + ")", values);
    }

    /** update's SET loop: each column takes the next marker. */
    method SetQuery(values: Row) returns (setValues: seq<Entry<Value>>, markers: seq<string>)
      modifies this`marker
      ensures (setValues, marker) == PdoQuery.SetBind(values, old(marker))
      ensures markers == PdoQuery.SetTexts(values, old(marker))
    {
      setValues, markers := [], [];
      var i := 0;
      while i < |values|
        invariant 0 <= i <= |values|
        invariant setValues == PdoQuery.SetBind(values[..i], old(marker)).0 && marker == old(marker) + i
        invariant markers == PdoQuery.SetTexts(values[..i], old(marker))
      {
        ghost var vs0, ms0 := setValues, markers;
        var m := GetMarker();
        setValues := Set(setValues, m, values[i].val);
        markers := markers + [PdoQuery.SetText(values[i], marker)];
        i := i + 1;
        PdoQuery.SetBindStep(values, i, old(marker), vs0, setValues, marker);
        PdoQuery.SetTextsStep(values, i, old(marker), ms0, markers, marker);
      }
      assert values[..i] == values;
    }

    /** update */
    method Update(values: Row) returns (r: Result<Statement>)
      modifies this`marker
      ensures (r, marker) == UpdateStatement(State(), old(marker), values)
    {
      if base.searchRequest.None? {
        return Err(SearchNotCalled);
      }
      var setValues, markers := SetQuery(values);
      var req := PrepareQuery();
      if req.Err? {
        return Err(req.error);
      }
      r := Ok(PdoQuery.Statement("UPDATE " + Escape(base.name) + " SET " + Values.Join(",", markers) + " " +
                                 req.value.clauses.join + " " + req.value.clauses.where, Merge(setValues, req.value.values)));
    }

    /** One search entry of save. */
    method SaveEntryQuery(e: Value, p: SaveParts) returns (r: Result<SaveParts>)
      modifies this`marker
      ensures r == SaveEntry(e, p, old(marker))
      ensures marker == if r.Ok? then old(marker) + 1 else old(marker)
    {
      if e.ObjectId? || Offset(e, 1).List? {
        return Err(TypeError);
      }
      if Lower(ToStr(Offset(e, 1))) != "is" {
        return Err(ForbiddenSaveOperator);
      }
      var name := EscapeValue(Offset(e, 0));
      if name.Err? {
        return Err(name.error);
      }
      var m := GetMarker();
      r := Ok(SaveParts(p.names + [name.value], p.markers + [":" + m], p.updates, Set(p.vals, m, Offset(e, 2))));
    }

    /** save's loop over the search entries. */
    method SaveSearchQuery(searches: seq<Value>) returns (r: Result<SaveParts>)
      modifies this`marker
      ensures (r, marker) == SaveSearch(searches, old(marker))
    {
      var p := SaveParts([], [], [], []);
      var i := 0;
      ghost var m0 := marker;
      assert searches[..0] == [];
      while i < |searches|
        invariant 0 <= i <= |searches|
        invariant SaveSearch(searches[..i], m0).0 == Ok(p) && marker == m0 + i
      {
        var q := SaveNext(searches, i, p, m0);
        if q.Err? {
          return q;
        }
        p := q.value;
        i := i + 1;
      }
      SaveSearchWhole(searches, i, m0);
      r := Ok(p);
    }

    /** One step of save's first loop, the counter having started at m0;
        a failing entry ends the whole loop. */
    method SaveNext(searches: seq<Value>, i: nat, p: SaveParts, ghost m0: nat) returns (q: Result<SaveParts>)
      requires i < |searches| && SaveSearch(searches[..i], m0).0 == Ok(p) && marker == m0 + i
      modifies this`marker
      ensures q.Ok? ==> SaveSearch(searches[..i + 1], m0).0 == q && marker == m0 + i + 1
      ensures q.Err? ==> (q, marker) == SaveSearch(searches, m0)
    {
      ghost var k0 := marker;
      q := SaveEntryQuery(searches[i], p);
      SaveSearchAt(searches, i + 1, m0, p, k0, q);
      if q.Err? {
        SaveSearchStops(searches, i + 1, m0);
      }
    }

    /** One column of save: two markers. */
    method SaveColumnQuery(e: Entry<Value>, p: SaveParts) returns (q: SaveParts)
      modifies this`marker
      ensures q == SaveColumn(e, p, old(marker)) && marker == old(marker) + 2
    {
      var first := GetMarker();
      var second := GetMarker();
      q := SaveParts(p.names + [Escape(e.key)], p.markers + [":" + first], p.updates + [e.key + "=:" + second],
                     Set(Set(p.vals, first, e.val), second, e.val));
    }

    /** save's loop over the columns. */
    method SaveDataQuery(values: Row, start: SaveParts) returns (p: SaveParts)
      modifies this`marker
      ensures (p, marker) == SaveData(values, start, old(marker))
    {
      p := start;
      var i := 0;
      while i < |values|
        invariant 0 <= i <= |values|
        invariant p == SaveData(values[..i], start, old(marker)).0 && marker == old(marker) + 2 * i
      {
        ghost var p0, k0 := p, marker;
        p := SaveColumnQuery(values[i], p);
        i := i + 1;
        SaveDataSnoc(values, i, start, old(marker), p0, k0, p, marker);
      }
      assert values[..i] == values;
    }

    /** save */
    method Save(values: Row) returns (r: Result<Statement>)
      modifies this`marker
      ensures (r, marker) == SaveStatement(State(), old(marker), values)
    {
      if base.searchRequest.None? {
        return Err(SearchNotCalled);
      }
      var sp := SaveSearchQuery(base.searchRequest.value);
      if sp.Err? {
        return Err(sp.error);
      }
      var p := SaveDataQuery(values, sp.value);
      var req := PrepareQuery();
      if req.Err? {
        return Err(req.error);
      }
      r := Ok(PdoQuery.Statement("INSERT INTO " + Escape(base.name) + " (" + Values.Join(",", p.names) + ") VALUES (" +
                                 Values.Join(",", p.markers) + ") ON DUPLICATE KEY UPDATE " + Values.Join(",", p.updates), p.vals));
    }

    /** remove */
    method Remove() returns (r: Result<Statement>)
      modifies this`marker
      ensures (r, marker) == RemoveStatement(State(), old(marker))
    {
      if base.searchRequest.None? {
        return Err(SearchNotCalled);
      }
      var req := PrepareQuery();
      if req.Err? {
        return Err(req.error);
      }
      r := Ok(PdoQuery.Statement("DELETE FROM " + Escape(base.name) + " " + req.value.clauses.join + " " +
                                 req.value.clauses.where, req.value.values));
    }

    /** The filter loop on one row. */
    method FilterRow(row: Row) returns (r: Row)
      ensures r == ApplyFilters(row, base.filters)
    {
      var filters := base.filters;
      r := row;
      var i := 0;
      while i < |filters|
        invariant 0 <= i <= |filters|
        invariant r == ApplyFilters(row, filters[..i])
      {
        assert filters[..i + 1][..i] == filters[..i];
        assert filters[..i + 1][i] == filters[i];
        var f := filters[i];
        if IsSet(r, f.key) {
          r := Set(r, f.key, f.val(Get(r, f.key)));
        }
        i := i + 1;
      }
      assert filters[..i] == filters;
    }

    /** fetch's loop over the rows the cursor returns. A validator that
        rejects a row unsets the loop's reference to it: the later
        validators then see nothing set, and the row stays in the result. */
    method FilterAll(rows: seq<Row>) returns (results: seq<Row>)
      ensures results == FetchRows(base.filters, rows)
    {
      results := rows;
      var i := 0;
      while i < |results|
        invariant 0 <= i <= |results| == |rows|
        invariant forall j :: 0 <= j < i ==> results[j] == ApplyFilters(rows[j], base.filters)
        invariant forall j :: i <= j < |rows| ==> results[j] == rows[j]
      {
        var row := FilterRow(results[i]);
        results := results[i := row];
        // The source's validator loop. `bound` stands for whether the loop's
        // reference to the row is still set; it never reaches the results,
        // and the validators are pure here, so the loop changes nothing that
        // the contract speaks of: it is kept to mirror the checks made.
        var bound := true;
        var k := 0;
        while k < |base.validators|
          invariant 0 <= k <= |base.validators|
        {
          var v := base.validators[k];
          if bound && IsSet(row, v.key) && !Truthy(v.val(Get(row, v.key))) {
            bound := false;
          }
          k := k + 1;
        }
        i := i + 1;
      }
    }

    /** fetch */
    method Fetch(rows: seq<Row>) returns (r: Result<seq<Row>>)
      modifies this`marker
      ensures (r, marker) == FetchStatement(State(), old(marker), base.filters, rows)
    {
      if base.searchRequest.None? {
        return Err(SearchNotCalled);
      }
      var cursor := InitCursor();
      if cursor.Err? {
        return Err(cursor.error);
      }
      var results := FilterAll(rows);
      r := Ok(results);
    }

    /** fetchOne's validator loop over the first row. */
    method Validates(row: Row) returns (ok: bool)
      ensures ok == Passes(row, base.validators)
    {
      var validators := base.validators;
      var i := 0;
      while i < |validators|
        invariant 0 <= i <= |validators|
        invariant forall j :: 0 <= j < i && IsSet(row, validators[j].key) ==> Truthy(validators[j].val(Get(row, validators[j].key)))
      {
        var v := validators[i];
        if IsSet(row, v.key) && !Truthy(v.val(Get(row, v.key))) {
          return false;
        }
        i := i + 1;
      }
      ok := true;
    }

    /** fetchOne: the first fetched row goes through the filters again and
        then through the validators, any of which can reject it. */
    method FetchOne(rows: seq<Row>) returns (r: Result<Row>)
      modifies this`marker
      ensures var (f, m) := FetchStatement(State(), old(marker), base.filters, rows);
        marker == m && r == (if f.Err? then Err(f.error) else Ok(FetchOneRow(base.filters, base.validators, rows)))
    {
      var results := Fetch(rows);
      if results.Err? {
        return Err(results.error);
      }
      if |results.value| == 0 {
        return Ok([]);
      }
      var row := FilterRow(results.value[0]);
      var ok := Validates(row);
      r := Ok(if ok then row else []);
    }

    /** fetchFirst */
    method FetchFirst(rows: seq<Row>) returns (r: Result<Value>)
      modifies this`marker
      ensures var (f, m) := FetchStatement(State(), old(marker), base.filters, rows);
        marker == m && r == (if f.Err? then Err(f.error) else Ok(FirstValue(FetchOneRow(base.filters, base.validators, rows))))
    {
      var row := FetchOne(rows);
      if row.Err? {
        return Err(row.error);
      }
      r := Ok(if |row.value| > 0 then Get(row.value, "0") else Null);
    }

    /** count: the select request is replaced before the search request is
        checked, so it is replaced even when the call then fails. */
    method Count(rows: seq<Row>) returns (r: Result<Value>)
      modifies this`marker, base`selectRequest
      ensures base.selectRequest == [Entry("0", Str("COUNT(*)"))]
      ensures var (f, m) := FetchStatement(State(), old(marker), base.filters, rows);
        marker == m && r == (if f.Err? then Err(f.error) else Ok(FirstValue(FetchOneRow(base.filters, base.validators, rows))))
    {
      base.selectRequest := [Entry("0", Str("COUNT(*)"))];
      r := FetchFirst(rows);
    }

    /** join */
    method Join(field1: Value, field2: Value) returns (o: Outcome)
      modifies this`joinRequest
      ensures o == Container.VerifySearchRequest(base.searchRequest)
      ensures joinRequest == if o.Fail? then old(joinRequest) else old(joinRequest) + [(field1, field2)]
    {
      o := Container.VerifySearchRequest(base.searchRequest);
      if o == Pass {
        joinRequest := joinRequest + [(field1, field2)];
      }
    }

    /** group */
    method Group(field: Value) returns (o: Outcome)
      modifies this`groupRequest
      ensures o == Container.VerifySearchRequest(base.searchRequest)
      ensures groupRequest == if o.Fail? then old(groupRequest) else old(groupRequest) + [field]
    {
      o := Container.VerifySearchRequest(base.searchRequest);
      if o == Pass {
        groupRequest := groupRequest + [field];
      }
    }

    /** having: not guarded by the search request; the field and the
        operator must be strings. */
    method Having(field: Value, operator: Value, value: Value) returns (o: Outcome)
      modifies this`havingRequest
      ensures o.Fail? <==> !field.Str? || !operator.Str?
      ensures o.Fail? ==> o.error == (if !field.Str? then FieldNotString else OperatorNotString)
      ensures havingRequest == if o.Fail? then old(havingRequest) else old(havingRequest) + [List([field, operator, value])]
    {
      if !field.Str? {
        return Fail(FieldNotString);
      }
      if !operator.Str? {
        return Fail(OperatorNotString);
      }
      havingRequest := havingRequest + [List([field, operator, value])];
      o := Pass;
    }
  }
}
