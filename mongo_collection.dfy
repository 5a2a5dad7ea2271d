/** The older document-store container: a collection whose search, select,
    sort, limit and skip requests come from the shared request builder.
    _prepareQuery turns the search request into a filter document, turning
    identifier values into identifier objects through a cache; the cursor
    request adds the sort document, the limit and the skip; fetched
    documents have their identifier and aliases shaped and their filters
    applied. The database-level defaults of the two settings and the
    documents the driver returns are parameters. */
module MongoCollection {
  import opened Values
  import opened Assoc
  import opened Documents
  import AbstractQuery
  import Container
  import PdoTable
  import MongodbQuery

  // ------------------------------------------------------------ settings

  /** writeConcern() and autoFormatIds() called without a flag: the
      collection's own setting once one is made, the database's until then. */
  function Effective(own: Option<bool>, db: bool): bool {
    if own.Some? then own.value else db
  }

  // ------------------------------------------------------ _formatMongoId

  /** The identifier objects made so far, under the array key of the value
      each was made from. */
  type IdCache = seq<Entry<Value>>

  /** Every cached object was made from a value whose key it sits under. */
  predicate CacheValid(ids: IdCache) {
    UniqueKeys(ids) &&
    forall i :: 0 <= i < |ids| ==> ids[i].val.ObjectId? && MongodbQuery.KeyOf(ids[i].val.of) == Ok(ids[i].key)
  }

  /** _formatMongoId: with formatting off, the id as it is; otherwise the
      object cached under the id's array key, made and cached when the key
      holds nothing. An array or an object is an illegal array key. */
  function FormatMongoId(auto: bool, ids: IdCache, id: Value): (r: (Result<Value>, IdCache))
    ensures !auto ==> r == (Ok(id), ids)
    ensures auto && (id.List? || id.ObjectId?) ==> r == (Err(IllegalOffset), ids)
  {
    if !auto then (Ok(id), ids)
    else match MongodbQuery.KeyOf(id)
      case Err(e) => (Err(e), ids)
      case Ok(k) =>
        var cached := Get(ids, k);
        if Truthy(cached) then (Ok(cached), ids)
        else (Ok(ObjectId(id)), Set(ids, k, ObjectId(id)))
  }

  /** A key met for the first time gets an object made from the id, which
      is cached; a cached key gives back its object and leaves the cache as
      it is. Either way the answer is what the cache now holds under the
      key, the cache stays valid and no other key changes. */
  lemma FormatMongoIdCache(ids: IdCache, id: Value, k: string, j: string)
    requires CacheValid(ids) && MongodbQuery.KeyOf(id) == Ok(k)
    ensures var (r, c) := FormatMongoId(true, ids, id);
      && r.Ok? && CacheValid(c) && Lookup(c, k) == Some(r.value)
      && (Has(ids, k) ==> r.value == Get(ids, k) && c == ids)
      && (!Has(ids, k) ==> r.value == ObjectId(id))
      && (j != k ==> Lookup(c, j) == Lookup(ids, j))
  {
    FindHas(ids, k);
    var i := Find(ids, k);
    if i < |ids| {
      assert Get(ids, k) == ids[i].val;
    } else {
      var c := Set(ids, k, ObjectId(id));
      assert c == ids + [Entry(k, ObjectId(id))];
      UniqueSet(ids, k, ObjectId(id));
      LookupSet(ids, k, ObjectId(id), k);
      LookupSet(ids, k, ObjectId(id), j);
    }
  }

  /** Repeated ids come back as the object made the first time: a second
      id with the same array key (5 and "5", say) gets that very object,
      and the cache does not change again. */
  lemma FormatMongoIdRepeats(ids: IdCache, id: Value, again: Value)
    requires MongodbQuery.KeyOf(id).Ok? && MongodbQuery.KeyOf(again) == MongodbQuery.KeyOf(id)
    ensures var (r, c) := FormatMongoId(true, ids, id);
      FormatMongoId(true, c, again) == (r, c)
  {
    var k := MongodbQuery.KeyOf(id).value;
    GetSet(ids, k, ObjectId(id), k);
  }

  /** The in-place loop over an 'in' value's elements: each is formatted
      in turn with the cache carried along; the first failure ends it, and
      the cache keeps what it gained before. */
  function FormatEach(auto: bool, ids: IdCache, elems: seq<Value>): (r: (Result<seq<Value>>, IdCache))
    ensures !auto ==> r == (Ok(elems), ids)
    ensures r.0.Ok? ==> |r.0.value| == |elems|
    decreases |elems|
  {
    if |elems| == 0 then (Ok([]), ids)
    else
      var (p, c) := FormatEach(auto, ids, elems[..|elems| - 1]);
      if p.Err? then (p, c)
      else
        var (x, c2) := FormatMongoId(auto, c, elems[|elems| - 1]);
        if x.Err? then (Err(x.error), c2)
        else
          assert !auto ==> p.value + [x.value] == elems;
          (Ok(p.value + [x.value]), c2)
  }

  /** With formatting on, one id becomes an identifier object for its own
      array key, and the cache stays valid. */
  lemma FormatOneObject(ids: IdCache, id: Value)
    requires CacheValid(ids)
    ensures var (x, c) := FormatMongoId(true, ids, id);
      CacheValid(c) && (x.Ok? ==> x.value.ObjectId? && MongodbQuery.KeyOf(x.value.of) == MongodbQuery.KeyOf(id))
  {
    if MongodbQuery.KeyOf(id).Ok? {
      var k := MongodbQuery.KeyOf(id).value;
      FormatMongoIdCache(ids, id, k, k);
      var (x, c) := FormatMongoId(true, ids, id);
      FindHas(c, k);
      assert c[Find(c, k)].val == x.value;
    }
  }

  /** With formatting on, every element becomes an identifier object for
      the element's own array key, and the cache stays valid. */
  lemma {:induction false} FormatEachObjects(ids: IdCache, elems: seq<Value>)
    requires CacheValid(ids)
    ensures CacheValid(FormatEach(true, ids, elems).1)
    ensures var (r, _) := FormatEach(true, ids, elems);
      r.Ok? ==> forall i :: 0 <= i < |elems| ==>
        r.value[i].ObjectId? && MongodbQuery.KeyOf(r.value[i].of) == MongodbQuery.KeyOf(elems[i])
    decreases |elems|
  {
    if |elems| > 0 {
      var init, last := elems[..|elems| - 1], elems[|elems| - 1];
      FormatEachObjects(ids, init);
      var (p, c) := FormatEach(true, ids, init);
      FormatOneObject(c, last);
      if p.Ok? {
        var (x, c2) := FormatMongoId(true, c, last);
        assert FormatEach(true, ids, elems) == if x.Err? then (Err(x.error), c2) else (Ok(p.value + [x.value]), c2);
        if x.Ok? {
          forall i | 0 <= i < |elems|
            ensures (p.value + [x.value])[i].ObjectId? && MongodbQuery.KeyOf((p.value + [x.value])[i].of) == MongodbQuery.KeyOf(elems[i])
          {
            if i < |init| {
              assert elems[i] == init[i];
            }
          }
        }
      }
    }
  }

  lemma FormatEachStep(auto: bool, ids: IdCache, elems: seq<Value>, j: nat, vs: seq<Value>, c: IdCache,
                       x: Result<Value>, c2: IdCache)
    requires 0 < j <= |elems| && FormatEach(auto, ids, elems[..j - 1]) == (Ok(vs), c)
    requires FormatMongoId(auto, c, elems[j - 1]) == (x, c2)
    ensures FormatEach(auto, ids, elems[..j]) == if x.Err? then (Err(x.error), c2) else (Ok(vs + [x.value]), c2)
  {
    var d := elems[..j];
    assert d[..|d| - 1] == elems[..j - 1];
    assert d[|d| - 1] == elems[j - 1];
  }

  lemma {:induction false} FormatEachStops(auto: bool, ids: IdCache, elems: seq<Value>, i: nat)
    requires i <= |elems| && FormatEach(auto, ids, elems[..i]).0.Err?
    ensures FormatEach(auto, ids, elems) == FormatEach(auto, ids, elems[..i])
    decreases |elems| - i
  {
    if i < |elems| {
      assert elems[..i + 1][..i] == elems[..i];
      FormatEachStops(auto, ids, elems, i + 1);
    } else {
      assert elems[..i] == elems;
    }
  }

  // ---------------------------------------------------- composeCondition

  /** strtolower and the switch of composeCondition: the six operators that
      need no pattern rewriting, every other name refused; an array cannot
      be lower-cased. */
  function OldOp(op: Value): Result<AbstractQuery.Op> {
    if op.List? then Err(TypeError)
    else
      var o := Lower(ToStr(op));
      if o == "is" then Ok(AbstractQuery.Is)
      else if o == "is not" then Ok(AbstractQuery.IsNot)
      else if o == "greater" then Ok(AbstractQuery.Greater)
      else if o == "less" then Ok(AbstractQuery.Less)
      else if o == "in" then Ok(AbstractQuery.In)
      else if o == "not in" then Ok(AbstractQuery.NotIn)
      else Err(InvalidOperator)
  }

  /** The switch accepts exactly the operator names the SQL container
      accepts, each read as the operator of that name; like, not like, match
      and not match are refused. */
  lemma OldOpTable(op: Value)
    ensures OldOp(op).Ok? <==> !op.List? && Lower(ToStr(op)) in PdoTable.Operators
    ensures OldOp(op).Ok? ==> AbstractQuery.OpName(OldOp(op).value) == Lower(ToStr(op))
    ensures !op.List? && Lower(ToStr(op)) !in PdoTable.Operators ==> OldOp(op) == Err(InvalidOperator)
  {
  }

  /** The pattern operators of the newer translator are refused by name. */
  lemma OldOpRefusesPatterns(o: AbstractQuery.Op)
    requires o.Like? || o.NotLike? || o.Match? || o.NotMatch?
    ensures OldOp(Str(AbstractQuery.OpName(o))) == Err(InvalidOperator)
  {
    var n := AbstractQuery.OpName(o);
    assert Lower(n) == n;
  }

  /** composeCondition(field, operator, value): the operator is read first,
      then the field becomes the condition document's key. */
  function Compose(field: Value, op: Value, value: Value): Result<Bson> {
    match OldOp(op)
    case Err(e) => Err(e)
    case Ok(o) =>
      match MongodbQuery.KeyOf(field)
      case Err(e) => Err(e)
      case Ok(f) => Ok(MongodbQuery.Condition(f, o, value))
  }

  /** A composed condition is the newer translator's condition for the same
      operator: it reads back as the field's key, the operator and the value,
      and it is a leaf of the filter, never {} nor a combinator. */
  lemma ComposeRoundTrip(field: Value, op: Value, value: Value, leaf: Bson -> bool)
    requires Compose(field, op, value).Ok?
    ensures MongodbQuery.ReadCondition(Compose(field, op, value).value) ==
      Some(AbstractQuery.Predicate(MongodbQuery.KeyOf(field).value, OldOp(op).value, value))
    ensures Eval(Compose(field, op, value).value, leaf) == leaf(Compose(field, op, value).value)
  {
    var f, o := MongodbQuery.KeyOf(field).value, OldOp(op).value;
    MongodbQuery.ConditionRoundTrip(f, o, value);
    var c := MongodbQuery.Condition(f, o, value);
    assert c.fields[0].key == f && !c.fields[0].val.Arr?;
  }

  // -------------------------------------------------------- _prepareQuery

  /** One triple of an OR entry; an object cannot be indexed. */
  function SubCondition(sub: Value): Result<Bson> {
    if sub.ObjectId? then Err(TypeError)
    else Compose(PdoTable.Offset(sub, 0), PdoTable.Offset(sub, 1), PdoTable.Offset(sub, 2))
  }

  /** The inner loop of an OR entry: one condition per element, the first
      failure ending it. */
  function SubConditions(subs: seq<Value>): Result<seq<Bson>> {
    MapAll(subs, SubCondition)
  }

  /** The list succeeds exactly when every triple does, and then holds
      each triple's condition in order. */
  lemma SubConditionsSpec(subs: seq<Value>)
    ensures var r := SubConditions(subs);
      && (r.Ok? <==> forall j :: 0 <= j < |subs| ==> SubCondition(subs[j]).Ok?)
      && (r.Ok? ==> |r.value| == |subs| && forall j :: 0 <= j < |subs| ==> Ok(r.value[j]) == SubCondition(subs[j]))
  {
    MapAllSpec(subs, SubCondition);
  }

  /** An OR entry matches a document when one of its triples' conditions
      does: collapsing a one-triple entry to its condition changes nothing. */
  lemma OrEntryMeaning(subs: seq<Value>, leaf: Bson -> bool)
    requires SubConditions(subs).Ok?
    ensures var cs := SubConditions(subs).value;
      Eval(OrOf(cs), leaf) <==> exists j :: 0 <= j < |cs| && leaf(cs[j])
  {
    var cs := SubConditions(subs).value;
    SubConditionsSpec(subs);
    EvalOrOf(cs, leaf);
    forall j | 0 <= j < |subs| ensures Eval(cs[j], leaf) == leaf(cs[j]) {
      var s := subs[j];
      ComposeRoundTrip(PdoTable.Offset(s, 0), PdoTable.Offset(s, 1), PdoTable.Offset(s, 2), leaf);
    }
  }

  /** The identifier step of the loop on an entry's field, operator and
      value: when the field is loosely '_id' the value is formatted, element
      by element when the operator is exactly 'in' and the value an array
      (a non-array 'in' value is left as it is). */
  function IdValue(auto: bool, ids: IdCache, f: Value, op: Value, v: Value): (Result<Value>, IdCache) {
    if !LooseEqualsWord(f, "_id") then (Ok(v), ids)
    else if LooseEqualsWord(op, "in") then
      if v.List? then
        var (es, c) := FormatEach(auto, ids, v.elems);
        (if es.Err? then Err(es.error) else Ok(List(es.value)), c)
      else (Ok(v), ids)
    else FormatMongoId(auto, ids, v)
  }

  /** One entry of the loop: a string field gives its condition; an array
      field makes the entry an OR list of triples, collapsed when it holds
      one; any other field is refused. The identifier step comes first, so
      the cache keeps what it gained when the entry then fails. */
  function PrepareEntry(auto: bool, ids: IdCache, e: Value): (Result<Bson>, IdCache) {
    if e.ObjectId? then (Err(TypeError), ids)
    else
      var f, op := PdoTable.Offset(e, 0), PdoTable.Offset(e, 1);
      var (v, c) := IdValue(auto, ids, f, op, PdoTable.Offset(e, 2));
      if v.Err? then (Err(v.error), c)
      else if f.Str? then (Compose(f, op, v.value), c)
      else if f.List? then
        match SubConditions(e.elems)
        case Err(err) => (Err(err), c)
        case Ok(subs) => (Ok(OrOf(subs)), c)
      else (Err(InvalidSearchParameter), c)
  }

  /** The conditions of the entries in order, the cache carried from one
      entry to the next; the first failure ends the loop. */
  function EntryConditions(auto: bool, ids: IdCache, searches: seq<Value>): (r: (Result<seq<Bson>>, IdCache))
    ensures r.0.Ok? ==> |r.0.value| == |searches|
    decreases |searches|
  {
    if |searches| == 0 then (Ok([]), ids)
    else
      var (p, c) := EntryConditions(auto, ids, searches[..|searches| - 1]);
      if p.Err? then (p, c)
      else
        var (x, c2) := PrepareEntry(auto, c, searches[|searches| - 1]);
        if x.Err? then (Err(x.error), c2) else (Ok(p.value + [x.value]), c2)
  }

  /** _prepareQuery: {} without entries, the condition of a single entry,
      and $and of the entries' conditions otherwise. */
  function PrepareQuery(auto: bool, ids: IdCache, searches: seq<Value>): (Result<Bson>, IdCache) {
    var (cs, c) := EntryConditions(auto, ids, searches);
    (if cs.Err? then Err(cs.error) else Ok(AndOf(cs.value)), c)
  }

  lemma EntryConditionsStep(auto: bool, ids: IdCache, searches: seq<Value>, j: nat, cs: seq<Bson>, c: IdCache)
    requires 0 < j <= |searches| && EntryConditions(auto, ids, searches[..j - 1]) == (Ok(cs), c)
    ensures EntryConditions(auto, ids, searches[..j]) ==
      var (x, c2) := PrepareEntry(auto, c, searches[j - 1]);
      if x.Err? then (Err(x.error), c2) else (Ok(cs + [x.value]), c2)
  {
    var d := searches[..j];
    assert d[..|d| - 1] == searches[..j - 1];
    assert d[|d| - 1] == searches[j - 1];
  }

  lemma {:induction false} EntryConditionsStops(auto: bool, ids: IdCache, searches: seq<Value>, i: nat)
    requires i <= |searches| && EntryConditions(auto, ids, searches[..i]).0.Err?
    ensures EntryConditions(auto, ids, searches) == EntryConditions(auto, ids, searches[..i])
    decreases |searches| - i
  {
    if i < |searches| {
      assert searches[..i + 1][..i] == searches[..i];
      EntryConditionsStops(auto, ids, searches, i + 1);
    } else {
      assert searches[..i] == searches;
    }
  }

  /** A query that compiles: its entries but the last compile, and the last
      entry's condition follows theirs. */
  lemma EntryConditionsLast(auto: bool, ids: IdCache, searches: seq<Value>)
    requires EntryConditions(auto, ids, searches).0.Ok? && |searches| > 0
    ensures var (p, c) := EntryConditions(auto, ids, searches[..|searches| - 1]);
            var x := PrepareEntry(auto, c, searches[|searches| - 1]).0;
            p.Ok? && x.Ok? && EntryConditions(auto, ids, searches).0.value == p.value + [x.value]
  {
  }

  /** The i-th condition of the query is the i-th entry's own, compiled
      with the cache as the entries before it left it. */
  lemma {:induction false} EntryConditionsAt(auto: bool, ids: IdCache, searches: seq<Value>, i: nat)
    requires EntryConditions(auto, ids, searches).0.Ok? && i < |searches|
    ensures PrepareEntry(auto, EntryConditions(auto, ids, searches[..i]).1, searches[i]).0 ==
      Ok(EntryConditions(auto, ids, searches).0.value[i])
    decreases |searches|
  {
    var n := |searches|;
    var init := searches[..n - 1];
    EntryConditionsLast(auto, ids, searches);
    if i == n - 1 {
      assert init == searches[..i];
    } else {
      assert init[..i] == searches[..i] && init[i] == searches[i];
      EntryConditionsAt(auto, ids, init, i);
    }
  }

  /** The filter matches a document when every entry's condition does, so
      no entry at all matches every document. */
  lemma QueryMeaning(auto: bool, ids: IdCache, searches: seq<Value>, cs: seq<Bson>, leaf: Bson -> bool)
    requires EntryConditions(auto, ids, searches).0 == Ok(cs)
    ensures PrepareQuery(auto, ids, searches).0 == Ok(AndOf(cs))
    ensures Eval(AndOf(cs), leaf) <==> forall i :: 0 <= i < |searches| ==> Eval(cs[i], leaf)
    ensures |searches| == 0 ==> AndOf(cs) == Doc([])
  {
    EvalAndOf(cs, leaf);
  }

  /** The identifier step, run on valid caches, keeps them valid. */
  lemma IdValueKeepsCache(auto: bool, ids: IdCache, f: Value, op: Value, v: Value)
    requires CacheValid(ids)
    ensures CacheValid(IdValue(auto, ids, f, op, v).1)
  {
    if LooseEqualsWord(f, "_id") && auto {
      if LooseEqualsWord(op, "in") {
        if v.List? {
          FormatEachObjects(ids, v.elems);
        }
      } else if MongodbQuery.KeyOf(v).Ok? {
        FormatMongoIdCache(ids, v, MongodbQuery.KeyOf(v).value, "");
      }
    }
  }

  /** _prepareQuery keeps the cache valid, whether it succeeds or fails. */
  lemma {:induction false} EntryConditionsKeepCache(auto: bool, ids: IdCache, searches: seq<Value>)
    requires CacheValid(ids)
    ensures CacheValid(EntryConditions(auto, ids, searches).1)
    ensures CacheValid(PrepareQuery(auto, ids, searches).1)
    decreases |searches|
  {
    if |searches| > 0 {
      var init := searches[..|searches| - 1];
      EntryConditionsKeepCache(auto, ids, init);
      var (p, c) := EntryConditions(auto, ids, init);
      var e := searches[|searches| - 1];
      if p.Ok? && !e.ObjectId? {
        IdValueKeepsCache(auto, c, PdoTable.Offset(e, 0), PdoTable.Offset(e, 1), PdoTable.Offset(e, 2));
      }
    }
  }

  /** Identifiers are formatted only in a single triple: the field of an
      OR entry is an array, which is never '_id', so its identifier values
      stay as they are even with formatting on. */
  lemma OrIdsNotFormatted(x: Value)
    requires MongodbQuery.KeyOf(x).Ok?
    ensures PrepareEntry(true, [], List([Str("_id"), Str("is"), x])) ==
      (Ok(Pair("_id", Val(ObjectId(x)))), [Entry(MongodbQuery.KeyOf(x).value, ObjectId(x))])
    ensures PrepareEntry(true, [], List([List([Str("_id"), Str("is"), x])])) == (Ok(Pair("_id", Val(x))), [])
  {
    assert Lower("is") == "is";
    var k := MongodbQuery.KeyOf(x).value;
    assert Get([], k) == Null;
    assert Set([], k, ObjectId(x)) == [Entry(k, ObjectId(x))];
    assert FormatMongoId(true, [], x) == (Ok(ObjectId(x)), [Entry(k, ObjectId(x))]);
    var sub := List([Str("_id"), Str("is"), x]);
    assert SubConditions([sub]) == Ok([Pair("_id", Val(x))]) by {
      assert [sub][..0] == [] && [sub][..1] == [sub];
      MapAllStep([sub], SubCondition, 1, []);
      assert SubCondition(sub) == Ok(Pair("_id", Val(x)));
      assert [] + [Pair("_id", Val(x))] == [Pair("_id", Val(x))];
    }
  }

  /** The identifier step compares the operator with 'in' as it is written,
      while the switch lower-cases it: with 'IN' an array of ids is formatted
      as one id, which is an illegal array key. */
  lemma InIsCaseSensitive(xs: seq<Value>)
    ensures PrepareEntry(true, [], List([Str("_id"), Str("IN"), List(xs)])) == (Err(IllegalOffset), [])
    ensures PrepareEntry(false, [], List([Str("_id"), Str("IN"), List(xs)])) == (Ok(Pair("_id", Pair("$in", Val(List(xs))))), [])
  {
    assert Lower("IN") == "in";
  }

  // ------------------------------------------------------------- sorting

  /** strtolower and the switch of the sort loop. */
  function SortOrder(order: Value): Result<int> {
    if order.List? then Err(TypeError)
    else
      var o := Lower(ToStr(order));
      if o == "asc" then Ok(1) else if o == "desc" then Ok(-1) else Err(InvalidSortOrder)
  }

  /** The sort loop: each order rewritten in place as 1 or -1, the first
      order that is neither asc nor desc refused. */
  function SortDoc(sort: seq<Entry<Value>>): Result<seq<Entry<Value>>>
    decreases |sort|
  {
    if |sort| == 0 then Ok([])
    else
      match SortDoc(sort[..|sort| - 1])
      case Err(e) => Err(e)
      case Ok(p) =>
        match SortOrder(sort[|sort| - 1].val)
        case Err(e) => Err(e)
        case Ok(d) => Ok(p + [Entry(sort[|sort| - 1].key, Int(d))])
  }

  /** Order i is invalid and none before it is. */
  predicate FirstBadOrder(sort: seq<Entry<Value>>, i: int) {
    0 <= i < |sort| && SortOrder(sort[i].val).Err? && forall j :: 0 <= j < i ==> SortOrder(sort[j].val).Ok?
  }

  /** The sort document keeps every field in its place with its order as 1
      or -1; it is refused exactly when some order is invalid, with the
      error of the first such order. */
  lemma {:induction false} SortDocSpec(sort: seq<Entry<Value>>)
    ensures SortDoc(sort).Ok? <==> forall i :: 0 <= i < |sort| ==> SortOrder(sort[i].val).Ok?
    ensures SortDoc(sort).Ok? ==> |SortDoc(sort).value| == |sort|
    ensures SortDoc(sort).Ok? ==> forall i :: 0 <= i < |sort| ==>
      SortDoc(sort).value[i] == Entry(sort[i].key, Int(SortOrder(sort[i].val).value))
    ensures SortDoc(sort).Err? ==> exists i :: FirstBadOrder(sort, i) && SortOrder(sort[i].val) == Err(SortDoc(sort).error)
    decreases |sort|
  {
    if |sort| > 0 {
      var init := sort[..|sort| - 1];
      SortDocSpec(init);
      assert forall i :: 0 <= i < |init| ==> init[i] == sort[i];
      if SortDoc(init).Err? {
        var i :| FirstBadOrder(init, i) && SortOrder(init[i].val) == Err(SortDoc(init).error);
        assert FirstBadOrder(sort, i);
      } else if SortOrder(sort[|sort| - 1].val).Err? {
        assert FirstBadOrder(sort, |sort| - 1);
      }
    }
  }

  lemma SortDocStep(sort: seq<Entry<Value>>, j: nat, p: seq<Entry<Value>>)
    requires 0 < j <= |sort| && SortDoc(sort[..j - 1]) == Ok(p)
    ensures SortDoc(sort[..j]) ==
      match SortOrder(sort[j - 1].val)
      case Err(e) => Err(e)
      case Ok(d) => Ok(p + [Entry(sort[j - 1].key, Int(d))])
  {
    var d := sort[..j];
    assert d[..|d| - 1] == sort[..j - 1];
    assert d[|d| - 1] == sort[j - 1];
  }

  lemma {:induction false} SortDocStops(sort: seq<Entry<Value>>, i: nat)
    requires i <= |sort| && SortDoc(sort[..i]).Err?
    ensures SortDoc(sort) == SortDoc(sort[..i])
    decreases |sort| - i
  {
    if i < |sort| {
      assert sort[..i + 1][..i] == sort[..i];
      SortDocStops(sort, i + 1);
    } else {
      assert sort[..i] == sort;
    }
  }

  /** index(field, sort): 1 for an order loosely equal to 'asc', -1 for any
      other. */
  function IndexDirection(sort: Value): int {
    if LooseEqualsWord(sort, "asc") then 1 else -1
  }

  /** An index order is compared as written and never refused, unlike a
      sort order: the two agree on 'asc' and 'desc', but 'ASC' sorts
      ascending and indexes descending, and an unknown order indexes
      descending where a sort refuses it. */
  lemma IndexVsSort(order: Value)
    ensures order == Str("asc") || order == Str("desc") ==> SortOrder(order) == Ok(IndexDirection(order))
    ensures IndexDirection(Str("ASC")) == -1 && SortOrder(Str("ASC")) == Ok(1)
    ensures IndexDirection(Str("up")) == -1 && SortOrder(Str("up")) == Err(InvalidSortOrder)
  {
    assert Lower("asc") == "asc" && Lower("desc") == "desc";
    assert Lower("ASC") == "asc" && Lower("up") == "up";
  }

  // --------------------------------------------------------------- cursor

  datatype CursorRequest = CursorRequest(filter: Bson, sort: Option<seq<Entry<Value>>>, limit: Option<int>, skip: Option<int>)

  /** A limit or skip is passed on only when it is set and not 0. */
  function NonZero(n: Option<int>): Option<int> {
    if n.Some? && n.value != 0 then n else None
  }

  /** _initCursor: the find request of the search (a null search is not an
      array; the projection is not passed), then the sort document when a
      sort was asked for, then the limit and the skip. */
  function OpenCursor(auto: bool, ids: IdCache, search: Option<seq<Value>>, sort: seq<Entry<Value>>,
                      limit: Option<int>, skip: Option<int>): (Result<CursorRequest>, IdCache)
  {
    if search.None? then (Err(TypeError), ids)
    else
      var (q, c) := PrepareQuery(auto, ids, search.value);
      if q.Err? then (Err(q.error), c)
      else if |sort| == 0 then (Ok(CursorRequest(q.value, None, NonZero(limit), NonZero(skip))), c)
      else
        match SortDoc(sort)
        case Err(e) => (Err(e), c)
        case Ok(s) => (Ok(CursorRequest(q.value, Some(s), NonZero(limit), NonZero(skip))), c)
  }

  /** Opening a cursor keeps the cache valid. */
  lemma OpenCursorKeepsCache(auto: bool, ids: IdCache, search: Option<seq<Value>>, sort: seq<Entry<Value>>,
                             limit: Option<int>, skip: Option<int>)
    requires CacheValid(ids)
    ensures CacheValid(OpenCursor(auto, ids, search, sort, limit, skip).1)
  {
    if search.Some? {
      EntryConditionsKeepCache(auto, ids, search.value);
    }
  }

  // ------------------------------------------------------------- fetching

  /** in_array('_id', select): a selected value loosely equal to the name. */
  predicate Selects(select: seq<Entry<Value>>, f: string) {
    exists i :: 0 <= i < |select| && LooseEqualsWord(select[i].val, f)
  }

  /** The identifier step of fetch: a set identifier is dropped when a
      non-empty select list does not name '_id', and turned into its text
      otherwise. */
  function ShapeId(select: seq<Entry<Value>>, row: Row): Row {
    if !Truthy(Get(row, "_id")) then row
    else if |select| > 0 && !Selects(select, "_id") then Unset(row, "_id")
    else Set(row, "_id", Str(ToStr(Get(row, "_id"))))
  }

  /** After the step the identifier is gone or is a string, and every other
      field reads as before. */
  lemma ShapeIdReads(select: seq<Entry<Value>>, row: Row, k: string)
    requires UniqueKeys(row)
    ensures Lookup(ShapeId(select, row), k) ==
      if k != "_id" || !Truthy(Get(row, "_id")) then Lookup(row, k)
      else if |select| > 0 && !Selects(select, "_id") then None
      else Some(Str(ToStr(Get(row, "_id"))))
  {
    LookupUnset(row, "_id", k);
    LookupSet(row, "_id", Str(ToStr(Get(row, "_id"))), k);
  }

  /** The alias loop: for a string key new of the select list, whose value
      names the field old, the row's value at old moves to new and old is
      unset; integer keys are no alias. A field that cannot be an array key
      fails. */
  function MoveAliases(select: seq<Entry<Value>>, row: Row): Result<Row>
    decreases |select|
  {
    if |select| == 0 then Ok(row)
    else
      match MoveAliases(select[..|select| - 1], row)
      case Err(e) => Err(e)
      case Ok(p) =>
        var s := select[|select| - 1];
        if IntKey(s.key) then Ok(p)
        else
          match MongodbQuery.KeyOf(s.val)
          case Err(e) => Err(e)
          case Ok(from) => Ok(Unset(Set(p, s.key, Get(p, from)), from))
  }

  /** One alias moves the field's value to the alias and unsets the field,
      leaving every other field alone; an alias that names its own field
      therefore drops it. */
  lemma MoveAlias(row: Row, alias: string, field: string, k: string)
    requires UniqueKeys(row) && !IntKey(alias)
    ensures MoveAliases([Entry(alias, Str(field))], row).Ok?
    ensures var r := MoveAliases([Entry(alias, Str(field))], row).value;
      && Lookup(r, field) == None
      && (alias != field ==> Get(r, alias) == Get(row, field))
      && (k != alias && k != field ==> Lookup(r, k) == Lookup(row, k))
  {
    var s := [Entry(alias, Str(field))];
    assert s[..0] == [];
    var moved := Set(row, alias, Get(row, field));
    UniqueSet(row, alias, Get(row, field));
    LookupUnset(moved, field, field);
    LookupUnset(moved, field, alias);
    LookupUnset(moved, field, k);
    LookupSet(row, alias, Get(row, field), alias);
    LookupSet(row, alias, Get(row, field), k);
  }

  /** One fetched document: identifier, aliases, then the filters. The
      validators run last but cannot drop the document: they only unset the
      loop's reference to it. */
  function ShapeRow(select: seq<Entry<Value>>, filters: seq<Entry<Container.Callback>>, row: Row): Result<Row> {
    match MoveAliases(select, ShapeId(select, row))
    case Err(e) => Err(e)
    case Ok(r) => Ok(PdoTable.ApplyFilters(r, filters))
  }

  /** fetch's loop over the documents: every one shaped, none dropped. */
  function ShapeRows(select: seq<Entry<Value>>, filters: seq<Entry<Container.Callback>>, docs: seq<Row>): Result<seq<Row>> {
    MapAll(docs, Shaper(select, filters))
  }

  function Shaper(select: seq<Entry<Value>>, filters: seq<Entry<Container.Callback>>): Row -> Result<Row> {
    row => ShapeRow(select, filters, row)
  }

  /** Every document is shaped on its own, none is dropped, and a failure
      is the failure of some document. */
  lemma ShapeRowsSpec(select: seq<Entry<Value>>, filters: seq<Entry<Container.Callback>>, docs: seq<Row>)
    ensures var r := ShapeRows(select, filters, docs);
      && (r.Ok? ==> |r.value| == |docs| && forall i :: 0 <= i < |docs| ==> Ok(r.value[i]) == ShapeRow(select, filters, docs[i]))
      && (r.Err? ==> exists i :: 0 <= i < |docs| && ShapeRow(select, filters, docs[i]) == Err(r.error))
  {
    MapAllSpec(docs, Shaper(select, filters));
  }

  /** A select list with a string key, which turns a null result into an
      array when the alias is written into it. */
  predicate HasAlias(select: seq<Entry<Value>>) {
    exists i :: 0 <= i < |select| && !IntKey(select[i].key)
  }

  /** fetchOne: the first document shaped as fetch shapes it, or null when
      there is none or a validator rejects it, since here unset drops the
      result itself; without a document an alias still makes the null
      result an array. */
  function FetchOneRow(select: seq<Entry<Value>>, filters: seq<Entry<Container.Callback>>,
                       validators: seq<Entry<Container.Callback>>, first: Option<Row>): Result<Option<Row>>
  {
    var row := if first.Some? then ShapeId(select, first.value) else [];
    match MoveAliases(select, row)
    case Err(e) => Err(e)
    case Ok(r) =>
      var filtered := PdoTable.ApplyFilters(r, filters);
      if first.None? && !HasAlias(select) then Ok(None)
      else if PdoTable.Passes(filtered, validators) then Ok(Some(filtered))
      else Ok(None)
  }

  /** fetchOne on a document is fetch on that document alone, except that a
      validator's rejection, which fetch ignores, makes it null. */
  lemma FetchOneIsFetch(select: seq<Entry<Value>>, filters: seq<Entry<Container.Callback>>,
                        validators: seq<Entry<Container.Callback>>, doc: Row)
    ensures ShapeRow(select, filters, doc).Err? ==>
      FetchOneRow(select, filters, validators, Some(doc)) == Err(ShapeRow(select, filters, doc).error)
    ensures ShapeRow(select, filters, doc).Ok? ==>
      && ShapeRows(select, filters, [doc]) == Ok([ShapeRow(select, filters, doc).value])
      && FetchOneRow(select, filters, validators, Some(doc)) ==
        Ok(if PdoTable.Passes(ShapeRow(select, filters, doc).value, validators) then Some(ShapeRow(select, filters, doc).value) else None)
  {
    assert [doc][..0] == [];
    assert ShapeRows(select, filters, []) == Ok([]);
    if ShapeRow(select, filters, doc).Ok? {
      var row := ShapeRow(select, filters, doc).value;
      assert [] + [row] == [row];
    }
  }

  /** With no document fetchOne is null, unless an alias writes null under
      its name into the result. */
  lemma FetchOneNoDocument(alias: string, field: string)
    requires !IntKey(alias) && alias != field
    ensures FetchOneRow([], [], [], None) == Ok(None)
    ensures FetchOneRow([Entry(alias, Str(field))], [], [], None) == Ok(Some([Entry(alias, Null)]))
  {
    var s := [Entry(alias, Str(field))];
    assert s[..0] == [];
    assert HasAlias(s) by {
      assert !IntKey(s[0].key);
    }
    var moved := Set([], alias, Get([], field));
    assert moved == [Entry(alias, Null)];
    assert Unset(moved, field) == moved;
  }

  /** fetchFirst: the first value of fetchOne's row, an identifier object as
      its text; null when the row is null or empty. */
  function FirstOf(r: Option<Row>): (v: Value)
    ensures !v.ObjectId?
    ensures r.Some? && |r.value| > 0 && !r.value[0].val.ObjectId? ==> v == r.value[0].val
    ensures r.None? || |r.value| == 0 ==> v == Null
  {
    if r.None? || |r.value| == 0 then Null
    else if First(r.value).ObjectId? then Str(ToStr(First(r.value)))
    else First(r.value)
  }

  // -------------------------------------------------------------- writing

  /** array_key_exists and the options defaults. */
  function Default(options: Row, k: string, v: Value): Row {
    if Has(options, k) then options else Set(options, k, v)
  }

  function DefaultRead(options: Row, k: string, v: Value, j: string): Option<Value> {
    if j == k && !Has(options, k) then Some(v) else Lookup(options, j)
  }

  lemma DefaultReads(options: Row, k: string, v: Value, j: string)
    requires UniqueKeys(options)
    ensures UniqueKeys(Default(options, k, v))
    ensures Lookup(Default(options, k, v), j) == DefaultRead(options, k, v, j)
  {
    UniqueSet(options, k, v);
    LookupSet(options, k, v, j);
  }

  /** update's options: those of the second argument with w defaulting to
      the write concern and multiple to true, and upsert removed; without a
      second argument, just the two defaults. */
  function UpdateOptions(options: Option<Row>, wc: bool): (r: Row)
    requires options.Some? ==> UniqueKeys(options.value)
    ensures Lookup(r, "upsert") == None
    ensures Lookup(r, "w") == if options.Some? && Has(options.value, "w") then Lookup(options.value, "w") else Some(Bool(wc))
    ensures Lookup(r, "multiple") ==
      if options.Some? && Has(options.value, "multiple") then Lookup(options.value, "multiple") else Some(Bool(true))
    ensures options.Some? ==> forall k :: k != "w" && k != "multiple" && k != "upsert" ==> Lookup(r, k) == Lookup(options.value, k)
    ensures options.None? ==> |r| == 2
  {
    if options.None? then
      var r := [Entry("w", Bool(wc)), Entry("multiple", Bool(true))];
      assert Find(r, "multiple") == 1 by {
        assert r[1..] == [Entry("multiple", Bool(true))];
      }
      assert Find(r, "upsert") == 2 by {
        assert r[1..][1..] == [];
      }
      r
    else
      var o := options.value;
      var o1 := Default(o, "w", Bool(wc));
      var o2 := Default(o1, "multiple", Bool(true));
      DefaultReads(o, "w", Bool(wc), "w");
      DefaultReads(o, "w", Bool(wc), "multiple");
      DefaultReads(o1, "multiple", Bool(true), "w");
      DefaultReads(o1, "multiple", Bool(true), "multiple");
      FindHas(o, "multiple");
      FindHas(o1, "multiple");
      LookupUnset(o2, "upsert", "upsert");
      LookupUnset(o2, "upsert", "w");
      LookupUnset(o2, "upsert", "multiple");
      assert forall k :: k != "w" && k != "multiple" && k != "upsert" ==> Lookup(Unset(o2, "upsert"), k) == Lookup(o, k) by {
        forall k | k != "w" && k != "multiple" && k != "upsert"
          ensures Lookup(Unset(o2, "upsert"), k) == Lookup(o, k)
        {
          DefaultReads(o, "w", Bool(wc), k);
          DefaultReads(o1, "multiple", Bool(true), k);
          LookupUnset(o2, "upsert", k);
        }
      }
      Unset(o2, "upsert")
  }

  /** remove's options come from its second argument, as update's do,
      although remove declares no first parameter: options passed as its
      only argument are ignored. */
  function RemoveOptions(args: seq<Row>, wc: bool): (r: Row)
    requires |args| > 1 ==> UniqueKeys(args[1])
    ensures |args| <= 1 ==> r == [Entry("w", Bool(wc))]
    ensures |args| > 1 ==>
      && Lookup(r, "w") == (if Has(args[1], "w") then Lookup(args[1], "w") else Some(Bool(wc)))
      && forall k :: k != "w" ==> Lookup(r, k) == Lookup(args[1], k)
  {
    if |args| > 1 then
      assert forall k :: Lookup(Default(args[1], "w", Bool(wc)), k) == DefaultRead(args[1], "w", Bool(wc), k) by {
        forall k {
          DefaultReads(args[1], "w", Bool(wc), k);
        }
      }
      Default(args[1], "w", Bool(wc))
    else [Entry("w", Bool(wc))]
  }

  // ----------------------------------------------------- loops of the code

  /** The inner loop of an OR entry. */
  method SubQueries(subs: seq<Value>) returns (r: Result<seq<Bson>>)
    ensures r == SubConditions(subs)
  {
    var conds: seq<Bson> := [];
    var j := 0;
    while j < |subs|
      invariant 0 <= j <= |subs|
      invariant SubConditions(subs[..j]) == Ok(conds)
    {
      var c := SubCondition(subs[j]);
      MapAllStep(subs, SubCondition, j + 1, conds);
      if c.Err? {
        MapAllStops(subs, SubCondition, j + 1);
        return Err(c.error);
      }
      conds := conds + [c.value];
      j := j + 1;
    }
    assert subs[..j] == subs;
    r := Ok(conds);
  }

  /** The sort loop, rewriting each order in place. */
  method SortOrders(sort: seq<Entry<Value>>) returns (r: Result<seq<Entry<Value>>>)
    ensures r == SortDoc(sort)
  {
    var sorted := sort;
    var i := 0;
    while i < |sort|
      invariant 0 <= i <= |sort| && |sorted| == |sort|
      invariant SortDoc(sort[..i]) == Ok(sorted[..i])
      invariant forall k :: i <= k < |sort| ==> sorted[k] == sort[k]
    {
      ghost var done := sorted[..i];
      var d := SortOrder(sorted[i].val);
      SortDocStep(sort, i + 1, done);
      if d.Err? {
        SortDocStops(sort, i + 1);
        return Err(d.error);
      }
      UpdatedPrefix(sorted, i, Entry(sorted[i].key, Int(d.value)));
      sorted := sorted[i := Entry(sorted[i].key, Int(d.value))];
      i := i + 1;
    }
    assert sort[..i] == sort && sorted[..i] == sorted;
    r := Ok(sorted);
  }

  lemma MoveAliasesStep(select: seq<Entry<Value>>, row: Row, j: nat, p: Row)
    requires 0 < j <= |select| && MoveAliases(select[..j - 1], row) == Ok(p)
    ensures MoveAliases(select[..j], row) ==
      var s := select[j - 1];
      if IntKey(s.key) then Ok(p)
      else
        match MongodbQuery.KeyOf(s.val)
        case Err(e) => Err(e)
        case Ok(from) => Ok(Unset(Set(p, s.key, Get(p, from)), from))
  {
    var d := select[..j];
    assert d[..|d| - 1] == select[..j - 1];
    assert d[|d| - 1] == select[j - 1];
  }

  lemma {:induction false} MoveAliasesStops(select: seq<Entry<Value>>, row: Row, i: nat)
    requires i <= |select| && MoveAliases(select[..i], row).Err?
    ensures MoveAliases(select, row) == MoveAliases(select[..i], row)
    decreases |select| - i
  {
    if i < |select| {
      assert select[..i + 1][..i] == select[..i];
      MoveAliasesStops(select, row, i + 1);
    } else {
      assert select[..i] == select;
    }
  }

  /** The alias loop over the select list. */
  method AliasLoop(select: seq<Entry<Value>>, row: Row) returns (r: Result<Row>)
    ensures r == MoveAliases(select, row)
  {
    var result := row;
    var i := 0;
    while i < |select|
      invariant 0 <= i <= |select|
      invariant MoveAliases(select[..i], row) == Ok(result)
    {
      var s := select[i];
      MoveAliasesStep(select, row, i + 1, result);
      if !IntKey(s.key) {
        var from := MongodbQuery.KeyOf(s.val);
        if from.Err? {
          MoveAliasesStops(select, row, i + 1);
          return Err(from.error);
        }
        result := Set(result, s.key, Get(result, from.value));
        result := Unset(result, from.value);
      }
      i := i + 1;
    }
    assert select[..i] == select;
    r := Ok(result);
  }

  /** The filter loop on one document. */
  method FilterLoop(row: Row, filters: seq<Entry<Container.Callback>>) returns (r: Row)
    ensures r == PdoTable.ApplyFilters(row, filters)
  {
    r := row;
    var i := 0;
    while i < |filters|
      invariant 0 <= i <= |filters|
      invariant r == PdoTable.ApplyFilters(row, filters[..i])
    {
      assert filters[..i + 1][..i] == filters[..i];
      assert filters[..i + 1][i] == filters[i];
      var f := filters[i];
      if IsSet(r, f.key) {
        r := Set(r, f.key, f.val(Get(r, f.key)));
      }
      i := i + 1;
    }
    assert filters[..i] == filters;
  }

  /** fetchOne's validator loop. */
  method Validates(row: Row, validators: seq<Entry<Container.Callback>>) returns (ok: bool)
    ensures ok == PdoTable.Passes(row, validators)
  {
    var i := 0;
    while i < |validators|
      invariant 0 <= i <= |validators|
      invariant forall j :: 0 <= j < i && IsSet(row, validators[j].key) ==> Truthy(validators[j].val(Get(row, validators[j].key)))
    {
      var v := validators[i];
      if IsSet(row, v.key) && !Truthy(v.val(Get(row, v.key))) {
        return false;
      }
      i := i + 1;
    }
    ok := true;
  }

  /** One fetched document: identifier, aliases and filters. */
  method ShapeOne(select: seq<Entry<Value>>, filters: seq<Entry<Container.Callback>>, row: Row) returns (r: Result<Row>)
    ensures r == ShapeRow(select, filters, row)
  {
    var result := row;
    if Truthy(Get(result, "_id")) {
      if |select| > 0 && !Selects(select, "_id") {
        result := Unset(result, "_id");
      } else {
        result := Set(result, "_id", Str(ToStr(Get(result, "_id"))));
      }
    }
    var moved := AliasLoop(select, result);
    if moved.Err? {
      return moved;
    }
    var filtered := FilterLoop(moved.value, filters);
    r := Ok(filtered);
  }

  /** fetch's loop over the documents, shaping each one; the
      validators run but drop nothing. */
  method ShapeAll(select: seq<Entry<Value>>, filters: seq<Entry<Container.Callback>>,
                  validators: seq<Entry<Container.Callback>>, docs: seq<Row>) returns (r: Result<seq<Row>>)
    ensures r == ShapeRows(select, filters, docs)
  {
    var results: seq<Row> := [];
    var i := 0;
    while i < |docs|
      invariant 0 <= i <= |docs|
      invariant ShapeRows(select, filters, docs[..i]) == Ok(results)
    {
      var row := ShapeOne(select, filters, docs[i]);
      assert Shaper(select, filters)(docs[i]) == row;
      MapAllStep(docs, Shaper(select, filters), i + 1, results);
      if row.Err? {
        MapAllStops(docs, Shaper(select, filters), i + 1);
        return Err(row.error);
      }
      results := results + [row.value];
      // A failing validator unsets only the loop's reference to the
      // document, which stays in the results. `kept` is that verdict; it is
      // never read, and the validators are pure here, so the call mirrors
      // the source's checks without changing the results.
      var kept := Validates(row.value, validators);
      i := i + 1;
    }
    assert docs[..i] == docs;
    r := Ok(results);
  }

  // --------------------------------------------------------- the container

  /** The database's own settings, which the collection falls back on. */
  datatype Defaults = Defaults(writeConcern: bool, autoFormatIds: bool)

  /** The collection: the shared request builder, its own write-concern and
      id-formatting settings (None until written), the identifier cache and
      the request of the open cursor (None when the cursor is closed). */
  class Collection {
    const base: Container.Container
    var ownWriteConcern: Option<bool>
    var ownAutoFormatIds: Option<bool>
    var ids: IdCache
    var cursor: Option<CursorRequest>

    ghost predicate Valid()
      reads this, base
    {
      base.Valid() && CacheValid(ids)
    }

    constructor (name: string)
      ensures fresh(base) && Valid() && base.name == name
      ensures base.searchRequest == Some([]) && base.selectRequest == [] && base.sortRequest == []
      ensures base.limitRequest == None && base.skipRequest == None && base.filters == [] && base.validators == []
      ensures ownWriteConcern == None && ownAutoFormatIds == None && ids == [] && cursor == None
    {
      base := new Container.Container(name);
      ownWriteConcern := None;
      ownAutoFormatIds := None;
      ids := [];
      cursor := None;
    }

    /** writeConcern(flag): without a flag the setting in force is returned;
        with one its truth is stored and the collection returned (None). */
    method WriteConcern(flag: Value, db: Defaults) returns (current: Option<bool>)
      modifies this`ownWriteConcern
      ensures flag == Null ==> ownWriteConcern == old(ownWriteConcern) && current == Some(Effective(ownWriteConcern, db.writeConcern))
      ensures flag != Null ==> ownWriteConcern == Some(Truthy(flag)) && current == None
    {
      if flag == Null {
        if ownWriteConcern.Some? {
          current := Some(ownWriteConcern.value);
        } else {
          current := Some(db.writeConcern);
        }
      } else {
        ownWriteConcern := Some(Truthy(flag));
        current := None;
      }
    }

    /** autoFormatIds(flag), the same for the id-formatting setting. */
    method AutoFormatIds(flag: Value, db: Defaults) returns (current: Option<bool>)
      modifies this`ownAutoFormatIds
      ensures flag == Null ==> ownAutoFormatIds == old(ownAutoFormatIds) && current == Some(Effective(ownAutoFormatIds, db.autoFormatIds))
      ensures flag != Null ==> ownAutoFormatIds == Some(Truthy(flag)) && current == None
    {
      if flag == Null {
        if ownAutoFormatIds.Some? {
          current := Some(ownAutoFormatIds.value);
        } else {
          current := Some(db.autoFormatIds);
        }
      } else {
        ownAutoFormatIds := Some(Truthy(flag));
        current := None;
      }
    }

    /** _formatMongoId */
    method FormatId(id: Value, db: Defaults) returns (r: Result<Value>)
      modifies this`ids
      ensures (r, ids) == FormatMongoId(Effective(ownAutoFormatIds, db.autoFormatIds), old(ids), id)
    {
      var auto := if ownAutoFormatIds.Some? then ownAutoFormatIds.value else db.autoFormatIds;
      if !auto {
        return Ok(id);
      }
      var key := MongodbQuery.KeyOf(id);
      if key.Err? {
        return Err(key.error);
      }
      var cached := Get(ids, key.value);
      if Truthy(cached) {
        return Ok(cached);
      }
      ids := Set(ids, key.value, ObjectId(id));
      r := Ok(ObjectId(id));
    }

    /** The by-reference loop over an 'in' value's elements. */
    method FormatIds(elems: seq<Value>, db: Defaults) returns (r: Result<seq<Value>>)
      modifies this`ids
      ensures (r, ids) == FormatEach(Effective(ownAutoFormatIds, db.autoFormatIds), old(ids), elems)
    {
      ghost var auto, ids0 := Effective(ownAutoFormatIds, db.autoFormatIds), ids;
      var values := elems;
      var i := 0;
      while i < |elems|
        invariant 0 <= i <= |elems| && |values| == |elems|
        invariant FormatEach(auto, ids0, elems[..i]) == (Ok(values[..i]), ids)
        invariant forall k :: i <= k < |elems| ==> values[k] == elems[k]
      {
        ghost var done, c := values[..i], ids;
        assert values[i] == elems[i];
        var v := FormatId(values[i], db);
        FormatEachStep(auto, ids0, elems, i + 1, done, c, v, ids);
        if v.Err? {
          FormatEachStops(auto, ids0, elems, i + 1);
          return Err(v.error);
        }
        UpdatedPrefix(values, i, v.value);
        values := values[i := v.value];
        i := i + 1;
      }
      assert elems[..i] == elems && values[..i] == values;
      r := Ok(values);
    }

    /** One entry of _prepareQuery's loop. */
    method PrepareOne(search: Value, db: Defaults) returns (r: Result<Bson>)
      modifies this`ids
      ensures (r, ids) == PrepareEntry(Effective(ownAutoFormatIds, db.autoFormatIds), old(ids), search)
    {
      if search.ObjectId? {
        return Err(TypeError);
      }
      var f, op, v := PdoTable.Offset(search, 0), PdoTable.Offset(search, 1), PdoTable.Offset(search, 2);
      if LooseEqualsWord(f, "_id") {
        if LooseEqualsWord(op, "in") {
          if v.List? {
            var es := FormatIds(v.elems, db);
            if es.Err? {
              return Err(es.error);
            }
            v := List(es.value);
          }
        } else {
          var x := FormatId(v, db);
          if x.Err? {
            return Err(x.error);
          }
          v := x.value;
        }
      }
      if f.Str? {
        r := Compose(f, op, v);
      } else if f.List? {
        var subs := SubQueries(search.elems);
        if subs.Err? {
          return Err(subs.error);
        }
        if |subs.value| > 1 {
          r := Ok(Pair("$or", Arr(subs.value)));
        } else {
          r := Ok(subs.value[0]);
        }
      } else {
        r := Err(InvalidSearchParameter);
      }
    }

    /** _prepareQuery */
    method Prepare(searches: seq<Value>, db: Defaults) returns (r: Result<Bson>)
      requires Valid()
      modifies this`ids
      ensures Valid()
      ensures (r, ids) == PrepareQuery(Effective(ownAutoFormatIds, db.autoFormatIds), old(ids), searches)
    {
      ghost var auto := Effective(ownAutoFormatIds, db.autoFormatIds);
      EntryConditionsKeepCache(auto, ids, searches);
      var query: seq<Bson> := [];
      var i := 0;
      while i < |searches|
        invariant 0 <= i <= |searches|
        invariant EntryConditions(auto, old(ids), searches[..i]) == (Ok(query), ids)
      {
        ghost var c := ids;
        var x := PrepareOne(searches[i], db);
        EntryConditionsStep(auto, old(ids), searches, i + 1, query, c);
        if x.Err? {
          EntryConditionsStops(auto, old(ids), searches, i + 1);
          return Err(x.error);
        }
        query := query + [x.value];
        i := i + 1;
      }
      assert searches[..i] == searches;
      if |query| == 0 {
        r := Ok(Doc([]));
      } else if |query| == 1 {
        r := Ok(query[0]);
      } else {
        r := Ok(Pair("$and", Arr(query)));
      }
    }

    /** _initCursor */
    method InitCursor(db: Defaults) returns (r: Result<CursorRequest>)
      requires Valid()
      modifies this`ids, this`cursor
      ensures Valid()
      ensures (r, ids) == OpenCursor(Effective(ownAutoFormatIds, db.autoFormatIds), old(ids), base.searchRequest,
                                     base.sortRequest, base.limitRequest, base.skipRequest)
      ensures cursor == if r.Ok? then Some(r.value) else old(cursor)
    {
      if base.searchRequest.None? {
        return Err(TypeError);
      }
      var q := Prepare(base.searchRequest.value, db);
      if q.Err? {
        return Err(q.error);
      }
      var sort: Option<seq<Entry<Value>>> := None;
      if |base.sortRequest| > 0 {
        var s := SortOrders(base.sortRequest);
        if s.Err? {
          return Err(s.error);
        }
        sort := Some(s.value);
      }
      r := Ok(CursorRequest(q.value, sort, NonZero(base.limitRequest), NonZero(base.skipRequest)));
      cursor := Some(r.value);
    }

    /** index(field, sort): the index document; the cursor is closed. */
    method Index(field: Value, sort: Value) returns (index: Row)
      modifies this`cursor
      ensures index == [Entry(ToStr(field), Int(IndexDirection(sort)))] && cursor == None
    {
      index := [Entry(ToStr(field), Int(if LooseEqualsWord(sort, "asc") then 1 else -1))];
      cursor := None;
    }

    /** update(document, options): $set of the document on what the search
        matches; the cursor is closed once the request is made. */
    method Update(document: Row, options: Option<Row>, db: Defaults) returns (r: Result<MongodbQuery.WriteRequest>)
      requires Valid()
      requires options.Some? ==> UniqueKeys(options.value)
      modifies this`ids, this`cursor
      ensures Valid()
      ensures base.searchRequest.None? ==> r == Err(SearchNotCalled) && ids == old(ids) && cursor == old(cursor)
      ensures base.searchRequest.Some? ==>
        var (q, c) := PrepareQuery(Effective(ownAutoFormatIds, db.autoFormatIds), old(ids), base.searchRequest.value);
        && ids == c
        && r == (if q.Err? then Err(q.error)
                 else Ok(MongodbQuery.UpdateRequest(q.value, Pair("$set", MongodbQuery.ValuesDoc(document)),
                                                    UpdateOptions(options, Effective(ownWriteConcern, db.writeConcern)))))
        && cursor == (if q.Err? then old(cursor) else None)
    {
      var v := Container.VerifySearchRequest(base.searchRequest);
      if v.Fail? {
        return Err(v.error);
      }
      var wc := if ownWriteConcern.Some? then ownWriteConcern.value else db.writeConcern;
      var opts := UpdateOptions(options, wc);
      var q := Prepare(base.searchRequest.value, db);
      if q.Err? {
        return Err(q.error);
      }
      r := Ok(MongodbQuery.UpdateRequest(q.value, Pair("$set", MongodbQuery.ValuesDoc(document)), opts));
      cursor := None;
    }

    /** remove(...): the options are read from the second argument. */
    method Remove(args: seq<Row>, db: Defaults) returns (r: Result<MongodbQuery.WriteRequest>)
      requires Valid()
      requires |args| > 1 ==> UniqueKeys(args[1])
      modifies this`ids, this`cursor
      ensures Valid()
      ensures base.searchRequest.None? ==> r == Err(SearchNotCalled) && ids == old(ids) && cursor == old(cursor)
      ensures base.searchRequest.Some? ==>
        var (q, c) := PrepareQuery(Effective(ownAutoFormatIds, db.autoFormatIds), old(ids), base.searchRequest.value);
        && ids == c
        && r == (if q.Err? then Err(q.error)
                 else Ok(MongodbQuery.DeleteRequest(q.value, RemoveOptions(args, Effective(ownWriteConcern, db.writeConcern)))))
        && cursor == (if q.Err? then old(cursor) else None)
    {
      var v := Container.VerifySearchRequest(base.searchRequest);
      if v.Fail? {
        return Err(v.error);
      }
      var wc := if ownWriteConcern.Some? then ownWriteConcern.value else db.writeConcern;
      var opts := RemoveOptions(args, wc);
      var q := Prepare(base.searchRequest.value, db);
      if q.Err? {
        return Err(q.error);
      }
      r := Ok(MongodbQuery.DeleteRequest(q.value, opts));
      cursor := None;
    }

    /** fetch: the documents the cursor returns (given), shaped one by one
        in place; the validators run but drop nothing. */
    method Fetch(docs: seq<Row>, db: Defaults) returns (r: Result<seq<Row>>)
      requires Valid()
      modifies this`ids, this`cursor
      ensures Valid()
      ensures base.searchRequest.None? ==> r == Err(SearchNotCalled) && ids == old(ids) && cursor == old(cursor)
      ensures base.searchRequest.Some? ==>
        var (c, cache) := OpenCursor(Effective(ownAutoFormatIds, db.autoFormatIds), old(ids), base.searchRequest,
                                     base.sortRequest, base.limitRequest, base.skipRequest);
        && ids == cache
        && r == (if c.Err? then Err(c.error) else ShapeRows(base.selectRequest, base.filters, docs))
        && cursor == (if c.Ok? && r.Err? then Some(c.value) else None)
    {
      var v := Container.VerifySearchRequest(base.searchRequest);
      if v.Fail? {
        return Err(v.error);
      }
      cursor := None;
      var c := InitCursor(db);
      if c.Err? {
        return Err(c.error);
      }
      r := ShapeAll(base.selectRequest, base.filters, base.validators, docs);
      if r.Ok? {
        cursor := None;
      }
    }

    /** fetchOne: the first document the cursor returns (given, None when
        there is none). */
    method FetchOne(first: Option<Row>, db: Defaults) returns (r: Result<Option<Row>>)
      requires Valid()
      modifies this`ids, this`cursor
      ensures Valid()
      ensures base.searchRequest.None? ==> r == Err(SearchNotCalled) && ids == old(ids) && cursor == old(cursor)
      ensures base.searchRequest.Some? ==>
        var (c, cache) := OpenCursor(Effective(ownAutoFormatIds, db.autoFormatIds), old(ids), base.searchRequest,
                                     base.sortRequest, base.limitRequest, base.skipRequest);
        && ids == cache
        && r == (if c.Err? then Err(c.error) else FetchOneRow(base.selectRequest, base.filters, base.validators, first))
        && cursor == (if c.Ok? && r.Err? then Some(c.value) else None)
    {
      var v := Container.VerifySearchRequest(base.searchRequest);
      if v.Fail? {
        return Err(v.error);
      }
      cursor := None;
      var c := InitCursor(db);
      if c.Err? {
        return Err(c.error);
      }
      var select := base.selectRequest;
      var result := if first.Some? then first.value else [];
      if first.Some? && Truthy(Get(result, "_id")) {
        if |select| > 0 && !Selects(select, "_id") {
          result := Unset(result, "_id");
        } else {
          result := Set(result, "_id", Str(ToStr(Get(result, "_id"))));
        }
      }
      var moved := AliasLoop(select, result);
      if moved.Err? {
        return Err(moved.error);
      }
      var filtered := FilterLoop(moved.value, base.filters);
      var isNull := first.None? && !HasAlias(select);
      if !isNull {
        var ok := Validates(filtered, base.validators);
        isNull := !ok;
      }
      cursor := None;
      r := Ok(if isNull then None else Some(filtered));
    }

    /** fetchFirst */
    method FetchFirst(first: Option<Row>, db: Defaults) returns (r: Result<Value>)
      requires Valid()
      modifies this`ids, this`cursor
      ensures Valid()
      ensures base.searchRequest.None? ==> r == Err(SearchNotCalled) && ids == old(ids) && cursor == old(cursor)
      ensures base.searchRequest.Some? ==>
        var (c, cache) := OpenCursor(Effective(ownAutoFormatIds, db.autoFormatIds), old(ids), base.searchRequest,
                                     base.sortRequest, base.limitRequest, base.skipRequest);
        var one := FetchOneRow(base.selectRequest, base.filters, base.validators, first);
        && ids == cache
        && r == (if c.Err? then Err(c.error) else if one.Err? then Err(one.error) else Ok(FirstOf(one.value)))
        && cursor == (if c.Ok? && one.Err? then Some(c.value) else None)
    {
      var one := FetchOne(first, db);
      if one.Err? {
        return Err(one.error);
      }
      var result := one.value;
      if result.Some? && |result.value| > 0 {
        var field := First(result.value);
        if field.ObjectId? {
          field := Str(ToStr(field));
        }
        r := Ok(field);
      } else {
        r := Ok(Null);
      }
    }

    /** count: the cursor request the driver counts over; the count itself
        is the driver's. */
    method Count(db: Defaults) returns (r: Result<CursorRequest>)
      requires Valid()
      modifies this`ids, this`cursor
      ensures Valid()
      ensures base.searchRequest.None? ==> r == Err(SearchNotCalled) && ids == old(ids) && cursor == old(cursor)
      ensures base.searchRequest.Some? ==>
        (r, ids) == OpenCursor(Effective(ownAutoFormatIds, db.autoFormatIds), old(ids), base.searchRequest,
                               base.sortRequest, base.limitRequest, base.skipRequest)
        && cursor == None
    {
      var v := Container.VerifySearchRequest(base.searchRequest);
      if v.Fail? {
        return Err(v.error);
      }
      cursor := None;
      r := InitCursor(db);
      cursor := None;
    }

    /** Every operation that touches the cache keeps it valid. */
    lemma KeepsValid(db: Defaults)
      requires Valid()
      ensures CacheValid(OpenCursor(Effective(ownAutoFormatIds, db.autoFormatIds), ids, base.searchRequest,
                                    base.sortRequest, base.limitRequest, base.skipRequest).1)
    {
      OpenCursorKeepsCache(Effective(ownAutoFormatIds, db.autoFormatIds), ids, base.searchRequest,
                           base.sortRequest, base.limitRequest, base.skipRequest);
    }
  }
}
