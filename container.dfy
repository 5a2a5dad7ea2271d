/** The older request builder that the table and collection containers
    share. Its requests are PHP arrays: the search request is a list of
    entries (a triple [field, operator, value] or an array of such triples
    OR-ed together), the select and sort requests and the filter and
    validator registries are keyed arrays. */
module Container {
  import opened Values
  import opened Assoc

  /** What a request that is null is read as when appended to. */
  function Base(request: Option<seq<Value>>): seq<Value> {
    if request.Some? then request.value else []
  }

  /** _verifySearchRequest: only a null search request is refused. */
  function VerifySearchRequest(request: Option<seq<Value>>): (o: Outcome)
    ensures o.Fail? <==> request.None?
    ensures o.Fail? ==> o.error == SearchNotCalled
  {
    if request.None? then Fail(SearchNotCalled) else Pass
  }

  /** The search request after search(...) and the call's outcome. */
  function SearchRequestCall(request: Option<seq<Value>>, args: seq<Value>): (r: (Option<seq<Value>>, Outcome))
    ensures r.1.Fail? <==> (|args| == 1 && !args[0].List?) || (|args| != 0 && |args| != 1 && |args| != 3)
    ensures r.1.Fail? ==> r.0 == request && r.1.error == (if |args| == 1 then ArrayExpected else BadArgumentCount)
    ensures r.1 == Pass && |args| == 0 ==> r.0 == Some([])
    ensures r.1 == Pass && |args| > 0 ==>
      var s := Base(request);
      r.0.Some? && |r.0.value| == |s| + 1 && r.0.value[..|s|] == s
      && r.0.value[|s|] == (if |args| == 1 then args[0] else List(args))
  {
    if |args| == 0 then (Some([]), Pass)
    else if |args| == 1 then
      if args[0].List? then (Some(Base(request) + [args[0]]), Pass)
      else (request, Fail(ArrayExpected))
    else if |args| == 3 then (Some(Base(request) + [List(args)]), Pass)
    else (request, Fail(BadArgumentCount))
  }

  /** The select request after select(field, alias). */
  function SelectCall(select: seq<Entry<Value>>, field: Value, alias: Value): seq<Entry<Value>> {
    if field.List? then ArrayMerge(select, ListEntries(field.elems))
    else if Truthy(alias) then Set(select, ToStr(alias), field)
    else Push(select, field)
  }

  /** select(array) with an associative array, whose keys PHP keeps:
      array_merge lets each string key of the argument name its field as an
      alias, replacing what that alias held, while every other string key
      keeps its field; with string keys new to the request, every field of
      the argument is added, its values after the current ones. No key is
      ever duplicated. */
  lemma SelectArrayEffect(select: seq<Entry<Value>>, fields: seq<Entry<Value>>)
    requires UniqueKeys(select) && UniqueKeys(fields)
    ensures UniqueKeys(ArrayMerge(select, fields))
    ensures forall k :: !IntKey(k) ==>
      Lookup(ArrayMerge(select, fields), k) == if Has(fields, k) then Lookup(fields, k) else Lookup(select, k)
    ensures (forall i :: 0 <= i < |fields| && !IntKey(fields[i].key) ==> !Has(select, fields[i].key)) ==>
      |ArrayMerge(select, fields)| == |select| + |fields| &&
      Vals(ArrayMerge(select, fields)) == Vals(select) + Vals(fields)
  {
    ArrayMergeUnique(select, fields);
    forall k | !IntKey(k)
      ensures Lookup(ArrayMerge(select, fields), k) == if Has(fields, k) then Lookup(fields, k) else Lookup(select, k)
    {
      LookupArrayMerge(select, fields, k);
    }
    if forall i :: 0 <= i < |fields| && !IntKey(fields[i].key) ==> !Has(select, fields[i].key) {
      ArrayMergeFresh(select, fields);
    }
  }

  /** An array of fields is merged in, its values after the current ones; a
      truthy alias names the field's entry, replacing what that alias held
      and leaving every other entry alone; otherwise the field is appended
      under a fresh integer key. No key is ever duplicated. */
  lemma SelectEffect(select: seq<Entry<Value>>, field: Value, alias: Value)
    requires UniqueKeys(select)
    ensures UniqueKeys(SelectCall(select, field, alias))
    ensures field.List? ==> Vals(SelectCall(select, field, alias)) == Vals(select) + field.elems
    ensures !field.List? && Truthy(alias) ==>
      && Lookup(SelectCall(select, field, alias), ToStr(alias)) == Some(field)
      && forall k :: k != ToStr(alias) ==> Lookup(SelectCall(select, field, alias), k) == Lookup(select, k)
    ensures !field.List? && !Truthy(alias) ==>
      var r := SelectCall(select, field, alias);
      && |r| == |select| + 1 && r[..|select|] == select
      && r[|select|].val == field && IntKey(r[|select|].key) && !Has(select, r[|select|].key)
  {
    var r := SelectCall(select, field, alias);
    if field.List? {
      ArrayMergeUnique(select, ListEntries(field.elems));
      ArrayMergeList(select, field.elems);
    } else if Truthy(alias) {
      UniqueSet(select, ToStr(alias), field);
      forall k | k != ToStr(alias) ensures Lookup(r, k) == Lookup(select, k) {
        LookupSet(select, ToStr(alias), field, k);
      }
      LookupSet(select, ToStr(alias), field, ToStr(alias));
    } else {
      PushFresh(select, field);
      IntKeyOf(NextIndex(select));
      assert r[..|select|] == select;
    }
  }

  /** sort(field, order) and filter / validate: the entry under the field's
      string form is set, so naming a field again replaces its entry in
      place instead of adding one; every other entry reads the same. */
  lemma Overwrites<V>(a: seq<Entry<V>>, field: Value, v: V)
    requires UniqueKeys(a)
    ensures UniqueKeys(Set(a, ToStr(field), v))
    ensures Lookup(Set(a, ToStr(field), v), ToStr(field)) == Some(v)
    ensures forall k :: k != ToStr(field) ==> Lookup(Set(a, ToStr(field), v), k) == Lookup(a, k)
    ensures Has(a, ToStr(field)) ==> Keys(Set(a, ToStr(field), v)) == Keys(a)
    ensures !Has(a, ToStr(field)) ==> Keys(Set(a, ToStr(field), v)) == Keys(a) + [ToStr(field)]
  {
    UniqueSet(a, ToStr(field), v);
    KeysSet(a, ToStr(field), v);
    forall k {
      LookupSet(a, ToStr(field), v, k);
    }
  }

  /** filter / validate: a callback that is not callable (None) is refused
      and nothing is registered. */
  function Register<F>(a: seq<Entry<F>>, field: Value, callback: Option<F>): (r: Result<seq<Entry<F>>>)
    ensures r.Err? <==> callback.None?
    ensures r.Err? ==> r.error == NotCallable
    ensures r.Ok? ==> Lookup(r.value, ToStr(field)) == Some(callback.value)
  {
    if callback.None? then Err(NotCallable)
    else
      LookupSet(a, ToStr(field), callback.value, ToStr(field));
      Ok(Set(a, ToStr(field), callback.value))
  }

  /** A filter rewrites a field's value; a validator's result is read for
      its truthiness. */
  type Callback = Value -> Value

  class Container {
    const name: string
    var searchRequest: Option<seq<Value>>
    var selectRequest: seq<Entry<Value>>
    var sortRequest: seq<Entry<Value>>
    var limitRequest: Option<int>
    var skipRequest: Option<int>
    var filters: seq<Entry<Callback>>
    var validators: seq<Entry<Callback>>

    /** Every keyed request is a PHP array: no key twice. */
    ghost predicate Valid()
      reads this
    {
      UniqueKeys(selectRequest) && UniqueKeys(sortRequest) && UniqueKeys(filters) && UniqueKeys(validators)
    }

    constructor (name: string)
      ensures Valid() && this.name == name
      ensures searchRequest == Some([]) && selectRequest == [] && sortRequest == []
      ensures limitRequest == None && skipRequest == None && filters == [] && validators == []
    {
      this.name := name;
      searchRequest := Some([]);
      selectRequest := [];
      sortRequest := [];
      limitRequest := None;
      skipRequest := None;
      filters := [];
      validators := [];
    }

    /** search(...), which is the one call allowed on a null request. */
    method Search(args: seq<Value>) returns (o: Outcome)
      modifies this`searchRequest
      ensures (searchRequest, o) == SearchRequestCall(old(searchRequest), args)
      ensures old(searchRequest).Some? ==> searchRequest.Some?
    {
      if |args| == 0 {
        searchRequest := Some([]);
        o := Pass;
      } else if |args| == 1 {
        if !args[0].List? {
          o := Fail(ArrayExpected);
          return;
        }
        searchRequest := Some(Base(searchRequest) + [args[0]]);
        o := Pass;
      } else if |args| == 3 {
        searchRequest := Some(Base(searchRequest) + [List(args)]);
        o := Pass;
      } else {
        o := Fail(BadArgumentCount);
      }
    }

    method Select(field: Value, alias: Value := Null) returns (o: Outcome)
      requires Valid()
      modifies this`selectRequest
      ensures Valid()
      ensures o == VerifySearchRequest(searchRequest)
      ensures o.Fail? ==> selectRequest == old(selectRequest)
      ensures o == Pass ==> selectRequest == SelectCall(old(selectRequest), field, alias)
    {
      o := VerifySearchRequest(searchRequest);
      if o.Fail? {
        return;
      }
      SelectEffect(selectRequest, field, alias);
      if field.List? {
        selectRequest := ArrayMerge(selectRequest, ListEntries(field.elems));
      } else if Truthy(alias) {
        selectRequest := Set(selectRequest, ToStr(alias), field);
      } else {
        selectRequest := Push(selectRequest, field);
      }
    }

    /** select(array) with an associative array of fields. */
    method SelectArray(fields: seq<Entry<Value>>) returns (o: Outcome)
      requires Valid() && UniqueKeys(fields)
      modifies this`selectRequest
      ensures Valid()
      ensures o == VerifySearchRequest(searchRequest)
      ensures o.Fail? ==> selectRequest == old(selectRequest)
      ensures o == Pass ==> selectRequest == ArrayMerge(old(selectRequest), fields)
    {
      o := VerifySearchRequest(searchRequest);
      if o.Fail? {
        return;
      }
      ArrayMergeUnique(selectRequest, fields);
      selectRequest := ArrayMerge(selectRequest, fields);
    }

    method Sort(field: Value, order: Value) returns (o: Outcome)
      requires Valid()
      modifies this`sortRequest
      ensures Valid()
      ensures o == VerifySearchRequest(searchRequest)
      ensures o.Fail? ==> sortRequest == old(sortRequest)
      ensures o == Pass ==> sortRequest == Set(old(sortRequest), ToStr(field), order)
    {
      o := VerifySearchRequest(searchRequest);
      if o.Fail? {
        return;
      }
      Overwrites(sortRequest, field, order);
      sortRequest := Set(sortRequest, ToStr(field), order);
    }

    method Limit(number: Value) returns (o: Outcome)
      modifies this`limitRequest
      ensures o == VerifySearchRequest(searchRequest)
      ensures o.Fail? ==> limitRequest == old(limitRequest)
      ensures o == Pass ==> limitRequest == Some(ToInt(number))
    {
      o := VerifySearchRequest(searchRequest);
      if o == Pass {
        limitRequest := Some(ToInt(number));
      }
    }

    method Skip(number: Value) returns (o: Outcome)
      modifies this`skipRequest
      ensures o == VerifySearchRequest(searchRequest)
      ensures o.Fail? ==> skipRequest == old(skipRequest)
      ensures o == Pass ==> skipRequest == Some(ToInt(number))
    {
      o := VerifySearchRequest(searchRequest);
      if o == Pass {
        skipRequest := Some(ToInt(number));
      }
    }

    /** filter(field, callback); None stands for a value that is not callable. */
    method Filter(field: Value, callback: Option<Callback>) returns (o: Outcome)
      requires Valid()
      modifies this`filters
      ensures Valid()
      ensures o.Fail? ==> filters == old(filters)
      ensures VerifySearchRequest(searchRequest).Fail? ==> o == VerifySearchRequest(searchRequest)
      ensures VerifySearchRequest(searchRequest) == Pass ==>
        match Register(old(filters), field, callback)
        case Err(e) => o == Fail(e)
        case Ok(a) => o == Pass && filters == a
    {
      o := VerifySearchRequest(searchRequest);
      if o.Fail? {
        return;
      }
      match callback
      case None =>
        o := Fail(NotCallable);
      case Some(f) =>
        Overwrites(filters, field, f);
        filters := Set(filters, ToStr(field), f);
    }

    /** validate(field, callback) */
    method Validate(field: Value, callback: Option<Callback>) returns (o: Outcome)
      requires Valid()
      modifies this`validators
      ensures Valid()
      ensures o.Fail? ==> validators == old(validators)
      ensures VerifySearchRequest(searchRequest).Fail? ==> o == VerifySearchRequest(searchRequest)
      ensures VerifySearchRequest(searchRequest) == Pass ==>
        match Register(old(validators), field, callback)
        case Err(e) => o == Fail(e)
        case Ok(a) => o == Pass && validators == a
    {
      o := VerifySearchRequest(searchRequest);
      if o.Fail? {
        return;
      }
      match callback
      case None =>
        o := Fail(NotCallable);
      case Some(f) =>
        Overwrites(validators, field, f);
        validators := Set(validators, ToStr(field), f);
    }
  }
}
