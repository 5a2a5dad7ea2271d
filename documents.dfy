/** The documents the document-store translators hand to the driver:
    filters, projections and sort specifications are PHP arrays, read here
    as a tree of scalar values, keyed documents and lists. */
module Documents {
  import opened Values

  datatype Bson =
    | Val(v: Value)             // a PHP value as it stands (lists of values included)
    | Doc(fields: seq<Field>)   // an array with string keys
    | Arr(items: seq<Bson>)     // a list of documents

  datatype Field = Field(key: string, val: Bson)

  /** array(key => b) */
  function Pair(key: string, b: Bson): Bson {
    Doc([Field(key, b)])
  }

  /** An OR list of conditions: a single condition stands for itself. */
  function OrOf(conds: seq<Bson>): Bson {
    if |conds| == 1 then conds[0] else Pair("$or", Arr(conds))
  }

  /** The top-level AND list: no condition gives {}, a single one stands
      for itself. */
  function AndOf(conds: seq<Bson>): Bson {
    if |conds| == 0 then Doc([])
    else if |conds| == 1 then conds[0]
    else Pair("$and", Arr(conds))
  }

  /** The combinator a document stands for, when it is one. */
  predicate IsCombinator(f: Bson, op: string) {
    f.Doc? && |f.fields| == 1 && f.fields[0].key == op && f.fields[0].val.Arr?
  }

  /** What the store reads a filter as: {} matches every document, $and
      needs every member to match, $or one of them; any other document is a
      condition on fields, judged by leaf. */
  predicate Eval(f: Bson, leaf: Bson -> bool)
    decreases f
  {
    if f == Doc([]) then true
    else if IsCombinator(f, "$and") then
      var items := f.fields[0].val.items;
      forall i :: 0 <= i < |items| ==> Eval(items[i], leaf)
    else if IsCombinator(f, "$or") then
      var items := f.fields[0].val.items;
      exists i :: 0 <= i < |items| && Eval(items[i], leaf)
    else leaf(f)
  }

  /** Collapsing a one-member OR list does not change what it matches. */
  lemma EvalOrOf(conds: seq<Bson>, leaf: Bson -> bool)
    ensures Eval(OrOf(conds), leaf) <==> exists i :: 0 <= i < |conds| && Eval(conds[i], leaf)
  {
    if |conds| == 1 {
      assert Eval(conds[0], leaf) ==> exists i :: 0 <= i < |conds| && Eval(conds[i], leaf);
    } else {
      var f := Pair("$or", Arr(conds));
      assert IsCombinator(f, "$or") && !IsCombinator(f, "$and") && f != Doc([]);
    }
  }

  /** Neither does collapsing the AND list, and {} matches everything. */
  lemma EvalAndOf(conds: seq<Bson>, leaf: Bson -> bool)
    ensures Eval(AndOf(conds), leaf) <==> forall i :: 0 <= i < |conds| ==> Eval(conds[i], leaf)
  {
    if |conds| > 1 {
      var f := Pair("$and", Arr(conds));
      assert IsCombinator(f, "$and") && f != Doc([]);
    }
  }
}
