/** PHP arrays with string keys, as the layer uses them for rows, value maps,
    projections and callback registries: an ordered list of entries in which
    assigning to a present key overwrites it in place, assigning to a new key
    appends it, and unset removes it. */
module Assoc {
  import opened Values

  datatype Entry<V> = Entry(key: string, val: V)

  /** A row of a result set. */
  type Row = seq<Entry<Value>>

  function Keys<V>(a: seq<Entry<V>>): (ks: seq<string>)
    ensures |ks| == |a|
    ensures forall i :: 0 <= i < |a| ==> ks[i] == a[i].key
  {
    seq(|a|, i requires 0 <= i < |a| => a[i].key)
  }

  predicate UniqueKeys<V>(a: seq<Entry<V>>) {
    forall i, j :: 0 <= i < j < |a| ==> a[i].key != a[j].key
  }

  predicate Has<V>(a: seq<Entry<V>>, k: string) {
    k in Keys(a)
  }

  /** Position of the first entry with key k, or |a|. */
  function Find<V>(a: seq<Entry<V>>, k: string): (i: nat)
    ensures i <= |a|
    ensures i < |a| ==> a[i].key == k
  {
    if |a| == 0 then 0 else if a[0].key == k then 0 else 1 + Find(a[1..], k)
  }

  /** No entry before Find's answer carries the key. */
  lemma {:induction false} FindBefore<V>(a: seq<Entry<V>>, k: string)
    ensures forall j :: 0 <= j < Find(a, k) ==> a[j].key != k
    decreases |a|
  {
    if |a| > 0 && a[0].key != k {
      FindBefore(a[1..], k);
      assert forall j :: 1 <= j < Find(a, k) ==> a[j] == a[1..][j - 1];
    }
  }

  lemma FindHas<V>(a: seq<Entry<V>>, k: string)
    ensures Has(a, k) <==> Find(a, k) < |a|
  {
    var i := Find(a, k);
    FindBefore(a, k);
    if Has(a, k) {
      var j :| 0 <= j < |a| && Keys(a)[j] == k;
      assert a[j].key == k;
    }
    if i < |a| {
      assert Keys(a)[i] == k;
    }
  }

  /** $a[$k] if the key is present. */
  function Lookup<V>(a: seq<Entry<V>>, k: string): Option<V> {
    var i := Find(a, k);
    if i < |a| then Some(a[i].val) else None
  }

  /** $a[$k] = $v */
  function Set<V>(a: seq<Entry<V>>, k: string, v: V): (r: seq<Entry<V>>)
    ensures |r| == if Find(a, k) < |a| then |a| else |a| + 1
  {
    var i := Find(a, k);
    if i < |a| then a[i := Entry(k, v)] else a + [Entry(k, v)]
  }

  /** unset($a[$k]) */
  function Unset<V>(a: seq<Entry<V>>, k: string): seq<Entry<V>> {
    var i := Find(a, k);
    if i < |a| then a[..i] + a[i + 1..] else a
  }

  /** array_merge($a, $b) for string keys: later values overwrite in place. */
  function Merge<V>(a: seq<Entry<V>>, b: seq<Entry<V>>): seq<Entry<V>>
    decreases |b|
  {
    if |b| == 0 then a else Merge(Set(a, b[0].key, b[0].val), b[1..])
  }

  /** A row's value at a key, PHP's null when the key is missing. */
  function Get(r: Row, k: string): Value {
    match Lookup(r, k)
    case Some(v) => v
    case None => Null
  }

  /** isset($r[$k]): present and not null. */
  predicate IsSet(r: Row, k: string) {
    Get(r, k) != Null
  }

  /** current($r): the first value, PHP's false-like null for an empty row. */
  function First(r: Row): Value {
    if |r| == 0 then Null else r[0].val
  }

  lemma FindSet<V>(a: seq<Entry<V>>, k: string, v: V, j: string)
    ensures j == k ==> Find(Set(a, k, v), j) == Find(a, k)
    ensures j != k && Find(a, j) < |a| ==> Find(Set(a, k, v), j) == Find(a, j)
    ensures j != k && Find(a, j) == |a| ==> Find(Set(a, k, v), j) == |Set(a, k, v)|
  {
    var r := Set(a, k, v);
    var i := Find(a, k);
    var f := Find(r, j);
    FindBefore(a, k);
    FindBefore(a, j);
    if j == k {
      assert i < |r| && r[i].key == k;
      assert forall m :: 0 <= m < i ==> r[m] == a[m];
      FindMin(r, j, i);
    } else {
      var g := Find(a, j);
      assert forall m :: 0 <= m < |a| && m != i ==> r[m] == a[m];
      if g < |a| {
        assert r[g].key == j;
        FindMin(r, j, g);
      } else {
        assert forall m :: 0 <= m < |r| ==> r[m].key != j;
      }
    }
  }

  /** Find is the least index carrying the key. */
  lemma {:induction false} FindMin<V>(a: seq<Entry<V>>, k: string, i: nat)
    requires i < |a| && a[i].key == k
    requires forall j :: 0 <= j < i ==> a[j].key != k
    ensures Find(a, k) == i
    decreases i
  {
    if i > 0 {
      assert a[0].key != k;
      FindMin(a[1..], k, i - 1);
    }
  }

  /** Reading back what was just written, and nothing else moves. */
  lemma LookupSet<V>(a: seq<Entry<V>>, k: string, v: V, j: string)
    ensures Lookup(Set(a, k, v), j) == if j == k then Some(v) else Lookup(a, j)
  {
    FindSet(a, k, v, j);
  }

  lemma GetSet(r: Row, k: string, v: Value, j: string)
    ensures Get(Set(r, k, v), j) == if j == k then v else Get(r, j)
  {
    LookupSet(r, k, v, j);
  }

  /** Overwriting keeps every key in place; a new key goes last. */
  lemma KeysSet<V>(a: seq<Entry<V>>, k: string, v: V)
    ensures Keys(Set(a, k, v)) == if Has(a, k) then Keys(a) else Keys(a) + [k]
  {
    FindHas(a, k);
  }

  lemma UniqueSet<V>(a: seq<Entry<V>>, k: string, v: V)
    requires UniqueKeys(a)
    ensures UniqueKeys(Set(a, k, v))
  {
    var i := Find(a, k);
    var r := Set(a, k, v);
    if i == |a| {
      FindBefore(a, k);
      assert forall m :: 0 <= m < |a| ==> r[m] == a[m];
    }
  }

  lemma UniqueMerge<V>(a: seq<Entry<V>>, b: seq<Entry<V>>)
    requires UniqueKeys(a)
    ensures UniqueKeys(Merge(a, b))
    decreases |b|
  {
    if |b| > 0 {
      UniqueSet(a, b[0].key, b[0].val);
      UniqueMerge(Set(a, b[0].key, b[0].val), b[1..]);
    }
  }

  /** After unset the key is gone and the other keys read the same. */
  lemma {:induction false} LookupUnset<V>(a: seq<Entry<V>>, k: string, j: string)
    requires UniqueKeys(a)
    ensures Lookup(Unset(a, k), j) == if j == k then None else Lookup(a, j)
  {
    var i := Find(a, k);
    if i < |a| {
      var r := a[..i] + a[i + 1..];
      assert forall m :: 0 <= m < i ==> r[m] == a[m];
      assert forall m :: i <= m < |r| ==> r[m] == a[m + 1];
      var g := Find(a, j);
      FindBefore(a, j);
      if j == k {
        assert forall m :: 0 <= m < |r| ==> r[m].key != k;
      } else if g < i {
        FindMin(r, j, g);
      } else if g < |a| {
        assert g > i;
        FindMin(r, j, g - 1);
      } else {
        assert forall m :: 0 <= m < |r| ==> r[m].key != j;
      }
    }
  }

  /** array_merge: a key of the second array reads its value there, any other
      key reads the first array's value. */
  lemma {:induction false} LookupMerge<V>(a: seq<Entry<V>>, b: seq<Entry<V>>, k: string)
    requires UniqueKeys(b)
    ensures Lookup(Merge(a, b), k) == if Has(b, k) then Lookup(b, k) else Lookup(a, k)
    decreases |b|
  {
    if |b| > 0 {
      var a' := Set(a, b[0].key, b[0].val);
      var b' := b[1..];
      assert UniqueKeys(b');
      LookupMerge(a', b', k);
      LookupSet(a, b[0].key, b[0].val, k);
      FindHas(b, k);
      FindHas(b', k);
      if k == b[0].key {
        assert !Has(b', k) by {
          assert forall m :: 0 <= m < |b'| ==> b'[m] == b[m + 1];
        }
      } else if Has(b', k) {
        var g := Find(b', k);
        assert b[g + 1].key == k;
        FindMin(b, k, g + 1);
      } else {
        assert forall m :: 0 < m < |b| ==> b[m] == b'[m - 1];
      }
    }
  }

  /** array_merge keeps the first array's keys where they were. */
  lemma {:induction false} MergeKeepsPrefix<V>(a: seq<Entry<V>>, b: seq<Entry<V>>)
    ensures |Merge(a, b)| >= |a|
    ensures forall i :: 0 <= i < |a| ==> Merge(a, b)[i].key == a[i].key
    decreases |b|
  {
    if |b| > 0 {
      var a' := Set(a, b[0].key, b[0].val);
      MergeKeepsPrefix(a', b[1..]);
    }
  }

  /** array_merge of arrays with no key in common is plain concatenation. */
  lemma {:induction false} MergeFresh<V>(a: seq<Entry<V>>, b: seq<Entry<V>>)
    requires UniqueKeys(b)
    requires forall i :: 0 <= i < |b| ==> !Has(a, b[i].key)
    ensures Merge(a, b) == a + b
    decreases |b|
  {
    if |b| > 0 {
      MergeFreshHead(a, b);
      MergeFreshTail(a, b);
      MergeFresh(a + [b[0]], b[1..]);
      HeadSplit(a, b);
    }
  }

  lemma HeadSplit<T>(a: seq<T>, b: seq<T>)
    requires |b| > 0
    ensures a + [b[0]] + b[1..] == a + b
  {
    assert [b[0]] + b[1..] == b;
  }

  lemma MergeFreshHead<V>(a: seq<Entry<V>>, b: seq<Entry<V>>)
    requires |b| > 0 && !Has(a, b[0].key)
    ensures Merge(a, b) == Merge(a + [b[0]], b[1..])
  {
    FindHas(a, b[0].key);
    assert Set(a, b[0].key, b[0].val) == a + [b[0]];
  }

  lemma MergeFreshTail<V>(a: seq<Entry<V>>, b: seq<Entry<V>>)
    requires |b| > 0 && UniqueKeys(b)
    requires forall i :: 0 <= i < |b| ==> !Has(a, b[i].key)
    ensures UniqueKeys(b[1..])
    ensures forall i :: 0 <= i < |b| - 1 ==> !Has(a + [b[0]], b[1..][i].key)
  {
    forall i | 0 <= i < |b| - 1 ensures !Has(a + [b[0]], b[1..][i].key) {
      assert b[1..][i] == b[i + 1];
      HasSnoc(a, b[0], b[i + 1].key);
    }
  }

  lemma HasSnoc<V>(a: seq<Entry<V>>, x: Entry<V>, k: string)
    ensures Has(a + [x], k) <==> Has(a, k) || x.key == k
  {
    assert Keys(a + [x]) == Keys(a) + [x.key];
  }

  // --------------------------------------------------- integer keys

  /** A key PHP stores as an integer: the canonical decimal text of one.
      Integer keys are kept here as that text, so the key 5 and the key "5"
      are one key, as in PHP. */
  predicate IntKey(k: string) {
    IntToStr(DecimalPrefix(k)) == k
  }

  lemma IntKeyOf(i: int)
    ensures IntKey(IntToStr(i)) && DecimalPrefix(IntToStr(i)) == i
  {
    DecimalPrefixIntToStr(i);
  }

  /** The index $a[] = v takes: one past the largest integer key, and
      never below 0. */
  function NextIndex<V>(a: seq<Entry<V>>): (n: int)
    ensures n >= 0
    ensures forall i :: 0 <= i < |a| && IntKey(a[i].key) ==> DecimalPrefix(a[i].key) < n
    decreases |a|
  {
    if |a| == 0 then 0
    else
      var init := a[..|a| - 1];
      var p := NextIndex(init);
      var k := a[|a| - 1].key;
      assert forall i :: 0 <= i < |init| ==> init[i] == a[i];
      if IntKey(k) && DecimalPrefix(k) + 1 > p then DecimalPrefix(k) + 1 else p
  }

  /** $a[] = v */
  function Push<V>(a: seq<Entry<V>>, v: V): seq<Entry<V>> {
    a + [Entry(IntToStr(NextIndex(a)), v)]
  }

  /** The pushed key is new: pushing is assigning to a fresh integer key. */
  lemma PushFresh<V>(a: seq<Entry<V>>, v: V)
    ensures !Has(a, IntToStr(NextIndex(a)))
    ensures Push(a, v) == Set(a, IntToStr(NextIndex(a)), v)
    ensures UniqueKeys(a) ==> UniqueKeys(Push(a, v))
  {
    var n := NextIndex(a);
    IntKeyOf(n);
    assert forall i :: 0 <= i < |a| ==> a[i].key != IntToStr(n);
    FindHas(a, IntToStr(n));
  }

  /** The values of an array, in order. */
  function Vals<V>(a: seq<Entry<V>>): (vs: seq<V>)
    ensures |vs| == |a| && forall i :: 0 <= i < |a| ==> vs[i] == a[i].val
    decreases |a|
  {
    if |a| == 0 then [] else Vals(a[..|a| - 1]) + [a[|a| - 1].val]
  }

  /** The entries of b added to r as array_merge adds them: an integer key
      is renumbered with the next index, a string key is assigned. */
  function AppendAll<V>(r: seq<Entry<V>>, b: seq<Entry<V>>): seq<Entry<V>>
    decreases |b|
  {
    if |b| == 0 then r
    else
      var p := AppendAll(r, b[..|b| - 1]);
      var e := b[|b| - 1];
      if IntKey(e.key) then Push(p, e.val) else Set(p, e.key, e.val)
  }

  /** Adding a single entry. */
  lemma AppendAllOne<V>(r: seq<Entry<V>>, e: Entry<V>)
    ensures AppendAll(r, [e]) == if IntKey(e.key) then Push(r, e.val) else Set(r, e.key, e.val)
  {
    assert [e][..0] == [];
  }

  /** array_merge(a, b) */
  function ArrayMerge<V>(a: seq<Entry<V>>, b: seq<Entry<V>>): seq<Entry<V>> {
    AppendAll(AppendAll([], a), b)
  }

  /** The list [v0, v1, ...] as an array. */
  function ListEntries<V>(vs: seq<V>): (r: seq<Entry<V>>)
    ensures |r| == |vs| && forall i :: 0 <= i < |vs| ==> r[i] == Entry(IntToStr(i), vs[i])
  {
    seq(|vs|, i requires 0 <= i < |vs| => Entry(IntToStr(i), vs[i]))
  }

  /** Every key after adding b is one of r's, an integer key, or one of b's. */
  lemma {:induction false} AppendAllKeys<V>(r: seq<Entry<V>>, b: seq<Entry<V>>, k: string)
    requires Has(AppendAll(r, b), k)
    ensures Has(r, k) || IntKey(k) || exists i :: 0 <= i < |b| && b[i].key == k
    decreases |b|
  {
    if |b| > 0 {
      var init := b[..|b| - 1];
      var p := AppendAll(r, init);
      AppendOneKeys(p, b[|b| - 1], k);
      if Has(p, k) {
        AppendAllKeys(r, init, k);
        if exists i :: 0 <= i < |init| && init[i].key == k {
          var i :| 0 <= i < |init| && init[i].key == k;
          assert b[i] == init[i];
        }
      }
    }
  }

  /** The keys after adding one entry e. */
  lemma AppendOneKeys<V>(p: seq<Entry<V>>, e: Entry<V>, k: string)
    requires Has(if IntKey(e.key) then Push(p, e.val) else Set(p, e.key, e.val), k)
    ensures Has(p, k) || IntKey(k) || e.key == k
  {
    if IntKey(e.key) {
      KeysSet(p, IntToStr(NextIndex(p)), e.val);
      PushFresh(p, e.val);
      IntKeyOf(NextIndex(p));
    } else {
      KeysSet(p, e.key, e.val);
    }
  }

  /** One entry added by array_merge: it goes last, under the next index
      or under its own key when that key is new. */
  lemma AppendStep<V>(p: seq<Entry<V>>, e: Entry<V>)
    requires IntKey(e.key) || !Has(p, e.key)
    ensures (if IntKey(e.key) then Push(p, e.val) else Set(p, e.key, e.val)) ==
      p + [Entry(if IntKey(e.key) then IntToStr(NextIndex(p)) else e.key, e.val)]
  {
    FindHas(p, e.key);
  }

  /** The entry array_merge adds for e, when it goes last. */
  function Added<V>(p: seq<Entry<V>>, e: Entry<V>): Entry<V> {
    Entry(if IntKey(e.key) then IntToStr(NextIndex(p)) else e.key, e.val)
  }

  /** When b's string keys are distinct and new to r, adding b appends one
      entry per entry of b. */
  lemma {:induction false} AppendAllGrows<V>(r: seq<Entry<V>>, b: seq<Entry<V>>)
    requires UniqueKeys(b)
    requires forall i :: 0 <= i < |b| && !IntKey(b[i].key) ==> !Has(r, b[i].key)
    ensures |b| > 0 ==> AppendAll(r, b) == AppendAll(r, b[..|b| - 1]) + [Added(AppendAll(r, b[..|b| - 1]), b[|b| - 1])]
    ensures |AppendAll(r, b)| == |r| + |b|
    decreases |b|
  {
    if |b| > 0 {
      var init := b[..|b| - 1];
      var p := AppendAll(r, init);
      var e := b[|b| - 1];
      assert forall i :: 0 <= i < |init| ==> init[i] == b[i];
      AppendAllGrows(r, init);
      assert IntKey(e.key) || !Has(p, e.key) by {
        if !IntKey(e.key) && Has(p, e.key) {
          AppendAllKeys(r, init, e.key);
        }
      }
      AppendStep(p, e);
    }
  }

  /** ... so r is kept, and b's values follow in order. */
  lemma ValsSnoc<V>(p: seq<Entry<V>>, x: Entry<V>)
    ensures Vals(p + [x]) == Vals(p) + [x.val]
  {
    assert (p + [x])[..|p|] == p;
  }

  /** One step of adding b: if p holds r's values then init's, p with b's
      last entry appended holds r's values then b's. */
  lemma ValsStep<V>(r: seq<Entry<V>>, b: seq<Entry<V>>, p: seq<Entry<V>>, x: Entry<V>)
    requires |b| > 0 && x.val == b[|b| - 1].val
    requires Vals(p) == Vals(r) + Vals(b[..|b| - 1])
    ensures Vals(p + [x]) == Vals(r) + Vals(b)
  {
    ValsSnoc(p, x);
    assert Vals(b) == Vals(b[..|b| - 1]) + [x.val];
    SeqAssoc(Vals(r), Vals(b[..|b| - 1]), [x.val]);
  }

  /** Adding b keeps r's values and appends b's, in b's order. */
  lemma {:induction false} AppendAllVals<V>(r: seq<Entry<V>>, b: seq<Entry<V>>)
    requires UniqueKeys(b)
    requires forall i :: 0 <= i < |b| && !IntKey(b[i].key) ==> !Has(r, b[i].key)
    ensures Vals(AppendAll(r, b)) == Vals(r) + Vals(b)
    decreases |b|
  {
    if |b| > 0 {
      var init := b[..|b| - 1];
      assert forall i :: 0 <= i < |init| ==> init[i] == b[i];
      AppendAllVals(r, init);
      AppendAllGrows(r, b);
      var p := AppendAll(r, init);
      ValsStep(r, b, p, Added(p, b[|b| - 1]));
    }
  }

  /** A list's keys 0, 1, ... are distinct integer keys. */
  lemma ListEntriesKeys<V>(vs: seq<V>)
    ensures UniqueKeys(ListEntries(vs))
    ensures forall i :: 0 <= i < |vs| ==> IntKey(ListEntries(vs)[i].key)
  {
    var b := ListEntries(vs);
    forall i, j | 0 <= i < j < |b| ensures b[i].key != b[j].key {
      IntKeyOf(i);
      IntKeyOf(j);
    }
    forall i | 0 <= i < |b| ensures IntKey(b[i].key) {
      IntKeyOf(i);
    }
  }

  /** array_merge with a list appends its values after the array's own, the
      array's integer keys renumbered from 0. */
  lemma ArrayMergeList<V>(a: seq<Entry<V>>, vs: seq<V>)
    requires UniqueKeys(a)
    ensures Vals(ArrayMerge(a, ListEntries(vs))) == Vals(a) + vs
  {
    var m := AppendAll([], a);
    var b := ListEntries(vs);
    assert Vals(m) == Vals(a) by {
      AppendAllVals([], a);
    }
    assert Vals(AppendAll(m, b)) == Vals(m) + Vals(b) by {
      ListEntriesKeys(vs);
      AppendAllVals(m, b);
    }
    assert Vals(b) == vs;
  }

  /** array_merge never produces a duplicate key. */
  lemma {:induction false} AppendAllUnique<V>(r: seq<Entry<V>>, b: seq<Entry<V>>)
    requires UniqueKeys(r)
    ensures UniqueKeys(AppendAll(r, b))
    decreases |b|
  {
    if |b| > 0 {
      var p := AppendAll(r, b[..|b| - 1]);
      var e := b[|b| - 1];
      AppendAllUnique(r, b[..|b| - 1]);
      if IntKey(e.key) {
        PushFresh(p, e.val);
      } else {
        UniqueSet(p, e.key, e.val);
      }
    }
  }

  lemma ArrayMergeUnique<V>(a: seq<Entry<V>>, b: seq<Entry<V>>)
    ensures UniqueKeys(ArrayMerge(a, b))
  {
    AppendAllUnique([], a);
    AppendAllUnique(AppendAll([], a), b);
  }

  /** The first entry with key k in p + [x]: p's, if it has one, else x. */
  lemma {:induction false} FindSnoc<V>(p: seq<Entry<V>>, x: Entry<V>, k: string)
    ensures Find(p + [x], k) == if Find(p, k) < |p| then Find(p, k) else if x.key == k then |p| else |p| + 1
    decreases |p|
  {
    if |p| > 0 {
      assert (p + [x])[1..] == p[1..] + [x];
      FindSnoc(p[1..], x, k);
    }
  }

  lemma LookupSnoc<V>(p: seq<Entry<V>>, x: Entry<V>, k: string)
    ensures Lookup(p + [x], k) == if Has(p, k) then Lookup(p, k) else if x.key == k then Some(x.val) else None
  {
    FindSnoc(p, x, k);
    FindHas(p, k);
  }

  /** array_merge on a string key: the added array's value when it has the
      key, the first array's otherwise. Integer keys are renumbered instead,
      so they get no such reading. */
  lemma {:induction false} LookupAppendAll<V>(r: seq<Entry<V>>, b: seq<Entry<V>>, k: string)
    requires !IntKey(k) && UniqueKeys(b)
    ensures Lookup(AppendAll(r, b), k) == if Has(b, k) then Lookup(b, k) else Lookup(r, k)
    decreases |b|
  {
    if |b| > 0 {
      var init := b[..|b| - 1];
      var e := b[|b| - 1];
      assert b == init + [e];
      assert UniqueKeys(init);
      LookupAppendAll(r, init, k);
      AppendOneLookup(AppendAll(r, init), e, k);
      HasSnoc(init, e, k);
      LookupSnoc(init, e, k);
      if e.key == k {
        assert forall j :: 0 <= j < |init| ==> init[j].key != k by {
          assert forall j :: 0 <= j < |init| ==> init[j] == b[j];
        }
        assert !Has(init, k);
      }
    }
  }

  /** Adding one entry, read at a string key. */
  lemma AppendOneLookup<V>(p: seq<Entry<V>>, e: Entry<V>, k: string)
    requires !IntKey(k)
    ensures Lookup(if IntKey(e.key) then Push(p, e.val) else Set(p, e.key, e.val), k)
      == if e.key == k then Some(e.val) else Lookup(p, k)
  {
    if IntKey(e.key) {
      PushFresh(p, e.val);
      IntKeyOf(NextIndex(p));
      LookupSet(p, IntToStr(NextIndex(p)), e.val, k);
    } else {
      LookupSet(p, e.key, e.val, k);
    }
  }

  /** array_merge(a, b) on a string key. */
  lemma LookupArrayMerge<V>(a: seq<Entry<V>>, b: seq<Entry<V>>, k: string)
    requires !IntKey(k) && UniqueKeys(a) && UniqueKeys(b)
    ensures Lookup(ArrayMerge(a, b), k) == if Has(b, k) then Lookup(b, k) else Lookup(a, k)
  {
    LookupAppendAll([], a, k);
    LookupAppendAll(AppendAll([], a), b, k);
    FindHas(a, k);
  }

  /** array_merge(a, b) when b's string keys are new to a: every entry of b
      is added, its values after a's. */
  lemma ArrayMergeFresh<V>(a: seq<Entry<V>>, b: seq<Entry<V>>)
    requires UniqueKeys(a) && UniqueKeys(b)
    requires forall i :: 0 <= i < |b| && !IntKey(b[i].key) ==> !Has(a, b[i].key)
    ensures |ArrayMerge(a, b)| == |a| + |b| && Vals(ArrayMerge(a, b)) == Vals(a) + Vals(b)
  {
    var m := AppendAll([], a);
    assert |m| == |a| by {
      AppendAllGrows([], a);
    }
    assert Vals(m) == Vals(a) by {
      AppendAllVals([], a);
    }
    assert forall i :: 0 <= i < |b| && !IntKey(b[i].key) ==> !Has(m, b[i].key) by {
      forall i | 0 <= i < |b| && !IntKey(b[i].key)
        ensures !Has(m, b[i].key)
      {
        RenumberedFresh(a, b[i].key);
      }
    }
    assert |AppendAll(m, b)| == |m| + |b| by {
      AppendAllGrows(m, b);
    }
    AppendAllVals(m, b);
  }

  /** A string key that a lacks is still missing once a is renumbered. */
  lemma RenumberedFresh<V>(a: seq<Entry<V>>, k: string)
    requires !IntKey(k) && !Has(a, k)
    ensures !Has(AppendAll([], a), k)
  {
    if Has(AppendAll([], a), k) {
      AppendAllKeys([], a, k);
      HasAt(a, k);
    }
  }

  lemma HasAt<V>(a: seq<Entry<V>>, k: string)
    requires exists i :: 0 <= i < |a| && a[i].key == k
    ensures Has(a, k)
  {
    var i :| 0 <= i < |a| && a[i].key == k;
    assert Keys(a)[i] == k;
  }
}
