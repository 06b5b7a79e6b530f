/** JSON values as JavaScript sees them: an object lists its entries in insertion order. */
module Json {
  import opened Wrappers
  import opened Sequences
  import opened Sorting
  import Strings

  type Fields = seq<(string, Value)>

  /** A number is its canonical decimal text, so that `String(n)` is at hand. */
  datatype Value =
    | Null
    | Bool(truth: bool)
    | Num(text: string)
    | Str(chars: string)
    | Arr(items: seq<Value>)
    | Obj(fields: Fields)

  // ----- Objects as ordered lists of entries

  ghost predicate DistinctKeys<V>(fields: seq<(string, V)>) {
    forall i, j :: 0 <= i < j < |fields| ==> fields[i].0 != fields[j].0
  }

  function Lookup(fields: Fields, key: string): (r: Option<Value>)
  {
    if fields == [] then None
    else if fields[0].0 == key then Some(fields[0].1)
    else Lookup(fields[1..], key)
  }

  /** `obj[key] = value`: an existing entry keeps its place, a new one goes last. */
  function Put(fields: Fields, key: string, value: Value): (r: Fields)
    ensures forall i :: 0 <= i < |r| ==> r[i] == (key, value) || r[i] in fields
  {
    if fields == [] then [(key, value)]
    else if fields[0].0 == key then [(key, value)] + fields[1..]
    else [fields[0]] + Put(fields[1..], key, value)
  }

  /** `delete obj[key]`. */
  function Delete(fields: Fields, key: string): (r: Fields) {
    Filter((f: (string, Value)) => f.0 != key, fields)
  }

  lemma {:induction false} PutThenLookup(fields: Fields, key: string, value: Value)
    ensures Lookup(Put(fields, key, value), key) == Some(value)
    ensures forall k :: k != key ==> Lookup(Put(fields, key, value), k) == Lookup(fields, k)
  {
    if fields != [] && fields[0].0 != key { PutThenLookup(fields[1..], key, value); }
  }

  lemma {:induction false} PutExisting(fields: Fields, key: string, value: Value)
    requires Lookup(fields, key) == Some(value)
    ensures Put(fields, key, value) == fields
  {
    if fields[0].0 != key { PutExisting(fields[1..], key, value); }
  }

  lemma {:induction false} PutKeepsDistinct(fields: Fields, key: string, value: Value)
    requires DistinctKeys(fields)
    ensures DistinctKeys(Put(fields, key, value))
  {
    if fields != [] && fields[0].0 != key {
      PutKeepsDistinct(fields[1..], key, value);
      var rest := Put(fields[1..], key, value);
      forall i | 0 <= i < |rest| ensures rest[i].0 != fields[0].0 {
        if rest[i] in fields[1..] {
          var k :| 0 <= k < |fields[1..]| && fields[1..][k] == rest[i];
          assert fields[k + 1] == rest[i];
        }
      }
    }
  }

  lemma {:induction false} FilterKeepsDistinct(p: ((string, Value)) -> bool, fields: Fields)
    requires DistinctKeys(fields)
    ensures DistinctKeys(Filter(p, fields))
  {
    if fields != [] {
      FilterKeepsDistinct(p, fields[1..]);
      var rest := Filter(p, fields[1..]);
      forall i | 0 <= i < |rest| ensures rest[i].0 != fields[0].0 {
        var k :| 0 <= k < |fields[1..]| && fields[1..][k] == rest[i];
        assert fields[k + 1] == rest[i];
      }
    }
  }

  // ----- Key sorting and what it keeps

  predicate FieldLe(a: (string, Value), b: (string, Value)) {
    Strings.Le(a.0, b.0)
  }

  /** The key-sorting pass over a configuration value. */
  function SortKeys(v: Value): (r: Value)
    decreases v
  {
    match v
    case Arr(items) => Arr(seq(|items|, i requires 0 <= i < |items| => SortKeys(items[i])))
    case Obj(fields) =>
      Obj(SortBy(seq(|fields|, i requires 0 <= i < |fields| => (fields[i].0, SortKeys(fields[i].1))), FieldLe))
    case _ => v
  }

  /** What a value says, with the order of object entries forgotten. */
  datatype Meaning =
    | MNull
    | MBool(truth: bool)
    | MNum(text: string)
    | MStr(chars: string)
    | MArr(items: seq<Meaning>)
    | MObj(entries: multiset<(string, Meaning)>)

  ghost function MeaningOf(v: Value): Meaning
    decreases v
  {
    match v
    case Null => MNull
    case Bool(b) => MBool(b)
    case Num(t) => MNum(t)
    case Str(s) => MStr(s)
    case Arr(items) => MArr(seq(|items|, i requires 0 <= i < |items| => MeaningOf(items[i])))
    case Obj(fields) =>
      MObj(multiset(seq(|fields|, i requires 0 <= i < |fields| => (fields[i].0, MeaningOf(fields[i].1)))))
  }

  /** No object repeats a key, at any depth. */
  ghost predicate WellFormed(v: Value)
    decreases v
  {
    match v
    case Arr(items) => forall i :: 0 <= i < |items| ==> WellFormed(items[i])
    case Obj(fields) =>
      && DistinctKeys(fields)
      && forall i :: 0 <= i < |fields| ==> WellFormed(fields[i].1)
    case _ => true
  }

  function SortField(f: (string, Value)): (string, Value) { (f.0, SortKeys(f.1)) }

  ghost function FieldMeaning(f: (string, Value)): (string, Meaning) { (f.0, MeaningOf(f.1)) }

  lemma ObjectUnfolds(fields: Fields)
    ensures SortKeys(Obj(fields)) == Obj(SortBy(Map(SortField, fields), FieldLe))
    ensures MeaningOf(Obj(fields)) == MObj(multiset(Map(FieldMeaning, fields)))
  {
    assert seq(|fields|, i requires 0 <= i < |fields| => (fields[i].0, SortKeys(fields[i].1))) == Map(SortField, fields);
    assert seq(|fields|, i requires 0 <= i < |fields| => (fields[i].0, MeaningOf(fields[i].1))) == Map(FieldMeaning, fields);
  }

  lemma FieldOrderIsTotal()
    ensures TotalPreorder(FieldLe)
  {
    Strings.OrdersAreTotal();
  }

  lemma {:induction false} SortedItemsKeepMeaning(items: seq<Value>)
    requires forall i :: 0 <= i < |items| ==> MeaningOf(SortKeys(items[i])) == MeaningOf(items[i])
    ensures MeaningOf(SortKeys(Arr(items))) == MeaningOf(Arr(items))
  {
    var sorted := SortKeys(Arr(items)).items;
    assert |sorted| == |items| && forall i :: 0 <= i < |items| ==> sorted[i] == SortKeys(items[i]);
  }

  lemma {:induction false} SortedFieldsKeepMeaning(fields: Fields)
    requires forall i :: 0 <= i < |fields| ==> MeaningOf(SortKeys(fields[i].1)) == MeaningOf(fields[i].1)
    ensures Map(FieldMeaning, Map(SortField, fields)) == Map(FieldMeaning, fields)
  {
    forall i | 0 <= i < |fields| ensures FieldMeaning(SortField(fields[i])) == FieldMeaning(fields[i]) { }
  }

  lemma {:induction false} SortedObjectKeepsMeaning(fields: Fields)
    requires Map(FieldMeaning, Map(SortField, fields)) == Map(FieldMeaning, fields)
    ensures MeaningOf(SortKeys(Obj(fields))) == MeaningOf(Obj(fields))
  {
    var sorted := SortBy(Map(SortField, fields), FieldLe);
    ObjectUnfolds(fields);
    ObjectUnfolds(sorted);
    BagOfMap(FieldMeaning, sorted, Map(SortField, fields));
  }

  /** Sorting keys never changes what a value says. */
  lemma {:induction false} SortKeysKeepsMeaning(v: Value)
    ensures MeaningOf(SortKeys(v)) == MeaningOf(v)
    decreases v
  {
    match v
    case Arr(items) =>
      forall i | 0 <= i < |items| ensures MeaningOf(SortKeys(items[i])) == MeaningOf(items[i]) { SortKeysKeepsMeaning(items[i]); }
      SortedItemsKeepMeaning(items);
    case Obj(fields) =>
      forall i | 0 <= i < |fields| ensures MeaningOf(SortKeys(fields[i].1)) == MeaningOf(fields[i].1) { SortKeysKeepsMeaning(fields[i].1); }
      SortedFieldsKeepMeaning(fields);
      SortedObjectKeepsMeaning(fields);
    case _ =>
  }

  lemma DistinctKeysNeverTie(fields: Fields)
    requires DistinctKeys(fields)
    ensures AntisymmetricOn(fields, FieldLe)
  {
    forall x, y | x in fields && y in fields && FieldLe(x, y) && FieldLe(y, x) ensures x == y {
      Strings.LeTotal(x.0, y.0);
    }
  }

  lemma SortedObjectsAgree(f: Fields, g: Fields)
    requires DistinctKeys(f)
    requires multiset(Map(FieldMeaning, f)) == multiset(Map(FieldMeaning, g))
    requires forall x, y :: x in f && y in g && FieldMeaning(x) == FieldMeaning(y) ==> SortField(x) == SortField(y)
    ensures SortBy(Map(SortField, f), FieldLe) == SortBy(Map(SortField, g), FieldLe)
  {
    BagFactor(f, g, FieldMeaning, SortField);
    FieldOrderIsTotal();
    assert DistinctKeys(Map(SortField, f));
    DistinctKeysNeverTie(Map(SortField, f));
    SortByDependsOnBag(Map(SortField, f), Map(SortField, g), FieldLe);
  }

  /** Two well-formed values that say the same thing have the same key-sorted form. */
  lemma {:induction false} MeaningDeterminesSortKeys(a: Value, b: Value)
    requires WellFormed(a) && WellFormed(b)
    requires MeaningOf(a) == MeaningOf(b)
    ensures SortKeys(a) == SortKeys(b)
    decreases a
  {
    match a
    case Arr(items) =>
      assert |items| == |MeaningOf(a).items| == |b.items|;
      forall i | 0 <= i < |items| ensures SortKeys(items[i]) == SortKeys(b.items[i]) {
        assert MeaningOf(a).items[i] == MeaningOf(b).items[i];
        MeaningDeterminesSortKeys(items[i], b.items[i]);
      }
    case Obj(fields) =>
      ObjectUnfolds(fields);
      ObjectUnfolds(b.fields);
      forall x, y | x in fields && y in b.fields && FieldMeaning(x) == FieldMeaning(y)
        ensures SortField(x) == SortField(y)
      {
        MeaningDeterminesSortKeys(x.1, y.1);
      }
      SortedObjectsAgree(fields, b.fields);
    case _ =>
  }

  /** Key sorting is a normal form: equal results, equal meanings, and conversely. */
  lemma SortKeysIsNormalForm(a: Value, b: Value)
    requires WellFormed(a) && WellFormed(b)
    ensures SortKeys(a) == SortKeys(b) <==> MeaningOf(a) == MeaningOf(b)
  {
    SortKeysKeepsMeaning(a);
    SortKeysKeepsMeaning(b);
    if MeaningOf(a) == MeaningOf(b) { MeaningDeterminesSortKeys(a, b); }
  }

  // ----- `String(value)` and truthiness

  predicate Truthy(v: Value) {
    match v
    case Null => false
    case Bool(b) => b
    case Num(t) => t != "0"
    case Str(s) => s != ""
    case _ => true
  }

  function Text(v: Value): string
    decreases v, 0
  {
    match v
    case Null => "null"
    case Bool(b) => if b then "true" else "false"
    case Num(t) => t
    case Str(s) => s
    case Arr(items) => JoinTexts(items)
    case Obj(_) => "[object Object]"
  }

  /** `items.join(',')`, where `null` elements print as nothing. */
  function JoinTexts(items: seq<Value>): string
    decreases items, 1
  {
    if items == [] then ""
    else
      var first := if items[0].Null? then "" else Text(items[0]);
      if |items| == 1 then first else first + "," + JoinTexts(items[1..])
  }

  /** `String(value || '')`. */
  function TextOrEmpty(v: Value): string {
    if Truthy(v) then Text(v) else ""
  }
}
