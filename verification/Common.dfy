/** Values that may be absent, and outcomes that may be errors. */
module Wrappers {
  datatype Option<+T> = None | Some(value: T) {
    function GetOr(default: T): T {
      if Some? then value else default
    }
  }

  datatype Result<+T, +E> = Ok(value: T) | Err(error: E)
}

/** Mapping and filtering of sequences, and how they act on the bag of elements. */
module Sequences {
  import opened Wrappers

  function Map<A, B>(f: A -> B, s: seq<A>): (r: seq<B>)
    ensures |r| == |s|
  {
    seq(|s|, i requires 0 <= i < |s| => f(s[i]))
  }

  function Filter<A>(p: A -> bool, s: seq<A>): (r: seq<A>)
    ensures forall i :: 0 <= i < |r| ==> r[i] in s && p(r[i])
  {
    if s == [] then []
    else if p(s[0]) then [s[0]] + Filter(p, s[1..])
    else Filter(p, s[1..])
  }

  lemma {:induction false} FilterAppend<A>(p: A -> bool, s: seq<A>, t: seq<A>)
    ensures Filter(p, s + t) == Filter(p, s) + Filter(p, t)
  {
    if s == [] {
      assert s + t == t;
    } else {
      FilterAppend(p, s[1..], t);
      assert (s + t)[1..] == s[1..] + t;
    }
  }

  lemma {:induction false} FilterHas<A>(p: A -> bool, s: seq<A>)
    ensures forall x :: x in Filter(p, s) <==> x in s && p(x)
  {
    if s != [] { FilterHas(p, s[1..]); }
  }

  lemma {:induction false} FilterOne<A>(p: A -> bool, x: A)
    ensures Filter(p, [x]) == if p(x) then [x] else []
  {
    assert [x][1..] == [];
  }

  lemma {:induction false} FilterSnoc<A>(p: A -> bool, s: seq<A>)
    requires s != []
    ensures Filter(p, s) == Filter(p, s[..|s| - 1]) + if p(s[|s| - 1]) then [s[|s| - 1]] else []
  {
    FilterAppend(p, s[..|s| - 1], [s[|s| - 1]]);
    FilterOne(p, s[|s| - 1]);
    assert s == s[..|s| - 1] + [s[|s| - 1]];
  }

  lemma MapCons<A, B>(f: A -> B, x: A, s: seq<A>)
    ensures Map(f, [x] + s) == [f(x)] + Map(f, s)
  {
  }

  lemma MapConsEqual<A, B>(f: A -> B, x: A, s: seq<A>, y: A, t: seq<A>)
    ensures Map(f, [x] + s) == Map(f, [y] + t) <==> f(x) == f(y) && Map(f, s) == Map(f, t)
  {
    MapCons(f, x, s);
    MapCons(f, y, t);
    var l, r := [f(x)] + Map(f, s), [f(y)] + Map(f, t);
    if l == r { assert l[0] == r[0] && l[1..] == r[1..]; }
  }

  lemma BagWithout<A>(s: seq<A>, j: nat)
    requires j < |s|
    ensures multiset(s) == multiset(s[..j] + s[j + 1..]) + multiset{s[j]}
  {
    assert s == s[..j] + [s[j]] + s[j + 1..];
  }

  lemma MapBagWithout<A, B>(f: A -> B, s: seq<A>, j: nat)
    requires j < |s|
    ensures multiset(Map(f, s)) == multiset(Map(f, s[..j] + s[j + 1..])) + multiset{f(s[j])}
  {
    BagWithout(Map(f, s), j);
    assert Map(f, s)[..j] + Map(f, s)[j + 1..] == Map(f, s[..j] + s[j + 1..]);
  }

  /** If `f` determines `g`, then the bag of `f`-images determines the bag of `g`-images. */
  lemma {:induction false} BagFactor<A, B, C>(s: seq<A>, t: seq<A>, f: A -> B, g: A -> C)
    requires multiset(Map(f, s)) == multiset(Map(f, t))
    requires forall x, y :: x in s && y in t && f(x) == f(y) ==> g(x) == g(y)
    ensures multiset(Map(g, s)) == multiset(Map(g, t))
  {
    assert |multiset(Map(f, s))| == |s| && |multiset(Map(f, t))| == |t|;
    if s != [] {
      assert Map(f, s)[0] in multiset(Map(f, t));
      var j: nat :| j < |t| && Map(f, t)[j] == f(s[0]);
      var s', t' := s[..0] + s[0 + 1..], t[..j] + t[j + 1..];
      MapBagWithout(f, s, 0);
      MapBagWithout(f, t, j);
      MapBagWithout(g, s, 0);
      MapBagWithout(g, t, j);
      assert multiset(Map(f, s')) == multiset(Map(f, s)) - multiset{f(s[0])};
      assert multiset(Map(f, t')) == multiset(Map(f, t)) - multiset{f(t[j])};
      BagFactor(s', t', f, g);
    } else {
      assert Map(g, s) == Map(g, t);
    }
  }

  lemma BagOfMap<A, B>(f: A -> B, s: seq<A>, t: seq<A>)
    requires multiset(s) == multiset(t)
    ensures multiset(Map(f, s)) == multiset(Map(f, t))
  {
    var same := (x: A) => x;
    assert Map(same, s) == s && Map(same, t) == t;
    BagFactor(s, t, same, f);
  }

  lemma SameBagSameMembers<A>(s: seq<A>, t: seq<A>)
    requires multiset(s) == multiset(t)
    ensures forall x :: x in s <==> x in t
  {
    forall x ensures x in s <==> x in t {
      assert x in s <==> x in multiset(s);
      assert x in t <==> x in multiset(t);
    }
  }

  /** The last element that satisfies `p`. */
  function LastIndex<A>(p: A -> bool, s: seq<A>): (r: Option<nat>)
    ensures r.Some? ==> r.value < |s| && p(s[r.value]) && forall j :: r.value < j < |s| ==> !p(s[j])
    ensures r.None? ==> forall j :: 0 <= j < |s| ==> !p(s[j])
  {
    if s == [] then None
    else
      var n := |s| - 1;
      assert forall j :: 0 <= j < n ==> s[..n][j] == s[j];
      if p(s[n]) then Some(n) else LastIndex(p, s[..n])
  }
}

/** The bag of values of a map, each seen through a function. */
module Bags {
  ghost function BagOf<K(!new), V(!new), T>(m: map<K, V>, f: V -> T): multiset<T>
    decreases |m|
  {
    if m == map[] then multiset{}
    else
      var k :| k in m;
      BagOf(m - {k}, f) + multiset{f(m[k])}
  }

  lemma {:induction false} BagRemove<K(!new), V(!new), T>(m: map<K, V>, f: V -> T, k: K)
    requires k in m
    ensures BagOf(m, f) == BagOf(m - {k}, f) + multiset{f(m[k])}
    decreases |m|
  {
    var k0 :| k0 in m && BagOf(m, f) == BagOf(m - {k0}, f) + multiset{f(m[k0])};
    if k != k0 {
      RemoveTwo(m, k, k0);
      BagRemove(m - {k0}, f, k);
      BagRemove(m - {k}, f, k0);
    }
  }

  lemma RemoveTwo<K, V>(m: map<K, V>, k: K, l: K)
    requires k in m && l in m && k != l
    ensures m - {k} - {l} == m - {l} - {k}
    ensures |m - {k}| < |m| && |m - {l}| < |m|
  {
    assert m.Keys == (m - {k}).Keys + {k} && m.Keys == (m - {l}).Keys + {l};
  }

  lemma {:induction false} BagPut<K(!new), V(!new), T>(m: map<K, V>, f: V -> T, k: K, v: V)
    requires k !in m
    ensures BagOf(m[k := v], f) == BagOf(m, f) + multiset{f(v)}
  {
    BagRemove(m[k := v], f, k);
    PutThenRemove(m, k, v);
  }

  lemma {:induction false} BagUpdate<K(!new), V(!new), T>(m: map<K, V>, f: V -> T, k: K, v: V)
    requires k in m && f(v) == f(m[k])
    ensures BagOf(m[k := v], f) == BagOf(m, f)
  {
    BagRemove(m, f, k);
    BagRemove(m[k := v], f, k);
    PutThenRemove(m, k, v);
  }

  lemma PutThenRemove<K, V>(m: map<K, V>, k: K, v: V)
    ensures m[k := v] - {k} == m - {k}
    ensures k !in m ==> m[k := v] - {k} == m
  {
  }

  lemma BagHas<K(!new), V(!new), T>(m: map<K, V>, f: V -> T, k: K)
    requires k in m
    ensures f(m[k]) in BagOf(m, f)
  {
    BagRemove(m, f, k);
  }

  lemma {:induction false} BagSize<K(!new), V(!new), T>(m: map<K, V>, f: V -> T)
    ensures |BagOf(m, f)| == |m|
    decreases |m|
  {
    if m != map[] {
      var k0 :| k0 in m && BagOf(m, f) == BagOf(m - {k0}, f) + multiset{f(m[k0])};
      BagSize(m - {k0}, f);
      assert m.Keys == (m - {k0}).Keys + {k0};
    }
  }
}

/** A stable sort, as JavaScript's `Array.prototype.sort` is. */
module Sorting {
  import opened Sequences

  ghost predicate TotalPreorder<T(!new)>(le: (T, T) -> bool) {
    && (forall x, y :: le(x, y) || le(y, x))
    && (forall x, y, z :: le(x, y) && le(y, z) ==> le(x, z))
  }

  ghost predicate Sorted<T>(s: seq<T>, le: (T, T) -> bool) {
    forall i, j :: 0 <= i < j < |s| ==> le(s[i], s[j])
  }

  function Insert<T>(x: T, s: seq<T>, le: (T, T) -> bool): (r: seq<T>)
    ensures multiset(r) == multiset{x} + multiset(s)
  {
    if s == [] then [x]
    else if le(x, s[0]) then [x] + s
    else
      assert s == [s[0]] + s[1..];
      [s[0]] + Insert(x, s[1..], le)
  }

  function SortBy<T>(s: seq<T>, le: (T, T) -> bool): (r: seq<T>)
    ensures multiset(r) == multiset(s)
  {
    if s == [] then []
    else
      assert s == [s[0]] + s[1..];
      Insert(s[0], SortBy(s[1..], le), le)
  }

  lemma {:induction false} InsertSorted<T(!new)>(x: T, s: seq<T>, le: (T, T) -> bool)
    requires TotalPreorder(le) && Sorted(s, le)
    ensures Sorted(Insert(x, s, le), le)
  {
    if s != [] && !le(x, s[0]) {
      InsertSorted(x, s[1..], le);
      var rest := Insert(x, s[1..], le);
      forall i | 0 <= i < |rest| ensures le(s[0], rest[i]) {
        assert rest[i] in multiset(rest);
        assert rest[i] == x || rest[i] in multiset(s[1..]);
      }
    }
  }

  lemma {:induction false} SortByIsSorted<T(!new)>(s: seq<T>, le: (T, T) -> bool)
    requires TotalPreorder(le)
    ensures Sorted(SortBy(s, le), le)
  {
    if s != [] {
      SortByIsSorted(s[1..], le);
      InsertSorted(s[0], SortBy(s[1..], le), le);
    }
  }

  ghost predicate AntisymmetricOn<T>(s: seq<T>, le: (T, T) -> bool) {
    forall x, y :: x in s && y in s && le(x, y) && le(y, x) ==> x == y
  }

  lemma BagOfTail<T>(s: seq<T>)
    requires s != []
    ensures multiset(s) == multiset(s[1..]) + multiset{s[0]}
  {
    assert s == [s[0]] + s[1..];
  }

  lemma SortedTail<T>(s: seq<T>, le: (T, T) -> bool)
    requires s != [] && Sorted(s, le)
    ensures Sorted(s[1..], le)
  {
  }

  lemma AntisymmetricTail<T>(s: seq<T>, le: (T, T) -> bool)
    requires s != [] && AntisymmetricOn(s, le)
    ensures AntisymmetricOn(s[1..], le)
  {
    forall x, y | x in s[1..] && y in s[1..] && le(x, y) && le(y, x) ensures x == y {
      assert x in s && y in s;
    }
  }

  lemma TailBagsAgree<T>(s: seq<T>, t: seq<T>)
    requires s != [] && t != [] && s[0] == t[0] && multiset(s) == multiset(t)
    ensures multiset(s[1..]) == multiset(t[1..])
  {
    BagOfTail(s);
    BagOfTail(t);
    assert multiset(s[1..]) == multiset(s) - multiset{s[0]};
    assert multiset(t[1..]) == multiset(t) - multiset{t[0]};
  }

  lemma SortedHeadsAgree<T>(s: seq<T>, t: seq<T>, le: (T, T) -> bool)
    requires Sorted(s, le) && Sorted(t, le) && multiset(s) == multiset(t) && s != [] && t != []
    requires AntisymmetricOn(s, le)
    ensures s[0] == t[0]
  {
    SameBagSameMembers(s, t);
    assert s[0] in t && t[0] in s;
  }

  /** A bag has one sorted listing when no two different elements tie. */
  lemma {:induction false} SortedListingIsUnique<T>(s: seq<T>, t: seq<T>, le: (T, T) -> bool)
    requires Sorted(s, le) && Sorted(t, le) && multiset(s) == multiset(t)
    requires AntisymmetricOn(s, le)
    ensures s == t
  {
    assert |multiset(s)| == |s| && |multiset(t)| == |t|;
    if s != [] {
      SortedHeadsAgree(s, t, le);
      TailBagsAgree(s, t);
      SortedTail(s, le);
      SortedTail(t, le);
      AntisymmetricTail(s, le);
      SortedListingIsUnique(s[1..], t[1..], le);
      assert s == [s[0]] + s[1..] && t == [t[0]] + t[1..];
    }
  }

  lemma SortByDependsOnBag<T(!new)>(s: seq<T>, t: seq<T>, le: (T, T) -> bool)
    requires TotalPreorder(le) && multiset(s) == multiset(t)
    requires AntisymmetricOn(s, le)
    ensures SortBy(s, le) == SortBy(t, le)
  {
    SortByIsSorted(s, le);
    SortByIsSorted(t, le);
    SameBagSameMembers(s, SortBy(s, le));
    SortedListingIsUnique(SortBy(s, le), SortBy(t, le), le);
  }

  lemma {:induction false} SortByOfSorted<T>(s: seq<T>, le: (T, T) -> bool)
    requires Sorted(s, le)
    ensures SortBy(s, le) == s
  {
    if s != [] {
      SortByOfSorted(s[1..], le);
      if |s| > 1 { assert le(s[0], s[1..][0]); }
    }
  }

  /** What stands in the place of each element of `s` ties with it. */
  ghost predicate TiesWith<T>(s: seq<T>, t: seq<T>, le: (T, T) -> bool) {
    |s| == |t| && forall i :: 0 <= i < |s| ==> le(s[i], t[i]) && le(t[i], s[i])
  }

  lemma TiedIsSorted<T(!new)>(s: seq<T>, t: seq<T>, le: (T, T) -> bool)
    requires TotalPreorder(le) && Sorted(s, le) && TiesWith(s, t, le)
    ensures Sorted(t, le)
  {
    forall i, j | 0 <= i < j < |t| ensures le(t[i], t[j]) {
      assert le(t[i], s[i]) && le(s[i], s[j]) && le(s[j], t[j]);
    }
  }

  /** Two different elements of a sorted list that tie, swapped: another sorted list of the same bag. */
  lemma SwapTied<T(!new)>(s: seq<T>, i: nat, j: nat, le: (T, T) -> bool) returns (t: seq<T>)
    requires TotalPreorder(le) && Sorted(s, le) && i < |s| && j < |s| && s[i] != s[j] && le(s[i], s[j]) && le(s[j], s[i])
    ensures multiset(t) == multiset(s) && Sorted(t, le) && t != s
  {
    t := s[i := s[j]][j := s[i]];
    assert t[i] == s[j];
    forall k | 0 <= k < |s| ensures le(s[k], t[k]) && le(t[k], s[k]) {
      assert le(s[k], s[k]);
    }
    TiedIsSorted(s, t, le);
  }

  /** Every listing of the bag of `s` is sorted to the same list. */
  ghost predicate ForgetsOrder<T(!new)>(s: seq<T>, le: (T, T) -> bool) {
    forall t :: multiset(t) == multiset(s) ==> SortBy(t, le) == SortBy(s, le)
  }

  /** Sorting forgets the order of a list if and only if no two different elements of it tie. */
  lemma SortForgetsOrderIff<T(!new)>(s: seq<T>, le: (T, T) -> bool)
    requires TotalPreorder(le)
    ensures ForgetsOrder(s, le) <==> AntisymmetricOn(s, le)
  {
    if AntisymmetricOn(s, le) {
      forall t | multiset(t) == multiset(s) ensures SortBy(t, le) == SortBy(s, le) { SortByDependsOnBag(s, t, le); }
    } else {
      var x, y :| x in s && y in s && le(x, y) && le(y, x) && x != y;
      var sorted := SortBy(s, le);
      SortByIsSorted(s, le);
      SameBagSameMembers(s, sorted);
      var i: nat :| i < |sorted| && sorted[i] == x;
      var j: nat :| j < |sorted| && sorted[j] == y;
      var t := SwapTied(sorted, i, j, le);
      SortByOfSorted(t, le);
      assert multiset(t) == multiset(s) && SortBy(t, le) != SortBy(s, le);
    }
  }

  ghost predicate KeepsOrder<A(!new), B>(f: A -> B, leA: (A, A) -> bool, leB: (B, B) -> bool) {
    forall a, b :: leA(a, b) == leB(f(a), f(b))
  }

  lemma {:induction false} InsertMap<A(!new), B>(f: A -> B, x: A, s: seq<A>, leA: (A, A) -> bool, leB: (B, B) -> bool)
    requires KeepsOrder(f, leA, leB)
    ensures Map(f, Insert(x, s, leA)) == Insert(f(x), Map(f, s), leB)
  {
    if s == [] {
      assert Map(f, [x]) == [f(x)];
    } else if leA(x, s[0]) {
      MapCons(f, x, s);
    } else {
      InsertMap(f, x, s[1..], leA, leB);
      MapCons(f, s[0], s[1..]);
      MapCons(f, s[0], Insert(x, s[1..], leA));
      assert s == [s[0]] + s[1..];
    }
  }

  /** Sorting commutes with a map that keeps the order. */
  lemma {:induction false} SortByMap<A(!new), B>(f: A -> B, s: seq<A>, leA: (A, A) -> bool, leB: (B, B) -> bool)
    requires KeepsOrder(f, leA, leB)
    ensures Map(f, SortBy(s, leA)) == SortBy(Map(f, s), leB)
  {
    if s == [] {
      assert Map(f, s) == [];
    } else {
      SortByMap(f, s[1..], leA, leB);
      InsertMap(f, s[0], SortBy(s[1..], leA), leA, leB);
      MapCons(f, s[0], s[1..]);
      assert s == [s[0]] + s[1..];
      assert Map(f, s)[0] == f(s[0]) && Map(f, s)[1..] == Map(f, s[1..]);
    }
  }

  lemma {:induction false} InsertFilter<T(!new)>(p: T -> bool, x: T, s: seq<T>, le: (T, T) -> bool)
    requires TotalPreorder(le) && Sorted(s, le)
    ensures Filter(p, Insert(x, s, le)) == if p(x) then Insert(x, Filter(p, s), le) else Filter(p, s)
  {
    if s != [] {
      if le(x, s[0]) {
        assert ([x] + s)[1..] == s;
        var rest := Filter(p, s);
        if rest != [] {
          assert rest[0] in s;
          assert le(x, rest[0]);
        }
      } else {
        InsertFilter(p, x, s[1..], le);
        assert ([s[0]] + Insert(x, s[1..], le))[1..] == Insert(x, s[1..], le);
      }
    }
  }

  /** A stable sort commutes with filtering. */
  lemma {:induction false} SortByFilter<T(!new)>(p: T -> bool, s: seq<T>, le: (T, T) -> bool)
    requires TotalPreorder(le)
    ensures Filter(p, SortBy(s, le)) == SortBy(Filter(p, s), le)
  {
    if s != [] {
      SortByFilter(p, s[1..], le);
      SortByIsSorted(s[1..], le);
      InsertFilter(p, s[0], SortBy(s[1..], le), le);
    }
  }
}

/** Strings: a total order on them, trimming and searching. */
module Strings {
  import opened Sorting

  predicate Le(a: string, b: string) {
    a == [] || (b != [] && (a[0] < b[0] || (a[0] == b[0] && Le(a[1..], b[1..]))))
  }

  lemma {:induction false} LeTotal(a: string, b: string)
    ensures Le(a, b) || Le(b, a)
    ensures Le(a, b) && Le(b, a) ==> a == b
  {
    if a != [] && b != [] {
      LeTotal(a[1..], b[1..]);
      assert a == [a[0]] + a[1..] && b == [b[0]] + b[1..];
    }
  }

  lemma {:induction false} LeTransitive(a: string, b: string, c: string)
    requires Le(a, b) && Le(b, c)
    ensures Le(a, c)
  {
    if a != [] && a[0] == b[0] == c[0] {
      LeTransitive(a[1..], b[1..], c[1..]);
    }
  }

  /** Lexicographic order on lists of strings. */
  predicate ListLe(a: seq<string>, b: seq<string>) {
    a == [] || (b != [] && (if a[0] == b[0] then ListLe(a[1..], b[1..]) else Le(a[0], b[0])))
  }

  lemma {:induction false} ListLeTotal(a: seq<string>, b: seq<string>)
    ensures ListLe(a, b) || ListLe(b, a)
    ensures ListLe(a, b) && ListLe(b, a) ==> a == b
  {
    if a != [] && b != [] {
      LeTotal(a[0], b[0]);
      ListLeTotal(a[1..], b[1..]);
      assert a == [a[0]] + a[1..] && b == [b[0]] + b[1..];
    }
  }

  lemma {:induction false} ListLeTransitive(a: seq<string>, b: seq<string>, c: seq<string>)
    requires ListLe(a, b) && ListLe(b, c)
    ensures ListLe(a, c)
  {
    if a != [] {
      if a[0] == b[0] == c[0] {
        ListLeTransitive(a[1..], b[1..], c[1..]);
      } else {
        LeTotal(a[0], b[0]);
        LeTotal(b[0], c[0]);
        LeTotal(a[0], c[0]);
        if a[0] != b[0] && b[0] != c[0] {
          LeTransitive(a[0], b[0], c[0]);
          if a[0] == c[0] {
            assert false;
          }
        }
      }
    }
  }

  lemma OrdersAreTotal()
    ensures TotalPreorder(Le) && TotalPreorder(ListLe)
  {
    forall a, b ensures Le(a, b) || Le(b, a) { LeTotal(a, b); }
    forall a, b, c | Le(a, b) && Le(b, c) ensures Le(a, c) { LeTransitive(a, b, c); }
    forall a, b ensures ListLe(a, b) || ListLe(b, a) { ListLeTotal(a, b); }
    forall a, b, c | ListLe(a, b) && ListLe(b, c) ensures ListLe(a, c) { ListLeTransitive(a, b, c); }
  }

  /** What `trim` removes: white space and line terminators. */
  predicate IsSpace(c: char) {
    var code := c as int;
    || 0x09 <= code <= 0x0D || code == 0x20 || code == 0xA0 || code == 0x1680 || 0x2000 <= code <= 0x200A
    || code == 0x2028 || code == 0x2029 || code == 0x202F || code == 0x205F || code == 0x3000 || code == 0xFEFF
  }

  function TrimLeft(s: string): string {
    if s != [] && IsSpace(s[0]) then TrimLeft(s[1..]) else s
  }

  function TrimRight(s: string): string {
    if s != [] && IsSpace(s[|s| - 1]) then TrimRight(s[..|s| - 1]) else s
  }

  function Trim(s: string): string {
    TrimRight(TrimLeft(s))
  }

  ghost predicate Trimmed(s: string) {
    s != [] ==> !IsSpace(s[0]) && !IsSpace(s[|s| - 1])
  }

  predicate AllSpace(s: string) { forall i :: 0 <= i < |s| ==> IsSpace(s[i]) }

  lemma {:induction false} TrimLeftDrops(s: string) returns (front: string)
    ensures s == front + TrimLeft(s) && AllSpace(front)
  {
    if s != [] && IsSpace(s[0]) {
      var rest := TrimLeftDrops(s[1..]);
      front := [s[0]] + rest;
      assert front[0] == s[0] && front[1..] == rest;
      assert s == [s[0]] + (rest + TrimLeft(s[1..]));
    } else {
      front := [];
    }
  }

  lemma {:induction false} TrimRightDrops(s: string) returns (back: string)
    ensures s == TrimRight(s) + back && AllSpace(back)
  {
    if s != [] && IsSpace(s[|s| - 1]) {
      var rest := TrimRightDrops(s[..|s| - 1]);
      back := rest + [s[|s| - 1]];
      assert s == (TrimRight(s[..|s| - 1]) + rest) + [s[|s| - 1]];
    } else {
      back := [];
    }
  }

  /** Trimming drops spaces at both ends and nothing else: the rest is the middle of the text. */
  lemma {:induction false} TrimIsMiddle(s: string)
    ensures exists front, back :: AllSpace(front) && AllSpace(back) && s == front + Trim(s) + back
    ensures Trim(s) == [] <==> AllSpace(s)
    ensures Trimmed(Trim(s))
  {
    var front := TrimLeftDrops(s);
    var back := TrimRightDrops(TrimLeft(s));
    assert s == front + Trim(s) + back;
    TrimLeftStarts(s);
    TrimRightEnds(TrimLeft(s));
    if Trim(s) != [] { assert s[|front|] == Trim(s)[0]; }
    TrimIdempotent(s);
  }

  lemma {:induction false} TrimLeftStarts(s: string)
    ensures var r := TrimLeft(s); r != [] ==> !IsSpace(r[0])
  {
    if s != [] && IsSpace(s[0]) { TrimLeftStarts(s[1..]); }
  }

  lemma {:induction false} TrimRightEnds(s: string)
    ensures TrimRight(s) <= s
    ensures var r := TrimRight(s); r != [] ==> !IsSpace(r[|r| - 1])
  {
    if s != [] && IsSpace(s[|s| - 1]) { TrimRightEnds(s[..|s| - 1]); }
  }

  lemma TrimIdempotent(s: string)
    ensures Trimmed(Trim(s))
    ensures Trim(Trim(s)) == Trim(s)
  {
    TrimLeftStarts(s);
    TrimRightEnds(TrimLeft(s));
  }

  predicate Contains(text: string, part: string) {
    part <= text || (text != [] && Contains(text[1..], part))
  }

  predicate OccursAt(text: string, part: string, i: nat) {
    i + |part| <= |text| && text[i..i + |part|] == part
  }

  /** What occurs behind the first character occurs one place later in the whole text. */
  lemma OccursOneLater(text: string, part: string, i: nat)
    requires text != []
    ensures OccursAt(text[1..], part, i) <==> OccursAt(text, part, i + 1)
  {
    if i + 1 + |part| <= |text| {
      var here, there := text[i + 1..i + 1 + |part|], text[1..][i..i + |part|];
      assert |here| == |there| && forall k :: 0 <= k < |part| ==> here[k] == text[i + 1 + k] == there[k];
      assert here == there;
    }
  }

  lemma {:induction false} OccurrenceIsContained(text: string, part: string, i: nat)
    requires OccursAt(text, part, i)
    ensures Contains(text, part)
  {
    if i == 0 {
      assert text[..|part|] == part;
    } else {
      OccursOneLater(text, part, i - 1);
      OccurrenceIsContained(text[1..], part, i - 1);
    }
  }

  lemma {:induction false} ContainedOccurs(text: string, part: string) returns (i: nat)
    requires Contains(text, part)
    ensures OccursAt(text, part, i)
  {
    if part <= text {
      i := 0;
    } else {
      var k := ContainedOccurs(text[1..], part);
      i := k + 1;
      OccursOneLater(text, part, k);
    }
  }

  /** `includes`: the part stands somewhere in the text. */
  lemma ContainsIff(text: string, part: string)
    ensures Contains(text, part) <==> exists i: nat :: OccursAt(text, part, i)
  {
    if Contains(text, part) { var _ := ContainedOccurs(text, part); }
    if i: nat :| OccursAt(text, part, i) { OccurrenceIsContained(text, part, i); }
  }
}
