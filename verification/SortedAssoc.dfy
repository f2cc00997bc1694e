/**
 Association lists kept strictly sorted by key: the shape of a BTreeMap, and of a
 vector of records with distinct keys after sorting.
 */
module SortedAssoc {

  ghost predicate StrictTotalOrder<K(!new)>(less: (K, K) -> bool) {
    && (forall a :: !less(a, a))
    && (forall a, b, c :: less(a, b) && less(b, c) ==> less(a, c))
    && (forall a, b :: less(a, b) || a == b || less(b, a))
  }

  ghost predicate Sorted<K, V>(s: seq<(K, V)>, less: (K, K) -> bool) {
    forall i, j :: 0 <= i < j < |s| ==> less(s[i].0, s[j].0)
  }

  function ToMap<K(==), V>(s: seq<(K, V)>): map<K, V> {
    if s == [] then map[] else ToMap(s[1..])[s[0].0 := s[0].1]
  }

  function Insert<K(==), V>(s: seq<(K, V)>, key: K, value: V, less: (K, K) -> bool): seq<(K, V)> {
    if s == [] then [(key, value)]
    else if less(key, s[0].0) then [(key, value)] + s
    else if key == s[0].0 then [(key, value)] + s[1..]
    else [s[0]] + Insert(s[1..], key, value, less)
  }

  lemma {:induction false} InsertToMap<K, V>(s: seq<(K, V)>, key: K, value: V, less: (K, K) -> bool)
    ensures ToMap(Insert(s, key, value, less)) == ToMap(s)[key := value]
  {
    var r := Insert(s, key, value, less);
    if s == [] {
      assert r[1..] == [];
    } else if less(key, s[0].0) {
      assert r[1..] == s;
    } else if key == s[0].0 {
      assert r[1..] == s[1..];
    } else {
      InsertToMap(s[1..], key, value, less);
      assert r[1..] == Insert(s[1..], key, value, less);
    }
  }

  lemma {:induction false} ToMapKeys<K, V>(s: seq<(K, V)>)
    ensures forall key :: key in ToMap(s) <==> exists i :: 0 <= i < |s| && s[i].0 == key
  {
    if s != [] {
      ToMapKeys(s[1..]);
      forall key
        ensures key in ToMap(s) <==> exists i :: 0 <= i < |s| && s[i].0 == key
      {
        if key in ToMap(s[1..]) {
          var i :| 0 <= i < |s[1..]| && s[1..][i].0 == key;
          assert s[i + 1].0 == key;
        }
        if i :| 0 <= i < |s| && s[i].0 == key {
          if i > 0 {
            assert s[1..][i - 1].0 == key;
          }
        }
      }
    }
  }

  lemma {:induction false} InsertSorted<K(!new), V>(s: seq<(K, V)>, key: K, value: V, less: (K, K) -> bool)
    requires StrictTotalOrder(less) && Sorted(s, less)
    ensures Sorted(Insert(s, key, value, less), less)
  {
    if s != [] && !less(key, s[0].0) && key != s[0].0 {
      var tail := Insert(s[1..], key, value, less);
      InsertSorted(s[1..], key, value, less);
      InsertToMap(s[1..], key, value, less);
      ToMapKeys(tail);
      ToMapKeys(s[1..]);
      forall i | 0 <= i < |tail|
        ensures less(s[0].0, tail[i].0)
      {
        assert tail[i].0 in ToMap(tail);
      }
    }
  }

  /** In a sorted list the head's key is the least and occurs once. */
  lemma HeadIsLeast<K(!new), V>(s: seq<(K, V)>, less: (K, K) -> bool)
    requires StrictTotalOrder(less) && Sorted(s, less) && s != []
    ensures forall key :: key in ToMap(s) ==> key == s[0].0 || less(s[0].0, key)
    ensures s[0].0 !in ToMap(s[1..])
    ensures ToMap(s[1..]) == ToMap(s) - {s[0].0}
  {
    ToMapKeys(s);
    ToMapKeys(s[1..]);
  }

  lemma ToMapEmpty<K, V>(s: seq<(K, V)>)
    ensures s != [] ==> ToMap(s) != map[]
  {
    if s != [] {
      assert s[0].0 in ToMap(s);
    }
  }

  /** A sorted list is determined by the map it stands for. */
  lemma {:induction false} SortedUnique<K(!new), V>(a: seq<(K, V)>, b: seq<(K, V)>, less: (K, K) -> bool)
    requires StrictTotalOrder(less) && Sorted(a, less) && Sorted(b, less)
    requires ToMap(a) == ToMap(b)
    ensures a == b
  {
    if a == [] {
      ToMapEmpty(b);
    } else {
      assert a[0].0 in ToMap(b);
      HeadIsLeast(a, less);
      HeadIsLeast(b, less);
      assert a[0].0 == b[0].0;
      assert ToMap(a)[a[0].0] == a[0].1 && ToMap(b)[b[0].0] == b[0].1;
      SortedUnique(a[1..], b[1..], less);
      assert a == [a[0]] + a[1..] && b == [b[0]] + b[1..];
    }
  }

  /** Looking a position of a sorted list up in its map gives that position's value. */
  lemma {:induction false} ToMapAt<K(!new), V>(s: seq<(K, V)>, i: nat, less: (K, K) -> bool)
    requires StrictTotalOrder(less) && Sorted(s, less) && i < |s|
    ensures s[i].0 in ToMap(s) && ToMap(s)[s[i].0] == s[i].1
  {
    if i > 0 {
      ToMapAt(s[1..], i - 1, less);
      HeadIsLeast(s, less);
    }
  }

  // Encoding one map as another

  ghost predicate Injective<K(!new), R>(f: K -> R) {
    forall a, b :: f(a) == f(b) ==> a == b
  }

  /** The second map holds g of each value under f of its key, and nothing else. */
  ghost predicate ImageOf<K, A, R, B>(source: map<K, A>, image: map<R, B>, f: K -> R, g: A -> B) {
    && (forall k <- source.Keys :: f(k) in image && image[f(k)] == g(source[k]))
    && (forall r <- image.Keys :: exists k :: k in source && f(k) == r)
  }

  lemma ImageGrows<K(!new), A, R, B>(source: map<K, A>, image: map<R, B>, f: K -> R, g: A -> B, key: K, value: A)
    requires Injective(f) && ImageOf(source, image, f, g)
    ensures ImageOf(source[key := value], image[f(key) := g(value)], f, g)
  {
    var source', image' := source[key := value], image[f(key) := g(value)];
    forall r | r in image'
      ensures exists k :: k in source' && f(k) == r
    {
      if r == f(key) {
        assert key in source';
      } else {
        var k :| k in source && f(k) == r;
        assert k in source';
      }
    }
  }

  lemma ImageUnique<K, A, R, B>(a: map<K, A>, b: map<K, A>, ia: map<R, B>, ib: map<R, B>, f: K -> R, g: A -> B)
    requires ImageOf(a, ia, f, g) && ImageOf(b, ib, f, g)
    requires a.Keys == b.Keys && forall k <- a.Keys :: g(a[k]) == g(b[k])
    ensures ia == ib
  {
    forall r | r in ia
      ensures r in ib && ia[r] == ib[r]
    {
      var k :| k in a && f(k) == r;
    }
    forall r | r in ib
      ensures r in ia
    {
      var k :| k in b && f(k) == r;
      assert k in a;
    }
    assert ia.Keys == ib.Keys;
  }

  /** Byte order on strings. */
  predicate StringLess(a: string, b: string) {
    b != [] && (a == [] || a[0] < b[0] || (a[0] == b[0] && StringLess(a[1..], b[1..])))
  }

  lemma {:induction false} StringLessTransitive(a: string, b: string, c: string)
    requires StringLess(a, b) && StringLess(b, c)
    ensures StringLess(a, c)
  {
    if a != [] && a[0] == b[0] && b[0] == c[0] {
      StringLessTransitive(a[1..], b[1..], c[1..]);
    }
  }

  lemma {:induction false} StringLessTotal(a: string, b: string)
    ensures StringLess(a, b) || a == b || StringLess(b, a)
    ensures a == b ==> !StringLess(a, b)
  {
    if a != [] && b != [] && a[0] == b[0] {
      StringLessTotal(a[1..], b[1..]);
      assert a == [a[0]] + a[1..] && b == [b[0]] + b[1..];
    }
  }

  lemma StringLessIsOrder()
    ensures StrictTotalOrder(StringLess)
  {
    forall a, b
      ensures StringLess(a, b) || a == b || StringLess(b, a)
      ensures a == b ==> !StringLess(a, b)
    {
      StringLessTotal(a, b);
    }
    forall a, b, c | StringLess(a, b) && StringLess(b, c)
      ensures StringLess(a, c)
    {
      StringLessTransitive(a, b, c);
    }
  }
}
