/** Sequences without duplicates, standing for the JavaScript `Set`s and `Map` key lists
    of the server: both iterate in insertion order. */
module OrderedSet {

  /** No element occurs twice. */
  ghost predicate NoDup<T(!new)>(s: seq<T>) {
    forall x :: multiset(s)[x] <= 1
  }

  /** `order` lists the keys of `m`, each once: the iteration order of a JavaScript `Map`. */
  ghost predicate KeyOrder<K(!new), V>(order: seq<K>, m: map<K, V>) {
    forall k :: multiset(order)[k] == if k in m then 1 else 0
  }

  /** `Set.prototype.delete` / `Map.prototype.delete`: `x` is gone, the rest keep their order. */
  function Remove<T(==)>(s: seq<T>, x: T): seq<T>
  {
    if s == [] then []
    else if s[0] == x then Remove(s[1..], x)
    else [s[0]] + Remove(s[1..], x)
  }

  /** Deleting `x` drops every copy of `x` and keeps every other element as often as it
      occurred, so it keeps the rest free of duplicates, and it is no change at all when
      `x` is absent. */
  lemma {:induction false} RemoveSpec<T(!new)>(s: seq<T>, x: T)
    ensures forall y :: multiset(Remove(s, x))[y] == if y == x then 0 else multiset(s)[y]
    ensures forall y :: y in Remove(s, x) <==> y in s && y != x
    ensures x !in s ==> Remove(s, x) == s
    ensures NoDup(s) ==> NoDup(Remove(s, x))
  {
    if s != [] {
      RemoveSpec(s[1..], x);
      assert s == [s[0]] + s[1..];
      assert multiset(s) == multiset{s[0]} + multiset(s[1..]);
      if s[0] != x {
        assert multiset(Remove(s, x)) == multiset{s[0]} + multiset(Remove(s[1..], x));
      }
    }
  }

  /** `Set.prototype.add`: `x` is appended unless it is already there. */
  function Insert<T(==)>(s: seq<T>, x: T): seq<T>
  {
    if x in s then s else s + [x]
  }

  /** After adding `x` the set holds exactly the old elements and `x`, still once each;
      adding it a second time changes nothing. */
  lemma InsertSpec<T(!new)>(s: seq<T>, x: T)
    ensures forall y :: y in Insert(s, x) <==> y in s || y == x
    ensures NoDup(s) ==> NoDup(Insert(s, x))
    ensures Insert(Insert(s, x), x) == Insert(s, x)
  {
    if x !in s && NoDup(s) {
      NoDupSnoc(s, x);
    }
  }

  /** Setting a key of a map keeps its key order: a new key goes to the end. */
  lemma KeyOrderSet<K(!new), V>(order: seq<K>, m: map<K, V>, k: K, v: V)
    requires KeyOrder(order, m)
    ensures KeyOrder(Insert(order, k), m[k := v])
  {
    if k !in order {
      assert multiset(order + [k]) == multiset(order) + multiset{k};
    }
  }

  /** Deleting a key takes it out of the key order. */
  lemma KeyOrderDelete<K(!new), V>(order: seq<K>, m: map<K, V>, k: K)
    requires KeyOrder(order, m)
    ensures KeyOrder(Remove(order, k), m - {k})
  {
    RemoveSpec(order, k);
  }

  /** A key order holds no key twice and holds exactly the keys of its map. */
  lemma KeyOrderKeys<K(!new), V>(order: seq<K>, m: map<K, V>)
    requires KeyOrder(order, m)
    ensures NoDup(order)
    ensures forall k :: k in order <==> k in m
  {
  }

  /** `k` is in the key order exactly when it is a key. */
  lemma KeyOrderHas<K(!new), V>(order: seq<K>, m: map<K, V>, k: K)
    requires KeyOrder(order, m)
    ensures k in order <==> k in m
  {
  }

  /** The `n`-th key of a key order is a key, and it is not among the keys before it. */
  lemma KeyOrderNext<K(!new), V>(order: seq<K>, m: map<K, V>, n: nat)
    requires KeyOrder(order, m) && n < |order|
    ensures order[n] in m && order[n] !in order[..n]
  {
    NoDupNext(order, n);
  }

  lemma TakeAll<T>(s: seq<T>)
    ensures s[..|s|] == s
  {
  }

  lemma TakeSnoc<T>(s: seq<T>, n: nat)
    requires n < |s|
    ensures s[..n + 1] == s[..n] + [s[n]]
  {
  }

  lemma NoDupSnoc<T(!new)>(s: seq<T>, x: T)
    requires x !in s && NoDup(s)
    ensures NoDup(s + [x])
  {
    assert multiset(s + [x]) == multiset(s) + multiset{x};
  }

  lemma NoDupNext<T(!new)>(s: seq<T>, n: nat)
    requires NoDup(s) && n < |s|
    ensures s[n] !in s[..n]
  {
    assert s == s[..n] + [s[n]] + s[n + 1..];
    assert multiset(s)[s[n]]
        == multiset(s[..n])[s[n]] + multiset{s[n]}[s[n]] + multiset(s[n + 1..])[s[n]];
  }

  /** A sequence is free of duplicates exactly when its prefix without the last element is,
      and that element does not occur in the prefix. */
  lemma NoDupLast<T(!new)>(s: seq<T>)
    requires s != []
    ensures NoDup(s) ==> NoDup(s[..|s| - 1]) && s[|s| - 1] !in s[..|s| - 1]
    ensures NoDup(s[..|s| - 1]) && s[|s| - 1] !in s[..|s| - 1] ==> NoDup(s)
  {
    var init, last := s[..|s| - 1], s[|s| - 1];
    assert s == init + [last];
    assert multiset(s) == multiset(init) + multiset{last};
    if NoDup(s) {
      forall x ensures multiset(init)[x] <= 1 {
        assert multiset(s)[x] == multiset(init)[x] + multiset{last}[x];
      }
      assert multiset(s)[last] == multiset(init)[last] + 1;
    }
  }
}
