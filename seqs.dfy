/** The array operations the updaters use, keyed by a record's id:
    `find`/`findIndex(x => x.id === id)`, `filter(x => x.id !== id)` and
    `map(x => x.id)`, together with what "ids are unique" means. */
module Seqs {
  import opened Types

  /** `findIndex(x => key(x) === id)`: the first position whose key is `id`. */
  function IndexOf<T>(s: seq<T>, key: T -> Id, id: Id): (r: Option<nat>)
    ensures r.Some? ==> r.value < |s| && key(s[r.value]) == id
    ensures r.Some? ==> forall k | 0 <= k < r.value :: key(s[k]) != id
    ensures r.None? <==> forall k | 0 <= k < |s| :: key(s[k]) != id
  {
    if s == [] then None
    else if key(s[0]) == id then Some(0)
    else match IndexOf(s[1..], key, id)
      case None => None
      case Some(k) => Some(k + 1)
  }

  /** `filter(x => key(x) !== id)`: every element whose key is not `id`, in order. */
  function Without<T>(s: seq<T>, key: T -> Id, id: Id): (r: seq<T>)
    ensures forall x | x in r :: x in s && key(x) != id
    ensures forall k | 0 <= k < |s| && key(s[k]) != id :: s[k] in r
    ensures multiset(r) <= multiset(s)
  {
    if s == [] then []
    else
      assert s == [s[0]] + s[1..];
      if key(s[0]) == id then Without(s[1..], key, id)
      else [s[0]] + Without(s[1..], key, id)
  }

  /** `map(x => key(x))`. */
  function Keys<T>(s: seq<T>, key: T -> Id): (r: seq<Id>)
    ensures |r| == |s|
    ensures forall k | 0 <= k < |s| :: r[k] == key(s[k])
  {
    seq(|s|, k requires 0 <= k < |s| => key(s[k]))
  }

  /** No identifier occurs twice. */
  ghost predicate Unique(ids: seq<Id>)
  {
    forall i, j | 0 <= i < j < |ids| :: ids[i] != ids[j]
  }

  /** Filtering distributes over concatenation, so it keeps the relative order
      of what it keeps. */
  lemma {:induction false} WithoutAppend<T>(a: seq<T>, b: seq<T>, key: T -> Id, id: Id)
    ensures Without(a + b, key, id) == Without(a, key, id) + Without(b, key, id)
  {
    if a == [] {
      assert a + b == b;
    } else {
      assert (a + b)[0] == a[0];
      assert (a + b)[1..] == a[1..] + b;
      WithoutAppend(a[1..], b, key, id);
      if key(a[0]) == id {
        calc {
          Without(a + b, key, id);
          Without(a[1..] + b, key, id);
          Without(a[1..], key, id) + Without(b, key, id);
          Without(a, key, id) + Without(b, key, id);
        }
      } else {
        calc {
          Without(a + b, key, id);
          [a[0]] + Without(a[1..] + b, key, id);
          [a[0]] + (Without(a[1..], key, id) + Without(b, key, id));
          ([a[0]] + Without(a[1..], key, id)) + Without(b, key, id);
          Without(a, key, id) + Without(b, key, id);
        }
      }
    }
  }

  /** Filtering out a key that does not occur changes nothing. */
  lemma {:induction false} WithoutAbsent<T>(s: seq<T>, key: T -> Id, id: Id)
    requires forall k | 0 <= k < |s| :: key(s[k]) != id
    ensures Without(s, key, id) == s
  {
    if s != [] {
      WithoutAbsent(s[1..], key, id);
    }
  }

  /** Filtering out a key that only position j carries removes exactly that
      element and keeps the others in order. */
  lemma WithoutOnly<T>(s: seq<T>, key: T -> Id, j: nat)
    requires j < |s|
    requires forall k | 0 <= k < |s| && k != j :: key(s[k]) != key(s[j])
    ensures Without(s, key, key(s[j])) == s[..j] + s[j + 1..]
  {
    var id := key(s[j]);
    var before, after := s[..j], s[j + 1..];
    assert s == before + ([s[j]] + after);
    forall k | 0 <= k < |before| ensures key(before[k]) != id {
      assert before[k] == s[k];
    }
    forall k | 0 <= k < |after| ensures key(after[k]) != id {
      assert after[k] == s[j + 1 + k];
    }
    WithoutAbsent(before, key, id);
    WithoutAbsent(after, key, id);
    assert Without([s[j]], key, id) == [];
    WithoutAppend([s[j]], after, key, id);
    WithoutAppend(before, [s[j]] + after, key, id);
  }

  /** When keys are unique, filtering out the key at position j removes exactly
      that element and keeps the others in order. */
  lemma WithoutUnique<T>(s: seq<T>, key: T -> Id, j: nat)
    requires j < |s|
    requires Unique(Keys(s, key))
    ensures Without(s, key, key(s[j])) == s[..j] + s[j + 1..]
  {
    forall k | 0 <= k < |s| && k != j ensures key(s[k]) != key(s[j]) {
      var ids := Keys(s, key);
      if k < j { assert ids[k] != ids[j]; } else { assert ids[j] != ids[k]; }
    }
    WithoutOnly(s, key, j);
  }

  /** The first-match search only looks at keys. */
  lemma {:induction false} IndexOfKeys<T, U>(a: seq<T>, ka: T -> Id, b: seq<U>, kb: U -> Id, id: Id)
    requires Keys(a, ka) == Keys(b, kb)
    ensures IndexOf(a, ka, id) == IndexOf(b, kb, id)
  {
    if a != [] {
      assert ka(a[0]) == Keys(a, ka)[0] == Keys(b, kb)[0] == kb(b[0]);
      assert Keys(a[1..], ka) == Keys(a, ka)[1..];
      assert Keys(b[1..], kb) == Keys(b, kb)[1..];
      IndexOfKeys(a[1..], ka, b[1..], kb, id);
    }
  }

  lemma KeysAppend<T>(a: seq<T>, b: seq<T>, key: T -> Id)
    ensures Keys(a + b, key) == Keys(a, key) + Keys(b, key)
  {
  }

  /** With unique keys, an element is determined by its key. */
  lemma UniqueKeyDetermines<T>(s: seq<T>, key: T -> Id, x: T, y: T)
    requires Unique(Keys(s, key))
    requires x in s && y in s && key(x) == key(y)
    ensures x == y
  {
    var a :| 0 <= a < |s| && s[a] == x;
    var b :| 0 <= b < |s| && s[b] == y;
    var ids := Keys(s, key);
    assert ids[a] == ids[b];
  }

  /** Two lists of unique identifiers that share none stay unique when
      concatenated. */
  lemma UniqueAppend(a: seq<Id>, b: seq<Id>)
    requires Unique(a) && Unique(b)
    requires forall i, j | 0 <= i < |a| && 0 <= j < |b| :: a[i] != b[j]
    ensures Unique(a + b)
  {
    var ab := a + b;
    forall i, j | 0 <= i < j < |ab| ensures ab[i] != ab[j] {
      if j < |a| {
        assert ab[i] == a[i] && ab[j] == a[j];
      } else if i < |a| {
        assert ab[i] == a[i] && ab[j] == b[j - |a|];
      } else {
        assert ab[i] == b[i - |a|] && ab[j] == b[j - |a|];
      }
    }
  }

  /** Uniqueness stated by counting: no identifier occurs more than once. */
  lemma {:induction false} UniqueByCount(ids: seq<Id>)
    ensures Unique(ids) <==> forall x :: multiset(ids)[x] <= 1
  {
    if ids != [] {
      var h, t := ids[0], ids[1..];
      assert ids == [h] + t;
      UniqueByCount(t);
      if Unique(ids) {
        assert Unique(t) by {
          forall i, j | 0 <= i < j < |t| ensures t[i] != t[j] {
            assert t[i] == ids[i + 1] && t[j] == ids[j + 1];
          }
        }
      } else {
        var i, j :| 0 <= i < j < |ids| && ids[i] == ids[j];
        assert multiset(ids) == multiset{h} + multiset(t);
        if i == 0 {
          assert t[j - 1] == h;
          assert multiset(t)[h] >= 1;
          assert multiset(ids)[h] >= 2;
        } else {
          assert t[i - 1] == t[j - 1];
          assert !Unique(t);
          var x :| multiset(t)[x] > 1;
          assert multiset(ids)[x] > 1;
        }
      }
    }
  }

  /** With unique keys, no element occurs twice. */
  lemma {:induction false} UniqueKeysOnce<T>(s: seq<T>, key: T -> Id, x: T)
    requires Unique(Keys(s, key))
    ensures multiset(s)[x] <= 1
  {
    if s != [] {
      var t := s[1..];
      assert s == [s[0]] + t;
      assert Unique(Keys(t, key)) by {
        forall i, j | 0 <= i < j < |t| ensures Keys(t, key)[i] != Keys(t, key)[j] {
          assert Keys(s, key)[i + 1] != Keys(s, key)[j + 1];
        }
      }
      UniqueKeysOnce(t, key, x);
      if s[0] == x {
        forall k | 0 <= k < |t| ensures t[k] != x {
          assert Keys(s, key)[0] != Keys(s, key)[k + 1];
        }
        assert multiset(t)[x] == 0;
      }
    }
  }

  /** Uniqueness survives taking a sub-multiset. */
  lemma UniqueSubBag(a: seq<Id>, b: seq<Id>)
    requires Unique(b)
    requires multiset(a) <= multiset(b)
    ensures Unique(a)
  {
    UniqueByCount(a);
    UniqueByCount(b);
  }

  /** The keys of a sub-multiset form a sub-multiset of the keys. */
  lemma {:induction false} KeysSubBag<T>(a: seq<T>, b: seq<T>, key: T -> Id)
    requires multiset(a) <= multiset(b)
    ensures multiset(Keys(a, key)) <= multiset(Keys(b, key))
  {
    if a != [] {
      var x := a[0];
      assert x in multiset(b);
      var k :| 0 <= k < |b| && b[k] == x;
      var rest := b[..k] + b[k + 1..];
      assert b == b[..k] + [x] + b[k + 1..];
      assert multiset(rest) == multiset(b) - multiset{x};
      assert a == [x] + a[1..];
      KeysSubBag(a[1..], rest, key);
      KeysAppend(b[..k] + [x], b[k + 1..], key);
      KeysAppend(b[..k], [x], key);
      KeysAppend(b[..k], b[k + 1..], key);
      KeysAppend([x], a[1..], key);
    }
  }

  /** Unique keys stay unique in any sub-multiset. */
  lemma UniqueKeysSubBag<T>(a: seq<T>, b: seq<T>, key: T -> Id)
    requires Unique(Keys(b, key))
    requires multiset(a) <= multiset(b)
    ensures Unique(Keys(a, key))
  {
    KeysSubBag(a, b, key);
    UniqueSubBag(Keys(a, key), Keys(b, key));
  }
}
