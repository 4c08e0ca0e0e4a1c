/** pandas `drop_duplicates(subset=..., keep='first')` on a sequence of records:
    of the records sharing a key, only the first is kept, in the original order. */
module Dedup {

  /** The set of keys of the records in `s`. */
  function KeysOf<T, K>(s: seq<T>, key: T -> K): set<K> {
    set i | 0 <= i < |s| :: key(s[i])
  }

  /** No two records of `s` share a key. */
  predicate DistinctKeys<T, K(==)>(s: seq<T>, key: T -> K) {
    forall i, j :: 0 <= i < j < |s| ==> key(s[i]) != key(s[j])
  }

  /** Record `i` of `s` is the first one with its key. */
  predicate IsFirst<T, K(==)>(s: seq<T>, key: T -> K, i: nat)
    requires i < |s|
  {
    forall j :: 0 <= j < i ==> key(s[j]) != key(s[i])
  }

  /** The walk `drop_duplicates` performs: a record whose key was already seen
      is dropped, any other is kept and its key becomes seen. */
  function DropFrom<T, K(==)>(s: seq<T>, key: T -> K, seen: set<K>): seq<T>
    decreases |s|
  {
    if s == [] then []
    else if key(s[0]) in seen then DropFrom(s[1..], key, seen)
    else [s[0]] + DropFrom(s[1..], key, seen + {key(s[0])})
  }

  /** `drop_duplicates(keep='first')`. */
  function DropDuplicates<T, K(==)>(s: seq<T>, key: T -> K): seq<T> {
    DropFrom(s, key, {})
  }

  /** Reference definition: the records among the first `n` of `s` that are the
      first with their key, in their order in `s`. */
  function Firsts<T, K(==)>(s: seq<T>, key: T -> K, n: nat): seq<T>
    requires n <= |s|
  {
    if n == 0 then []
    else Firsts(s, key, n - 1) + (if IsFirst(s, key, n - 1) then [s[n - 1]] else [])
  }

  lemma FirstIffUnseen<T, K>(s: seq<T>, key: T -> K, i: nat)
    requires i < |s|
    ensures IsFirst(s, key, i) <==> key(s[i]) !in KeysOf(s[..i], key)
  {
    if !IsFirst(s, key, i) {
      var j :| 0 <= j < i && key(s[j]) == key(s[i]);
      assert s[..i][j] == s[j];
    }
  }

  lemma KeysOfAppend<T, K>(a: seq<T>, b: seq<T>, key: T -> K)
    ensures KeysOf(a + b, key) == KeysOf(a, key) + KeysOf(b, key)
  {
    var ab := a + b;
    forall k | k in KeysOf(ab, key)
      ensures k in KeysOf(a, key) + KeysOf(b, key)
    {
      var i :| 0 <= i < |ab| && key(ab[i]) == k;
      if i < |a| {
        assert ab[i] == a[i];
      } else {
        assert ab[i] == b[i - |a|];
      }
    }
    forall k | k in KeysOf(a, key)
      ensures k in KeysOf(ab, key)
    {
      var i :| 0 <= i < |a| && key(a[i]) == k;
      assert ab[i] == a[i];
    }
    forall k | k in KeysOf(b, key)
      ensures k in KeysOf(ab, key)
    {
      var i :| 0 <= i < |b| && key(b[i]) == k;
      assert ab[|a| + i] == b[i];
    }
  }

  lemma KeysOfSingle<T, K>(x: T, key: T -> K)
    ensures KeysOf([x], key) == {key(x)}
  {
    assert [x][0] == x;
  }

  lemma KeysOfStep<T, K>(s: seq<T>, key: T -> K, i: nat)
    requires i < |s|
    ensures KeysOf(s[..i + 1], key) == KeysOf(s[..i], key) + {key(s[i])}
  {
    assert s[..i + 1] == s[..i] + [s[i]];
    KeysOfAppend(s[..i], [s[i]], key);
    KeysOfSingle(s[i], key);
  }

  /** The walk from record `i` on, having seen the keys before `i`, yields the
      first-with-their-key records from `i` on. */
  lemma {:induction false} DropFromFirsts<T, K>(s: seq<T>, key: T -> K, i: nat)
    requires i <= |s|
    ensures Firsts(s, key, |s|) == Firsts(s, key, i) + DropFrom(s[i..], key, KeysOf(s[..i], key))
    decreases |s| - i
  {
    if i < |s| {
      DropFromFirsts(s, key, i + 1);
      FirstIffUnseen(s, key, i);
      KeysOfStep(s, key, i);
      assert s[i..][1..] == s[i + 1..];
      if IsFirst(s, key, i) {
        assert Firsts(s, key, i + 1) == Firsts(s, key, i) + [s[i]];
      } else {
        assert KeysOf(s[..i + 1], key) == KeysOf(s[..i], key);
        assert Firsts(s, key, i + 1) == Firsts(s, key, i);
      }
    }
  }

  /** `drop_duplicates` keeps exactly the records that are the first with their
      key, and keeps them in their original order. */
  lemma DropDuplicatesKeepsFirsts<T, K>(s: seq<T>, key: T -> K)
    ensures DropDuplicates(s, key) == Firsts(s, key, |s|)
  {
    DropFromFirsts(s, key, 0);
    assert s[0..] == s;
    assert KeysOf(s[..0], key) == {};
  }

  lemma {:induction false} DropFromShape<T, K>(s: seq<T>, key: T -> K, seen: set<K>)
    ensures DistinctKeys(DropFrom(s, key, seen), key)
    ensures KeysOf(DropFrom(s, key, seen), key) == KeysOf(s, key) - seen
    decreases |s|
  {
    if s != [] {
      var x, rest := s[0], s[1..];
      assert s == [x] + rest;
      KeysOfAppend([x], rest, key);
      KeysOfSingle(x, key);
      if key(x) in seen {
        DropFromShape(rest, key, seen);
      } else {
        var seen' := seen + {key(x)};
        DropFromShape(rest, key, seen');
        var r := DropFrom(rest, key, seen');
        assert DropFrom(s, key, seen) == [x] + r;
        KeysOfAppend([x], r, key);
        forall j | 0 <= j < |r|
          ensures key(x) != key(r[j])
        {
          assert key(r[j]) in KeysOf(r, key);
        }
      }
    }
  }

  /** The result of `drop_duplicates` has no two records with one key, and it has
      the same keys as its input. */
  lemma DropDuplicatesShape<T, K>(s: seq<T>, key: T -> K)
    ensures DistinctKeys(DropDuplicates(s, key), key)
    ensures KeysOf(DropDuplicates(s, key), key) == KeysOf(s, key)
  {
    DropFromShape(s, key, {});
  }

  lemma {:induction false} DropFromDistinct<T, K>(s: seq<T>, key: T -> K, seen: set<K>)
    requires DistinctKeys(s, key)
    requires KeysOf(s, key) !! seen
    ensures DropFrom(s, key, seen) == s
    decreases |s|
  {
    if s != [] {
      var x, rest := s[0], s[1..];
      assert s == [x] + rest;
      KeysOfAppend([x], rest, key);
      KeysOfSingle(x, key);
      assert key(x) !in KeysOf(rest, key) by {
        forall j | 0 <= j < |rest| ensures key(rest[j]) != key(x) {
          assert rest[j] == s[j + 1];
        }
      }
      DropFromDistinct(rest, key, seen + {key(x)});
    }
  }

  /** A sequence without repeated keys is left as it is, so `drop_duplicates`
      applied twice changes nothing the second time. */
  lemma DropDuplicatesIdempotent<T, K>(s: seq<T>, key: T -> K)
    ensures DropDuplicates(DropDuplicates(s, key), key) == DropDuplicates(s, key)
  {
    DropDuplicatesShape(s, key);
    DropFromDistinct(DropDuplicates(s, key), key, {});
  }

  /** A sequence whose keys are distinct is what `drop_duplicates` leaves alone. */
  lemma DistinctUnchanged<T, K>(s: seq<T>, key: T -> K)
    requires DistinctKeys(s, key)
    ensures DropDuplicates(s, key) == s
  {
    DropFromDistinct(s, key, {});
  }
}
