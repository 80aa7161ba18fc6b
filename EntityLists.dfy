/** The three list operations the entity stores apply to their record lists,
    over any record type whose identifier `key` extracts: `findIndex` by id,
    overwrite-in-place by id and `filter` by id. */
module EntityLists {

  /** The identifiers of the records, in list order */
  function Keys<T>(s: seq<T>, key: T -> string): (ks: seq<string>)
    ensures |ks| == |s|
    ensures forall i :: 0 <= i < |s| ==> ks[i] == key(s[i])
  {
    if |s| == 0 then [] else [key(s[0])] + Keys(s[1..], key)
  }

  /** No identifier occurs twice in the list */
  predicate UniqueKeys<T>(s: seq<T>, key: T -> string)
  {
    forall i, j :: 0 <= i < j < |s| ==> key(s[i]) != key(s[j])
  }

  /** `s.findIndex(x => key(x) === id)`: the position of the first record with
      identifier `id`, or -1 when there is none. */
  function FindIndex<T>(s: seq<T>, key: T -> string, id: string): (r: int)
    ensures -1 <= r < |s|
    ensures r == -1 <==> forall i :: 0 <= i < |s| ==> key(s[i]) != id
    ensures 0 <= r ==> key(s[r]) == id && forall i :: 0 <= i < r ==> key(s[i]) != id
  {
    if |s| == 0 then -1
    else if key(s[0]) == id then 0
    else
      var k := FindIndex(s[1..], key, id);
      if k == -1 then -1 else k + 1
  }

  /** Reference definition of "replace the record that has x's identifier by x":
      the first record with a matching identifier is replaced, the rest kept. */
  function Replaced<T>(s: seq<T>, key: T -> string, x: T): (r: seq<T>)
    ensures |r| == |s|
  {
    if |s| == 0 then []
    else if key(s[0]) == key(x) then [x] + s[1..]
    else [s[0]] + Replaced(s[1..], key, x)
  }

  /** `s.filter(x => key(x) !== id)` */
  function Without<T>(s: seq<T>, key: T -> string, id: string): (r: seq<T>)
    ensures |r| <= |s|
    ensures forall i :: 0 <= i < |r| ==> key(r[i]) != id
    ensures forall x :: x in r ==> x in s
  {
    if |s| == 0 then []
    else if key(s[0]) == id then Without(s[1..], key, id)
    else [s[0]] + Without(s[1..], key, id)
  }

  /** The store's `findIndex` plus indexed write computes the reference
      replacement: with no match the list is unchanged, otherwise exactly the
      first matching position receives x. */
  lemma {:induction false} OverwriteFirstMatch<T>(s: seq<T>, key: T -> string, x: T)
    ensures var i := FindIndex(s, key, key(x));
            Replaced(s, key, x) == if i == -1 then s else s[i := x]
  {
    if |s| == 0 {
    } else if key(s[0]) == key(x) {
      assert FindIndex(s, key, key(x)) == 0;
      assert [x] + s[1..] == s[0 := x];
    } else {
      var k := FindIndex(s[1..], key, key(x));
      OverwriteFirstMatch(s[1..], key, x);
      assert Replaced(s, key, x) == [s[0]] + Replaced(s[1..], key, x);
      if k != -1 {
        assert FindIndex(s, key, key(x)) == k + 1;
        assert [s[0]] + s[1..][k := x] == s[k + 1 := x];
      } else {
        assert FindIndex(s, key, key(x)) == -1;
        assert [s[0]] + s[1..] == s;
      }
    }
  }

  /** Replacing a record by one with the same identifier keeps the identifier list. */
  lemma {:induction false} ReplacedKeepsKeys<T>(s: seq<T>, key: T -> string, x: T)
    ensures Keys(Replaced(s, key, x), key) == Keys(s, key)
  {
    if |s| > 0 {
      ReplacedKeepsKeys(s[1..], key, x);
    }
  }

  /** Replacing keeps the identifiers unique. */
  lemma ReplacedKeepsUnique<T>(s: seq<T>, key: T -> string, x: T)
    requires UniqueKeys(s, key)
    ensures UniqueKeys(Replaced(s, key, x), key)
  {
    var r := Replaced(s, key, x);
    ReplacedKeepsKeys(s, key, x);
    forall i, j | 0 <= i < j < |r| ensures key(r[i]) != key(r[j]) {
      assert key(r[i]) == Keys(r, key)[i] == Keys(s, key)[i] == key(s[i]);
      assert key(r[j]) == Keys(r, key)[j] == Keys(s, key)[j] == key(s[j]);
    }
  }

  /** Filtering distributes over concatenation: the kept records stay in their original order. */
  lemma {:induction false} WithoutConcat<T>(a: seq<T>, b: seq<T>, key: T -> string, id: string)
    ensures Without(a + b, key, id) == Without(a, key, id) + Without(b, key, id)
  {
    if |a| == 0 {
      assert a + b == b;
    } else {
      assert (a + b)[1..] == a[1..] + b;
      WithoutConcat(a[1..], b, key, id);
    }
  }

  /** With no record carrying the identifier, filtering keeps the whole list. */
  lemma {:induction false} WithoutNoMatch<T>(s: seq<T>, key: T -> string, id: string)
    requires forall i :: 0 <= i < |s| ==> key(s[i]) != id
    ensures Without(s, key, id) == s
  {
    if |s| > 0 {
      WithoutNoMatch(s[1..], key, id);
      assert [s[0]] + s[1..] == s;
    }
  }

  /** Every record whose identifier differs is kept as often as it occurred,
      and no record with the identifier remains. */
  lemma {:induction false} WithoutCounts<T>(s: seq<T>, key: T -> string, id: string, x: T)
    ensures multiset(Without(s, key, id))[x] == if key(x) == id then 0 else multiset(s)[x]
  {
    if |s| > 0 {
      WithoutCounts(s[1..], key, id, x);
      assert s == [s[0]] + s[1..];
      assert multiset(s) == multiset{s[0]} + multiset(s[1..]);
      if key(s[0]) != id {
        assert multiset([s[0]] + Without(s[1..], key, id)) == multiset{s[0]} + multiset(Without(s[1..], key, id));
      }
    }
  }

  /** Filtering keeps the identifiers unique. */
  lemma {:induction false} WithoutKeepsUnique<T>(s: seq<T>, key: T -> string, id: string)
    requires UniqueKeys(s, key)
    ensures UniqueKeys(Without(s, key, id), key)
  {
    if |s| > 0 {
      var rest := Without(s[1..], key, id);
      WithoutKeepsUnique(s[1..], key, id);
      if key(s[0]) != id {
        var r := [s[0]] + rest;
        forall i, j | 0 <= i < j < |r| ensures key(r[i]) != key(r[j]) {
          if i == 0 {
            assert r[j] == rest[j - 1];
            assert r[j] in s[1..];
            var k :| 0 <= k < |s[1..]| && s[1..][k] == r[j];
            assert s[k + 1] == r[j];
          } else {
            assert r[i] == rest[i - 1] && r[j] == rest[j - 1];
          }
        }
      }
    }
  }

  /** Appending a record whose identifier is new keeps the identifiers unique. */
  lemma AppendKeepsUnique<T>(s: seq<T>, key: T -> string, x: T)
    requires UniqueKeys(s, key)
    requires forall i :: 0 <= i < |s| ==> key(s[i]) != key(x)
    ensures UniqueKeys(s + [x], key)
  {
  }
}
