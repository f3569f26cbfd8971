/** The list updates the components perform with `Array.prototype.filter`,
    `some` and `find`, over a field of each element selected by a named key
    function (`f => f._id`, `u => u.userId`, ...). */
module Seqs {

  import opened Outcomes

  /** The key function of a list filtered by its elements themselves
      (`x => x !== k`). */
  function Itself<T>(x: T): T { x }

  /** `s.some(x => key(x) === k)` */
  predicate HasKey<T, K(==)>(s: seq<T>, key: T -> K, k: K)
  {
    exists i :: 0 <= i < |s| && key(s[i]) == k
  }

  /** `s.filter(x => key(x) !== k)`: every element with key `k` is dropped,
      every other one is kept, in its original order. */
  function RemoveAll<T(==,!new), K(==)>(s: seq<T>, key: T -> K, k: K): (r: seq<T>)
    ensures |r| <= |s|
    ensures forall x :: x in r <==> x in s && key(x) != k
    ensures !HasKey(r, key, k)
    ensures !HasKey(s, key, k) ==> r == s
    ensures HasKey(s, key, k) ==> |r| < |s|
  {
    if |s| == 0 then []
    else
      var rest := RemoveAll(s[1..], key, k);
      assert HasKey(s, key, k) <==> key(s[0]) == k || HasKey(s[1..], key, k) by {
        if HasKey(s[1..], key, k) {
          var i :| 0 <= i < |s[1..]| && key(s[1..][i]) == k;
          assert key(s[i + 1]) == k;
        }
        if HasKey(s, key, k) && key(s[0]) != k {
          var i :| 0 <= i < |s| && key(s[i]) == k;
          assert key(s[1..][i - 1]) == k;
        }
      }
      if key(s[0]) == k then rest
      else
        var r := [s[0]] + rest;
        assert !HasKey(r, key, k) by {
          forall i | 0 <= i < |r| ensures key(r[i]) != k {
            if i > 0 { assert r[i] == rest[i - 1]; assert r[i] in rest; }
          }
        }
        r
  }

  /** `s.filter(x => key(x) === k)`: exactly the elements with key `k`, in order. */
  function Select<T(==,!new), K(==)>(s: seq<T>, key: T -> K, k: K): (r: seq<T>)
    ensures |r| <= |s|
    ensures forall x :: x in r <==> x in s && key(x) == k
    ensures forall i :: 0 <= i < |r| ==> key(r[i]) == k
    ensures multiset(r) <= multiset(s)
  {
    if |s| == 0 then []
    else if key(s[0]) == k then
      assert s == [s[0]] + s[1..];
      [s[0]] + Select(s[1..], key, k)
    else
      assert s == [s[0]] + s[1..];
      Select(s[1..], key, k)
  }

  /** Filtering distributes over concatenation, so the kept elements stay in
      their original relative order. */
  lemma {:induction false} RemoveAllConcat<T(!new), K>(a: seq<T>, b: seq<T>, key: T -> K, k: K)
    ensures RemoveAll(a + b, key, k) == RemoveAll(a, key, k) + RemoveAll(b, key, k)
  {
    if |a| == 0 {
      assert a + b == b;
    } else {
      assert (a + b)[1..] == a[1..] + b;
      RemoveAllConcat(a[1..], b, key, k);
    }
  }

  /** The last element's key, or `null` for an empty list:
      `s.length > 0 ? s[s.length - 1]._id : null`. */
  function LastKey<T, K>(s: seq<T>, key: T -> K): (r: Option<K>)
    ensures |s| == 0 <==> r.None?
    ensures r.Some? ==> r.value == key(s[|s| - 1]) && HasKey(s, key, r.value)
  {
    if |s| == 0 then None else Some(key(s[|s| - 1]))
  }

  /** No two elements share a key. */
  predicate UniqueKeys<T, K(==)>(s: seq<T>, key: T -> K)
  {
    forall i, j :: 0 <= i < j < |s| ==> key(s[i]) != key(s[j])
  }

  /** Appending an element whose key is new keeps keys unique. */
  lemma AppendNewKey<T, K>(s: seq<T>, x: T, key: T -> K)
    requires UniqueKeys(s, key) && !HasKey(s, key, key(x))
    ensures UniqueKeys(s + [x], key)
  {
    forall i, j | 0 <= i < j < |s + [x]| ensures key((s + [x])[i]) != key((s + [x])[j]) {
      if j == |s| {
        assert (s + [x])[i] == s[i];
        assert key(s[i]) != key(x);
      }
    }
  }

  /** Filtering out one key keeps keys unique. */
  lemma {:induction false} RemoveAllKeepsUnique<T(!new), K>(s: seq<T>, key: T -> K, k: K)
    requires UniqueKeys(s, key)
    ensures UniqueKeys(RemoveAll(s, key, k), key)
  {
    if |s| > 0 {
      var tail := s[1..];
      assert UniqueKeys(tail, key) by {
        forall i, j | 0 <= i < j < |tail| ensures key(tail[i]) != key(tail[j]) {
          assert tail[i] == s[i + 1] && tail[j] == s[j + 1];
        }
      }
      RemoveAllKeepsUnique(tail, key, k);
      var rest := RemoveAll(tail, key, k);
      if key(s[0]) != k {
        var r := [s[0]] + rest;
        forall i, j | 0 <= i < j < |r| ensures key(r[i]) != key(r[j]) {
          if i == 0 {
            assert r[j] == rest[j - 1];
            assert r[j] in tail;
            var m :| 0 <= m < |tail| && tail[m] == r[j];
            assert s[m + 1] == r[j];
          } else {
            assert r[i] == rest[i - 1] && r[j] == rest[j - 1];
          }
        }
      }
    }
  }

  /** With unique keys, filtering out the key of the element at `i` removes
      that element alone and keeps the others in order. */
  lemma RemoveUniqueAt<T(!new), K>(s: seq<T>, key: T -> K, i: nat)
    requires UniqueKeys(s, key) && i < |s|
    ensures RemoveAll(s, key, key(s[i])) == s[..i] + s[i + 1..]
  {
    KeyAbsent(s, key, i, 0, i);
    KeyAbsent(s, key, i, i + 1, |s|);
    SplitAround(s, i);
    RemoveBetween(s[..i], s[i], s[i + 1..], key);
  }

  /** A sequence is its part before `i`, its element at `i` and its part after. */
  lemma SplitAround<T>(s: seq<T>, i: nat)
    requires i < |s|
    ensures s == s[..i] + [s[i]] + s[i + 1..]
    ensures s[0..i] == s[..i] && s[i + 1..|s|] == s[i + 1..]
  {
  }

  lemma RemoveBetween<T(!new), K>(pre: seq<T>, x: T, post: seq<T>, key: T -> K)
    requires !HasKey(pre, key, key(x)) && !HasKey(post, key, key(x))
    ensures RemoveAll(pre + [x] + post, key, key(x)) == pre + post
  {
    RemoveAllConcat(pre + [x], post, key, key(x));
    RemoveLast(pre, x, key);
  }

  lemma RemoveLast<T(!new), K>(pre: seq<T>, x: T, key: T -> K)
    requires !HasKey(pre, key, key(x))
    ensures RemoveAll(pre + [x], key, key(x)) == pre
  {
    var one: seq<T> := [x];
    RemoveAllConcat(pre, one, key, key(x));
    assert one[1..] == [];
  }

  /** With unique keys, the key of `s[i]` occurs nowhere else. */
  lemma KeyAbsent<T, K>(s: seq<T>, key: T -> K, i: nat, lo: nat, hi: nat)
    requires UniqueKeys(s, key) && i < |s| && lo <= hi <= |s| && (i < lo || hi <= i)
    ensures !HasKey(s[lo..hi], key, key(s[i]))
  {
    var t := s[lo..hi];
    forall j | 0 <= j < |t| ensures key(t[j]) != key(s[i]) {
      assert t[j] == s[lo + j];
    }
  }

  /** How many elements have key `k`. */
  function CountKey<T, K(==)>(s: seq<T>, key: T -> K, k: K): (n: nat)
    ensures n <= |s|
    ensures n == 0 <==> !HasKey(s, key, k)
  {
    if |s| == 0 then 0
    else
      var rest := CountKey(s[1..], key, k);
      assert HasKey(s, key, k) <==> key(s[0]) == k || HasKey(s[1..], key, k) by {
        if HasKey(s[1..], key, k) {
          var i :| 0 <= i < |s[1..]| && key(s[1..][i]) == k;
          assert key(s[i + 1]) == k;
        }
        if HasKey(s, key, k) && key(s[0]) != k {
          var i :| 0 <= i < |s| && key(s[i]) == k;
          assert key(s[1..][i - 1]) == k;
        }
      }
      (if key(s[0]) == k then 1 else 0) + rest
  }

  lemma {:induction false} CountKeyConcat<T, K>(a: seq<T>, b: seq<T>, key: T -> K, k: K)
    ensures CountKey(a + b, key, k) == CountKey(a, key, k) + CountKey(b, key, k)
  {
    if |a| == 0 {
      assert a + b == b;
    } else {
      assert (a + b)[1..] == a[1..] + b;
      CountKeyConcat(a[1..], b, key, k);
    }
  }
}
