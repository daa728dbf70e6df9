/** The stable sort by a string key behind `sort_by` and `sort`. */
module Sorting {
  import opened Text

  function Insert<T>(key: T -> string, x: T, sorted: seq<T>): seq<T> {
    if sorted == [] || LessEq(key(x), key(sorted[0])) then [x] + sorted
    else [sorted[0]] + Insert(key, x, sorted[1..])
  }

  function Sort<T>(key: T -> string, s: seq<T>): seq<T> {
    if s == [] then [] else Insert(key, s[0], Sort(key, s[1..]))
  }

  ghost predicate Sorted<T>(key: T -> string, s: seq<T>) {
    forall i, j :: 0 <= i < j < |s| ==> LessEq(key(s[i]), key(s[j]))
  }

  /** The keys of a sequence. */
  function Keys<T>(key: T -> string, s: seq<T>): set<string> {
    set i | 0 <= i < |s| :: key(s[i])
  }

  lemma {:induction false} InsertLaw<T>(key: T -> string, x: T, s: seq<T>)
    requires Sorted(key, s)
    ensures Sorted(key, Insert(key, x, s))
    ensures multiset(Insert(key, x, s)) == multiset([x] + s)
  {
    if s == [] {
    } else if LessEq(key(x), key(s[0])) {
      forall j | 0 <= j < |s| ensures LessEq(key(x), key(s[j])) {
        LessEqTotal(key(s[0]), key(s[j]));
        LessEqTransitive(key(x), key(s[0]), key(s[j]));
      }
    } else {
      var tail := Insert(key, x, s[1..]);
      InsertLaw(key, x, s[1..]);
      assert s == [s[0]] + s[1..];
      LessEqTotal(key(x), key(s[0]));
      forall j | 0 <= j < |tail| ensures LessEq(key(s[0]), key(tail[j])) {
        assert tail[j] in multiset(tail);
        assert tail[j] in [x] + s[1..];
      }
    }
  }

  /** Sorting gives an ordered permutation. */
  lemma {:induction false} SortLaw<T>(key: T -> string, s: seq<T>)
    ensures Sorted(key, Sort(key, s))
    ensures multiset(Sort(key, s)) == multiset(s)
    ensures |Sort(key, s)| == |s|
    ensures forall x :: x in Sort(key, s) <==> x in s
  {
    if s != [] {
      SortLaw(key, s[1..]);
      InsertLaw(key, s[0], Sort(key, s[1..]));
      assert s == [s[0]] + s[1..];
    }
    assert |multiset(Sort(key, s))| == |multiset(s)|;
    forall x ensures x in Sort(key, s) <==> x in s {
      assert x in Sort(key, s) <==> x in multiset(Sort(key, s));
    }
  }

  /** Sorting an ordered sequence changes nothing. */
  lemma {:induction false} SortOfSorted<T>(key: T -> string, s: seq<T>)
    requires Sorted(key, s)
    ensures Sort(key, s) == s
  {
    if s != [] {
      SortOfSorted(key, s[1..]);
      if |s| > 1 {
        assert LessEq(key(s[0]), key(s[1]));
      }
    }
  }

  /** The elements that have a given key, in their order. */
  function WithKey<T>(key: T -> string, s: seq<T>, k: string): seq<T> {
    if s == [] then [] else (if key(s[0]) == k then [s[0]] else []) + WithKey(key, s[1..], k)
  }

  lemma {:induction false} InsertIsStable<T>(key: T -> string, x: T, s: seq<T>, k: string)
    ensures WithKey(key, Insert(key, x, s), k) == (if key(x) == k then [x] else []) + WithKey(key, s, k)
  {
    var inserted := Insert(key, x, s);
    hide LessEq;
    if s == [] || LessEq(key(x), key(s[0])) {
      assert inserted[1..] == s;
    } else {
      InsertIsStable(key, x, s[1..], k);
      assert inserted[1..] == Insert(key, x, s[1..]);
      LessEqTotal(key(x), key(x));
      assert key(x) != key(s[0]);
      if key(x) == k {
        assert [] + ([x] + WithKey(key, s[1..], k)) == [x] + ([] + WithKey(key, s[1..], k));
      }
    }
  }

  /** Sorting leaves elements of one key in their order. */
  lemma {:induction false} SortIsStable<T>(key: T -> string, s: seq<T>, k: string)
    ensures WithKey(key, Sort(key, s), k) == WithKey(key, s, k)
  {
    if s != [] {
      SortIsStable(key, s[1..], k);
      InsertIsStable(key, s[0], Sort(key, s[1..]), k);
    }
  }

  function Map<T, U>(f: T -> U, s: seq<T>): (r: seq<U>)
    ensures |r| == |s|
    ensures forall i :: 0 <= i < |s| ==> r[i] == f(s[i])
  {
    if s == [] then [] else [f(s[0])] + Map(f, s[1..])
  }

  /** A function that keeps keys commutes with sorting. */
  lemma {:induction false} SortOfMap<T, U>(key: T -> string, key': U -> string, f: T -> U, s: seq<T>)
    requires forall x :: x in s ==> key'(f(x)) == key(x)
    ensures Sort(key', Map(f, s)) == Map(f, Sort(key, s))
  {
    if s != [] {
      assert Map(f, s)[1..] == Map(f, s[1..]);
      SortOfMap(key, key', f, s[1..]);
      SortLaw(key, s[1..]);
      forall y | y in Sort(key, s[1..]) ensures key'(f(y)) == key(y) {
        assert y in multiset(Sort(key, s[1..]));
        assert y in s[1..];
      }
      InsertOfMap(key, key', f, s[0], Sort(key, s[1..]));
    }
  }

  lemma {:induction false} InsertOfMap<T, U>(key: T -> string, key': U -> string, f: T -> U, x: T, s: seq<T>)
    requires key'(f(x)) == key(x) && forall y :: y in s ==> key'(f(y)) == key(y)
    ensures Insert(key', f(x), Map(f, s)) == Map(f, Insert(key, x, s))
  {
    if s != [] && !LessEq(key(x), key(s[0])) {
      assert Map(f, s)[1..] == Map(f, s[1..]);
      InsertOfMap(key, key', f, x, s[1..]);
    }
  }

  ghost predicate Distinct<T>(key: T -> string, s: seq<T>) {
    forall i, j :: 0 <= i < j < |s| ==> key(s[i]) != key(s[j])
  }

  lemma KeysOfAppended<T>(key: T -> string, s: seq<T>, x: T)
    ensures Keys(key, s + [x]) == Keys(key, s) + {key(x)}
    ensures Distinct(key, s + [x]) <==> Distinct(key, s) && key(x) !in Keys(key, s)
  {
    var all := s + [x];
    assert all[|s|] == x && forall i :: 0 <= i < |s| ==> all[i] == s[i];
    forall k ensures k in Keys(key, all) <==> k in Keys(key, s) + {key(x)} {
      if k in Keys(key, all) {
        var i :| 0 <= i < |all| && k == key(all[i]);
      }
      if k in Keys(key, s) {
        var i :| 0 <= i < |s| && k == key(s[i]);
        assert key(all[i]) == k;
      }
      assert key(all[|s|]) == key(x);
    }
    if Distinct(key, s) && key(x) !in Keys(key, s) {
      forall i, j | 0 <= i < j < |all| ensures key(all[i]) != key(all[j]) {
        assert key(s[i]) in Keys(key, s);
      }
    }
    if Distinct(key, all) {
      forall i, j | 0 <= i < j < |s| ensures key(s[i]) != key(s[j]) {
        assert key(all[i]) != key(all[j]);
      }
      forall i | 0 <= i < |s| ensures key(s[i]) != key(x) {
        assert key(all[i]) != key(all[|s|]);
      }
    }
  }

  /** A sequence repeats no key exactly when it has as many keys as elements. */
  lemma {:induction false} UniqueIffAllKeys<T>(key: T -> string, s: seq<T>)
    ensures |Keys(key, s)| <= |s|
    ensures |Keys(key, s)| == |s| <==> Distinct(key, s)
  {
    if s == [] {
      assert Keys(key, s) == {};
    } else {
      var n := |s| - 1;
      UniqueIffAllKeys(key, s[..n]);
      KeysOfAppended(key, s[..n], s[n]);
      hide Distinct, Keys;
      assert s[..n] + [s[n]] == s;
    }
  }
}
