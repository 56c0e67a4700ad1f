/**
 * Sequence operations the sorters lean on: JavaScript's `Array.prototype.flat`, `indexOf`,
 * `splice`, `slice` and the stable `Array.prototype.sort`, written once here.
 */
module Seqs {

  /** No element occurs twice. */
  predicate Distinct<T(==)>(s: seq<T>) {
    forall i, j :: 0 <= i < j < |s| ==> s[i] != s[j]
  }

  /** An element of a sequence without duplicates occurs in it at most once. */
  lemma {:induction false} DistinctCount<T>(s: seq<T>, v: T)
    requires Distinct(s)
    ensures multiset(s)[v] <= 1
  {
    if s != [] {
      assert Distinct(s[1..]) by {
        forall i, j | 0 <= i < j < |s[1..]| ensures s[1..][i] != s[1..][j] {
          assert s[1..][i] == s[i + 1] && s[1..][j] == s[j + 1];
        }
      }
      DistinctCount(s[1..], v);
      assert s == [s[0]] + s[1..];
      if s[0] == v {
        assert v !in s[1..];
      }
    }
  }

  /** `ss.flat()`: the groups concatenated in order. */
  function Flatten<T>(ss: seq<seq<T>>): seq<T> {
    if ss == [] then [] else Flatten(ss[..|ss| - 1]) + ss[|ss| - 1]
  }

  lemma {:induction false} FlattenAppend<T>(ss: seq<seq<T>>, g: seq<T>)
    ensures Flatten(ss + [g]) == Flatten(ss) + g
  {
    assert (ss + [g])[..|ss|] == ss;
  }

  lemma {:induction false} FlattenConcat<T>(ss: seq<seq<T>>, tt: seq<seq<T>>)
    ensures Flatten(ss + tt) == Flatten(ss) + Flatten(tt)
    decreases |tt|
  {
    if tt == [] {
      assert ss + tt == ss;
    } else {
      var init, last := tt[..|tt| - 1], tt[|tt| - 1];
      calc {
        Flatten(ss + tt);
        { assert ss + tt == (ss + init) + [last]; }
        Flatten((ss + init) + [last]);
        { FlattenAppend(ss + init, last); }
        Flatten(ss + init) + last;
        { FlattenConcat(ss, init); }
        Flatten(ss) + Flatten(init) + last;
        { assert Flatten(tt) == Flatten(init) + last; }
        Flatten(ss) + Flatten(tt);
      }
    }
  }

  /** Replacing the last group by a longer one only extends the flattening. */
  lemma FlattenPushLast<T>(ss: seq<seq<T>>, x: T)
    requires |ss| > 0
    ensures Flatten(ss[..|ss| - 1] + [ss[|ss| - 1] + [x]]) == Flatten(ss) + [x]
  {
    var init, last := ss[..|ss| - 1], ss[|ss| - 1];
    FlattenAppend(init, last + [x]);
    assert Flatten(ss) == Flatten(init) + last;
    assert Flatten(init) + (last + [x]) == (Flatten(init) + last) + [x];
  }

  /** `Array.prototype.indexOf` with `===`: the first position of `x`, or -1. */
  function IndexOf<T(==)>(s: seq<T>, x: T): (r: int)
    ensures -1 <= r < |s|
    ensures r == -1 <==> x !in s
    ensures r >= 0 ==> s[r] == x && forall k :: 0 <= k < r ==> s[k] != x
  {
    if s == [] then -1
    else if s[0] == x then 0
    else var k := IndexOf(s[1..], x); if k == -1 then -1 else k + 1
  }

  /** `s.splice(k, 1)` for `0 <= k < |s|`. */
  function RemoveAt<T>(s: seq<T>, k: nat): (r: seq<T>)
    requires k < |s|
    ensures |r| == |s| - 1
  {
    s[..k] + s[k + 1..]
  }

  lemma RemoveAtMultiset<T>(s: seq<T>, k: nat)
    requires k < |s|
    ensures multiset(RemoveAt(s, k)) == multiset(s) - multiset{s[k]}
  {
    assert s == s[..k] + [s[k]] + s[k + 1..];
  }

  /** `s.splice(k, 0, x)` for `0 <= k <= |s|`. */
  function InsertAt<T>(s: seq<T>, k: nat, x: T): (r: seq<T>)
    requires k <= |s|
    ensures |r| == |s| + 1
  {
    s[..k] + [x] + s[k..]
  }

  /** `s.slice(from, to)` with JavaScript's clamping of an end past the length. */
  function Slice<T>(s: seq<T>, from: nat, to: nat): (r: seq<T>)
    ensures |r| <= |s|
  {
    var hi := if to <= |s| then to else |s|;
    if from <= hi then s[from..hi] else []
  }

  /** The elements of `s` whose key is `v`, in order. */
  function WithKey<T>(s: seq<T>, key: T -> real, v: real): seq<T> {
    if s == [] then []
    else WithKey(s[..|s| - 1], key, v) + (if key(s[|s| - 1]) == v then [s[|s| - 1]] else [])
  }

  /**
   * One step of a stable insertion sort: `x` goes after every element whose key is at most its own.
   */
  function InsertBy<T>(s: seq<T>, x: T, key: T -> real): (r: seq<T>)
    ensures multiset(r) == multiset(s) + multiset{x}
  {
    if s == [] || key(s[|s| - 1]) <= key(x) then s + [x]
    else
      assert s == s[..|s| - 1] + [s[|s| - 1]];
      InsertBy(s[..|s| - 1], x, key) + [s[|s| - 1]]
  }

  /**
   * `Array.prototype.sort` with a comparator `(a, b) => key(a) - key(b)`. ECMA-262 requires the sort
   * to be stable (section 23.1.3.30.1, SortIndexedProperties), so elements with equal keys keep their
   * order; a descending comparator `(a, b) => key(b) - key(a)` is this sort on the negated key.
   */
  function SortBy<T>(s: seq<T>, key: T -> real): (r: seq<T>)
    ensures multiset(r) == multiset(s)
    ensures |r| == |s|
  {
    if s == [] then []
    else
      assert s == s[..|s| - 1] + [s[|s| - 1]];
      var r := InsertBy(SortBy(s[..|s| - 1], key), s[|s| - 1], key);
      assert |r| == |multiset(r)|;
      r
  }

  predicate SortedBy<T>(s: seq<T>, key: T -> real) {
    forall i, j :: 0 <= i < j < |s| ==> key(s[i]) <= key(s[j])
  }

  lemma {:induction false} InsertBySorted<T>(s: seq<T>, x: T, key: T -> real)
    requires SortedBy(s, key)
    ensures SortedBy(InsertBy(s, x, key), key)
    decreases |s|
  {
    if s == [] || key(s[|s| - 1]) <= key(x) {
    } else {
      var init, last := s[..|s| - 1], s[|s| - 1];
      assert SortedBy(init, key) by {
        forall i, j | 0 <= i < j < |init| ensures key(init[i]) <= key(init[j]) {
          assert init[i] == s[i] && init[j] == s[j];
        }
      }
      InsertBySorted(init, x, key);
      var t := InsertBy(init, x, key);
      assert InsertBy(s, x, key) == t + [last];
      var u := init + [x];
      forall i | 0 <= i < |u| ensures key(u[i]) <= key(last) {
        if i < |init| {
          assert u[i] == s[i];
        }
      }
      KeysBounded(t, u, key, key(last));
      SortedAppend(t, last, key);
    }
  }

  /** A rearrangement of elements whose keys are at most `b` has keys at most `b`. */
  lemma KeysBounded<T>(a: seq<T>, b: seq<T>, key: T -> real, bound: real)
    requires multiset(a) == multiset(b)
    requires forall i :: 0 <= i < |b| ==> key(b[i]) <= bound
    ensures forall i :: 0 <= i < |a| ==> key(a[i]) <= bound
  {
    forall i | 0 <= i < |a| ensures key(a[i]) <= bound {
      assert a[i] in multiset(b);
      var k :| 0 <= k < |b| && b[k] == a[i];
    }
  }

  lemma SortedAppend<T>(t: seq<T>, last: T, key: T -> real)
    requires SortedBy(t, key)
    requires forall i :: 0 <= i < |t| ==> key(t[i]) <= key(last)
    ensures SortedBy(t + [last], key)
  {
    forall i, j | 0 <= i < j < |t + [last]| ensures key((t + [last])[i]) <= key((t + [last])[j]) {
      assert (t + [last])[i] == t[i];
      if j < |t| {
        assert (t + [last])[j] == t[j];
      }
    }
  }

  /** The result of the stable sort is in ascending key order. */
  lemma {:induction false} SortBySorted<T>(s: seq<T>, key: T -> real)
    ensures SortedBy(SortBy(s, key), key)
    decreases |s|
  {
    if s != [] {
      SortBySorted(s[..|s| - 1], key);
      InsertBySorted(SortBy(s[..|s| - 1], key), s[|s| - 1], key);
    }
  }

  lemma {:induction false} WithKeyAppend<T>(s: seq<T>, t: seq<T>, key: T -> real, v: real)
    ensures WithKey(s + t, key, v) == WithKey(s, key, v) + WithKey(t, key, v)
    decreases |t|
  {
    if t == [] {
      assert s + t == s;
    } else {
      var init, last := t[..|t| - 1], t[|t| - 1];
      assert (s + t)[..|s + t| - 1] == s + init;
      WithKeyAppend(s, init, key, v);
    }
  }

  lemma {:induction false} InsertByStable<T>(s: seq<T>, x: T, key: T -> real, v: real)
    ensures WithKey(InsertBy(s, x, key), key, v) == WithKey(s + [x], key, v)
    decreases |s|
  {
    if s == [] || key(s[|s| - 1]) <= key(x) {
    } else {
      var init, last := s[..|s| - 1], s[|s| - 1];
      assert s == init + [last];
      calc {
        WithKey(InsertBy(s, x, key), key, v);
        { assert InsertBy(s, x, key) == InsertBy(init, x, key) + [last]; }
        WithKey(InsertBy(init, x, key) + [last], key, v);
        { WithKeyAppend(InsertBy(init, x, key), [last], key, v); }
        WithKey(InsertBy(init, x, key), key, v) + WithKey([last], key, v);
        { InsertByStable(init, x, key, v); }
        WithKey(init + [x], key, v) + WithKey([last], key, v);
        { WithKeyAppend(init, [x], key, v); }
        WithKey(init, key, v) + WithKey([x], key, v) + WithKey([last], key, v);
        { WithKeyAppend(init, [last], key, v); }
        WithKey(s, key, v) + WithKey([x], key, v);
        { WithKeyAppend(s, [x], key, v); }
        WithKey(s + [x], key, v);
      }
    }
  }

  /** Stability: the elements sharing any one key value come out in their input order. */
  lemma {:induction false} SortByStable<T>(s: seq<T>, key: T -> real, v: real)
    ensures WithKey(SortBy(s, key), key, v) == WithKey(s, key, v)
    decreases |s|
  {
    if s != [] {
      var init, last := s[..|s| - 1], s[|s| - 1];
      var sorted := SortBy(init, key);
      calc {
        WithKey(SortBy(s, key), key, v);
        { assert SortBy(s, key) == InsertBy(sorted, last, key); }
        WithKey(InsertBy(sorted, last, key), key, v);
        { InsertByStable(sorted, last, key, v); }
        WithKey(sorted + [last], key, v);
        { WithKeyAppend(sorted, [last], key, v); }
        WithKey(sorted, key, v) + WithKey([last], key, v);
        { SortByStable(init, key, v); }
        WithKey(init, key, v) + WithKey([last], key, v);
        { WithKeyAppend(init, [last], key, v); assert s == init + [last]; }
        WithKey(s, key, v);
      }
    }
  }

  /** Inserting an element whose key is at least the last one's appends it. */
  lemma InsertByAtEnd<T>(s: seq<T>, x: T, key: T -> real)
    requires s == [] || key(s[|s| - 1]) <= key(x)
    ensures InsertBy(s, x, key) == s + [x]
  {
  }

  /** A key that does not separate any two elements leaves the order unchanged. */
  lemma {:induction false} SortByConstantKey<T>(s: seq<T>, key: T -> real, c: real)
    requires forall k :: 0 <= k < |s| ==> key(s[k]) == c
    ensures SortBy(s, key) == s
    decreases |s|
  {
    if s != [] {
      var init, last := s[..|s| - 1], s[|s| - 1];
      assert s == init + [last];
      assert key(last) == c;
      assert init == [] || key(init[|init| - 1]) == c by {
        if init != [] {
          assert init[|init| - 1] == s[|s| - 2];
        }
      }
      SortByConstantKey(init, key, c);
      InsertByAtEnd(init, last, key);
    }
  }
}
