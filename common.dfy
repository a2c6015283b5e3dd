/** Small shared vocabulary: optional values, status-carrying results, the
    order-keeping filter that JavaScript's `Array.prototype.filter` performs,
    and the stable sort that `Array.prototype.sort` with a numeric comparator
    performs. */
module Common {

  datatype Option<+T> = None | Some(value: T)

  /** A server answer: a value, or an HTTP status code for the error path. */
  datatype Result<+T> = Ok(value: T) | Err(status: int)

  /** The score weight used where none is given: a new draft's weight, and
      what `weight || 10` puts in place of a falsy weight. */
  const DefaultWeight: int := 10

  /** JavaScript's `w || d` on a number: every falsy weight (0; null and NaN
      are represented by 0) is replaced by the default. */
  function OrDefault(w: int, d: int): (r: int)
    ensures w != 0 ==> r == w
    ensures w == 0 ==> r == d
  {
    if w == 0 then d else w
  }

  /** The elements of `s` that satisfy `p`, in their original order. */
  function Filter<T>(s: seq<T>, p: T -> bool): (r: seq<T>)
    ensures |r| <= |s|
    ensures forall i :: 0 <= i < |r| ==> r[i] in s && p(r[i])
    ensures forall i :: 0 <= i < |s| && p(s[i]) ==> s[i] in r
  {
    if s == [] then []
    else (if p(s[0]) then [s[0]] else []) + Filter(s[1..], p)
  }

  /** The head and tail of a concatenation with a non-empty front. */
  lemma AppendTail<T>(a: seq<T>, b: seq<T>)
    requires a != []
    ensures (a + b)[0] == a[0] && (a + b)[1..] == a[1..] + b
  {
  }

  lemma AppendAssoc<T>(x: seq<T>, y: seq<T>, z: seq<T>)
    ensures x + (y + z) == (x + y) + z
  {
  }

  lemma {:induction false} FilterAppend<T>(a: seq<T>, b: seq<T>, p: T -> bool)
    ensures Filter(a + b, p) == Filter(a, p) + Filter(b, p)
  {
    if a == [] {
      assert a + b == b;
    } else {
      AppendTail(a, b);
      FilterAppend(a[1..], b, p);
    }
  }

  /** Filtering keeps everything exactly when every element passes. */
  lemma {:induction false} FilterKeepsAll<T>(s: seq<T>, p: T -> bool)
    requires forall i :: 0 <= i < |s| ==> p(s[i])
    ensures Filter(s, p) == s
  {
    if s != [] {
      FilterKeepsAll(s[1..], p);
    }
  }

  /** Filtering drops everything exactly when nothing passes. */
  lemma {:induction false} FilterDropsAll<T>(s: seq<T>, p: T -> bool)
    requires forall i :: 0 <= i < |s| ==> !p(s[i])
    ensures Filter(s, p) == []
  {
    if s != [] {
      FilterDropsAll(s[1..], p);
    }
  }

  /** The first position of `x` in `s`: what `findIndex` (or a lookup in
      an object keyed by distinct names) answers. */
  function IndexOf<T(==)>(s: seq<T>, x: T): (r: Option<nat>)
    ensures r.Some? ==> r.value < |s| && s[r.value] == x
    ensures r.Some? ==> forall j :: 0 <= j < r.value ==> s[j] != x
    ensures r.None? <==> x !in s
  {
    if s == [] then None
    else if s[0] == x then Some(0)
    else match IndexOf(s[1..], x)
      case None => None
      case Some(k) => Some(k + 1)
  }

  /** The first position is determined by its two defining facts. */
  lemma IndexOfAt<T>(s: seq<T>, x: T, k: nat)
    requires k < |s| && s[k] == x
    requires forall j :: 0 <= j < k ==> s[j] != x
    ensures IndexOf(s, x) == Some(k)
  {
  }

  /** Looking up in a sequence that grew by one element at the end. */
  lemma IndexOfSnoc<T>(a: seq<T>, y: T, x: T)
    ensures IndexOf(a + [y], x) ==
      if x in a then IndexOf(a, x) else if x == y then Some(|a|) else None
  {
    if x in a {
      var k := IndexOf(a, x).value;
      IndexOfAt(a + [y], x, k);
    } else if x == y {
      IndexOfAt(a + [y], x, |a|);
    }
  }

  /** A sequence without repeated elements. */
  predicate NoDup<T(==)>(s: seq<T>)
  {
    forall i, j :: 0 <= i < j < |s| ==> s[i] != s[j]
  }

  /** The set of a duplicate-free sequence has as many elements as the sequence. */
  lemma {:induction false} NoDupCard<T>(s: seq<T>)
    requires NoDup(s)
    ensures |set x | x in s| == |s|
  {
    if s != [] {
      var t := s[1..];
      NoDupCard(t);
      assert (set x | x in s) == (set x | x in t) + {s[0]};
      assert s[0] !in t by {
        forall k | 0 <= k < |t| ensures t[k] != s[0] {
          assert s[k + 1] == t[k];
        }
      }
    }
  }

  /** `key` is non-decreasing along `s`. */
  predicate SortedBy<T>(s: seq<T>, key: T -> int)
  {
    forall i, j :: 0 <= i < j < |s| ==> key(s[i]) <= key(s[j])
  }

  /** A head no larger than every element of a sorted tail keeps it sorted. */
  lemma ConsSorted<T>(h: T, rest: seq<T>, key: T -> int)
    requires SortedBy(rest, key)
    requires forall i :: 0 <= i < |rest| ==> key(h) <= key(rest[i])
    ensures SortedBy([h] + rest, key)
  {
    forall i, j | 0 <= i < j < |[h] + rest| ensures key(([h] + rest)[i]) <= key(([h] + rest)[j]) {
      assert ([h] + rest)[j] == rest[j - 1];
      if i > 0 {
        assert ([h] + rest)[i] == rest[i - 1];
      }
    }
  }

  /** Every element of the insertion of `x` into the tail of a sorted `t` is
      at least the head of `t`, when `x` is. */
  lemma HeadBelow<T>(x: T, t: seq<T>, rest: seq<T>, key: T -> int)
    requires t != [] && SortedBy(t, key) && key(t[0]) <= key(x)
    requires forall i :: 0 <= i < |rest| ==> rest[i] == x || rest[i] in t[1..]
    ensures forall i :: 0 <= i < |rest| ==> key(t[0]) <= key(rest[i])
  {
    forall i | 0 <= i < |rest| ensures key(t[0]) <= key(rest[i]) {
      if rest[i] != x {
        var k :| 0 <= k < |t[1..]| && t[1..][k] == rest[i];
        assert t[k + 1] == rest[i];
      }
    }
  }

  /** Puts `x` in front of the first element whose key is not smaller. */
  function InsertBy<T>(x: T, t: seq<T>, key: T -> int): (r: seq<T>)
    requires SortedBy(t, key)
    ensures SortedBy(r, key)
    ensures multiset(r) == multiset(t) + multiset{x}
    ensures |r| == |t| + 1
    ensures forall i :: 0 <= i < |r| ==> r[i] == x || r[i] in t
  {
    if t == [] || key(x) <= key(t[0]) then [x] + t
    else
      var rest := InsertBy(x, t[1..], key);
      assert t == [t[0]] + t[1..];
      HeadBelow(x, t, rest, key);
      ConsSorted(t[0], rest, key);
      [t[0]] + rest
  }

  /** Stable insertion sort by an integer key: the order that JavaScript's
      stable `sort((a, b) => key(a) - key(b))` produces. */
  function SortBy<T>(s: seq<T>, key: T -> int): (r: seq<T>)
    ensures SortedBy(r, key)
    ensures multiset(r) == multiset(s)
    ensures |r| == |s|
  {
    if s == [] then []
    else
      assert s == [s[0]] + s[1..];
      InsertBy(s[0], SortBy(s[1..], key), key)
  }

  /** Sorting leaves an already sorted sequence as it is. */
  lemma {:induction false} SortBySorted<T>(s: seq<T>, key: T -> int)
    requires SortedBy(s, key)
    ensures SortBy(s, key) == s
  {
    if s != [] {
      SortBySorted(s[1..], key);
    }
  }

  /** Moving the head of `b` to the end of `a` keeps the concatenation. */
  lemma ShiftHead<T>(a: seq<T>, b: seq<T>)
    requires b != []
    ensures a + [b[0]] + b[1..] == a + b
  {
    assert b == [b[0]] + b[1..];
  }

  /** Sorting the selected elements keeps exactly the selected elements. */
  lemma SortedSelection<T>(s: seq<T>, p: T -> bool, key: T -> int)
    ensures forall i :: 0 <= i < |SortBy(Filter(s, p), key)| ==>
              p(SortBy(Filter(s, p), key)[i]) && SortBy(Filter(s, p), key)[i] in s
    ensures forall k :: 0 <= k < |s| && p(s[k]) ==> s[k] in SortBy(Filter(s, p), key)
  {
    var f := Filter(s, p);
    var r := SortBy(f, key);
    forall i | 0 <= i < |r| ensures p(r[i]) && r[i] in s {
      assert r[i] in multiset(f);
    }
    forall k | 0 <= k < |s| && p(s[k]) ensures s[k] in r {
      assert s[k] in multiset(r);
    }
  }

  /** Filtering a one-element sequence. */
  lemma FilterSingle<T>(x: T, p: T -> bool)
    ensures Filter([x], p) == if p(x) then [x] else []
  {
    assert [x][1..] == [];
  }

  /** Two neighbours that are not both selected may trade places. */
  lemma FilterSwap<T>(a: T, b: T, c: seq<T>, p: T -> bool)
    requires !(p(a) && p(b))
    ensures Filter([a] + ([b] + c), p) == Filter([b] + ([a] + c), p)
  {
    FilterAppend([a], [b] + c, p);
    FilterAppend([b], c, p);
    FilterAppend([b], [a] + c, p);
    FilterAppend([a], c, p);
    FilterSingle(a, p);
    FilterSingle(b, p);
    SwapPastEmpty(Filter([a], p), Filter([b], p), Filter(c, p));
  }

  /** Two blocks trade places when one of them is empty. */
  lemma SwapPastEmpty<T>(x: seq<T>, y: seq<T>, z: seq<T>)
    requires x == [] || y == []
    ensures x + (y + z) == y + (x + z)
  {
    if x == [] {
      assert x + (y + z) == y + z && x + z == z;
    } else {
      assert y + z == z && y + (x + z) == x + z;
    }
  }

  /** Inserting keeps the relative order of the elements of any one key
      value `k` (`p` tells them apart): `x` lands before every element of `t`
      with the same key. */
  lemma {:induction false} InsertByStable<T>(x: T, t: seq<T>, key: T -> int, k: int, p: T -> bool)
    requires SortedBy(t, key)
    requires forall y :: p(y) <==> key(y) == k
    ensures Filter(InsertBy(x, t, key), p) == Filter([x] + t, p)
  {
    if t == [] || key(x) <= key(t[0]) {
    } else {
      var t0, tail := t[0], t[1..];
      assert t == [t0] + tail;
      var rest := InsertBy(x, tail, key);
      assert InsertBy(x, t, key) == [t0] + rest;
      InsertByStable(x, tail, key, k, p);
      FilterAppend([t0], rest, p);
      FilterAppend([t0], [x] + tail, p);
      assert !(p(t0) && p(x));
      FilterSwap(t0, x, tail, p);
    }
  }

  /** The sort is stable: the elements with any one key value `k` (those
      that `p` selects) keep the order they had in the input. */
  lemma {:induction false} SortByStable<T>(s: seq<T>, key: T -> int, k: int, p: T -> bool)
    requires forall y :: p(y) <==> key(y) == k
    ensures Filter(SortBy(s, key), p) == Filter(s, p)
  {
    if s != [] {
      var s0, tail := s[0], s[1..];
      assert s == [s0] + tail;
      var sortedTail := SortBy(tail, key);
      assert SortBy(s, key) == InsertBy(s0, sortedTail, key);
      SortByStable(tail, key, k, p);
      InsertByStable(s0, sortedTail, key, k, p);
      FilterAppend([s0], sortedTail, p);
      FilterAppend([s0], tail, p);
    }
  }
}
