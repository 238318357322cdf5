/** Python's `sorted(xs, key=...)` for the keys the results code uses: an
    integer, or one of the floats `float("-inf")` / `float("inf")` standing in
    for a missing value. Python's sort is stable, and so is this one. */
module StableSort {

  /** A sort key: an integer or an infinity. */
  datatype Ext = NegInf | Fin(n: int) | PosInf

  predicate ExtLe(a: Ext, b: Ext) {
    match (a, b)
    case (NegInf, _) => true
    case (_, PosInf) => true
    case (Fin(x), Fin(y)) => x <= y
    case _ => false
  }

  /** The key negated: sorting ascending on the negated key is Python's
      `reverse=True`, which keeps equal elements in their original order. */
  function Negate(a: Ext): Ext {
    match a
    case NegInf => PosInf
    case Fin(x) => Fin(-x)
    case PosInf => NegInf
  }

  /** Negation reverses the order. */
  lemma NegateReverses(a: Ext, b: Ext)
    ensures ExtLe(Negate(a), Negate(b)) <==> ExtLe(b, a)
  {
  }

  lemma ExtLeTotal(a: Ext, b: Ext)
    ensures ExtLe(a, b) || ExtLe(b, a)
  {
  }

  lemma ExtLeTransitive(a: Ext, b: Ext, c: Ext)
    requires ExtLe(a, b) && ExtLe(b, c)
    ensures ExtLe(a, c)
  {
  }

  /** Equal keys are the only keys that are mutually at most each other. */
  lemma ExtLeAntisymmetric(a: Ext, b: Ext)
    requires ExtLe(a, b) && ExtLe(b, a)
    ensures a == b
  {
  }

  ghost predicate Sorted<T>(s: seq<T>, key: T -> Ext) {
    forall i, j :: 0 <= i < j < |s| ==> ExtLe(key(s[i]), key(s[j]))
  }

  /** Inserts `x` in front of the first element whose key is not smaller, so
      that `x` lands before the elements with the same key. */
  function Insert<T>(x: T, t: seq<T>, key: T -> Ext): (r: seq<T>)
    ensures |r| == |t| + 1
    ensures multiset(r) == multiset(t) + multiset{x}
    decreases |t|
  {
    if t == [] || ExtLe(key(x), key(t[0])) then [x] + t
    else
      assert t == [t[0]] + t[1..];
      [t[0]] + Insert(x, t[1..], key)
  }

  /** The stable ascending sort: elements with equal keys keep their order. */
  function Sort<T>(s: seq<T>, key: T -> Ext): (r: seq<T>)
    ensures |r| == |s|
    ensures multiset(r) == multiset(s)
    decreases |s|
  {
    if s == [] then []
    else
      assert s == [s[0]] + s[1..];
      Insert(s[0], Sort(s[1..], key), key)
  }

  /** The elements of `s` whose key is `k`, in their order in `s`. */
  function WithKey<T>(s: seq<T>, key: T -> Ext, k: Ext): seq<T>
    decreases |s|
  {
    if s == [] then [] else (if key(s[0]) == k then [s[0]] else []) + WithKey(s[1..], key, k)
  }

  lemma {:induction false} InsertKeepsSorted<T>(x: T, t: seq<T>, key: T -> Ext)
    requires Sorted(t, key)
    ensures Sorted(Insert(x, t, key), key)
    decreases |t|
  {
    if t == [] || ExtLe(key(x), key(t[0])) {
      var r := [x] + t;
      forall i, j | 0 <= i < j < |r| ensures ExtLe(key(r[i]), key(r[j])) {
        if i == 0 {
          ExtLeTransitive(key(x), key(t[0]), key(t[j - 1]));
        }
      }
    } else {
      InsertKeepsSorted(x, t[1..], key);
      var rest := Insert(x, t[1..], key);
      var r := [t[0]] + rest;
      assert multiset(rest) == multiset(t[1..]) + multiset{x};
      forall j | 0 <= j < |rest| ensures ExtLe(key(t[0]), key(rest[j])) {
        assert rest[j] in multiset(rest);
        if rest[j] == x {
          ExtLeTotal(key(x), key(t[0]));
        } else {
          assert rest[j] in multiset(t[1..]);
          assert rest[j] in t[1..];
        }
      }
      forall i, j | 0 <= i < j < |r| ensures ExtLe(key(r[i]), key(r[j])) {
        if i > 0 {
          assert r[i] == rest[i - 1] && r[j] == rest[j - 1];
        }
      }
    }
  }

  /** The sort orders its result by key. */
  lemma {:induction false} SortIsSorted<T>(s: seq<T>, key: T -> Ext)
    ensures Sorted(Sort(s, key), key)
    decreases |s|
  {
    if s != [] {
      SortIsSorted(s[1..], key);
      InsertKeepsSorted(s[0], Sort(s[1..], key), key);
    }
  }

  /** The element `x` when its key is `k`, otherwise nothing. */
  function KeptIfKey<T>(x: T, key: T -> Ext, k: Ext): seq<T> {
    if key(x) == k then [x] else []
  }

  lemma WithKeyCons<T>(x: T, s: seq<T>, key: T -> Ext, k: Ext)
    ensures WithKey([x] + s, key, k) == KeptIfKey(x, key, k) + WithKey(s, key, k)
  {
    assert ([x] + s)[0] == x;
    assert ([x] + s)[1..] == s;
  }

  lemma {:induction false} WithKeyAppend<T>(a: seq<T>, b: seq<T>, key: T -> Ext, k: Ext)
    ensures WithKey(a + b, key, k) == WithKey(a, key, k) + WithKey(b, key, k)
    decreases |a|
  {
    if a == [] {
      assert a + b == b;
    } else {
      var h := KeptIfKey(a[0], key, k);
      assert a == [a[0]] + a[1..];
      assert a + b == [a[0]] + (a[1..] + b);
      WithKeyCons(a[0], a[1..] + b, key, k);
      WithKeyCons(a[0], a[1..], key, k);
      WithKeyAppend(a[1..], b, key, k);
      assert h + (WithKey(a[1..], key, k) + WithKey(b, key, k)) == (h + WithKey(a[1..], key, k)) + WithKey(b, key, k);
    }
  }

  lemma {:induction false} InsertWithKey<T>(x: T, t: seq<T>, key: T -> Ext, k: Ext)
    ensures WithKey(Insert(x, t, key), key, k) == WithKey([x] + t, key, k)
    decreases |t|
  {
    if t == [] || ExtLe(key(x), key(t[0])) {
    } else {
      var y := t[0];
      var rest := t[1..];
      assert t == [y] + rest;
      var hx := KeptIfKey(x, key, k);
      var hy := KeptIfKey(y, key, k);
      var wr := WithKey(rest, key, k);
      InsertWithKey(x, rest, key, k);
      WithKeyCons(y, Insert(x, rest, key), key, k);
      WithKeyCons(x, rest, key, k);
      WithKeyCons(x, t, key, k);
      WithKeyCons(y, rest, key, k);
      // WithKey(Insert(x, t)) == hy + (hx + wr), and WithKey([x] + t) == hx + (hy + wr)
      assert ExtLe(key(y), key(y));
      if key(y) == k {
        assert key(x) != k;
        assert hx == [];
      } else {
        assert hy == [];
      }
      assert hy + (hx + wr) == hx + (hy + wr);
    }
  }

  /** Stability: for every key, the elements carrying it appear in the sorted
      output in exactly the order they had in the input. */
  lemma {:induction false} SortIsStable<T>(s: seq<T>, key: T -> Ext, k: Ext)
    ensures WithKey(Sort(s, key), key, k) == WithKey(s, key, k)
    decreases |s|
  {
    if s != [] {
      SortIsStable(s[1..], key, k);
      InsertWithKey(s[0], Sort(s[1..], key), key, k);
      WithKeyAppend([s[0]], Sort(s[1..], key), key, k);
      WithKeyAppend([s[0]], s[1..], key, k);
      assert [s[0]] + s[1..] == s;
    }
  }
}
