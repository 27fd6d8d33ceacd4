/** Go maps from string keys to integers, read with a zero default, and finite sums over them. */
module GoMaps {

  /** The shape of every count map and every vector clock in the system. */
  type Counts = map<string, int>

  /** Reading a Go map: a missing key reads as zero. */
  function Get(m: Counts, k: string): int {
    if k in m then m[k] else 0
  }

  function Max(a: int, b: int): int {
    if a >= b then a else b
  }

  /** Every stored entry is above zero. */
  ghost predicate Positive(m: Counts) {
    forall k :: k in m ==> m[k] > 0
  }

  /** Pointwise order on lookups. */
  ghost predicate Leq(a: Counts, b: Counts) {
    forall k :: Get(a, k) <= Get(b, k)
  }

  /** The in-place max-merge loop of PNCounter.Merge, VectorClock.MergeMap and MergeClock: an entry of b
      replaces a's only when it is larger than what a reads at that key. */
  function MergeMax(a: Counts, b: Counts): Counts {
    map k | k in a.Keys + b.Keys && (k in a || b[k] > 0) ::
      if k in b && b[k] > Get(a, k) then b[k] else a[k]
  }

  /** On positive entries the loop computes the pointwise maximum. */
  lemma MergeGet(a: Counts, b: Counts)
    requires Positive(a)
    ensures Positive(MergeMax(a, b))
    ensures forall k :: Get(MergeMax(a, b), k) == Max(Get(a, k), Get(b, k))
  {
  }

  /** The same at one key. */
  lemma MergeGetAt(a: Counts, b: Counts, k: string)
    requires k in a ==> a[k] > 0
    ensures Get(MergeMax(a, b), k) == Max(Get(a, k), Get(b, k))
  {
  }

  lemma MergeBounds(a: Counts, b: Counts, c: Counts)
    requires Positive(a)
    ensures Positive(MergeMax(a, b))
    ensures Leq(a, MergeMax(a, b)) && Leq(b, MergeMax(a, b))
    ensures Leq(a, c) && Leq(b, c) ==> Leq(MergeMax(a, b), c)
  {
    MergeGet(a, b);
  }

  /** Maps with only positive entries are determined by their lookups. */
  lemma Extensional(a: Counts, b: Counts)
    requires Positive(a) && Positive(b)
    requires forall k :: Get(a, k) == Get(b, k)
    ensures a == b
  {
    assert forall k :: k in a <==> Get(a, k) > 0;
    assert forall k :: k in b <==> Get(b, k) > 0;
    assert a.Keys == b.Keys;
    forall k | k in a ensures a[k] == b[k] {
      assert Get(a, k) == Get(b, k);
    }
  }

  lemma MergeSame(a: Counts, b: Counts, c: Counts)
    requires Positive(a)
    requires forall k :: Max(Get(a, k), Get(b, k)) == Max(Get(a, k), Get(c, k))
    ensures MergeMax(a, b) == MergeMax(a, c)
  {
    MergeGet(a, b);
    MergeGet(a, c);
    Extensional(MergeMax(a, b), MergeMax(a, c));
  }

  /** Merging into an empty map keeps the entries above zero. */
  lemma MergeIntoEmptyIff(m: Counts)
    ensures MergeMax(map[], m) == m <==> Positive(m)
    ensures MergeMax(map[], m) == map[] <==> forall k :: k in m ==> m[k] <= 0
  {
    var r := MergeMax(map[], m);
    assert forall k :: k in r <==> k in m && m[k] > 0;
    assert forall k :: k in r ==> r[k] == m[k];
    if Positive(m) {
      assert r.Keys == m.Keys;
    } else {
      var k :| k in m && m[k] <= 0;
      assert k !in r;
    }
    if forall k :: k in m ==> m[k] <= 0 {
      assert r.Keys == {};
    }
  }

  /** Maps that differ at most at p agree everywhere else. */
  lemma OtherKey<K, V>(f: map<K, V>, f': map<K, V>, p: K, q: K)
    requires f' - {p} == f - {p} && q != p
    ensures q in f <==> q in f'
    ensures q in f ==> f[q] == f'[q]
  {
    assert q in f <==> q in f - {p};
    assert q in f' <==> q in f' - {p};
    assert q in f ==> f[q] == (f - {p})[q];
    assert q in f' ==> f'[q] == (f' - {p})[q];
  }

  // ----- finite sums -----

  /** Sum of f over a finite set, in no particular order. */
  ghost function Sum<T>(s: set<T>, f: T -> int): int {
    if s == {} then 0 else
      var x :| x in s;
      f(x) + Sum(s - {x}, f)
  }

  lemma {:induction false} SumRemove<T>(s: set<T>, f: T -> int, x: T)
    requires x in s
    ensures Sum(s, f) == f(x) + Sum(s - {x}, f)
    decreases |s|
  {
    var y :| y in s && Sum(s, f) == f(y) + Sum(s - {y}, f);
    if y != x {
      SumRemove(s - {y}, f, x);
      SumRemove(s - {x}, f, y);
      assert s - {y} - {x} == s - {x} - {y};
    }
  }

  lemma {:induction false} SumCongruent<T>(s: set<T>, f: T -> int, g: T -> int)
    requires forall x :: x in s ==> f(x) == g(x)
    ensures Sum(s, f) == Sum(s, g)
    decreases |s|
  {
    if s != {} {
      var x :| x in s;
      SumRemove(s, f, x);
      SumRemove(s, g, x);
      SumCongruent(s - {x}, f, g);
    }
  }

  lemma {:induction false} SumMonotone<T>(s: set<T>, f: T -> int, g: T -> int)
    requires forall x :: x in s ==> f(x) <= g(x)
    ensures Sum(s, f) <= Sum(s, g)
    decreases |s|
  {
    if s != {} {
      var x :| x in s;
      SumRemove(s, f, x);
      SumRemove(s, g, x);
      SumMonotone(s - {x}, f, g);
    }
  }

  lemma SumStrict<T>(s: set<T>, f: T -> int, g: T -> int, w: T)
    requires forall x :: x in s ==> f(x) <= g(x)
    requires w in s && f(w) < g(w)
    ensures Sum(s, f) < Sum(s, g)
  {
    SumRemove(s, f, w);
    SumRemove(s, g, w);
    SumMonotone(s - {w}, f, g);
  }

  /** Elements on which f is zero may be added to or dropped from the index set. */
  lemma {:induction false} SumSuperset<T>(s: set<T>, t: set<T>, f: T -> int)
    requires s <= t
    requires forall x :: x in t - s ==> f(x) == 0
    ensures Sum(s, f) == Sum(t, f)
    decreases |t|
  {
    if t - s == {} {
      assert s == t;
    } else {
      var x :| x in t - s;
      SumRemove(t, f, x);
      SumSuperset(s, t - {x}, f);
    }
  }

  lemma {:induction false} SumSplit<T>(s: set<T>, t: set<T>, f: T -> int)
    requires s !! t
    ensures Sum(s + t, f) == Sum(s, f) + Sum(t, f)
    decreases |s|
  {
    if s == {} {
      assert s + t == t;
    } else {
      var x :| x in s;
      SumRemove(s, f, x);
      SumRemove(s + t, f, x);
      assert s + t - {x} == (s - {x}) + t;
      SumSplit(s - {x}, t, f);
    }
  }

  lemma {:induction false} SumDifference<T>(s: set<T>, f: T -> int, g: T -> int, h: T -> int)
    requires forall x :: x in s ==> h(x) == f(x) - g(x)
    ensures Sum(s, h) == Sum(s, f) - Sum(s, g)
    decreases |s|
  {
    if s != {} {
      var x :| x in s;
      SumRemove(s, f, x);
      SumRemove(s, g, x);
      SumRemove(s, h, x);
      SumDifference(s - {x}, f, g, h);
    }
  }

  lemma {:induction false} SumNonNegative<T>(s: set<T>, f: T -> int)
    requires forall x :: x in s ==> 0 <= f(x)
    ensures 0 <= Sum(s, f)
    decreases |s|
  {
    if s != {} {
      var x :| x in s;
      SumRemove(s, f, x);
      SumNonNegative(s - {x}, f);
    }
  }

  /** What Value computes from one count map: the sum of all its entries. */
  ghost function Total(m: Counts): int {
    Sum(m.Keys, k => Get(m, k))
  }
}
