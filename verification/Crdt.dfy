/** The mutable CRDT objects and the delta helpers, as the loops and in-place updates of the code, each proved
    against the functions that the cluster and naming models are built from. */
module Crdt {
  import opened GoMaps
  import opened Keys
  import opened Replica
  import opened Naming

  function Restrict(m: Counts, ks: set<string>): Counts {
    map k | k in m && k in ks :: m[k]
  }

  /** The merge loop: entries of b that exceed what a reads there replace it, in whatever order b is visited. */
  method MergeInto(a: Counts, b: Counts) returns (r: Counts)
    ensures r == MergeMax(a, b)
  {
    r := a;
    var todo := b.Keys;
    assert Restrict(b, {}) == map[];
    while todo != {}
      invariant todo <= b.Keys
      invariant r == MergeMax(a, Restrict(b, b.Keys - todo))
    {
      var k :| k in todo;
      ghost var done := b.Keys - todo;
      if b[k] > Get(r, k) {
        r := r[k := b[k]];
      }
      todo := todo - {k};
      MergeOneMore(a, b, done, k);
      assert b.Keys - todo == done + {k};
    }
    assert Restrict(b, b.Keys) == b;
  }

  lemma MergeOneMore(a: Counts, b: Counts, done: set<string>, k: string)
    requires k in b && k !in done
    ensures var r := MergeMax(a, Restrict(b, done));
            MergeMax(a, Restrict(b, done + {k})) == if b[k] > Get(r, k) then r[k := b[k]] else r
  {
    var r, r' := MergeMax(a, Restrict(b, done)), MergeMax(a, Restrict(b, done + {k}));
    assert Get(r, k) == Get(a, k);
    forall q | q != k ensures (q in r <==> q in r') && (q in r ==> r[q] == r'[q]) {
    }
  }

  // ----- internal/crdt/delta.go -----

  /** ClockNewerThan: is some entry of the clock ahead of the base? */
  method ClockNewerThan(clock: Counts, base: Counts) returns (newer: bool)
    ensures newer <==> exists k :: k in clock && clock[k] > Get(base, k)
    ensures newer <==> ClockNewer(clock, base)
  {
    var todo := clock.Keys;
    while todo != {}
      invariant todo <= clock.Keys
      invariant forall k :: k in clock && k !in todo ==> !NewerAt(clock, base, k)
    {
      var k :| k in todo;
      if clock[k] > Get(base, k) {
        assert NewerAt(clock, base, k);
        return true;
      }
      todo := todo - {k};
    }
    assert forall k :: k in clock ==> !NewerAt(clock, base, k);
    return false;
  }

  /** DeltaFrom: the entries whose clock entry exceeds the base. */
  method DeltaFrom(positive: Counts, negative: Counts, clock: Counts, base: Counts)
    returns (deltaPos: Counts, deltaNeg: Counts, deltaClock: Counts)
    ensures deltaPos == Newer(positive, clock, base)
    ensures deltaNeg == Newer(negative, clock, base)
    ensures deltaClock == Newer(clock, clock, base)
    ensures deltaClock == map[] <==> !ClockNewer(clock, base)
  {
    deltaPos, deltaNeg, deltaClock := map[], map[], map[];
    var todo := clock.Keys;
    while todo != {}
      invariant todo <= clock.Keys
      invariant deltaPos == Restrict(Newer(positive, clock, base), clock.Keys - todo)
      invariant deltaNeg == Restrict(Newer(negative, clock, base), clock.Keys - todo)
      invariant deltaClock == Restrict(Newer(clock, clock, base), clock.Keys - todo)
    {
      var k :| k in todo;
      ghost var done := clock.Keys - todo;
      if clock[k] > Get(base, k) {
        if k in positive {
          deltaPos := deltaPos[k := positive[k]];
        }
        if k in negative {
          deltaNeg := deltaNeg[k := negative[k]];
        }
        deltaClock := deltaClock[k := clock[k]];
      }
      todo := todo - {k};
      assert clock.Keys - todo == done + {k};
      RestrictOneMore(positive, clock, base, done, k);
      RestrictOneMore(negative, clock, base, done, k);
      RestrictOneMore(clock, clock, base, done, k);
    }
    RestrictAll(positive, clock, base);
    RestrictAll(negative, clock, base);
    RestrictAll(clock, clock, base);
    EmptyDelta(clock, base);
  }

  lemma RestrictOneMore(m: Counts, clock: Counts, base: Counts, done: set<string>, k: string)
    requires k in clock && k !in done
    ensures var r := Restrict(Newer(m, clock, base), done);
            Restrict(Newer(m, clock, base), done + {k}) ==
              if clock[k] > Get(base, k) && k in m then r[k := m[k]] else r
  {
  }

  lemma RestrictAll(m: Counts, clock: Counts, base: Counts)
    ensures Restrict(Newer(m, clock, base), clock.Keys) == Newer(m, clock, base)
  {
  }

  lemma EmptyDelta(clock: Counts, base: Counts)
    ensures Newer(clock, clock, base) == map[] <==> !ClockNewer(clock, base)
  {
    var d := Newer(clock, clock, base);
    assert forall k :: k in d <==> k in clock && NewerAt(clock, base, k);
    if ClockNewer(clock, base) {
      var k :| k in clock && NewerAt(clock, base, k);
      assert k in d;
    } else {
      assert d.Keys == {};
    }
  }

  /** MaxClock: the largest version in the clock, zero when there is none above zero. */
  method MaxClock(clock: Counts) returns (max: int)
    ensures 0 <= max
    ensures forall k :: k in clock ==> clock[k] <= max
    ensures max == 0 || exists k :: k in clock && clock[k] == max
  {
    max := 0;
    var todo := clock.Keys;
    while todo != {}
      invariant todo <= clock.Keys && 0 <= max
      invariant forall k :: k in clock && k !in todo ==> clock[k] <= max
      invariant max == 0 || exists k :: k in clock && clock[k] == max
    {
      var k :| k in todo;
      if clock[k] > max {
        max := clock[k];
      }
      todo := todo - {k};
    }
  }

  // ----- summing loops -----

  /** Sum of the entries whose key belongs to the named counter. */
  method SumOfName(m: Counts, name: string) returns (sum: int)
    ensures sum == NameTotal(m, name)
  {
    sum := 0;
    var todo := m.Keys;
    var counted: set<string> := {};
    while todo != {}
      invariant todo <= m.Keys
      invariant counted == KeysOf(m, name) - todo
      invariant sum == Sum(counted, k => Get(m, k))
    {
      var k :| k in todo;
      if KeyBelongsTo(name, k) {
        sum := sum + m[k];
        SumRemove(counted + {k}, k => Get(m, k), k);
        assert counted + {k} - {k} == counted;
        counted := counted + {k};
      }
      todo := todo - {k};
    }
    assert counted == KeysOf(m, name);
  }

  /** Sum of all entries. */
  method SumOfAll(m: Counts) returns (sum: int)
    ensures sum == Total(m)
  {
    sum := 0;
    var todo := m.Keys;
    while todo != {}
      invariant todo <= m.Keys
      invariant sum == Sum(m.Keys - todo, k => Get(m, k))
    {
      var k :| k in todo;
      sum := sum + m[k];
      SumRemove(m.Keys - todo + {k}, k => Get(m, k), k);
      assert m.Keys - todo + {k} - {k} == m.Keys - todo;
      assert m.Keys - (todo - {k}) == m.Keys - todo + {k};
      todo := todo - {k};
    }
    assert m.Keys - todo == m.Keys;
  }

  /** Deleting, key by key, what belongs to the named counter. */
  method DeleteName(m: Counts, name: string) returns (r: Counts)
    ensures r == Without(m, name)
  {
    r := m;
    var todo := m.Keys;
    while todo != {}
      invariant todo <= m.Keys
      invariant r == map k | k in m && (k in todo || !KeyBelongsTo(name, k)) :: m[k]
    {
      var k :| k in todo;
      if KeyBelongsTo(name, k) {
        r := r - {k};
      }
      todo := todo - {k};
    }
  }

  // ----- sorted names -----

  /** Lexicographic order. */
  predicate Before(a: string, b: string) {
    b != "" && (a == "" || a[0] < b[0] || (a[0] == b[0] && Before(a[1..], b[1..])))
  }

  lemma {:induction false} BeforeIsTotal(a: string, b: string)
    ensures Before(a, b) || Before(b, a) <==> a != b
    ensures !(Before(a, b) && Before(b, a))
  {
    if a != "" && b != "" && a[0] == b[0] {
      BeforeIsTotal(a[1..], b[1..]);
      assert a == [a[0]] + a[1..] && b == [b[0]] + b[1..];
    }
  }

  lemma {:induction false} BeforeIsTransitive(a: string, b: string, c: string)
    requires Before(a, b) && Before(b, c)
    ensures Before(a, c)
  {
    if a != "" && a[0] == b[0] == c[0] {
      BeforeIsTransitive(a[1..], b[1..], c[1..]);
    }
  }

  /** a and b agree on their first n characters, where a ends or has the smaller character. */
  predicate SmallerFrom(a: string, b: string, n: nat) {
    n <= |a| && n < |b| && a[..n] == b[..n] && (n == |a| || a[n] < b[n])
  }

  lemma SameStart(a: string, b: string, n: nat)
    requires 0 < n <= |a| && n <= |b| && a[..n] == b[..n]
    ensures a[0] == b[0]
  {
    assert a[..n][0] == a[0] && b[..n][0] == b[0];
  }

  lemma {:induction false} BeforeIff(a: string, b: string)
    ensures Before(a, b) <==> exists n: nat :: SmallerFrom(a, b, n)
  {
    if a == "" || b == "" || a[0] != b[0] {
      assert Before(a, b) ==> SmallerFrom(a, b, 0);
      forall n: nat | SmallerFrom(a, b, n) ensures Before(a, b) {
        if n > 0 {
          SameStart(a, b, n);
        }
      }
    } else {
      BeforeIff(a[1..], b[1..]);
      if n: nat :| SmallerFrom(a[1..], b[1..], n) {
        assert a[..n + 1] == [a[0]] + a[1..][..n] && b[..n + 1] == [b[0]] + b[1..][..n];
        assert SmallerFrom(a, b, n + 1);
      }
      if n: nat :| SmallerFrom(a, b, n) {
        assert n > 0 ==> a[1..][..n - 1] == a[..n][1..] && b[1..][..n - 1] == b[..n][1..];
        assert n > 0 && SmallerFrom(a[1..], b[1..], n - 1);
      }
    }
  }

  predicate Ascending(s: seq<string>) {
    forall x, y :: 0 <= x < y < |s| ==> Before(s[x], s[y])
  }

  lemma InsertAscends(s: seq<string>, x: string, p: nat)
    requires Ascending(s) && x !in s && p <= |s|
    requires forall y :: 0 <= y < p ==> Before(s[y], x)
    requires p < |s| ==> !Before(s[p], x)
    ensures Ascending(s[..p] + [x] + s[p..])
  {
    forall y | p <= y < |s| ensures Before(x, s[y]) {
      BeforeIsTotal(x, s[p]);
      if y > p {
        BeforeIsTransitive(x, s[p], s[y]);
      }
    }
  }

  /** The elements of a set, each once, in ascending order. */
  method Sorted(names: set<string>) returns (r: seq<string>)
    ensures Ascending(r) && forall n :: n in r <==> n in names
  {
    r := [];
    var todo := names;
    while todo != {}
      invariant todo <= names && Ascending(r)
      invariant forall n :: n in r <==> n in names && n !in todo
    {
      var x :| x in todo;
      var p := 0;
      while p < |r| && Before(r[p], x)
        invariant p <= |r| && forall y :: 0 <= y < p ==> Before(r[y], x)
      {
        p := p + 1;
      }
      InsertAscends(r, x, p);
      ghost var was := r;
      r := r[..p] + [x] + r[p..];
      assert was == was[..p] + was[p..];
      todo := todo - {x};
    }
  }

  // ----- internal/crdt/pn_counter.go -----

  class PNCounter {
    var positive: Counts
    var negative: Counts
    const nodeID: string

    constructor (nodeID: string)
      ensures this.nodeID == nodeID && positive == map[] && negative == map[]
    {
      this.nodeID := nodeID;
      positive, negative := map[], map[];
    }

    ghost function View(): Shared
      reads this
    {
      Shared(positive, negative)
    }

    method IncrementName(name: string, delta: int)
      modifies this`positive
      ensures View() == Add(old(View()), name, nodeID, delta)
    {
      var k := CounterKey(name, nodeID);
      positive := positive[k := Get(positive, k) + delta];
    }

    method DecrementName(name: string, delta: int)
      modifies this`negative
      ensures View() == Subtract(old(View()), name, nodeID, delta)
    {
      var k := CounterKey(name, nodeID);
      negative := negative[k := Get(negative, k) + delta];
    }

    method ValueName(name: string) returns (v: int)
      ensures v == Naming.ValueName(View(), name)
      ensures WellShared(View()) ==> v == Naming.Value(ViewOf(View(), name))
    {
      var pos := SumOfName(positive, name);
      var neg := SumOfName(negative, name);
      v := pos - neg;
      if WellShared(View()) {
        ValueNameIsOwnValue(View(), name);
      }
    }

    method ResetName(name: string)
      modifies this
      ensures View() == Naming.ResetName(old(View()), name)
    {
      positive := DeleteName(positive, name);
      negative := DeleteName(negative, name);
    }

    method Names() returns (sorted: seq<string>)
      ensures Ascending(sorted) && forall n :: n in sorted <==> n in NamesOf(View())
    {
      var names := {};
      var todo := positive.Keys;
      while todo != {}
        invariant todo <= positive.Keys
        invariant names == set k | k in positive && k !in todo && FirstColon(k) > 0 :: Segment(k)
      {
        var k :| k in todo;
        if FirstColon(k) > 0 {
          names := names + {k[..FirstColon(k)]};
        }
        todo := todo - {k};
      }
      ghost var seen := names;
      todo := negative.Keys;
      while todo != {}
        invariant todo <= negative.Keys
        invariant names == seen + set k | k in negative && k !in todo && FirstColon(k) > 0 :: Segment(k)
      {
        var k :| k in todo;
        if FirstColon(k) > 0 {
          names := names + {k[..FirstColon(k)]};
        }
        todo := todo - {k};
      }
      assert names == NamesOf(View());
      sorted := Sorted(names);
    }

    method Reset()
      modifies this
      ensures View() == Shared(map[], map[])
    {
      positive, negative := map[], map[];
    }

    method Value() returns (v: int)
      ensures v == Naming.Value(View())
    {
      var pos := SumOfAll(positive);
      var neg := SumOfAll(negative);
      v := pos - neg;
    }

    /** Merging the maps of another counter; in the code the other counter is locked too, so it is another. */
    method Merge(other: PNCounter)
      requires other != this
      modifies this
      ensures View() == MergeShared(old(View()), other.View())
    {
      positive := MergeInto(positive, other.positive);
      negative := MergeInto(negative, other.negative);
    }

    method SetPositive(state: Counts)
      modifies this`positive
      ensures positive == state
    {
      positive := state;
    }

    method SetNegative(state: Counts)
      modifies this`negative
      ensures negative == state
    {
      negative := state;
    }
  }

  // ----- internal/crdt/vector_clock.go -----

  class VectorClock {
    var clock: Counts
    const nodeID: string

    constructor (nodeID: string)
      ensures this.nodeID == nodeID && clock == map[]
    {
      this.nodeID := nodeID;
      clock := map[];
    }

    method MergeMap(state: Counts)
      modifies this
      ensures clock == MergeMax(old(clock), state)
    {
      clock := MergeInto(clock, state);
    }

    method IncrementName(name: string)
      modifies this
      ensures clock == Bump(old(clock), CounterKey(name, nodeID), 1)
    {
      var k := CounterKey(name, nodeID);
      clock := clock[k := Get(clock, k) + 1];
    }

    method ResetName(name: string)
      modifies this
      ensures clock == Without(old(clock), name)
    {
      clock := DeleteName(clock, name);
    }
  }
}
