/** One replica's CRDT state, the updates replicas exchange, and the sums over operation logs that give
    those states their meaning. */
module Replica {
  import opened GoMaps

  /** Deltas that the increment and decrement requests are meant to carry. */
  type Delta = d: int | d > 0 witness 1

  datatype Op = Inc(d: Delta) | Dec(d: Delta)

  /** The maps behind PNCounter (positive, negative) and VectorClock. */
  datatype State = State(pos: Counts, neg: Counts, clock: Counts)

  const EMPTY: State := State(map[], map[], map[])

  /** A StateUpdate message: FULL_STATE when full, DELTA_UPDATE otherwise. */
  datatype Update = Update(full: bool, pos: Counts, neg: Counts, clock: Counts)

  function Bump(m: Counts, k: string, d: int): Counts {
    m[k := Get(m, k) + d]
  }

  lemma BumpGet(m: Counts, k: string, d: int)
    ensures forall q :: Get(Bump(m, k, d), q) == Get(m, q) + (if q == k then d else 0)
    ensures Positive(m) && d > 0 ==> Positive(Bump(m, k, d))
  {
  }

  /** Increment or Decrement at one key: the count moves by the delta, the clock ticks once. */
  function ApplyOp(st: State, k: string, op: Op): State {
    match op
    case Inc(d) => State(Bump(st.pos, k, d), st.neg, Bump(st.clock, k, 1))
    case Dec(d) => State(st.pos, Bump(st.neg, k, d), Bump(st.clock, k, 1))
  }

  /** Merging remote maps: counts and clock are max-merged independently. */
  function Absorb(st: State, pos: Counts, neg: Counts, clock: Counts): State {
    State(MergeMax(st.pos, pos), MergeMax(st.neg, neg), MergeMax(st.clock, clock))
  }

  function MergeUpdate(st: State, u: Update): State {
    Absorb(st, u.pos, u.neg, u.clock)
  }

  /** The plain state-based merge that delta gossip has to agree with. */
  function Join(a: State, b: State): State {
    Absorb(a, b.pos, b.neg, b.clock)
  }

  function FullUpdate(st: State): Update {
    Update(true, st.pos, st.neg, st.clock)
  }

  predicate NewerAt(clock: Counts, base: Counts, k: string) {
    k in clock && clock[k] > Get(base, k)
  }

  /** The entries of m whose clock entry exceeds the base, as DeltaFrom selects them. */
  function Newer(m: Counts, clock: Counts, base: Counts): Counts {
    map k | k in m && NewerAt(clock, base, k) :: m[k]
  }

  /** What an update carries of m: all of it when full, otherwise the entries newer than the base. */
  function Selected(full: bool, m: Counts, clock: Counts, base: Counts): Counts {
    if full then m else Newer(m, clock, base)
  }

  /** ClockNewerThan. */
  predicate ClockNewer(clock: Counts, base: Counts) {
    exists k :: k in clock && NewerAt(clock, base, k)
  }

  /** Filtered counts travelling with the whole clock. */
  function DeltaUpdate(st: State, base: Counts): Update {
    Update(false, Newer(st.pos, st.clock, base), Newer(st.neg, st.clock, base), st.clock)
  }

  // ----- meaning of a state: sums over prefixes of operation logs -----

  function PosPart(op: Op): int {
    if op.Inc? then op.d else 0
  }

  function NegPart(op: Op): int {
    if op.Dec? then op.d else 0
  }

  /** Total increments among the first n operations. */
  function PosUpTo(l: seq<Op>, n: nat): int
    requires n <= |l|
  {
    if n == 0 then 0 else PosUpTo(l, n - 1) + PosPart(l[n - 1])
  }

  /** Total decrements among the first n operations. */
  function NegUpTo(l: seq<Op>, n: nat): int
    requires n <= |l|
  {
    if n == 0 then 0 else NegUpTo(l, n - 1) + NegPart(l[n - 1])
  }

  /** A longer prefix has larger sums, and one more operation always shows in one of the two sums. */
  lemma {:induction false} UpToMonotone(l: seq<Op>, n: nat, m: nat)
    requires n <= m <= |l|
    ensures 0 <= PosUpTo(l, n) <= PosUpTo(l, m)
    ensures 0 <= NegUpTo(l, n) <= NegUpTo(l, m)
    ensures n < m ==> PosUpTo(l, n) < PosUpTo(l, m) || NegUpTo(l, n) < NegUpTo(l, m)
  {
    if n < m {
      UpToMonotone(l, n, m - 1);
    } else if n > 0 {
      UpToMonotone(l, n - 1, n - 1);
    }
  }

  lemma {:induction false} UpToOfPrefix(l: seq<Op>, l': seq<Op>, n: nat)
    requires l <= l' && n <= |l|
    ensures PosUpTo(l, n) == PosUpTo(l', n)
    ensures NegUpTo(l, n) == NegUpTo(l', n)
  {
    if n > 0 {
      UpToOfPrefix(l, l', n - 1);
    }
  }

  type Log = map<string, seq<Op>>

  /** The operations issued on a key so far, by the replica that owns it. */
  function OpsOf(log: Log, k: string): seq<Op> {
    if k in log then log[k] else []
  }

  ghost predicate LogGrows(log: Log, log': Log) {
    forall k :: OpsOf(log, k) <= OpsOf(log', k)
  }

  /** At key k the counts are exactly the sums over the first clock[k] operations. */
  ghost predicate AtPrefix(l: seq<Op>, st: State, k: string) {
    var n := Get(st.clock, k);
    0 <= n <= |l| && Get(st.pos, k) == PosUpTo(l, n) && Get(st.neg, k) == NegUpTo(l, n)
  }

  ghost predicate AllPositive(st: State) {
    Positive(st.pos) && Positive(st.neg) && Positive(st.clock)
  }

  /** Every entry of a is at most b's. */
  ghost predicate StateLeq(a: State, b: State) {
    Leq(a.pos, b.pos) && Leq(a.neg, b.neg) && Leq(a.clock, b.clock)
  }

  /** The state is a causal prefix: at every key, exactly the first clock[k] operations, each counted once. */
  ghost predicate HoldsPrefix(log: Log, st: State) {
    AllPositive(st) && forall k :: AtPrefix(OpsOf(log, k), st, k)
  }

  lemma HoldsUnderGrowth(log: Log, log': Log, st: State)
    requires HoldsPrefix(log, st) && LogGrows(log, log')
    ensures HoldsPrefix(log', st)
  {
    forall k ensures AtPrefix(OpsOf(log', k), st, k) {
      assert AtPrefix(OpsOf(log, k), st, k);
      UpToOfPrefix(OpsOf(log, k), OpsOf(log', k), Get(st.clock, k));
    }
  }

  /** Two prefixes of the same log with the same clock are the same state, map for map. */
  lemma SameClockSameState(log: Log, a: State, b: State)
    requires HoldsPrefix(log, a) && HoldsPrefix(log, b)
    requires forall k :: Get(a.clock, k) == Get(b.clock, k)
    ensures a == b
  {
    forall k ensures Get(a.pos, k) == Get(b.pos, k) && Get(a.neg, k) == Get(b.neg, k) {
      assert AtPrefix(OpsOf(log, k), a, k) && AtPrefix(OpsOf(log, k), b, k);
      assert Get(a.clock, k) == Get(b.clock, k);
    }
    Extensional(a.pos, b.pos);
    Extensional(a.neg, b.neg);
    Extensional(a.clock, b.clock);
  }

  /** Joining two prefixes gives the prefix at the larger clock: nothing lost, nothing counted twice. */
  lemma JoinHoldsPrefix(log: Log, a: State, b: State)
    requires HoldsPrefix(log, a) && HoldsPrefix(log, b)
    ensures HoldsPrefix(log, Join(a, b))
    ensures forall k :: Get(Join(a, b).clock, k) == Max(Get(a.clock, k), Get(b.clock, k))
  {
    var j := Join(a, b);
    MergeGet(a.pos, b.pos);
    MergeGet(a.neg, b.neg);
    MergeGet(a.clock, b.clock);
    forall k ensures AtPrefix(OpsOf(log, k), j, k) {
      var l := OpsOf(log, k);
      assert AtPrefix(l, a, k) && AtPrefix(l, b, k);
      var n, m := Get(a.clock, k), Get(b.clock, k);
      if n <= m { UpToMonotone(l, n, m); } else { UpToMonotone(l, m, n); }
    }
  }

  /** u is src with some keys left out, each of them already covered by the clock `known`. */
  ghost predicate Filtered(u: Update, src: State, known: Counts) {
    && u.clock == src.clock
    && forall k ::
      || (Get(u.pos, k) == Get(src.pos, k) && Get(u.neg, k) == Get(src.neg, k))
      || (Get(src.clock, k) <= Get(known, k) && Get(u.pos, k) == 0 && Get(u.neg, k) == 0)
  }

  /** Leaving out what the receiver's clock already covers does not change the merge. */
  lemma FilteredMergesLikeFull(log: Log, st: State, u: Update, src: State)
    requires HoldsPrefix(log, st) && HoldsPrefix(log, src)
    requires Filtered(u, src, st.clock)
    ensures MergeUpdate(st, u) == Join(st, src)
  {
    forall k ensures Max(Get(st.pos, k), Get(u.pos, k)) == Max(Get(st.pos, k), Get(src.pos, k))
    ensures Max(Get(st.neg, k), Get(u.neg, k)) == Max(Get(st.neg, k), Get(src.neg, k)) {
      var l := OpsOf(log, k);
      assert AtPrefix(l, st, k) && AtPrefix(l, src, k);
      var n, m := Get(src.clock, k), Get(st.clock, k);
      UpToMonotone(l, m, m);
      if n <= m { UpToMonotone(l, n, m); }
    }
    MergeSame(st.pos, u.pos, src.pos);
    MergeSame(st.neg, u.neg, src.neg);
  }

  /** DeltaFrom against a base leaves out only what the base covers. */
  lemma DeltaIsFiltered(log: Log, st: State, base: Counts, known: Counts)
    requires HoldsPrefix(log, st) && Leq(base, known)
    requires forall k :: 0 <= Get(base, k)
    ensures Filtered(DeltaUpdate(st, base), st, known)
  {
    var u := DeltaUpdate(st, base);
    forall k ensures
      || (Get(u.pos, k) == Get(st.pos, k) && Get(u.neg, k) == Get(st.neg, k))
      || (Get(st.clock, k) <= Get(known, k) && Get(u.pos, k) == 0 && Get(u.neg, k) == 0)
    {
      if NewerAt(st.clock, base, k) {
      } else {
        assert Get(st.clock, k) <= Get(base, k) <= Get(known, k);
      }
    }
  }
}
