/** Many named counters in one pair of maps: the shared maps behave as one independent PN-Counter per name,
    and the total splits over the names. */
module Naming {
  import opened GoMaps
  import opened Keys
  import opened Replica

  /** The positive and negative map of a PNCounter. */
  datatype Shared = Shared(pos: Counts, neg: Counts)

  // ----- what the counter's methods do to the shared maps -----

  function Add(p: Shared, name: string, node: string, d: int): Shared {
    p.(pos := Bump(p.pos, CounterKey(name, node), d))
  }

  function Subtract(p: Shared, name: string, node: string, d: int): Shared {
    p.(neg := Bump(p.neg, CounterKey(name, node), d))
  }

  function Without(m: Counts, name: string): Counts {
    map k | k in m && !KeyBelongsTo(name, k) :: m[k]
  }

  function ResetName(p: Shared, name: string): Shared {
    Shared(Without(p.pos, name), Without(p.neg, name))
  }

  /** Reset of one counter on a replica: counts and clock entries of that name go. */
  function ResetState(st: State, name: string): State {
    State(Without(st.pos, name), Without(st.neg, name), Without(st.clock, name))
  }

  function MergeShared(p: Shared, q: Shared): Shared {
    Shared(MergeMax(p.pos, q.pos), MergeMax(p.neg, q.neg))
  }

  function KeysOf(m: Counts, name: string): set<string> {
    set k | k in m && KeyBelongsTo(name, k)
  }

  ghost function NameTotal(m: Counts, name: string): int {
    Sum(KeysOf(m, name), k => Get(m, k))
  }

  /** What ValueName returns. */
  ghost function ValueName(p: Shared, name: string): int {
    NameTotal(p.pos, name) - NameTotal(p.neg, name)
  }

  /** What Value returns. */
  ghost function Value(p: Shared): int {
    Total(p.pos) - Total(p.neg)
  }

  // ----- keys of colon-free names and ids -----

  /** The name under which a counter is kept. */
  function Canon(name: string): string {
    if name == "" then "default" else name
  }

  lemma FirstSegmentUnique(a: string, x: string, b: string)
    requires ColonFree(a) && ColonFree(b)
    ensures HasPrefix(a + ":" + x, b + ":") <==> a == b
  {
    var k, p := a + ":" + x, b + ":";
    assert forall y :: 0 <= y < |a| ==> k[y] == a[y];
    assert forall y :: 0 <= y < |b| ==> p[y] == b[y];
    assert k[|a|] == ':' && p[|b|] == ':';
    if a == b {
      assert k[..|p|] == p;
    }
    if HasPrefix(k, p) {
      assert forall y :: 0 <= y <= |b| ==> k[y] == p[y];
      assert k[|b|] == ':';
      assert |a| <= |b|;
      assert p[|a|] == ':';
      assert |b| <= |a|;
      assert a == k[..|a|] == p[..|a|] == b;
    }
  }

  lemma NoPrefixWithColon(k: string, p: string)
    requires ColonFree(k) && !ColonFree(p)
    ensures !HasPrefix(k, p)
  {
    var x :| 0 <= x < |p| && p[x] == ':';
    assert |p| <= |k| ==> k[..|p|][x] == k[x] && k[x] in k;
  }

  /** The name is n itself or extends it across a colon, as "a:b" extends "a". */
  predicate Covers(n: string, name: string) {
    Canon(n) == Canon(name) || HasPrefix(name, Canon(n) + ":")
  }

  lemma PrefixOfKey(name: string, node: string, a: string)
    requires ColonFree(node)
    ensures HasPrefix(name + ":" + node, a + ":") <==> a == name || HasPrefix(name, a + ":")
  {
    var k, p := name + ":" + node, a + ":";
    assert forall y :: 0 <= y < |name| ==> k[y] == name[y];
    assert forall y :: |name| < y < |k| ==> k[y] == node[y - |name| - 1];
    assert p[|a|] == ':';
    if HasPrefix(k, p) {
      assert forall y :: 0 <= y < |p| ==> k[y] == p[y];
      assert |a| <= |name|;
      if |a| == |name| {
        assert name == k[..|a|] == p[..|a|] == a;
      } else {
        assert name[..|p|] == k[..|p|];
      }
    }
    if a == name {
      assert k[..|p|] == p;
    }
    if HasPrefix(name, p) {
      assert k[..|p|] == name[..|p|];
    }
  }

  /** For all names, colons or not: a key belongs to the counter it was built for and to those whose name its own
      name extends, and to no other. */
  lemma BelongsIff(n: string, name: string, node: string)
    requires ColonFree(node)
    ensures KeyBelongsTo(n, CounterKey(name, node)) <==> Covers(n, name)
  {
    var k := CounterKey(name, node);
    assert (n + ":")[|n|] == ':' && (Canon(n) + ":")[|Canon(n)|] == ':';
    assert "default" + ":" == "default:";
    if IsDefault(name) {
      NoPrefixWithColon(k, n + ":");
      NoPrefixWithColon(name, Canon(n) + ":");
    } else {
      assert k[|name|] == ':';
      PrefixOfKey(name, node, Canon(n));
    }
  }

  lemma CoversColonFree(n: string, name: string)
    requires ColonFree(name)
    ensures Covers(n, name) <==> Canon(n) == Canon(name)
  {
    assert (Canon(n) + ":")[|Canon(n)|] == ':';
    NoPrefixWithColon(name, Canon(n) + ":");
  }

  ghost predicate WellKey(k: string) {
    exists name, node :: ColonFree(name) && ColonFree(node) && k == CounterKey(name, node)
  }

  ghost predicate WellFormed(m: Counts) {
    forall k :: k in m ==> WellKey(k)
  }

  ghost predicate WellShared(p: Shared) {
    WellFormed(p.pos) && WellFormed(p.neg)
  }

  // ----- one independent PN-Counter per name -----

  /** The contributions to one counter, by replica id. */
  function View(m: Counts, name: string): Counts {
    map i | i in (set k | k in m && k == CounterKey(name, Owner(k)) :: Owner(k)) :: m[CounterKey(name, i)]
  }

  function ViewOf(p: Shared, name: string): Shared {
    Shared(View(p.pos, name), View(p.neg, name))
  }

  lemma ViewDomain(m: Counts, name: string, i: string)
    ensures i in View(m, name) ==> CounterKey(name, i) in m && View(m, name)[i] == m[CounterKey(name, i)]
    ensures ColonFree(i) && CounterKey(name, i) in m ==> i in View(m, name)
    ensures i in View(m, name) ==> ColonFree(i)
  {
    var k := CounterKey(name, i);
    if ColonFree(i) && k in m {
      OwnerOfKey(name, i);
      assert i in (set k | k in m && k == CounterKey(name, Owner(k)) :: Owner(k));
    }
    if i in View(m, name) {
      var q :| q in m && q == CounterKey(name, Owner(q)) && Owner(q) == i;
      OwnerColonFree(q);
    }
  }

  lemma {:induction false} OwnerColonFree(k: string)
    ensures ColonFree(AfterLastColon(k))
    decreases |k|
  {
    if !ColonFree(k) {
      OwnerColonFree(k[1..]);
    }
  }

  /** What determines a view. */
  lemma SameView(m: Counts, name: string, v: Counts)
    requires forall i :: i in v <==> ColonFree(i) && CounterKey(name, i) in m
    requires forall i :: i in v ==> v[i] == m[CounterKey(name, i)]
    ensures View(m, name) == v
  {
    forall i ensures i in View(m, name) <==> i in v {
      ViewDomain(m, name, i);
    }
    forall i | i in v ensures View(m, name)[i] == v[i] {
      ViewDomain(m, name, i);
    }
  }

  /** For all names: no two counters or replicas share a key. */
  lemma KeyInjective(name: string, name': string, i: string, j: string)
    requires ColonFree(i) && ColonFree(j)
    ensures CounterKey(name, i) == CounterKey(name', j) <==> Canon(name) == Canon(name') && i == j
  {
    OwnerOfKey(name, i);
    OwnerOfKey(name', j);
    var k, k' := CounterKey(name, i), CounterKey(name', j);
    assert !IsDefault(name) ==> k[|name|] == ':' && k[..|name|] == name;
    assert !IsDefault(name') ==> k'[|name'|] == ':' && k'[..|name'|] == name';
  }

  lemma ViewOfBump(m: Counts, n: string, name: string, node: string, d: int)
    requires ColonFree(node)
    ensures View(Bump(m, CounterKey(name, node), d), n) ==
            if Canon(n) == Canon(name) then Bump(View(m, n), node, d) else View(m, n)
  {
    var m' := Bump(m, CounterKey(name, node), d);
    var v := if Canon(n) == Canon(name) then Bump(View(m, n), node, d) else View(m, n);
    forall i ensures i in v <==> ColonFree(i) && CounterKey(n, i) in m'
    ensures i in v ==> v[i] == m'[CounterKey(n, i)] {
      ViewDomain(m, n, i);
      if ColonFree(i) {
        KeyInjective(n, name, i, node);
      }
    }
    SameView(m', n, v);
  }

  lemma ViewOfReset(m: Counts, n: string, name: string)
    ensures View(Without(m, name), n) == if Covers(name, n) then map[] else View(m, n)
  {
    var m' := Without(m, name);
    var v: Counts := if Covers(name, n) then map[] else View(m, n);
    forall i ensures i in v <==> ColonFree(i) && CounterKey(n, i) in m'
    ensures i in v ==> v[i] == m'[CounterKey(n, i)] {
      ViewDomain(m, n, i);
      if ColonFree(i) {
        BelongsIff(name, n, i);
      }
    }
    SameView(m', n, v);
  }

  lemma ViewOfMergeAt(a: Counts, b: Counts, n: string, i: string)
    ensures var m', v := MergeMax(a, b), MergeMax(View(a, n), View(b, n));
            && (i in v <==> ColonFree(i) && CounterKey(n, i) in m')
            && (i in v ==> v[i] == m'[CounterKey(n, i)])
  {
    ViewDomain(a, n, i);
    ViewDomain(b, n, i);
  }

  lemma ViewOfMerge(a: Counts, b: Counts, n: string)
    ensures View(MergeMax(a, b), n) == MergeMax(View(a, n), View(b, n))
  {
    var m', v := MergeMax(a, b), MergeMax(View(a, n), View(b, n));
    forall i ensures i in v <==> ColonFree(i) && CounterKey(n, i) in m'
    ensures i in v ==> v[i] == m'[CounterKey(n, i)] {
      ViewOfMergeAt(a, b, n, i);
    }
    SameView(m', n, v);
  }

  // ----- simulation over whole runs -----

  datatype Action =
    | IncrementA(name: string, d: int)
    | DecrementA(name: string, d: int)
    | ResetA(name: string)
    | MergeA(other: Shared)

  /** The shared maps of replica `node`. */
  function Act(p: Shared, node: string, a: Action): Shared {
    match a
    case IncrementA(name, d) => Add(p, name, node, d)
    case DecrementA(name, d) => Subtract(p, name, node, d)
    case ResetA(name) => ResetName(p, name)
    case MergeA(other) => MergeShared(p, other)
  }

  function ActAll(p: Shared, node: string, run: seq<Action>): Shared
    decreases |run|
  {
    if run == [] then p else ActAll(Act(p, node, run[0]), node, run[1..])
  }

  /** A counter of its own, keyed by replica id, that only sees the actions on its name and the resets of names
      that its name extends. */
  function ActAlone(c: Shared, n: string, node: string, a: Action): Shared {
    match a
    case IncrementA(name, d) => if Canon(name) == Canon(n) then c.(pos := Bump(c.pos, node, d)) else c
    case DecrementA(name, d) => if Canon(name) == Canon(n) then c.(neg := Bump(c.neg, node, d)) else c
    case ResetA(name) => if Covers(name, n) then Shared(map[], map[]) else c
    case MergeA(other) => MergeShared(c, ViewOf(other, n))
  }

  function ActAllAlone(c: Shared, n: string, node: string, run: seq<Action>): Shared
    decreases |run|
  {
    if run == [] then c else ActAllAlone(ActAlone(c, n, node, run[0]), n, node, run[1..])
  }

  lemma ActionSimulates(p: Shared, n: string, node: string, a: Action)
    requires ColonFree(node)
    ensures ViewOf(Act(p, node, a), n) == ActAlone(ViewOf(p, n), n, node, a)
  {
    match a
    case IncrementA(name, d) => ViewOfBump(p.pos, n, name, node, d);
    case DecrementA(name, d) => ViewOfBump(p.neg, n, name, node, d);
    case ResetA(name) => ViewOfReset(p.pos, n, name); ViewOfReset(p.neg, n, name);
    case MergeA(other) => ViewOfMerge(p.pos, other.pos, n); ViewOfMerge(p.neg, other.neg, n);
  }

  /** Multi-counter simulation.  Over any run of increments, decrements, resets and merges on any names, colons or
      not, what the shared maps hold for a name is what an independent PN-Counter of that name would hold. */
  lemma {:induction false} SharedSimulatesSeparateCounters(p: Shared, n: string, node: string, run: seq<Action>)
    requires ColonFree(node)
    ensures ViewOf(ActAll(p, node, run), n) == ActAllAlone(ViewOf(p, n), n, node, run)
    decreases |run|
  {
    if run != [] {
      ActionSimulates(p, n, node, run[0]);
      SharedSimulatesSeparateCounters(Act(p, node, run[0]), n, node, run[1..]);
    }
  }

  /** Resetting `name` spares counter n iff n does not extend it or held nothing; for a colon-free n, iff they are
      different counters or it held nothing. */
  lemma ResetSparesIff(p: Shared, n: string, name: string)
    ensures ViewOf(ResetName(p, name), n) == ViewOf(p, n) <==> !Covers(name, n) || ViewOf(p, n) == Shared(map[], map[])
    ensures ColonFree(n) ==> (Covers(name, n) <==> Canon(name) == Canon(n))
  {
    ViewOfReset(p.pos, n, name);
    ViewOfReset(p.neg, n, name);
    if ColonFree(n) {
      CoversColonFree(name, n);
    }
  }

  /** Resetting "a" empties the counter "a:b". */
  lemma ResetReachesExtension(node: string, d: int)
    requires ColonFree(node)
    ensures ViewOf(ResetName(Add(Shared(map[], map[]), "a:b", node, d), "a"), "a:b") == Shared(map[], map[])
    ensures node in ViewOf(Add(Shared(map[], map[]), "a:b", node, d), "a:b").pos
  {
    var p := Add(Shared(map[], map[]), "a:b", node, d);
    assert "a:b"[..2] == "a:" == "a" + ":";
    ViewOfReset(p.pos, "a:b", "a");
    ViewOfReset(p.neg, "a:b", "a");
    ViewDomain(p.pos, "a:b", node);
  }

  // ----- reading one counter -----

  /** Keys that count for n but were built for a name that extends it. */
  function Foreign(m: Counts, n: string): set<string> {
    set k | k in KeysOf(m, n) && k != CounterKey(n, Owner(k))
  }

  lemma ForeignIff(m: Counts, n: string, name: string, node: string)
    requires ColonFree(node) && CounterKey(name, node) in m
    ensures CounterKey(name, node) in Foreign(m, n) <==> Covers(n, name) && Canon(n) != Canon(name)
  {
    OwnerOfKey(name, node);
    BelongsIff(n, name, node);
    KeyInjective(n, name, node, node);
  }

  function Packed(n: string, ids: set<string>): set<string> {
    set i | i in ids :: CounterKey(n, i)
  }

  lemma PackedRemove(n: string, ids: set<string>, x: string)
    requires x in ids && forall i :: i in ids ==> ColonFree(i)
    ensures Packed(n, ids) - {CounterKey(n, x)} == Packed(n, ids - {x})
  {
    OwnerOfKey(n, x);
    forall i | i in ids - {x} ensures CounterKey(n, i) != CounterKey(n, x) {
      OwnerOfKey(n, i);
    }
  }

  lemma {:induction false} SumOfPackedKeys(n: string, ids: set<string>, f: string -> int, g: string -> int)
    requires forall i :: i in ids ==> ColonFree(i) && g(i) == f(CounterKey(n, i))
    ensures Sum(Packed(n, ids), f) == Sum(ids, g)
    decreases |ids|
  {
    if ids == {} {
      assert Packed(n, ids) == {};
    } else {
      var x :| x in ids;
      SumRemove(ids, g, x);
      PackedRemove(n, ids, x);
      SumRemove(Packed(n, ids), f, CounterKey(n, x));
      SumOfPackedKeys(n, ids - {x}, f, g);
    }
  }

  /** The keys of a counter are its view's replica ids, each packed with the name, and the foreign ones. */
  lemma ViewKeys(m: Counts, n: string)
    ensures Packed(n, View(m, n).Keys) == KeysOf(m, n) - Foreign(m, n)
  {
    var v := View(m, n);
    forall i | i in v ensures CounterKey(n, i) in KeysOf(m, n) - Foreign(m, n) {
      ViewDomain(m, n, i);
      BelongsIff(n, n, i);
      OwnerOfKey(n, i);
    }
    forall k | k in KeysOf(m, n) - Foreign(m, n) ensures exists i :: i in v && k == CounterKey(n, i) {
      OwnerColonFree(k);
      ViewDomain(m, n, Owner(k));
    }
  }

  lemma NameTotalSplits(m: Counts, n: string)
    ensures NameTotal(m, n) == Total(View(m, n)) + Sum(Foreign(m, n), k => Get(m, k))
  {
    var v := View(m, n);
    forall i | i in v ensures ColonFree(i) && Get(m, CounterKey(n, i)) == Get(v, i) {
      ViewDomain(m, n, i);
    }
    ViewKeys(m, n);
    SumOfPackedKeys(n, v.Keys, k => Get(m, k), i => Get(m, CounterKey(n, i)));
    SumCongruent(v.Keys, i => Get(m, CounterKey(n, i)), i => Get(v, i));
    assert KeysOf(m, n) == (KeysOf(m, n) - Foreign(m, n)) + Foreign(m, n);
    SumSplit(KeysOf(m, n) - Foreign(m, n), Foreign(m, n), k => Get(m, k));
  }

  /** For all maps and names: ValueName reads the counter's own view plus the counters whose names extend it. */
  lemma ValueNameReadsView(p: Shared, n: string)
    ensures ValueName(p, n) == Value(ViewOf(p, n)) +
      Sum(Foreign(p.pos, n), k => Get(p.pos, k)) - Sum(Foreign(p.neg, n), k => Get(p.neg, k))
  {
    NameTotalSplits(p.pos, n);
    NameTotalSplits(p.neg, n);
  }

  lemma NothingForeign(m: Counts, n: string)
    requires WellFormed(m)
    ensures Foreign(m, n) == {}
  {
    forall k | k in KeysOf(m, n) ensures k == CounterKey(n, Owner(k)) {
      assert WellKey(k);
      var name, node :| ColonFree(name) && ColonFree(node) && k == CounterKey(name, node);
      ForeignIff(m, n, name, node);
      CoversColonFree(n, name);
    }
  }

  /** With colon-free names only, ValueName is exactly the value of the counter's own view. */
  lemma ValueNameIsOwnValue(p: Shared, n: string)
    requires WellShared(p)
    ensures ValueName(p, n) == Value(ViewOf(p, n))
  {
    ValueNameReadsView(p, n);
    NothingForeign(p.pos, n);
    NothingForeign(p.neg, n);
  }

  /** Runs on colon-free names keep the maps well formed, so their counters read as separate counters. */
  lemma {:induction false} RunsKeepKeysWell(p: Shared, node: string, run: seq<Action>)
    requires WellShared(p) && ColonFree(node)
    requires forall a :: a in run ==> if a.MergeA? then WellShared(a.other) else ColonFree(a.name)
    ensures WellShared(ActAll(p, node, run))
    decreases |run|
  {
    if run != [] {
      var a := run[0];
      assert a in run;
      assert WellShared(Act(p, node, a)) by {
        if a.IncrementA? || a.DecrementA? {
          assert WellKey(CounterKey(a.name, node));
        }
      }
      RunsKeepKeysWell(Act(p, node, a), node, run[1..]);
    }
  }

  // ----- the total over all counters -----

  /** Position of the first colon, or -1. */
  function FirstColon(k: string): (x: int)
    ensures -1 <= x < |k|
    ensures x == -1 <==> ColonFree(k)
    ensures x >= 0 ==> k[x] == ':' && ColonFree(k[..x])
  {
    if k == "" then -1
    else if k[0] == ':' then 0
    else
      var x := FirstColon(k[1..]);
      assert k == [k[0]] + k[1..];
      assert x >= 0 ==> k[..x + 1] == [k[0]] + k[1..][..x];
      if x == -1 then -1 else x + 1
  }

  /** The name that Names reads off a key. */
  function Segment(k: string): string {
    if FirstColon(k) >= 0 then k[..FirstColon(k)] else ""
  }

  /** Names, as a set: the non-empty texts before a first colon. */
  function NamesOf(p: Shared): set<string> {
    (set k | k in p.pos && FirstColon(k) > 0 :: Segment(k)) + (set k | k in p.neg && FirstColon(k) > 0 :: Segment(k))
  }

  /** Keys that start with a colon belong to no name. */
  function Stray(m: Counts): set<string> {
    set k | k in m && FirstColon(k) == 0
  }

  function SegmentKeys(m: Counts, names: set<string>): set<string> {
    set k | k in m && FirstColon(k) > 0 && Segment(k) in names
  }

  lemma PrefixIsSegment(n: string, k: string)
    requires ColonFree(n) && n != ""
    ensures HasPrefix(k, n + ":") <==> FirstColon(k) > 0 && Segment(k) == n
  {
    var x := FirstColon(k);
    if x >= 0 {
      assert k == k[..x] + ":" + k[x + 1..];
      FirstSegmentUnique(k[..x], k[x + 1..], n);
    } else {
      assert (n + ":")[|n|] == ':';
      NoPrefixWithColon(k, n + ":");
    }
  }

  lemma KeysOfName(m: Counts, n: string)
    requires ColonFree(n) && n != "" && n != "default"
    ensures KeysOf(m, n) == SegmentKeys(m, {n})
  {
    forall k ensures KeyBelongsTo(n, k) <==> FirstColon(k) > 0 && Segment(k) == n {
      PrefixIsSegment(n, k);
    }
  }

  lemma KeysOfDefault(m: Counts)
    ensures KeysOf(m, "default") == (set k | k in m && FirstColon(k) == -1) + SegmentKeys(m, {"default"})
  {
    assert "default" + ":" == "default:";
    forall k ensures KeyBelongsTo("default", k) <==>
      FirstColon(k) == -1 || (FirstColon(k) > 0 && Segment(k) == "default") {
      PrefixIsSegment("default", k);
    }
  }

  lemma SegmentSplit(m: Counts, names: set<string>, n: string)
    requires n in names
    ensures SegmentKeys(m, names) == SegmentKeys(m, {n}) + SegmentKeys(m, names - {n})
    ensures SegmentKeys(m, {n}) !! SegmentKeys(m, names - {n})
  {
  }

  /** Summing ValueName's parts over names other than the default one. */
  lemma {:induction false} SumOverNames(m: Counts, names: set<string>)
    requires forall n :: n in names ==> ColonFree(n) && n != "" && n != "default"
    ensures Sum(names, n => NameTotal(m, n)) == Sum(SegmentKeys(m, names), k => Get(m, k))
    decreases |names|
  {
    if names == {} {
      assert SegmentKeys(m, names) == {};
    } else {
      var n :| n in names;
      SumRemove(names, n => NameTotal(m, n), n);
      SumOverNames(m, names - {n});
      KeysOfName(m, n);
      SegmentSplit(m, names, n);
      SumSplit(SegmentKeys(m, {n}), SegmentKeys(m, names - {n}), k => Get(m, k));
    }
  }

  /** Every entry is a default entry, stray, or under a proper name. */
  lemma TotalSplits(m: Counts, names: set<string>)
    requires forall k :: k in m && FirstColon(k) > 0 ==> Segment(k) in names
    ensures Total(m) == NameTotal(m, "default") + Sum(Stray(m), k => Get(m, k)) +
                        Sum(SegmentKeys(m, names - {"default"}), k => Get(m, k))
  {
    var f := (k: string) => Get(m, k);
    var d, s, r := KeysOf(m, "default"), Stray(m), SegmentKeys(m, names - {"default"});
    KeysOfDefault(m);
    assert d !! s && (d + s) !! r;
    assert m.Keys == d + s + r;
    SumSplit(d + s, r, f);
    SumSplit(d, s, f);
  }

  lemma NamesAreProper(p: Shared, n: string)
    requires n in NamesOf(p)
    ensures ColonFree(n) && n != ""
  {
  }

  /** For all maps whatsoever: the default counter plus the counters in Names is the total, less the entries
      under keys that start with a colon, plus the default counter once more if Names contains "default". */
  lemma NamesAccountForTotal(p: Shared)
    ensures ValueName(p, "default") + Sum(NamesOf(p), n => ValueName(p, n)) ==
            Value(p) - (Sum(Stray(p.pos), k => Get(p.pos, k)) - Sum(Stray(p.neg), k => Get(p.neg, k)))
              + (if "default" in NamesOf(p) then ValueName(p, "default") else 0)
  {
    var names := NamesOf(p);
    forall n | n in names ensures ColonFree(n) && n != "" {
      NamesAreProper(p, n);
    }
    TotalSplits(p.pos, names);
    TotalSplits(p.neg, names);
    SumOverNames(p.pos, names - {"default"});
    SumOverNames(p.neg, names - {"default"});
    SumDifference(names - {"default"}, n => NameTotal(p.pos, n), n => NameTotal(p.neg, n), n => ValueName(p, n));
    if "default" in names {
      SumRemove(names, n => ValueName(p, n), "default");
    } else {
      assert names - {"default"} == names;
    }
  }

  lemma WellKeySegments(k: string)
    requires WellKey(k)
    ensures FirstColon(k) != 0 && (FirstColon(k) > 0 ==> Segment(k) != "default")
  {
    var name, node :| ColonFree(name) && ColonFree(node) && k == CounterKey(name, node);
    if !IsDefault(name) {
      FirstSegmentUnique(name, node, name);
      PrefixIsSegment(name, k);
    }
  }

  /** On keys built from colon-free names and ids nothing is stray or counted twice: Value is the default
      counter plus the sum over Names. */
  lemma ValueSplitsOverNames(p: Shared)
    requires WellShared(p)
    ensures Value(p) == ValueName(p, "default") + Sum(NamesOf(p), n => ValueName(p, n))
  {
    forall k | k in p.pos || k in p.neg ensures FirstColon(k) != 0 && (FirstColon(k) > 0 ==> Segment(k) != "default") {
      assert WellKey(k);
      WellKeySegments(k);
    }
    assert Stray(p.pos) == {} && Stray(p.neg) == {};
    assert "default" !in NamesOf(p);
    NamesAccountForTotal(p);
  }
}
