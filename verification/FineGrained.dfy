/** Delta gossip with the locks of the code: counts and clock are separate objects, so an operation, a merge
    and a reply are several steps each, and steps of all replicas and rounds interleave.  Counts always move
    before the clock, and a reply reads the clock before the counts.  Push snapshots are atomic, each pair has
    one round in flight, and a reply that was begun is delivered. */
module FineGrained {
  import opened GoMaps
  import opened Keys
  import opened Replica
  import opened GossipCluster

  /** A round of i with j, by the next thing to happen. */
  datatype Round =
    | MergeCounts(req: Update)                              // j has the request
    | MergeClock(req: Update)                               // j's counts have it, j's clock has not
    | ReadClock(req: Update)                                // j has merged it and starts its reply
    | ReadPos(req: Update, clock: Counts, base: Counts)     // reply clock and base are fixed
    | ReadNeg(req: Update, clock: Counts, base: Counts, pos: Counts)
    | TakeCounts(req: Update, rep: Update)                  // i has the reply
    | TakeClock(req: Update, rep: Update)                   // i's counts have it, i's clock has not

  datatype Fabric = Fabric(nodes: map<NodeId, Node>, log: Log, rounds: map<(NodeId, NodeId), Round>)

  datatype Move =
    | Count(i: NodeId, name: string, op: Op)
    | Tick(i: NodeId, k: string)
    | Begin(i: NodeId, j: NodeId, periodic: bool)
    | Advance(i: NodeId, j: NodeId)
    | Drop(i: NodeId, j: NodeId)

  predicate CanMove(c: Fabric, m: Move) {
    match m
    case Count(i, _, _) => i in c.nodes
    case Tick(i, k) => i in c.nodes && Owner(k) == i && Get(c.nodes[i].st.clock, k) < |OpsOf(c.log, k)|
    case Begin(i, j, _) => i in c.nodes && j in c.nodes && i != j && (i, j) !in c.rounds
    case Advance(i, j) => i in c.nodes && j in c.nodes && (i, j) in c.rounds
    case Drop(i, j) => (i, j) in c.rounds && c.rounds[(i, j)].MergeCounts?
  }

  function CountsOnly(st: State, k: string, op: Op): State {
    match op
    case Inc(d) => st.(pos := Bump(st.pos, k, d))
    case Dec(d) => st.(neg := Bump(st.neg, k, d))
  }

  function AbsorbCounts(st: State, u: Update): State {
    st.(pos := MergeMax(st.pos, u.pos), neg := MergeMax(st.neg, u.neg))
  }

  function AbsorbClock(st: State, u: Update): State {
    st.(clock := MergeMax(st.clock, u.clock))
  }

  /** The next step of the round of i with j: the new node (i or j), and the round that is left. */
  function Next(c: Fabric, i: NodeId, j: NodeId): Fabric
    requires CanMove(c, Advance(i, j))
  {
    var p, ni, nj := (i, j), c.nodes[i], c.nodes[j];
    match c.rounds[p]
    case MergeCounts(req) =>
      c.(nodes := c.nodes[j := nj.(st := AbsorbCounts(nj.st, req))], rounds := c.rounds[p := MergeClock(req)])
    case MergeClock(req) =>
      c.(nodes := c.nodes[j := nj.(st := AbsorbClock(nj.st, req))], rounds := c.rounds[p := ReadClock(req)])
    case ReadClock(req) =>
      var clock, base := nj.st.clock, ReplyBase(req, BaseOf(nj.replied, i));
      var replied := if req.full then nj.replied else nj.replied[i := MergeMax(clock, req.clock)];
      c.(nodes := c.nodes[j := nj.(replied := replied)], rounds := c.rounds[p := ReadPos(req, clock, base)])
    case ReadPos(req, clock, base) =>
      c.(rounds := c.rounds[p := ReadNeg(req, clock, base, Selected(req.full, nj.st.pos, clock, base))])
    case ReadNeg(req, clock, base, pos) =>
      c.(rounds := c.rounds[p :=
        TakeCounts(req, Update(req.full, pos, Selected(req.full, nj.st.neg, clock, base), clock))])
    case TakeCounts(req, rep) =>
      c.(nodes := c.nodes[i := ni.(st := AbsorbCounts(ni.st, rep))], rounds := c.rounds[p := TakeClock(req, rep)])
    case TakeClock(req, rep) =>
      c.(nodes := c.nodes[i := ni.(st := AbsorbClock(ni.st, rep),
                                   lastSync := ni.lastSync[j := MergeMax(req.clock, rep.clock)])],
         rounds := c.rounds - {p})
  }

  function Make(c: Fabric, m: Move): Fabric
    requires CanMove(c, m)
  {
    match m
    case Count(i, name, op) =>
      var k := CounterKey(name, i);
      c.(nodes := c.nodes[i := c.nodes[i].(st := CountsOnly(c.nodes[i].st, k, op))],
         log := c.log[k := OpsOf(c.log, k) + [op]])
    case Tick(i, k) =>
      var n := c.nodes[i];
      c.(nodes := c.nodes[i := n.(st := n.st.(clock := Bump(n.st.clock, k, 1)))])
    case Begin(i, j, periodic) =>
      var n := c.nodes[i];
      var base := BaseOf(n.lastSync, j);
      if Skips(n.st, base, periodic) then c
      else c.(rounds := c.rounds[(i, j) := MergeCounts(Request(n.st, base, periodic))])
    case Advance(i, j) => Next(c, i, j)
    case Drop(i, j) => c.(rounds := c.rounds - {(i, j)})
  }

  // ----- counts never older than the clock -----

  /** The counts at k include at least the first n operations, and nothing that was not issued. */
  ghost predicate FreshAt(l: seq<Op>, pos: int, neg: int, n: int) {
    0 <= n <= |l| && PosUpTo(l, n) <= pos <= PosUpTo(l, |l|) && NegUpTo(l, n) <= neg <= NegUpTo(l, |l|)
  }

  ghost predicate Fresh(log: Log, st: State) {
    AllPositive(st) && forall k :: FreshAt(OpsOf(log, k), Get(st.pos, k), Get(st.neg, k), Get(st.clock, k))
  }

  /** Every entry of u is fresh, or its clock entry is one that the receiver's clock already has. */
  ghost predicate CarriesAt(l: seq<Op>, u: Update, known: Counts, k: string) {
    var n := Get(u.clock, k);
    && 0 <= n <= |l|
    && 0 <= Get(u.pos, k) <= PosUpTo(l, |l|) && 0 <= Get(u.neg, k) <= NegUpTo(l, |l|)
    && (FreshAt(l, Get(u.pos, k), Get(u.neg, k), n) || n <= Get(known, k))
  }

  ghost predicate Carries(log: Log, u: Update, known: Counts) {
    Positive(u.clock) && forall k :: CarriesAt(OpsOf(log, k), u, known, k)
  }

  ghost predicate CountsIn(u: Update, st: State) {
    Leq(u.pos, st.pos) && Leq(u.neg, st.neg)
  }

  /** A reply under construction: what has been read so far is fresh wherever it will be sent. */
  ghost predicate DraftAt(l: seq<Op>, full: bool, clock: Counts, base: Counts, pos: Counts, k: string) {
    var n := Get(clock, k);
    && 0 <= n <= |l| && 0 <= Get(pos, k) <= PosUpTo(l, |l|)
    && (PosUpTo(l, n) <= Get(pos, k) || (!full && n <= Get(base, k)))
  }

  ghost predicate DraftOk(log: Log, full: bool, clock: Counts, base: Counts, pos: Counts) {
    forall k :: DraftAt(OpsOf(log, k), full, clock, base, pos, k)
  }

  ghost predicate RoundInv(log: Log, ni: Node, nj: Node, replied: Counts, r: Round) {
    && Positive(r.req.clock) && Leq(r.req.clock, ni.st.clock)
    && match r
       case MergeCounts(req) => Carries(log, req, nj.st.clock) && Leq(replied, req.clock)
       case MergeClock(req) => Carries(log, req, nj.st.clock) && CountsIn(req, nj.st) && Leq(replied, req.clock)
       case ReadClock(req) => Leq(req.clock, nj.st.clock) && Leq(replied, req.clock)
       case ReadPos(req, clock, base) =>
         && Leq(req.clock, nj.st.clock) && Positive(clock) && Leq(clock, nj.st.clock)
         && (Leq(replied, clock) || Leq(replied, req.clock)) && Leq(base, ni.st.clock)
       case ReadNeg(req, clock, base, pos) =>
         && Leq(req.clock, nj.st.clock) && Positive(clock) && Leq(clock, nj.st.clock)
         && (Leq(replied, clock) || Leq(replied, req.clock)) && Leq(base, ni.st.clock)
         && DraftOk(log, req.full, clock, base, pos)
       case TakeCounts(req, rep) =>
         && Leq(req.clock, nj.st.clock) && Leq(rep.clock, nj.st.clock)
         && (Leq(replied, rep.clock) || Leq(replied, req.clock)) && Carries(log, rep, ni.st.clock)
       case TakeClock(req, rep) =>
         && Leq(req.clock, nj.st.clock) && Leq(rep.clock, nj.st.clock)
         && (Leq(replied, rep.clock) || Leq(replied, req.clock)) && Carries(log, rep, ni.st.clock)
         && CountsIn(rep, ni.st)
  }

  ghost predicate PairI(c: Fabric, i: NodeId, j: NodeId)
    requires i in c.nodes && j in c.nodes
  {
    var ni, nj := c.nodes[i], c.nodes[j];
    && Positive(BaseOf(ni.lastSync, j)) && Positive(BaseOf(nj.replied, i))
    && Leq(BaseOf(ni.lastSync, j), ni.st.clock) && Leq(BaseOf(ni.lastSync, j), nj.st.clock)
    && (if (i, j) in c.rounds then RoundInv(c.log, ni, nj, BaseOf(nj.replied, i), c.rounds[(i, j)])
        else Leq(BaseOf(nj.replied, i), ni.st.clock))
  }

  /** The writer's counts are complete at every moment; its clock catches up tick by tick. */
  ghost predicate OwnCounts(log: Log, i: NodeId, st: State) {
    forall k :: Owner(k) == i ==>
      Get(st.pos, k) == PosUpTo(OpsOf(log, k), |OpsOf(log, k)|) &&
        Get(st.neg, k) == NegUpTo(OpsOf(log, k), |OpsOf(log, k)|)
  }

  ghost predicate NodeI(log: Log, i: NodeId, st: State) {
    ColonFree(i) && Fresh(log, st) && OwnCounts(log, i, st)
  }

  ghost predicate NodesI(c: Fabric) {
    forall i :: i in c.nodes ==> NodeI(c.log, i, c.nodes[i].st)
  }

  ghost predicate PairsI(c: Fabric) {
    forall i, j :: i in c.nodes && j in c.nodes && i != j ==> PairI(c, i, j)
  }

  ghost predicate RoundsShape(c: Fabric) {
    forall p :: p in c.rounds ==> p.0 in c.nodes && p.1 in c.nodes && p.0 != p.1
  }

  ghost predicate FabricInv(c: Fabric) {
    RoundsShape(c) && NodesI(c) && PairsI(c)
  }

  // ----- growth -----

  lemma FreshAtLonger(l: seq<Op>, l': seq<Op>, pos: int, neg: int, n: int)
    requires l <= l'
    ensures FreshAt(l, pos, neg, n) ==> FreshAt(l', pos, neg, n)
    ensures PosUpTo(l, |l|) <= PosUpTo(l', |l'|) && NegUpTo(l, |l|) <= NegUpTo(l', |l'|)
    ensures 0 <= n <= |l| ==> PosUpTo(l, n) == PosUpTo(l', n) && NegUpTo(l, n) == NegUpTo(l', n)
  {
    UpToOfPrefix(l, l', |l|);
    UpToMonotone(l', |l|, |l'|);
    if 0 <= n <= |l| {
      UpToOfPrefix(l, l', n);
    }
  }

  lemma FreshLonger(log: Log, log': Log, st: State)
    requires Fresh(log, st) && LogGrows(log, log')
    ensures Fresh(log', st)
  {
    forall k ensures FreshAt(OpsOf(log', k), Get(st.pos, k), Get(st.neg, k), Get(st.clock, k)) {
      FreshAtLonger(OpsOf(log, k), OpsOf(log', k), Get(st.pos, k), Get(st.neg, k), Get(st.clock, k));
    }
  }

  lemma CarriesLonger(log: Log, log': Log, u: Update, known: Counts, known': Counts)
    requires Carries(log, u, known) && LogGrows(log, log') && Leq(known, known')
    ensures Carries(log', u, known')
  {
    forall k ensures CarriesAt(OpsOf(log', k), u, known', k) {
      assert CarriesAt(OpsOf(log, k), u, known, k);
      FreshAtLonger(OpsOf(log, k), OpsOf(log', k), Get(u.pos, k), Get(u.neg, k), Get(u.clock, k));
    }
  }

  lemma DraftLonger(log: Log, log': Log, full: bool, clock: Counts, base: Counts, pos: Counts)
    requires DraftOk(log, full, clock, base, pos) && LogGrows(log, log')
    ensures DraftOk(log', full, clock, base, pos)
  {
    forall k ensures DraftAt(OpsOf(log', k), full, clock, base, pos, k) {
      assert DraftAt(OpsOf(log, k), full, clock, base, pos, k);
      FreshAtLonger(OpsOf(log, k), OpsOf(log', k), 0, 0, Get(clock, k));
    }
  }

  lemma RoundStable(log: Log, log': Log, ni: Node, nj: Node, ni': Node, nj': Node, replied: Counts, r: Round)
    requires RoundInv(log, ni, nj, replied, r) && LogGrows(log, log')
    requires StateLeq(ni.st, ni'.st) && StateLeq(nj.st, nj'.st)
    ensures RoundInv(log', ni', nj', replied, r)
  {
    match r
    case MergeCounts(req) => CarriesLonger(log, log', req, nj.st.clock, nj'.st.clock);
    case MergeClock(req) => CarriesLonger(log, log', req, nj.st.clock, nj'.st.clock);
    case ReadNeg(req, clock, base, pos) => DraftLonger(log, log', req.full, clock, base, pos);
    case TakeCounts(req, rep) => CarriesLonger(log, log', rep, ni.st.clock, ni'.st.clock);
    case TakeClock(req, rep) => CarriesLonger(log, log', rep, ni.st.clock, ni'.st.clock);
    case ReadClock(_) =>
    case ReadPos(_, _, _) =>
  }

  ghost predicate SamePair(c: Fabric, c': Fabric, a: NodeId, b: NodeId)
    requires c'.nodes.Keys == c.nodes.Keys && a in c.nodes && b in c.nodes
  {
    && StateLeq(c.nodes[a].st, c'.nodes[a].st) && StateLeq(c.nodes[b].st, c'.nodes[b].st)
    && BaseOf(c'.nodes[a].lastSync, b) == BaseOf(c.nodes[a].lastSync, b)
    && BaseOf(c'.nodes[b].replied, a) == BaseOf(c.nodes[b].replied, a)
    && ((a, b) in c'.rounds <==> (a, b) in c.rounds)
    && ((a, b) in c.rounds ==> c'.rounds[(a, b)] == c.rounds[(a, b)])
  }

  lemma PairKept(c: Fabric, c': Fabric, a: NodeId, b: NodeId)
    requires c'.nodes.Keys == c.nodes.Keys && a in c.nodes && b in c.nodes
    requires PairI(c, a, b) && SamePair(c, c', a, b) && LogGrows(c.log, c'.log)
    ensures PairI(c', a, b)
  {
    if (a, b) in c.rounds {
      RoundStable(c.log, c'.log, c.nodes[a], c.nodes[b], c'.nodes[a], c'.nodes[b],
                  BaseOf(c.nodes[b].replied, a), c.rounds[(a, b)]);
    }
  }

  /** All pairs but (i, j) are as before, up to growth. */
  ghost predicate Others(c: Fabric, c': Fabric, i: NodeId, j: NodeId)
    requires c'.nodes.Keys == c.nodes.Keys
  {
    forall a, b :: a in c.nodes && b in c.nodes && a != b && (a, b) != (i, j) ==> SamePair(c, c', a, b)
  }

  lemma PairsKept(c: Fabric, c': Fabric, i: NodeId, j: NodeId)
    requires PairsI(c) && c'.nodes.Keys == c.nodes.Keys && LogGrows(c.log, c'.log) && Others(c, c', i, j)
    requires i in c.nodes && j in c.nodes && i != j ==> PairI(c', i, j)
    ensures PairsI(c')
  {
    forall a, b | a in c'.nodes && b in c'.nodes && a != b ensures PairI(c', a, b) {
      if (a, b) != (i, j) {
        assert PairI(c, a, b) && SamePair(c, c', a, b);
        PairKept(c, c', a, b);
      }
    }
  }

  // ----- one node -----

  lemma AbsorbAtKey(l: seq<Op>, st: State, u: Update, known: Counts, st': State, k: string)
    requires FreshAt(l, Get(st.pos, k), Get(st.neg, k), Get(st.clock, k)) && CarriesAt(l, u, known, k)
    requires Get(st'.pos, k) == Max(Get(st.pos, k), Get(u.pos, k)) &&
      Get(st'.neg, k) == Max(Get(st.neg, k), Get(u.neg, k))
    requires st'.clock == st.clock
    ensures FreshAt(l, Get(st'.pos, k), Get(st'.neg, k), Get(st'.clock, k))
    ensures Get(st.pos, k) == PosUpTo(l, |l|) ==> Get(st'.pos, k) == Get(st.pos, k)
    ensures Get(st.neg, k) == NegUpTo(l, |l|) ==> Get(st'.neg, k) == Get(st.neg, k)
  {
  }

  lemma AbsorbCountsNode(log: Log, i: NodeId, st: State, u: Update, known: Counts)
    requires NodeI(log, i, st) && Carries(log, u, known)
    ensures NodeI(log, i, AbsorbCounts(st, u))
  {
    var st' := AbsorbCounts(st, u);
    MergeGet(st.pos, u.pos);
    MergeGet(st.neg, u.neg);
    forall k ensures FreshAt(OpsOf(log, k), Get(st'.pos, k), Get(st'.neg, k), Get(st'.clock, k))
    ensures Owner(k) == i ==> Get(st'.pos, k) == Get(st.pos, k) && Get(st'.neg, k) == Get(st.neg, k) {
      AbsorbAtKey(OpsOf(log, k), st, u, known, st', k);
    }
  }

  lemma AbsorbCountsUp(st: State, u: Update)
    requires AllPositive(st)
    ensures StateLeq(st, AbsorbCounts(st, u)) && CountsIn(u, AbsorbCounts(st, u))
  {
    MergeGet(st.pos, u.pos);
    MergeGet(st.neg, u.neg);
  }

  lemma AbsorbClockNode(log: Log, i: NodeId, st: State, u: Update)
    requires NodeI(log, i, st) && Carries(log, u, st.clock) && CountsIn(u, st)
    ensures NodeI(log, i, AbsorbClock(st, u)) && StateLeq(st, AbsorbClock(st, u)) &&
      Leq(u.clock, AbsorbClock(st, u).clock)
  {
    var st' := AbsorbClock(st, u);
    MergeGet(st.clock, u.clock);
    forall k ensures FreshAt(OpsOf(log, k), Get(st'.pos, k), Get(st'.neg, k), Get(st'.clock, k)) {
      assert FreshAt(OpsOf(log, k), Get(st.pos, k), Get(st.neg, k), Get(st.clock, k));
      assert CarriesAt(OpsOf(log, k), u, st.clock, k);
      assert Get(u.pos, k) <= Get(st.pos, k) && Get(u.neg, k) <= Get(st.neg, k);
    }
  }

  lemma TickNode(log: Log, i: NodeId, st: State, k: string)
    requires NodeI(log, i, st) && Owner(k) == i && Get(st.clock, k) < |OpsOf(log, k)|
    ensures var st' := st.(clock := Bump(st.clock, k, 1)); NodeI(log, i, st') && StateLeq(st, st')
  {
    var l, n := OpsOf(log, k), Get(st.clock, k);
    var st' := st.(clock := Bump(st.clock, k, 1));
    assert FreshAt(l, Get(st.pos, k), Get(st.neg, k), n);
    UpToMonotone(l, n + 1, |l|);
    forall q ensures FreshAt(OpsOf(log, q), Get(st'.pos, q), Get(st'.neg, q), Get(st'.clock, q)) {
      assert FreshAt(OpsOf(log, q), Get(st.pos, q), Get(st.neg, q), Get(st.clock, q));
    }
  }

  lemma CountAtKey(l: seq<Op>, st: State, k: string, op: Op)
    requires FreshAt(l, Get(st.pos, k), Get(st.neg, k), Get(st.clock, k))
    requires Get(st.pos, k) == PosUpTo(l, |l|) && Get(st.neg, k) == NegUpTo(l, |l|)
    ensures var st', l' := CountsOnly(st, k, op), l + [op];
            && FreshAt(l', Get(st'.pos, k), Get(st'.neg, k), Get(st'.clock, k))
            && Get(st'.pos, k) == PosUpTo(l', |l'|) && Get(st'.neg, k) == NegUpTo(l', |l'|)
    ensures 0 <= Get(st.pos, k) && 0 <= Get(st.neg, k)
  {
    var l' := l + [op];
    UpToOfPrefix(l, l', |l|);
    UpToMonotone(l, |l|, |l|);
    UpToMonotone(l', Get(st.clock, k), |l'|);
  }

  lemma CountOthers(st: State, k: string, op: Op)
    requires AllPositive(st)
    ensures var st' := CountsOnly(st, k, op);
            && AllPositive(st') && StateLeq(st, st')
            && forall q :: q != k ==> Get(st'.pos, q) == Get(st.pos, q) && Get(st'.neg, q) == Get(st.neg, q)
  {
    match op
    case Inc(d) => BumpGet(st.pos, k, d);
    case Dec(d) => BumpGet(st.neg, k, d);
  }

  lemma CountFresh(log: Log, st: State, k: string, op: Op, q: string)
    requires Fresh(log, st)
    requires Get(st.pos, k) == PosUpTo(OpsOf(log, k), |OpsOf(log, k)|)
    requires Get(st.neg, k) == NegUpTo(OpsOf(log, k), |OpsOf(log, k)|)
    ensures var log', st' := log[k := OpsOf(log, k) + [op]], CountsOnly(st, k, op);
            FreshAt(OpsOf(log', q), Get(st'.pos, q), Get(st'.neg, q), Get(st'.clock, q))
  {
    assert FreshAt(OpsOf(log, k), Get(st.pos, k), Get(st.neg, k), Get(st.clock, k));
    assert FreshAt(OpsOf(log, q), Get(st.pos, q), Get(st.neg, q), Get(st.clock, q));
    CountAtKey(OpsOf(log, k), st, k, op);
    CountOthers(st, k, op);
  }

  lemma CountNode(log: Log, i: NodeId, st: State, k: string, op: Op)
    requires NodeI(log, i, st) && Owner(k) == i
    ensures var log' := log[k := OpsOf(log, k) + [op]];
            LogGrows(log, log') && NodeI(log', i, CountsOnly(st, k, op)) && StateLeq(st, CountsOnly(st, k, op))
  {
    var log', st' := log[k := OpsOf(log, k) + [op]], CountsOnly(st, k, op);
    assert FreshAt(OpsOf(log, k), Get(st.pos, k), Get(st.neg, k), Get(st.clock, k));
    CountAtKey(OpsOf(log, k), st, k, op);
    CountOthers(st, k, op);
    forall q ensures FreshAt(OpsOf(log', q), Get(st'.pos, q), Get(st'.neg, q), Get(st'.clock, q)) {
      CountFresh(log, st, k, op, q);
    }
  }

  lemma CountElsewhere(log: Log, log': Log, i: NodeId, st: State, k: string)
    requires NodeI(log, i, st) && LogGrows(log, log') && Owner(k) != i
    requires forall q :: q != k ==> OpsOf(log', q) == OpsOf(log, q)
    ensures NodeI(log', i, st)
  {
    FreshLonger(log, log', st);
  }

  // ----- one round -----

  /** A push filtered against a baseline that the peer's clock has. */
  lemma RequestCarries(log: Log, st: State, base: Counts, periodic: bool, known: Counts)
    requires Fresh(log, st) && Positive(base) && Leq(base, known)
    ensures Carries(log, Request(st, base, periodic), known)
  {
    var u := Request(st, base, periodic);
    forall k ensures CarriesAt(OpsOf(log, k), u, known, k) {
      var l := OpsOf(log, k);
      assert FreshAt(l, Get(st.pos, k), Get(st.neg, k), Get(st.clock, k));
      UpToMonotone(l, 0, |l|);
      UpToMonotone(l, 0, Get(st.clock, k));
      assert Get(base, k) <= Get(known, k);
    }
  }

  /** Reading counts after the clock: whatever will be sent is at least as new as the clock entry. */
  lemma ReadCountsFresh(log: Log, st: State, full: bool, clock: Counts, base: Counts, k: string)
    requires Fresh(log, st) && Positive(clock) && Leq(clock, st.clock)
    ensures var l, n := OpsOf(log, k), Get(clock, k);
            var pos, neg := Selected(full, st.pos, clock, base), Selected(full, st.neg, clock, base);
            && 0 <= n <= |l|
            && 0 <= Get(pos, k) <= PosUpTo(l, |l|) && 0 <= Get(neg, k) <= NegUpTo(l, |l|)
            && (|| (PosUpTo(l, n) <= Get(pos, k) && NegUpTo(l, n) <= Get(neg, k))
                || (!full && n <= Get(base, k)) || n == 0)
            && (n == 0 ==> PosUpTo(l, n) == 0 && NegUpTo(l, n) == 0)
  {
    var l := OpsOf(log, k);
    assert FreshAt(l, Get(st.pos, k), Get(st.neg, k), Get(st.clock, k));
    assert Get(clock, k) <= Get(st.clock, k);
    UpToMonotone(l, Get(clock, k), Get(st.clock, k));
    UpToMonotone(l, 0, |l|);
  }

  lemma ReadPosDraft(log: Log, st: State, full: bool, clock: Counts, base: Counts)
    requires Fresh(log, st) && Positive(clock) && Leq(clock, st.clock)
    ensures DraftOk(log, full, clock, base, Selected(full, st.pos, clock, base))
  {
    forall k ensures DraftAt(OpsOf(log, k), full, clock, base, Selected(full, st.pos, clock, base), k) {
      ReadCountsFresh(log, st, full, clock, base, k);
    }
  }

  lemma ReadNegCarries(log: Log, st: State, full: bool, clock: Counts, base: Counts, pos: Counts, known: Counts)
    requires Fresh(log, st) && Positive(clock) && Leq(clock, st.clock) && Leq(base, known)
    requires DraftOk(log, full, clock, base, pos)
    ensures Carries(log, Update(full, pos, Selected(full, st.neg, clock, base), clock), known)
  {
    var u := Update(full, pos, Selected(full, st.neg, clock, base), clock);
    forall k ensures CarriesAt(OpsOf(log, k), u, known, k) {
      ReadCountsFresh(log, st, full, clock, base, k);
      assert DraftAt(OpsOf(log, k), full, clock, base, pos, k);
      assert Get(base, k) <= Get(known, k);
    }
  }

  /** Which node a step of the round of i with j changes. */
  function Actor(c: Fabric, i: NodeId, j: NodeId): NodeId
    requires CanMove(c, Advance(i, j))
  {
    if c.rounds[(i, j)].TakeCounts? || c.rounds[(i, j)].TakeClock? then i else j
  }

  lemma AdvanceNode(c: Fabric, i: NodeId, j: NodeId)
    requires CanMove(c, Advance(i, j)) && PairI(c, i, j)
    requires NodeI(c.log, i, c.nodes[i].st) && NodeI(c.log, j, c.nodes[j].st)
    ensures var x, c' := Actor(c, i, j), Next(c, i, j);
            NodeI(c.log, x, c'.nodes[x].st) && StateLeq(c.nodes[x].st, c'.nodes[x].st)
  {
    var ni, nj := c.nodes[i], c.nodes[j];
    match c.rounds[(i, j)]
    case MergeCounts(req) => { AbsorbCountsNode(c.log, j, nj.st, req, nj.st.clock); AbsorbCountsUp(nj.st, req); }
    case MergeClock(req) => AbsorbClockNode(c.log, j, nj.st, req);
    case TakeCounts(req, rep) => { AbsorbCountsNode(c.log, i, ni.st, rep, ni.st.clock); AbsorbCountsUp(ni.st, rep); }
    case TakeClock(req, rep) => AbsorbClockNode(c.log, i, ni.st, rep);
    case ReadClock(_) =>
    case ReadPos(_, _, _) =>
    case ReadNeg(_, _, _, _) =>
  }

  lemma MergePhases(c: Fabric, i: NodeId, j: NodeId)
    requires CanMove(c, Advance(i, j)) && i != j && PairI(c, i, j) &&
      (c.rounds[(i, j)].MergeCounts? || c.rounds[(i, j)].MergeClock?)
    requires NodeI(c.log, i, c.nodes[i].st) && NodeI(c.log, j, c.nodes[j].st)
    ensures PairI(Next(c, i, j), i, j)
  {
    var r, nj := c.rounds[(i, j)], c.nodes[j];
    if r.MergeCounts? {
      AbsorbCountsUp(nj.st, r.req);
    } else {
      AbsorbClockNode(c.log, j, nj.st, r.req);
    }
  }

  lemma ReadClockPhase(c: Fabric, i: NodeId, j: NodeId)
    requires CanMove(c, Advance(i, j)) && i != j && PairI(c, i, j) && c.rounds[(i, j)].ReadClock?
    requires NodeI(c.log, j, c.nodes[j].st)
    ensures PairI(Next(c, i, j), i, j)
  {
    var r, ni, nj := c.rounds[(i, j)], c.nodes[i], c.nodes[j];
    MergeBounds(r.req.clock, BaseOf(nj.replied, i), ni.st.clock);
    MergeBounds(nj.st.clock, r.req.clock, nj.st.clock);
  }

  lemma ReadCountsPhases(c: Fabric, i: NodeId, j: NodeId)
    requires CanMove(c, Advance(i, j)) && i != j && PairI(c, i, j) &&
      (c.rounds[(i, j)].ReadPos? || c.rounds[(i, j)].ReadNeg?)
    requires NodeI(c.log, j, c.nodes[j].st)
    ensures PairI(Next(c, i, j), i, j)
  {
    var r, ni, nj := c.rounds[(i, j)], c.nodes[i], c.nodes[j];
    if r.ReadPos? {
      ReadPosDraft(c.log, nj.st, r.req.full, r.clock, r.base);
    } else {
      ReadNegCarries(c.log, nj.st, r.req.full, r.clock, r.base, r.pos, ni.st.clock);
    }
  }

  lemma TakePhases(c: Fabric, i: NodeId, j: NodeId)
    requires CanMove(c, Advance(i, j)) && i != j && PairI(c, i, j) &&
      (c.rounds[(i, j)].TakeCounts? || c.rounds[(i, j)].TakeClock?)
    requires NodeI(c.log, i, c.nodes[i].st)
    ensures PairI(Next(c, i, j), i, j)
  {
    var r, ni := c.rounds[(i, j)], c.nodes[i];
    if r.TakeCounts? {
      AbsorbCountsUp(ni.st, r.rep);
    } else {
      AbsorbClockNode(c.log, i, ni.st, r.rep);
      MergeBounds(r.req.clock, r.rep.clock, AbsorbClock(ni.st, r.rep).clock);
      MergeBounds(r.req.clock, r.rep.clock, c.nodes[j].st.clock);
    }
  }

  lemma AdvancePair(c: Fabric, i: NodeId, j: NodeId)
    requires CanMove(c, Advance(i, j)) && i != j && PairI(c, i, j)
    requires NodeI(c.log, i, c.nodes[i].st) && NodeI(c.log, j, c.nodes[j].st)
    ensures PairI(Next(c, i, j), i, j)
  {
    match c.rounds[(i, j)]
    case MergeCounts(_) => MergePhases(c, i, j);
    case MergeClock(_) => MergePhases(c, i, j);
    case ReadClock(_) => ReadClockPhase(c, i, j);
    case ReadPos(_, _, _) => ReadCountsPhases(c, i, j);
    case ReadNeg(_, _, _, _) => ReadCountsPhases(c, i, j);
    case TakeCounts(_, _) => TakePhases(c, i, j);
    case TakeClock(_, _) => TakePhases(c, i, j);
  }

  lemma AdvanceRounds(c: Fabric, i: NodeId, j: NodeId)
    requires CanMove(c, Advance(i, j))
    ensures Next(c, i, j).log == c.log && Next(c, i, j).rounds - {(i, j)} == c.rounds - {(i, j)}
  {
    var r, r' := c.rounds, Next(c, i, j).rounds;
    assert r' == r - {(i, j)} || r' == r[(i, j) := r'[(i, j)]];
  }

  lemma AdvanceOneNode(c: Fabric, i: NodeId, j: NodeId)
    requires CanMove(c, Advance(i, j))
    ensures var x, c' := Actor(c, i, j), Next(c, i, j);
            && x in c'.nodes && c'.nodes == c.nodes[x := c'.nodes[x]]
            && (x == j != i ==> c'.nodes[x].lastSync == c.nodes[x].lastSync)
            && (x == i != j ==> c'.nodes[x].replied == c.nodes[x].replied)
  {
  }

  /** A step of the round of i with j touches the actor's state, the baseline the actor keeps for the other,
      and the round. */
  lemma AdvanceTouches(c: Fabric, i: NodeId, j: NodeId)
    requires CanMove(c, Advance(i, j)) && i != j
    ensures var x, c' := Actor(c, i, j), Next(c, i, j);
            && c'.nodes == c.nodes[x := c'.nodes[x]] && c'.log == c.log
            && c'.rounds - {(i, j)} == c.rounds - {(i, j)}
            && (x == j ==> c'.nodes[x].lastSync == c.nodes[x].lastSync)
            && (x == i ==> c'.nodes[x].replied == c.nodes[x].replied)
            && (forall b :: b != j ==> BaseOf(c'.nodes[i].lastSync, b) == BaseOf(c.nodes[i].lastSync, b))
            && (forall a :: a != i ==> BaseOf(c'.nodes[j].replied, a) == BaseOf(c.nodes[j].replied, a))
  {
    AdvanceRounds(c, i, j);
    AdvanceOneNode(c, i, j);
  }

  lemma AdvanceFrame(c: Fabric, c': Fabric, x: NodeId, i: NodeId, j: NodeId)
    requires i != j && (x == i || x == j) && x in c.nodes && c'.nodes.Keys == c.nodes.Keys
    requires i in c.nodes && j in c.nodes
    requires c'.nodes == c.nodes[x := c'.nodes[x]] && c'.rounds - {(i, j)} == c.rounds - {(i, j)}
    requires StateLeq(c.nodes[x].st, c'.nodes[x].st)
    requires x == j ==> c'.nodes[x].lastSync == c.nodes[x].lastSync
    requires x == i ==> c'.nodes[x].replied == c.nodes[x].replied
    requires forall b :: b != j ==> BaseOf(c'.nodes[i].lastSync, b) == BaseOf(c.nodes[i].lastSync, b)
    requires forall a :: a != i ==> BaseOf(c'.nodes[j].replied, a) == BaseOf(c.nodes[j].replied, a)
    ensures Others(c, c', i, j)
  {
    forall a, b | a in c.nodes && b in c.nodes && a != b && (a, b) != (i, j) ensures SamePair(c, c', a, b) {
      OtherKey(c.rounds, c'.rounds, (i, j), (a, b));
    }
  }

  lemma AdvanceParts(c: Fabric, i: NodeId, j: NodeId)
    requires FabricInv(c) && CanMove(c, Advance(i, j))
    ensures i != j
    ensures var x, c' := Actor(c, i, j), Next(c, i, j);
            NodeI(c.log, x, c'.nodes[x].st) && StateLeq(c.nodes[x].st, c'.nodes[x].st) && PairI(c', i, j)
  {
    assert (i, j) in c.rounds;
    assert i != j && PairI(c, i, j) && NodeI(c.log, i, c.nodes[i].st) && NodeI(c.log, j, c.nodes[j].st);
    AdvanceNode(c, i, j);
    AdvancePair(c, i, j);
  }

  lemma AdvanceInv(c: Fabric, i: NodeId, j: NodeId)
    requires FabricInv(c) && CanMove(c, Advance(i, j))
    ensures FabricInv(Next(c, i, j))
  {
    var c', x := Next(c, i, j), Actor(c, i, j);
    AdvanceParts(c, i, j);
    AdvanceTouches(c, i, j);
    AdvanceFrame(c, c', x, i, j);
    PairsKept(c, c', i, j);
    NodesAfter(c, c', x);
    ShapeAfter(c, c', i, j);
  }

  lemma ShapeAfter(c: Fabric, c': Fabric, i: NodeId, j: NodeId)
    requires RoundsShape(c) && c'.nodes.Keys == c.nodes.Keys && i in c.nodes && j in c.nodes && i != j
    requires c'.rounds - {(i, j)} == c.rounds - {(i, j)}
    ensures RoundsShape(c')
  {
    forall p | p in c'.rounds ensures p.0 in c'.nodes && p.1 in c'.nodes && p.0 != p.1 {
      if p != (i, j) {
        OtherKey(c.rounds, c'.rounds, (i, j), p);
      }
    }
  }

  lemma NodesAfter(c: Fabric, c': Fabric, x: NodeId)
    requires NodesI(c) && x in c.nodes && x in c'.nodes && c'.log == c.log
    requires NodeI(c.log, x, c'.nodes[x].st) && c'.nodes == c.nodes[x := c'.nodes[x]]
    ensures NodesI(c')
  {
  }

  // ----- the other moves -----

  lemma CountInv(c: Fabric, i: NodeId, name: string, op: Op)
    requires FabricInv(c) && i in c.nodes
    ensures FabricInv(Make(c, Count(i, name, op)))
  {
    var c', k := Make(c, Count(i, name, op)), CounterKey(name, i);
    assert NodeI(c.log, i, c.nodes[i].st);
    OwnerOfKey(name, i);
    CountNode(c.log, i, c.nodes[i].st, k, op);
    forall a | a in c'.nodes ensures NodeI(c'.log, a, c'.nodes[a].st) {
      if a != i {
        assert NodeI(c.log, a, c.nodes[a].st);
        CountElsewhere(c.log, c'.log, a, c.nodes[a].st, k);
      }
    }
    StateFrame(c, c', i);
    PairsKept(c, c', i, i);
  }

  /** A move of node i that touches nothing but its state. */
  lemma StateFrame(c: Fabric, c': Fabric, i: NodeId)
    requires i in c.nodes && i in c'.nodes && c'.rounds == c.rounds && StateLeq(c.nodes[i].st, c'.nodes[i].st)
    requires c'.nodes == c.nodes[i := c.nodes[i].(st := c'.nodes[i].st)]
    ensures Others(c, c', i, i)
  {
  }

  lemma TickInv(c: Fabric, i: NodeId, k: string)
    requires FabricInv(c) && CanMove(c, Tick(i, k))
    ensures FabricInv(Make(c, Tick(i, k)))
  {
    var c' := Make(c, Tick(i, k));
    assert NodeI(c.log, i, c.nodes[i].st);
    TickNode(c.log, i, c.nodes[i].st, k);
    NodesAfter(c, c', i);
    StateFrame(c, c', i);
    PairsKept(c, c', i, i);
  }

  lemma BeginPair(c: Fabric, i: NodeId, j: NodeId, periodic: bool)
    requires CanMove(c, Begin(i, j, periodic)) && PairI(c, i, j) && NodeI(c.log, i, c.nodes[i].st)
    requires !Skips(c.nodes[i].st, BaseOf(c.nodes[i].lastSync, j), periodic)
    ensures PairI(Make(c, Begin(i, j, periodic)), i, j)
  {
    var n := c.nodes[i];
    RequestCarries(c.log, n.st, BaseOf(n.lastSync, j), periodic, c.nodes[j].st.clock);
  }

  lemma RoundOthers(c: Fabric, c': Fabric, i: NodeId, j: NodeId)
    requires c'.nodes == c.nodes && c'.rounds - {(i, j)} == c.rounds - {(i, j)}
    ensures Others(c, c', i, j)
  {
    forall a, b | a in c.nodes && b in c.nodes && a != b && (a, b) != (i, j) ensures SamePair(c, c', a, b) {
      OtherKey(c.rounds, c'.rounds, (i, j), (a, b));
    }
  }

  /** Starting a round touches nothing but that round. */
  lemma BeginTouches(c: Fabric, i: NodeId, j: NodeId, periodic: bool)
    requires CanMove(c, Begin(i, j, periodic))
    ensures var c' := Make(c, Begin(i, j, periodic));
            && c'.nodes == c.nodes && c'.log == c.log && c'.rounds - {(i, j)} == c.rounds - {(i, j)}
            && (RoundsShape(c) ==> RoundsShape(c'))
  {
  }

  lemma BeginInv(c: Fabric, i: NodeId, j: NodeId, periodic: bool)
    requires FabricInv(c) && CanMove(c, Begin(i, j, periodic))
    ensures FabricInv(Make(c, Begin(i, j, periodic)))
  {
    var c' := Make(c, Begin(i, j, periodic));
    if !Skips(c.nodes[i].st, BaseOf(c.nodes[i].lastSync, j), periodic) {
      assert PairI(c, i, j) && NodeI(c.log, i, c.nodes[i].st);
      BeginTouches(c, i, j, periodic);
      BeginPair(c, i, j, periodic);
      RoundOthers(c, c', i, j);
      PairsKept(c, c', i, j);
    }
  }

  lemma DropInv(c: Fabric, i: NodeId, j: NodeId)
    requires FabricInv(c) && CanMove(c, Drop(i, j))
    ensures FabricInv(Make(c, Drop(i, j)))
  {
    var c' := Make(c, Drop(i, j));
    assert (i, j) in c.rounds;
    assert PairI(c, i, j);
    RoundOthers(c, c', i, j);
    PairsKept(c, c', i, j);
  }

  lemma MoveInv(c: Fabric, m: Move)
    requires FabricInv(c) && CanMove(c, m)
    ensures FabricInv(Make(c, m))
  {
    match m
    case Count(i, name, op) => CountInv(c, i, name, op);
    case Tick(i, k) => TickInv(c, i, k);
    case Begin(i, j, periodic) => BeginInv(c, i, j, periodic);
    case Advance(i, j) => AdvanceInv(c, i, j);
    case Drop(i, j) => DropInv(c, i, j);
  }

  // ----- runs -----

  predicate Playable(c: Fabric, run: seq<Move>)
    decreases |run|
  {
    run == [] || (CanMove(c, run[0]) && Playable(Make(c, run[0]), run[1..]))
  }

  function Play(c: Fabric, run: seq<Move>): Fabric
    requires Playable(c, run)
    decreases |run|
  {
    if run == [] then c else Play(Make(c, run[0]), run[1..])
  }

  function Launch(ids: set<NodeId>): Fabric {
    Fabric(map i | i in ids :: Node(EMPTY, map[], map[]), map[], map[])
  }

  lemma {:induction false} PlayInv(c: Fabric, run: seq<Move>)
    requires FabricInv(c) && Playable(c, run)
    ensures FabricInv(Play(c, run))
    decreases |run|
  {
    if run != [] {
      MoveInv(c, run[0]);
      PlayInv(Make(c, run[0]), run[1..]);
    }
  }

  lemma {:induction false} PlayNodes(c: Fabric, run: seq<Move>)
    requires Playable(c, run)
    ensures Play(c, run).nodes.Keys == c.nodes.Keys
    decreases |run|
  {
    if run != [] {
      PlayNodes(Make(c, run[0]), run[1..]);
    }
  }

  /** In every interleaving, at every replica and key, the counts include at least the operations that the
      clock entry claims and nothing that was not issued; once the clock entry covers the whole history, the
      counts are exact. */
  lemma CountsNeverOlderThanClock(ids: set<NodeId>, run: seq<Move>, i: NodeId, k: string)
    requires forall x :: x in ids ==> ColonFree(x)
    requires Playable(Launch(ids), run) && i in ids
    ensures var c := Play(Launch(ids), run);
            i in c.nodes &&
            var st, l := c.nodes[i].st, OpsOf(c.log, k);
            var n := Get(st.clock, k);
            && 0 <= n <= |l|
            && PosUpTo(l, n) <= Get(st.pos, k) <= PosUpTo(l, |l|)
            && NegUpTo(l, n) <= Get(st.neg, k) <= NegUpTo(l, |l|)
            && (n == |l| ==> Get(st.pos, k) == PosUpTo(l, n) && Get(st.neg, k) == NegUpTo(l, n))
  {
    var c := Play(Launch(ids), run);
    PlayInv(Launch(ids), run);
    PlayNodes(Launch(ids), run);
    assert NodeI(c.log, i, c.nodes[i].st);
    assert FreshAt(OpsOf(c.log, k), Get(c.nodes[i].st.pos, k), Get(c.nodes[i].st.neg, k), Get(c.nodes[i].st.clock, k));
  }

  /** The same for every reply on its way: at each key it carries counts at least as new as its clock entry,
      or the clock entry is one that the receiver already has. */
  lemma RepliesNeverOlderThanClock(ids: set<NodeId>, run: seq<Move>, i: NodeId, j: NodeId, k: string)
    requires forall x :: x in ids ==> ColonFree(x)
    requires Playable(Launch(ids), run)
    requires var c := Play(Launch(ids), run); (i, j) in c.rounds && c.rounds[(i, j)].TakeCounts?
    ensures var c := Play(Launch(ids), run);
            i in c.nodes &&
            var rep, l := c.rounds[(i, j)].rep, OpsOf(c.log, k);
            var n := Get(rep.clock, k);
            && 0 <= n <= |l|
            && ((PosUpTo(l, n) <= Get(rep.pos, k) && NegUpTo(l, n) <= Get(rep.neg, k)) ||
              n <= Get(c.nodes[i].st.clock, k))
  {
    var c := Play(Launch(ids), run);
    PlayInv(Launch(ids), run);
    assert (i, j) in c.rounds;
    assert PairI(c, i, j);
    assert CarriesAt(OpsOf(c.log, k), c.rounds[(i, j)].rep, c.nodes[i].st.clock, k);
  }

  // ----- a round without interruption -----

  /** Both nodes of a pair, and its round. */
  function WithPair(c: Fabric, i: NodeId, ni: Node, j: NodeId, nj: Node, r: Round): Fabric {
    c.(nodes := c.nodes[i := ni][j := nj], rounds := c.rounds[(i, j) := r])
  }

  lemma PairOf(c: Fabric, i: NodeId, ni: Node, j: NodeId, nj: Node, r: Round)
    requires i != j
    ensures var c' := WithPair(c, i, ni, j, nj, r);
            && CanMove(c', Advance(i, j)) && c'.nodes[i] == ni && c'.nodes[j] == nj && c'.rounds[(i, j)] == r
            && (forall n, q :: WithPair(c', i, ni, j, n, q) == WithPair(c, i, ni, j, n, q))
            && (forall n, q :: WithPair(c', i, n, j, nj, q) == WithPair(c, i, n, j, nj, q))
  {
    var c' := WithPair(c, i, ni, j, nj, r);
    forall n, q ensures WithPair(c', i, ni, j, n, q) == WithPair(c, i, ni, j, n, q) {
      assert c'.nodes[i := ni][j := n] == c.nodes[i := ni][j := n];
    }
    forall n, q ensures WithPair(c', i, n, j, nj, q) == WithPair(c, i, n, j, nj, q) {
      assert c'.nodes[i := n][j := nj] == c.nodes[i := n][j := nj];
    }
  }

  /** The responder merges the request in two steps. */
  lemma MergeSteps(c: Fabric, i: NodeId, ni: Node, j: NodeId, nj: Node, req: Update)
    requires i != j
    ensures var c1 := WithPair(c, i, ni, j, nj, MergeCounts(req));
            && CanMove(c1, Advance(i, j)) && CanMove(Next(c1, i, j), Advance(i, j))
            && Next(Next(c1, i, j), i, j) == WithPair(c, i, ni, j, nj.(st := MergeUpdate(nj.st, req)), ReadClock(req))
  {
    var half := nj.(st := AbsorbCounts(nj.st, req));
    PairOf(c, i, ni, j, nj, MergeCounts(req));
    var c1 := WithPair(c, i, ni, j, nj, MergeCounts(req));
    assert Next(c1, i, j) == WithPair(c1, i, ni, j, half, MergeClock(req)) by {
      assert c1.nodes[i := ni] == c1.nodes;
    }
    PairOf(c, i, ni, j, half, MergeClock(req));
    var c2 := WithPair(c, i, ni, j, half, MergeClock(req));
    assert Next(c2, i, j) == WithPair(c2, i, ni, j, nj.(st := MergeUpdate(nj.st, req)), ReadClock(req)) by {
      assert c2.nodes[i := ni] == c2.nodes;
    }
  }

  /** It fixes the reply's clock and base, advances its record, and reads the counts, in three steps. */
  lemma ReplySteps(c: Fabric, i: NodeId, ni: Node, j: NodeId, nj: Node, req: Update)
    requires i != j
    ensures var c1 := WithPair(c, i, ni, j, nj, ReadClock(req));
            var replied := if req.full then nj.replied else nj.replied[i := MergeMax(nj.st.clock, req.clock)];
            var rep := Reply(nj.st, req, BaseOf(nj.replied, i));
            && CanMove(c1, Advance(i, j)) && CanMove(Next(c1, i, j), Advance(i, j))
            && CanMove(Next(Next(c1, i, j), i, j), Advance(i, j))
            && Next(Next(Next(c1, i, j), i, j), i, j) ==
                 WithPair(c, i, ni, j, nj.(replied := replied), TakeCounts(req, rep))
  {
    var clock, base := nj.st.clock, ReplyBase(req, BaseOf(nj.replied, i));
    var n := nj.(replied := if req.full then nj.replied else nj.replied[i := MergeMax(clock, req.clock)]);
    var pos := Selected(req.full, nj.st.pos, clock, base);
    PairOf(c, i, ni, j, nj, ReadClock(req));
    var c1 := WithPair(c, i, ni, j, nj, ReadClock(req));
    assert Next(c1, i, j) == WithPair(c1, i, ni, j, n, ReadPos(req, clock, base)) by {
      assert c1.nodes[i := ni] == c1.nodes;
    }
    PairOf(c, i, ni, j, n, ReadPos(req, clock, base));
    ReadSteps(c, i, ni, j, n, req, clock, base);
  }

  lemma ReadSteps(c: Fabric, i: NodeId, ni: Node, j: NodeId, n: Node, req: Update, clock: Counts, base: Counts)
    requires i != j
    ensures var c1 := WithPair(c, i, ni, j, n, ReadPos(req, clock, base));
            var pos, neg := Selected(req.full, n.st.pos, clock, base), Selected(req.full, n.st.neg, clock, base);
            && CanMove(c1, Advance(i, j)) && CanMove(Next(c1, i, j), Advance(i, j))
            && Next(Next(c1, i, j), i, j) ==
                 WithPair(c, i, ni, j, n, TakeCounts(req, Update(req.full, pos, neg, clock)))
  {
    var pos := Selected(req.full, n.st.pos, clock, base);
    PairOf(c, i, ni, j, n, ReadPos(req, clock, base));
    var c1 := WithPair(c, i, ni, j, n, ReadPos(req, clock, base));
    assert Next(c1, i, j) == WithPair(c1, i, ni, j, n, ReadNeg(req, clock, base, pos)) by {
      assert c1.nodes[i := ni] == c1.nodes && c1.nodes[j := n] == c1.nodes;
    }
    PairOf(c, i, ni, j, n, ReadNeg(req, clock, base, pos));
    var c2 := WithPair(c, i, ni, j, n, ReadNeg(req, clock, base, pos));
    var neg := Selected(req.full, n.st.neg, clock, base);
    assert Next(c2, i, j) == WithPair(c2, i, ni, j, n, TakeCounts(req, Update(req.full, pos, neg, clock))) by {
      assert c2.nodes[i := ni] == c2.nodes && c2.nodes[j := n] == c2.nodes;
    }
  }

  /** The pusher merges the reply in two steps and records the baseline. */
  lemma TakeSteps(c: Fabric, i: NodeId, ni: Node, j: NodeId, nj: Node, req: Update, rep: Update)
    requires i != j
    ensures var c1 := WithPair(c, i, ni, j, nj, TakeCounts(req, rep));
            && CanMove(c1, Advance(i, j)) && CanMove(Next(c1, i, j), Advance(i, j))
            && Next(Next(c1, i, j), i, j).nodes == c.nodes[i := Finish(ni, j, req.clock, rep)][j := nj]
            && Next(Next(c1, i, j), i, j).rounds == c.rounds - {(i, j)}
  {
    var half := ni.(st := AbsorbCounts(ni.st, rep));
    PairOf(c, i, ni, j, nj, TakeCounts(req, rep));
    var c1 := WithPair(c, i, ni, j, nj, TakeCounts(req, rep));
    assert Next(c1, i, j) == WithPair(c1, i, half, j, nj, TakeClock(req, rep)) by {
      assert c1.nodes[i := half][j := nj] == c1.nodes[i := half];
    }
    PairOf(c, i, half, j, nj, TakeClock(req, rep));
    var c2 := WithPair(c, i, half, j, nj, TakeClock(req, rep));
    TakeLast(c2, i, j, half, req, rep);
    TakenPair(c, i, half, Finish(ni, j, req.clock, rep), j, nj, TakeClock(req, rep));
  }

  lemma TakenPair(c: Fabric, i: NodeId, half: Node, n: Node, j: NodeId, nj: Node, r: Round)
    requires i != j
    ensures var c2 := WithPair(c, i, half, j, nj, r);
            c2.nodes[i := n] == c.nodes[i := n][j := nj] && c2.rounds - {(i, j)} == c.rounds - {(i, j)}
  {
  }

  lemma TakeLast(c: Fabric, i: NodeId, j: NodeId, half: Node, req: Update, rep: Update)
    requires CanMove(c, Advance(i, j)) && c.rounds[(i, j)] == TakeClock(req, rep) && c.nodes[i] == half
    ensures var n := half.(st := AbsorbClock(half.st, rep),
                           lastSync := half.lastSync[j := MergeMax(req.clock, rep.clock)]);
            Next(c, i, j).nodes == c.nodes[i := n] && Next(c, i, j).rounds == c.rounds - {(i, j)}
  {
  }

  function Steps(i: NodeId, j: NodeId, n: nat): seq<Move> {
    seq(n, _ => Advance(i, j))
  }

  lemma OneMoreStep(c: Fabric, i: NodeId, j: NodeId, n: nat)
    requires CanMove(c, Advance(i, j)) && Playable(Next(c, i, j), Steps(i, j, n))
    ensures Playable(c, Steps(i, j, n + 1)) && Play(c, Steps(i, j, n + 1)) == Play(Next(c, i, j), Steps(i, j, n))
  {
    var run := Steps(i, j, n + 1);
    assert run[0] == Advance(i, j) && run[1..] == Steps(i, j, n);
  }

  lemma TwoSteps(c: Fabric, i: NodeId, j: NodeId)
    requires CanMove(c, Advance(i, j)) && CanMove(Next(c, i, j), Advance(i, j))
    ensures Playable(c, Steps(i, j, 2)) && Play(c, Steps(i, j, 2)) == Next(Next(c, i, j), i, j)
  {
    OneMoreStep(Next(c, i, j), i, j, 0);
    OneMoreStep(c, i, j, 1);
  }

  lemma {:induction false} PlayConcat(c: Fabric, a: seq<Move>, b: seq<Move>)
    requires Playable(c, a) && Playable(Play(c, a), b)
    ensures Playable(c, a + b) && Play(c, a + b) == Play(Play(c, a), b)
    decreases |a|
  {
    if a == [] {
      assert a + b == b;
    } else {
      assert (a + b)[1..] == a[1..] + b;
      PlayConcat(Make(c, a[0]), a[1..], b);
    }
  }

  lemma PlayMerge(c: Fabric, i: NodeId, ni: Node, j: NodeId, nj: Node, req: Update)
    requires i != j
    ensures var c1 := WithPair(c, i, ni, j, nj, MergeCounts(req));
            && Playable(c1, Steps(i, j, 2))
            && Play(c1, Steps(i, j, 2)) == WithPair(c, i, ni, j, nj.(st := MergeUpdate(nj.st, req)), ReadClock(req))
  {
    MergeSteps(c, i, ni, j, nj, req);
    TwoSteps(WithPair(c, i, ni, j, nj, MergeCounts(req)), i, j);
  }

  function Recorded(nj: Node, i: NodeId, req: Update): Node {
    nj.(replied := if req.full then nj.replied else nj.replied[i := MergeMax(nj.st.clock, req.clock)])
  }

  lemma PlayReply(c: Fabric, i: NodeId, ni: Node, j: NodeId, nj: Node, req: Update)
    requires i != j
    ensures var c1 := WithPair(c, i, ni, j, nj, ReadClock(req));
            var rep := Reply(nj.st, req, BaseOf(nj.replied, i));
            && Playable(c1, Steps(i, j, 3))
            && Play(c1, Steps(i, j, 3)) == WithPair(c, i, ni, j, Recorded(nj, i, req), TakeCounts(req, rep))
  {
    var c1 := WithPair(c, i, ni, j, nj, ReadClock(req));
    ReplySteps(c, i, ni, j, nj, req);
    TwoSteps(Next(c1, i, j), i, j);
    OneMoreStep(c1, i, j, 2);
  }

  lemma PlayTake(c: Fabric, i: NodeId, ni: Node, j: NodeId, nj: Node, req: Update, rep: Update)
    requires i != j
    ensures var c1 := WithPair(c, i, ni, j, nj, TakeCounts(req, rep));
            && Playable(c1, Steps(i, j, 2))
            && Play(c1, Steps(i, j, 2)).nodes == c.nodes[i := Finish(ni, j, req.clock, rep)][j := nj]
            && Play(c1, Steps(i, j, 2)).rounds == c.rounds - {(i, j)}
  {
    TakeSteps(c, i, ni, j, nj, req, rep);
    TwoSteps(WithPair(c, i, ni, j, nj, TakeCounts(req, rep)), i, j);
  }

  /** The seven steps of a round after its push: merge, reply, take. */
  function RoundSteps(i: NodeId, j: NodeId): seq<Move> {
    Steps(i, j, 2) + (Steps(i, j, 3) + Steps(i, j, 2))
  }

  lemma PlayRound(c: Fabric, i: NodeId, ni: Node, j: NodeId, nj: Node, req: Update)
    requires i != j
    ensures var c1, nj' := WithPair(c, i, ni, j, nj, MergeCounts(req)), Respond(nj, i, req);
            var rep := Reply(nj'.st, req, BaseOf(nj.replied, i));
            && Playable(c1, RoundSteps(i, j))
            && Play(c1, RoundSteps(i, j)).nodes == c.nodes[i := Finish(ni, j, req.clock, rep)][j := nj']
            && Play(c1, RoundSteps(i, j)).rounds == c.rounds - {(i, j)}
  {
    var c1, merged := WithPair(c, i, ni, j, nj, MergeCounts(req)), nj.(st := MergeUpdate(nj.st, req));
    var rep := Reply(merged.st, req, BaseOf(nj.replied, i));
    PlayMerge(c, i, ni, j, nj, req);
    PlayReply(c, i, ni, j, merged, req);
    PlayTake(c, i, ni, j, Recorded(merged, i, req), req, rep);
    PlayConcat(WithPair(c, i, ni, j, merged, ReadClock(req)), Steps(i, j, 3), Steps(i, j, 2));
    PlayConcat(c1, Steps(i, j, 2), Steps(i, j, 3) + Steps(i, j, 2));
    assert Respond(nj, i, req) == Recorded(merged, i, req);
  }

  lemma BeginIsPair(c: Fabric, i: NodeId, j: NodeId, periodic: bool)
    requires CanMove(c, Begin(i, j, periodic)) && !Skips(c.nodes[i].st, BaseOf(c.nodes[i].lastSync, j), periodic)
    ensures var req := Request(c.nodes[i].st, BaseOf(c.nodes[i].lastSync, j), periodic);
            Make(c, Begin(i, j, periodic)) == WithPair(c, i, c.nodes[i], j, c.nodes[j], MergeCounts(req))
    ensures c.rounds - {(i, j)} == c.rounds
  {
    assert c.nodes[i := c.nodes[i]][j := c.nodes[j]] == c.nodes;
  }

  lemma RequestClock(st: State, base: Counts, periodic: bool)
    ensures Request(st, base, periodic).clock == st.clock
  {
  }

  /** A round that nothing interrupts does what the cluster model's push, answer and delivery do. */
  lemma UninterruptedRound(c: Fabric, i: NodeId, j: NodeId, periodic: bool)
    requires CanMove(c, Begin(i, j, periodic)) && !Skips(c.nodes[i].st, BaseOf(c.nodes[i].lastSync, j), periodic)
    ensures var c1 := Make(c, Begin(i, j, periodic));
            var ni, nj := c.nodes[i], c.nodes[j];
            var req := Request(ni.st, BaseOf(ni.lastSync, j), periodic);
            var nj' := Respond(nj, i, req);
            var rep := Reply(nj'.st, req, BaseOf(nj.replied, i));
            && Playable(c1, RoundSteps(i, j))
            && Play(c1, RoundSteps(i, j)).nodes == c.nodes[i := Finish(ni, j, ni.st.clock, rep)][j := nj']
            && Play(c1, RoundSteps(i, j)).rounds == c.rounds
  {
    var ni, base := c.nodes[i], BaseOf(c.nodes[i].lastSync, j);
    BeginIsPair(c, i, j, periodic);
    RequestClock(ni.st, base, periodic);
    PlayRound(c, i, ni, j, c.nodes[j], Request(ni.st, base, periodic));
  }
}
