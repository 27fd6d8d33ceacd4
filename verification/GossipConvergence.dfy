/** Progress of delta gossip: rounds that carry something are finite in number, silence means agreement,
    and one sweep through a hub brings every replica to the join of all states. */
module GossipConvergence {
  import opened GoMaps
  import opened Keys
  import opened Replica
  import opened GossipCluster
  import opened GossipSafety
  import Naming

  // ----- complete states -----

  /** Every operation issued so far is in the state. */
  ghost predicate Complete(log: Log, st: State) {
    HoldsPrefix(log, st) && forall k :: Get(st.clock, k) == |OpsOf(log, k)|
  }

  function NetCount(ops: seq<Op>): int {
    PosUpTo(ops, |ops|) - NegUpTo(ops, |ops|)
  }

  /** Increments minus decrements over all keys. */
  ghost function NetOf(log: Log): int {
    Sum(log.Keys, k => NetCount(OpsOf(log, k)))
  }

  /** What Value returns. */
  ghost function ValueOf(st: State): int {
    Naming.Value(Naming.Shared(st.pos, st.neg))
  }

  /** The counts of a complete state live on keys of the log. */
  lemma CompleteKeys(log: Log, st: State, k: string)
    requires Complete(log, st)
    ensures Get(st.pos, k) == PosUpTo(OpsOf(log, k), |OpsOf(log, k)|)
    ensures Get(st.neg, k) == NegUpTo(OpsOf(log, k), |OpsOf(log, k)|)
    ensures k in st.pos || k in st.neg ==> k in log
  {
    assert AtPrefix(OpsOf(log, k), st, k);
    assert Get(st.clock, k) == |OpsOf(log, k)|;
    if k in st.pos { assert st.pos[k] > 0; }
    if k in st.neg { assert st.neg[k] > 0; }
  }

  /** A complete replica reports increments minus decrements of the whole history. */
  lemma CompleteValue(log: Log, st: State)
    requires Complete(log, st)
    ensures ValueOf(st) == NetOf(log)
  {
    forall k ensures k in st.pos || k in st.neg ==> k in log {
      CompleteKeys(log, st, k);
    }
    var f, g := (k: string) => Get(st.pos, k), (k: string) => Get(st.neg, k);
    var h := (k: string) => NetCount(OpsOf(log, k));
    SumSuperset(st.pos.Keys, log.Keys, f);
    SumSuperset(st.neg.Keys, log.Keys, g);
    forall k | k in log.Keys ensures h(k) == f(k) - g(k) {
      CompleteKeys(log, st, k);
    }
    SumDifference(log.Keys, f, g, h);
  }

  /** All replicas hold the same maps, those of the whole history, and report its value. */
  ghost predicate Converged(c: Cluster) {
    forall i :: i in c.nodes ==>
      && Complete(c.log, c.nodes[i].st)
      && ValueOf(c.nodes[i].st) == NetOf(c.log)
      && forall j :: j in c.nodes ==> c.nodes[i].st == c.nodes[j].st
  }

  lemma CompleteMeansConverged(c: Cluster)
    requires forall i :: i in c.nodes ==> Complete(c.log, c.nodes[i].st)
    ensures Converged(c)
  {
    forall i | i in c.nodes ensures ValueOf(c.nodes[i].st) == NetOf(c.log) {
      CompleteValue(c.log, c.nodes[i].st);
    }
    forall i, j | i in c.nodes && j in c.nodes ensures c.nodes[i].st == c.nodes[j].st {
      forall k ensures Get(c.nodes[i].st.clock, k) == Get(c.nodes[j].st.clock, k) {
        assert Get(c.nodes[i].st.clock, k) == |OpsOf(c.log, k)|;
      }
      SameClockSameState(c.log, c.nodes[i].st, c.nodes[j].st);
    }
  }

  // ----- silence means convergence -----

  /** No round in flight, and every engine would skip every push. */
  predicate Silent(c: Cluster) {
    c.flights == map[] &&
    forall i, j :: i in c.nodes && j in c.nodes && i != j ==>
      Skips(c.nodes[i].st, BaseOf(c.nodes[i].lastSync, j), false)
  }

  lemma SkipCovers(c: Cluster, i: NodeId, j: NodeId)
    requires PairsInv(c) && i in c.nodes && j in c.nodes && i != j
    requires Skips(c.nodes[i].st, BaseOf(c.nodes[i].lastSync, j), false)
    ensures Leq(c.nodes[i].st.clock, c.nodes[j].st.clock)
  {
    assert PairInv(c, i, j);
    var clock, base := c.nodes[i].st.clock, BaseOf(c.nodes[i].lastSync, j);
    forall k ensures Get(clock, k) <= Get(c.nodes[j].st.clock, k) {
      assert !NewerAt(clock, base, k);
      assert 0 <= Get(base, k) <= Get(c.nodes[j].st.clock, k);
    }
  }

  /** A node that has every node's clock has every operation: the writer of each key is one of them. */
  lemma CoversAllMeansComplete(c: Cluster, st: State)
    requires Shape(c) && NodesInv(c) && HoldsPrefix(c.log, st)
    requires forall j :: j in c.nodes ==> Leq(c.nodes[j].st.clock, st.clock)
    ensures Complete(c.log, st)
  {
    forall k ensures Get(st.clock, k) == |OpsOf(c.log, k)| {
      assert AtPrefix(OpsOf(c.log, k), st, k);
      if k in c.log {
        var j := Owner(k);
        assert NodeInv(c, j);
        assert Get(c.nodes[j].st.clock, k) <= Get(st.clock, k);
      }
    }
  }

  lemma SilentIsConverged(c: Cluster)
    requires Inv(c) && Silent(c)
    ensures Converged(c)
  {
    forall i | i in c.nodes ensures Complete(c.log, c.nodes[i].st) {
      assert NodeInv(c, i);
      forall j | j in c.nodes ensures Leq(c.nodes[j].st.clock, c.nodes[i].st.clock) {
        if j != i {
          SkipCovers(c, j, i);
        }
      }
      CoversAllMeansComplete(c, c.nodes[i].st);
    }
    CompleteMeansConverged(c);
  }

  /** Silence means convergence.  In every run: once nothing is in flight and every engine would skip every push,
      all replicas hold the maps of the whole history and report its value. */
  lemma SilenceMeansConvergence(ids: set<NodeId>, run: seq<Step>)
    requires forall x :: x in ids ==> ColonFree(x)
    requires Legal(Start(ids), run) && Silent(Exec(Start(ids), run))
    ensures Converged(Exec(Start(ids), run))
  {
    Reachable(ids, run);
    SilentIsConverged(Exec(Start(ids), run));
  }

  // ----- non-empty delta rounds are finite in number -----

  /** How many operations on k node i has not seen. */
  function ClockGap(c: Cluster, p: (NodeId, string)): int {
    if p.0 in c.nodes then |OpsOf(c.log, p.1)| - Get(c.nodes[p.0].st.clock, p.1) else 0
  }

  /** How far the baseline that i keeps for j is behind the history of k. */
  function BaseGap(c: Cluster, p: (NodeId, NodeId, string)): int {
    if p.0 in c.nodes then |OpsOf(c.log, p.2)| - Get(BaseOf(c.nodes[p.0].lastSync, p.1), p.2) else 0
  }

  ghost function ClockIndex(c: Cluster): set<(NodeId, string)> {
    set i, k | i in c.nodes && k in c.log :: (i, k)
  }

  ghost function BaseIndex(c: Cluster): set<(NodeId, NodeId, string)> {
    set i, j, k | i in c.nodes && j in c.nodes && k in c.log && i != j :: (i, j, k)
  }

  /** Total clock lag plus total baseline lag. */
  ghost function Lag(c: Cluster): int {
    Sum(ClockIndex(c), p => ClockGap(c, p)) + Sum(BaseIndex(c), p => BaseGap(c, p))
  }

  /** This step is the end of a delta round that carried something. */
  predicate CompletesDelta(c: Cluster, s: Step) {
    s.Deliver? && (s.i, s.j) in c.flights && !c.flights[(s.i, s.j)].req.full
  }

  lemma GapsNonNegative(c: Cluster)
    requires Inv(c)
    ensures forall p :: p in ClockIndex(c) ==> 0 <= ClockGap(c, p)
    ensures forall p :: p in BaseIndex(c) ==> 0 <= BaseGap(c, p)
  {
    forall p | p in ClockIndex(c) ensures 0 <= ClockGap(c, p) {
      InvAtKey(c, p.0, p.1);
    }
    forall p | p in BaseIndex(c) ensures 0 <= BaseGap(c, p) {
      InvAtKey(c, p.0, p.2);
      assert PairInv(c, p.0, p.1);
    }
  }

  lemma LagNonNegative(c: Cluster)
    requires Inv(c)
    ensures 0 <= Lag(c)
  {
    GapsNonNegative(c);
    SumNonNegative(ClockIndex(c), p => ClockGap(c, p));
    SumNonNegative(BaseIndex(c), p => BaseGap(c, p));
  }

  /** Clocks and baselines only grow when no operation is issued. */
  ghost predicate Advances(c: Cluster, c': Cluster) {
    && c'.nodes.Keys == c.nodes.Keys && c'.log == c.log
    && (forall i :: i in c.nodes ==> Leq(c.nodes[i].st.clock, c'.nodes[i].st.clock))
    && (forall i, j :: i in c.nodes && j in c.nodes && i != j ==>
          Leq(BaseOf(c.nodes[i].lastSync, j), BaseOf(c'.nodes[i].lastSync, j)))
  }

  lemma AnswerAdvances(c: Cluster, i: NodeId, j: NodeId)
    requires Enabled(c, Answer(i, j))
    requires Leq(c.nodes[j].st.clock, MergeUpdate(c.nodes[j].st, c.flights[(i, j)].req).clock)
    ensures Advances(c, Do(c, Answer(i, j)))
  {
  }

  lemma DeliverAdvances(c: Cluster, i: NodeId, j: NodeId)
    requires Enabled(c, Deliver(i, j))
    requires Leq(c.nodes[i].st.clock, MergeUpdate(c.nodes[i].st, c.flights[(i, j)].rep).clock)
    requires Leq(BaseOf(c.nodes[i].lastSync, j), MergeMax(c.flights[(i, j)].snap.clock, c.flights[(i, j)].rep.clock))
    ensures Advances(c, Do(c, Deliver(i, j)))
  {
    var c' := Do(c, Deliver(i, j));
    assert c'.nodes == c.nodes[i := c'.nodes[i]];
    forall a, b | a in c.nodes && b in c.nodes && a != b
      ensures Leq(BaseOf(c.nodes[a].lastSync, b), BaseOf(c'.nodes[a].lastSync, b))
    {
      assert a != i || b != j ==> BaseOf(c'.nodes[a].lastSync, b) == BaseOf(c.nodes[a].lastSync, b);
    }
  }

  /** The new baseline is above the old one, strictly at some key when the round carried something. */
  lemma DeliverRaisesBaseline(c: Cluster, i: NodeId, j: NodeId)
    requires i in c.nodes && j in c.nodes && PairInv(c, i, j)
    requires (i, j) in c.flights && c.flights[(i, j)].Answered?
    ensures var f, base := c.flights[(i, j)], BaseOf(c.nodes[i].lastSync, j);
            var base' := MergeMax(f.snap.clock, f.rep.clock);
            && Leq(base, base')
            && (!f.req.full ==> exists k :: k in c.log && Get(base, k) < Get(base', k))
  {
    var f, base := c.flights[(i, j)], BaseOf(c.nodes[i].lastSync, j);
    MergeBounds(f.snap.clock, f.rep.clock, f.answer.clock);
    if !f.req.full {
      var k :| k in f.snap.clock && NewerAt(f.snap.clock, base, k);
      assert AtPrefix(OpsOf(c.log, k), f.snap, k);
      assert Get(f.snap.clock, k) <= Get(MergeMax(f.snap.clock, f.rep.clock), k);
    }
  }

  lemma AdvanceShrinksLag(c: Cluster, c': Cluster)
    requires Advances(c, c')
    ensures Lag(c') <= Lag(c)
  {
    assert ClockIndex(c') == ClockIndex(c) && BaseIndex(c') == BaseIndex(c);
    SumMonotone(ClockIndex(c), p => ClockGap(c', p), p => ClockGap(c, p));
    SumMonotone(BaseIndex(c), p => BaseGap(c', p), p => BaseGap(c, p));
  }

  lemma AdvanceShrinksLagStrictly(c: Cluster, c': Cluster, i: NodeId, j: NodeId, k: string)
    requires Advances(c, c') && i in c.nodes && j in c.nodes && i != j && k in c.log
    requires Get(BaseOf(c.nodes[i].lastSync, j), k) < Get(BaseOf(c'.nodes[i].lastSync, j), k)
    ensures Lag(c') < Lag(c)
  {
    assert ClockIndex(c') == ClockIndex(c) && BaseIndex(c') == BaseIndex(c);
    SumMonotone(ClockIndex(c), p => ClockGap(c', p), p => ClockGap(c, p));
    assert (i, j, k) in BaseIndex(c);
    SumStrict(BaseIndex(c), p => BaseGap(c', p), p => BaseGap(c, p), (i, j, k));
  }

  lemma QuietShrinksLag(c: Cluster, c': Cluster)
    requires c'.nodes == c.nodes && c'.log == c.log
    ensures Lag(c') <= Lag(c)
  {
    AdvanceShrinksLag(c, c');
  }

  lemma AnswerShrinksLag(c: Cluster, i: NodeId, j: NodeId)
    requires Inv(c) && Enabled(c, Answer(i, j))
    ensures Lag(Do(c, Answer(i, j))) <= Lag(c)
  {
    AnswerState(c, i, j);
    AnswerAdvances(c, i, j);
    AdvanceShrinksLag(c, Do(c, Answer(i, j)));
  }

  lemma DeliverShrinksLag(c: Cluster, i: NodeId, j: NodeId)
    requires Inv(c) && Enabled(c, Deliver(i, j))
    ensures Lag(Do(c, Deliver(i, j))) <= Lag(c)
    ensures !c.flights[(i, j)].req.full ==> Lag(Do(c, Deliver(i, j))) < Lag(c)
  {
    var f, base := c.flights[(i, j)], BaseOf(c.nodes[i].lastSync, j);
    assert (i, j) in c.flights;
    DeliverState(c, i, j);
    assert PairInv(c, i, j);
    DeliverRaisesBaseline(c, i, j);
    DeliverAdvances(c, i, j);
    AdvanceShrinksLag(c, Do(c, Deliver(i, j)));
    if !f.req.full {
      var k :| k in c.log && Get(base, k) < Get(MergeMax(f.snap.clock, f.rep.clock), k);
      AdvanceShrinksLagStrictly(c, Do(c, Deliver(i, j)), i, j, k);
    }
  }

  /** With no new operation the lag never grows, and every completed non-empty delta round shrinks it. */
  lemma StepShrinksLag(c: Cluster, s: Step)
    requires Inv(c) && Enabled(c, s) && !s.Operate?
    ensures Lag(Do(c, s)) <= Lag(c)
    ensures CompletesDelta(c, s) ==> Lag(Do(c, s)) < Lag(c)
  {
    match s
    case Operate(_, _, _) =>
    case Answer(i, j) => AnswerShrinksLag(c, i, j);
    case Deliver(i, j) => DeliverShrinksLag(c, i, j);
    case Push(_, _, _) => QuietShrinksLag(c, Do(c, s));
    case LoseRequest(_, _) => QuietShrinksLag(c, Do(c, s));
  }

  /** Completed non-empty delta rounds in a run. */
  function DeltaRounds(c: Cluster, run: seq<Step>): nat
    requires Legal(c, run)
    decreases |run|
  {
    if run == [] then 0
    else (if CompletesDelta(c, run[0]) then 1 else 0) + DeltaRounds(Do(c, run[0]), run[1..])
  }

  predicate OperationFree(run: seq<Step>) {
    forall s :: s in run ==> !s.Operate?
  }

  lemma {:induction false} RoundsWithinLag(c: Cluster, run: seq<Step>)
    requires Inv(c) && Legal(c, run) && OperationFree(run)
    ensures DeltaRounds(c, run) + Lag(Exec(c, run)) <= Lag(c)
    ensures DeltaRounds(c, run) <= Lag(c)
    decreases |run|
  {
    if run == [] {
      LagNonNegative(c);
    } else {
      assert run[0] in run;
      StepInv(c, run[0]);
      StepShrinksLag(c, run[0]);
      RoundsWithinLag(Do(c, run[0]), run[1..]);
      LagNonNegative(c);
      RunInv(c, run);
      LagNonNegative(Exec(c, run));
    }
  }

  /** However a run went, from there on a continuation without new operations completes at most as many non-empty
      delta rounds as there is lag, however it is scheduled and however many requests are lost. */
  lemma DeltaRoundsAreBounded(ids: set<NodeId>, run: seq<Step>, quiet: seq<Step>)
    requires forall x :: x in ids ==> ColonFree(x)
    requires Legal(Start(ids), run) && Legal(Exec(Start(ids), run), quiet) && OperationFree(quiet)
    ensures DeltaRounds(Exec(Start(ids), run), quiet) <= Lag(Exec(Start(ids), run))
  {
    Reachable(ids, run);
    RoundsWithinLag(Exec(Start(ids), run), quiet);
  }

  // ----- one sweep through a hub -----

  /** Same replicas, same history, and no clock went back. */
  ghost predicate Moved(c: Cluster, c': Cluster) {
    && c'.log == c.log && c'.nodes.Keys == c.nodes.Keys
    && forall i :: i in c.nodes ==> Leq(c.nodes[i].st.clock, c'.nodes[i].st.clock)
  }

  lemma AnswerMoves(c: Cluster, i: NodeId, j: NodeId)
    requires Inv(c) && Enabled(c, Answer(i, j))
    ensures Moved(c, Do(c, Answer(i, j)))
    ensures Leq(c.flights[(i, j)].snap.clock, Do(c, Answer(i, j)).nodes[j].st.clock)
  {
    AnswerState(c, i, j);
    AnswerAdvances(c, i, j);
  }

  lemma DeliverMoves(c: Cluster, i: NodeId, j: NodeId)
    requires Inv(c) && Enabled(c, Deliver(i, j))
    ensures Moved(c, Do(c, Deliver(i, j)))
  {
    DeliverState(c, i, j);
  }

  lemma StepMoves(c: Cluster, s: Step)
    requires Inv(c) && Enabled(c, s) && !s.Operate?
    ensures Moved(c, Do(c, s))
  {
    match s
    case Operate(_, _, _) =>
    case Answer(i, j) => AnswerMoves(c, i, j);
    case Deliver(i, j) => DeliverMoves(c, i, j);
    case Push(_, _, _) =>
    case LoseRequest(_, _) =>
  }

  lemma {:induction false} RunMoves(c: Cluster, run: seq<Step>)
    requires Inv(c) && Legal(c, run) && OperationFree(run)
    ensures Inv(Exec(c, run)) && Moved(c, Exec(c, run))
    decreases |run|
  {
    if run != [] {
      assert run[0] in run;
      StepInv(c, run[0]);
      StepMoves(c, run[0]);
      RunMoves(Do(c, run[0]), run[1..]);
    }
  }

  /** In the run i pushes to j, and either skips or is answered later on. */
  predicate Reaches(c: Cluster, run: seq<Step>, i: NodeId, j: NodeId)
    requires Legal(c, run)
    decreases |run|
  {
    run != [] &&
    (|| (run[0].Push? && run[0].i == i && run[0].j == j && (IsSkippedPush(c, run[0]) || Answer(i, j) in run[1..]))
     || Reaches(Do(c, run[0]), run[1..], i, j))
  }

  /** The request of i waiting at j, if any, was taken when i already had `had`. */
  ghost predicate SnapAtLeast(c: Cluster, i: NodeId, j: NodeId, had: Counts) {
    (i, j) in c.flights && c.flights[(i, j)].Requested? ==> Leq(had, c.flights[(i, j)].snap.clock)
  }

  lemma SnapsStayRecent(c: Cluster, s: Step, i: NodeId, j: NodeId, had: Counts)
    requires Enabled(c, s) && i in c.nodes && Leq(had, c.nodes[i].st.clock) && SnapAtLeast(c, i, j, had)
    ensures SnapAtLeast(Do(c, s), i, j, had)
  {
  }

  /** Once a recent request is under way, its answer brings j up to date. */
  lemma {:induction false} AnswerArrives(c: Cluster, run: seq<Step>, i: NodeId, j: NodeId, had: Counts)
    requires Inv(c) && Legal(c, run) && OperationFree(run) && i in c.nodes && j in c.nodes
    requires Leq(had, c.nodes[i].st.clock) && SnapAtLeast(c, i, j, had) && Answer(i, j) in run
    ensures j in Exec(c, run).nodes && Leq(had, Exec(c, run).nodes[j].st.clock)
    decreases |run|
  {
    var s, c1 := run[0], Do(c, run[0]);
    assert s in run;
    StepInv(c, s);
    StepMoves(c, s);
    if s == Answer(i, j) {
      AnswerMoves(c, i, j);
      RunMoves(c1, run[1..]);
      assert Leq(c1.nodes[j].st.clock, Exec(c, run).nodes[j].st.clock);
    } else {
      SnapsStayRecent(c, s, i, j, had);
      assert Leq(c.nodes[i].st.clock, c1.nodes[i].st.clock);
      AnswerArrives(c1, run[1..], i, j, had);
    }
  }

  /** After a push that is answered or skipped the peer has everything the pusher started with, whatever other
      rounds overlap with it. */
  lemma {:induction false} ReachedPeerCatchesUp(c: Cluster, run: seq<Step>, i: NodeId, j: NodeId)
    requires Inv(c) && Legal(c, run) && OperationFree(run) && Reaches(c, run, i, j) && i in c.nodes && j in c.nodes
    ensures j in Exec(c, run).nodes && Leq(c.nodes[i].st.clock, Exec(c, run).nodes[j].st.clock)
    decreases |run|
  {
    var s, c1 := run[0], Do(c, run[0]);
    assert s in run;
    StepInv(c, s);
    StepMoves(c, s);
    if Reaches(c1, run[1..], i, j) {
      assert Leq(c.nodes[i].st.clock, c1.nodes[i].st.clock);
      ReachedPeerCatchesUp(c1, run[1..], i, j);
    } else if IsSkippedPush(c, s) {
      SkipCovers(c, i, j);
      RunMoves(c, run);
      assert Leq(c.nodes[j].st.clock, Exec(c, run).nodes[j].st.clock);
    } else {
      AnswerArrives(c1, run[1..], i, j, c.nodes[i].st.clock);
    }
  }

  /** Folding the plain join over the replicas named in `order`. */
  function JoinAll(c: Cluster, order: seq<NodeId>): State
    requires forall i :: i in order ==> i in c.nodes
  {
    if order == [] then EMPTY else Join(JoinAll(c, order[1..]), c.nodes[order[0]].st)
  }

  lemma {:induction false} JoinAllHolds(c: Cluster, order: seq<NodeId>)
    requires NodesInv(c) && forall i :: i in order ==> i in c.nodes
    ensures HoldsPrefix(c.log, JoinAll(c, order))
    ensures forall i :: i in order ==> Leq(c.nodes[i].st.clock, JoinAll(c, order).clock)
  {
    if order != [] {
      assert NodeInv(c, order[0]);
      JoinAllHolds(c, order[1..]);
      JoinHoldsPrefix(c.log, JoinAll(c, order[1..]), c.nodes[order[0]].st);
    }
  }

  lemma CompleteUnique(log: Log, a: State, b: State)
    requires Complete(log, a) && Complete(log, b)
    ensures a == b
  {
    forall k ensures Get(a.clock, k) == Get(b.clock, k) {
      assert Get(a.clock, k) == |OpsOf(log, k)|;
    }
    SameClockSameState(log, a, b);
  }

  ghost predicate HasAllClocks(c: Cluster, st: State) {
    forall j :: j in c.nodes ==> Leq(c.nodes[j].st.clock, st.clock)
  }

  predicate GathersAt(c: Cluster, hub: NodeId, run: seq<Step>)
    requires Legal(c, run)
  {
    forall i :: i in c.nodes && i != hub ==> Reaches(c, run, i, hub)
  }

  predicate SpreadsFrom(c: Cluster, hub: NodeId, run: seq<Step>)
    requires Legal(c, run)
  {
    forall i :: i in c.nodes && i != hub ==> Reaches(c, run, hub, i)
  }

  lemma GatheredCovers(c: Cluster, hub: NodeId, gather: seq<Step>)
    requires Inv(c) && hub in c.nodes && Legal(c, gather) && OperationFree(gather) && GathersAt(c, hub, gather)
    ensures var mid := Exec(c, gather);
            Inv(mid) && Moved(c, mid) && HasAllClocks(c, mid.nodes[hub].st)
  {
    var mid := Exec(c, gather);
    RunMoves(c, gather);
    forall i | i in c.nodes ensures Leq(c.nodes[i].st.clock, mid.nodes[hub].st.clock) {
      if i != hub {
        ReachedPeerCatchesUp(c, gather, i, hub);
      }
    }
  }

  lemma SpreadCovers(c: Cluster, hub: NodeId, mid: Cluster, spread: seq<Step>)
    requires Inv(mid) && Moved(c, mid) && hub in mid.nodes && HasAllClocks(c, mid.nodes[hub].st)
    requires Legal(mid, spread) && OperationFree(spread) && SpreadsFrom(mid, hub, spread)
    ensures var end := Exec(mid, spread);
            Inv(end) && Moved(c, end) && forall i :: i in end.nodes ==> HasAllClocks(c, end.nodes[i].st)
  {
    var end := Exec(mid, spread);
    RunMoves(mid, spread);
    forall i | i in end.nodes ensures HasAllClocks(c, end.nodes[i].st) {
      if i != hub {
        ReachedPeerCatchesUp(mid, spread, hub, i);
      }
      assert Leq(mid.nodes[hub].st.clock, end.nodes[i].st.clock);
    }
  }

  lemma CoveringReplicas(c: Cluster, end: Cluster, order: seq<NodeId>)
    requires Shape(c) && NodesInv(c) && NodesInv(end) && Moved(c, end)
    requires forall i :: i in end.nodes ==> HasAllClocks(c, end.nodes[i].st)
    requires forall i :: i in order <==> i in c.nodes
    ensures Converged(end)
    ensures forall i :: i in end.nodes ==> end.nodes[i].st == JoinAll(c, order)
  {
    JoinAllHolds(c, order);
    CoversAllMeansComplete(c, JoinAll(c, order));
    forall i | i in end.nodes ensures Complete(c.log, end.nodes[i].st) && end.nodes[i].st == JoinAll(c, order) {
      assert NodeInv(end, i) && HasAllClocks(c, end.nodes[i].st);
      CoversAllMeansComplete(c, end.nodes[i].st);
      CompleteUnique(c.log, end.nodes[i].st, JoinAll(c, order));
    }
    CompleteMeansConverged(end);
  }

  lemma SweepConverges(c: Cluster, hub: NodeId, gather: seq<Step>, spread: seq<Step>, order: seq<NodeId>)
    requires Inv(c) && hub in c.nodes
    requires Legal(c, gather) && OperationFree(gather) && GathersAt(c, hub, gather)
    requires Legal(Exec(c, gather), spread) && OperationFree(spread) && SpreadsFrom(Exec(c, gather), hub, spread)
    requires forall i :: i in order <==> i in c.nodes
    ensures var end := Exec(Exec(c, gather), spread);
            && end.log == c.log && Converged(end)
            && forall i :: i in end.nodes ==> end.nodes[i].st == JoinAll(c, order)
  {
    var mid := Exec(c, gather);
    GatheredCovers(c, hub, gather);
    SpreadCovers(c, hub, mid, spread);
    CoveringReplicas(c, Exec(mid, spread), order);
  }

  /** Quiescent convergence.  However a run went, with any rounds still in flight: if from there on no operation is
      issued, every other node gets a push answered by the hub or skips it during `gather`, and after that the
      hub gets a push answered by, or skips, every other node during `spread`, with any other steps, overlaps and
      lost requests in between, then all replicas hold the join of the states they started from and report total
      increments minus total decrements. */
  lemma HubSweepConverges(ids: set<NodeId>, run: seq<Step>, hub: NodeId, gather: seq<Step>, spread: seq<Step>,
                          order: seq<NodeId>)
    requires (forall x :: x in ids ==> ColonFree(x)) && hub in ids && forall i :: i in order <==> i in ids
    requires Legal(Start(ids), run)
    requires var c := Exec(Start(ids), run);
             && Legal(c, gather) && OperationFree(gather) && GathersAt(c, hub, gather)
             && Legal(Exec(c, gather), spread) && OperationFree(spread) && SpreadsFrom(Exec(c, gather), hub, spread)
    ensures var c := Exec(Start(ids), run);
            var end := Exec(Exec(c, gather), spread);
            && c.nodes.Keys == ids && end.log == c.log && Converged(end)
            && forall i :: i in end.nodes ==> end.nodes[i].st == JoinAll(c, order)
  {
    Reachable(ids, run);
    SweepConverges(Exec(Start(ids), run), hub, gather, spread, order);
  }
}
