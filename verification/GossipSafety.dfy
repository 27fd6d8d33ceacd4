/** What delta gossip guarantees over whole runs: exact causal prefixes, and agreement with plain
    full-state gossip. */
module GossipSafety {
  import opened GoMaps
  import opened Keys
  import opened Replica
  import opened GossipCluster

  // ----- the operations of a run, read off the run itself -----

  /** The operations a run issues on key k, in order. */
  function Issued(run: seq<Step>, k: string): seq<Op> {
    if run == [] then []
    else if run[0].Operate? && CounterKey(run[0].name, run[0].i) == k then [run[0].op] + Issued(run[1..], k)
    else Issued(run[1..], k)
  }

  lemma LogStep(c: Cluster, s: Step, k: string)
    requires Enabled(c, s)
    ensures OpsOf(Do(c, s).log, k) ==
            OpsOf(c.log, k) + if s.Operate? && CounterKey(s.name, s.i) == k then [s.op] else []
  {
  }

  lemma {:induction false} LogIsHistory(c: Cluster, run: seq<Step>, k: string)
    requires Legal(c, run)
    ensures OpsOf(Exec(c, run).log, k) == OpsOf(c.log, k) + Issued(run, k)
    decreases |run|
  {
    if run != [] {
      LogStep(c, run[0], k);
      LogIsHistory(Do(c, run[0]), run[1..], k);
    }
  }

  lemma {:induction false} SameNodes(c: Cluster, run: seq<Step>)
    requires Legal(c, run)
    ensures Exec(c, run).nodes.Keys == c.nodes.Keys
    decreases |run|
  {
    if run != [] {
      SameNodes(Do(c, run[0]), run[1..]);
    }
  }

  lemma InvAtKey(c: Cluster, i: NodeId, k: string)
    requires NodesInv(c) && i in c.nodes
    ensures AtPrefix(OpsOf(c.log, k), c.nodes[i].st, k)
    ensures Owner(k) == i ==> Get(c.nodes[i].st.clock, k) == |OpsOf(c.log, k)|
  {
    assert NodeInv(c, i);
  }

  lemma Reachable(ids: set<NodeId>, run: seq<Step>)
    requires forall x :: x in ids ==> ColonFree(x)
    requires Legal(Start(ids), run)
    ensures Inv(Exec(Start(ids), run))
    ensures Exec(Start(ids), run).nodes.Keys == ids
  {
    StartInv(ids);
    RunInv(Start(ids), run);
    SameNodes(Start(ids), run);
  }

  /** Prefix invariant.  After any run, replica i's counts at key k are exactly the increments and the
      decrements among the first clock[k] operations issued on k, all of them when i is the writer. */
  lemma CountsAreCausalPrefixes(ids: set<NodeId>, run: seq<Step>, i: NodeId, k: string)
    requires forall x :: x in ids ==> ColonFree(x)
    requires Legal(Start(ids), run) && i in ids
    ensures var c := Exec(Start(ids), run);
            i in c.nodes &&
            var st, ops := c.nodes[i].st, Issued(run, k);
            var n := Get(st.clock, k);
            && 0 <= n <= |ops|
            && Get(st.pos, k) == PosUpTo(ops, n)
            && Get(st.neg, k) == NegUpTo(ops, n)
            && (Owner(k) == i ==> n == |ops|)
  {
    var c := Exec(Start(ids), run);
    Reachable(ids, run);
    InvAtKey(c, i, k);
    LogIsHistory(Start(ids), run, k);
    assert OpsOf(c.log, k) == Issued(run, k);
  }

  // ----- one exchange: filtered updates against full states -----

  /** In every reachable state a push carries enough: the peer ends up as if it had received the whole
      state, and when the engine skips the push the whole state would have changed nothing. */
  lemma PushAgreesWithFullState(c: Cluster, i: NodeId, j: NodeId, periodic: bool)
    requires Inv(c) && i in c.nodes && j in c.nodes && i != j
    ensures var st, base := c.nodes[i].st, BaseOf(c.nodes[i].lastSync, j);
            && !ClockNewer(base, st.clock)
            && MergeUpdate(c.nodes[j].st, Request(st, base, periodic)) == Join(c.nodes[j].st, st)
            && (Skips(st, base, periodic) ==> Join(c.nodes[j].st, st) == c.nodes[j].st)
  {
    var st, base, sj := c.nodes[i].st, BaseOf(c.nodes[i].lastSync, j), c.nodes[j].st;
    assert PairInv(c, i, j) && NodeInv(c, i) && NodeInv(c, j);
    DeltaIsFiltered(c.log, st, base, sj.clock);
    assert !ClockNewer(base, st.clock) by {
      forall k | k in base ensures !NewerAt(base, st.clock, k) {
        assert Get(base, k) <= Get(st.clock, k);
      }
    }
    FilteredMergesLikeFull(c.log, sj, Request(st, base, periodic), st);
    if Skips(st, base, periodic) {
      forall k ensures Get(st.clock, k) <= Get(sj.clock, k) {
        assert !NewerAt(st.clock, base, k);
        assert Get(base, k) <= Get(sj.clock, k);
        assert 0 <= Get(base, k);
      }
      JoinHoldsPrefix(c.log, sj, st);
      SameClockSameState(c.log, Join(sj, st), sj);
    }
  }

  /** Reply baseline.  Whenever a request of i is answered, what the responder last recorded for i is
      within the request's clock, so the reply base is that clock and the filtered reply merges at i
      exactly like the responder's whole state. */
  lemma ReplyAgreesWithFullState(c: Cluster, i: NodeId, j: NodeId)
    requires Inv(c) && Enabled(c, Answer(i, j))
    ensures i in c.nodes
    ensures var f, replied := c.flights[(i, j)], BaseOf(c.nodes[j].replied, i);
            var st' := MergeUpdate(c.nodes[j].st, f.req);
            && Leq(replied, f.req.clock)
            && ReplyBase(f.req, replied) == f.req.clock
            && MergeUpdate(c.nodes[i].st, Reply(st', f.req, replied)) == Join(c.nodes[i].st, st')
  {
    assert (i, j) in c.flights;
    assert PairInv(c, i, j) && NodeInv(c, i);
    var f, replied := c.flights[(i, j)], BaseOf(c.nodes[j].replied, i);
    AnswerState(c, i, j);
    ReplyIsFiltered(c, i, j);
    var st' := MergeUpdate(c.nodes[j].st, f.req);
    FilteredMergesLikeFull(c.log, c.nodes[i].st, Reply(st', f.req, replied), st');
    MergeGet(f.req.clock, replied);
    Extensional(ReplyBase(f.req, replied), f.req.clock);
  }

  // ----- when the engine skips -----

  /** For all states: a push is skipped iff it is not the periodic one and clock and baseline read the same. */
  lemma SkippedIff(st: State, base: Counts, periodic: bool)
    requires Positive(st.clock) && Positive(base)
    ensures Skips(st, base, periodic) <==> !periodic && forall k :: Get(st.clock, k) == Get(base, k)
  {
    if Skips(st, base, periodic) {
      forall k ensures Get(st.clock, k) == Get(base, k) {
        assert !NewerAt(st.clock, base, k) || k !in st.clock;
        assert !NewerAt(base, st.clock, k) || k !in base;
      }
    }
  }

  /** A baseline ahead of the clock at some key, as a reset can leave it: the push carries everything the node holds. */
  lemma StaleBaselineSendsAll(st: State, base: Counts, periodic: bool, k: string)
    requires k in base && base[k] > Get(st.clock, k)
    ensures !Skips(st, base, periodic) && Request(st, base, periodic) == Update(true, st.pos, st.neg, st.clock)
  {
    assert NewerAt(base, st.clock, k);
  }

  /** No echo.  After a round is delivered the pusher would skip its next push to that peer iff nothing had reached it
      since its snapshot that the peer's answer does not have. */
  lemma NoEchoIff(c: Cluster, i: NodeId, j: NodeId)
    requires Inv(c) && Enabled(c, Deliver(i, j))
    ensures var n := Do(c, Deliver(i, j)).nodes[i];
            Skips(n.st, BaseOf(n.lastSync, j), false) <==> Leq(c.nodes[i].st.clock, c.flights[(i, j)].answer.clock)
  {
    var f, st := c.flights[(i, j)], c.nodes[i].st;
    assert (i, j) in c.flights;
    assert PairInv(c, i, j) && NodeInv(c, i);
    BaselineAfterRound(st, f.snap, f.rep, f.answer);
  }

  lemma BaselineAfterRound(st: State, snap: State, rep: Update, answer: State)
    requires AllPositive(st) && Positive(snap.clock) && Positive(answer.clock) && rep.clock == answer.clock
    requires Leq(snap.clock, answer.clock)
    ensures Skips(MergeUpdate(st, rep), MergeMax(snap.clock, rep.clock), false) <==> Leq(st.clock, answer.clock)
  {
    var st', base := MergeUpdate(st, rep), MergeMax(snap.clock, rep.clock);
    MergeGet(st.pos, rep.pos);
    MergeGet(st.neg, rep.neg);
    MergeGet(st.clock, rep.clock);
    MergeGet(snap.clock, rep.clock);
    SkippedIff(st', base, false);
    forall k ensures Get(st'.clock, k) == Get(base, k) <==> Get(st.clock, k) <= Get(answer.clock, k) {
    }
  }

  // ----- whole runs: delta gossip refines full-state gossip -----

  /** A round of plain state-based gossip: whole states travel both ways. */
  datatype FullFlight = Sent(snap: State) | Returned(answer: State)

  datatype FullCluster = FullCluster(states: map<NodeId, State>, flights: map<(NodeId, NodeId), FullFlight>)

  predicate FullEnabled(f: FullCluster, s: Step) {
    match s
    case Operate(i, _, _) => i in f.states
    case Push(i, j, _) => i != j && i in f.states && j in f.states && (i, j) !in f.flights
    case Answer(i, j) => j in f.states && (i, j) in f.flights && f.flights[(i, j)].Sent?
    case Deliver(i, j) => i in f.states && (i, j) in f.flights && f.flights[(i, j)].Returned?
    case LoseRequest(i, j) => (i, j) in f.flights && f.flights[(i, j)].Sent?
  }

  function FullDo(f: FullCluster, s: Step): FullCluster
    requires FullEnabled(f, s)
  {
    match s
    case Operate(i, name, op) =>
      f.(states := f.states[i := ApplyOp(f.states[i], CounterKey(name, i), op)])
    case Push(i, j, _) => f.(flights := f.flights[(i, j) := Sent(f.states[i])])
    case Answer(i, j) =>
      var st' := Join(f.states[j], f.flights[(i, j)].snap);
      FullCluster(f.states[j := st'], f.flights[(i, j) := Returned(st')])
    case Deliver(i, j) =>
      FullCluster(f.states[i := Join(f.states[i], f.flights[(i, j)].answer)], f.flights - {(i, j)})
    case LoseRequest(i, j) => f.(flights := f.flights - {(i, j)})
  }

  predicate FullLegal(f: FullCluster, run: seq<Step>)
    decreases |run|
  {
    run == [] || (FullEnabled(f, run[0]) && FullLegal(FullDo(f, run[0]), run[1..]))
  }

  function FullExec(f: FullCluster, run: seq<Step>): FullCluster
    requires FullLegal(f, run)
    decreases |run|
  {
    if run == [] then f else FullExec(FullDo(f, run[0]), run[1..])
  }

  function FullView(f: Flight): FullFlight {
    match f
    case Requested(snap, _) => Sent(snap)
    case Answered(_, _, answer, _) => Returned(answer)
  }

  /** Forget baselines and filtered payloads. */
  function View(c: Cluster): FullCluster {
    FullCluster(map i | i in c.nodes :: c.nodes[i].st, map p | p in c.flights :: FullView(c.flights[p]))
  }

  predicate IsSkippedPush(c: Cluster, s: Step)
    requires Enabled(c, s)
  {
    s.Push? && Skips(c.nodes[s.i].st, BaseOf(c.nodes[s.i].lastSync, s.j), s.periodic)
  }

  /** The same run without the pushes the engine skipped. */
  function WithoutSkips(c: Cluster, run: seq<Step>): seq<Step>
    requires Legal(c, run)
    decreases |run|
  {
    if run == [] then []
    else
      var rest := WithoutSkips(Do(c, run[0]), run[1..]);
      if IsSkippedPush(c, run[0]) then rest else [run[0]] + rest
  }

  lemma OperateRefines(c: Cluster, s: Step)
    requires Enabled(c, s) && s.Operate?
    ensures FullEnabled(View(c), s) && View(Do(c, s)) == FullDo(View(c), s)
  {
    var v, w := View(Do(c, s)), FullDo(View(c), s);
    assert v.states == w.states;
  }

  lemma PushRefines(c: Cluster, s: Step)
    requires Enabled(c, s) && s.Push?
    ensures IsSkippedPush(c, s) ==> View(Do(c, s)) == View(c)
    ensures !IsSkippedPush(c, s) ==> FullEnabled(View(c), s) && View(Do(c, s)) == FullDo(View(c), s)
  {
    if !IsSkippedPush(c, s) {
      var v, w := View(Do(c, s)), FullDo(View(c), s);
      assert v.flights == w.flights;
    }
  }

  lemma LoseRefines(c: Cluster, s: Step)
    requires Enabled(c, s) && s.LoseRequest?
    ensures FullEnabled(View(c), s) && View(Do(c, s)) == FullDo(View(c), s)
  {
    var v, w := View(Do(c, s)), FullDo(View(c), s);
    assert v.flights == w.flights;
  }

  lemma AnswerRefines(c: Cluster, i: NodeId, j: NodeId)
    requires Enabled(c, Answer(i, j))
    requires MergeUpdate(c.nodes[j].st, c.flights[(i, j)].req) == Join(c.nodes[j].st, c.flights[(i, j)].snap)
    ensures var s := Answer(i, j);
            FullEnabled(View(c), s) && View(Do(c, s)) == FullDo(View(c), s)
  {
    var v, w := View(Do(c, Answer(i, j))), FullDo(View(c), Answer(i, j));
    assert v.states == w.states;
    assert v.flights == w.flights;
  }

  lemma DeliverRefines(c: Cluster, i: NodeId, j: NodeId)
    requires Enabled(c, Deliver(i, j))
    requires MergeUpdate(c.nodes[i].st, c.flights[(i, j)].rep) == Join(c.nodes[i].st, c.flights[(i, j)].answer)
    ensures var s := Deliver(i, j);
            FullEnabled(View(c), s) && View(Do(c, s)) == FullDo(View(c), s)
  {
    var v, w := View(Do(c, Deliver(i, j))), FullDo(View(c), Deliver(i, j));
    assert v.states == w.states;
    assert v.flights == w.flights;
  }

  lemma StepRefines(c: Cluster, s: Step)
    requires Inv(c) && Enabled(c, s)
    ensures IsSkippedPush(c, s) ==> View(Do(c, s)) == View(c)
    ensures !IsSkippedPush(c, s) ==> FullEnabled(View(c), s) && View(Do(c, s)) == FullDo(View(c), s)
  {
    match s
    case Answer(i, j) =>
      AnswerState(c, i, j);
      AnswerRefines(c, i, j);
    case Deliver(i, j) =>
      DeliverState(c, i, j);
      DeliverRefines(c, i, j);
    case Operate(_, _, _) => OperateRefines(c, s);
    case Push(_, _, _) => PushRefines(c, s);
    case LoseRequest(_, _) => LoseRefines(c, s);
  }

  lemma {:induction false} RunRefines(c: Cluster, run: seq<Step>)
    requires Inv(c) && Legal(c, run)
    ensures FullLegal(View(c), WithoutSkips(c, run))
    ensures FullExec(View(c), WithoutSkips(c, run)) == View(Exec(c, run))
    decreases |run|
  {
    if run != [] {
      StepInv(c, run[0]);
      StepRefines(c, run[0]);
      RunRefines(Do(c, run[0]), run[1..]);
      if !IsSkippedPush(c, run[0]) {
        var full := WithoutSkips(c, run);
        assert full[0] == run[0] && full[1..] == WithoutSkips(Do(c, run[0]), run[1..]);
      }
    }
  }

  /** Delta gossip refines full-state gossip: every run leaves every replica in the state that the same
      run leaves it in when all messages carry whole states and skipped pushes are left out. */
  lemma DeltaGossipRefinesFullGossip(ids: set<NodeId>, run: seq<Step>, i: NodeId)
    requires forall x :: x in ids ==> ColonFree(x)
    requires Legal(Start(ids), run) && i in ids
    ensures var c := Exec(Start(ids), run);
            var full := FullCluster(map x | x in ids :: EMPTY, map[]);
            var frun := WithoutSkips(Start(ids), run);
            && FullLegal(full, frun)
            && i in c.nodes && i in FullExec(full, frun).states
            && FullExec(full, frun).states[i] == c.nodes[i].st
  {
    StartInv(ids);
    SameNodes(Start(ids), run);
    RunRefines(Start(ids), run);
    var full := FullCluster(map x | x in ids :: EMPTY, map[]);
    assert View(Start(ids)) == full;
    assert i in View(Exec(Start(ids), run)).states;
  }
}
