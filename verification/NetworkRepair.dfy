/** What full states repair after arbitrary loss, duplication, reordering and torn reads. */
module NetworkRepair {
  import opened GoMaps
  import opened Keys
  import opened Replica
  import opened GossipCluster
  import opened GossipConvergence
  import opened AnyNetwork
  import GossipFaults

  // ----- one full state -----

  /** In every run over any network, when replica i merges a FULL_STATE from a source that holds a prefix, at every
      key where the source's clock is not behind: i has the source's clock entry and at least the counts that it
      claims, never more than was issued, and exactly the claimed ones iff i's own counts were not above them. */
  lemma FullStateRepairs(ids: set<NodeId>, run: seq<Event>, i: NodeId, src: State, k: string)
    requires forall x :: x in ids ==> ColonFree(x)
    requires Feasible(Boot(ids), run) && i in ids
    requires var c := After(Boot(ids), run);
             HoldsPrefix(c.log, src) && i in c.nodes && Get(c.nodes[i].st.clock, k) <= Get(src.clock, k)
    ensures var c := After(Boot(ids), run);
            var st, l, n := c.nodes[i].st, OpsOf(c.log, k), Get(src.clock, k);
            var st' := MergeUpdate(st, FullUpdate(src));
            && 0 <= n <= |l| && Get(st'.clock, k) == n
            && PosUpTo(l, n) <= Get(st'.pos, k) <= PosUpTo(l, |l|)
            && NegUpTo(l, n) <= Get(st'.neg, k) <= NegUpTo(l, |l|)
            && (AtPrefix(l, st', k) <==> Get(st.pos, k) <= Get(src.pos, k) && Get(st.neg, k) <= Get(src.neg, k))
            && (GossipFaults.LaggingAt(l, st, k) ==> AtPrefix(l, st', k))
  {
    Reached(ids, run);
    var c := After(Boot(ids), run);
    var st, l := c.nodes[i].st, OpsOf(c.log, k);
    assert StateOk(c.log, i, st);
    assert KeyOk(l, Owner(k) == i, st, k);
    HeldBounds(l, Get(st.pos, k), Get(st.neg, k));
    assert AtPrefix(l, src, k);
    UpToMonotone(l, Get(src.clock, k), |l|);
    GossipFaults.FullStateRepairsKey(c.log, st, src, k);
    MergeGet(st.pos, src.pos);
    MergeGet(st.neg, src.neg);
  }

  // ----- full states through a hub -----

  /** How far a periodic push of i to j has come within a run: nothing yet, positive read, negative read as well, or
      sent as message m. */
  datatype Phase = Unread | PosDone | NegDone | Sent(m: Msg)

  function NextPhase(c: Net, ph: Phase, e: Event, i: NodeId, j: NodeId): Phase
    requires Possible(c, e)
  {
    if ph.Sent? then ph
    else if e == ReadPositive(i, j) then PosDone
    else if e == ReadNegative(i, j) && ph.PosDone? then NegDone
    else if e == Send(i, j, true) && ph.NegDone? then
      Sent(Req(i, j, Request(State(c.reading[(i, j)].pos, c.reading[(i, j)].neg, c.nodes[i].st.clock),
                             BaseOf(c.nodes[i].lastSync, j), true)))
    else ph
  }

  /** Within the run a periodic push of i is read, sent and received by j. */
  predicate Delivers(c: Net, run: seq<Event>, i: NodeId, j: NodeId, ph: Phase)
    requires Feasible(c, run)
    decreases |run|
  {
    run != [] &&
    (|| (ph.Sent? && run[0] == Receive(ph.m))
     || Delivers(Happen(c, run[0]), run[1..], i, j, NextPhase(c, ph, run[0], i, j)))
  }

  ghost predicate BringsAll(u: Update, had: State) {
    Leq(had.pos, u.pos) && Leq(had.neg, u.neg) && Leq(had.clock, u.clock)
  }

  /** What has been read so far is at least what i had at the start. */
  ghost predicate PhaseOk(c: Net, i: NodeId, j: NodeId, ph: Phase, had: State) {
    match ph
    case Unread => true
    case PosDone => (i, j) in c.reading && Leq(had.pos, c.reading[(i, j)].pos)
    case NegDone =>
      && (i, j) in c.reading && c.reading[(i, j)].BothRead?
      && Leq(had.pos, c.reading[(i, j)].pos) && Leq(had.neg, c.reading[(i, j)].neg)
    case Sent(m) => m.to == j && BringsAll(m.u, had)
  }

  lemma PhaseStep(c: Net, i: NodeId, j: NodeId, ph: Phase, had: State, e: Event)
    requires Possible(c, e) && i in c.nodes && StateLeq(had, c.nodes[i].st) && PhaseOk(c, i, j, ph, had)
    ensures PhaseOk(Happen(c, e), i, j, NextPhase(c, ph, e, i, j), had)
  {
  }

  lemma MergedBringsAll(st: State, u: Update, had: State)
    requires AllPositive(st) && BringsAll(u, had)
    ensures StateLeq(had, MergeUpdate(st, u))
  {
    MergeGet(st.pos, u.pos);
    MergeGet(st.neg, u.neg);
    MergeGet(st.clock, u.clock);
  }

  lemma ReceivedState(c: Net, m: Msg)
    requires Possible(c, Receive(m))
    ensures m.to in Happen(c, Receive(m)).nodes
    ensures Happen(c, Receive(m)).nodes[m.to].st == MergeUpdate(c.nodes[m.to].st, m.u)
  {
  }

  /** A full push that is read, sent and received within a run brings the receiver's counts and clock to at least
      what the sender had at the start, whatever else the network does meanwhile. */
  lemma {:induction false} DeliveredPeerCatchesUp(c: Net, run: seq<Event>, i: NodeId, j: NodeId, ph: Phase, had: State)
    requires Ok(c) && Feasible(c, run) && i in c.nodes && j in c.nodes
    requires StateLeq(had, c.nodes[i].st) && PhaseOk(c, i, j, ph, had) && Delivers(c, run, i, j, ph)
    ensures j in After(c, run).nodes && StateLeq(had, After(c, run).nodes[j].st)
    decreases |run|
  {
    var e, c1 := run[0], Happen(c, run[0]);
    EventOk(c, e);
    RunOk(c1, run[1..]);
    if ph.Sent? && e == Receive(ph.m) {
      ReceivedState(c, ph.m);
      assert StateOk(c.log, j, c.nodes[j].st);
      MergedBringsAll(c.nodes[j].st, ph.m.u, had);
      StateLeqTransitive(had, c1.nodes[j].st, After(c, run).nodes[j].st);
    } else {
      PhaseStep(c, i, j, ph, had, e);
      StateLeqTransitive(had, c.nodes[i].st, c1.nodes[i].st);
      DeliveredPeerCatchesUp(c1, run[1..], i, j, NextPhase(c, ph, e, i, j), had);
    }
  }

  lemma StateLeqTransitive(a: State, b: State, c: State)
    requires StateLeq(a, b) && StateLeq(b, c)
    ensures StateLeq(a, c)
  {
  }

  predicate IssueFree(run: seq<Event>) {
    forall x :: 0 <= x < |run| ==> !run[x].Issue?
  }

  lemma {:induction false} QuietKeepsLog(c: Net, run: seq<Event>)
    requires Feasible(c, run) && IssueFree(run)
    ensures After(c, run).log == c.log
    decreases |run|
  {
    if run != [] {
      assert !run[0].Issue?;
      assert forall x :: 0 <= x < |run[1..]| ==> run[1..][x] == run[x + 1];
      QuietKeepsLog(Happen(c, run[0]), run[1..]);
    }
  }

  /** A replica of net c' that has everything every replica of c had has every operation. */
  lemma CoversAllIsComplete(c: Net, c': Net, j: NodeId)
    requires NodesOk(c) && NodesOk(c') && c'.log == c.log && c'.nodes.Keys == c.nodes.Keys && j in c'.nodes
    requires forall i :: i in c.nodes ==> StateLeq(c.nodes[i].st, c'.nodes[j].st)
    ensures Complete(c'.log, c'.nodes[j].st)
  {
    var st := c'.nodes[j].st;
    assert StateOk(c'.log, j, st);
    forall k ensures AtPrefix(OpsOf(c'.log, k), st, k) && Get(st.clock, k) == |OpsOf(c'.log, k)| {
      CompleteAtKey(c, c', j, k);
    }
  }

  lemma CompleteAtKey(c: Net, c': Net, j: NodeId, k: string)
    requires NodesOk(c) && NodesOk(c') && c'.log == c.log && c'.nodes.Keys == c.nodes.Keys && j in c'.nodes
    requires forall i :: i in c.nodes ==> StateLeq(c.nodes[i].st, c'.nodes[j].st)
    ensures AtPrefix(OpsOf(c'.log, k), c'.nodes[j].st, k) && Get(c'.nodes[j].st.clock, k) == |OpsOf(c'.log, k)|
  {
    var l, st, w := OpsOf(c.log, k), c'.nodes[j].st, Owner(k);
    assert StateOk(c'.log, j, st) && KeyOk(l, Owner(k) == j, st, k);
    HeldBounds(l, Get(st.pos, k), Get(st.neg, k));
    assert 0 <= Get(st.clock, k);
    if k in c.log {
      assert StateOk(c.log, w, c.nodes[w].st) && KeyOk(l, true, c.nodes[w].st, k);
      assert StateLeq(c.nodes[w].st, st);
      assert Get(c.nodes[w].st.pos, k) <= Get(st.pos, k);
      assert Get(c.nodes[w].st.neg, k) <= Get(st.neg, k);
      assert Get(c.nodes[w].st.clock, k) <= Get(st.clock, k);
    }
  }

  predicate GathersFull(c: Net, hub: NodeId, run: seq<Event>)
    requires Feasible(c, run)
  {
    forall i :: i in c.nodes && i != hub ==> Delivers(c, run, i, hub, Unread)
  }

  predicate SpreadsFull(c: Net, hub: NodeId, run: seq<Event>)
    requires Feasible(c, run)
  {
    forall i :: i in c.nodes && i != hub ==> Delivers(c, run, hub, i, Unread)
  }

  lemma GatheredFull(c: Net, hub: NodeId, gather: seq<Event>)
    requires Ok(c) && hub in c.nodes && Feasible(c, gather) && GathersFull(c, hub, gather)
    ensures var mid := After(c, gather);
            && Ok(mid) && mid.nodes.Keys == c.nodes.Keys
            && forall i :: i in c.nodes ==> StateLeq(c.nodes[i].st, mid.nodes[hub].st)
  {
    RunOk(c, gather);
    forall i | i in c.nodes ensures StateLeq(c.nodes[i].st, After(c, gather).nodes[hub].st) {
      if i != hub {
        DeliveredPeerCatchesUp(c, gather, i, hub, Unread, c.nodes[i].st);
      }
    }
  }

  lemma SpreadFull(c: Net, hub: NodeId, spread: seq<Event>, j: NodeId)
    requires Ok(c) && hub in c.nodes && j in c.nodes && Feasible(c, spread) && SpreadsFull(c, hub, spread)
    ensures var end := After(c, spread);
            Ok(end) && end.nodes.Keys == c.nodes.Keys && StateLeq(c.nodes[hub].st, end.nodes[j].st)
  {
    RunOk(c, spread);
    if j != hub {
      DeliveredPeerCatchesUp(c, spread, hub, j, Unread, c.nodes[hub].st);
    }
  }

  /** The periodic full sync heals everything.  After any run over any network, with clocks ahead of or behind their
      counts: if no further operation is issued, every other replica's full push reaches the hub, and after that
      a full push of the hub reaches every other replica, then every replica holds every operation exactly once,
      all hold the same maps, and all report total increments minus total decrements. */
  lemma FullSyncHeals(ids: set<NodeId>, run: seq<Event>, hub: NodeId, gather: seq<Event>, spread: seq<Event>, j: NodeId)
    requires (forall x :: x in ids ==> ColonFree(x)) && Feasible(Boot(ids), run) && hub in ids && j in ids
    requires var c := After(Boot(ids), run);
             && Feasible(c, gather) && IssueFree(gather) && GathersFull(c, hub, gather)
             && Feasible(After(c, gather), spread) && IssueFree(spread) && SpreadsFull(After(c, gather), hub, spread)
    ensures var c := After(Boot(ids), run);
            var end := After(After(c, gather), spread);
            && end.log == c.log && j in end.nodes && hub in end.nodes
            && Complete(c.log, end.nodes[j].st) && ValueOf(end.nodes[j].st) == NetOf(c.log)
            && end.nodes[j].st == end.nodes[hub].st
  {
    Reached(ids, run);
    var c := After(Boot(ids), run);
    HealedAt(c, hub, gather, spread, j);
    HealedAt(c, hub, gather, spread, hub);
    var end := After(After(c, gather), spread);
    CompleteValue(c.log, end.nodes[j].st);
    CompleteUnique(c.log, end.nodes[j].st, end.nodes[hub].st);
  }

  lemma HealedAt(c: Net, hub: NodeId, gather: seq<Event>, spread: seq<Event>, j: NodeId)
    requires Ok(c) && hub in c.nodes && j in c.nodes
    requires Feasible(c, gather) && IssueFree(gather) && GathersFull(c, hub, gather)
    requires Feasible(After(c, gather), spread) && IssueFree(spread) && SpreadsFull(After(c, gather), hub, spread)
    ensures var end := After(After(c, gather), spread);
            end.log == c.log && end.nodes.Keys == c.nodes.Keys && Complete(c.log, end.nodes[j].st)
  {
    var mid := After(c, gather);
    var end := After(mid, spread);
    QuietKeepsLog(c, gather);
    QuietKeepsLog(mid, spread);
    GatheredFull(c, hub, gather);
    SpreadFull(mid, hub, spread, j);
    forall i | i in c.nodes ensures StateLeq(c.nodes[i].st, end.nodes[j].st) {
      StateLeqTransitive(c.nodes[i].st, mid.nodes[hub].st, end.nodes[j].st);
    }
    CoversAllIsComplete(c, end, j);
  }
}
