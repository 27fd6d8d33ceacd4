/** Delta gossip as a cluster transition system.  Rounds between different pairs overlap freely with each
    other and with local operations; each pair has at most one round in flight (the `syncing` guard), push
    snapshots are atomic, requests may be lost, and a reply that was built is delivered. */
module GossipCluster {
  import opened GoMaps
  import opened Keys
  import opened Replica

  type NodeId = string

  /** A replica with its two families of baselines: lastSync of the gossip engine (per peer it pushes to)
      and lastSyncClock of the counter service (per sender it replied to). */
  datatype Node = Node(st: State, lastSync: map<NodeId, Counts>, replied: map<NodeId, Counts>)

  /** A round in flight.  `snap` is the state the pusher copied when it built the request, `answer` the
      state the responder replied from. */
  datatype Flight =
    | Requested(snap: State, req: Update)
    | Answered(snap: State, req: Update, answer: State, rep: Update)

  datatype Cluster = Cluster(nodes: map<NodeId, Node>, log: Log, flights: map<(NodeId, NodeId), Flight>)

  function BaseOf(m: map<NodeId, Counts>, j: NodeId): Counts {
    if j in m then m[j] else map[]
  }

  // ----- what the engine and the service compute in one round -----

  /** Full state on a reconciliation round or when the baseline is ahead of the clock. */
  predicate SendsFull(st: State, base: Counts, periodic: bool) {
    periodic || ClockNewer(base, st.clock)
  }

  /** Nothing changed for this peer since the baseline, and no reason to send the full state. */
  predicate Skips(st: State, base: Counts, periodic: bool) {
    !SendsFull(st, base, periodic) && !ClockNewer(st.clock, base)
  }

  function Request(st: State, base: Counts, periodic: bool): Update {
    if SendsFull(st, base, periodic) then FullUpdate(st) else DeltaUpdate(st, base)
  }

  /** The base of a delta reply: the sender's clock together with what was last replied to it. */
  function ReplyBase(req: Update, replied: Counts): Counts {
    MergeMax(req.clock, replied)
  }

  /** buildDeltaReply or buildFullReply, from the responder's state after it merged the request. */
  function Reply(st: State, req: Update, replied: Counts): Update {
    if req.full then FullUpdate(st) else DeltaUpdate(st, ReplyBase(req, replied))
  }

  /** SyncState on one request from i. */
  function Respond(n: Node, i: NodeId, req: Update): Node {
    var st := MergeUpdate(n.st, req);
    Node(st, n.lastSync, if req.full then n.replied else n.replied[i := MergeMax(st.clock, req.clock)])
  }

  /** mergeRemoteState on the reply of j, and the new baseline for j. */
  function Finish(n: Node, j: NodeId, myClock: Counts, rep: Update): Node {
    Node(MergeUpdate(n.st, rep), n.lastSync[j := MergeMax(myClock, rep.clock)], n.replied)
  }

  // ----- steps -----

  datatype Step =
    | Operate(i: NodeId, name: string, op: Op)
    | Push(i: NodeId, j: NodeId, periodic: bool)
    | Answer(i: NodeId, j: NodeId)
    | Deliver(i: NodeId, j: NodeId)
    | LoseRequest(i: NodeId, j: NodeId)

  predicate Enabled(c: Cluster, s: Step) {
    match s
    case Operate(i, _, _) => i in c.nodes
    case Push(i, j, _) => i != j && i in c.nodes && j in c.nodes && (i, j) !in c.flights
    case Answer(i, j) => j in c.nodes && (i, j) in c.flights && c.flights[(i, j)].Requested?
    case Deliver(i, j) => i in c.nodes && (i, j) in c.flights && c.flights[(i, j)].Answered?
    case LoseRequest(i, j) => (i, j) in c.flights && c.flights[(i, j)].Requested?
  }

  function Do(c: Cluster, s: Step): Cluster
    requires Enabled(c, s)
  {
    match s
    case Operate(i, name, op) =>
      var k := CounterKey(name, i);
      c.(nodes := c.nodes[i := c.nodes[i].(st := ApplyOp(c.nodes[i].st, k, op))],
         log := c.log[k := OpsOf(c.log, k) + [op]])
    case Push(i, j, periodic) =>
      var n := c.nodes[i];
      var base := BaseOf(n.lastSync, j);
      if Skips(n.st, base, periodic) then c
      else c.(flights := c.flights[(i, j) := Requested(n.st, Request(n.st, base, periodic))])
    case Answer(i, j) =>
      var f := c.flights[(i, j)];
      var n' := Respond(c.nodes[j], i, f.req);
      c.(nodes := c.nodes[j := n'],
         flights := c.flights[(i, j) :=
           Answered(f.snap, f.req, n'.st, Reply(n'.st, f.req, BaseOf(c.nodes[j].replied, i)))])
    case Deliver(i, j) =>
      var f := c.flights[(i, j)];
      c.(nodes := c.nodes[i := Finish(c.nodes[i], j, f.snap.clock, f.rep)],
         flights := c.flights - {(i, j)})
    case LoseRequest(i, j) => c.(flights := c.flights - {(i, j)})
  }

  predicate Legal(c: Cluster, run: seq<Step>)
    decreases |run|
  {
    run == [] || (Enabled(c, run[0]) && Legal(Do(c, run[0]), run[1..]))
  }

  function Exec(c: Cluster, run: seq<Step>): Cluster
    requires Legal(c, run)
    decreases |run|
  {
    if run == [] then c else Exec(Do(c, run[0]), run[1..])
  }

  /** Freshly started replicas. */
  function Start(ids: set<NodeId>): Cluster {
    Cluster(map i | i in ids :: Node(EMPTY, map[], map[]), map[], map[])
  }

  // ----- the invariant -----

  /** A node's state is a causal prefix, complete for the keys the node itself writes. */
  ghost predicate NodeInv(c: Cluster, i: NodeId)
    requires i in c.nodes
  {
    && ColonFree(i)
    && HoldsPrefix(c.log, c.nodes[i].st)
    && forall k :: Owner(k) == i ==> Get(c.nodes[i].st.clock, k) == |OpsOf(c.log, k)|
  }

  /** What is known about a round of i with j, by its phase. */
  ghost predicate FlightInv(c: Cluster, i: NodeId, j: NodeId, f: Flight)
    requires i in c.nodes && j in c.nodes
  {
    var ni, nj := c.nodes[i], c.nodes[j];
    && HoldsPrefix(c.log, f.snap)
    && Leq(f.snap.clock, ni.st.clock)
    && Leq(BaseOf(ni.lastSync, j), f.snap.clock)
    && (f.req.full || ClockNewer(f.snap.clock, BaseOf(ni.lastSync, j)))
    && match f
       case Requested(snap, req) =>
         && Filtered(req, snap, nj.st.clock)
         && Leq(BaseOf(nj.replied, i), snap.clock)
       case Answered(snap, req, answer, rep) =>
         && HoldsPrefix(c.log, answer)
         && Leq(snap.clock, answer.clock)
         && Leq(answer.clock, nj.st.clock)
         && Filtered(rep, answer, ni.st.clock)
         && Leq(BaseOf(nj.replied, i), answer.clock)
  }

  /** Baselines never claim more than both ends hold; with no round in flight the responder has not
      recorded a reply the sender does not have. */
  ghost predicate PairInv(c: Cluster, i: NodeId, j: NodeId)
    requires i in c.nodes && j in c.nodes
  {
    var ni, nj := c.nodes[i], c.nodes[j];
    && Positive(BaseOf(ni.lastSync, j))
    && Positive(BaseOf(nj.replied, i))
    && Leq(BaseOf(ni.lastSync, j), ni.st.clock)
    && Leq(BaseOf(ni.lastSync, j), nj.st.clock)
    && (if (i, j) in c.flights then FlightInv(c, i, j, c.flights[(i, j)])
        else Leq(BaseOf(nj.replied, i), ni.st.clock))
  }

  ghost predicate Shape(c: Cluster) {
    && (forall k :: k in c.log ==> Owner(k) in c.nodes)
    && (forall p :: p in c.flights ==> p.0 in c.nodes && p.1 in c.nodes && p.0 != p.1)
  }

  ghost predicate NodesInv(c: Cluster) {
    forall i :: i in c.nodes ==> NodeInv(c, i)
  }

  ghost predicate PairsInv(c: Cluster) {
    forall i, j :: i in c.nodes && j in c.nodes && i != j ==> PairInv(c, i, j)
  }

  ghost predicate Inv(c: Cluster) {
    Shape(c) && NodesInv(c) && PairsInv(c)
  }

  lemma StartInv(ids: set<NodeId>)
    requires forall i :: i in ids ==> ColonFree(i)
    ensures Inv(Start(ids))
  {
  }

  // ----- frame: what happens to the nodes and pairs a step does not touch -----

  /** Clocks only grew, the two baselines of the pair and its round are as before. */
  ghost predicate PairFrame(c: Cluster, c': Cluster, i: NodeId, j: NodeId)
    requires i in c.nodes && j in c.nodes && i in c'.nodes && j in c'.nodes
  {
    && Leq(c.nodes[i].st.clock, c'.nodes[i].st.clock)
    && Leq(c.nodes[j].st.clock, c'.nodes[j].st.clock)
    && BaseOf(c.nodes[i].lastSync, j) == BaseOf(c'.nodes[i].lastSync, j)
    && BaseOf(c.nodes[j].replied, i) == BaseOf(c'.nodes[j].replied, i)
    && ((i, j) in c.flights <==> (i, j) in c'.flights)
    && ((i, j) in c.flights ==> c.flights[(i, j)] == c'.flights[(i, j)])
  }

  lemma PairStable(c: Cluster, c': Cluster, i: NodeId, j: NodeId)
    requires i in c.nodes && j in c.nodes && i in c'.nodes && j in c'.nodes
    requires PairInv(c, i, j)
    requires LogGrows(c.log, c'.log)
    requires PairFrame(c, c', i, j)
    ensures PairInv(c', i, j)
  {
    if (i, j) in c.flights {
      var f := c.flights[(i, j)];
      HoldsUnderGrowth(c.log, c'.log, f.snap);
      if f.Answered? {
        HoldsUnderGrowth(c.log, c'.log, f.answer);
      }
    }
  }

  /** All pairs but (i, j) are framed. */
  ghost predicate OthersFramed(c: Cluster, c': Cluster, i: NodeId, j: NodeId)
    requires c'.nodes.Keys == c.nodes.Keys
  {
    forall a, b :: a in c.nodes && b in c.nodes && a != b && (a, b) != (i, j) ==> PairFrame(c, c', a, b)
  }

  lemma OthersStable(c: Cluster, c': Cluster, i: NodeId, j: NodeId)
    requires PairsInv(c) && c'.nodes.Keys == c.nodes.Keys && LogGrows(c.log, c'.log)
    requires OthersFramed(c, c', i, j)
    requires i in c'.nodes && j in c'.nodes && PairInv(c', i, j)
    ensures PairsInv(c')
  {
    forall a, b | a in c'.nodes && b in c'.nodes && a != b ensures PairInv(c', a, b) {
      if (a, b) != (i, j) {
        assert PairInv(c, a, b) && PairFrame(c, c', a, b);
        PairStable(c, c', a, b);
      }
    }
  }

  /** A merge that stays within the log keeps the owner's clock entries complete. */
  lemma MergeNodesInv(c: Cluster, c': Cluster, i: NodeId)
    requires NodesInv(c) && i in c.nodes && i in c'.nodes
    requires c'.log == c.log && c'.nodes == c.nodes[i := c'.nodes[i]]
    requires HoldsPrefix(c.log, c'.nodes[i].st)
    requires Leq(c.nodes[i].st.clock, c'.nodes[i].st.clock)
    ensures NodesInv(c')
  {
    forall a | a in c'.nodes ensures NodeInv(c', a) {
      assert NodeInv(c, a);
      if a == i {
        forall k | Owner(k) == i ensures Get(c'.nodes[i].st.clock, k) == |OpsOf(c.log, k)| {
          assert AtPrefix(OpsOf(c.log, k), c'.nodes[i].st, k);
        }
      }
    }
  }

  lemma NodesUntouched(c: Cluster, c': Cluster)
    requires NodesInv(c) && c'.nodes == c.nodes && c'.log == c.log
    ensures NodesInv(c')
  {
    forall a | a in c'.nodes ensures NodeInv(c', a) {
      assert NodeInv(c, a);
    }
  }

  lemma FlightFrame(c: Cluster, c': Cluster, i: NodeId, j: NodeId)
    requires c'.nodes == c.nodes && c'.log == c.log
    requires c'.flights - {(i, j)} == c.flights - {(i, j)}
    ensures OthersFramed(c, c', i, j)
  {
    forall a, b | a in c.nodes && b in c.nodes && a != b && (a, b) != (i, j) ensures PairFrame(c, c', a, b) {
      OtherKey(c.flights, c'.flights, (i, j), (a, b));
    }
  }

  /** A step of node i with peer j that changed one node, the baseline it keeps for that peer and their
      round. */
  lemma NodeFrame(c: Cluster, c': Cluster, i: NodeId, j: NodeId, x: NodeId, y: NodeId)
    requires x in c.nodes && c'.nodes.Keys == c.nodes.Keys && c'.nodes == c.nodes[x := c'.nodes[x]]
    requires Leq(c.nodes[x].st.clock, c'.nodes[x].st.clock)
    requires forall b :: b != y || x != i ==> BaseOf(c.nodes[x].lastSync, b) == BaseOf(c'.nodes[x].lastSync, b)
    requires forall b :: b != y || x != j ==> BaseOf(c.nodes[x].replied, b) == BaseOf(c'.nodes[x].replied, b)
    requires {x, y} == {i, j}
    requires c'.flights - {(i, j)} == c.flights - {(i, j)}
    ensures OthersFramed(c, c', i, j)
  {
    forall a, b | a in c.nodes && b in c.nodes && a != b && (a, b) != (i, j) ensures PairFrame(c, c', a, b) {
      OtherKey(c.flights, c'.flights, (i, j), (a, b));
    }
  }

  // ----- every step keeps the invariant -----

  lemma OperateAtKey(l: seq<Op>, st: State, k: string, op: Op)
    requires AtPrefix(l, st, k) && Get(st.clock, k) == |l|
    ensures AtPrefix(l + [op], ApplyOp(st, k, op), k)
  {
    UpToOfPrefix(l, l + [op], |l|);
  }

  /** Operating at k changes no other key, and raises the clock at k. */
  lemma OperateElsewhere(st: State, k: string, op: Op)
    requires AllPositive(st)
    ensures var st' := ApplyOp(st, k, op);
            && AllPositive(st') && Leq(st.clock, st'.clock)
            && forall q :: q != k ==>
                 && Get(st'.pos, q) == Get(st.pos, q) && Get(st'.neg, q) == Get(st.neg, q)
                 && Get(st'.clock, q) == Get(st.clock, q)
  {
    BumpGet(st.clock, k, 1);
    match op
    case Inc(d) => BumpGet(st.pos, k, d);
    case Dec(d) => BumpGet(st.neg, k, d);
  }

  lemma OperateNode(log: Log, st: State, k: string, op: Op)
    requires HoldsPrefix(log, st)
    requires Get(st.clock, k) == |OpsOf(log, k)|
    ensures var log' := log[k := OpsOf(log, k) + [op]];
            LogGrows(log, log') && HoldsPrefix(log', ApplyOp(st, k, op))
  {
    var log', st' := log[k := OpsOf(log, k) + [op]], ApplyOp(st, k, op);
    OperateElsewhere(st, k, op);
    assert AtPrefix(OpsOf(log, k), st, k);
    OperateAtKey(OpsOf(log, k), st, k, op);
    forall q ensures AtPrefix(OpsOf(log', q), st', q) {
      assert AtPrefix(OpsOf(log, q), st, q);
    }
  }

  lemma NodeElsewhere(log: Log, log': Log, i: NodeId, st: State, k: string)
    requires HoldsPrefix(log, st) && LogGrows(log, log') && Owner(k) != i
    requires forall q :: q != k ==> OpsOf(log', q) == OpsOf(log, q)
    requires forall q :: Owner(q) == i ==> Get(st.clock, q) == |OpsOf(log, q)|
    ensures HoldsPrefix(log', st)
    ensures forall q :: Owner(q) == i ==> Get(st.clock, q) == |OpsOf(log', q)|
  {
    HoldsUnderGrowth(log, log', st);
  }

  lemma OperateOthers(c: Cluster, c': Cluster, i: NodeId, k: string)
    requires NodesInv(c) && i in c.nodes && Owner(k) == i && LogGrows(c.log, c'.log)
    requires forall q :: q != k ==> OpsOf(c'.log, q) == OpsOf(c.log, q)
    requires i in c'.nodes && c'.nodes == c.nodes[i := c'.nodes[i]] && NodeInv(c', i)
    ensures NodesInv(c')
  {
    forall a | a in c'.nodes ensures NodeInv(c', a) {
      if a != i {
        assert NodeInv(c, a);
        NodeElsewhere(c.log, c'.log, a, c.nodes[a].st, k);
      }
    }
  }

  lemma OperateSelf(c: Cluster, i: NodeId, name: string, op: Op)
    requires i in c.nodes && NodeInv(c, i)
    ensures var c' := Do(c, Operate(i, name, op));
            && NodeInv(c', i) && LogGrows(c.log, c'.log) && Owner(CounterKey(name, i)) == i
            && Leq(c.nodes[i].st.clock, c'.nodes[i].st.clock)
  {
    var k := CounterKey(name, i);
    OwnerOfKey(name, i);
    OperateNode(c.log, c.nodes[i].st, k, op);
    OperateElsewhere(c.nodes[i].st, k, op);
  }

  lemma OperateNodes(c: Cluster, i: NodeId, name: string, op: Op)
    requires Shape(c) && NodesInv(c) && i in c.nodes
    ensures var c' := Do(c, Operate(i, name, op));
            && Shape(c') && NodesInv(c') && LogGrows(c.log, c'.log)
            && Leq(c.nodes[i].st.clock, c'.nodes[i].st.clock)
  {
    OperateSelf(c, i, name, op);
    OperateOthers(c, Do(c, Operate(i, name, op)), i, CounterKey(name, i));
  }

  lemma OperateFrame(c: Cluster, i: NodeId, name: string, op: Op, a: NodeId, b: NodeId)
    requires i in c.nodes && a in c.nodes && b in c.nodes
    requires Leq(c.nodes[i].st.clock, Do(c, Operate(i, name, op)).nodes[i].st.clock)
    ensures PairFrame(c, Do(c, Operate(i, name, op)), a, b)
  {
  }

  lemma OperateInv(c: Cluster, i: NodeId, name: string, op: Op)
    requires Inv(c) && i in c.nodes
    ensures Inv(Do(c, Operate(i, name, op)))
  {
    var c' := Do(c, Operate(i, name, op));
    OperateNodes(c, i, name, op);
    assert PairsInv(c') by {
      forall a, b | a in c'.nodes && b in c'.nodes && a != b ensures PairInv(c', a, b) {
        OperateFrame(c, i, name, op, a, b);
        assert PairInv(c, a, b);
        PairStable(c, c', a, b);
      }
    }
  }

  lemma PushPair(c: Cluster, i: NodeId, j: NodeId, periodic: bool)
    requires Enabled(c, Push(i, j, periodic)) && NodeInv(c, i) && PairInv(c, i, j)
    requires !Skips(c.nodes[i].st, BaseOf(c.nodes[i].lastSync, j), periodic)
    ensures PairInv(Do(c, Push(i, j, periodic)), i, j)
  {
    var n := c.nodes[i];
    DeltaIsFiltered(c.log, n.st, BaseOf(n.lastSync, j), c.nodes[j].st.clock);
  }

  lemma PushFrame(c: Cluster, i: NodeId, j: NodeId, periodic: bool)
    requires Enabled(c, Push(i, j, periodic))
    ensures OthersFramed(c, Do(c, Push(i, j, periodic)), i, j)
  {
    FlightFrame(c, Do(c, Push(i, j, periodic)), i, j);
  }

  lemma PushInv(c: Cluster, i: NodeId, j: NodeId, periodic: bool)
    requires Inv(c) && Enabled(c, Push(i, j, periodic))
    ensures Inv(Do(c, Push(i, j, periodic)))
  {
    var c' := Do(c, Push(i, j, periodic));
    if !Skips(c.nodes[i].st, BaseOf(c.nodes[i].lastSync, j), periodic) {
      PushPair(c, i, j, periodic);
      NodesUntouched(c, c');
      PushFrame(c, i, j, periodic);
      OthersStable(c, c', i, j);
    }
  }

  /** The responder's half of a round, in state terms. */
  lemma AnswerState(c: Cluster, i: NodeId, j: NodeId)
    requires Inv(c) && Enabled(c, Answer(i, j))
    ensures var f, st := c.flights[(i, j)], c.nodes[j].st;
            var st' := MergeUpdate(st, f.req);
            && st' == Join(st, f.snap)
            && HoldsPrefix(c.log, st')
            && Leq(st.clock, st'.clock) && Leq(f.snap.clock, st'.clock)
  {
    var f := c.flights[(i, j)];
    assert (i, j) in c.flights;
    assert PairInv(c, i, j) && NodeInv(c, j);
    AbsorbFiltered(c.log, c.nodes[j].st, f.req, f.snap);
  }

  lemma AbsorbFiltered(log: Log, st: State, u: Update, src: State)
    requires HoldsPrefix(log, st) && HoldsPrefix(log, src) && Filtered(u, src, st.clock)
    ensures var st' := MergeUpdate(st, u);
            && st' == Join(st, src) && HoldsPrefix(log, st')
            && Leq(st.clock, st'.clock) && Leq(src.clock, st'.clock)
  {
    FilteredMergesLikeFull(log, st, u, src);
    JoinHoldsPrefix(log, st, src);
    MergeBounds(st.clock, src.clock, st.clock);
  }

  /** The reply leaves out nothing that the sender's clock does not cover. */
  lemma ReplyIsFiltered(c: Cluster, i: NodeId, j: NodeId)
    requires Inv(c) && Enabled(c, Answer(i, j))
    ensures var f := c.flights[(i, j)];
            var st' := MergeUpdate(c.nodes[j].st, f.req);
            Filtered(Reply(st', f.req, BaseOf(c.nodes[j].replied, i)), st', c.nodes[i].st.clock)
  {
    var f := c.flights[(i, j)];
    AnswerState(c, i, j);
    assert PairInv(c, i, j);
    if !f.req.full {
      var st' := MergeUpdate(c.nodes[j].st, f.req);
      MergeBounds(f.req.clock, BaseOf(c.nodes[j].replied, i), c.nodes[i].st.clock);
      DeltaIsFiltered(c.log, st', ReplyBase(f.req, BaseOf(c.nodes[j].replied, i)), c.nodes[i].st.clock);
    }
  }

  lemma AnswerPair(c: Cluster, i: NodeId, j: NodeId)
    requires Enabled(c, Answer(i, j)) && i in c.nodes && i != j && PairInv(c, i, j)
    requires var f := c.flights[(i, j)];
             var st' := MergeUpdate(c.nodes[j].st, f.req);
             && HoldsPrefix(c.log, st') && Leq(c.nodes[j].st.clock, st'.clock) && Leq(f.snap.clock, st'.clock)
             && Filtered(Reply(st', f.req, BaseOf(c.nodes[j].replied, i)), st', c.nodes[i].st.clock)
    ensures PairInv(Do(c, Answer(i, j)), i, j)
  {
    var f := c.flights[(i, j)];
    var st' := MergeUpdate(c.nodes[j].st, f.req);
    MergeBounds(st'.clock, f.req.clock, st'.clock);
  }

  /** Answering touches the responder's state, its record for the sender, and the round. */
  lemma AnswerTouches(c: Cluster, i: NodeId, j: NodeId)
    requires Enabled(c, Answer(i, j))
    ensures var c' := Do(c, Answer(i, j));
            && c'.nodes.Keys == c.nodes.Keys && c'.nodes == c.nodes[j := c'.nodes[j]]
            && c'.nodes[j].lastSync == c.nodes[j].lastSync
            && (forall b :: b != i ==> BaseOf(c'.nodes[j].replied, b) == BaseOf(c.nodes[j].replied, b))
            && c'.flights - {(i, j)} == c.flights - {(i, j)}
  {
  }

  lemma AnswerFrame(c: Cluster, i: NodeId, j: NodeId)
    requires Enabled(c, Answer(i, j)) &&
      Leq(c.nodes[j].st.clock, MergeUpdate(c.nodes[j].st, c.flights[(i, j)].req).clock)
    ensures OthersFramed(c, Do(c, Answer(i, j)), i, j)
  {
    AnswerTouches(c, i, j);
    NodeFrame(c, Do(c, Answer(i, j)), i, j, j, i);
  }

  lemma AnswerParts(c: Cluster, i: NodeId, j: NodeId)
    requires Inv(c) && Enabled(c, Answer(i, j))
    ensures i in c.nodes && j in c.nodes && i != j
    ensures var c' := Do(c, Answer(i, j));
            NodesInv(c') && PairInv(c', i, j) && OthersFramed(c, c', i, j)
  {
    assert (i, j) in c.flights;
    AnswerState(c, i, j);
    ReplyIsFiltered(c, i, j);
    MergeNodesInv(c, Do(c, Answer(i, j)), j);
    AnswerPair(c, i, j);
    AnswerFrame(c, i, j);
  }

  lemma AnswerInv(c: Cluster, i: NodeId, j: NodeId)
    requires Inv(c) && Enabled(c, Answer(i, j))
    ensures Inv(Do(c, Answer(i, j)))
  {
    AnswerParts(c, i, j);
    OthersStable(c, Do(c, Answer(i, j)), i, j);
  }

  /** The pusher's half of a round, in state terms. */
  lemma DeliverState(c: Cluster, i: NodeId, j: NodeId)
    requires Inv(c) && Enabled(c, Deliver(i, j))
    ensures var f, st := c.flights[(i, j)], c.nodes[i].st;
            var st' := MergeUpdate(st, f.rep);
            && st' == Join(st, f.answer)
            && HoldsPrefix(c.log, st')
            && Leq(st.clock, st'.clock) && Leq(f.answer.clock, st'.clock)
  {
    var f := c.flights[(i, j)];
    assert (i, j) in c.flights;
    assert PairInv(c, i, j) && NodeInv(c, i);
    AbsorbFiltered(c.log, c.nodes[i].st, f.rep, f.answer);
  }

  lemma DeliverPair(c: Cluster, i: NodeId, j: NodeId)
    requires Enabled(c, Deliver(i, j)) && j in c.nodes && i != j && PairInv(c, i, j)
    requires var st' := MergeUpdate(c.nodes[i].st, c.flights[(i, j)].rep);
             Leq(c.nodes[i].st.clock, st'.clock) && Leq(c.flights[(i, j)].answer.clock, st'.clock)
    ensures PairInv(Do(c, Deliver(i, j)), i, j)
  {
    var f := c.flights[(i, j)];
    MergeBounds(f.snap.clock, f.rep.clock, f.answer.clock);
  }

  lemma DeliverFrame(c: Cluster, i: NodeId, j: NodeId)
    requires Enabled(c, Deliver(i, j)) &&
      Leq(c.nodes[i].st.clock, MergeUpdate(c.nodes[i].st, c.flights[(i, j)].rep).clock)
    ensures OthersFramed(c, Do(c, Deliver(i, j)), i, j)
  {
    NodeFrame(c, Do(c, Deliver(i, j)), i, j, i, j);
  }

  lemma DeliverParts(c: Cluster, i: NodeId, j: NodeId)
    requires Inv(c) && Enabled(c, Deliver(i, j))
    ensures i in c.nodes && j in c.nodes && i != j
    ensures var c' := Do(c, Deliver(i, j));
            NodesInv(c') && PairInv(c', i, j) && OthersFramed(c, c', i, j)
  {
    assert (i, j) in c.flights;
    DeliverState(c, i, j);
    MergeNodesInv(c, Do(c, Deliver(i, j)), i);
    DeliverPair(c, i, j);
    DeliverFrame(c, i, j);
  }

  lemma DeliverInv(c: Cluster, i: NodeId, j: NodeId)
    requires Inv(c) && Enabled(c, Deliver(i, j))
    ensures Inv(Do(c, Deliver(i, j)))
  {
    DeliverParts(c, i, j);
    OthersStable(c, Do(c, Deliver(i, j)), i, j);
  }

  lemma LoseInv(c: Cluster, i: NodeId, j: NodeId)
    requires Inv(c) && Enabled(c, LoseRequest(i, j))
    ensures Inv(Do(c, LoseRequest(i, j)))
  {
    var c' := Do(c, LoseRequest(i, j));
    assert (i, j) in c.flights;
    assert PairInv(c, i, j);
    NodesUntouched(c, c');
    FlightFrame(c, c', i, j);
    OthersStable(c, c', i, j);
  }

  lemma StepInv(c: Cluster, s: Step)
    requires Inv(c) && Enabled(c, s)
    ensures Inv(Do(c, s))
  {
    match s
    case Operate(i, name, op) => OperateInv(c, i, name, op);
    case Push(i, j, periodic) => PushInv(c, i, j, periodic);
    case Answer(i, j) => AnswerInv(c, i, j);
    case Deliver(i, j) => DeliverInv(c, i, j);
    case LoseRequest(i, j) => LoseInv(c, i, j);
  }

  lemma {:induction false} RunInv(c: Cluster, run: seq<Step>)
    requires Inv(c) && Legal(c, run)
    ensures Inv(Exec(c, run))
    decreases |run|
  {
    if run != [] {
      StepInv(c, run[0]);
      RunInv(Do(c, run[0]), run[1..]);
    }
  }
}
