/** Delta gossip in which built replies may be lost, and a request whose reply was lost may be sent again within the
    same round.  The replicas then hold causal prefixes exactly as long as no delivered reply leaves out a key on
    which its receiver is behind. */
module GossipLoss {
  import opened GoMaps
  import opened Keys
  import opened Replica
  import opened GossipCluster
  import GossipFaults

  datatype Move =
    | Plain(s: Step)
    | LoseReply(i: NodeId, j: NodeId)
    | Resend(i: NodeId, j: NodeId)

  predicate Can(c: Cluster, m: Move) {
    match m
    case Plain(s) => Enabled(c, s)
    case LoseReply(i, j) => (i, j) in c.flights && c.flights[(i, j)].Answered?
    case Resend(i, j) => (i, j) in c.flights && c.flights[(i, j)].Answered?
  }

  function Go(c: Cluster, m: Move): Cluster
    requires Can(c, m)
  {
    match m
    case Plain(s) => Do(c, s)
    case LoseReply(i, j) => c.(flights := c.flights - {(i, j)})
    case Resend(i, j) =>
      c.(flights := c.flights[(i, j) := Requested(c.flights[(i, j)].snap, c.flights[(i, j)].req)])
  }

  predicate Possible(c: Cluster, run: seq<Move>)
    decreases |run|
  {
    run == [] || (Can(c, run[0]) && Possible(Go(c, run[0]), run[1..]))
  }

  // ----- the law -----

  ghost predicate Prefixes(c: Cluster) {
    forall i :: i in c.nodes ==> HoldsPrefix(c.log, c.nodes[i].st)
  }

  /** At every point of the run every replica holds a causal prefix. */
  ghost predicate AlwaysPrefixes(c: Cluster, run: seq<Move>)
    requires Possible(c, run)
    decreases |run|
  {
    Prefixes(c) && (run == [] || AlwaysPrefixes(Go(c, run[0]), run[1..]))
  }

  /** A reply that this move delivers leaves out no key on which the receiver is behind. */
  ghost predicate Shows(c: Cluster, m: Move)
    requires Can(c, m)
  {
    m.Plain? && m.s.Deliver? ==>
      var f := c.flights[(m.s.i, m.s.j)];
      Filtered(f.rep, f.answer, c.nodes[m.s.i].st.clock)
  }

  ghost predicate AlwaysShows(c: Cluster, run: seq<Move>)
    requires Possible(c, run)
    decreases |run|
  {
    run == [] || (Shows(c, run[0]) && AlwaysShows(Go(c, run[0]), run[1..]))
  }

  // ----- what survives lost replies -----

  /** u is src with some keys left out altogether. */
  ghost predicate Cutout(u: Update, src: State) {
    && u.clock == src.clock
    && forall k ::
      || (Get(u.pos, k) == Get(src.pos, k) && Get(u.neg, k) == Get(src.neg, k))
      || (Get(u.pos, k) == 0 && Get(u.neg, k) == 0)
  }

  /** The push side of a round is as before; of the reply only its shape is known. */
  ghost predicate FlightOk(c: Cluster, i: NodeId, j: NodeId, f: Flight)
    requires i in c.nodes && j in c.nodes
  {
    && HoldsPrefix(c.log, f.snap) && Leq(f.snap.clock, c.nodes[i].st.clock)
    && Filtered(f.req, f.snap, c.nodes[j].st.clock)
    && (f.Answered? ==>
          && HoldsPrefix(c.log, f.answer) && Leq(f.snap.clock, f.answer.clock)
          && Leq(f.answer.clock, c.nodes[j].st.clock) && Cutout(f.rep, f.answer))
  }

  ghost predicate PairOk(c: Cluster, i: NodeId, j: NodeId)
    requires i in c.nodes && j in c.nodes
  {
    var base := BaseOf(c.nodes[i].lastSync, j);
    && Positive(base) && Leq(base, c.nodes[i].st.clock) && Leq(base, c.nodes[j].st.clock)
    && ((i, j) in c.flights ==> FlightOk(c, i, j, c.flights[(i, j)]))
  }

  ghost predicate PairsOk(c: Cluster) {
    forall i, j :: i in c.nodes && j in c.nodes && i != j ==> PairOk(c, i, j)
  }

  ghost predicate LossInv(c: Cluster) {
    Shape(c) && NodesInv(c) && PairsOk(c)
  }

  lemma PairKept(c: Cluster, c': Cluster, i: NodeId, j: NodeId)
    requires i in c.nodes && j in c.nodes && i in c'.nodes && j in c'.nodes
    requires PairOk(c, i, j) && LogGrows(c.log, c'.log) && PairFrame(c, c', i, j)
    ensures PairOk(c', i, j)
  {
    if (i, j) in c.flights {
      var f := c.flights[(i, j)];
      HoldsUnderGrowth(c.log, c'.log, f.snap);
      if f.Answered? {
        HoldsUnderGrowth(c.log, c'.log, f.answer);
      }
    }
  }

  lemma OthersKept(c: Cluster, c': Cluster, i: NodeId, j: NodeId)
    requires PairsOk(c) && c'.nodes.Keys == c.nodes.Keys && LogGrows(c.log, c'.log)
    requires OthersFramed(c, c', i, j)
    requires i in c'.nodes && j in c'.nodes && PairOk(c', i, j)
    ensures PairsOk(c')
  {
    forall a, b | a in c'.nodes && b in c'.nodes && a != b ensures PairOk(c', a, b) {
      if (a, b) != (i, j) {
        assert PairOk(c, a, b) && PairFrame(c, c', a, b);
        PairKept(c, c', a, b);
      }
    }
  }

  lemma OperateKeeps(c: Cluster, i: NodeId, name: string, op: Op)
    requires LossInv(c) && i in c.nodes
    ensures LossInv(Do(c, Operate(i, name, op)))
  {
    var c' := Do(c, Operate(i, name, op));
    OperateNodes(c, i, name, op);
    forall a, b | a in c'.nodes && b in c'.nodes && a != b ensures PairOk(c', a, b) {
      OperateFrame(c, i, name, op, a, b);
      assert PairOk(c, a, b);
      PairKept(c, c', a, b);
    }
  }

  lemma PushPairOk(c: Cluster, i: NodeId, j: NodeId, periodic: bool)
    requires Enabled(c, Push(i, j, periodic)) && NodeInv(c, i) && PairOk(c, i, j)
    ensures PairOk(Do(c, Push(i, j, periodic)), i, j)
  {
    DeltaIsFiltered(c.log, c.nodes[i].st, BaseOf(c.nodes[i].lastSync, j), c.nodes[j].st.clock);
  }

  lemma PushKeeps(c: Cluster, i: NodeId, j: NodeId, periodic: bool)
    requires LossInv(c) && Enabled(c, Push(i, j, periodic))
    ensures LossInv(Do(c, Push(i, j, periodic)))
  {
    var c' := Do(c, Push(i, j, periodic));
    PushPairOk(c, i, j, periodic);
    NodesUntouched(c, c');
    PushFrame(c, i, j, periodic);
    OthersKept(c, c', i, j);
  }

  lemma ReplyIsCutout(st: State, req: Update, replied: Counts)
    ensures Cutout(Reply(st, req, replied), st)
  {
  }

  /** Forgetting a round, or going back to its request. */
  lemma RewindKeeps(c: Cluster, c': Cluster, i: NodeId, j: NodeId)
    requires LossInv(c) && (i, j) in c.flights && c'.nodes == c.nodes && c'.log == c.log
    requires var f := c.flights[(i, j)];
             c'.flights == c.flights - {(i, j)} || c'.flights == c.flights[(i, j) := Requested(f.snap, f.req)]
    ensures LossInv(c')
  {
    RewoundShape(c, c', i, j);
    RewoundPair(c, c', i, j);
    NodesUntouched(c, c');
    FlightFrame(c, c', i, j);
    OthersKept(c, c', i, j);
  }

  lemma RewoundShape(c: Cluster, c': Cluster, i: NodeId, j: NodeId)
    requires Shape(c) && (i, j) in c.flights && c'.nodes == c.nodes && c'.log == c.log
    requires c'.flights.Keys <= c.flights.Keys
    ensures Shape(c') && i in c.nodes && j in c.nodes && i != j
  {
    assert (i, j).0 in c.nodes;
  }

  lemma RewoundPair(c: Cluster, c': Cluster, i: NodeId, j: NodeId)
    requires i in c.nodes && j in c.nodes && PairOk(c, i, j) && (i, j) in c.flights
    requires c'.nodes == c.nodes && c'.log == c.log
    requires (i, j) in c'.flights ==> c'.flights[(i, j)] == Requested(c.flights[(i, j)].snap, c.flights[(i, j)].req)
    ensures PairOk(c', i, j)
  {
  }

  lemma AnswerPairOk(c: Cluster, i: NodeId, j: NodeId)
    requires Enabled(c, Answer(i, j)) && i in c.nodes && i != j && PairOk(c, i, j)
    requires var f := c.flights[(i, j)];
             var st' := MergeUpdate(c.nodes[j].st, f.req);
             HoldsPrefix(c.log, st') && Leq(c.nodes[j].st.clock, st'.clock) && Leq(f.snap.clock, st'.clock)
    ensures PairOk(Do(c, Answer(i, j)), i, j)
  {
    var f := c.flights[(i, j)];
    ReplyIsCutout(MergeUpdate(c.nodes[j].st, f.req), f.req, BaseOf(c.nodes[j].replied, i));
  }

  lemma AnswerKeeps(c: Cluster, i: NodeId, j: NodeId)
    requires LossInv(c) && Enabled(c, Answer(i, j))
    ensures LossInv(Do(c, Answer(i, j)))
  {
    var c' := Do(c, Answer(i, j));
    assert (i, j) in c.flights;
    assert PairOk(c, i, j) && NodeInv(c, j);
    AbsorbFiltered(c.log, c.nodes[j].st, c.flights[(i, j)].req, c.flights[(i, j)].snap);
    MergeNodesInv(c, c', j);
    AnswerPairOk(c, i, j);
    AnswerFrame(c, i, j);
    OthersKept(c, c', i, j);
  }

  lemma DeliverPairOk(c: Cluster, i: NodeId, j: NodeId)
    requires Enabled(c, Deliver(i, j)) && j in c.nodes && i != j && PairOk(c, i, j)
    requires var st' := MergeUpdate(c.nodes[i].st, c.flights[(i, j)].rep);
             Leq(c.nodes[i].st.clock, st'.clock) && Leq(c.flights[(i, j)].answer.clock, st'.clock)
    ensures PairOk(Do(c, Deliver(i, j)), i, j)
  {
    var f := c.flights[(i, j)];
    MergeBounds(f.snap.clock, f.rep.clock, f.answer.clock);
  }

  lemma DeliverKeeps(c: Cluster, i: NodeId, j: NodeId)
    requires LossInv(c) && Enabled(c, Deliver(i, j)) && Shows(c, Plain(Deliver(i, j)))
    ensures LossInv(Do(c, Deliver(i, j)))
  {
    var c', f := Do(c, Deliver(i, j)), c.flights[(i, j)];
    assert (i, j) in c.flights;
    assert PairOk(c, i, j) && NodeInv(c, i);
    AbsorbFiltered(c.log, c.nodes[i].st, f.rep, f.answer);
    MergeNodesInv(c, c', i);
    DeliverPairOk(c, i, j);
    DeliverFrame(c, i, j);
    OthersKept(c, c', i, j);
  }

  /** A reply that leaves out a key on which the receiver is behind breaks the prefix at that key. */
  lemma HidingBreaks(log: Log, st: State, u: Update, src: State)
    requires HoldsPrefix(log, st) && HoldsPrefix(log, src) && Cutout(u, src) && !Filtered(u, src, st.clock)
    ensures !HoldsPrefix(log, MergeUpdate(st, u))
  {
    var k :| !(Get(u.pos, k) == Get(src.pos, k) && Get(u.neg, k) == Get(src.neg, k)) &&
             !(Get(src.clock, k) <= Get(st.clock, k) && Get(u.pos, k) == 0 && Get(u.neg, k) == 0);
    HidingBreaksAt(OpsOf(log, k), st, u, src, k);
  }

  lemma HidingBreaksAt(l: seq<Op>, st: State, u: Update, src: State, k: string)
    requires AllPositive(st) && AtPrefix(l, st, k) && AtPrefix(l, src, k)
    requires Get(u.clock, k) == Get(src.clock, k) > Get(st.clock, k) && Get(u.pos, k) == 0 && Get(u.neg, k) == 0
    ensures !AtPrefix(l, MergeUpdate(st, u), k)
  {
    MergeGetAt(st.pos, u.pos, k);
    MergeGetAt(st.neg, u.neg, k);
    MergeGetAt(st.clock, u.clock, k);
    UpToMonotone(l, Get(st.clock, k), Get(src.clock, k));
  }

  lemma DeliverBreaks(c: Cluster, i: NodeId, j: NodeId)
    requires LossInv(c) && Enabled(c, Deliver(i, j)) && !Shows(c, Plain(Deliver(i, j)))
    ensures !Prefixes(Do(c, Deliver(i, j)))
  {
    var c', f := Do(c, Deliver(i, j)), c.flights[(i, j)];
    assert (i, j) in c.flights;
    assert PairOk(c, i, j) && NodeInv(c, i);
    HidingBreaks(c.log, c.nodes[i].st, f.rep, f.answer);
    assert c'.nodes[i].st == MergeUpdate(c.nodes[i].st, f.rep);
  }

  lemma MoveKeeps(c: Cluster, m: Move)
    requires LossInv(c) && Can(c, m) && Shows(c, m)
    ensures LossInv(Go(c, m))
  {
    match m
    case Plain(s) =>
      match s {
        case Operate(i, name, op) => OperateKeeps(c, i, name, op);
        case Push(i, j, periodic) => PushKeeps(c, i, j, periodic);
        case Answer(i, j) => AnswerKeeps(c, i, j);
        case Deliver(i, j) => DeliverKeeps(c, i, j);
        case LoseRequest(i, j) => RewindKeeps(c, Do(c, s), i, j);
      }
    case LoseReply(i, j) => RewindKeeps(c, Go(c, m), i, j);
    case Resend(i, j) => RewindKeeps(c, Go(c, m), i, j);
  }

  lemma InvMeansPrefixes(c: Cluster)
    requires LossInv(c)
    ensures Prefixes(c)
  {
    forall i | i in c.nodes ensures HoldsPrefix(c.log, c.nodes[i].st) {
      assert NodeInv(c, i);
    }
  }

  lemma {:induction false} RunIff(c: Cluster, run: seq<Move>)
    requires LossInv(c) && Possible(c, run)
    ensures AlwaysPrefixes(c, run) <==> AlwaysShows(c, run)
    decreases |run|
  {
    InvMeansPrefixes(c);
    if run != [] {
      var m := run[0];
      if Shows(c, m) {
        MoveKeeps(c, m);
        RunIff(Go(c, m), run[1..]);
      } else {
        DeliverBreaks(c, m.s.i, m.s.j);
      }
    }
  }

  /** Lost replies.  In every run from start-up, with requests and replies lost and requests sent again: every replica
      holds a causal prefix at every point iff no delivered reply left out a key on which its receiver was behind. */
  lemma PrefixesIffRepliesShow(ids: set<NodeId>, run: seq<Move>)
    requires forall i :: i in ids ==> ColonFree(i)
    requires Possible(Start(ids), run)
    ensures AlwaysPrefixes(Start(ids), run) <==> AlwaysShows(Start(ids), run)
  {
    StartInv(ids);
    assert LossInv(Start(ids)) by {
      forall i, j | i in ids && j in ids && i != j ensures PairOk(Start(ids), i, j) {
        assert PairInv(Start(ids), i, j);
      }
    }
    RunIff(Start(ids), run);
  }

  ghost predicate ShownAt(src: State, base: Counts, known: Counts, k: string) {
    var u := DeltaUpdate(src, base);
    || (Get(u.pos, k) == Get(src.pos, k) && Get(u.neg, k) == Get(src.neg, k))
    || (Get(src.clock, k) <= Get(known, k) && Get(u.pos, k) == 0 && Get(u.neg, k) == 0)
  }

  lemma ShownAtIff(l: seq<Op>, src: State, base: Counts, known: Counts, k: string)
    requires AtPrefix(l, src, k) && 0 <= Get(base, k) && 0 <= Get(known, k)
    ensures ShownAt(src, base, known, k) <==>
            (Get(src.clock, k) > Get(known, k) ==> Get(src.clock, k) > Get(base, k))
  {
    UpToMonotone(l, 0, Get(src.clock, k));
  }

  /** When the reply is built it can be told from clocks: it leaves out nothing that a receiver with clock `known` lacks
      iff the request is for the full state, or request and record cover no key on which `known` is behind. */
  lemma ReplyShowsIff(log: Log, answer: State, req: Update, replied: Counts, known: Counts)
    requires HoldsPrefix(log, answer) && Positive(req.clock) && Positive(known)
    ensures Filtered(Reply(answer, req, replied), answer, known) <==>
            req.full || GossipFaults.HidesNothing(known, answer.clock, ReplyBase(req, replied))
  {
    if !req.full {
      MergeGet(req.clock, replied);
      DeltaShowsIff(log, answer, ReplyBase(req, replied), known);
    }
  }

  lemma DeltaShowsIff(log: Log, answer: State, base: Counts, known: Counts)
    requires HoldsPrefix(log, answer) && Positive(base) && Positive(known)
    ensures Filtered(DeltaUpdate(answer, base), answer, known) <==>
            GossipFaults.HidesNothing(known, answer.clock, base)
  {
    forall k ensures ShownAt(answer, base, known, k) <==>
      (Get(answer.clock, k) > Get(known, k) ==> Get(answer.clock, k) > Get(base, k))
    {
      assert AtPrefix(OpsOf(log, k), answer, k);
      ShownAtIff(OpsOf(log, k), answer, base, known, k);
    }
    assert Filtered(DeltaUpdate(answer, base), answer, known) <==> forall k :: ShownAt(answer, base, known, k);
  }

  // ----- losing replies to full requests -----

  /** What a round with a full request leaves of the record kept for the sender. */
  ghost predicate FullRoundOk(c: Cluster, p: (NodeId, NodeId))
    requires p in c.flights && p.1 in c.nodes
  {
    var f := c.flights[p];
    f.req.full ==> f.req == FullUpdate(f.snap) && Leq(BaseOf(c.nodes[p.1].replied, p.0), f.snap.clock)
  }

  ghost predicate FullRoundsOk(c: Cluster) {
    forall p :: p in c.flights && p.1 in c.nodes ==> FullRoundOk(c, p)
  }

  /** Which records and rounds a step of the round of i with j, or an operation, can touch. */
  ghost predicate RecordsElsewhere(c: Cluster, c': Cluster, i: NodeId, j: NodeId) {
    && c'.nodes.Keys == c.nodes.Keys
    && forall p :: p != (i, j) ==>
      && (p in c'.flights <==> p in c.flights) && (p in c.flights ==> c'.flights[p] == c.flights[p])
      && (p.1 in c.nodes ==> BaseOf(c'.nodes[p.1].replied, p.0) == BaseOf(c.nodes[p.1].replied, p.0))
  }

  lemma AnswerRecordsFrame(c: Cluster, i: NodeId, j: NodeId)
    requires Enabled(c, Answer(i, j))
    ensures RecordsElsewhere(c, Do(c, Answer(i, j)), i, j)
  {
    AnswerTouches(c, i, j);
    var c' := Do(c, Answer(i, j));
    forall p | p != (i, j)
      ensures (p in c'.flights <==> p in c.flights) && (p in c.flights ==> c'.flights[p] == c.flights[p])
    {
      OtherKey(c.flights, c'.flights, (i, j), p);
    }
  }

  lemma DeliverRecordsFrame(c: Cluster, i: NodeId, j: NodeId)
    requires Enabled(c, Deliver(i, j))
    ensures RecordsElsewhere(c, Do(c, Deliver(i, j)), i, j)
  {
    var c' := Do(c, Deliver(i, j));
    assert forall x :: x in c.nodes ==> c'.nodes[x].replied == c.nodes[x].replied;
  }

  lemma RecordsFrame(c: Cluster, s: Step)
    requires Enabled(c, s) && !s.Operate?
    ensures RecordsElsewhere(c, Do(c, s), s.i, s.j)
  {
    match s
    case Operate(_, _, _) =>
    case Push(_, _, _) =>
    case Answer(i, j) => AnswerRecordsFrame(c, i, j);
    case Deliver(i, j) => DeliverRecordsFrame(c, i, j);
    case LoseRequest(_, _) =>
  }

  lemma FullRoundsElsewhere(c: Cluster, c': Cluster, i: NodeId, j: NodeId)
    requires FullRoundsOk(c) && RecordsElsewhere(c, c', i, j)
    requires (i, j) in c'.flights && j in c'.nodes ==> FullRoundOk(c', (i, j))
    ensures FullRoundsOk(c')
  {
    forall p | p in c'.flights && p.1 in c'.nodes ensures FullRoundOk(c', p) {
      if p != (i, j) {
        assert FullRoundOk(c, p);
      }
    }
  }

  lemma OperateKeepsFullRounds(c: Cluster, s: Step)
    requires FullRoundsOk(c) && Enabled(c, s) && s.Operate?
    ensures FullRoundsOk(Do(c, s))
  {
    var c' := Do(c, s);
    forall p | p in c'.flights && p.1 in c'.nodes ensures FullRoundOk(c', p) {
      assert FullRoundOk(c, p);
    }
  }

  lemma PushedFullRound(c: Cluster, i: NodeId, j: NodeId, periodic: bool)
    requires Enabled(c, Push(i, j, periodic)) && PairInv(c, i, j)
    ensures var c' := Do(c, Push(i, j, periodic));
            (i, j) in c'.flights ==> FullRoundOk(c', (i, j))
  {
  }

  /** Answering a full request leaves the record as it was. */
  lemma AnsweredFullRound(c: Cluster, i: NodeId, j: NodeId)
    requires Enabled(c, Answer(i, j)) && FullRoundOk(c, (i, j))
    ensures FullRoundOk(Do(c, Answer(i, j)), (i, j))
  {
  }

  lemma StepKeepsFullRounds(c: Cluster, s: Step)
    requires Inv(c) && FullRoundsOk(c) && Enabled(c, s)
    ensures FullRoundsOk(Do(c, s))
  {
    match s
    case Operate(_, _, _) => OperateKeepsFullRounds(c, s);
    case Push(i, j, periodic) =>
      assert PairInv(c, i, j);
      PushedFullRound(c, i, j, periodic);
      RecordsFrame(c, s);
      FullRoundsElsewhere(c, Do(c, s), i, j);
    case Answer(i, j) =>
      assert FullRoundOk(c, (i, j));
      AnsweredFullRound(c, i, j);
      RecordsFrame(c, s);
      FullRoundsElsewhere(c, Do(c, s), i, j);
    case Deliver(i, j) =>
      RecordsFrame(c, s);
      FullRoundsElsewhere(c, Do(c, s), i, j);
    case LoseRequest(i, j) =>
      RecordsFrame(c, s);
      FullRoundsElsewhere(c, Do(c, s), i, j);
  }

  /** Losing the reply to a full request, or sending the request again, leaves the pair in order. */
  lemma LostFullPair(c: Cluster, c': Cluster, i: NodeId, j: NodeId)
    requires i in c.nodes && j in c.nodes && (i, j) in c.flights && PairInv(c, i, j) && FullRoundOk(c, (i, j))
    requires c.flights[(i, j)].req.full && c'.nodes == c.nodes && c'.log == c.log
    requires (i, j) in c'.flights ==> c'.flights[(i, j)] == Requested(c.flights[(i, j)].snap, c.flights[(i, j)].req)
    ensures PairInv(c', i, j)
    ensures (i, j) in c'.flights ==> FullRoundOk(c', (i, j))
  {
  }

  lemma LostFullReply(c: Cluster, m: Move)
    requires Inv(c) && FullRoundsOk(c) && Can(c, m) && !m.Plain? && c.flights[(m.i, m.j)].req.full
    ensures Inv(Go(c, m)) && FullRoundsOk(Go(c, m))
  {
    var c', i, j := Go(c, m), m.i, m.j;
    assert (i, j) in c.flights;
    assert PairInv(c, i, j) && FullRoundOk(c, (i, j));
    LostFullPair(c, c', i, j);
    NodesUntouched(c, c');
    FlightFrame(c, c', i, j);
    OthersStable(c, c', i, j);
    RewoundFrame(c, m);
    FullRoundsElsewhere(c, c', i, j);
  }

  lemma RewoundFrame(c: Cluster, m: Move)
    requires Can(c, m) && !m.Plain?
    ensures RecordsElsewhere(c, Go(c, m), m.i, m.j)
  {
  }

  /** Every reply that the run loses answered a full request. */
  predicate LosesOnlyFull(c: Cluster, run: seq<Move>)
    requires Possible(c, run)
    decreases |run|
  {
    run == [] ||
    ((run[0].Plain? || c.flights[(run[0].i, run[0].j)].req.full) && LosesOnlyFull(Go(c, run[0]), run[1..]))
  }

  lemma {:induction false} FullLossKeepsPrefixes(c: Cluster, run: seq<Move>)
    requires Inv(c) && FullRoundsOk(c) && Possible(c, run) && LosesOnlyFull(c, run)
    ensures AlwaysPrefixes(c, run)
    decreases |run|
  {
    forall i | i in c.nodes ensures HoldsPrefix(c.log, c.nodes[i].st) {
      assert NodeInv(c, i);
    }
    if run != [] {
      var m := run[0];
      if m.Plain? {
        StepInv(c, m.s);
        StepKeepsFullRounds(c, m.s);
      } else {
        LostFullReply(c, m);
      }
      FullLossKeepsPrefixes(Go(c, m), run[1..]);
    }
  }

  /** Losing full replies is harmless: the responder records nothing for them.  In every run from start-up in which
      every lost reply answered a full request, all replicas hold causal prefixes at every point, whether or not
      requests are lost or sent again. */
  lemma LosingFullRepliesIsHarmless(ids: set<NodeId>, run: seq<Move>)
    requires forall i :: i in ids ==> ColonFree(i)
    requires Possible(Start(ids), run) && LosesOnlyFull(Start(ids), run)
    ensures AlwaysPrefixes(Start(ids), run)
  {
    StartInv(ids);
    FullLossKeepsPrefixes(Start(ids), run);
  }
}
