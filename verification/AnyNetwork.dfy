/** The same exchange over a network that loses, duplicates and reorders at will: messages stay in a set
    forever and may be received any number of times, several rounds per pair may overlap, and both the push
    snapshot and the reply are read piece by piece with other steps in between. */
module AnyNetwork {
  import opened GoMaps
  import opened Keys
  import opened Replica
  import opened GossipCluster
  import opened GossipConvergence

  datatype Msg =
    | Req(from: NodeId, to: NodeId, u: Update)
    | Rep(from: NodeId, to: NodeId, asked: Counts, u: Update)

  /** A push snapshot in the making: positive read, or positive and negative read. */
  datatype Snapshot = PosRead(pos: Counts) | BothRead(pos: Counts, neg: Counts)

  /** A reply in the making: clock and base are fixed, then positive is read, then negative. */
  datatype Draft = Draft(from: NodeId, to: NodeId, asked: Counts, full: bool, clock: Counts, base: Counts, pos: Counts)

  datatype Net = Net(nodes: map<NodeId, Node>, log: Log, reading: map<(NodeId, NodeId), Snapshot>,
                     started: set<Draft>, half: set<Draft>, msgs: set<Msg>)

  datatype Event =
    | Issue(i: NodeId, name: string, op: Op)
    | ReadPositive(i: NodeId, j: NodeId)
    | ReadNegative(i: NodeId, j: NodeId)
    | Send(i: NodeId, j: NodeId, periodic: bool)
    | Receive(m: Msg)
    | DraftPositive(d: Draft)
    | DraftNegative(d: Draft)

  predicate Possible(c: Net, e: Event) {
    match e
    case Issue(i, _, _) => i in c.nodes
    case ReadPositive(i, j) => i in c.nodes && j in c.nodes && i != j
    case ReadNegative(i, j) => i in c.nodes && (i, j) in c.reading && c.reading[(i, j)].PosRead?
    case Send(i, j, _) => i in c.nodes && (i, j) in c.reading && c.reading[(i, j)].BothRead?
    case Receive(m) => m in c.msgs && m.to in c.nodes
    case DraftPositive(d) => d in c.started && d.from in c.nodes
    case DraftNegative(d) => d in c.half && d.from in c.nodes
  }

  function Happen(c: Net, e: Event): Net
    requires Possible(c, e)
  {
    match e
    case Issue(i, name, op) =>
      var k := CounterKey(name, i);
      c.(nodes := c.nodes[i := c.nodes[i].(st := ApplyOp(c.nodes[i].st, k, op))],
         log := c.log[k := OpsOf(c.log, k) + [op]])
    case ReadPositive(i, j) => c.(reading := c.reading[(i, j) := PosRead(c.nodes[i].st.pos)])
    case ReadNegative(i, j) =>
      c.(reading := c.reading[(i, j) := BothRead(c.reading[(i, j)].pos, c.nodes[i].st.neg)])
    case Send(i, j, periodic) =>
      var torn := State(c.reading[(i, j)].pos, c.reading[(i, j)].neg, c.nodes[i].st.clock);
      var base := BaseOf(c.nodes[i].lastSync, j);
      if Skips(torn, base, periodic) then c
      else c.(msgs := c.msgs + {Req(i, j, Request(torn, base, periodic))})
    case Receive(Req(i, j, u)) =>
      var n' := Respond(c.nodes[j], i, u);
      c.(nodes := c.nodes[j := n'],
         started := c.started +
           {Draft(j, i, u.clock, u.full, n'.st.clock, ReplyBase(u, BaseOf(c.nodes[j].replied, i)), map[])})
    case Receive(Rep(j, i, asked, u)) => c.(nodes := c.nodes[i := Finish(c.nodes[i], j, asked, u)])
    case DraftPositive(d) =>
      c.(half := c.half + {d.(pos := Selected(d.full, c.nodes[d.from].st.pos, d.clock, d.base))})
    case DraftNegative(d) =>
      var neg := Selected(d.full, c.nodes[d.from].st.neg, d.clock, d.base);
      c.(msgs := c.msgs + {Rep(d.from, d.to, d.asked, Update(d.full, d.pos, neg, d.clock))})
  }

  predicate Feasible(c: Net, run: seq<Event>)
    decreases |run|
  {
    run == [] || (Possible(c, run[0]) && Feasible(Happen(c, run[0]), run[1..]))
  }

  function After(c: Net, run: seq<Event>): Net
    requires Feasible(c, run)
    decreases |run|
  {
    if run == [] then c else After(Happen(c, run[0]), run[1..])
  }

  function Boot(ids: set<NodeId>): Net {
    Net(map i | i in ids :: Node(EMPTY, map[], map[]), map[], map[], {}, {}, {})
  }

  // ----- values once held -----

  /** v was the writer's positive count at some point of its history: now, or before its last operation. */
  ghost predicate HeldPos(l: seq<Op>, v: int) {
    v == PosUpTo(l, |l|) || (l != [] && HeldPos(l[..|l| - 1], v))
  }

  ghost predicate HeldNeg(l: seq<Op>, v: int) {
    v == NegUpTo(l, |l|) || (l != [] && HeldNeg(l[..|l| - 1], v))
  }

  /** A held value is the sum over a prefix. */
  lemma {:induction false} HeldPosAt(l: seq<Op>, v: int) returns (n: nat)
    requires HeldPos(l, v)
    ensures n <= |l| && v == PosUpTo(l, n)
  {
    if v == PosUpTo(l, |l|) {
      n := |l|;
    } else {
      n := HeldPosAt(l[..|l| - 1], v);
      UpToOfPrefix(l[..|l| - 1], l, n);
    }
  }

  lemma {:induction false} HeldNegAt(l: seq<Op>, v: int) returns (n: nat)
    requires HeldNeg(l, v)
    ensures n <= |l| && v == NegUpTo(l, n)
  {
    if v == NegUpTo(l, |l|) {
      n := |l|;
    } else {
      n := HeldNegAt(l[..|l| - 1], v);
      UpToOfPrefix(l[..|l| - 1], l, n);
    }
  }

  ghost predicate PosHeld(log: Log, m: Counts) {
    forall k :: HeldPos(OpsOf(log, k), Get(m, k))
  }

  ghost predicate NegHeld(log: Log, m: Counts) {
    forall k :: HeldNeg(OpsOf(log, k), Get(m, k))
  }

  lemma {:induction false} HeldBounds(l: seq<Op>, p: int, n: int)
    ensures HeldPos(l, p) ==> 0 <= p <= PosUpTo(l, |l|)
    ensures HeldNeg(l, n) ==> 0 <= n <= NegUpTo(l, |l|)
    ensures HeldPos(l, 0) && HeldNeg(l, 0)
  {
    UpToMonotone(l, |l|, |l|);
    if l != [] {
      var l' := l[..|l| - 1];
      HeldBounds(l', p, n);
      UpToOfPrefix(l', l, |l'|);
      UpToMonotone(l, |l'|, |l|);
    }
  }

  lemma {:induction false} HeldLonger(l: seq<Op>, l': seq<Op>, p: int, n: int)
    requires l <= l'
    ensures HeldPos(l, p) ==> HeldPos(l', p)
    ensures HeldNeg(l, n) ==> HeldNeg(l', n)
  {
    if |l| < |l'| {
      HeldLonger(l, l'[..|l'| - 1], p, n);
    } else {
      assert l == l';
    }
  }

  lemma HeldUnderGrowth(log: Log, log': Log, p: Counts, n: Counts)
    requires LogGrows(log, log')
    ensures PosHeld(log, p) ==> PosHeld(log', p)
    ensures NegHeld(log, n) ==> NegHeld(log', n)
  {
    forall k ensures HeldPos(OpsOf(log, k), Get(p, k)) ==> HeldPos(OpsOf(log', k), Get(p, k))
    ensures HeldNeg(OpsOf(log, k), Get(n, k)) ==> HeldNeg(OpsOf(log', k), Get(n, k)) {
      HeldLonger(OpsOf(log, k), OpsOf(log', k), Get(p, k), Get(n, k));
    }
  }

  lemma SelectedHeld(log: Log, full: bool, p: Counts, n: Counts, clock: Counts, base: Counts)
    ensures PosHeld(log, p) ==> PosHeld(log, Selected(full, p, clock, base))
    ensures NegHeld(log, n) ==> NegHeld(log, Selected(full, n, clock, base))
  {
    forall k ensures HeldPos(OpsOf(log, k), 0) && HeldNeg(OpsOf(log, k), 0) {
      HeldBounds(OpsOf(log, k), 0, 0);
    }
    var p', n' := Selected(full, p, clock, base), Selected(full, n, clock, base);
    assert forall k :: Get(p', k) == Get(p, k) || Get(p', k) == 0;
    assert forall k :: Get(n', k) == Get(n, k) || Get(n', k) == 0;
  }

  // ----- the invariant -----

  /** At key k: counts the writer once had, a clock entry within its history; all of it for the writer. */
  ghost predicate KeyOk(l: seq<Op>, mine: bool, st: State, k: string) {
    && HeldPos(l, Get(st.pos, k)) && HeldNeg(l, Get(st.neg, k)) && Get(st.clock, k) <= |l|
    && (mine ==> Get(st.pos, k) == PosUpTo(l, |l|) && Get(st.neg, k) == NegUpTo(l, |l|) && Get(st.clock, k) == |l|)
  }

  ghost predicate StateOk(log: Log, i: NodeId, st: State) {
    AllPositive(st) && forall k :: KeyOk(OpsOf(log, k), Owner(k) == i, st, k)
  }

  ghost predicate BaseOk(c: Net, i: NodeId, j: NodeId)
    requires i in c.nodes && j in c.nodes
  {
    var base := BaseOf(c.nodes[i].lastSync, j);
    Leq(base, c.nodes[i].st.clock) && Leq(base, c.nodes[j].st.clock)
  }

  ghost predicate EndsOk(c: Net, from: NodeId, to: NodeId, clock: Counts) {
    from in c.nodes && to in c.nodes && from != to && Positive(clock) && Leq(clock, c.nodes[from].st.clock)
  }

  ghost predicate MsgOk(c: Net, m: Msg) {
    && EndsOk(c, m.from, m.to, m.u.clock)
    && PosHeld(c.log, m.u.pos) && NegHeld(c.log, m.u.neg)
    && (m.Rep? ==> Positive(m.asked) && Leq(m.asked, c.nodes[m.from].st.clock) && Leq(m.asked, c.nodes[m.to].st.clock))
  }

  ghost predicate DraftOk(c: Net, d: Draft) {
    && EndsOk(c, d.from, d.to, d.clock)
    && Positive(d.asked) && Leq(d.asked, c.nodes[d.from].st.clock) && Leq(d.asked, c.nodes[d.to].st.clock)
  }

  ghost predicate SnapshotOk(c: Net, p: (NodeId, NodeId), s: Snapshot) {
    && p.0 in c.nodes && p.1 in c.nodes && p.0 != p.1
    && PosHeld(c.log, s.pos) && (s.BothRead? ==> NegHeld(c.log, s.neg))
  }

  ghost predicate NodesOk(c: Net) {
    && (forall k :: k in c.log ==> Owner(k) in c.nodes)
    && forall i :: i in c.nodes ==> ColonFree(i) && StateOk(c.log, i, c.nodes[i].st)
  }

  ghost predicate BasesOk(c: Net) {
    forall i, j :: i in c.nodes && j in c.nodes && i != j ==> BaseOk(c, i, j)
  }

  ghost predicate MsgsOk(c: Net) {
    forall m :: m in c.msgs ==> MsgOk(c, m)
  }

  ghost predicate StartedOk(c: Net) {
    forall d :: d in c.started ==> DraftOk(c, d)
  }

  ghost predicate HalfOk(c: Net) {
    forall d :: d in c.half ==> DraftOk(c, d) && PosHeld(c.log, d.pos)
  }

  ghost predicate ReadingOk(c: Net) {
    forall p :: p in c.reading ==> SnapshotOk(c, p, c.reading[p])
  }

  ghost predicate WireOk(c: Net) {
    MsgsOk(c) && StartedOk(c) && HalfOk(c) && ReadingOk(c)
  }

  ghost predicate Ok(c: Net) {
    NodesOk(c) && BasesOk(c) && WireOk(c)
  }

  // ----- growth: states only go up, the wire keeps what it had -----

  ghost predicate Grows(c: Net, c': Net) {
    && c'.nodes.Keys == c.nodes.Keys && LogGrows(c.log, c'.log)
    && forall i :: i in c.nodes ==> StateLeq(c.nodes[i].st, c'.nodes[i].st)
  }

  lemma MsgsGrow(c: Net, c': Net)
    requires MsgsOk(c) && Grows(c, c') && forall m :: m in c'.msgs ==> m in c.msgs || MsgOk(c', m)
    ensures MsgsOk(c')
  {
    forall m | m in c'.msgs ensures MsgOk(c', m) {
      if m in c.msgs {
        assert MsgOk(c, m);
        HeldUnderGrowth(c.log, c'.log, m.u.pos, m.u.neg);
        assert StateLeq(c.nodes[m.from].st, c'.nodes[m.from].st) && StateLeq(c.nodes[m.to].st, c'.nodes[m.to].st);
      }
    }
  }

  lemma StartedGrow(c: Net, c': Net)
    requires StartedOk(c) && Grows(c, c') && forall d :: d in c'.started ==> d in c.started || DraftOk(c', d)
    ensures StartedOk(c')
  {
    forall d | d in c'.started ensures DraftOk(c', d) {
      if d in c.started {
        assert DraftOk(c, d);
        assert StateLeq(c.nodes[d.from].st, c'.nodes[d.from].st) && StateLeq(c.nodes[d.to].st, c'.nodes[d.to].st);
      }
    }
  }

  lemma HalfGrow(c: Net, c': Net)
    requires HalfOk(c) && Grows(c, c')
    requires forall d :: d in c'.half ==> d in c.half || (DraftOk(c', d) && PosHeld(c'.log, d.pos))
    ensures HalfOk(c')
  {
    forall d | d in c'.half ensures DraftOk(c', d) && PosHeld(c'.log, d.pos) {
      if d in c.half {
        assert DraftOk(c, d);
        HeldUnderGrowth(c.log, c'.log, d.pos, map[]);
        assert StateLeq(c.nodes[d.from].st, c'.nodes[d.from].st) && StateLeq(c.nodes[d.to].st, c'.nodes[d.to].st);
      }
    }
  }

  lemma ReadingGrow(c: Net, c': Net)
    requires ReadingOk(c) && Grows(c, c')
    requires forall p :: p in c'.reading ==>
      (p in c.reading && c'.reading[p] == c.reading[p]) || SnapshotOk(c', p, c'.reading[p])
    ensures ReadingOk(c')
  {
    forall p | p in c'.reading ensures SnapshotOk(c', p, c'.reading[p]) {
      if p in c.reading && c'.reading[p] == c.reading[p] {
        var s := c.reading[p];
        assert SnapshotOk(c, p, s);
        HeldUnderGrowth(c.log, c'.log, s.pos, if s.BothRead? then s.neg else map[]);
      }
    }
  }

  /** The wire after a step: what was there, plus what the step may have added. */
  lemma WireGrows(c: Net, c': Net)
    requires WireOk(c) && Grows(c, c')
    requires forall m :: m in c'.msgs ==> m in c.msgs || MsgOk(c', m)
    requires forall d :: d in c'.started ==> d in c.started || DraftOk(c', d)
    requires forall d :: d in c'.half ==> d in c.half || (DraftOk(c', d) && PosHeld(c'.log, d.pos))
    requires forall p :: p in c'.reading ==>
      (p in c.reading && c'.reading[p] == c.reading[p]) || SnapshotOk(c', p, c'.reading[p])
    ensures WireOk(c')
  {
    MsgsGrow(c, c');
    StartedGrow(c, c');
    HalfGrow(c, c');
    ReadingGrow(c, c');
  }

  lemma QuietNodes(c: Net, c': Net)
    requires NodesOk(c) && BasesOk(c) && c'.nodes == c.nodes && c'.log == c.log
    ensures NodesOk(c') && BasesOk(c') && Grows(c, c')
  {
    forall i, j | i in c'.nodes && j in c'.nodes && i != j ensures BaseOk(c', i, j) {
      assert BaseOk(c, i, j);
    }
  }

  lemma SameWire(c: Net, c': Net)
    requires WireOk(c) && Grows(c, c')
    requires c'.msgs == c.msgs && c'.started == c.started && c'.half == c.half && c'.reading == c.reading
    ensures WireOk(c')
  {
    WireGrows(c, c');
  }

  /** One more message on the wire. */
  lemma WithMessage(c: Net, m: Msg)
    requires Ok(c) && MsgOk(c, m)
    ensures Ok(c.(msgs := c.msgs + {m})) && Grows(c, c.(msgs := c.msgs + {m}))
  {
    var c' := c.(msgs := c.msgs + {m});
    QuietNodes(c, c');
    assert MsgOk(c', m);
    WireGrows(c, c');
  }

  /** One more half-read reply. */
  lemma WithHalf(c: Net, d: Draft)
    requires Ok(c) && DraftOk(c, d) && PosHeld(c.log, d.pos)
    ensures Ok(c.(half := c.half + {d})) && Grows(c, c.(half := c.half + {d}))
  {
    var c' := c.(half := c.half + {d});
    QuietNodes(c, c');
    assert DraftOk(c', d) && PosHeld(c'.log, d.pos);
    WireGrows(c, c');
  }

  ghost predicate ClockWithin(log: Log, clock: Counts) {
    forall k :: Get(clock, k) <= |OpsOf(log, k)|
  }

  /** Merging counts that were once held. */
  lemma MergeHeld(log: Log, i: NodeId, st: State, u: Update)
    requires StateOk(log, i, st) && PosHeld(log, u.pos) && NegHeld(log, u.neg) && ClockWithin(log, u.clock)
    ensures StateOk(log, i, MergeUpdate(st, u))
  {
    var st' := MergeUpdate(st, u);
    MergeGet(st.pos, u.pos);
    MergeGet(st.neg, u.neg);
    MergeGet(st.clock, u.clock);
    forall k ensures KeyOk(OpsOf(log, k), Owner(k) == i, st', k) {
      MergeKey(OpsOf(log, k), Owner(k) == i, st, u, st', k);
    }
  }

  lemma MergeKey(l: seq<Op>, mine: bool, st: State, u: Update, st': State, k: string)
    requires KeyOk(l, mine, st, k) && HeldPos(l, Get(u.pos, k)) && HeldNeg(l, Get(u.neg, k)) && Get(u.clock, k) <= |l|
    requires Get(st'.pos, k) == Max(Get(st.pos, k), Get(u.pos, k))
    requires Get(st'.neg, k) == Max(Get(st.neg, k), Get(u.neg, k))
    requires Get(st'.clock, k) == Max(Get(st.clock, k), Get(u.clock, k))
    ensures KeyOk(l, mine, st', k)
  {
    HeldBounds(l, Get(u.pos, k), Get(u.neg, k));
  }

  lemma MergeGrows(st: State, u: Update)
    requires AllPositive(st)
    ensures StateLeq(st, MergeUpdate(st, u)) && Leq(u.clock, MergeUpdate(st, u).clock)
  {
    MergeGet(st.pos, u.pos);
    MergeGet(st.neg, u.neg);
    MergeGet(st.clock, u.clock);
  }

  lemma IssueState(log: Log, i: NodeId, st: State, k: string, op: Op)
    requires Owner(k) == i && StateOk(log, i, st)
    ensures var log' := log[k := OpsOf(log, k) + [op]];
            LogGrows(log, log') && StateOk(log', i, ApplyOp(st, k, op)) && StateLeq(st, ApplyOp(st, k, op))
  {
    var l := OpsOf(log, k);
    var log', st' := log[k := l + [op]], ApplyOp(st, k, op);
    assert KeyOk(l, true, st, k);
    IssueKey(l, st, k, op);
    assert AllPositive(st');
    forall q ensures KeyOk(OpsOf(log', q), Owner(q) == i, st', q) {
      assert KeyOk(OpsOf(log, q), Owner(q) == i, st, q);
      assert q != k ==>
        Get(st'.pos, q) == Get(st.pos, q) && Get(st'.neg, q) == Get(st.neg, q) && Get(st'.clock, q) == Get(st.clock, q);
    }
  }

  lemma IssueKey(l: seq<Op>, st: State, k: string, op: Op)
    requires KeyOk(l, true, st, k)
    ensures KeyOk(l + [op], true, ApplyOp(st, k, op), k)
    ensures 0 <= Get(st.pos, k) && 0 <= Get(st.neg, k) && 0 <= Get(st.clock, k)
  {
    UpToOfPrefix(l, l + [op], |l|);
    UpToMonotone(l, |l|, |l|);
  }

  /** Another replica's operation changes nothing here but the length of a history. */
  lemma OtherState(log: Log, log': Log, i: NodeId, st: State, k: string)
    requires StateOk(log, i, st) && LogGrows(log, log') && Owner(k) != i
    requires forall q :: q != k ==> OpsOf(log', q) == OpsOf(log, q)
    ensures StateOk(log', i, st)
  {
    forall q ensures KeyOk(OpsOf(log', q), Owner(q) == i, st, q) {
      assert KeyOk(OpsOf(log, q), Owner(q) == i, st, q);
      HeldLonger(OpsOf(log, q), OpsOf(log', q), Get(st.pos, q), Get(st.neg, q));
    }
  }

  lemma BasesUnderGrowth(c: Net, c': Net, i: NodeId, j: NodeId)
    requires BasesOk(c) && Grows(c, c')
    requires forall a, b :: a in c.nodes && (a, b) != (i, j) ==>
      BaseOf(c'.nodes[a].lastSync, b) == BaseOf(c.nodes[a].lastSync, b)
    requires i in c'.nodes && j in c'.nodes && i != j ==> BaseOk(c', i, j)
    ensures BasesOk(c')
  {
    forall a, b | a in c'.nodes && b in c'.nodes && a != b ensures BaseOk(c', a, b) {
      if (a, b) != (i, j) {
        assert BaseOk(c, a, b);
        assert StateLeq(c.nodes[a].st, c'.nodes[a].st) && StateLeq(c.nodes[b].st, c'.nodes[b].st);
      }
    }
  }

  // ----- every event keeps the invariant, and states only grow -----

  lemma IssueNodes(c: Net, i: NodeId, name: string, op: Op)
    requires NodesOk(c) && i in c.nodes
    ensures NodesOk(Happen(c, Issue(i, name, op))) && Grows(c, Happen(c, Issue(i, name, op)))
  {
    var c' := Happen(c, Issue(i, name, op));
    var k := CounterKey(name, i);
    assert ColonFree(i) && StateOk(c.log, i, c.nodes[i].st);
    OwnerOfKey(name, i);
    IssueState(c.log, i, c.nodes[i].st, k, op);
    IssueOthers(c, c', i, k);
    IssueGrows(c, i, name, op);
  }

  lemma IssueGrows(c: Net, i: NodeId, name: string, op: Op)
    requires i in c.nodes && StateLeq(c.nodes[i].st, ApplyOp(c.nodes[i].st, CounterKey(name, i), op))
    ensures Grows(c, Happen(c, Issue(i, name, op)))
  {
  }

  lemma IssueOthers(c: Net, c': Net, i: NodeId, k: string)
    requires NodesOk(c) && i in c.nodes && Owner(k) == i && LogGrows(c.log, c'.log)
    requires c'.log.Keys == c.log.Keys + {k} && forall q :: q != k ==> OpsOf(c'.log, q) == OpsOf(c.log, q)
    requires i in c'.nodes && c'.nodes == c.nodes[i := c'.nodes[i]] && StateOk(c'.log, i, c'.nodes[i].st)
    ensures NodesOk(c')
  {
    forall a | a in c'.nodes ensures ColonFree(a) && StateOk(c'.log, a, c'.nodes[a].st) {
      if a != i {
        assert StateOk(c.log, a, c.nodes[a].st);
        OtherState(c.log, c'.log, a, c.nodes[a].st, k);
      }
    }
  }

  lemma IssueOk(c: Net, i: NodeId, name: string, op: Op)
    requires Ok(c) && i in c.nodes
    ensures Ok(Happen(c, Issue(i, name, op))) && Grows(c, Happen(c, Issue(i, name, op)))
  {
    var c' := Happen(c, Issue(i, name, op));
    IssueNodes(c, i, name, op);
    IssueBases(c, i, name, op);
    SameWire(c, c');
  }

  lemma IssueBases(c: Net, i: NodeId, name: string, op: Op)
    requires BasesOk(c) && i in c.nodes && Grows(c, Happen(c, Issue(i, name, op)))
    ensures BasesOk(Happen(c, Issue(i, name, op)))
  {
    BasesUnderGrowth(c, Happen(c, Issue(i, name, op)), i, i);
  }

  lemma StateHeld(log: Log, i: NodeId, st: State)
    requires StateOk(log, i, st)
    ensures PosHeld(log, st.pos) && NegHeld(log, st.neg) && ClockWithin(log, st.clock)
  {
    forall k ensures HeldPos(OpsOf(log, k), Get(st.pos, k)) && HeldNeg(OpsOf(log, k), Get(st.neg, k))
      && Get(st.clock, k) <= |OpsOf(log, k)|
    {
      assert KeyOk(OpsOf(log, k), Owner(k) == i, st, k);
    }
  }

  lemma ReadPositiveOk(c: Net, i: NodeId, j: NodeId)
    requires Ok(c) && Possible(c, ReadPositive(i, j))
    ensures Ok(Happen(c, ReadPositive(i, j))) && Grows(c, Happen(c, ReadPositive(i, j)))
  {
    var c' := Happen(c, ReadPositive(i, j));
    QuietNodes(c, c');
    StateHeld(c.log, i, c.nodes[i].st);
    assert SnapshotOk(c', (i, j), c'.reading[(i, j)]);
    WireGrows(c, c');
  }

  lemma ReadNegativeOk(c: Net, i: NodeId, j: NodeId)
    requires Ok(c) && Possible(c, ReadNegative(i, j))
    ensures Ok(Happen(c, ReadNegative(i, j))) && Grows(c, Happen(c, ReadNegative(i, j)))
  {
    var c' := Happen(c, ReadNegative(i, j));
    QuietNodes(c, c');
    StateHeld(c.log, i, c.nodes[i].st);
    assert SnapshotOk(c, (i, j), c.reading[(i, j)]);
    assert SnapshotOk(c', (i, j), c'.reading[(i, j)]);
    WireGrows(c, c');
  }

  lemma DraftPositiveOk(c: Net, d: Draft)
    requires Ok(c) && Possible(c, DraftPositive(d))
    ensures Ok(Happen(c, DraftPositive(d))) && Grows(c, Happen(c, DraftPositive(d)))
  {
    StateHeld(c.log, d.from, c.nodes[d.from].st);
    SelectedHeld(c.log, d.full, c.nodes[d.from].st.pos, map[], d.clock, d.base);
    assert DraftOk(c, d);
    WithHalf(c, d.(pos := Selected(d.full, c.nodes[d.from].st.pos, d.clock, d.base)));
  }

  lemma SendMsg(c: Net, i: NodeId, j: NodeId, periodic: bool)
    requires NodesOk(c) && ReadingOk(c) && Possible(c, Send(i, j, periodic))
    ensures var torn := State(c.reading[(i, j)].pos, c.reading[(i, j)].neg, c.nodes[i].st.clock);
            MsgOk(c, Req(i, j, Request(torn, BaseOf(c.nodes[i].lastSync, j), periodic)))
  {
    var s, base := c.reading[(i, j)], BaseOf(c.nodes[i].lastSync, j);
    assert SnapshotOk(c, (i, j), s);
    assert StateOk(c.log, i, c.nodes[i].st);
    var torn := State(s.pos, s.neg, c.nodes[i].st.clock);
    SelectedHeld(c.log, SendsFull(torn, base, periodic), s.pos, s.neg, torn.clock, base);
  }

  lemma SendOk(c: Net, i: NodeId, j: NodeId, periodic: bool)
    requires Ok(c) && Possible(c, Send(i, j, periodic))
    ensures Ok(Happen(c, Send(i, j, periodic))) && Grows(c, Happen(c, Send(i, j, periodic)))
  {
    var torn := State(c.reading[(i, j)].pos, c.reading[(i, j)].neg, c.nodes[i].st.clock);
    SendMsg(c, i, j, periodic);
    WithMessage(c, Req(i, j, Request(torn, BaseOf(c.nodes[i].lastSync, j), periodic)));
    QuietNodes(c, c);
  }

  lemma EmitOk(c: Net, d: Draft)
    requires Ok(c) && Possible(c, DraftNegative(d))
    ensures Ok(Happen(c, DraftNegative(d))) && Grows(c, Happen(c, DraftNegative(d)))
  {
    assert DraftOk(c, d);
    StateHeld(c.log, d.from, c.nodes[d.from].st);
    SelectedHeld(c.log, d.full, map[], c.nodes[d.from].st.neg, d.clock, d.base);
    var neg := Selected(d.full, c.nodes[d.from].st.neg, d.clock, d.base);
    WithMessage(c, Rep(d.from, d.to, d.asked, Update(d.full, d.pos, neg, d.clock)));
  }

  /** What a received message does to its receiver's state. */
  lemma ReceiveState(c: Net, m: Msg)
    requires NodesOk(c) && MsgsOk(c) && Possible(c, Receive(m))
    ensures MsgOk(c, m)
    ensures var st, st' := c.nodes[m.to].st, MergeUpdate(c.nodes[m.to].st, m.u);
            StateOk(c.log, m.to, st') && StateLeq(st, st') && Leq(m.u.clock, st'.clock)
  {
    assert MsgOk(c, m);
    StateHeld(c.log, m.from, c.nodes[m.from].st);
    assert ClockWithin(c.log, m.u.clock) by {
      forall k ensures Get(m.u.clock, k) <= |OpsOf(c.log, k)| {
        assert Get(m.u.clock, k) <= Get(c.nodes[m.from].st.clock, k);
      }
    }
    MergeHeld(c.log, m.to, c.nodes[m.to].st, m.u);
    MergeGrows(c.nodes[m.to].st, m.u);
  }

  /** Replacing one node's state by a larger one that is in order. */
  lemma ReplaceNode(c: Net, c': Net, x: NodeId)
    requires NodesOk(c) && x in c.nodes && x in c'.nodes && c'.nodes == c.nodes[x := c'.nodes[x]] && c'.log == c.log
    requires StateOk(c.log, x, c'.nodes[x].st) && StateLeq(c.nodes[x].st, c'.nodes[x].st)
    ensures NodesOk(c') && Grows(c, c')
  {
  }

  /** Only the baseline of m.to for m.from may differ, and only after a reply. */
  lemma ReceiveFrame(c: Net, m: Msg, a: NodeId, b: NodeId)
    requires Possible(c, Receive(m)) && a in c.nodes && (m.Req? || (a, b) != (m.to, m.from))
    ensures BaseOf(Happen(c, Receive(m)).nodes[a].lastSync, b) == BaseOf(c.nodes[a].lastSync, b)
  {
  }

  lemma ReceiveBases(c: Net, m: Msg)
    requires BasesOk(c) && Possible(c, Receive(m)) && MsgOk(c, m) && Grows(c, Happen(c, Receive(m)))
    requires Leq(m.u.clock, MergeUpdate(c.nodes[m.to].st, m.u).clock)
    ensures BasesOk(Happen(c, Receive(m)))
  {
    var c' := Happen(c, Receive(m));
    forall a, b | a in c.nodes && (m.Req? || (a, b) != (m.to, m.from))
      ensures BaseOf(c'.nodes[a].lastSync, b) == BaseOf(c.nodes[a].lastSync, b)
    {
      ReceiveFrame(c, m, a, b);
    }
    if m.Rep? {
      assert StateLeq(c.nodes[m.to].st, c'.nodes[m.to].st);
      ReceiveRepBase(c, m);
      BasesUnderGrowth(c, c', m.to, m.from);
    } else {
      BasesUnderGrowth(c, c', m.to, m.to);
    }
  }

  lemma ReceiveReqOk(c: Net, m: Msg)
    requires Ok(c) && Possible(c, Receive(m)) && m.Req?
    ensures Ok(Happen(c, Receive(m))) && Grows(c, Happen(c, Receive(m)))
  {
    var c' := Happen(c, Receive(m));
    ReceiveState(c, m);
    ReplaceNode(c, c', m.to);
    ReceiveBases(c, m);
    var d := Draft(m.to, m.from, m.u.clock, m.u.full, c'.nodes[m.to].st.clock,
                   ReplyBase(m.u, BaseOf(c.nodes[m.to].replied, m.from)), map[]);
    assert DraftOk(c', d);
    WireGrows(c, c');
  }

  lemma ReceiveRepBase(c: Net, m: Msg)
    requires Possible(c, Receive(m)) && m.Rep? && MsgOk(c, m)
    requires StateLeq(c.nodes[m.to].st, MergeUpdate(c.nodes[m.to].st, m.u))
    requires Leq(m.u.clock, MergeUpdate(c.nodes[m.to].st, m.u).clock)
    ensures BaseOk(Happen(c, Receive(m)), m.to, m.from)
  {
    var c' := Happen(c, Receive(m));
    MergeBounds(m.asked, m.u.clock, c'.nodes[m.to].st.clock);
    MergeBounds(m.asked, m.u.clock, c'.nodes[m.from].st.clock);
  }

  lemma ReceiveRepOk(c: Net, m: Msg)
    requires Ok(c) && Possible(c, Receive(m)) && m.Rep?
    ensures Ok(Happen(c, Receive(m))) && Grows(c, Happen(c, Receive(m)))
  {
    var c' := Happen(c, Receive(m));
    ReceiveState(c, m);
    ReplaceNode(c, c', m.to);
    ReceiveBases(c, m);
    WireGrows(c, c');
  }

  lemma EventOk(c: Net, e: Event)
    requires Ok(c) && Possible(c, e)
    ensures Ok(Happen(c, e)) && Grows(c, Happen(c, e))
  {
    match e
    case Issue(i, name, op) => IssueOk(c, i, name, op);
    case ReadPositive(i, j) => ReadPositiveOk(c, i, j);
    case ReadNegative(i, j) => ReadNegativeOk(c, i, j);
    case Send(i, j, periodic) => SendOk(c, i, j, periodic);
    case Receive(m) => if m.Req? { ReceiveReqOk(c, m); } else { ReceiveRepOk(c, m); }
    case DraftPositive(d) => DraftPositiveOk(c, d);
    case DraftNegative(d) => EmitOk(c, d);
  }

  lemma GrowsTransitive(a: Net, b: Net, c: Net)
    requires Grows(a, b) && Grows(b, c)
    ensures Grows(a, c)
  {
    forall k ensures OpsOf(a.log, k) <= OpsOf(c.log, k) {
      assert OpsOf(a.log, k) <= OpsOf(b.log, k) <= OpsOf(c.log, k);
    }
    forall i | i in a.nodes ensures StateLeq(a.nodes[i].st, c.nodes[i].st) {
      assert StateLeq(a.nodes[i].st, b.nodes[i].st) && StateLeq(b.nodes[i].st, c.nodes[i].st);
    }
  }

  lemma {:induction false} RunOk(c: Net, run: seq<Event>)
    requires Ok(c) && Feasible(c, run)
    ensures Ok(After(c, run)) && Grows(c, After(c, run))
    decreases |run|
  {
    if run != [] {
      EventOk(c, run[0]);
      RunOk(Happen(c, run[0]), run[1..]);
      GrowsTransitive(c, Happen(c, run[0]), After(c, run));
    }
  }

  lemma BootOk(ids: set<NodeId>)
    requires forall i :: i in ids ==> ColonFree(i)
    ensures Ok(Boot(ids))
  {
    var c := Boot(ids);
    forall i, k | i in ids ensures KeyOk(OpsOf(c.log, k), Owner(k) == i, EMPTY, k) {
      HeldBounds([], 0, 0);
    }
  }

  lemma Reached(ids: set<NodeId>, run: seq<Event>)
    requires forall x :: x in ids ==> ColonFree(x)
    requires Feasible(Boot(ids), run)
    ensures Ok(After(Boot(ids), run)) && After(Boot(ids), run).nodes.Keys == ids
  {
    BootOk(ids);
    RunOk(Boot(ids), run);
  }

  /** Any network.  Whatever is lost, duplicated, reordered or torn: every stored count is one its writer
      once held, so no replica over-counts. */
  lemma CountsWereOnceHeld(ids: set<NodeId>, run: seq<Event>, i: NodeId, k: string)
    requires forall x :: x in ids ==> ColonFree(x)
    requires Feasible(Boot(ids), run) && i in ids
    ensures var c := After(Boot(ids), run);
            i in c.nodes &&
            var st, l := c.nodes[i].st, OpsOf(c.log, k);
            && (exists n: nat :: n <= |l| && Get(st.pos, k) == PosUpTo(l, n))
            && (exists n: nat :: n <= |l| && Get(st.neg, k) == NegUpTo(l, n))
            && Get(st.pos, k) <= PosUpTo(l, |l|) && Get(st.neg, k) <= NegUpTo(l, |l|)
  {
    Reached(ids, run);
    var c := After(Boot(ids), run);
    assert StateOk(c.log, i, c.nodes[i].st);
    assert KeyOk(OpsOf(c.log, k), Owner(k) == i, c.nodes[i].st, k);
    HeldBounds(OpsOf(c.log, k), Get(c.nodes[i].st.pos, k), Get(c.nodes[i].st.neg, k));
    var n := HeldPosAt(OpsOf(c.log, k), Get(c.nodes[i].st.pos, k));
    var m := HeldNegAt(OpsOf(c.log, k), Get(c.nodes[i].st.neg, k));
  }

  /** On the same networks a push baseline never claims more than either end's clock. */
  lemma BaselinesWithinClocks(ids: set<NodeId>, run: seq<Event>, i: NodeId, j: NodeId)
    requires forall x :: x in ids ==> ColonFree(x)
    requires Feasible(Boot(ids), run) && i in ids && j in ids && i != j
    ensures var c := After(Boot(ids), run);
            i in c.nodes && j in c.nodes &&
            var base := BaseOf(c.nodes[i].lastSync, j);
            Leq(base, c.nodes[i].st.clock) && Leq(base, c.nodes[j].st.clock)
  {
    Reached(ids, run);
    assert BaseOk(After(Boot(ids), run), i, j);
  }

  // ----- increment-only histories -----

  ghost predicate IncrementOnly(log: Log) {
    forall k, x :: 0 <= x < |OpsOf(log, k)| ==> OpsOf(log, k)[x].Inc?
  }

  lemma {:induction false} NoDecrementsMeansZero(l: seq<Op>, n: nat)
    requires n <= |l| && forall x :: 0 <= x < |l| ==> l[x].Inc?
    ensures NegUpTo(l, n) == 0
  {
    if n > 0 {
      NoDecrementsMeansZero(l, n - 1);
    }
  }

  /** With increments only, a replica's value is the sum of its positive counts. */
  lemma IncrementOnlyState(c: Net, i: NodeId)
    requires NodesOk(c) && IncrementOnly(c.log) && i in c.nodes
    ensures ValueOf(c.nodes[i].st) == Total(c.nodes[i].st.pos)
  {
    var st := c.nodes[i].st;
    forall k ensures k !in st.neg {
      assert KeyOk(OpsOf(c.log, k), Owner(k) == i, st, k);
      HeldBounds(OpsOf(c.log, k), 0, Get(st.neg, k));
      NoDecrementsMeansZero(OpsOf(c.log, k), |OpsOf(c.log, k)|);
    }
    assert st.neg == map[];
  }

  lemma TotalMonotone(a: Counts, b: Counts)
    requires Positive(a) && Positive(b) && Leq(a, b)
    ensures Total(a) <= Total(b)
  {
    var f, g := (k: string) => Get(a, k), (k: string) => Get(b, k);
    forall k | k in a ensures k in b {
      assert Get(a, k) <= Get(b, k);
    }
    SumSuperset(a.Keys, b.Keys, f);
    SumMonotone(b.Keys, f, g);
  }

  /** Over any network, the value a replica reports for an increment-only history never falls and never
      exceeds the sum of all increments issued. */
  lemma IncrementOnlyValuesNeverFall(ids: set<NodeId>, early: seq<Event>, late: seq<Event>, i: NodeId)
    requires forall x :: x in ids ==> ColonFree(x)
    requires Feasible(Boot(ids), early) && i in ids
    requires Feasible(After(Boot(ids), early), late)
    requires IncrementOnly(After(After(Boot(ids), early), late).log)
    ensures var c, c' := After(Boot(ids), early), After(After(Boot(ids), early), late);
            i in c.nodes && i in c'.nodes &&
            ValueOf(c.nodes[i].st) <= ValueOf(c'.nodes[i].st) <= NetOf(c'.log)
  {
    BootOk(ids);
    RunOk(Boot(ids), early);
    var c := After(Boot(ids), early);
    RunOk(c, late);
    var c' := After(c, late);
    IncrementOnlyBefore(c.log, c'.log);
    IncrementOnlyState(c, i);
    IncrementOnlyState(c', i);
    assert StateLeq(c.nodes[i].st, c'.nodes[i].st);
    assert StateOk(c.log, i, c.nodes[i].st) && StateOk(c'.log, i, c'.nodes[i].st);
    TotalMonotone(c.nodes[i].st.pos, c'.nodes[i].st.pos);
    IncrementOnlyBound(c', i);
  }

  lemma IncrementOnlyBefore(log: Log, log': Log)
    requires LogGrows(log, log') && IncrementOnly(log')
    ensures IncrementOnly(log)
  {
    forall k, x | 0 <= x < |OpsOf(log, k)| ensures OpsOf(log, k)[x].Inc? {
      assert OpsOf(log, k) <= OpsOf(log', k);
      assert OpsOf(log', k)[x].Inc?;
    }
  }

  lemma IncrementOnlyBound(c: Net, i: NodeId)
    requires NodesOk(c) && IncrementOnly(c.log) && i in c.nodes
    ensures Total(c.nodes[i].st.pos) <= NetOf(c.log)
  {
    var pos := c.nodes[i].st.pos;
    var f, g := (k: string) => Get(pos, k), (k: string) => NetCount(OpsOf(c.log, k));
    forall k ensures (k in pos ==> k in c.log) && f(k) <= g(k) {
      var l := OpsOf(c.log, k);
      assert KeyOk(l, Owner(k) == i, c.nodes[i].st, k);
      HeldBounds(l, Get(pos, k), 0);
      NoDecrementsMeansZero(l, |l|);
      if k in pos { assert pos[k] > 0; }
    }
    SumSuperset(pos.Keys, c.log.Keys, f);
    SumMonotone(c.log.Keys, f, g);
  }

  // ----- a round without interruption -----

  lemma UninterruptedPush(c: Net, i: NodeId, j: NodeId, periodic: bool)
    requires i in c.nodes && j in c.nodes && i != j && !Skips(c.nodes[i].st, BaseOf(c.nodes[i].lastSync, j), periodic)
    ensures var run := [ReadPositive(i, j), ReadNegative(i, j), Send(i, j, periodic)];
            var req := Request(c.nodes[i].st, BaseOf(c.nodes[i].lastSync, j), periodic);
            && Feasible(c, run) && After(c, run).nodes == c.nodes && Req(i, j, req) in After(c, run).msgs
  {
    var run := [ReadPositive(i, j), ReadNegative(i, j), Send(i, j, periodic)];
    var c1 := Happen(c, run[0]);
    var c2 := Happen(c1, run[1]);
    var c3 := Happen(c2, run[2]);
    FirstEvent(c2, run[2], []);
    FirstEvent(c1, run[1], run[2..]);
    FirstEvent(c, run[0], run[1..]);
    assert run[2..] == [run[2]] + [] && run[1..] == [run[1]] + run[2..] && run == [run[0]] + run[1..];
  }

  lemma FirstEvent(c: Net, e: Event, rest: seq<Event>)
    requires Possible(c, e) && Feasible(Happen(c, e), rest)
    ensures Feasible(c, [e] + rest) && After(c, [e] + rest) == After(Happen(c, e), rest)
  {
    assert ([e] + rest)[1..] == rest;
  }

  /** The reply that j begins on receiving u from i. */
  function Begun(c: Net, i: NodeId, j: NodeId, u: Update): Draft
    requires j in c.nodes
  {
    Draft(j, i, u.clock, u.full, Respond(c.nodes[j], i, u).st.clock, ReplyBase(u, BaseOf(c.nodes[j].replied, i)), map[])
  }

  lemma UninterruptedAnswer(c: Net, i: NodeId, j: NodeId, u: Update)
    requires j in c.nodes && Req(i, j, u) in c.msgs
    ensures var n' := Respond(c.nodes[j], i, u);
            var d := Begun(c, i, j, u);
            var d' := d.(pos := Selected(d.full, n'.st.pos, d.clock, d.base));
            var run := [Receive(Req(i, j, u)), DraftPositive(d), DraftNegative(d')];
            && Feasible(c, run) && After(c, run).nodes == c.nodes[j := n']
            && Rep(j, i, u.clock, Reply(n'.st, u, BaseOf(c.nodes[j].replied, i))) in After(c, run).msgs
  {
    var n', d := Respond(c.nodes[j], i, u), Begun(c, i, j, u);
    var d' := d.(pos := Selected(d.full, n'.st.pos, d.clock, d.base));
    var run := [Receive(Req(i, j, u)), DraftPositive(d), DraftNegative(d')];
    var c1 := Happen(c, run[0]);
    assert c1.nodes == c.nodes[j := n'] && d in c1.started;
    var c2 := Happen(c1, run[1]);
    var c3 := Happen(c2, run[2]);
    FirstEvent(c2, run[2], []);
    FirstEvent(c1, run[1], run[2..]);
    FirstEvent(c, run[0], run[1..]);
    assert run[2..] == [run[2]] + [] && run[1..] == [run[1]] + run[2..] && run == [run[0]] + run[1..];
  }

  lemma UninterruptedTake(c: Net, i: NodeId, j: NodeId, asked: Counts, u: Update)
    requires i in c.nodes && Rep(j, i, asked, u) in c.msgs
    ensures Happen(c, Receive(Rep(j, i, asked, u))).nodes == c.nodes[i := Finish(c.nodes[i], j, asked, u)]
  {
  }
}
