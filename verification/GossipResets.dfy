/** A local reset against peers that still hold the counter. */
module GossipResets {
  import opened GoMaps
  import opened Keys
  import opened Replica
  import opened GossipCluster
  import opened GossipSafety
  import opened GossipConvergence
  import Naming
  import opened GossipFaults

  /** The replica holds nothing for counter n. */
  predicate Forgotten(st: State, n: string) {
    Naming.View(st.pos, n) == map[] && Naming.View(st.neg, n) == map[] && Naming.View(st.clock, n) == map[]
  }

  ghost predicate NothingAbove(v: Counts) {
    forall i :: i in v ==> v[i] <= 0
  }

  lemma PositiveView(m: Counts, n: string)
    requires Positive(m)
    ensures Positive(Naming.View(m, n))
  {
    forall i | i in Naming.View(m, n) ensures Naming.View(m, n)[i] > 0 {
      Naming.ViewDomain(m, n, i);
    }
  }

  /** After a reset of n, a merge leaves in n's view what the peer's view has above zero. */
  lemma MergedView(m: Counts, peer: Counts, n: string)
    ensures var v := Naming.View(MergeMax(Naming.Without(m, n), peer), n);
            && (v == map[] <==> NothingAbove(Naming.View(peer, n)))
            && (Positive(peer) ==> v == Naming.View(peer, n))
  {
    Naming.ViewOfReset(m, n, n);
    Naming.ViewOfMerge(Naming.Without(m, n), peer, n);
    MergeIntoEmptyIff(Naming.View(peer, n));
    if Positive(peer) {
      PositiveView(peer, n);
    }
  }

  /** For all states: the reset of n survives merging a peer's full state iff the peer's view of n holds no count and
      no clock entry above zero. */
  lemma ResetSurvivesIff(st: State, peer: State, n: string)
    ensures Forgotten(Join(Naming.ResetState(st, n), peer), n) <==>
            && NothingAbove(Naming.View(peer.pos, n)) && NothingAbove(Naming.View(peer.neg, n))
            && NothingAbove(Naming.View(peer.clock, n))
  {
    MergedView(st.pos, peer.pos, n);
    MergedView(st.neg, peer.neg, n);
    MergedView(st.clock, peer.clock, n);
  }

  /** In every run: if replica i resets n and then merges replica j's full state, it holds for n exactly what j holds,
      so the reset survives iff j has not heard of any operation on n. */
  lemma ResetUndoneInRuns(ids: set<NodeId>, run: seq<Step>, i: NodeId, j: NodeId, n: string)
    requires forall x :: x in ids ==> ColonFree(x)
    requires Legal(Start(ids), run) && i in ids && j in ids
    ensures var c := Exec(Start(ids), run);
            i in c.nodes && j in c.nodes &&
            var st, peer := Join(Naming.ResetState(c.nodes[i].st, n), c.nodes[j].st), c.nodes[j].st;
            && Naming.View(st.pos, n) == Naming.View(peer.pos, n)
            && Naming.View(st.neg, n) == Naming.View(peer.neg, n)
            && Naming.View(st.clock, n) == Naming.View(peer.clock, n)
            && (Forgotten(st, n) <==> forall x :: ColonFree(x) ==> Get(peer.clock, CounterKey(n, x)) == 0)
  {
    Reachable(ids, run);
    var c := Exec(Start(ids), run);
    var peer := c.nodes[j].st;
    assert NodeInv(c, j);
    MergedView(c.nodes[i].st.pos, peer.pos, n);
    MergedView(c.nodes[i].st.neg, peer.neg, n);
    MergedView(c.nodes[i].st.clock, peer.clock, n);
    UnheardIsForgotten(c.log, peer, n);
  }

  lemma EmptyViewIff(m: Counts, n: string)
    requires Positive(m)
    ensures Naming.View(m, n) == map[] <==> forall x :: ColonFree(x) ==> Get(m, CounterKey(n, x)) == 0
  {
    var v := Naming.View(m, n);
    forall x ensures x in v <==> ColonFree(x) && Get(m, CounterKey(n, x)) != 0 {
      Naming.ViewDomain(m, n, x);
    }
    if forall x :: ColonFree(x) ==> Get(m, CounterKey(n, x)) == 0 {
      assert v.Keys == {};
    }
  }

  lemma UnheardIsForgotten(log: Log, st: State, n: string)
    requires HoldsPrefix(log, st)
    ensures Forgotten(st, n) <==> forall x :: ColonFree(x) ==> Get(st.clock, CounterKey(n, x)) == 0
  {
    forall k ensures Get(st.clock, k) == 0 ==> Get(st.pos, k) == 0 && Get(st.neg, k) == 0 {
      assert AtPrefix(OpsOf(log, k), st, k);
    }
    EmptyViewIff(st.pos, n);
    EmptyViewIff(st.neg, n);
    EmptyViewIff(st.clock, n);
  }

  /** One increment at a, from start-up. */
  lemma FirstOperation(d: Delta)
    ensures var run := [Operate(A, "", Inc(d))];
            && Legal(Start({A, B}), run)
            && var c := Exec(Start({A, B}), run);
               && Inv(c) && c.nodes.Keys == {A, B} && c.flights == map[]
               && Get(c.nodes[A].st.clock, A) == 1 && BaseOf(c.nodes[A].lastSync, B) == map[]
  {
    var run := [Operate(A, "", Inc(d))];
    assert run[1..] == [];
    Reachable({A, B}, run);
  }

  /** From there b answers a's push. */
  lemma PushAnswered(c: Cluster)
    requires Inv(c) && c.nodes.Keys == {A, B} && c.flights == map[]
    requires Get(c.nodes[A].st.clock, A) == 1 && BaseOf(c.nodes[A].lastSync, B) == map[]
    ensures var run := [Push(A, B, false), Answer(A, B)];
            Legal(c, run) && OperationFree(run) && Reaches(c, run, A, B)
  {
    var run := [Push(A, B, false), Answer(A, B)];
    assert NewerAt(c.nodes[A].st.clock, map[], A);
    assert Enabled(c, run[0]) && !IsSkippedPush(c, run[0]);
    assert run[1..] == [Answer(A, B)];
    assert Enabled(Do(c, run[0]), run[1]);
    assert run[1..][1..] == [];
    assert Answer(A, B) in run[1..];
  }

  /** A reachable input: a increments, b answers a's push, a resets and merges b's full state; the counter is
      back. */
  lemma ResetUndone(d: Delta)
    ensures var run := [Operate(A, "", Inc(d))] + [Push(A, B, false), Answer(A, B)];
            && Legal(Start({A, B}), run)
            && var c := Exec(Start({A, B}), run);
               A in c.nodes && B in c.nodes && !Forgotten(Join(Naming.ResetState(c.nodes[A].st, ""), c.nodes[B].st), "")
  {
    var start, first, rest := Start({A, B}), [Operate(A, "", Inc(d))], [Push(A, B, false), Answer(A, B)];
    FirstOperation(d);
    var c := Exec(start, first);
    PushAnswered(c);
    assert (first + rest)[1..] == rest && first[1..] == [];
    ReachedPeerCatchesUp(c, rest, A, B);
    ResetUndoneInRuns({A, B}, first + rest, A, B, "");
    assert CounterKey("", A) == A && ColonFree(A);
    assert Get(c.nodes[A].st.clock, A) <= Get(Exec(c, rest).nodes[B].st.clock, A);
  }

  // ----- the ordinary exchange after a reset -----

  /** The delta reply leaves key k out. */
  predicate LeavesOut(peer: State, req: Update, replied: Counts, k: string) {
    Get(peer.clock, k) <= Max(Get(req.clock, k), Get(replied, k))
  }

  /** A delta reply to a replica that has reset n, at any key of n: the replica gets the peer's clock entry back in any
      case, and the counts iff the peer's record of earlier replies does not cover the entry.  So it holds a prefix
      there iff the entry is not covered, or there is nothing. */
  lemma DeltaReplyAfterReset(l: seq<Op>, st: State, peer: State, req: Update, replied: Counts, n: string, k: string)
    requires AllPositive(st) && AllPositive(peer) && AtPrefix(l, peer, k)
    requires !req.full && Positive(req.clock) && KeyBelongsTo(n, k)
    ensures var st' := MergeUpdate(Naming.ResetState(st, n), Reply(peer, req, replied));
            && Get(st'.clock, k) == Get(peer.clock, k)
            && Get(st'.pos, k) == (if LeavesOut(peer, req, replied, k) then 0 else Get(peer.pos, k))
            && Get(st'.neg, k) == (if LeavesOut(peer, req, replied, k) then 0 else Get(peer.neg, k))
            && (AtPrefix(l, st', k) <==> !LeavesOut(peer, req, replied, k) || Get(peer.clock, k) == 0)
  {
    var reset, base := Naming.ResetState(st, n), ReplyBase(req, replied);
    MergeGetAt(req.clock, replied, k);
    ResetMap(st.pos, peer.pos, peer.clock, base, n, k);
    ResetMap(st.neg, peer.neg, peer.clock, base, n, k);
    MergeGetAt(reset.clock, peer.clock, k);
    UpToMonotone(l, 0, Get(peer.clock, k));
  }

  /** One map, after the reset and the merge of what a delta carries, at one key of n. */
  lemma ResetMap(m: Counts, theirs: Counts, clock: Counts, base: Counts, n: string, k: string)
    requires KeyBelongsTo(n, k) && (k in theirs ==> theirs[k] > 0)
    ensures Get(MergeMax(Naming.Without(m, n), Newer(theirs, clock, base)), k) ==
            if NewerAt(clock, base, k) then Get(theirs, k) else 0
  {
    FilteredMap(Naming.Without(m, n), theirs, clock, base, k);
  }

  /** In every run: after replica i resets n, a delta reply from j to any request breaks i's prefix at some key of n
      iff j's record for i, or the request, covers an entry that j has there. */
  lemma DeltaReplyBreaksIff(ids: set<NodeId>, run: seq<Step>, i: NodeId, j: NodeId, n: string, req: Update)
    requires forall x :: x in ids ==> ColonFree(x)
    requires Legal(Start(ids), run) && i in ids && j in ids && !req.full && Positive(req.clock)
    ensures var c := Exec(Start(ids), run);
            i in c.nodes && j in c.nodes &&
            var peer, replied := c.nodes[j].st, BaseOf(c.nodes[j].replied, i);
            var st' := MergeUpdate(Naming.ResetState(c.nodes[i].st, n), Reply(peer, req, replied));
            (forall k :: KeyBelongsTo(n, k) ==> AtPrefix(OpsOf(c.log, k), st', k)) <==>
            (forall k :: KeyBelongsTo(n, k) && Get(peer.clock, k) > 0 ==> !LeavesOut(peer, req, replied, k))
  {
    Reachable(ids, run);
    var c := Exec(Start(ids), run);
    var peer, replied := c.nodes[j].st, BaseOf(c.nodes[j].replied, i);
    assert NodeInv(c, i) && NodeInv(c, j);
    var st' := MergeUpdate(Naming.ResetState(c.nodes[i].st, n), Reply(peer, req, replied));
    forall k | KeyBelongsTo(n, k)
      ensures AtPrefix(OpsOf(c.log, k), st', k) <==>
              (Get(peer.clock, k) > 0 ==> !LeavesOut(peer, req, replied, k))
    {
      assert AtPrefix(OpsOf(c.log, k), peer, k);
      DeltaReplyAfterReset(OpsOf(c.log, k), c.nodes[i].st, peer, req, replied, n, k);
    }
  }

  /** Answering a delta request, a responder records at least its own clock. */
  lemma AnswerRecords(n: Node, i: NodeId, req: Update)
    requires AllPositive(n.st) && !req.full
    ensures Leq(Respond(n, i, req).st.clock, BaseOf(Respond(n, i, req).replied, i))
  {
    var st := MergeUpdate(n.st, req);
    MergeGet(n.st.clock, req.clock);
    MergeBounds(st.clock, req.clock, st.clock);
  }

  /** What b does with a's first push. */
  lemma PushThenAnswer(c: Cluster)
    requires c.nodes.Keys == {A, B} && c.flights == map[]
    requires Get(c.nodes[A].st.clock, A) == 1 && BaseOf(c.nodes[A].lastSync, B) == map[]
    requires Legal(c, [Push(A, B, false), Answer(A, B)])
    ensures var end := Exec(c, [Push(A, B, false), Answer(A, B)]);
            B in end.nodes && end.nodes[B] == Respond(c.nodes[B], A, DeltaUpdate(c.nodes[A].st, map[]))
  {
    var run, st := [Push(A, B, false), Answer(A, B)], c.nodes[A].st;
    var last := [Answer(A, B)];
    assert run[1..] == last && last[1..] == [];
    assert NewerAt(st.clock, map[], A);
    var c1 := Do(c, run[0]);
    assert c1.nodes == c.nodes && c1.flights[(A, B)].req == DeltaUpdate(st, map[]);
    assert Exec(c, run) == Exec(c1, last);
    assert Exec(c1, last) == Exec(Do(c1, last[0]), last[1..]);
  }

  /** b has answered a's push; the record that b keeps for a covers b's clock. */
  lemma PushedRecord(c: Cluster)
    requires c.nodes.Keys == {A, B} && c.flights == map[] && AllPositive(c.nodes[B].st)
    requires Get(c.nodes[A].st.clock, A) == 1 && BaseOf(c.nodes[A].lastSync, B) == map[]
    requires Legal(c, [Push(A, B, false), Answer(A, B)])
    ensures var end := Exec(c, [Push(A, B, false), Answer(A, B)]);
            B in end.nodes && Leq(end.nodes[B].st.clock, BaseOf(end.nodes[B].replied, A))
  {
    PushThenAnswer(c);
    AnswerRecords(c.nodes[B], A, DeltaUpdate(c.nodes[A].st, map[]));
  }

  lemma ClaimsWithoutCounts(c: Cluster, req: Update)
    requires Inv(c) && c.nodes.Keys == {A, B} && !req.full && Positive(req.clock)
    requires 1 <= Get(c.nodes[B].st.clock, A) && Leq(c.nodes[B].st.clock, BaseOf(c.nodes[B].replied, A))
    ensures var u := Reply(c.nodes[B].st, req, BaseOf(c.nodes[B].replied, A));
            !AtPrefix(OpsOf(c.log, A), MergeUpdate(Naming.ResetState(c.nodes[A].st, ""), u), A)
  {
    var peer, replied := c.nodes[B].st, BaseOf(c.nodes[B].replied, A);
    assert NodeInv(c, A) && NodeInv(c, B);
    assert AtPrefix(OpsOf(c.log, A), peer, A);
    assert Get(peer.clock, A) <= Get(replied, A);
    DeltaReplyAfterReset(OpsOf(c.log, A), c.nodes[A].st, peer, req, replied, "", A);
  }

  /** A reachable input: a increments, b answers a's push and a resets; whatever delta request a then sends, b's reply
      gives a the clock entry back without the counts. */
  lemma ResetNodeClaimsWithoutCounts(d: Delta, req: Update)
    requires !req.full && Positive(req.clock)
    ensures var run := [Operate(A, "", Inc(d))] + [Push(A, B, false), Answer(A, B)];
            && Legal(Start({A, B}), run)
            && var c := Exec(Start({A, B}), run);
               A in c.nodes && B in c.nodes &&
               var u := Reply(c.nodes[B].st, req, BaseOf(c.nodes[B].replied, A));
               !AtPrefix(OpsOf(c.log, A), MergeUpdate(Naming.ResetState(c.nodes[A].st, ""), u), A)
  {
    var first, rest := [Operate(A, "", Inc(d))], [Push(A, B, false), Answer(A, B)];
    FirstOperation(d);
    var c := Exec(Start({A, B}), first);
    PushAnswered(c);
    assert NodeInv(c, B);
    PushedRecord(c);
    ReachedPeerCatchesUp(c, rest, A, B);
    assert Get(c.nodes[A].st.clock, A) <= Get(Exec(c, rest).nodes[B].st.clock, A);
    assert (first + rest)[1..] == rest && first[1..] == [];
    Reachable({A, B}, first + rest);
    ClaimsWithoutCounts(Exec(c, rest), req);
  }
}
