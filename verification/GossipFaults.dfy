/** Where delta gossip stops agreeing with full-state gossip, and exactly when: lost delta replies, torn push
    snapshots and negative deltas.  Each law is an equivalence over all states, with a concrete
    run that breaks it. */
module GossipFaults {
  import opened GoMaps
  import opened Keys
  import opened Replica
  import opened GossipCluster

  // ----- filtering against a base -----

  /** At one key: the filtered merge misses something iff the base hides the key while the sender counts more there. */
  lemma FilterAtKey(recv: State, send: State, base: Counts, k: string)
    requires AllPositive(recv) && AllPositive(send) && 0 <= Get(base, k)
    ensures var a, b := MergeUpdate(recv, DeltaUpdate(send, base)), Join(recv, send);
            (Get(a.pos, k) == Get(b.pos, k) && Get(a.neg, k) == Get(b.neg, k)) <==> ShownAt(recv, send, base, k)
  {
    FilteredMap(recv.pos, send.pos, send.clock, base, k);
    FilteredMap(recv.neg, send.neg, send.clock, base, k);
    MergeGetAt(recv.pos, send.pos, k);
    MergeGetAt(recv.neg, send.neg, k);
  }

  /** One map of a delta, merged, at one key. */
  lemma FilteredMap(mine: Counts, theirs: Counts, clock: Counts, base: Counts, k: string)
    requires k in mine ==> mine[k] > 0
    ensures Get(MergeMax(mine, Newer(theirs, clock, base)), k) ==
            if NewerAt(clock, base, k) then Max(Get(mine, k), Get(theirs, k)) else Get(mine, k)
  {
    MergeGetAt(mine, Newer(theirs, clock, base), k);
  }

  /** If the base covers the sender's clock entry, the receiver's counts are not behind. */
  predicate ShownAt(recv: State, send: State, base: Counts, k: string) {
    Get(send.clock, k) <= Get(base, k) ==> Get(send.pos, k) <= Get(recv.pos, k) && Get(send.neg, k) <= Get(recv.neg, k)
  }

  /** For all states: a delta against any base merges like the full state iff the sender has no larger count at any
      key whose clock entry the base covers. */
  lemma DeltaMergesLikeFullIff(recv: State, send: State, base: Counts)
    requires AllPositive(recv) && AllPositive(send) && Positive(base)
    ensures MergeUpdate(recv, DeltaUpdate(send, base)) == Join(recv, send) <==> forall k :: ShownAt(recv, send, base, k)
  {
    var a, b := MergeUpdate(recv, DeltaUpdate(send, base)), Join(recv, send);
    MergeIsPositive(recv, DeltaUpdate(send, base));
    MergeIsPositive(recv, FullUpdate(send));
    forall k
      ensures (Get(a.pos, k) == Get(b.pos, k) && Get(a.neg, k) == Get(b.neg, k)) <==> ShownAt(recv, send, base, k)
    {
      FilterAtKey(recv, send, base, k);
    }
    if forall k :: ShownAt(recv, send, base, k) {
      Extensional(a.pos, b.pos);
      Extensional(a.neg, b.neg);
    }
  }

  /** The base covers no key on which the receiver is behind the sender. */
  ghost predicate HidesNothing(recv: Counts, send: Counts, base: Counts) {
    forall k :: Get(send, k) > Get(recv, k) ==> Get(send, k) > Get(base, k)
  }

  lemma ShownByClocks(log: Log, recv: State, send: State, base: Counts, k: string)
    requires HoldsPrefix(log, recv) && HoldsPrefix(log, send)
    ensures ShownAt(recv, send, base, k) <==>
            (Get(send.clock, k) > Get(recv.clock, k) ==> Get(send.clock, k) > Get(base, k))
  {
    var l := OpsOf(log, k);
    assert AtPrefix(l, recv, k) && AtPrefix(l, send, k);
    var n, m := Get(recv.clock, k), Get(send.clock, k);
    if n <= m { UpToMonotone(l, n, m); } else { UpToMonotone(l, m, n); }
  }

  /** Between two prefixes the clocks decide: the base must cover no key on which the receiver is behind. */
  lemma PrefixDeltaIff(log: Log, recv: State, send: State, base: Counts)
    requires HoldsPrefix(log, recv) && HoldsPrefix(log, send) && Positive(base)
    ensures MergeUpdate(recv, DeltaUpdate(send, base)) == Join(recv, send) <==>
            HidesNothing(recv.clock, send.clock, base)
  {
    DeltaMergesLikeFullIff(recv, send, base);
    forall k ensures ShownAt(recv, send, base, k) <==>
      (Get(send.clock, k) > Get(recv.clock, k) ==> Get(send.clock, k) > Get(base, k))
    {
      ShownByClocks(log, recv, send, base, k);
    }
  }

  lemma MergeIsPositive(st: State, u: Update)
    requires AllPositive(st)
    ensures AllPositive(MergeUpdate(st, u))
  {
    MergeGet(st.pos, u.pos);
    MergeGet(st.neg, u.neg);
    MergeGet(st.clock, u.clock);
  }

  /** The delta reply of a responder that has recorded `replied` for the sender, whatever happened to earlier replies
      and whatever they left behind: it merges like a full reply iff the responder has no larger count at any key
      whose clock entry the request's clock or that record covers. */
  lemma ReplyMergesLikeFullIff(sender: State, responder: State, req: Update, replied: Counts)
    requires AllPositive(sender) && AllPositive(responder) && !req.full && Positive(req.clock)
    ensures MergeUpdate(sender, Reply(responder, req, replied)) == Join(sender, responder) <==>
            forall k :: AnsweredAt(sender, responder, req, replied, k)
  {
    var base := ReplyBase(req, replied);
    MergeGet(req.clock, replied);
    DeltaMergesLikeFullIff(sender, responder, base);
    forall k ensures AnsweredAt(sender, responder, req, replied, k) <==> ShownAt(sender, responder, base, k) {
      MergeGetAt(req.clock, replied, k);
    }
  }

  /** If the request's clock or the record covers the responder's clock entry, the sender's counts are not behind. */
  predicate AnsweredAt(sender: State, responder: State, req: Update, replied: Counts, k: string) {
    Get(responder.clock, k) <= Max(Get(req.clock, k), Get(replied, k)) ==>
      Get(responder.pos, k) <= Get(sender.pos, k) && Get(responder.neg, k) <= Get(sender.neg, k)
  }

  /** Between two prefixes: iff no key on which the sender is behind is covered by the request or the record. */
  lemma PrefixReplyIff(log: Log, sender: State, responder: State, req: Update, replied: Counts)
    requires HoldsPrefix(log, sender) && HoldsPrefix(log, responder)
    requires !req.full && Positive(req.clock)
    ensures MergeUpdate(sender, Reply(responder, req, replied)) == Join(sender, responder) <==>
            forall k :: Get(responder.clock, k) > Get(sender.clock, k) ==>
              Get(responder.clock, k) > Max(Get(req.clock, k), Get(replied, k))
  {
    var base := ReplyBase(req, replied);
    MergeGet(req.clock, replied);
    PrefixDeltaIff(log, sender, responder, base);
    assert HidesNothing(sender.clock, responder.clock, base) <==>
      forall k :: Get(responder.clock, k) > Get(sender.clock, k) ==>
        Get(responder.clock, k) > Max(Get(req.clock, k), Get(replied, k));
  }

  // ----- a lost delta reply -----

  /** If the responder has recorded a reply covering key k that the sender never got, its next delta reply
      hides k: the sender's clock takes over the entry, its counts do not, and the prefix is broken. */
  lemma LostReplyHidesKey(log: Log, sender: State, responder: State, req: Update, replied: Counts, k: string)
    requires HoldsPrefix(log, sender) && HoldsPrefix(log, responder)
    requires !req.full && Positive(req.clock)
    requires Get(sender.clock, k) < Get(responder.clock, k) <= Get(replied, k)
    ensures var st' := MergeUpdate(sender, Reply(responder, req, replied));
            && Get(st'.clock, k) == Get(responder.clock, k)
            && Get(st'.pos, k) == Get(sender.pos, k) && Get(st'.neg, k) == Get(sender.neg, k)
            && !AtPrefix(OpsOf(log, k), st', k)
  {
    var l := OpsOf(log, k);
    assert AtPrefix(l, sender, k) && AtPrefix(l, responder, k);
    MergeGet(req.clock, replied);
    var u := Reply(responder, req, replied);
    assert !NewerAt(responder.clock, ReplyBase(req, replied), k);
    assert k !in u.pos && k !in u.neg;
    MergeGet(sender.clock, u.clock);
    UpToMonotone(l, Get(sender.clock, k), Get(responder.clock, k));
  }

  const A: string := "a"
  const B: string := "b"

  /** b answers a's first request and records the reply, which is lost. */
  lemma FirstAnswer()
    ensures Respond(Node(State(map[B := 5], map[], map[B := 1]), map[], map[]), A,
                    Update(false, map[A := 1], map[], map[A := 1])) ==
            Node(State(map[B := 5, A := 1], map[], map[B := 1, A := 1]), map[], map[A := map[B := 1, A := 1]])
  {
    assert MergeMax(map[B := 1], map[A := 1]) == map[B := 1, A := 1];
    assert MergeMax(map[B := 1, A := 1], map[A := 1]) == map[B := 1, A := 1];
  }

  /** After one more operation a asks again, and b's record says that a already has b's operation. */
  lemma SecondAnswer()
    ensures var req := Update(false, map[A := 2], map[], map[A := 2]);
            var b := Node(State(map[B := 5, A := 1], map[], map[B := 1, A := 1]), map[], map[A := map[B := 1, A := 1]]);
            Reply(Respond(b, A, req).st, req, BaseOf(b.replied, A)) ==
              Update(false, map[], map[], map[B := 1, A := 2])
  {
    var req := Update(false, map[A := 2], map[], map[A := 2]);
    assert MergeMax(map[B := 1, A := 1], map[A := 2]) == map[B := 1, A := 2];
    assert MergeMax(map[A := 2], map[B := 1, A := 1]) == map[B := 1, A := 2];
  }

  lemma RequestsOfA()
    ensures ApplyOp(EMPTY, A, Inc(1)) == State(map[A := 1], map[], map[A := 1])
    ensures ApplyOp(State(map[A := 1], map[], map[A := 1]), A, Inc(1)) == State(map[A := 2], map[], map[A := 2])
    ensures ApplyOp(EMPTY, B, Inc(5)) == State(map[B := 5], map[], map[B := 1])
    ensures forall n :: n > 0 ==>
      Request(State(map[A := n], map[], map[A := n]), map[], false) == Update(false, map[A := n], map[], map[A := n])
  {
    forall n | n > 0 ensures Newer(map[A := n], map[A := n], map[]) == map[A := n] {
    }
  }

  lemma ClaimWithoutCounts()
    ensures var a2 := Finish(Node(State(map[A := 2], map[], map[A := 2]), map[], map[]), B, map[A := 2],
                             Update(false, map[], map[], map[B := 1, A := 2]));
            && Get(a2.st.clock, B) == 1 && Get(a2.st.pos, B) == 0
            && Skips(a2.st, BaseOf(a2.lastSync, B), false)
  {
    assert MergeMax(map[A := 2], map[B := 1, A := 2]) == map[B := 1, A := 2];
  }

  /** The run: one increment at each of two replicas, a round whose reply is lost, one more increment at a,
      a complete round.  a then claims b's operation without its counts and skips b from now on. */
  lemma LostReplyRun()
    ensures var req1 := Update(false, map[A := 1], map[], map[A := 1]);
            var req2 := Update(false, map[A := 2], map[], map[A := 2]);
            var a0, b0 := ApplyOp(EMPTY, A, Inc(1)), Node(ApplyOp(EMPTY, B, Inc(5)), map[], map[]);
            var a1 := ApplyOp(a0, A, Inc(1));
            var b1 := Respond(b0, A, req1);
            var b2 := Respond(b1, A, req2);
            var a2 := Finish(Node(a1, map[], map[]), B, a1.clock, Reply(b2.st, req2, BaseOf(b1.replied, A)));
            && req1 == Request(a0, map[], false) && req2 == Request(a1, map[], false)
            && Get(a2.st.clock, B) == 1 && Get(a2.st.pos, B) == 0
            && Skips(a2.st, BaseOf(a2.lastSync, B), false)
  {
    RequestsOfA();
    FirstAnswer();
    SecondAnswer();
    ClaimWithoutCounts();
  }

  // ----- repair by the full state -----

  /** At k the clock entry may have run ahead of the counts, not the other way round. */
  ghost predicate LaggingAt(l: seq<Op>, st: State, k: string) {
    var n := Get(st.clock, k);
    0 <= n <= |l| && Get(st.pos, k) <= PosUpTo(l, n) && Get(st.neg, k) <= NegUpTo(l, n)
  }

  ghost predicate Lagging(log: Log, st: State) {
    AllPositive(st) && forall k :: LaggingAt(OpsOf(log, k), st, k)
  }

  /** A FULL_STATE from a replica that holds a prefix, at any key where its clock is not behind: the receiver takes
      over the clock entry and has at least the counts it claims, exactly those iff its own were not above them,
      in particular if they lagged. */
  lemma FullStateRepairsKey(log: Log, st: State, src: State, k: string)
    requires AllPositive(st) && HoldsPrefix(log, src) && Get(st.clock, k) <= Get(src.clock, k)
    ensures var st', l, n := MergeUpdate(st, FullUpdate(src)), OpsOf(log, k), Get(src.clock, k);
            && 0 <= n <= |l| && Get(st'.clock, k) == n
            && PosUpTo(l, n) <= Get(st'.pos, k) && NegUpTo(l, n) <= Get(st'.neg, k)
            && (AtPrefix(l, st', k) <==> Get(st.pos, k) <= Get(src.pos, k) && Get(st.neg, k) <= Get(src.neg, k))
            && (LaggingAt(l, st, k) ==> AtPrefix(l, st', k))
  {
    var l := OpsOf(log, k);
    assert AtPrefix(l, src, k);
    MergeGet(st.pos, src.pos);
    MergeGet(st.neg, src.neg);
    MergeGet(st.clock, src.clock);
    if LaggingAt(l, st, k) {
      UpToMonotone(l, Get(st.clock, k), Get(src.clock, k));
    }
  }

  // ----- a torn push snapshot -----

  /** No increments, respectively no decrements, among operations from..to. */
  predicate NoIncrements(l: seq<Op>, from: nat, to: nat)
    requires from <= to <= |l|
  {
    forall x :: from <= x < to ==> l[x].Dec?
  }

  predicate NoDecrements(l: seq<Op>, from: nat, to: nat)
    requires from <= to <= |l|
  {
    forall x :: from <= x < to ==> l[x].Inc?
  }

  lemma {:induction false} SumUnchangedIff(l: seq<Op>, from: nat, to: nat)
    requires from <= to <= |l|
    ensures PosUpTo(l, from) == PosUpTo(l, to) <==> NoIncrements(l, from, to)
    ensures NegUpTo(l, from) == NegUpTo(l, to) <==> NoDecrements(l, from, to)
  {
    if from < to {
      SumUnchangedIff(l, from, to - 1);
      UpToMonotone(l, from, to - 1);
      assert NoIncrements(l, from, to) <==> NoIncrements(l, from, to - 1) && l[to - 1].Dec?;
      assert NoDecrements(l, from, to) <==> NoDecrements(l, from, to - 1) && l[to - 1].Inc?;
    }
  }

  /** The push snapshot reads positive, then negative, then the clock, each under its own lock.  What it
      sends at key k is a causal prefix iff no increment reached the node between the first and the third
      read and no decrement between the second and the third. */
  lemma TornPushIsExactIff(log: Log, first: State, second: State, third: State, k: string)
    requires HoldsPrefix(log, first) && HoldsPrefix(log, second) && HoldsPrefix(log, third)
    requires Get(first.clock, k) <= Get(second.clock, k) <= Get(third.clock, k)
    ensures AtPrefix(OpsOf(log, k), first, k) && AtPrefix(OpsOf(log, k), second, k) && AtPrefix(OpsOf(log, k), third, k)
    ensures AtPrefix(OpsOf(log, k), State(first.pos, second.neg, third.clock), k) <==>
            && NoIncrements(OpsOf(log, k), Get(first.clock, k), Get(third.clock, k))
            && NoDecrements(OpsOf(log, k), Get(second.clock, k), Get(third.clock, k))
  {
    var l := OpsOf(log, k);
    assert AtPrefix(l, first, k) && AtPrefix(l, second, k) && AtPrefix(l, third, k);
    SumUnchangedIff(l, Get(first.clock, k), Get(third.clock, k));
    SumUnchangedIff(l, Get(second.clock, k), Get(third.clock, k));
  }

  /** However it is torn, the push only ever sends counts that lag behind the clock it sends. */
  lemma TornPushLags(log: Log, first: State, second: State, third: State)
    requires HoldsPrefix(log, first) && HoldsPrefix(log, second) && HoldsPrefix(log, third)
    requires Leq(first.clock, second.clock) && Leq(second.clock, third.clock)
    ensures Lagging(log, State(first.pos, second.neg, third.clock))
  {
    forall k ensures LaggingAt(OpsOf(log, k), State(first.pos, second.neg, third.clock), k) {
      var l := OpsOf(log, k);
      assert AtPrefix(l, first, k) && AtPrefix(l, second, k) && AtPrefix(l, third, k);
      assert Get(first.clock, k) <= Get(second.clock, k) <= Get(third.clock, k);
      UpToMonotone(l, Get(first.clock, k), Get(third.clock, k));
      UpToMonotone(l, Get(second.clock, k), Get(third.clock, k));
    }
  }

  /** One increment between the reads: the torn snapshot claims an operation it does not carry. */
  lemma TornPushBreaks()
    ensures var log: Log := map[A := [Inc(3)]];
            var before, after := EMPTY, ApplyOp(EMPTY, A, Inc(3));
            && HoldsPrefix(log, before) && HoldsPrefix(log, after)
            && !AtPrefix(OpsOf(log, A), State(before.pos, before.neg, after.clock), A)
  {
    var log: Log := map[A := [Inc(3)]];
    var after := ApplyOp(EMPTY, A, Inc(3));
    assert PosUpTo([Inc(3)], 1) == PosUpTo([Inc(3)], 0) + 3;
    assert NegUpTo([Inc(3)], 1) == NegUpTo([Inc(3)], 0);
    forall k ensures AtPrefix(OpsOf(log, k), after, k) && AtPrefix(OpsOf(log, k), EMPTY, k) {
    }
  }

  // ----- negative deltas -----

  /** A peer in sync with the writer sees an increment by d through the merge iff d is not negative. */
  lemma IncrementVisibleIff(pos: Counts, k: string, d: int)
    requires Positive(pos)
    ensures Get(MergeMax(pos, Bump(pos, k, d)), k) == Get(pos, k) + d <==> d >= 0
  {
  }
}
