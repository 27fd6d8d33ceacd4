/** Crash recovery: a stored snapshot and a write-ahead log of the mutations since. */
module Recovery {
  import opened GoMaps
  import opened Keys
  import opened Replica
  import opened Naming

  /** The mutations that are logged. */
  datatype Mutation =
    | LogInc(counter: string, d: int)
    | LogDec(counter: string, d: int)
    | LogReset(counter: string)
    | LogMerge(pos: Counts, neg: Counts, clock: Counts)

  datatype Entry = Entry(number: nat, m: Mutation)

  /** What one mutation does to the live state of replica `node`, and what replaying its entry does. */
  function Apply(st: State, node: string, m: Mutation): State {
    match m
    case LogInc(c, d) => State(Bump(st.pos, CounterKey(c, node), d), st.neg, Bump(st.clock, CounterKey(c, node), 1))
    case LogDec(c, d) => State(st.pos, Bump(st.neg, CounterKey(c, node), d), Bump(st.clock, CounterKey(c, node), 1))
    case LogReset(c) => ResetState(st, c)
    case LogMerge(p, n, c) => Absorb(st, p, n, c)
  }

  /** The logged mutations are the operations and merges of the gossip model. */
  lemma MutationsAreOperations(st: State, node: string, c: string, d: Delta, u: Update)
    ensures Apply(st, node, LogInc(c, d)) == ApplyOp(st, CounterKey(c, node), Inc(d))
    ensures Apply(st, node, LogDec(c, d)) == ApplyOp(st, CounterKey(c, node), Dec(d))
    ensures Apply(st, node, LogMerge(u.pos, u.neg, u.clock)) == MergeUpdate(st, u)
  {
  }

  function Replay(st: State, node: string, log: seq<Entry>): State
    decreases |log|
  {
    if log == [] then st else Replay(Apply(st, node, log[0].m), node, log[1..])
  }

  lemma {:induction false} ReplayAppend(st: State, node: string, log: seq<Entry>, e: Entry)
    ensures Replay(st, node, log + [e]) == Apply(Replay(st, node, log), node, e.m)
    decreases |log|
  {
    if log == [] {
      assert log + [e] == [e];
      assert [e][1..] == [];
    } else {
      assert (log + [e])[1..] == log[1..] + [e];
      ReplayAppend(Apply(st, node, log[0].m), node, log[1..], e);
    }
  }

  /** What survives a crash: the store's cell and the log file. */
  datatype Disk = Disk(store: State, log: seq<Entry>)

  /** Restore into empty maps, then replay. */
  function Recover(node: string, d: Disk): State {
    Replay(Join(EMPTY, d.store), node, d.log)
  }

  /** Restoring is exact iff every stored entry is above zero: entries at or below zero lose to the missing
      key they are merged into. */
  lemma RestoreExactIff(st: State)
    ensures Join(EMPTY, st) == st <==> AllPositive(st)
  {
    MergeIntoEmptyIff(st.pos);
    MergeIntoEmptyIff(st.neg);
    MergeIntoEmptyIff(st.clock);
  }

  // ----- a running service over its disk -----

  datatype Service = Service(node: string, st: State, disk: Disk, last: nat)

  datatype Act =
    | Mutate(m: Mutation)
    | Snapshot
    | Restart

  /** Deltas above zero; everything else is unrestricted. */
  predicate Sound(a: Act) {
    a.Mutate? && (a.m.LogInc? || a.m.LogDec?) ==> a.m.d > 0
  }

  function LastNumber(log: seq<Entry>): nat {
    if log == [] then 0 else
      var rest := LastNumber(log[..|log| - 1]);
      if log[|log| - 1].number > rest then log[|log| - 1].number else rest
  }

  /** A mutation is applied and logged under the next number; a snapshot saves and truncates; a restart
      starts counting at zero and takes the largest number it replays. */
  function Perform(s: Service, a: Act): Service {
    match a
    case Mutate(m) =>
      Service(s.node, Apply(s.st, s.node, m), s.disk.(log := s.disk.log + [Entry(s.last + 1, m)]), s.last + 1)
    case Snapshot => Service(s.node, s.st, Disk(s.st, []), 0)
    case Restart => Service(s.node, Recover(s.node, s.disk), s.disk, LastNumber(s.disk.log))
  }

  function PerformAll(s: Service, run: seq<Act>): Service
    decreases |run|
  {
    if run == [] then s else PerformAll(Perform(s, run[0]), run[1..])
  }

  function NewService(node: string): Service {
    Service(node, EMPTY, Disk(EMPTY, []), 0)
  }

  predicate Increasing(log: seq<Entry>) {
    forall x, y :: 0 <= x < y < |log| ==> log[x].number < log[y].number
  }

  /** Numbers increase up to `last`, which is the largest. */
  ghost predicate Numbered(log: seq<Entry>, last: nat) {
    Increasing(log) && last == LastNumber(log) && forall x :: 0 <= x < |log| ==> log[x].number <= last
  }

  /** The live state st of a replica can be recovered from its disk, and its log is numbered up to `last`. */
  ghost predicate Durable(node: string, disk: Disk, last: nat, st: State) {
    AllPositive(st) && AllPositive(disk.store) && Recover(node, disk) == st && Numbered(disk.log, last)
  }

  ghost predicate ServiceInv(s: Service) {
    Durable(s.node, s.disk, s.last, s.st)
  }

  lemma ApplyKeepsPositive(st: State, node: string, m: Mutation)
    requires AllPositive(st) && Sound(Mutate(m))
    ensures AllPositive(Apply(st, node, m))
  {
    match m
    case LogInc(c, d) => BumpGet(st.pos, CounterKey(c, node), d); BumpGet(st.clock, CounterKey(c, node), 1);
    case LogDec(c, d) => BumpGet(st.neg, CounterKey(c, node), d); BumpGet(st.clock, CounterKey(c, node), 1);
    case LogReset(_) =>
    case LogMerge(p, n, c) => MergeGet(st.pos, p); MergeGet(st.neg, n); MergeGet(st.clock, c);
  }

  lemma NumberedAppend(log: seq<Entry>, last: nat, m: Mutation)
    requires Numbered(log, last)
    ensures Numbered(log + [Entry(last + 1, m)], last + 1)
  {
    assert (log + [Entry(last + 1, m)])[..|log|] == log;
  }

  lemma RecoverAppend(node: string, store: State, log: seq<Entry>, e: Entry)
    ensures Recover(node, Disk(store, log + [e])) == Apply(Recover(node, Disk(store, log)), node, e.m)
  {
    ReplayAppend(Join(EMPTY, store), node, log, e);
  }

  /** A mutation that is applied and logged stays recoverable. */
  lemma DurableAppend(node: string, store: State, log: seq<Entry>, last: nat, st: State, m: Mutation)
    requires Durable(node, Disk(store, log), last, st) && Sound(Mutate(m))
    ensures Durable(node, Disk(store, log + [Entry(last + 1, m)]), last + 1, Apply(st, node, m))
  {
    ApplyKeepsPositive(st, node, m);
    RecoverAppend(node, store, log, Entry(last + 1, m));
    NumberedAppend(log, last, m);
  }

  lemma DurableSnapshot(node: string, st: State)
    requires AllPositive(st)
    ensures Durable(node, Disk(st, []), 0, st)
  {
    RestoreExactIff(st);
  }

  lemma MutateInv(s: Service, m: Mutation)
    requires ServiceInv(s) && Sound(Mutate(m))
    ensures ServiceInv(Perform(s, Mutate(m)))
  {
    DurableAppend(s.node, s.disk.store, s.disk.log, s.last, s.st, m);
  }

  lemma SnapshotInv(s: Service)
    requires ServiceInv(s)
    ensures ServiceInv(Perform(s, Snapshot))
  {
    DurableSnapshot(s.node, s.st);
  }

  lemma ActInv(s: Service, a: Act)
    requires ServiceInv(s) && Sound(a)
    ensures ServiceInv(Perform(s, a))
  {
    match a
    case Mutate(m) => MutateInv(s, m);
    case Snapshot => SnapshotInv(s);
    case Restart =>
  }

  /** Recovery equals live state.  After any run of increments, decrements, resets, remote merges, atomic
      snapshots and restarts, restoring the store and replaying the log gives exactly the live maps, and log
      numbers increase strictly and never exceed the counter the next entry is numbered from. */
  lemma RecoveryEqualsLiveState(node: string, run: seq<Act>)
    requires forall a :: a in run ==> Sound(a)
    ensures var s := PerformAll(NewService(node), run);
            && Recover(s.node, s.disk) == s.st
            && Increasing(s.disk.log)
            && forall x :: 0 <= x < |s.disk.log| ==> s.disk.log[x].number <= s.last
  {
    RestoreExactIff(EMPTY);
    RunKeepsInv(NewService(node), run);
  }

  /** Truncate starts the numbers over: across a snapshot they keep increasing iff nothing was logged before it.
      Across a restart they always continue where they were. */
  lemma NumberingContinuesIff(node: string, run: seq<Act>, m: Mutation)
    requires forall a :: a in run ==> Sound(a)
    ensures var s := PerformAll(NewService(node), run);
            && (Perform(Perform(s, Snapshot), Mutate(m)).last > s.last <==> s.disk.log == [])
            && Perform(Perform(s, Restart), Mutate(m)).last == s.last + 1
  {
    RestoreExactIff(EMPTY);
    RunKeepsInv(NewService(node), run);
    NumbersAboveZero(NewService(node), run);
    NextNumber(PerformAll(NewService(node), run), m);
  }

  lemma NextNumber(s: Service, m: Mutation)
    requires Numbered(s.disk.log, s.last) && NumbersFromOne(s.disk.log)
    ensures Perform(Perform(s, Snapshot), Mutate(m)).last > s.last <==> s.disk.log == []
    ensures Perform(Perform(s, Restart), Mutate(m)).last == s.last + 1
  {
    if s.disk.log != [] {
      assert s.disk.log[0].number <= s.last;
    }
  }

  ghost predicate NumbersFromOne(log: seq<Entry>) {
    forall x :: 0 <= x < |log| ==> log[x].number > 0
  }

  lemma {:induction false} NumbersAboveZero(s: Service, run: seq<Act>)
    requires NumbersFromOne(s.disk.log)
    ensures NumbersFromOne(PerformAll(s, run).disk.log)
    decreases |run|
  {
    if run != [] {
      assert NumbersFromOne(Perform(s, run[0]).disk.log);
      NumbersAboveZero(Perform(s, run[0]), run[1..]);
    }
  }

  lemma {:induction false} RunKeepsInv(s: Service, run: seq<Act>)
    requires ServiceInv(s) && forall a :: a in run ==> Sound(a)
    ensures ServiceInv(PerformAll(s, run))
    decreases |run|
  {
    if run != [] {
      assert run[0] in run;
      ActInv(s, run[0]);
      RunKeepsInv(Perform(s, run[0]), run[1..]);
    }
  }

  // ----- one key at a time -----

  datatype At = At(pos: int, neg: int, tick: int)

  function Look(st: State, k: string): At {
    At(Get(st.pos, k), Get(st.neg, k), Get(st.clock, k))
  }

  function MaxWith(v: int, m: Counts, k: string): int {
    if k in m && m[k] > v then m[k] else v
  }

  predicate Resets(m: Mutation, k: string) {
    m.LogReset? && KeyBelongsTo(m.counter, k)
  }

  /** Every mutation acts on each key separately. */
  function ApplyAt(v: At, node: string, m: Mutation, k: string): At {
    match m
    case LogInc(c, d) => if CounterKey(c, node) == k then At(v.pos + d, v.neg, v.tick + 1) else v
    case LogDec(c, d) => if CounterKey(c, node) == k then At(v.pos, v.neg + d, v.tick + 1) else v
    case LogReset(c) => if KeyBelongsTo(c, k) then At(0, 0, 0) else v
    case LogMerge(p, n, c) => At(MaxWith(v.pos, p, k), MaxWith(v.neg, n, k), MaxWith(v.tick, c, k))
  }

  function ReplayAt(v: At, node: string, log: seq<Entry>, k: string): At
    decreases |log|
  {
    if log == [] then v else ReplayAt(ApplyAt(v, node, log[0].m, k), node, log[1..], k)
  }

  lemma ApplyIsKeywise(st: State, node: string, m: Mutation, k: string)
    ensures Look(Apply(st, node, m), k) == ApplyAt(Look(st, k), node, m, k)
  {
  }

  lemma {:induction false} ReplayIsKeywise(st: State, node: string, log: seq<Entry>, k: string)
    ensures Look(Replay(st, node, log), k) == ReplayAt(Look(st, k), node, log, k)
    decreases |log|
  {
    if log != [] {
      ApplyIsKeywise(st, node, log[0].m, k);
      ReplayIsKeywise(Apply(st, node, log[0].m), node, log[1..], k);
    }
  }

  predicate TouchedByReset(log: seq<Entry>, k: string) {
    exists x :: 0 <= x < |log| && Resets(log[x].m, k)
  }

  /** Deltas, and clock ticks, that a log carries for key k. */
  function Logged(node: string, log: seq<Entry>, k: string): At
    decreases |log|
  {
    if log == [] then At(0, 0, 0) else
      var r := Logged(node, log[1..], k);
      match log[0].m
      case LogInc(c, d) => if CounterKey(c, node) == k then At(r.pos + d, r.neg, r.tick + 1) else r
      case LogDec(c, d) => if CounterKey(c, node) == k then At(r.pos, r.neg + d, r.tick + 1) else r
      case _ => r
  }

  predicate PositiveDeltas(log: seq<Entry>) {
    forall x :: 0 <= x < |log| && (log[x].m.LogInc? || log[x].m.LogDec?) ==> log[x].m.d > 0
  }

  predicate AtLeast(v: At, w: At) {
    v.pos >= w.pos && v.neg >= w.neg && v.tick >= w.tick
  }

  lemma {:induction false} ReplayGrows(v: At, node: string, log: seq<Entry>, k: string)
    requires PositiveDeltas(log) && !TouchedByReset(log, k)
    ensures AtLeast(ReplayAt(v, node, log, k), v)
    decreases |log|
  {
    if log != [] {
      assert !Resets(log[0].m, k);
      assert AtLeast(ApplyAt(v, node, log[0].m, k), v);
      RestOfLog(log, k);
      ReplayGrows(ApplyAt(v, node, log[0].m, k), node, log[1..], k);
    }
  }

  lemma RestOfLog(log: seq<Entry>, k: string)
    requires log != []
    ensures PositiveDeltas(log) ==> PositiveDeltas(log[1..])
    ensures TouchedByReset(log, k) <==> Resets(log[0].m, k) || TouchedByReset(log[1..], k)
  {
    if TouchedByReset(log[1..], k) {
      var x :| 0 <= x < |log[1..]| && Resets(log[1..][x].m, k);
      assert log[x + 1] == log[1..][x];
    }
    if x :| 0 <= x < |log| && Resets(log[x].m, k) && x > 0 {
      assert log[1..][x - 1] == log[x];
    }
  }

  /** After a reset of its counter a key no longer depends on what was there before. */
  lemma {:induction false} ResetForgets(v: At, w: At, node: string, log: seq<Entry>, k: string)
    requires TouchedByReset(log, k)
    ensures ReplayAt(v, node, log, k) == ReplayAt(w, node, log, k)
    decreases |log|
  {
    RestOfLog(log, k);
    if TouchedByReset(log[1..], k) {
      ResetForgets(ApplyAt(v, node, log[0].m, k), ApplyAt(w, node, log[0].m, k), node, log[1..], k);
    }
  }

  /** Replaying a log a second time over its own result adds its increments again; its merges add nothing. */
  lemma {:induction false} ReplayAgain(v: At, t: At, node: string, log: seq<Entry>, k: string)
    requires PositiveDeltas(log) && !TouchedByReset(log, k)
    requires AtLeast(t, ReplayAt(v, node, log, k))
    ensures var r, extra := ReplayAt(t, node, log, k), Logged(node, log, k);
            r == At(t.pos + extra.pos, t.neg + extra.neg, t.tick + extra.tick)
    decreases |log|
  {
    if log != [] {
      var m := log[0].m;
      RestOfLog(log, k);
      var v', t' := ApplyAt(v, node, m, k), ApplyAt(t, node, m, k);
      ReplayGrows(v', node, log[1..], k);
      assert !Resets(m, k);
      ReplayAgain(v', t', node, log[1..], k);
    }
  }

  /** Crash between Save and Truncate, for every log.  The store already holds the live state and the log is
      replayed on top of it: a key whose counter was reset in the log comes back exactly as it was; any other
      key comes back with the log's own increments, decrements and ticks counted once more, so nothing is
      ever under-counted. */
  lemma CrashBeforeTruncate(node: string, before: State, log: seq<Entry>, k: string)
    requires PositiveDeltas(log)
    requires AllPositive(Replay(before, node, log))
    ensures var live := Replay(before, node, log);
            var got, was, extra := Look(Recover(node, Disk(live, log)), k), Look(live, k), Logged(node, log, k);
            && (TouchedByReset(log, k) ==> got == was)
            && (!TouchedByReset(log, k) ==> got == At(was.pos + extra.pos, was.neg + extra.neg, was.tick + extra.tick))
            && AtLeast(got, was)
  {
    var live := Replay(before, node, log);
    RestoreExactIff(live);
    ReplayIsKeywise(before, node, log, k);
    ReplayIsKeywise(live, node, log, k);
    if TouchedByReset(log, k) {
      ResetForgets(Look(live, k), Look(before, k), node, log, k);
    } else {
      ReplayAgain(Look(before, k), Look(live, k), node, log, k);
      ReplayGrows(Look(live, k), node, log, k);
    }
  }

  // ----- entries logged after Truncate for mutations that Save had seen -----

  /** The entry adds to key k. */
  predicate AddsTo(m: Mutation, node: string, k: string) {
    (m.LogInc? || m.LogDec?) && CounterKey(m.counter, node) == k
  }

  predicate AddedTo(log: seq<Entry>, node: string, k: string) {
    exists x :: 0 <= x < |log| && AddsTo(log[x].m, node, k)
  }

  lemma {:induction false} LoggedZeroIff(node: string, log: seq<Entry>, k: string)
    requires PositiveDeltas(log)
    ensures Logged(node, log, k) == At(0, 0, 0) <==> !AddedTo(log, node, k)
    ensures AtLeast(Logged(node, log, k), At(0, 0, 0))
    decreases |log|
  {
    if log != [] {
      RestOfLog(log, k);
      LoggedZeroIff(node, log[1..], k);
      assert forall x :: 0 <= x < |log[1..]| ==> log[1..][x] == log[x + 1];
      assert AddedTo(log, node, k) <==> AddsTo(log[0].m, node, k) || AddedTo(log[1..], node, k) by {
        if AddedTo(log, node, k) && !AddsTo(log[0].m, node, k) {
          var x :| 0 <= x < |log| && AddsTo(log[x].m, node, k);
          assert AddsTo(log[1..][x - 1].m, node, k);
        }
        if AddedTo(log[1..], node, k) {
          var x :| 0 <= x < |log[1..]| && AddsTo(log[1..][x].m, node, k);
          assert AddsTo(log[x + 1].m, node, k);
        }
      }
    }
  }

  /** A mutation is applied before it is logged, so Save can catch mutations whose entries only reach the log after
      Truncate.  Recovery is then exact iff every key that such an entry adds to is also reset by one of them; an
      increment or decrement alone is counted twice. */
  lemma LateEntriesExactIff(node: string, before: State, late: seq<Entry>)
    requires AllPositive(before) && PositiveDeltas(late)
    ensures var live := Replay(before, node, late);
            Recover(node, Disk(live, late)) == live <==>
            forall k :: AddedTo(late, node, k) ==> TouchedByReset(late, k)
  {
    var live := Replay(before, node, late);
    var got := Recover(node, Disk(live, late));
    ReplayKeepsPositive(before, node, late);
    RestoreExactIff(live);
    ReplayKeepsPositive(live, node, late);
    forall k ensures Look(got, k) == Look(live, k) <==> (AddedTo(late, node, k) ==> TouchedByReset(late, k)) {
      CrashBeforeTruncate(node, before, late, k);
      LoggedZeroIff(node, late, k);
    }
    if forall k :: AddedTo(late, node, k) ==> TouchedByReset(late, k) {
      SameLooks(got, live);
    }
  }

  lemma {:induction false} ReplayKeepsPositive(st: State, node: string, log: seq<Entry>)
    requires AllPositive(st) && PositiveDeltas(log)
    ensures AllPositive(Replay(st, node, log))
    decreases |log|
  {
    if log != [] {
      RestOfLog(log, "");
      ApplyKeepsPositive(st, node, log[0].m);
      ReplayKeepsPositive(Apply(st, node, log[0].m), node, log[1..]);
    }
  }

  lemma SameLooks(a: State, b: State)
    requires AllPositive(a) && AllPositive(b) && forall k :: Look(a, k) == Look(b, k)
    ensures a == b
  {
    forall k ensures Get(a.pos, k) == Get(b.pos, k) && Get(a.neg, k) == Get(b.neg, k) &&
      Get(a.clock, k) == Get(b.clock, k) {
      assert Look(a, k) == Look(b, k);
    }
    Extensional(a.pos, b.pos);
    Extensional(a.neg, b.neg);
    Extensional(a.clock, b.clock);
  }

  // ----- mutations during a snapshot -----

  /** The three maps that a snapshot reads one after the other. */
  datatype Part = Pos | Neg | Tick

  function PartOf(st: State, part: Part): Counts {
    match part case Pos => st.pos case Neg => st.neg case Tick => st.clock
  }

  function Pick(v: At, part: Part): int {
    match part case Pos => v.pos case Neg => v.neg case Tick => v.tick
  }

  /** What an entry on its own makes of the value v that one map has at key k. */
  function MovePart(part: Part, v: int, node: string, m: Mutation, k: string): int {
    match m
    case LogInc(c, d) =>
      if CounterKey(c, node) != k then v else (match part case Pos => v + d case Neg => v case Tick => v + 1)
    case LogDec(c, d) =>
      if CounterKey(c, node) != k then v else (match part case Pos => v case Neg => v + d case Tick => v + 1)
    case LogReset(c) => if KeyBelongsTo(c, k) then 0 else v
    case LogMerge(p, n, c) => MaxWith(v, PartOf(State(p, n, c), part), k)
  }

  function MovePartAll(part: Part, v: int, node: string, log: seq<Entry>, k: string): int
    decreases |log|
  {
    if log == [] then v else MovePartAll(part, MovePart(part, v, node, log[0].m, k), node, log[1..], k)
  }

  lemma {:induction false} PartsAreSeparate(part: Part, v: At, node: string, log: seq<Entry>, k: string)
    ensures Pick(ReplayAt(v, node, log, k), part) == MovePartAll(part, Pick(v, part), node, log, k)
    decreases |log|
  {
    if log != [] {
      assert Pick(ApplyAt(v, node, log[0].m, k), part) == MovePart(part, Pick(v, part), node, log[0].m, k);
      PartsAreSeparate(part, ApplyAt(v, node, log[0].m, k), node, log[1..], k);
    }
  }

  /** What the value is after the log, in one map at one key. */
  lemma PartAfter(part: Part, st: State, node: string, log: seq<Entry>, k: string)
    ensures Get(PartOf(Replay(st, node, log), part), k) == MovePartAll(part, Get(PartOf(st, part), k), node, log, k)
  {
    ReplayIsKeywise(st, node, log, k);
    PartsAreSeparate(part, Look(st, k), node, log, k);
  }

  /** The log leaves the value v at key k in place: if it resets k, what it then builds up from zero is v again; if
      it does not, each entry on its own leaves v alone. */
  predicate Undisturbed(part: Part, v: int, node: string, log: seq<Entry>, k: string) {
    if TouchedByReset(log, k) then MovePartAll(part, 0, node, log, k) == v
    else forall x :: 0 <= x < |log| ==> MovePart(part, v, node, log[x].m, k) == v
  }

  ghost predicate AllUndisturbed(part: Part, m: Counts, node: string, log: seq<Entry>) {
    forall k :: Undisturbed(part, Get(m, k), node, log, k)
  }

  lemma {:induction false} MovesUp(part: Part, v: int, node: string, log: seq<Entry>, k: string)
    requires PositiveDeltas(log) && !TouchedByReset(log, k)
    ensures MovePartAll(part, v, node, log, k) >= v
    decreases |log|
  {
    if log != [] {
      RestOfLog(log, k);
      assert !Resets(log[0].m, k);
      MovesUp(part, MovePart(part, v, node, log[0].m, k), node, log[1..], k);
    }
  }

  lemma {:induction false} UnmovedIff(part: Part, v: int, node: string, log: seq<Entry>, k: string)
    requires PositiveDeltas(log) && !TouchedByReset(log, k)
    ensures MovePartAll(part, v, node, log, k) == v <==>
            forall x :: 0 <= x < |log| ==> MovePart(part, v, node, log[x].m, k) == v
    decreases |log|
  {
    if log != [] {
      var w, rest := MovePart(part, v, node, log[0].m, k), log[1..];
      RestOfLog(log, k);
      assert !Resets(log[0].m, k);
      assert forall x :: 0 <= x < |rest| ==> rest[x] == log[x + 1];
      if w == v {
        UnmovedIff(part, v, node, rest, k);
        assert (forall x :: 0 <= x < |log| ==> MovePart(part, v, node, log[x].m, k) == v) <==>
               (forall x :: 0 <= x < |rest| ==> MovePart(part, v, node, rest[x].m, k) == v);
      } else {
        MovesUp(part, w, node, rest, k);
      }
    }
  }

  lemma UndisturbedIff(part: Part, v: int, node: string, log: seq<Entry>, k: string)
    requires PositiveDeltas(log)
    ensures MovePartAll(part, v, node, log, k) == v <==> Undisturbed(part, v, node, log, k)
  {
    if TouchedByReset(log, k) {
      ResetForgets(At(v, v, v), At(0, 0, 0), node, log, k);
      PartsAreSeparate(part, At(v, v, v), node, log, k);
      PartsAreSeparate(part, At(0, 0, 0), node, log, k);
    } else {
      UnmovedIff(part, v, node, log, k);
    }
  }

  /** One map read before the log ran is still right after it iff the log disturbs none of its keys. */
  lemma ReadStillRightIff(part: Part, st: State, node: string, log: seq<Entry>)
    requires AllPositive(st) && PositiveDeltas(log)
    ensures PartOf(st, part) == PartOf(Replay(st, node, log), part) <==>
            AllUndisturbed(part, PartOf(st, part), node, log)
  {
    var was, now := PartOf(st, part), PartOf(Replay(st, node, log), part);
    ReplayKeepsPositive(st, node, log);
    forall k ensures Get(now, k) == Get(was, k) <==> Undisturbed(part, Get(was, k), node, log, k) {
      PartAfter(part, st, node, log, k);
      UndisturbedIff(part, Get(was, k), node, log, k);
    }
    if AllUndisturbed(part, was, node, log) {
      Extensional(was, now);
    }
  }

  lemma PositiveConcat(a: seq<Entry>, b: seq<Entry>)
    requires PositiveDeltas(a) && PositiveDeltas(b)
    ensures PositiveDeltas(a + b)
  {
  }

  lemma {:induction false} ReplayConcat(st: State, node: string, a: seq<Entry>, b: seq<Entry>)
    ensures Replay(st, node, a + b) == Replay(Replay(st, node, a), node, b)
    decreases |a|
  {
    if a == [] {
      assert a + b == b;
    } else {
      assert (a + b)[1..] == a[1..] + b;
      ReplayConcat(Apply(st, node, a[0].m), node, a[1..], b);
    }
  }

  /** What really happened to the three maps after they were read: each mutation moves each map in a step of its own,
      so the mutations that moved a map after it was read differ from map to map. */
  function LiveAfter(read: State, node: string, pos: seq<Entry>, neg: seq<Entry>, tick: seq<Entry>): State {
    State(Replay(read, node, pos).pos, Replay(read, node, neg).neg, Replay(read, node, tick).clock)
  }

  /** The law for every interleaving.  A snapshot saves the maps as `read`, at three different moments; `pos`, `neg` and
      `tick` are the mutations that moved each map after its read, a mutation's counts and its tick possibly on
      different sides; `late` are the entries that reach the log after Truncate.  Recovery gives the live state iff,
      map by map and key by key, replaying the late entries does to the value what really happened to it. */
  lemma OverlappedSnapshotIff(node: string, read: State, pos: seq<Entry>, neg: seq<Entry>, tick: seq<Entry>,
                              late: seq<Entry>)
    requires AllPositive(read) && PositiveDeltas(pos) && PositiveDeltas(neg) && PositiveDeltas(tick)
    requires PositiveDeltas(late)
    ensures Recover(node, Disk(read, late)) == LiveAfter(read, node, pos, neg, tick) <==>
            && SameMoves(Pos, read.pos, node, pos, late) && SameMoves(Neg, read.neg, node, neg, late)
            && SameMoves(Tick, read.clock, node, tick, late)
  {
    RestoreExactIff(read);
    SameMovesIff(Pos, read, node, pos, late);
    SameMovesIff(Neg, read, node, neg, late);
    SameMovesIff(Tick, read, node, tick, late);
  }

  ghost predicate SameMoves(part: Part, m: Counts, node: string, log: seq<Entry>, late: seq<Entry>) {
    forall k :: MovePartAll(part, Get(m, k), node, log, k) == MovePartAll(part, Get(m, k), node, late, k)
  }

  lemma SameMovesIff(part: Part, read: State, node: string, log: seq<Entry>, late: seq<Entry>)
    requires AllPositive(read) && PositiveDeltas(log) && PositiveDeltas(late)
    ensures PartOf(Replay(read, node, log), part) == PartOf(Replay(read, node, late), part) <==>
            SameMoves(part, PartOf(read, part), node, log, late)
  {
    var live, got := PartOf(Replay(read, node, log), part), PartOf(Replay(read, node, late), part);
    ReplayKeepsPositive(read, node, log);
    ReplayKeepsPositive(read, node, late);
    forall k ensures Get(live, k) == MovePartAll(part, Get(PartOf(read, part), k), node, log, k)
      ensures Get(got, k) == MovePartAll(part, Get(PartOf(read, part), k), node, late, k)
    {
      PartAfter(part, read, node, log, k);
      PartAfter(part, read, node, late, k);
    }
    if SameMoves(part, PartOf(read, part), node, log, late) {
      Extensional(live, got);
    }
  }

  /** With nothing logged late, recovery is exact iff no map is disturbed by what moved it after its read. */
  lemma SplitSnapshotExactIff(node: string, read: State, pos: seq<Entry>, neg: seq<Entry>, tick: seq<Entry>)
    requires AllPositive(read) && PositiveDeltas(pos) && PositiveDeltas(neg) && PositiveDeltas(tick)
    ensures Recover(node, Disk(read, [])) == LiveAfter(read, node, pos, neg, tick) <==>
            && AllUndisturbed(Pos, read.pos, node, pos) && AllUndisturbed(Neg, read.neg, node, neg)
            && AllUndisturbed(Tick, read.clock, node, tick)
  {
    RestoreExactIff(read);
    ReadStillRightIff(Pos, read, node, pos);
    ReadStillRightIff(Neg, read, node, neg);
    ReadStillRightIff(Tick, read, node, tick);
  }

  /** Snapshot holds no lock across its three reads, Save and Truncate.  Let `a` be logged between reading the
      positive and the negative map, `b` before reading the clock, and `c` before Truncate, resets included.
      What is recovered after the truncation is the live state iff the positive map is undisturbed by all three,
      the negative map by the last two, and the clock by the last. */
  lemma SnapshotExactIff(node: string, st: State, a: seq<Entry>, b: seq<Entry>, c: seq<Entry>)
    requires AllPositive(st) && PositiveDeltas(a) && PositiveDeltas(b) && PositiveDeltas(c)
    ensures var st1 := Replay(st, node, a);
            var st2 := Replay(st1, node, b);
            Recover(node, Disk(State(st.pos, st1.neg, st2.clock), [])) == Replay(st2, node, c) <==>
            && AllUndisturbed(Pos, st.pos, node, a + (b + c))
            && AllUndisturbed(Neg, st1.neg, node, b + c)
            && AllUndisturbed(Tick, st2.clock, node, c)
  {
    var st1 := Replay(st, node, a);
    var st2 := Replay(st1, node, b);
    ReplayKeepsPositive(st, node, a);
    ReplayKeepsPositive(st1, node, b);
    ReplayConcat(st, node, a, b + c);
    ReplayConcat(st1, node, b, c);
    PositiveConcat(b, c);
    PositiveConcat(a, b + c);
    RestoreExactIff(State(st.pos, st1.neg, st2.clock));
    ReadStillRightIff(Pos, st, node, a + (b + c));
    ReadStillRightIff(Neg, st1, node, b + c);
    ReadStillRightIff(Tick, st2, node, c);
  }

  /** In particular, an increment or decrement between Save and Truncate is lost unless a reset follows or
      precedes it there. */
  lemma IncrementAfterSaveIsLost(node: string, st: State, mid: seq<Entry>, k: string)
    requires AllPositive(st) && PositiveDeltas(mid) && AddedTo(mid, node, k) && !TouchedByReset(mid, k)
    ensures Recover(node, Disk(st, [])) != Replay(st, node, mid)
  {
    RestoreExactIff(st);
    ReadStillRightIff(Tick, st, node, mid);
    var x :| 0 <= x < |mid| && AddsTo(mid[x].m, node, k);
    assert MovePart(Tick, Get(st.clock, k), node, mid[x].m, k) != Get(st.clock, k);
    assert !Undisturbed(Tick, Get(st.clock, k), node, mid, k);
  }
}
