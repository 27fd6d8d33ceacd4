/** The objects of one running node: counter service, gossip engine and write-ahead log.  Their methods are
    proved against the functions that the cluster and recovery models run on. */
module Nodes {
  import opened GoMaps
  import opened Keys
  import opened Replica
  import opened Naming
  import opened Crdt
  import opened GossipCluster
  import opened Recovery
  import Membership
  import opened Members

  datatype Option<+T> = None | Some(value: T)

  /** How writing one log entry goes.  A failed write leaves nothing behind. */
  datatype Io = Fine | OpenFails | WriteFails | SyncFails

  /** The number is used up once the file is open. */
  function LastAfter(last: nat, io: Io): nat {
    if io.OpenFails? then last else last + 1
  }

  function LogAfter(log: seq<Entry>, last: nat, m: Mutation, io: Io): seq<Entry> {
    if io.Fine? || io.SyncFails? then log + [Entry(last + 1, m)] else log
  }

  /** A log file and the number of its last entry. */
  class WALStore {
    var entries: seq<Entry>
    var last: nat

    /** Opening an existing file does not read it: numbering starts at zero until Replay. */
    constructor (file: seq<Entry>)
      ensures entries == file && last == 0
    {
      entries, last := file, 0;
    }

    method AppendCounter(m: Mutation, io: Io) returns (ok: bool)
      modifies this
      ensures ok <==> io.Fine?
      ensures last == LastAfter(old(last), io) && entries == LogAfter(old(entries), old(last), m, io)
      ensures old(entries) <= entries && last == if io.OpenFails? then old(last) else old(last) + 1
      ensures old(Increasing(entries) && LastNumber(entries) <= last) ==>
        Increasing(entries) && LastNumber(entries) <= last
    {
      if io.OpenFails? {
        return false;
      }
      LastBounds(entries);
      last := last + 1;
      if io.WriteFails? {
        return false;
      }
      entries := entries + [Entry(last, m)];
      assert entries[..|entries| - 1] == old(entries);
      return io.Fine?;
    }

    /** All entries in order; the counter moves up to the largest number read.  `readable` lines can be decoded; if
        the file has more, replay fails there. */
    method Replay(readable: nat) returns (log: Option<seq<Entry>>)
      modifies this`last
      ensures log == if |entries| <= readable then Some(entries) else None
      ensures last == Newest(old(last), if |entries| <= readable then entries else entries[..readable])
    {
      var read := [];
      var x := 0;
      while x < |entries|
        invariant 0 <= x <= |entries| && x <= readable
        invariant read == entries[..x]
        invariant last == Newest(old(last), read)
      {
        if x == readable {
          return None;
        }
        var e := entries[x];
        if e.number > last {
          last := e.number;
        }
        NewestAppend(old(last), read, e);
        read := read + [e];
        x := x + 1;
      }
      assert entries[..x] == entries;
      return Some(read);
    }

    /** Truncate; a file that cannot be removed stays, and so does the number. */
    method Truncate(removed: bool)
      modifies this
      ensures entries == (if removed then [] else old(entries)) && last == if removed then 0 else old(last)
    {
      if !removed {
        return;
      }
      entries, last := [], 0;
    }
  }

  /** The number after reading the log. */
  function Newest(last: nat, log: seq<Entry>): nat {
    if LastNumber(log) > last then LastNumber(log) else last
  }

  lemma NewestAppend(last: nat, log: seq<Entry>, e: Entry)
    ensures Newest(last, log + [e]) == if e.number > Newest(last, log) then e.number else Newest(last, log)
  {
    assert (log + [e])[..|log|] == log;
  }

  lemma {:induction false} LastBounds(log: seq<Entry>)
    ensures forall x :: 0 <= x < |log| ==> log[x].number <= LastNumber(log)
  {
    if log != [] {
      LastBounds(log[..|log| - 1]);
    }
  }

  /** Appending the entry of an applied mutation keeps the state recoverable. */
  lemma StaysDurable(node: string, store: State, log: seq<Entry>, last: nat, before: State, m: Mutation, io: Io)
    ensures io.Fine? && Sound(Mutate(m)) && Durable(node, Disk(store, log), last, before) ==>
      Durable(node, Disk(store, LogAfter(log, last, m, io)), LastAfter(last, io), Apply(before, node, m))
  {
    if Sound(Mutate(m)) && Durable(node, Disk(store, log), last, before) {
      DurableAppend(node, store, log, last, before, m);
    }
  }

  lemma MergeStaysDurable(node: string, log: seq<Entry>, last: nat, before: State, m: Mutation, io: Io)
    requires m.LogMerge?
    ensures io.Fine? ==> forall store :: Durable(node, Disk(store, log), last, before) ==>
      Durable(node, Disk(store, LogAfter(log, last, m, io)), LastAfter(last, io), Apply(before, node, m))
  {
    forall store ensures io.Fine? && Durable(node, Disk(store, log), last, before) ==>
      Durable(node, Disk(store, LogAfter(log, last, m, io)), LastAfter(last, io), Apply(before, node, m))
    {
      StaysDurable(node, store, log, last, before, m, io);
    }
  }

  /** The counter service: the responder side of gossip, the client operations and crash recovery. */
  class CounterService {
    const nodeID: string
    const counter: PNCounter
    const clock: VectorClock
    const wal: WALStore
    var lastSyncClock: map<string, Counts>
    var store: State
    var cluster: MemberTable?
    var onReset: GossipEngine?

    constructor (nodeID: string, wal: WALStore, store: State)
      ensures this.nodeID == nodeID && this.wal == wal && this.store == store && Valid()
      ensures cluster == null && onReset == null
      ensures store == EMPTY && wal.entries == [] && wal.last == 0 ==> CrashSafe()
      ensures St() == EMPTY && lastSyncClock == map[] && fresh(counter) && fresh(clock)
    {
      this.nodeID, this.wal, this.store := nodeID, wal, store;
      counter := new PNCounter(nodeID);
      clock := new VectorClock(nodeID);
      lastSyncClock := map[];
      cluster, onReset := null, null;
      new;
      DurableSnapshot(nodeID, EMPTY);
    }

    ghost predicate Valid()
      reads this
    {
      counter.nodeID == nodeID && clock.nodeID == nodeID
    }

    ghost function St(): State
      reads counter, clock
    {
      State(counter.positive, counter.negative, clock.clock)
    }

    /** A crash now loses nothing: the disk gives back the live state. */
    ghost predicate CrashSafe()
      reads this, counter, clock, wal
    {
      Durable(nodeID, Disk(store, wal.entries), wal.last, St())
    }

    /** Logging a mutation that took the live state from `before` to what it is now. */
    method LogApplied(m: Mutation, io: Io, ghost before: State)
      requires St() == Apply(before, nodeID, m)
      modifies wal
      ensures wal.last == LastAfter(old(wal.last), io)
      ensures wal.entries == LogAfter(old(wal.entries), old(wal.last), m, io)
      ensures io.Fine? && Sound(Mutate(m)) && Durable(nodeID, Disk(store, old(wal.entries)), old(wal.last), before) ==>
        CrashSafe()
    {
      StaysDurable(nodeID, store, wal.entries, wal.last, before, m, io);
      var _ := wal.AppendCounter(m, io);
    }

    /** Increment; a delta of zero means one.  The mutation is applied first and logged afterwards, and stays applied
        when logging fails. */
    method Increment(name: string, delta: int, io: Io)
      requires Valid()
      modifies counter, clock, wal
      ensures var m := LogInc(Canon(name), if delta == 0 then 1 else delta);
              && St() == Apply(old(St()), nodeID, m)
              && wal.last == LastAfter(old(wal.last), io)
              && wal.entries == LogAfter(old(wal.entries), old(wal.last), m, io)
      ensures old(CrashSafe()) && delta >= 0 && io.Fine? ==> CrashSafe()
    {
      var n, d := Canon(name), if delta == 0 then 1 else delta;
      counter.IncrementName(n, d);
      clock.IncrementName(n);
      LogApplied(LogInc(n, d), io, old(St()));
    }

    method Decrement(name: string, delta: int, io: Io)
      requires Valid()
      modifies counter, clock, wal
      ensures var m := LogDec(Canon(name), if delta == 0 then 1 else delta);
              && St() == Apply(old(St()), nodeID, m)
              && wal.last == LastAfter(old(wal.last), io)
              && wal.entries == LogAfter(old(wal.entries), old(wal.last), m, io)
      ensures old(CrashSafe()) && delta >= 0 && io.Fine? ==> CrashSafe()
    {
      var n, d := Canon(name), if delta == 0 then 1 else delta;
      counter.DecrementName(n, d);
      clock.IncrementName(n);
      LogApplied(LogDec(n, d), io, old(St()));
    }

    /** Reset of one counter: all reply baselines are dropped, and so are the push baselines of the gossip engine
        that has registered for resets. */
    method Reset(name: string, io: Io)
      requires Valid()
      modifies this`lastSyncClock, counter, clock, wal, if onReset == null then {} else {onReset}
      ensures var m := LogReset(Canon(name));
              && St() == Apply(old(St()), nodeID, m) && lastSyncClock == map[]
              && wal.last == LastAfter(old(wal.last), io)
              && wal.entries == LogAfter(old(wal.entries), old(wal.last), m, io)
      ensures old(CrashSafe()) && io.Fine? ==> CrashSafe()
      ensures onReset != null ==>
        onReset.lastSync == map[] && onReset.syncing == old(onReset.syncing) && onReset.round == old(onReset.round)
    {
      var n := Canon(name);
      counter.ResetName(n);
      clock.ResetName(n);
      lastSyncClock := map[];
      if onReset != null {
        onReset.InvalidateBaselines();
      }
      LogApplied(LogReset(n), io, old(St()));
    }

    method MergeRemote(pos: Counts, neg: Counts, remoteClock: Counts)
      modifies counter, clock
      ensures St() == Absorb(old(St()), pos, neg, remoteClock)
    {
      var remote := new PNCounter("");
      remote.SetPositive(pos);
      remote.SetNegative(neg);
      counter.Merge(remote);
      clock.MergeMap(remoteClock);
    }

    /** One request of SyncState: merge it and its membership reports, log, and answer in kind with this node's own
        reports.  The result is the responder step of the cluster model. */
    method SyncState(from: string, update: Update, statuses: map<string, Membership.Status>, io: Io)
      returns (reply: Update, reports: map<string, Membership.Status>)
      requires Valid()
      modifies this`lastSyncClock, counter, clock, wal, if cluster == null then {} else {cluster}
      ensures var n := Node(old(St()), map[], old(lastSyncClock));
              && Node(St(), map[], lastSyncClock) == Respond(n, from, update)
              && reply == Reply(St(), update, BaseOf(old(lastSyncClock), from))
      ensures wal.last == LastAfter(old(wal.last), io)
      ensures var m := LogMerge(update.pos, update.neg, update.clock);
              wal.entries == LogAfter(old(wal.entries), old(wal.last), m, io)
      ensures old(CrashSafe()) && io.Fine? ==> CrashSafe()
      ensures cluster == null ==> reports == map[]
      ensures cluster != null ==>
        && cluster.members == Membership.Apply(old(cluster.members), cluster.nodeID, Membership.Report(statuses))
        && reports == Membership.Gossiped(cluster.members, cluster.nodeID)
    {
      MergeRemote(update.pos, update.neg, update.clock);
      ApplyReports(cluster, statuses);
      LogApplied(LogMerge(update.pos, update.neg, update.clock), io, old(St()));
      if update.full {
        reply := Update(true, counter.positive, counter.negative, clock.clock);
      } else {
        reply := BuildDeltaReply(from, update);
      }
      reports := map[];
      if cluster != null {
        reports := cluster.GossipMembership();
      }
    }

    method BuildDeltaReply(from: string, update: Update) returns (reply: Update)
      requires !update.full
      modifies this`lastSyncClock
      ensures lastSyncClock == old(lastSyncClock)[from := MergeMax(clock.clock, update.clock)]
      ensures reply == Reply(St(), update, BaseOf(old(lastSyncClock), from))
    {
      var myClock := clock.clock;
      var base := MergeInto(update.clock, BaseOf(lastSyncClock, from));
      var replied := MergeInto(myClock, update.clock);
      lastSyncClock := lastSyncClock[from := replied];
      var pos, neg, _ := DeltaFrom(counter.positive, counter.negative, myClock, base);
      reply := Update(false, pos, neg, myClock);
    }

    /** Restore: merge the stored state into the current one. */
    method Restore()
      modifies counter, clock
      ensures St() == Join(old(St()), store)
    {
      MergeRemote(store.pos, store.neg, store.clock);
    }

    /** ReplayWAL: apply the logged mutations one by one, without logging them again; a log that cannot be read to
        its end changes nothing. */
    method ReplayWAL(readable: nat) returns (ok: bool)
      requires Valid()
      modifies counter, clock, wal`last
      ensures ok <==> |wal.entries| <= readable
      ensures St() == if ok then Recovery.Replay(old(St()), nodeID, wal.entries) else old(St())
      ensures ok && old(wal.last) == 0 ==> wal.last == LastNumber(wal.entries)
    {
      var read := wal.Replay(readable);
      if read.None? {
        return false;
      }
      var entries := read.value;
      ghost var start := St();
      var x := 0;
      assert entries[..0] == [];
      while x < |entries|
        invariant 0 <= x <= |entries| && entries == wal.entries
        invariant wal.last == Newest(old(wal.last), wal.entries)
        invariant St() == Recovery.Replay(start, nodeID, entries[..x])
      {
        assert entries[..x + 1] == entries[..x] + [entries[x]];
        ReplayAppend(start, nodeID, entries[..x], entries[x]);
        ApplyEntry(entries[x].m);
        x := x + 1;
      }
      assert entries[..x] == entries;
      return true;
    }

    method ApplyEntry(m: Mutation)
      requires Valid()
      modifies counter, clock
      ensures St() == Apply(old(St()), nodeID, m)
    {
      match m {
        case LogInc(c, d) =>
          counter.IncrementName(c, d);
          clock.IncrementName(c);
        case LogDec(c, d) =>
          counter.DecrementName(c, d);
          clock.IncrementName(c);
        case LogReset(c) =>
          counter.ResetName(c);
          clock.ResetName(c);
        case LogMerge(p, n, c) =>
          MergeRemote(p, n, c);
      }
    }

    /** Snapshot: save the state, then drop the log; nothing is dropped when saving fails. */
    method Snapshot(saved: bool, removed: bool)
      modifies this`store, wal
      ensures store == if saved then St() else old(store)
      ensures wal.entries == if saved && removed then [] else old(wal.entries)
      ensures wal.last == if saved && removed then 0 else old(wal.last)
      ensures old(CrashSafe()) && (saved ==> removed) ==> CrashSafe()
    {
      if !saved {
        return;
      }
      store := State(counter.positive, counter.negative, clock.clock);
      wal.Truncate(removed);
      if old(CrashSafe()) {
        DurableSnapshot(nodeID, St());
      }
    }
  }

  /** Membership reports that come with an update. */
  method ApplyReports(cluster: MemberTable?, statuses: map<string, Membership.Status>)
    modifies if cluster == null then {} else {cluster}
    ensures cluster != null ==>
      cluster.members == Membership.Apply(old(cluster.members), cluster.nodeID, Membership.Report(statuses))
  {
    if cluster != null {
      if |statuses| > 0 {
        cluster.ApplyMembership(statuses);
      } else {
        assert statuses == map[];
      }
    }
  }

  /** A restarted node comes back with what Recover computes. */
  method RestartNode(nodeID: string, store: State, file: seq<Entry>) returns (s: CounterService)
    ensures fresh(s) && s.Valid() && s.nodeID == nodeID
    ensures s.St() == Recover(nodeID, Disk(store, file))
    ensures s.store == store && s.wal.entries == file && s.wal.last == LastNumber(file)
  {
    var wal := new WALStore(file);
    s := new CounterService(nodeID, wal, store);
    s.Restore();
    var _ := s.ReplayWAL(|file|);
  }

  /** A node that crashes while it is crash-safe restarts from its disk in the state it crashed in, and is crash-safe
      again. */
  method CrashAndRestart(s: CounterService) returns (t: CounterService)
    requires s.Valid() && s.CrashSafe()
    ensures fresh(t) && t.Valid() && t.St() == s.St() && t.CrashSafe() && t.wal.last == s.wal.last
  {
    t := RestartNode(s.nodeID, s.store, s.wal.entries);
  }

  /** The gossip engine: the pusher side of a round. */
  class GossipEngine {
    const counter: PNCounter
    const clock: VectorClock
    const wal: WALStore
    const cluster: MemberTable
    var lastSync: map<string, Counts>
    var syncing: set<string>
    var round: nat
    var fullSyncInterval: nat

    constructor (counter: PNCounter, clock: VectorClock, wal: WALStore, cluster: MemberTable)
      ensures this.counter == counter && this.clock == clock && this.wal == wal && this.cluster == cluster && Valid()
      ensures lastSync == map[] && syncing == {} && round == 0 && fullSyncInterval == 10
    {
      this.counter, this.clock, this.wal, this.cluster := counter, clock, wal, cluster;
      lastSync, syncing, round, fullSyncInterval := map[], {}, 0, 10;
    }

    ghost predicate Valid()
      reads this`fullSyncInterval
    {
      fullSyncInterval > 0
    }

    ghost function St(): State
      reads counter, clock
    {
      State(counter.positive, counter.negative, clock.clock)
    }

    /** A crash now loses nothing, given what the node's store holds. */
    ghost predicate CrashSafe(store: State)
      reads counter, clock, wal
    {
      Durable(counter.nodeID, Disk(store, wal.entries), wal.last, St())
    }

    method SetFullSyncInterval(rounds: int)
      requires Valid()
      modifies this`fullSyncInterval
      ensures Valid() && fullSyncInterval == if rounds > 0 then rounds else old(fullSyncInterval)
    {
      if rounds > 0 {
        fullSyncInterval := rounds;
      }
    }

    /** At most one round per peer: a second one is refused while the first is in flight. */
    method TryAcquire(peer: string) returns (ok: bool)
      modifies this`syncing
      ensures ok <==> peer !in old(syncing)
      ensures syncing == old(syncing) + {peer}
    {
      ok := peer !in syncing;
      if ok {
        syncing := syncing + {peer};
      }
    }

    method Release(peer: string)
      modifies this`syncing
      ensures syncing == old(syncing) - {peer}
    {
      syncing := syncing - {peer};
    }

    /** First half of gossipToPeer: the snapshot and the update to send with the node's membership reports, or none when
        nothing changed. */
    method PrepareUpdate(peer: string)
      returns (snap: State, update: Option<Update>, reports: map<string, Membership.Status>)
      requires Valid()
      modifies this`round
      ensures round == old(round) + 1 && snap == St()
      ensures var base, periodic := BaseOf(lastSync, peer), round % fullSyncInterval == 0;
              update == if Skips(snap, base, periodic) then None else Some(Request(snap, base, periodic))
      ensures reports == if update.Some? then Membership.Gossiped(cluster.members, cluster.nodeID) else map[]
    {
      var myPos, myNeg, myClock := counter.positive, counter.negative, clock.clock;
      snap := State(myPos, myNeg, myClock);
      var base := BaseOf(lastSync, peer);
      round := round + 1;
      var staleBaseline := ClockNewerThan(base, myClock);
      var fullSync := round % fullSyncInterval == 0 || staleBaseline;
      if fullSync {
        update := Some(Update(true, myPos, myNeg, myClock));
      } else {
        var deltaPos, deltaNeg, deltaClock := DeltaFrom(myPos, myNeg, myClock, base);
        update := if |deltaClock| == 0 then None else Some(Update(false, deltaPos, deltaNeg, myClock));
      }
      reports := map[];
      if update.Some? {
        reports := cluster.GossipMembership();
      }
    }

    /** Logging the merge that took the live state from `before` to what it is now. */
    method LogMerged(m: Mutation, io: Io, ghost before: State)
      requires m.LogMerge? && St() == Apply(before, counter.nodeID, m)
      modifies wal
      ensures wal.last == LastAfter(old(wal.last), io)
      ensures wal.entries == LogAfter(old(wal.entries), old(wal.last), m, io)
      ensures io.Fine? ==> forall store ::
        Durable(counter.nodeID, Disk(store, old(wal.entries)), old(wal.last), before) ==> CrashSafe(store)
    {
      MergeStaysDurable(counter.nodeID, wal.entries, wal.last, before, m, io);
      var _ := wal.AppendCounter(m, io);
    }

    /** Second half: merge the response and its membership reports, log it and record the new baseline.  The result
        is the pusher step of the cluster model. */
    method FinishRound(peer: string, myClock: Counts, response: Update, statuses: map<string, Membership.Status>,
                       io: Io)
      modifies this`lastSync, counter, clock, wal, cluster
      ensures wal.last == LastAfter(old(wal.last), io)
      ensures var m := LogMerge(response.pos, response.neg, response.clock);
              wal.entries == LogAfter(old(wal.entries), old(wal.last), m, io)
      ensures cluster.members == Membership.Apply(old(cluster.members), cluster.nodeID, Membership.Report(statuses))
      ensures forall store :: old(CrashSafe(store)) && io.Fine? ==> CrashSafe(store)
      ensures Node(St(), lastSync, map[]) == Finish(Node(old(St()), old(lastSync), map[]), peer, myClock, response)
    {
      var remote := new PNCounter("");
      remote.SetPositive(response.pos);
      remote.SetNegative(response.neg);
      counter.Merge(remote);
      clock.MergeMap(response.clock);
      ApplyReports(cluster, statuses);
      LogMerged(LogMerge(response.pos, response.neg, response.clock), io, old(St()));
      var merged := MergeInto(myClock, response.clock);
      lastSync := lastSync[peer := merged];
    }

    /** After a local reset: forget every baseline, so that as long as the node has any clock entry the next
        round to any peer is not skipped. */
    method InvalidateBaselines()
      modifies this`lastSync
      ensures lastSync == map[]
      ensures Positive(clock.clock) && clock.clock != map[] ==>
        forall peer, periodic :: !Skips(St(), BaseOf(lastSync, peer), periodic)
    {
      lastSync := map[];
      if Positive(clock.clock) && clock.clock != map[] {
        var k :| k in clock.clock;
        assert NewerAt(clock.clock, map[], k);
      }
    }
  }
}
