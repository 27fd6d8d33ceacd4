/** The membership table of one node: Alive, Suspect, Dead and Left, driven by heartbeats, staleness sweeps, the
    SWIM failure detector, gossiped reports and the operator. */
module Membership {

  type Id = string

  datatype Status = Alive | Suspect | Dead | Left

  datatype Member = Member(address: string, status: Status, isActive: bool, lastHeartbeat: int, suspectCount: nat,
                           priority: int)

  type Table = map<Id, Member>

  // ----- what happens to one member -----

  function SetStatus(m: Member, s: Status): Member {
    m.(status := s, isActive := s == Alive)
  }

  function NewMember(address: string, s: Status, at: int): Member {
    Member(address, s, s == Alive, at, 0, 0)
  }

  /** AddOrUpdateMemberStatus on a known member: only Alive is believed. */
  function Refreshed(m: Member, address: string, s: Status, at: int): Member {
    var m' := m.(address := address, lastHeartbeat := at);
    if s == Alive then SetStatus(m', Alive).(suspectCount := 0) else m'
  }

  function Revived(m: Member, now: int): Member {
    SetStatus(m.(lastHeartbeat := now), Alive).(suspectCount := 0)
  }

  function Suspected(m: Member): Member {
    if m.status in {Dead, Left} then m else SetStatus(m, Suspect).(suspectCount := m.suspectCount + 1)
  }

  function Staled(m: Member, now: int, threshold: int): Member {
    if now - m.lastHeartbeat <= threshold then m
    else match m.status
      case Alive => SetStatus(m, Suspect).(suspectCount := m.suspectCount + 1)
      case Suspect => SetStatus(m, Dead)
      case Dead => m
      case Left => m
  }

  /** ApplyMembership: a peer reports status s. */
  function Reported(m: Member, s: Status): Member {
    match s
    case Alive => m
    case Dead =>
      if m.status == Alive then SetStatus(m, Suspect).(suspectCount := m.suspectCount + 1)
      else if m.suspectCount >= 1 then SetStatus(m, Dead) else m
    case Suspect => if m.status == Alive then SetStatus(m, Suspect).(suspectCount := m.suspectCount + 1) else m
    case Left => SetStatus(m, Left)
  }

  /** One SWIM round on its target; only Alive and Suspect members are ever targets. */
  function Probed(m: Member, reached: bool, threshold: int, now: int): Member {
    if m.status !in {Alive, Suspect} then m
    else if reached then Revived(m, now)
    else if m.status == Alive then Suspected(m)
    else if m.suspectCount + 1 >= threshold then SetStatus(m, Dead)
    else Suspected(m)
  }

  // ----- the table -----

  datatype Step =
    | Put(id: Id, address: string, status: Status, at: int)
    | Heartbeat(id: Id, ok: bool, now: int)
    | Prioritise(id: Id, priority: int)
    | Remove(id: Id)
    | Sweep(threshold: int, now: int)
    | Report(statuses: map<Id, Status>)
    | Probe(id: Id, reached: bool, threshold: int, now: int)

  function PutMember(t: Table, id: Id, address: string, s: Status, at: int): Table {
    t[id := if id in t then Refreshed(t[id], address, s, at) else NewMember(address, s, at)]
  }

  function SweepAll(t: Table, self: Id, threshold: int, now: int): Table {
    map id | id in t :: if id == self then t[id] else Staled(t[id], now, threshold)
  }

  function ReportAll(t: Table, self: Id, statuses: map<Id, Status>): Table {
    map id | id in t :: if id != self && id in statuses then Reported(t[id], statuses[id]) else t[id]
  }

  /** GossipMembership: every entry but the node's own. */
  function Gossiped(t: Table, self: Id): map<Id, Status> {
    map id | id in t && id != self :: t[id].status
  }

  function Apply(t: Table, self: Id, s: Step): Table {
    match s
    case Put(id, address, status, at) => PutMember(t, id, address, status, at)
    case Heartbeat(id, ok, now) =>
      if id == self || id !in t then t else t[id := if ok then Revived(t[id], now) else Suspected(t[id])]
    case Prioritise(id, p) => if id in t then t[id := t[id].(priority := p)] else t
    case Remove(id) => if id == self || id !in t then t else t[id := SetStatus(t[id], Left)]
    case Sweep(threshold, now) => SweepAll(t, self, threshold, now)
    case Report(statuses) => ReportAll(t, self, statuses)
    case Probe(id, reached, threshold, now) =>
      if id == self || id !in t then t else t[id := Probed(t[id], reached, threshold, now)]
  }

  /** A node starts knowing itself. */
  function Fresh(self: Id, address: string, now: int): Table {
    PutMember(map[], self, address, Alive, now)
  }

  function After(t: Table, self: Id, run: seq<Step>): Table
    decreases |run|
  {
    if run == [] then t else Apply(After(t, self, run[..|run| - 1]), self, run[|run| - 1])
  }

  // ----- entry by entry -----

  datatype Entry = Absent | Present(m: Member)

  function Lookup(t: Table, id: Id): Entry {
    if id in t then Present(t[id]) else Absent
  }

  /** What a step does to one entry, apart from the rest of the table. */
  function EntryStep(e: Entry, id: Id, self: Id, s: Step): Entry {
    match s
    case Put(x, address, status, at) =>
      if x != id then e
      else if e.Present? then Present(Refreshed(e.m, address, status, at)) else Present(NewMember(address, status, at))
    case Heartbeat(x, ok, now) =>
      if x != id || id == self || e.Absent? then e else Present(if ok then Revived(e.m, now) else Suspected(e.m))
    case Prioritise(x, p) => if x != id || e.Absent? then e else Present(e.m.(priority := p))
    case Remove(x) => if x != id || id == self || e.Absent? then e else Present(SetStatus(e.m, Left))
    case Sweep(threshold, now) => if id == self || e.Absent? then e else Present(Staled(e.m, now, threshold))
    case Report(statuses) =>
      if id == self || e.Absent? || id !in statuses then e else Present(Reported(e.m, statuses[id]))
    case Probe(x, reached, threshold, now) =>
      if x != id || id == self || e.Absent? then e else Present(Probed(e.m, reached, threshold, now))
  }

  lemma StepsAreEntrywise(t: Table, self: Id, s: Step, id: Id)
    ensures Lookup(Apply(t, self, s), id) == EntryStep(Lookup(t, id), id, self, s)
  {
  }

  /** An unknown member was first heard of as already dead. */
  predicate Imports(e: Entry, id: Id, s: Step) {
    e.Absent? && s.Put? && s.id == id && s.status == Dead
  }

  predicate WellFormed(e: Entry) {
    e.Present? ==> (e.m.isActive <==> e.m.status == Alive) && (e.m.status == Alive ==> e.m.suspectCount == 0)
  }

  /** Was suspected at some point since it was last alive, as far as the entry itself can tell. */
  predicate Tainted(e: Entry) {
    e.Present? && (e.m.status in {Suspect, Dead} || e.m.suspectCount >= 1)
  }

  lemma EntryStepFacts(e: Entry, id: Id, self: Id, s: Step)
    requires WellFormed(e)
    ensures var e' := EntryStep(e, id, self, s);
            && WellFormed(e')
            && (e.Present? ==> e'.Present?)
            && (id == self && e.Present? && e.m.status == Alive ==> e'.m.status == Alive)
            && (Tainted(e') ==> e'.m.status != Alive)
            && (Tainted(e') ==> Tainted(e) || e'.m.status == Suspect || Imports(e, id, s))
  {
  }

  // ----- failure escalation over whole runs -----

  function EntryAt(t: Table, self: Id, run: seq<Step>, id: Id, x: nat): Entry
    requires x <= |run|
  {
    Lookup(After(t, self, run[..x]), id)
  }

  /** At point x the member was Suspect, or was first heard of as Dead. */
  predicate AccusedAt(t: Table, self: Id, run: seq<Step>, id: Id, x: nat)
    requires x <= |run|
  {
    || (EntryAt(t, self, run, id, x).Present? && EntryAt(t, self, run, id, x).m.status == Suspect)
    || (x > 0 && Imports(EntryAt(t, self, run, id, x - 1), id, run[x - 1]))
  }

  predicate NeverAliveSince(t: Table, self: Id, run: seq<Step>, id: Id, x: nat)
    requires x <= |run|
  {
    forall y :: x <= y <= |run| ==>
      EntryAt(t, self, run, id, y).Present? && EntryAt(t, self, run, id, y).m.status != Alive
  }

  ghost predicate AccusedSinceAlive(t: Table, self: Id, run: seq<Step>, id: Id) {
    exists x: nat :: x <= |run| && AccusedAt(t, self, run, id, x) && NeverAliveSince(t, self, run, id, x)
  }

  lemma PointsOfPrefix(t: Table, self: Id, run: seq<Step>, id: Id, x: nat)
    requires 0 < |run| && x < |run|
    ensures EntryAt(t, self, run, id, x) == EntryAt(t, self, run[..|run| - 1], id, x)
  {
    assert run[..|run| - 1][..x] == run[..x];
  }

  lemma LastPoint(t: Table, self: Id, run: seq<Step>, id: Id)
    requires 0 < |run|
    ensures EntryAt(t, self, run, id, |run|) ==
            EntryStep(EntryAt(t, self, run, id, |run| - 1), id, self, run[|run| - 1])
  {
    assert run[..|run|] == run;
    StepsAreEntrywise(After(t, self, run[..|run| - 1]), self, run[|run| - 1], id);
  }

  /** The accusation that explains the entry before the last step still explains it after. */
  lemma AccusationExtends(t: Table, self: Id, run: seq<Step>, id: Id)
    requires 0 < |run| && AccusedSinceAlive(t, self, run[..|run| - 1], id)
    requires EntryAt(t, self, run, id, |run|).Present? && EntryAt(t, self, run, id, |run|).m.status != Alive
    ensures AccusedSinceAlive(t, self, run, id)
  {
    var before := run[..|run| - 1];
    var x: nat :| x <= |before| && AccusedAt(t, self, before, id, x) && NeverAliveSince(t, self, before, id, x);
    PointsOfPrefix(t, self, run, id, x);
    if x > 0 {
      PointsOfPrefix(t, self, run, id, x - 1);
    }
    assert AccusedAt(t, self, run, id, x);
    forall y | x <= y <= |run|
      ensures EntryAt(t, self, run, id, y).Present? && EntryAt(t, self, run, id, y).m.status != Alive
    {
      if y < |run| {
        PointsOfPrefix(t, self, run, id, y);
      }
    }
    assert NeverAliveSince(t, self, run, id, x);
  }

  lemma AccusedNow(t: Table, self: Id, run: seq<Step>, id: Id)
    requires AccusedAt(t, self, run, id, |run|)
    requires EntryAt(t, self, run, id, |run|).Present? && EntryAt(t, self, run, id, |run|).m.status != Alive
    ensures AccusedSinceAlive(t, self, run, id)
  {
    assert NeverAliveSince(t, self, run, id, |run|);
  }

  lemma {:induction false} RunFacts(self: Id, address: string, start: int, run: seq<Step>, id: Id)
    ensures var t := Fresh(self, address, start);
            var e := Lookup(After(t, self, run), id);
            && WellFormed(e) && (id == self ==> e.Present? && e.m.status == Alive)
            && (Tainted(e) ==> AccusedSinceAlive(t, self, run, id))
    decreases |run|
  {
    var t := Fresh(self, address, start);
    if run != [] {
      var before, s := run[..|run| - 1], run[|run| - 1];
      RunFacts(self, address, start, before, id);
      var e := Lookup(After(t, self, before), id);
      EntryStepFacts(e, id, self, s);
      LastPoint(t, self, run, id);
      assert run[..|run|] == run;
      var e' := EntryAt(t, self, run, id, |run|);
      if Tainted(e') {
        if Tainted(e) {
          AccusationExtends(t, self, run, id);
        } else {
          AccusedNow(t, self, run, id);
        }
      }
    }
  }

  /** Failure escalation.  In every run of a node's table from start-up: a member is active iff it is Alive, an
      Alive member carries no suspicion, the node itself is Alive throughout, and a member that is Dead was
      Suspect (or first heard of as Dead) at some point after it was last Alive. */
  lemma FailureEscalation(self: Id, address: string, start: int, run: seq<Step>, id: Id)
    requires id in After(Fresh(self, address, start), self, run)
    ensures var t := Fresh(self, address, start);
            var m := After(t, self, run)[id];
            && (m.isActive <==> m.status == Alive)
            && (m.status == Alive ==> m.suspectCount == 0)
            && (id == self ==> m.status == Alive)
            && (m.status == Dead ==> AccusedSinceAlive(t, self, run, id))
  {
    RunFacts(self, address, start, run, id);
  }

  // ----- Left is not final -----

  /** Would the step take a member that has left, with that much suspicion on it, out of Left? */
  predicate Recalls(id: Id, self: Id, s: Step, suspicion: nat) {
    match s
    case Put(x, _, status, _) => x == id && status == Alive
    case Heartbeat(x, ok, _) => x == id && id != self && ok
    case Prioritise(_, _) => false
    case Remove(_) => false
    case Sweep(_, _) => false
    case Report(statuses) => id != self && id in statuses && statuses[id] == Dead && suspicion >= 1
    case Probe(_, _, _, _) => false
  }

  predicate HasLeft(e: Entry) {
    e.Present? && e.m.status == Left
  }

  lemma LeftStep(e: Entry, id: Id, self: Id, s: Step)
    requires HasLeft(e)
    ensures HasLeft(EntryStep(e, id, self, s)) <==> !Recalls(id, self, s, e.m.suspectCount)
    ensures !Recalls(id, self, s, e.m.suspectCount) ==> EntryStep(e, id, self, s).m.suspectCount == e.m.suspectCount
  {
  }

  ghost predicate AlwaysLeft(t: Table, self: Id, run: seq<Step>, id: Id) {
    forall x :: 0 <= x <= |run| ==> HasLeft(EntryAt(t, self, run, id, x))
  }

  predicate NeverRecalled(id: Id, self: Id, run: seq<Step>, suspicion: nat) {
    forall x :: 0 <= x < |run| ==> !Recalls(id, self, run[x], suspicion)
  }

  /** A member that has left stays so throughout a run iff no heartbeat or join revives it and, when it was under
      suspicion on leaving, no peer reports it Dead. */
  lemma {:induction false} LeftStaysIff(t: Table, self: Id, run: seq<Step>, id: Id)
    requires id in t && t[id].status == Left
    ensures AlwaysLeft(t, self, run, id) <==> NeverRecalled(id, self, run, t[id].suspectCount)
    ensures AlwaysLeft(t, self, run, id) ==> EntryAt(t, self, run, id, |run|).m.suspectCount == t[id].suspectCount
    decreases |run|
  {
    if run != [] {
      var before, last, s := run[..|run| - 1], |run| - 1, run[|run| - 1];
      LeftStaysIff(t, self, before, id);
      LastPoint(t, self, run, id);
      forall x | 0 <= x < |run| ensures EntryAt(t, self, run, id, x) == EntryAt(t, self, before, id, x) {
        PointsOfPrefix(t, self, run, id, x);
      }
      assert AlwaysLeft(t, self, run, id) <==>
             AlwaysLeft(t, self, before, id) && HasLeft(EntryAt(t, self, run, id, |run|));
      assert forall x :: 0 <= x < |before| ==> before[x] == run[x];
      assert NeverRecalled(id, self, run, t[id].suspectCount) <==>
             NeverRecalled(id, self, before, t[id].suspectCount) && !Recalls(id, self, s, t[id].suspectCount);
      if AlwaysLeft(t, self, before, id) {
        LeftStep(EntryAt(t, self, run, id, last), id, self, s);
      }
    }
  }

  /** From start-up: a member joins, misses a heartbeat and is removed by the operator. */
  function RemovedUnderSuspicion(id: Id, address: string, now: int): seq<Step> {
    [Put(id, address, Alive, now), Heartbeat(id, false, now), Remove(id)]
  }

  /** After that it is Left, and one more report of it as Dead makes it Dead. */
  lemma LeftBecomesDead(self: Id, id: Id, address: string, now: int, report: map<Id, Status>)
    requires id != self && id in report && report[id] == Dead
    ensures var t, run := Fresh(self, address, now), RemovedUnderSuspicion(id, address, now);
            && id in After(t, self, run) && After(t, self, run)[id] == Member(address, Left, false, now, 1, 0)
            && id in After(t, self, run + [Report(report)]) && After(t, self, run + [Report(report)])[id].status == Dead
  {
    var t, run := Fresh(self, address, now), RemovedUnderSuspicion(id, address, now);
    assert run == [] + [run[0]] + [run[1]] + [run[2]];
    AfterOneMore(t, self, [], run[0]);
    AfterOneMore(t, self, [] + [run[0]], run[1]);
    AfterOneMore(t, self, [] + [run[0]] + [run[1]], run[2]);
    AfterOneMore(t, self, run, Report(report));
  }

  lemma AfterOneMore(t: Table, self: Id, run: seq<Step>, s: Step)
    ensures After(t, self, run + [s]) == Apply(After(t, self, run), self, s)
  {
    assert (run + [s])[..|run|] == run;
  }

  // ----- Dead is final until the member is heard of -----

  predicate IsDead(e: Entry) {
    e.Present? && e.m.status == Dead
  }

  /** Does the step bring news of a dead member: a sign of life, or that it left? */
  predicate Reopens(id: Id, self: Id, s: Step) {
    match s
    case Put(x, _, status, _) => x == id && status == Alive
    case Heartbeat(x, ok, _) => x == id && id != self && ok
    case Prioritise(_, _) => false
    case Remove(x) => x == id && id != self
    case Sweep(_, _) => false
    case Report(statuses) => id != self && id in statuses && statuses[id] == Left
    case Probe(_, _, _, _) => false
  }

  lemma DeadStep(e: Entry, id: Id, self: Id, s: Step)
    requires IsDead(e)
    ensures IsDead(EntryStep(e, id, self, s)) <==> !Reopens(id, self, s)
  {
  }

  ghost predicate AlwaysDead(t: Table, self: Id, run: seq<Step>, id: Id) {
    forall x :: 0 <= x <= |run| ==> IsDead(EntryAt(t, self, run, id, x))
  }

  /** A dead member stays dead throughout a run iff no join or heartbeat revives it and nobody says that it left;
      failed heartbeats, probes, sweeps and other reports do not move it. */
  lemma {:induction false} DeadStaysIff(t: Table, self: Id, run: seq<Step>, id: Id)
    requires id in t && t[id].status == Dead
    ensures AlwaysDead(t, self, run, id) <==> forall x :: 0 <= x < |run| ==> !Reopens(id, self, run[x])
    decreases |run|
  {
    if run != [] {
      var before, last, s := run[..|run| - 1], |run| - 1, run[|run| - 1];
      DeadStaysIff(t, self, before, id);
      LastPoint(t, self, run, id);
      forall x | 0 <= x < |run| ensures EntryAt(t, self, run, id, x) == EntryAt(t, self, before, id, x) {
        PointsOfPrefix(t, self, run, id, x);
      }
      assert AlwaysDead(t, self, run, id) <==>
             AlwaysDead(t, self, before, id) && IsDead(EntryAt(t, self, run, id, |run|));
      assert forall x :: 0 <= x < |before| ==> before[x] == run[x];
      assert (forall x :: 0 <= x < |run| ==> !Reopens(id, self, run[x])) <==>
             (forall x :: 0 <= x < |before| ==> !Reopens(id, self, before[x])) && !Reopens(id, self, s);
      if AlwaysDead(t, self, before, id) {
        DeadStep(EntryAt(t, self, run, id, last), id, self, s);
      }
    }
  }

  // ----- sweeps and heartbeat times -----

  datatype Sign = NoSign | SignAt(time: int)

  /** The time of the sign of life that a step brings of member id, whose entry is e: a join or an update of its
      membership record, a heartbeat that gets through, or a probe that reaches it. */
  function SignOf(e: Entry, id: Id, self: Id, s: Step): Sign {
    match s
    case Put(x, _, _, at) => if x == id then SignAt(at) else NoSign
    case Heartbeat(x, ok, now) => if x == id && id != self && ok && e.Present? then SignAt(now) else NoSign
    case Prioritise(_, _) => NoSign
    case Remove(_) => NoSign
    case Sweep(_, _) => NoSign
    case Report(_) => NoSign
    case Probe(x, reached, _, now) =>
      if x == id && id != self && reached && e.Present? && e.m.status in {Alive, Suspect} then SignAt(now) else NoSign
  }

  /** The last sign of life of member id in a run from start-up, read off the run; the node itself is there from the
      start. */
  function LastSign(self: Id, address: string, start: int, run: seq<Step>, id: Id): Sign
    decreases |run|
  {
    if run == [] then if id == self then SignAt(start) else NoSign
    else
      var before := run[..|run| - 1];
      var sign := SignOf(Lookup(After(Fresh(self, address, start), self, before), id), id, self, run[|run| - 1]);
      if sign.SignAt? then sign else LastSign(self, address, start, before, id)
  }

  lemma SignIsRecorded(e: Entry, id: Id, self: Id, s: Step)
    ensures var e', sign := EntryStep(e, id, self, s), SignOf(e, id, self, s);
            && (sign.SignAt? ==> e'.Present? && e'.m.lastHeartbeat == sign.time)
            && (sign.NoSign? ==> e'.Present? == e.Present? && (e.Present? ==> e'.m.lastHeartbeat == e.m.lastHeartbeat))
  {
  }

  /** The heartbeat time of an entry is the time of the member's last sign of life. */
  lemma {:induction false} HeartbeatIsLastSign(self: Id, address: string, start: int, run: seq<Step>, id: Id)
    ensures var e := Lookup(After(Fresh(self, address, start), self, run), id);
            LastSign(self, address, start, run, id) == if e.Present? then SignAt(e.m.lastHeartbeat) else NoSign
    decreases |run|
  {
    var t := Fresh(self, address, start);
    if run != [] {
      var before, s := run[..|run| - 1], run[|run| - 1];
      HeartbeatIsLastSign(self, address, start, before, id);
      StepsAreEntrywise(After(t, self, before), self, s, id);
      SignIsRecorded(Lookup(After(t, self, before), id), id, self, s);
    }
  }

  /** In every run from start-up: a sweep moves a member iff it is another one, is Alive or Suspect, and its last sign
      of life is more than the threshold ago; Alive becomes Suspect under suspicion, and Suspect becomes Dead. */
  lemma SweepMovesIff(self: Id, address: string, start: int, run: seq<Step>, id: Id, threshold: int, now: int)
    requires id in After(Fresh(self, address, start), self, run)
    ensures var t := After(Fresh(self, address, start), self, run);
            var sign := LastSign(self, address, start, run, id);
            && sign.SignAt? && id in Apply(t, self, Sweep(threshold, now))
            && var m, m' := t[id], Apply(t, self, Sweep(threshold, now))[id];
               && (m' != m <==> id != self && m.status in {Alive, Suspect} && now - sign.time > threshold)
               && (m' != m && m.status == Alive ==> m'.status == Suspect && m'.suspectCount == 1)
               && (m' != m && m.status == Suspect ==> m'.status == Dead)
  {
    HeartbeatIsLastSign(self, address, start, run, id);
    RunFacts(self, address, start, run, id);
  }

  /** Every sweep of the run finds a sign of life of id that is at most its threshold old. */
  predicate Punctual(self: Id, address: string, start: int, run: seq<Step>, id: Id) {
    forall x :: 0 <= x < |run| && run[x].Sweep? ==> RecentSign(LastSign(self, address, start, run[..x], id), run[x])
  }

  predicate RecentSign(sign: Sign, s: Step)
    requires s.Sweep?
  {
    sign.SignAt? ==> s.now - sign.time <= s.threshold
  }

  /** A member whose signs of life never lie further back than the threshold is never moved by a sweep. */
  lemma PunctualIsNeverSwept(self: Id, address: string, start: int, run: seq<Step>, id: Id, x: nat)
    requires Punctual(self, address, start, run, id) && x < |run| && run[x].Sweep?
    ensures var t := Fresh(self, address, start);
            EntryAt(t, self, run, id, x + 1) == EntryAt(t, self, run, id, x)
  {
    var t := Fresh(self, address, start);
    var now := After(t, self, run[..x]);
    AfterOneMore(t, self, run[..x], run[x]);
    assert run[..x] + [run[x]] == run[..x + 1];
    StepsAreEntrywise(now, self, run[x], id);
    assert RecentSign(LastSign(self, address, start, run[..x], id), run[x]);
    if id in now {
      SweepMovesIff(self, address, start, run[..x], id, run[x].threshold, run[x].now);
    }
  }

  /** The step brings no sign of life of id and does not say that it left. */
  predicate NoNews(id: Id, s: Step) {
    match s
    case Put(x, _, _, _) => x != id
    case Heartbeat(x, ok, _) => x != id || !ok
    case Prioritise(_, _) => true
    case Remove(x) => x != id
    case Sweep(_, _) => true
    case Report(statuses) => id in statuses ==> statuses[id] != Left
    case Probe(x, reached, _, _) => x != id || !reached
  }

  /** Accused, and last heard of at time h. */
  predicate Fading(e: Entry, h: int) {
    e.Present? && e.m.status in {Suspect, Dead} && e.m.lastHeartbeat == h
  }

  lemma {:induction false} FadesOn(t: Table, self: Id, run: seq<Step>, id: Id, h: int)
    requires Fading(Lookup(t, id), h) && forall x :: 0 <= x < |run| ==> NoNews(id, run[x])
    ensures Fading(Lookup(After(t, self, run), id), h)
    decreases |run|
  {
    if run != [] {
      var before, s := run[..|run| - 1], run[|run| - 1];
      assert forall x :: 0 <= x < |before| ==> before[x] == run[x];
      FadesOn(t, self, before, id, h);
      StepsAreEntrywise(After(t, self, before), self, s, id);
    }
  }

  /** A silent member.  In every run from start-up: an Alive member whose last sign of life is more than the threshold
      ago is Suspect after one sweep, and after a second one it is Dead, whatever else happened in between that is
      not news of it. */
  lemma SilentIsSuspectThenDead(self: Id, address: string, start: int, run: seq<Step>, id: Id, threshold: int, now: int,
                                quiet: seq<Step>, later: int)
    requires id != self && id in After(Fresh(self, address, start), self, run)
    requires After(Fresh(self, address, start), self, run)[id].status == Alive
    requires var sign := LastSign(self, address, start, run, id);
             sign.SignAt? ==> now - sign.time > threshold && later - sign.time > threshold
    requires forall x :: 0 <= x < |quiet| ==> NoNews(id, quiet[x])
    ensures var t := After(Fresh(self, address, start), self, run);
            var t1 := Apply(t, self, Sweep(threshold, now));
            var t2 := Apply(After(t1, self, quiet), self, Sweep(threshold, later));
            && id in t1 && t1[id].status == Suspect
            && id in t2 && t2[id].status == Dead
  {
    var t := After(Fresh(self, address, start), self, run);
    var t1 := Apply(t, self, Sweep(threshold, now));
    HeartbeatIsLastSign(self, address, start, run, id);
    StepsAreEntrywise(t, self, Sweep(threshold, now), id);
    FadesOn(t1, self, quiet, id, t[id].lastHeartbeat);
    StepsAreEntrywise(After(t1, self, quiet), self, Sweep(threshold, later), id);
  }

  // ----- addresses and priorities -----

  /** The address under which a member joined or was updated last; the node's own to begin with. */
  function LastAddress(self: Id, address: string, run: seq<Step>, id: Id): string
    decreases |run|
  {
    if run == [] then address
    else
      var s := run[|run| - 1];
      if s.Put? && s.id == id then s.address else LastAddress(self, address, run[..|run| - 1], id)
  }

  /** The priority last learned for a known member, zero if none. */
  function LastPriority(self: Id, address: string, start: int, run: seq<Step>, id: Id): int
    decreases |run|
  {
    if run == [] then 0
    else
      var before, s := run[..|run| - 1], run[|run| - 1];
      if s.Prioritise? && s.id == id && id in After(Fresh(self, address, start), self, before) then s.priority
      else LastPriority(self, address, start, before, id)
  }

  lemma WordsStep(e: Entry, id: Id, self: Id, s: Step)
    ensures var e' := EntryStep(e, id, self, s);
            && (e'.Present? && s.Put? && s.id == id ==> e'.m.address == s.address)
            && (e'.Present? && !(s.Put? && s.id == id) ==> e.Present? && e'.m.address == e.m.address)
            && (e'.Present? && s.Prioritise? && s.id == id ==> e.Present? && e'.m.priority == s.priority)
            && (e'.Present? && !(s.Prioritise? && s.id == id) ==>
                  e'.m.priority == if e.Present? then e.m.priority else 0)
            && (e'.Absent? ==> e.Absent?)
  {
  }

  /** A member is listed under its last address and priority. */
  lemma {:induction false} LastWordsAreKept(self: Id, address: string, start: int, run: seq<Step>, id: Id)
    ensures var e := Lookup(After(Fresh(self, address, start), self, run), id);
            && (e.Present? ==> e.m.address == LastAddress(self, address, run, id))
            && LastPriority(self, address, start, run, id) == if e.Present? then e.m.priority else 0
    decreases |run|
  {
    var t := Fresh(self, address, start);
    if run != [] {
      var before, s := run[..|run| - 1], run[|run| - 1];
      LastWordsAreKept(self, address, start, before, id);
      StepsAreEntrywise(After(t, self, before), self, s, id);
      WordsStep(Lookup(After(t, self, before), id), id, self, s);
    }
  }

  // ----- reports alone -----

  function Reports(m: Member, reports: seq<Status>): Member
    decreases |reports|
  {
    if reports == [] then m else Reported(Reports(m, reports[..|reports| - 1]), reports[|reports| - 1])
  }

  predicate Accuses(s: Status) {
    s in {Suspect, Dead}
  }

  predicate Accused(reports: seq<Status>) {
    exists x :: 0 <= x < |reports| && Accuses(reports[x])
  }

  /** Some report accuses the member and a later one says Dead. */
  predicate Confirmed(reports: seq<Status>) {
    exists y :: 0 <= y < |reports| && reports[y] == Dead && Accused(reports[..y])
  }

  lemma AccusedGrows(reports: seq<Status>, s: Status)
    ensures Accused(reports + [s]) <==> Accused(reports) || Accuses(s)
  {
    var all := reports + [s];
    assert all[|reports|] == s && forall x :: 0 <= x < |reports| ==> all[x] == reports[x];
  }

  lemma ConfirmedGrows(reports: seq<Status>, s: Status)
    ensures Confirmed(reports + [s]) <==> Confirmed(reports) || (s == Dead && Accused(reports))
  {
    var all := reports + [s];
    assert all[..|reports|] == reports && all[|reports|] == s;
    assert forall y :: 0 <= y < |reports| ==> all[y] == reports[y] && all[..y] == reports[..y];
  }

  /** What reports make of a member that was Alive. */
  predicate AsReported(r: Member, accused: bool, confirmed: bool) {
    && r.status == (if confirmed then Dead else if accused then Suspect else Alive)
    && r.suspectCount == if accused then 1 else 0
  }

  lemma ReportStep(r: Member, accused: bool, confirmed: bool, s: Status)
    requires AsReported(r, accused, confirmed) && (confirmed ==> accused) && s != Left
    ensures AsReported(Reported(r, s), accused || Accuses(s), confirmed || (s == Dead && accused))
  {
  }

  lemma ConfirmedIsAccused(reports: seq<Status>)
    ensures Confirmed(reports) ==> Accused(reports)
  {
  }

  /** Reports alone.  An Alive member that nobody says has left is declared Dead by reports iff one that accuses it is
      followed by one that says Dead, and is Suspect iff it was accused without such confirmation. */
  lemma {:induction false} ReportsNeedConfirmation(m: Member, reports: seq<Status>)
    requires m.status == Alive && m.suspectCount == 0 && Left !in reports
    ensures var r := Reports(m, reports);
            && r.status == (if Confirmed(reports) then Dead else if Accused(reports) then Suspect else Alive)
            && r.suspectCount == if Accused(reports) then 1 else 0
    decreases |reports|
  {
    if reports != [] {
      var before, s := reports[..|reports| - 1], reports[|reports| - 1];
      assert reports == before + [s];
      ReportsNeedConfirmation(m, before);
      AccusedGrows(before, s);
      ConfirmedGrows(before, s);
      ConfirmedIsAccused(before);
      ReportStep(Reports(m, before), Accused(before), Confirmed(before), s);
    }
  }

  // ----- SWIM alone -----

  /** The SuspectToDeadThreshold actually used. */
  function Threshold(configured: int): int {
    if configured <= 0 then 3 else configured
  }

  function Needed(configured: int): nat {
    var threshold := Threshold(configured);
    if threshold <= 2 then 2 else threshold
  }

  function Probes(m: Member, reached: seq<bool>, configured: int): Member
    decreases |reached|
  {
    if reached == [] then m
    else
      var last := |reached| - 1;
      Probed(Probes(m, reached[..last], configured), reached[last], Threshold(configured), |reached|)
  }

  predicate AllFail(reached: seq<bool>, start: nat, k: nat) {
    start + k <= |reached| && forall y :: start <= y < start + k ==> !reached[y]
  }

  /** Some k consecutive probes all failed. */
  ghost predicate FailedInARow(reached: seq<bool>, k: nat) {
    exists start: nat :: AllFail(reached, start, k)
  }

  /** How many of the latest probes failed in a row. */
  function Trailing(reached: seq<bool>): nat
    decreases |reached|
  {
    if reached == [] || reached[|reached| - 1] then 0 else 1 + Trailing(reached[..|reached| - 1])
  }

  lemma {:induction false} TrailingIsMaximal(reached: seq<bool>, k: nat)
    ensures Trailing(reached) <= |reached|
    ensures k <= Trailing(reached) <==> k <= |reached| && AllFail(reached, |reached| - k, k)
    decreases |reached|
  {
    if reached != [] {
      var before := reached[..|reached| - 1];
      TrailingIsMaximal(before, if k == 0 then 0 else k - 1);
      assert forall y :: 0 <= y < |before| ==> before[y] == reached[y];
    }
  }

  lemma FailedInARowGrows(reached: seq<bool>, k: nat)
    requires reached != [] && k > 0
    ensures FailedInARow(reached, k) <==> FailedInARow(reached[..|reached| - 1], k) || k <= Trailing(reached)
  {
    var before := reached[..|reached| - 1];
    assert forall y :: 0 <= y < |before| ==> before[y] == reached[y];
    TrailingIsMaximal(reached, k);
    if FailedInARow(reached, k) {
      var x: nat :| AllFail(reached, x, k);
      assert x + k <= |before| ==> AllFail(before, x, k);
    }
    if FailedInARow(before, k) {
      var x: nat :| AllFail(before, x, k);
      assert AllFail(reached, x, k);
    }
  }

  lemma {:induction false} ProbesCount(m: Member, reached: seq<bool>, configured: int)
    requires m.status == Alive && m.suspectCount == 0
    ensures var r := Probes(m, reached, configured);
            && (r.status == Dead <==> FailedInARow(reached, Needed(configured)))
            && (r.status != Dead ==> Trailing(reached) < Needed(configured) && r.suspectCount == Trailing(reached))
            && (r.status != Dead ==> r.status == if Trailing(reached) == 0 then Alive else Suspect)
    decreases |reached|
  {
    if reached != [] {
      var before := reached[..|reached| - 1];
      ProbesCount(m, before, configured);
      FailedInARowGrows(reached, Needed(configured));
    }
  }

  /** SWIM alone declares an Alive member Dead iff it failed max(2, threshold) consecutive probes, and until then
      suspects it iff the latest probe failed. */
  lemma SwimNeedsConsecutiveFailures(m: Member, reached: seq<bool>, configured: int)
    requires m.status == Alive && m.suspectCount == 0
    ensures Needed(configured) == if configured <= 0 then 3 else if configured == 1 then 2 else configured
    ensures var r := Probes(m, reached, configured);
            && (r.status == Dead <==> FailedInARow(reached, Needed(configured)))
            && (r.status == Suspect <==>
              !FailedInARow(reached, Needed(configured)) && reached != [] && !reached[|reached| - 1])
  {
    ProbesCount(m, reached, configured);
  }
}
