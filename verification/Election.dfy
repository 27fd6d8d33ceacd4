/** Bully leader election with priorities, terms and freshness, as a message-passing cluster. */
module Election {

  type Id = string

  /** What a node remembers about the leader; the empty id means none is known. */
  datatype Record = Record(leader: Id, prio: int, term: int, seen: int)

  /** A Coordinator message. */
  datatype Claim = Claim(id: Id, prio: int, term: int)

  const UNKNOWN: Record := Record("", 0, 0, 0)

  predicate IsFresh(r: Record, now: int, timeout: int) {
    r.leader != "" && now - r.seen <= timeout
  }

  predicate Accepts(r: Record, m: Claim, now: int, timeout: int) {
    || m.prio > r.prio
    || (m.prio == r.prio && m.term >= r.term)
    || (!IsFresh(r, now, timeout) && m.term > r.term)
  }

  /** HandleCoordinator. */
  function Handle(r: Record, m: Claim, now: int, timeout: int): Record {
    if Accepts(r, m, now, timeout) then Record(m.id, m.prio, m.term, now) else r
  }

  /** BecomeLeader. */
  function Claimed(r: Record, self: Id, prio: int, now: int): Record {
    Record(self, prio, r.term + 1, now)
  }

  // ----- when a leader keeps its place -----

  datatype Arrival = Arrival(m: Claim, at: int)

  function HandleAll(r: Record, arrivals: seq<Arrival>, timeout: int): Record
    decreases |arrivals|
  {
    if arrivals == [] then r
    else HandleAll(Handle(r, arrivals[0].m, arrivals[0].at, timeout), arrivals[1..], timeout)
  }

  predicate NotSelf(self: Id, arrivals: seq<Arrival>) {
    forall x :: 0 <= x < |arrivals| ==> arrivals[x].m.id != self
  }

  lemma {:induction false} StrangersNeverRestore(r: Record, self: Id, arrivals: seq<Arrival>, timeout: int)
    requires r.leader != self && NotSelf(self, arrivals)
    ensures HandleAll(r, arrivals, timeout).leader != self
    decreases |arrivals|
  {
    if arrivals != [] {
      assert arrivals[0].m.id != self;
      StrangersNeverRestore(Handle(r, arrivals[0].m, arrivals[0].at, timeout), self, arrivals[1..], timeout);
    }
  }

  /** A leader never refreshes its own record.  Facing only lower-priority claims it still considers itself
      the leader iff every claim that carried a newer term came within the timeout of its own election. */
  lemma {:induction false} LeaderKeptIff(r: Record, self: Id, arrivals: seq<Arrival>, timeout: int)
    requires r.leader == self && self != "" && NotSelf(self, arrivals)
    requires forall x :: 0 <= x < |arrivals| ==> arrivals[x].m.prio < r.prio
    ensures HandleAll(r, arrivals, timeout).leader == self <==>
            forall x :: 0 <= x < |arrivals| ==> arrivals[x].m.term <= r.term || arrivals[x].at - r.seen <= timeout
    decreases |arrivals|
  {
    if arrivals != [] {
      var a, rest := arrivals[0], arrivals[1..];
      assert a.m.prio < r.prio && a.m.id != self;
      assert forall x :: 0 <= x < |rest| ==> rest[x] == arrivals[x + 1];
      var r' := Handle(r, a.m, a.at, timeout);
      if a.m.term <= r.term || a.at - r.seen <= timeout {
        assert r' == r;
        LeaderKeptIff(r, self, rest, timeout);
        assert (forall x :: 0 <= x < |arrivals| ==>
          arrivals[x].m.term <= r.term || arrivals[x].at - r.seen <= timeout) <==>
               (forall x :: 0 <= x < |rest| ==> rest[x].m.term <= r.term || rest[x].at - r.seen <= timeout);
      } else {
        StrangersNeverRestore(r', self, rest, timeout);
      }
    }
  }

  /** For the record of an election won at time `now` with term r.term + 1: the winner keeps its place against
      lower-priority claims iff each of newer term came at most `timeout` after that time. */
  lemma WinnerKeptIff(r: Record, self: Id, prio: int, now: int, arrivals: seq<Arrival>, timeout: int)
    requires self != "" && NotSelf(self, arrivals)
    requires forall x :: 0 <= x < |arrivals| ==> arrivals[x].m.prio < prio
    ensures HandleAll(Claimed(r, self, prio, now), arrivals, timeout).leader == self <==>
            forall x :: 0 <= x < |arrivals| ==> arrivals[x].m.term <= r.term + 1 || arrivals[x].at <= now + timeout
  {
    LeaderKeptIff(Claimed(r, self, prio, now), self, arrivals, timeout);
    assert forall x :: 0 <= x < |arrivals| ==>
      (arrivals[x].at - Claimed(r, self, prio, now).seen <= timeout <==> arrivals[x].at <= now + timeout);
  }

  // ----- split brain -----

  /** Everything the node has recorded is at or below the top claim. */
  predicate AtMost(r: Record, top: Claim) {
    r.prio < top.prio || (r.prio == top.prio && r.leader in {"", top.id} && r.term <= top.term)
  }

  predicate Rivals(arrivals: seq<Arrival>, top: Claim, start: int, timeout: int) {
    forall x :: 0 <= x < |arrivals| ==>
      && (arrivals[x].m == top || arrivals[x].m.prio < top.prio)
      && start <= arrivals[x].at <= start + timeout
  }

  /** Following the top claimant on a record that stays fresh until the end of the window. */
  predicate Follows(r: Record, top: Claim, start: int) {
    r.leader == top.id && r.prio == top.prio && r.term == top.term && start <= r.seen
  }

  lemma {:induction false} StaysWithTop(r: Record, top: Claim, arrivals: seq<Arrival>, start: int, timeout: int)
    requires top.id != "" && Follows(r, top, start) && Rivals(arrivals, top, start, timeout)
    ensures Follows(HandleAll(r, arrivals, timeout), top, start)
    decreases |arrivals|
  {
    if arrivals != [] {
      var a := arrivals[0];
      assert a.m == top || a.m.prio < top.prio;
      StaysWithTop(Handle(r, a.m, a.at, timeout), top, arrivals[1..], start, timeout);
    }
  }

  lemma {:induction false} ReachesTop(r: Record, top: Claim, arrivals: seq<Arrival>, start: int, timeout: int)
    requires top.id != "" && AtMost(r, top) && Rivals(arrivals, top, start, timeout)
    requires exists x :: 0 <= x < |arrivals| && arrivals[x].m == top
    ensures Follows(HandleAll(r, arrivals, timeout), top, start)
    decreases |arrivals|
  {
    var a, rest := arrivals[0], arrivals[1..];
    var x :| 0 <= x < |arrivals| && arrivals[x].m == top;
    assert Rivals(rest, top, start, timeout);
    if a.m == top {
      StaysWithTop(Handle(r, a.m, a.at, timeout), top, rest, start, timeout);
    } else {
      assert rest[x - 1].m == top;
      ReachesTop(Handle(r, a.m, a.at, timeout), top, rest, start, timeout);
    }
  }

  /** Split-brain resolution.  Each node but the top claimant starts at or below the top claim and receives,
      within the freshness timeout, any rivals' claims in any order and multiplicity with the top claim among
      them at least once; the top claimant's own record is from the same window.  Whatever the terms, all nodes
      end up following the top claimant, and it is the only one that considers itself the leader. */
  lemma SplitBrainResolves(records: map<Id, Record>, inbox: map<Id, seq<Arrival>>, top: Claim, start: int, timeout: int)
    requires top.id != "" && top.id in records && records.Keys == inbox.Keys
    requires forall i :: i in records ==> Rivals(inbox[i], top, start, timeout)
    requires forall i :: i in records && i != top.id ==>
      AtMost(records[i], top) && exists x :: 0 <= x < |inbox[i]| && inbox[i][x].m == top
    requires Follows(records[top.id], top, start)
    ensures forall i :: i in records ==> HandleAll(records[i], inbox[i], timeout).leader == top.id
    ensures forall i :: i in records ==> (HandleAll(records[i], inbox[i], timeout).leader == i <==> i == top.id)
  {
    forall i | i in records ensures HandleAll(records[i], inbox[i], timeout).leader == top.id {
      if i == top.id {
        StaysWithTop(records[i], top, inbox[i], start, timeout);
      } else {
        ReachesTop(records[i], top, inbox[i], start, timeout);
      }
    }
  }

  // ----- the cluster -----

  datatype Decision = AnnounceSelf | RunElection | Idle

  /** What a tick of the Run loop decides. */
  function Decide(r: Record, self: Id, now: int, timeout: int): Decision {
    if r.leader == self then AnnounceSelf else if IsFresh(r, now, timeout) then Idle else RunElection
  }

  /** HandleElection: does a candidate's probe make a node of this priority start an election of its own? */
  predicate Provokes(candidate: int, prio: int) {
    candidate < prio
  }

  /** `starting` are the nodes whose Run loop has not begun, `probed` those that a probe made start an election,
      `claiming` those whose election got no answer and that are about to claim. */
  datatype Cluster = Cluster(prio: map<Id, int>, rec: map<Id, Record>, wire: set<(Id, Claim)>,
                             starting: set<Id>, probed: set<Id>, claiming: set<Id>, now: int, timeout: int)

  datatype Cause = Startup | NoHealthyLeader | Provoked

  /** An election of i probes its higher-priority peers: `reached` are the ones that handle the probe and
      `answered` the ones whose answer comes back. */
  datatype Step =
    | Campaign(i: Id, cause: Cause, reached: set<Id>, answered: set<Id>)
    | BecomeLeader(i: Id)
    | Announce(i: Id)
    | Receive(i: Id, m: Claim)
    | Wait(d: nat)

  /** The peers that an election of i probes. */
  function Higher(prio: map<Id, int>, i: Id): set<Id> {
    set j | j in prio && i in prio && Provokes(prio[i], prio[j])
  }

  predicate Enabled(c: Cluster, s: Step) {
    match s
    case Campaign(i, cause, reached, answered) =>
      && i in c.prio && i in c.rec && i !in c.claiming && answered <= reached <= Higher(c.prio, i)
      && (match cause
          case Startup => i in c.starting
          case NoHealthyLeader => i !in c.starting && Decide(c.rec[i], i, c.now, c.timeout) == RunElection
          case Provoked => i in c.probed)
    case BecomeLeader(i) => i in c.prio && i in c.rec && i in c.claiming
    case Announce(i) =>
      i in c.prio && i in c.rec && i !in c.starting && Decide(c.rec[i], i, c.now, c.timeout) == AnnounceSelf
    case Receive(i, m) => i in c.rec && (i, m) in c.wire
    case Wait(_) => true
  }

  function Broadcast(c: Cluster, m: Claim): set<(Id, Claim)> {
    set j | j in c.prio && j != m.id :: (j, m)
  }

  /** Every member knows every member.  Coordinator messages may be received any number of times, in any order, or
      never. */
  function Do(c: Cluster, s: Step): Cluster
    requires Enabled(c, s)
  {
    match s
    case Campaign(i, cause, reached, answered) =>
      c.(starting := if cause.Startup? then c.starting - {i} else c.starting,
         probed := (if cause.Provoked? then c.probed - {i} else c.probed) + reached,
         claiming := if answered == {} then c.claiming + {i} else c.claiming)
    case BecomeLeader(i) =>
      var r := Claimed(c.rec[i], i, c.prio[i], c.now);
      c.(rec := c.rec[i := r], wire := c.wire + Broadcast(c, Claim(i, c.prio[i], r.term)), claiming := c.claiming - {i})
    case Announce(i) => c.(wire := c.wire + Broadcast(c, Claim(i, c.prio[i], c.rec[i].term)))
    case Receive(i, m) => c.(rec := c.rec[i := Handle(c.rec[i], m, c.now, c.timeout)])
    case Wait(d) => c.(now := c.now + d)
  }

  predicate Legal(c: Cluster, run: seq<Step>)
    decreases |run|
  {
    run == [] || (Enabled(c, run[0]) && Legal(Do(c, run[0]), run[1..]))
  }

  function Exec(c: Cluster, run: seq<Step>): Cluster
    requires Legal(c, run)
    decreases |run|
  {
    if run == [] then c else Exec(Do(c, run[0]), run[1..])
  }

  lemma {:induction false} ExecConcat(c: Cluster, a: seq<Step>, b: seq<Step>)
    requires Legal(c, a + b)
    ensures Legal(c, a) && Legal(Exec(c, a), b) && Exec(c, a + b) == Exec(Exec(c, a), b)
    decreases |a|
  {
    if a == [] {
      assert a + b == b;
    } else {
      assert (a + b)[1..] == a[1..] + b;
      ExecConcat(Do(c, a[0]), a[1..], b);
    }
  }

  /** How often node s claims in a run. */
  function Wins(run: seq<Step>, s: Id): nat {
    if run == [] then 0 else (if run[0] == BecomeLeader(s) then 1 else 0) + Wins(run[1..], s)
  }

  predicate IsTop(c: Cluster, t: Id) {
    && t in c.prio && c.rec.Keys == c.prio.Keys && "" !in c.prio
    && forall j :: j in c.prio && j != t ==> c.prio[j] < c.prio[t]
  }

  // ----- who claims -----

  /** The probes of this step are reliable: if there is a peer to probe, one answers. */
  predicate GotAnswer(prio: map<Id, int>, s: Step) {
    s.Campaign? && Higher(prio, s.i) != {} ==> s.answered != {}
  }

  predicate AllGotAnswers(prio: map<Id, int>, run: seq<Step>) {
    forall x :: 0 <= x < |run| ==> GotAnswer(prio, run[x])
  }

  predicate OnlyTopClaims(c: Cluster, run: seq<Step>, t: Id)
    requires Legal(c, run)
    decreases |run|
  {
    c.claiming <= {t} && (run == [] || OnlyTopClaims(Do(c, run[0]), run[1..], t))
  }

  lemma OpposedUnlessTop(c: Cluster, t: Id, i: Id)
    requires IsTop(c, t) && i in c.prio
    ensures Higher(c.prio, i) == {} <==> i == t
  {
    if i != t {
      assert t in Higher(c.prio, i);
    }
  }

  lemma TopStays(c: Cluster, t: Id, s: Step)
    requires IsTop(c, t) && Enabled(c, s)
    ensures IsTop(Do(c, s), t) && Do(c, s).prio == c.prio
  {
  }

  /** In every run from a state where nobody else is about to claim, only the top node ever is, iff every election
      that had a peer to probe got an answer. */
  lemma {:induction false} OnlyTopClaimsIff(c: Cluster, t: Id, run: seq<Step>)
    requires IsTop(c, t) && c.claiming <= {t} && Legal(c, run)
    ensures OnlyTopClaims(c, run, t) <==> AllGotAnswers(c.prio, run)
    decreases |run|
  {
    if run != [] {
      var s, rest, c1 := run[0], run[1..], Do(c, run[0]);
      assert forall x :: 0 <= x < |rest| ==> rest[x] == run[x + 1];
      TopStays(c, t, s);
      if s.Campaign? {
        OpposedUnlessTop(c, t, s.i);
      }
      assert c1.claiming <= {t} <==> GotAnswer(c.prio, s);
      if c1.claiming <= {t} {
        OnlyTopClaimsIff(c1, t, rest);
        assert AllGotAnswers(c.prio, run) <==> AllGotAnswers(c.prio, rest);
      }
    }
  }

  // ----- safety from start-up -----

  /** Follows the top node or nobody, on a term that the top node has reached. */
  ghost predicate RecordOk(r: Record, t: Id, prio: int, term: int) {
    && r.leader in {"", t} && 0 <= r.term <= term && (r.leader == "" <==> r.term == 0)
    && (r.leader == t ==> r.prio == prio)
  }

  ghost predicate SafetyInv(c: Cluster, t: Id) {
    && IsTop(c, t) && c.claiming <= {t}
    && (forall i :: i in c.rec ==> RecordOk(c.rec[i], t, c.prio[t], c.rec[t].term))
    && (forall p :: p in c.wire ==> ClaimOf(p, t, c.prio[t], 0, c.rec[t].term))
  }

  lemma SafeCampaign(c: Cluster, t: Id, s: Step)
    requires SafetyInv(c, t) && Enabled(c, s) && GotAnswer(c.prio, s) && s.Campaign?
    ensures SafetyInv(Do(c, s), t)
  {
    OpposedUnlessTop(c, t, s.i);
  }

  lemma SafeClaim(c: Cluster, t: Id)
    requires SafetyInv(c, t) && Enabled(c, BecomeLeader(t))
    ensures SafetyInv(Do(c, BecomeLeader(t)), t)
  {
    assert RecordOk(c.rec[t], t, c.prio[t], c.rec[t].term);
  }

  lemma SafeAnnouncement(c: Cluster, t: Id, i: Id)
    requires SafetyInv(c, t) && Enabled(c, Announce(i))
    ensures SafetyInv(Do(c, Announce(i)), t)
  {
    assert RecordOk(c.rec[i], t, c.prio[t], c.rec[t].term);
  }

  lemma SafeReceipt(c: Cluster, t: Id, i: Id, m: Claim)
    requires SafetyInv(c, t) && Enabled(c, Receive(i, m))
    ensures SafetyInv(Do(c, Receive(i, m)), t) && Do(c, Receive(i, m)).rec[i].leader == t
  {
    assert ClaimOf((i, m), t, c.prio[t], 0, c.rec[t].term);
    assert RecordOk(c.rec[i], t, c.prio[t], c.rec[t].term);
    assert RecordOk(Handle(c.rec[i], m, c.now, c.timeout), t, c.prio[t], c.rec[t].term);
  }

  lemma SafetyStep(c: Cluster, t: Id, s: Step)
    requires SafetyInv(c, t) && Enabled(c, s) && GotAnswer(c.prio, s)
    ensures SafetyInv(Do(c, s), t)
    ensures s.Receive? ==> Do(c, s).rec[s.i].leader == t
  {
    match s
    case Campaign(_, _, _, _) => SafeCampaign(c, t, s);
    case BecomeLeader(_) => SafeClaim(c, t);
    case Announce(i) => SafeAnnouncement(c, t, i);
    case Receive(i, m) => SafeReceipt(c, t, i, m);
    case Wait(_) =>
  }

  lemma {:induction false} SafetyRun(c: Cluster, t: Id, run: seq<Step>)
    requires SafetyInv(c, t) && Legal(c, run) && AllGotAnswers(c.prio, run)
    ensures SafetyInv(Exec(c, run), t) && Exec(c, run).prio == c.prio
    decreases |run|
  {
    if run != [] {
      assert forall x :: 0 <= x < |run[1..]| ==> run[1..][x] == run[x + 1];
      SafetyStep(c, t, run[0]);
      SafetyRun(Do(c, run[0]), t, run[1..]);
    }
  }

  function StartingUp(prio: map<Id, int>, timeout: int): Cluster {
    Cluster(prio, map i | i in prio :: UNKNOWN, {}, prio.Keys, {}, {}, 0, timeout)
  }

  /** Election safety.  In every run from start-up whose elections got answers, at every point: nobody but the
      top-priority node claims; every known leader is that node; every recorded or in-flight term is at most its
      term; and whoever receives a Coordinator message follows it from then on. */
  lemma ElectionSafety(prio: map<Id, int>, timeout: int, t: Id, run: seq<Step>, s: Step)
    requires IsTop(StartingUp(prio, timeout), t) && Legal(StartingUp(prio, timeout), run)
    requires AllGotAnswers(prio, run) && Enabled(Exec(StartingUp(prio, timeout), run), s)
    ensures var c := Exec(StartingUp(prio, timeout), run);
            && t in c.rec && c.claiming <= {t}
            && (forall i :: i in c.rec ==> c.rec[i].leader in {"", t} && c.rec[i].term <= c.rec[t].term)
            && (forall p :: p in c.wire ==> p.1.id == t && p.1.term <= c.rec[t].term)
            && (s.BecomeLeader? ==> s.i == t)
            && (s.Receive? ==> Do(c, s).rec[s.i].leader == t)
  {
    var c := Exec(StartingUp(prio, timeout), run);
    SafetyRun(StartingUp(prio, timeout), t, run);
    if s.Receive? {
      SafetyStep(c, t, s);
    }
  }

  /** While the leader announces itself nobody elects: an announcement goes out to every other node with the leader's
      term, and a node that receives it decides on Idle until `timeout` later. */
  lemma AnnouncementsKeepQuiet(prio: map<Id, int>, timeout: int, t: Id, run: seq<Step>, i: Id, later: int)
    requires IsTop(StartingUp(prio, timeout), t) && Legal(StartingUp(prio, timeout), run) && AllGotAnswers(prio, run)
    requires Enabled(Exec(StartingUp(prio, timeout), run), Announce(t)) && i in prio && i != t
    ensures var c := Exec(StartingUp(prio, timeout), run);
            && t in c.rec && t in c.prio
            && var m, c1 := Claim(t, c.prio[t], c.rec[t].term), Do(c, Announce(t));
               && (i, m) in c1.wire && i in c1.rec
               && (c1.now <= later ==>
                     (Decide(Do(c1, Receive(i, m)).rec[i], i, later, timeout) == Idle <==> later <= c1.now + timeout))
  {
    SafetyRun(StartingUp(prio, timeout), t, run);
    var c := Exec(StartingUp(prio, timeout), run);
    TimeoutStays(StartingUp(prio, timeout), run);
    assert RecordOk(c.rec[i], t, c.prio[t], c.rec[t].term) && RecordOk(c.rec[t], t, c.prio[t], c.rec[t].term);
    HeardIsFresh(c.rec[i], t, c.prio[t], c.rec[t].term, c.now, timeout);
  }

  lemma HeardIsFresh(r: Record, t: Id, prio: int, term: int, now: int, timeout: int)
    requires t != "" && RecordOk(r, t, prio, term) && term >= 1
    ensures Handle(r, Claim(t, prio, term), now, timeout) == Record(t, prio, term, now)
  {
  }

  lemma {:induction false} TimeoutStays(c: Cluster, run: seq<Step>)
    requires Legal(c, run)
    ensures Exec(c, run).timeout == c.timeout
    decreases |run|
  {
    if run != [] {
      TimeoutStays(Do(c, run[0]), run[1..]);
    }
  }

  // ----- failover -----

  /** The old leader is gone: nothing on the wire, nobody follows a survivor, all records are stale, and nobody but
      perhaps the top survivor is in the middle of claiming. */
  predicate Orphaned(c: Cluster, t: Id) {
    && IsTop(c, t) && c.claiming <= {t} && c.wire == {}
    && forall i :: i in c.rec ==> c.rec[i].leader !in c.prio && !IsFresh(c.rec[i], c.now, c.timeout)
  }

  /** Would the orphaned record r accept a claim of term n by the top survivor?  Until it does, its holder keeps
      starting elections that probe the top survivor, and each probe makes that one claim a newer term. */
  predicate Convinces(r: Record, prio: int, n: int) {
    prio > r.prio || (prio == r.prio && n >= r.term) || n > r.term
  }

  /** An orphaned record that has changed follows the top survivor, whose term by now convinces it. */
  ghost predicate SurvivorInv(r0: Record, r: Record, t: Id, prio: int, term: int) {
    r == r0 || (r.leader == t && r.prio == prio && Convinces(r0, prio, term))
  }

  ghost predicate ClaimOf(p: (Id, Claim), t: Id, prio: int, low: int, high: int) {
    p.0 != t && p.1.id == t && p.1.prio == prio && low < p.1.term <= high
  }

  /** c is reachable from the orphaned c0 after the top survivor t claimed `wins` times. */
  ghost predicate FailoverInv(c0: Cluster, c: Cluster, t: Id, wins: nat)
    requires t in c0.prio && t in c0.rec
  {
    && c.prio == c0.prio && c.timeout == c0.timeout && c.now >= c0.now && c.rec.Keys == c0.rec.Keys
    && c.claiming <= {t} && c.rec[t].term == c0.rec[t].term + wins
    && (wins == 0 ==> c.rec[t] == c0.rec[t]) && (wins > 0 ==> c.rec[t].leader == t)
    && (forall p :: p in c.wire ==> ClaimOf(p, t, c0.prio[t], c0.rec[t].term, c.rec[t].term))
    && (forall i :: i in c.rec && i != t ==> SurvivorInv(c0.rec[i], c.rec[i], t, c0.prio[t], c.rec[t].term))
  }

  function WinsOf(s: Step, t: Id): nat {
    if s == BecomeLeader(t) then 1 else 0
  }

  lemma QuietFailover(c0: Cluster, c: Cluster, t: Id, wins: nat, s: Step)
    requires Orphaned(c0, t) && FailoverInv(c0, c, t, wins) && Enabled(c, s) && GotAnswer(c.prio, s)
    requires s.Campaign? || s.Announce? || s.Wait?
    ensures FailoverInv(c0, Do(c, s), t, wins) && Do(c, s).rec == c.rec
  {
    if s.Campaign? {
      OpposedUnlessTop(c, t, s.i);
    }
  }

  lemma ClaimFailover(c0: Cluster, c: Cluster, t: Id, wins: nat)
    requires Orphaned(c0, t) && FailoverInv(c0, c, t, wins) && Enabled(c, BecomeLeader(t))
    ensures FailoverInv(c0, Do(c, BecomeLeader(t)), t, wins + 1)
    ensures forall i :: i in c0.rec && i != t ==> (i, NextClaim(c0, t, wins)) in Do(c, BecomeLeader(t)).wire
  {
  }

  /** A survivor that has not changed yet takes the top survivor's claim iff the claim convinces it. */
  lemma HearFailover(c0: Cluster, c: Cluster, t: Id, wins: nat, i: Id, m: Claim)
    requires Orphaned(c0, t) && FailoverInv(c0, c, t, wins) && Enabled(c, Receive(i, m))
    ensures FailoverInv(c0, Do(c, Receive(i, m)), t, wins) && i != t
    ensures c.rec[i] == c0.rec[i] ==>
      (Do(c, Receive(i, m)).rec[i].leader == t <==> Convinces(c0.rec[i], c0.prio[t], m.term))
    ensures c.rec[i].leader == t ==> Do(c, Receive(i, m)).rec[i].leader == t
  {
    assert ClaimOf((i, m), t, c0.prio[t], c0.rec[t].term, c.rec[t].term);
    assert SurvivorInv(c0.rec[i], c.rec[i], t, c0.prio[t], c.rec[t].term);
  }

  /** Each step of failover: the invariant holds, nobody leaves the top survivor, and a survivor that hears a
      convincing claim follows it. */
  lemma FailoverStep(c0: Cluster, c: Cluster, t: Id, wins: nat, s: Step)
    requires Orphaned(c0, t) && FailoverInv(c0, c, t, wins) && Enabled(c, s) && GotAnswer(c.prio, s)
    ensures FailoverInv(c0, Do(c, s), t, wins + WinsOf(s, t))
    ensures forall i :: i in c.rec && i != t && c.rec[i].leader == t ==> Do(c, s).rec[i].leader == t
    ensures s.Receive? && Convinces(c0.rec[s.i], c0.prio[t], s.m.term) ==> Do(c, s).rec[s.i].leader == t
  {
    match s
    case Campaign(_, _, _, _) => QuietFailover(c0, c, t, wins, s);
    case Announce(_) => QuietFailover(c0, c, t, wins, s);
    case Wait(_) => QuietFailover(c0, c, t, wins, s);
    case BecomeLeader(i) =>
      assert i == t;
      ClaimFailover(c0, c, t, wins);
    case Receive(i, m) =>
      HearFailover(c0, c, t, wins, i, m);
      assert SurvivorInv(c0.rec[i], c.rec[i], t, c0.prio[t], c.rec[t].term);
  }

  predicate Hears(run: seq<Step>, i: Id, r: Record, prio: int) {
    exists x :: 0 <= x < |run| && HearsAt(run[x], i, r, prio)
  }

  predicate HearsAt(s: Step, i: Id, r: Record, prio: int) {
    s.Receive? && s.i == i && Convinces(r, prio, s.m.term)
  }

  lemma {:induction false} FailoverRun(c0: Cluster, c: Cluster, t: Id, wins: nat, run: seq<Step>)
    requires Orphaned(c0, t) && FailoverInv(c0, c, t, wins) && Legal(c, run) && AllGotAnswers(c.prio, run)
    ensures FailoverInv(c0, Exec(c, run), t, wins + Wins(run, t))
    ensures forall i :: i in c.rec && i != t && (c.rec[i].leader == t || Hears(run, i, c0.rec[i], c0.prio[t])) ==>
      Exec(c, run).rec[i].leader == t
    decreases |run|
  {
    if run != [] {
      var s, rest := run[0], run[1..];
      assert forall x :: 0 <= x < |rest| ==> rest[x] == run[x + 1];
      FailoverStep(c0, c, t, wins, s);
      FailoverRun(c0, Do(c, s), t, wins + WinsOf(s, t), rest);
      forall i | i in c.rec && i != t && (c.rec[i].leader == t || Hears(run, i, c0.rec[i], c0.prio[t]))
        ensures Exec(c, run).rec[i].leader == t
      {
        if c.rec[i].leader != t {
          var x :| 0 <= x < |run| && HearsAt(run[x], i, c0.rec[i], c0.prio[t]);
          if x > 0 {
            assert HearsAt(rest[x - 1], i, c0.rec[i], c0.prio[t]);
          }
        }
      }
    }
  }

  /** A run around one claim of t, in its parts. */
  lemma AroundClaim(c: Cluster, t: Id, pre: seq<Step>, post: seq<Step>)
    requires Legal(c, pre + ([BecomeLeader(t)] + post))
    ensures Legal(c, pre) && Enabled(Exec(c, pre), BecomeLeader(t))
    ensures Legal(c, pre + [BecomeLeader(t)]) && Exec(c, pre + [BecomeLeader(t)]) == Do(Exec(c, pre), BecomeLeader(t))
    ensures Legal(Do(Exec(c, pre), BecomeLeader(t)), post)
    ensures Exec(c, pre + ([BecomeLeader(t)] + post)) == Exec(Do(Exec(c, pre), BecomeLeader(t)), post)
  {
    var claim := [BecomeLeader(t)];
    ExecConcat(c, pre, claim + post);
    ExecConcat(Exec(c, pre), claim, post);
    assert pre + claim + post == pre + (claim + post);
    ExecConcat(c, pre + claim, post);
    ExecConcat(c, pre, claim);
    assert claim[1..] == [];
  }

  /** Once the top survivor's term is above everybody's, hearing any claim of that term is enough. */
  lemma ConvincedByTerm(c0: Cluster, c: Cluster, t: Id, wins: nat, limit: int, post: seq<Step>, m: Claim)
    requires Orphaned(c0, t) && FailoverInv(c0, c, t, wins) && wins > 0 && Legal(c, post) && AllGotAnswers(c.prio, post)
    requires m.term > limit
    requires forall i :: i in c0.rec ==> c0.rec[i].term <= limit
    requires forall i :: i in c0.rec && i != t ==> Receive(i, m) in post
    ensures forall i :: i in Exec(c, post).rec ==> Exec(c, post).rec[i].leader == t
  {
    FailoverRun(c0, c, t, wins, post);
    forall i | i in c0.rec && i != t ensures Hears(post, i, c0.rec[i], c0.prio[t]) {
      var x :| 0 <= x < |post| && post[x] == Receive(i, m);
      assert HearsAt(post[x], i, c0.rec[i], c0.prio[t]);
    }
  }

  lemma ClaimThenFollow(c0: Cluster, c: Cluster, t: Id, wins: nat, limit: int, post: seq<Step>)
    requires Orphaned(c0, t) && FailoverInv(c0, c, t, wins) && Enabled(c, BecomeLeader(t))
    requires Legal(Do(c, BecomeLeader(t)), post) && AllGotAnswers(c0.prio, post)
    requires wins >= limit - c0.rec[t].term && forall i :: i in c0.rec ==> c0.rec[i].term <= limit
    requires forall i :: i in c0.rec && i != t ==> Receive(i, NextClaim(c0, t, wins)) in post
    ensures forall i :: i in c0.rec && i != t ==> (i, NextClaim(c0, t, wins)) in Do(c, BecomeLeader(t)).wire
    ensures var end := Exec(Do(c, BecomeLeader(t)), post);
            forall i :: i in end.rec ==> end.rec[i].leader == t
  {
    ClaimFailover(c0, c, t, wins);
    ConvincedByTerm(c0, Do(c, BecomeLeader(t)), t, wins + 1, limit, post, NextClaim(c0, t, wins));
  }

  /** What the top survivor announces after its claim number wins + 1. */
  function NextClaim(c0: Cluster, t: Id, wins: nat): Claim
    requires t in c0.prio && t in c0.rec
  {
    Claim(t, c0.prio[t], c0.rec[t].term + wins + 1)
  }

  /** Failover bound.  From an orphaned cluster, let `limit` bound the survivors' terms and let the top survivor
      have claimed limit - term times.  Its next claim goes out to every survivor, and once each has received that
      one, everybody follows the top survivor, whatever else happens before, in between and afterwards. */
  lemma FailoverBound(c0: Cluster, t: Id, limit: int, pre: seq<Step>, post: seq<Step>)
    requires Orphaned(c0, t) && Legal(c0, pre + ([BecomeLeader(t)] + post))
    requires AllGotAnswers(c0.prio, pre) && AllGotAnswers(c0.prio, post)
    requires forall i :: i in c0.rec ==> c0.rec[i].term <= limit
    requires Wins(pre, t) >= limit - c0.rec[t].term
    requires forall i :: i in c0.rec && i != t ==> Receive(i, NextClaim(c0, t, Wins(pre, t))) in post
    ensures Legal(c0, pre + [BecomeLeader(t)])
    ensures forall i :: i in c0.rec && i != t ==>
      (i, NextClaim(c0, t, Wins(pre, t))) in Exec(c0, pre + [BecomeLeader(t)]).wire
    ensures var c := Exec(c0, pre + ([BecomeLeader(t)] + post));
            forall i :: i in c.rec ==> c.rec[i].leader == t
  {
    AroundClaim(c0, t, pre, post);
    FailoverRun(c0, c0, t, 0, pre);
    ClaimThenFollow(c0, Exec(c0, pre), t, Wins(pre, t), limit, post);
  }

  /** The bound is tight: a survivor that remembers a leader of higher priority does not follow the top survivor
      before that one has claimed more often than its term was behind the survivor's. */
  lemma FailoverNeedsElections(c0: Cluster, t: Id, run: seq<Step>, i: Id)
    requires Orphaned(c0, t) && Legal(c0, run) && AllGotAnswers(c0.prio, run)
    requires i in c0.rec && i != t && c0.rec[i].prio > c0.prio[t]
    ensures var c := Exec(c0, run);
            i in c.rec && (c.rec[i].leader == t ==> Wins(run, t) > c0.rec[i].term - c0.rec[t].term)
  {
    FailoverRun(c0, c0, t, 0, run);
    var c := Exec(c0, run);
    assert SurvivorInv(c0.rec[i], c.rec[i], t, c0.prio[t], c.rec[t].term);
  }

  /** In every run from an orphaned cluster nobody else comes to claim or considers itself the leader. */
  lemma FailoverSafety(c0: Cluster, t: Id, run: seq<Step>, i: Id)
    requires Orphaned(c0, t) && Legal(c0, run) && AllGotAnswers(c0.prio, run) && i in c0.rec && i != t
    ensures var c := Exec(c0, run);
            c.claiming <= {t} && i in c.rec && c.rec[i].leader != i
  {
    FailoverRun(c0, c0, t, 0, run);
    var c := Exec(c0, run);
    assert SurvivorInv(c0.rec[i], c.rec[i], t, c0.prio[t], c.rec[t].term);
  }

  // ----- failover happens -----

  /** The exact times: a tick starts an election iff the node is not the leader and knows none, or has not heard of it
      for longer than the timeout. */
  lemma ElectsIff(r: Record, self: Id, now: int, timeout: int)
    ensures Decide(r, self, now, timeout) == RunElection <==>
            r.leader != self && (r.leader == "" || now - r.seen > timeout)
  {
  }

  /** One election of the top survivor that a tick of survivor s brings about. */
  function Prompted(t: Id, s: Id): seq<Step> {
    [BecomeLeader(t), Campaign(s, NoHealthyLeader, {t}, {t}), Campaign(t, Provoked, {}, {})]
  }

  /** The top survivor is about to claim, and survivor s still has no healthy leader. */
  predicate Waiting(c: Cluster, t: Id, s: Id) {
    && IsTop(c, t) && c.claiming == {t} && c.starting == {}
    && s in c.prio && s != t && Decide(c.rec[s], s, c.now, c.timeout) == RunElection
  }

  lemma PromptedClaim(c: Cluster, t: Id, s: Id)
    requires Waiting(c, t, s)
    ensures Legal(c, Prompted(t, s)) && Waiting(Exec(c, Prompted(t, s)), t, s)
    ensures AllGotAnswers(c.prio, Prompted(t, s)) && Exec(c, Prompted(t, s)).prio == c.prio
    ensures Wins(Prompted(t, s), t) == 1
  {
    var run := Prompted(t, s);
    assert t in Higher(c.prio, s);
    OpposedUnlessTop(c, t, t);
    var c1 := Do(c, run[0]);
    assert Decide(c1.rec[s], s, c1.now, c1.timeout) == RunElection;
    var c2 := Do(c1, run[1]);
    var c3 := Do(c2, run[2]);
    assert run[2..] == [run[2]] + [] && run[1..] == [run[1]] + run[2..] && run == [run[0]] + run[1..];
    First(c2, run[2], []);
    First(c1, run[1], run[2..]);
    First(c, run[0], run[1..]);
    assert Exec(c, run) == c3 && c3.claiming == {t};
    WinsConcat([run[0]], run[1..], t);
    WinsConcat([run[1]], run[2..], t);
    assert Wins([run[0]], t) == 1 && Wins([run[1]], t) == 0 && Wins([run[2]], t) == 0;
  }

  /** n claims of the top survivor, one after the other. */
  function Claims(t: Id, s: Id, n: nat): seq<Step> {
    if n == 0 then [] else Prompted(t, s) + Claims(t, s, n - 1)
  }

  lemma {:induction false} WinsConcat(a: seq<Step>, b: seq<Step>, t: Id)
    ensures Wins(a + b, t) == Wins(a, t) + Wins(b, t)
  {
    if a == [] {
      assert a + b == b;
    } else {
      assert (a + b)[1..] == a[1..] + b;
      WinsConcat(a[1..], b, t);
    }
  }

  lemma {:induction false} ClaimsArePossible(c: Cluster, t: Id, s: Id, n: nat)
    requires Waiting(c, t, s)
    ensures Legal(c, Claims(t, s, n)) && Waiting(Exec(c, Claims(t, s, n)), t, s)
    ensures AllGotAnswers(c.prio, Claims(t, s, n)) && Wins(Claims(t, s, n), t) == n
    decreases n
  {
    if n > 0 {
      var first, rest := Prompted(t, s), Claims(t, s, n - 1);
      PromptedClaim(c, t, s);
      ClaimsArePossible(Exec(c, first), t, s, n - 1);
      LegalConcat(c, first, rest);
      ExecConcat(c, first, rest);
      WinsConcat(first, rest, t);
    }
  }

  /** Everybody in q receives m. */
  function Deliveries(q: seq<Id>, m: Claim): seq<Step> {
    seq(|q|, x requires 0 <= x < |q| => Receive(q[x], m))
  }

  lemma {:induction false} DeliveriesArePossible(c: Cluster, q: seq<Id>, m: Claim)
    requires forall x :: 0 <= x < |q| ==> q[x] in c.rec && (q[x], m) in c.wire
    ensures Legal(c, Deliveries(q, m))
    decreases |q|
  {
    if q != [] {
      var run, s := Deliveries(q, m), Receive(q[0], m);
      assert run[1..] == Deliveries(q[1..], m);
      DeliveriesArePossible(Do(c, s), q[1..], m);
    }
  }

  lemma {:induction false} Enumerate(s: set<Id>) returns (q: seq<Id>)
    ensures forall i :: i in q <==> i in s
    decreases |s|
  {
    q := [];
    if s != {} {
      var x :| x in s;
      var rest := Enumerate(s - {x});
      q := [x] + rest;
    }
  }

  lemma {:induction false} TermLimit(rec: map<Id, Record>, ids: set<Id>) returns (limit: int)
    requires ids <= rec.Keys
    ensures forall i :: i in ids ==> rec[i].term <= limit
    decreases |ids|
  {
    limit := 0;
    if ids != {} {
      var x :| x in ids;
      var rest := TermLimit(rec, ids - {x});
      limit := if rest >= rec[x].term then rest else rec[x].term;
    }
  }

  /** Nothing is under way: every Run loop has started, and no election. */
  predicate AtRest(c: Cluster) {
    c.starting == {} && c.probed == {} && c.claiming == {}
  }

  predicate Recovered(c: Cluster, run: seq<Step>, t: Id)
    requires Legal(c, run)
  {
    AllGotAnswers(c.prio, run) && forall i :: i in Exec(c, run).rec ==> Exec(c, run).rec[i].leader == t
  }

  /** The top survivor's first tick. */
  lemma FirstTick(c: Cluster, t: Id)
    requires Orphaned(c, t) && AtRest(c)
    ensures var s := Campaign(t, NoHealthyLeader, {}, {});
            && Enabled(c, s) && GotAnswer(c.prio, s) && Do(c, s) == c.(claiming := {t})
  {
    OpposedUnlessTop(c, t, t);
  }

  /** The deliveries of one claim to everybody but the claimant. */
  lemma DeliverToAll(c: Cluster, t: Id, m: Claim) returns (post: seq<Step>)
    requires forall i :: i in c.rec && i != t ==> (i, m) in c.wire
    ensures Legal(c, post) && AllGotAnswers(c.prio, post)
    ensures forall i :: i in c.rec && i != t ==> Receive(i, m) in post
  {
    var q := Enumerate(c.rec.Keys - {t});
    assert forall x :: 0 <= x < |q| ==> q[x] in q;
    post := Deliveries(q, m);
    DeliveriesArePossible(c, q, m);
    forall i | i in c.rec && i != t ensures Receive(i, m) in post {
      assert i in q;
      var x :| 0 <= x < |q| && q[x] == i;
      assert post[x] == Receive(i, m);
    }
  }

  lemma ClaimAndDeliver(c0: Cluster, c: Cluster, t: Id, wins: nat) returns (post: seq<Step>)
    requires Orphaned(c0, t) && FailoverInv(c0, c, t, wins) && Enabled(c, BecomeLeader(t))
    ensures Legal(c, [BecomeLeader(t)] + post) && AllGotAnswers(c0.prio, post)
    ensures forall i :: i in c0.rec && i != t ==> Receive(i, NextClaim(c0, t, wins)) in post
  {
    ClaimFailover(c0, c, t, wins);
    post := DeliverToAll(Do(c, BecomeLeader(t)), t, NextClaim(c0, t, wins));
    First(c, BecomeLeader(t), post);
  }

  lemma AnswersConcat(prio: map<Id, int>, a: seq<Step>, t: Id, b: seq<Step>)
    requires AllGotAnswers(prio, a) && AllGotAnswers(prio, b)
    ensures AllGotAnswers(prio, a + ([BecomeLeader(t)] + b))
  {
  }

  /** Claims, the last claim, and its deliveries, put together. */
  lemma FinishFailover(c0: Cluster, t: Id, limit: int, pre: seq<Step>)
    requires Orphaned(c0, t) && Legal(c0, pre) && AllGotAnswers(c0.prio, pre)
    requires Enabled(Exec(c0, pre), BecomeLeader(t))
    requires forall i :: i in c0.rec ==> c0.rec[i].term <= limit
    requires Wins(pre, t) >= limit - c0.rec[t].term
    ensures exists run :: Legal(c0, run) && Recovered(c0, run, t)
  {
    FailoverRun(c0, c0, t, 0, pre);
    var post := ClaimAndDeliver(c0, Exec(c0, pre), t, Wins(pre, t));
    var run := pre + ([BecomeLeader(t)] + post);
    LegalConcat(c0, pre, [BecomeLeader(t)] + post);
    FailoverBound(c0, t, limit, pre, post);
    AnswersConcat(c0.prio, pre, t, post);
    assert Recovered(c0, run, t);
  }

  /** Failover happens.  From every orphaned cluster at rest, ticks, probes and deliveries alone can lead to a state in
      which everybody follows the top survivor, with every election that has a peer to probe answered. */
  lemma FailoverIsPossible(c0: Cluster, t: Id)
    requires Orphaned(c0, t) && AtRest(c0)
    ensures exists run :: Legal(c0, run) && Recovered(c0, run, t)
  {
    var limit := TermLimit(c0.rec, c0.rec.Keys);
    var first := Campaign(t, NoHealthyLeader, {}, {});
    FirstTick(c0, t);
    First(c0, first, []);
    var c1 := Do(c0, first);
    assert [first] + [] == [first];
    if c0.rec.Keys == {t} {
      var far := c0.rec[t].term;
      FinishFailover(c0, t, far, [first]);
    } else {
      var s :| s in c0.rec && s != t;
      assert Waiting(c1, t, s);
      var n: nat := limit - c0.rec[t].term;
      var claims := Claims(t, s, n);
      ClaimsArePossible(c1, t, s, n);
      First(c0, first, claims);
      assert Wins([first] + claims, t) == n by {
        WinsConcat([first], claims, t);
      }
      assert Exec(c0, [first] + claims) == Exec(c1, claims);
      FinishFailover(c0, t, limit, [first] + claims);
    }
  }

  // ----- a healthy leader displaced -----

  const TOP: Id := "a"
  const MID: Id := "b"
  const LOW: Id := "c"
  const PRIO: map<Id, int> := map[TOP := 3, MID := 2, LOW := 1]
  const OLDWORD: Claim := Claim(TOP, 3, 1)
  const WORD: Claim := Claim(TOP, 3, 2)

  /** Nodes a, b and c have priorities 3, 2 and 1 and the timeout is 10.  At time 0 node a wins; then b starts up and
      its probe makes a claim once more, which b hears of. */
  const OPENING: seq<Step> :=
    [Campaign(TOP, Startup, {}, {}), BecomeLeader(TOP), Campaign(MID, Startup, {TOP}, {TOP})]
  const AGAIN: seq<Step> := [Campaign(TOP, Provoked, {}, {}), BecomeLeader(TOP), Receive(MID, WORD)]

  /** Time 10: a announces itself again and b hears it.  Time 11: c starts up and its probe reaches b, which
      therefore holds an election although its record is fresh; b's own probes of a fail, so b claims, and its
      next tick announces the claim to a. */
  const REFRESH: seq<Step> := [Wait(10), Announce(TOP), Receive(MID, WORD), Wait(1)]
  const TAKEOVER: seq<Step> :=
    [Campaign(LOW, Startup, {MID}, {MID}), Campaign(MID, Provoked, {}, {}), BecomeLeader(MID), Announce(MID),
     Receive(TOP, Claim(MID, 2, 3))]

  function Opened(): Cluster {
    Cluster(PRIO, map[TOP := Record(TOP, 3, 1, 0), MID := UNKNOWN, LOW := UNKNOWN],
            {(MID, OLDWORD), (LOW, OLDWORD)}, {LOW}, {TOP}, {}, 0, 10)
  }

  /** The trio after a's second claim, at time `now`, with b having heard of a at time `heard`. */
  function Settled(heard: int, now: int): Cluster {
    Cluster(PRIO, map[TOP := Record(TOP, 3, 2, 0), MID := Record(TOP, 3, 2, heard), LOW := UNKNOWN],
            {(MID, OLDWORD), (LOW, OLDWORD), (MID, WORD), (LOW, WORD)}, {LOW}, {}, {}, now, 10)
  }

  /** Prefixing one step. */
  lemma First(c: Cluster, s: Step, rest: seq<Step>)
    requires Enabled(c, s) && Legal(Do(c, s), rest)
    ensures Legal(c, [s] + rest) && Exec(c, [s] + rest) == Exec(Do(c, s), rest)
  {
    assert ([s] + rest)[1..] == rest;
  }

  lemma Opening()
    ensures Legal(StartingUp(PRIO, 10), OPENING) && Exec(StartingUp(PRIO, 10), OPENING) == Opened()
  {
    var c0 := StartingUp(PRIO, 10);
    var c1 := Do(c0, OPENING[0]);
    assert Broadcast(c1, OLDWORD) == {(MID, OLDWORD), (LOW, OLDWORD)};
    var c2 := Do(c1, OPENING[1]);
    assert TOP in Higher(c2.prio, MID);
    assert Do(c2, OPENING[2]) == Opened();
    First(c2, OPENING[2], []);
    First(c1, OPENING[1], OPENING[2..]);
    First(c0, OPENING[0], OPENING[1..]);
  }

  lemma Again()
    ensures Legal(Opened(), AGAIN) && Exec(Opened(), AGAIN) == Settled(0, 0)
  {
    var c0 := Opened();
    var c1 := Do(c0, AGAIN[0]);
    assert Broadcast(c1, WORD) == {(MID, WORD), (LOW, WORD)};
    var c2 := Do(c1, AGAIN[1]);
    assert Do(c2, AGAIN[2]) == Settled(0, 0);
    First(c2, AGAIN[2], []);
    First(c1, AGAIN[1], AGAIN[2..]);
    First(c0, AGAIN[0], AGAIN[1..]);
  }

  lemma Refresh()
    ensures Legal(Settled(0, 0), REFRESH) && Exec(Settled(0, 0), REFRESH) == Settled(10, 11)
  {
    var c0 := Settled(0, 0);
    var c1 := Settled(0, 10);
    assert Broadcast(c1, WORD) == {(MID, WORD), (LOW, WORD)};
    assert Do(c1, REFRESH[1]) == c1;
    assert Do(c1, REFRESH[2]) == Settled(10, 10);
    First(Settled(10, 10), REFRESH[3], []);
    First(c1, REFRESH[2], REFRESH[3..]);
    First(c1, REFRESH[1], REFRESH[2..]);
    First(c0, REFRESH[0], REFRESH[1..]);
  }

  lemma Takeover()
    ensures Legal(Settled(10, 11), TAKEOVER) && TOP in Exec(Settled(10, 11), TAKEOVER).rec
    ensures Exec(Settled(10, 11), TAKEOVER).rec[TOP] == Record(MID, 2, 3, 11)
  {
    var c0 := Settled(10, 11);
    assert MID in Higher(c0.prio, LOW);
    var c1 := Do(c0, TAKEOVER[0]);
    var c2 := Do(c1, TAKEOVER[1]);
    var c3 := Do(c2, TAKEOVER[2]);
    assert (TOP, Claim(MID, 2, 3)) in Broadcast(c2, Claim(MID, 2, 3));
    var c4 := Do(c3, TAKEOVER[3]);
    First(c4, TAKEOVER[4], []);
    First(c3, TAKEOVER[3], TAKEOVER[4..]);
    First(c2, TAKEOVER[2], TAKEOVER[3..]);
    First(c1, TAKEOVER[1], TAKEOVER[2..]);
    First(c0, TAKEOVER[0], TAKEOVER[1..]);
  }

  const LEADING: seq<Step> := OPENING + AGAIN + REFRESH

  /** The announcements do not help: in this run from start-up node a leads, announces itself at time 10 and is
      heard, b's record is fresh at time 11, and yet b displaces a, whose own record is still from time 0. */
  lemma HealthyLeaderDisplaced()
    ensures var c0 := StartingUp(PRIO, 10);
            && Legal(c0, LEADING) && Legal(Exec(c0, LEADING), TAKEOVER)
            && var c := Exec(c0, LEADING);
               && c.rec.Keys == PRIO.Keys && c.rec[TOP].leader == TOP && c.probed == {}
               && Decide(c.rec[MID], MID, c.now, c.timeout) == Idle
               && TOP in Exec(c, TAKEOVER).rec && Exec(c, TAKEOVER).rec[TOP].leader == MID
  {
    var c0 := StartingUp(PRIO, 10);
    Opening();
    Again();
    LegalConcat(c0, OPENING, AGAIN);
    ExecConcat(c0, OPENING, AGAIN);
    Refresh();
    LegalConcat(c0, OPENING + AGAIN, REFRESH);
    ExecConcat(c0, OPENING + AGAIN, REFRESH);
    Takeover();
  }

  lemma {:induction false} LegalConcat(c: Cluster, a: seq<Step>, b: seq<Step>)
    requires Legal(c, a) && Legal(Exec(c, a), b)
    ensures Legal(c, a + b)
    decreases |a|
  {
    if a == [] {
      assert a + b == b;
    } else {
      assert (a + b)[1..] == a[1..] + b;
      LegalConcat(Do(c, a[0]), a[1..], b);
    }
  }
}
