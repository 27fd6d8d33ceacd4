/** The election object of one node, as the handlers and the Run loop update it. */
module Bully {
  import opened Election

  /** A live peer as the membership lists it; `answers` is the outcome of probing it during an election. */
  datatype Peer = Peer(id: Id, prio: int, answers: bool)

  type Outbox = seq<(Id, Claim)>

  /** Durations are nanoseconds. */
  const DEFAULT_TIMEOUT := 10_000_000_000

  predicate Outranked(self: Id, prio: int, peers: seq<Peer>) {
    exists x :: 0 <= x < |peers| && peers[x].id != self && peers[x].prio > prio && peers[x].answers
  }

  predicate Listed(peers: seq<Peer>, self: Id, id: Id) {
    id != self && exists x :: 0 <= x < |peers| && peers[x].id == id
  }

  /** The claim m goes to every listed peer but the sender, and to nobody else. */
  predicate SentToAll(sent: Outbox, m: Claim, self: Id, peers: seq<Peer>) {
    && (forall x :: 0 <= x < |peers| && peers[x].id != self ==> (peers[x].id, m) in sent)
    && (forall y :: 0 <= y < |sent| ==> sent[y].1 == m && Listed(peers, self, sent[y].0))
  }

  method SendCoordinator(m: Claim, self: Id, peers: seq<Peer>) returns (sent: Outbox)
    ensures SentToAll(sent, m, self, peers)
  {
    sent := [];
    for n := 0 to |peers|
      invariant forall x :: 0 <= x < n && peers[x].id != self ==> (peers[x].id, m) in sent
      invariant forall y :: 0 <= y < |sent| ==> sent[y].1 == m && Listed(peers, self, sent[y].0)
    {
      if peers[n].id != self {
        assert Listed(peers, self, peers[n].id);
        sent := sent + [(peers[n].id, m)];
      }
    }
  }

  /** The peers list every other member of the cluster, with its priority. */
  ghost predicate ListsCluster(peers: seq<Peer>, prio: map<Id, int>, self: Id) {
    && (forall x :: 0 <= x < |peers| && peers[x].id != self ==>
          peers[x].id in prio && peers[x].prio == prio[peers[x].id])
    && (forall j :: j in prio && j != self ==> Listed(peers, self, j))
  }

  /** The higher-priority peers that answer. */
  function Answering(peers: seq<Peer>, self: Id, prio: int): set<Id> {
    set x | 0 <= x < |peers| && peers[x].id != self && Provokes(prio, peers[x].prio) && peers[x].answers :: peers[x].id
  }

  /** An election of the object is a campaign of the cluster model: with complete membership knowledge it comes to
      claim iff the campaign with the same answers does, and what it then sends is the model's broadcast. */
  lemma ElectionIsCampaign(c: Cluster, i: Id, cause: Cause, peers: seq<Peer>, sent: Outbox, m: Claim)
    requires i in c.prio && i !in c.claiming && ListsCluster(peers, c.prio, i) && m.id == i
    requires var answered := Answering(peers, i, c.prio[i]);
             answered <= Higher(c.prio, i) ==> Enabled(c, Campaign(i, cause, answered, answered))
    ensures var answered := Answering(peers, i, c.prio[i]);
            && Enabled(c, Campaign(i, cause, answered, answered))
            && (!Outranked(i, c.prio[i], peers) <==> i in Do(c, Campaign(i, cause, answered, answered)).claiming)
    ensures SentToAll(sent, m, i, peers) ==> (set y | 0 <= y < |sent| :: sent[y]) == Broadcast(c, m)
  {
    var answered := Answering(peers, i, c.prio[i]);
    assert Outranked(i, c.prio[i], peers) <==> answered != {} by {
      if Outranked(i, c.prio[i], peers) {
        var x :| 0 <= x < |peers| && peers[x].id != i && peers[x].prio > c.prio[i] && peers[x].answers;
        assert peers[x].id in answered;
      }
    }
    if SentToAll(sent, m, i, peers) {
      SentIsBroadcast(c, i, peers, sent, m);
    }
  }

  lemma SentIsBroadcast(c: Cluster, i: Id, peers: seq<Peer>, sent: Outbox, m: Claim)
    requires i in c.prio && ListsCluster(peers, c.prio, i) && m.id == i && SentToAll(sent, m, i, peers)
    ensures (set y | 0 <= y < |sent| :: sent[y]) == Broadcast(c, m)
  {
    var all := set y | 0 <= y < |sent| :: sent[y];
    forall p | p in all ensures p in Broadcast(c, m) {
      var y :| 0 <= y < |sent| && sent[y] == p;
      assert Listed(peers, i, p.0) && p == (p.0, m);
    }
    forall p | p in Broadcast(c, m) ensures p in all {
      assert Listed(peers, i, p.0);
      var x :| 0 <= x < |peers| && peers[x].id == p.0;
      assert (peers[x].id, m) in sent;
    }
  }

  class BullyElection {
    const self: Id
    const prio: int
    const timeout: int
    var leaderID: Id
    var leaderPriority: int
    var leaderTerm: int
    var lastLeaderSeen: int
    var electionRunning: bool

    constructor (self: Id, prio: int, leaderTimeout: int)
      ensures this.self == self && this.prio == prio && !electionRunning && Rec() == UNKNOWN
      ensures timeout == if leaderTimeout > 0 then leaderTimeout else 10_000_000_000
    {
      this.self := self;
      this.prio := prio;
      timeout := if leaderTimeout <= 0 then DEFAULT_TIMEOUT else leaderTimeout;
      leaderID, leaderPriority, leaderTerm, lastLeaderSeen, electionRunning := "", 0, 0, 0, false;
    }

    function Rec(): Record
      reads this
    {
      Record(leaderID, leaderPriority, leaderTerm, lastLeaderSeen)
    }

    method HandleCoordinator(m: Claim, now: int)
      modifies this`leaderID, this`leaderPriority, this`leaderTerm, this`lastLeaderSeen
      ensures Rec() == Handle(old(Rec()), m, now, timeout)
    {
      var recent := leaderID != "" && now - lastLeaderSeen <= timeout;
      var accept := m.prio > leaderPriority || (m.prio == leaderPriority && m.term >= leaderTerm) ||
        (!recent && m.term > leaderTerm);
      if accept {
        leaderID := m.id;
        leaderPriority := m.prio;
        leaderTerm := m.term;
        lastLeaderSeen := now;
      }
    }

    method BecomeLeader(peers: seq<Peer>, now: int) returns (sent: Outbox)
      modifies this`leaderID, this`leaderPriority, this`leaderTerm, this`lastLeaderSeen
      ensures Rec() == Claimed(old(Rec()), self, prio, now)
      ensures SentToAll(sent, Claim(self, prio, old(leaderTerm) + 1), self, peers)
    {
      leaderID := self;
      leaderPriority := prio;
      leaderTerm := leaderTerm + 1;
      lastLeaderSeen := now;
      sent := SendCoordinator(Claim(self, prio, leaderTerm), self, peers);
    }

    /** The re-broadcast by which a leader keeps its followers' records fresh; its own stays as it was. */
    method AnnounceLeader(peers: seq<Peer>) returns (sent: Outbox)
      ensures SentToAll(sent, Claim(self, prio, leaderTerm), self, peers)
    {
      sent := SendCoordinator(Claim(self, prio, leaderTerm), self, peers);
    }

    method HigherPriorityLivePeers(peers: seq<Peer>) returns (higher: seq<Peer>)
      ensures forall p :: p in higher <==> p in peers && p.id != self && p.prio > prio
    {
      higher := [];
      for n := 0 to |peers|
        invariant forall p :: p in higher <==> p in peers[..n] && p.id != self && p.prio > prio
      {
        assert peers[..n + 1] == peers[..n] + [peers[n]];
        if peers[n].id != self && peers[n].prio > prio {
          higher := higher + [peers[n]];
        }
      }
      assert peers[..|peers|] == peers;
    }

    /** One election: the node claims iff no live peer of higher priority answers, and nothing happens while
        another election of this node is running. */
    method StartElection(peers: seq<Peer>, now: int) returns (sent: Outbox)
      modifies this
      ensures !old(electionRunning) ==> !electionRunning
      ensures old(electionRunning) || Outranked(self, prio, peers) ==> Rec() == old(Rec()) && sent == []
      ensures !old(electionRunning) && !Outranked(self, prio, peers) ==>
        Rec() == Claimed(old(Rec()), self, prio, now) &&
          SentToAll(sent, Claim(self, prio, old(leaderTerm) + 1), self, peers)
      ensures old(electionRunning) ==> electionRunning
    {
      sent := [];
      if electionRunning {
        return;
      }
      electionRunning := true;
      var higher := HigherPriorityLivePeers(peers);
      var ack := false;
      for n := 0 to |higher|
        invariant ack <==> exists x :: 0 <= x < n && higher[x].answers
      {
        if higher[n].answers {
          ack := true;
        }
      }
      assert ack <==> Outranked(self, prio, peers) by {
        if ack {
          var x :| 0 <= x < |higher| && higher[x].answers;
          assert higher[x] in peers;
        }
        if Outranked(self, prio, peers) {
          var x :| 0 <= x < |peers| && peers[x].id != self && peers[x].prio > prio && peers[x].answers;
          assert peers[x] in higher;
        }
      }
      if !ack {
        sent := BecomeLeader(peers, now);
      }
      electionRunning := false;
    }

    /** Every probe is answered; `starts` tells whether the election that follows in its own goroutine is due. */
    method HandleElection(candidate: int) returns (ok: bool, starts: bool)
      ensures ok && (starts <==> Provokes(candidate, prio))
    {
      ok := true;
      starts := candidate < prio;
    }

    /** What one tick of the Run loop decides. */
    method Tick(now: int) returns (d: Decision)
      ensures d == Decide(Rec(), self, now, timeout)
      ensures d.AnnounceSelf? <==> leaderID == self
      ensures d.RunElection? <==> leaderID != self && (leaderID == "" || now - lastLeaderSeen > timeout)
    {
      var isLeader := leaderID == self;
      var leaderKnown := leaderID != "";
      var leaderStale := leaderKnown && now - lastLeaderSeen > timeout;
      if isLeader {
        d := AnnounceSelf;
      } else if !leaderKnown || leaderStale {
        d := RunElection;
      } else {
        d := Idle;
      }
    }
  }
}
