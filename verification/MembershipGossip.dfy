/** Membership gossip across the cluster: tables exchanged over a network that may lose, repeat and reorder. */
module MembershipGossip {
  import opened Membership

  datatype World = World(tables: map<Id, Table>, wire: set<map<Id, Status>>)

  datatype Move = Send(i: Id) | Deliver(i: Id, report: map<Id, Status>)

  predicate Can(w: World, v: Move) {
    v.i in w.tables && (v.Deliver? ==> v.report in w.wire)
  }

  function Next(w: World, v: Move): World
    requires Can(w, v)
  {
    match v
    case Send(i) => w.(wire := w.wire + {Gossiped(w.tables[i], i)})
    case Deliver(i, report) => w.(tables := w.tables[i := Apply(w.tables[i], i, Report(report))])
  }

  predicate Possible(w: World, run: seq<Move>)
    decreases |run|
  {
    run == [] || (Can(w, run[0]) && Possible(Next(w, run[0]), run[1..]))
  }

  function Play(w: World, run: seq<Move>): World
    requires Possible(w, run)
    decreases |run|
  {
    if run == [] then w else Play(Next(w, run[0]), run[1..])
  }

  /** What node i believes of member id. */
  function Belief(w: World, i: Id, id: Id): Entry {
    if i in w.tables then Lookup(w.tables[i], id) else Absent
  }

  function Rank(e: Entry): nat {
    if e.Absent? then 0 else match e.m.status case Alive => 0 case Suspect => 1 case Dead => 2 case Left => 2
  }

  /** Some node or some message in flight says s of member id. */
  ghost predicate Said(w: World, id: Id, s: Status) {
    || (exists i :: i in w.tables && Belief(w, i, id).Present? && Belief(w, i, id).m.status == s)
    || (exists report :: report in w.wire && id in report && report[id] == s)
  }

  ghost predicate Sound(w: World) {
    forall i, id :: i in w.tables ==> WellFormed(Belief(w, i, id))
  }

  function Report1(e: Entry, id: Id, self: Id, report: map<Id, Status>): Entry {
    EntryStep(e, id, self, Report(report))
  }

  /** One report moves an entry upwards; while nobody is said to have left, by one rank at a time. */
  lemma ReportRaises(e: Entry, id: Id, self: Id, report: map<Id, Status>)
    requires WellFormed(e)
    ensures var e' := Report1(e, id, self, report);
            && WellFormed(e') && e'.Present? == e.Present? && Rank(e) <= Rank(e')
            && (e' != e && e'.m.status == Dead ==> id in report && report[id] == Dead)
            && (e' != e && e'.m.status == Left ==> id in report && report[id] == Left)
            && (!(e.Present? && e.m.status == Left) && !(id in report && report[id] == Left) ==>
                  Rank(e') - Rank(e) == if e' != e then 1 else 0)
  {
  }

  lemma MoveIsEntrywise(w: World, v: Move, i: Id, id: Id)
    requires Can(w, v)
    ensures Belief(Next(w, v), i, id) ==
            if v.Deliver? && v.i == i then Report1(Belief(w, i, id), id, i, v.report) else Belief(w, i, id)
  {
    if v.Deliver? && v.i == i {
      StepsAreEntrywise(w.tables[i], i, Report(v.report), id);
    }
  }

  lemma MoveKeepsSound(w: World, v: Move)
    requires Can(w, v) && Sound(w)
    ensures Sound(Next(w, v))
  {
    forall i, id | i in Next(w, v).tables ensures WellFormed(Belief(Next(w, v), i, id)) {
      MoveIsEntrywise(w, v, i, id);
      if v.Deliver? {
        ReportRaises(Belief(w, i, id), id, i, v.report);
      }
    }
  }

  lemma MoveSaysNothingNew(w: World, v: Move, id: Id, s: Status)
    requires Can(w, v) && Sound(w) && s in {Dead, Left} && Said(Next(w, v), id, s)
    ensures Said(w, id, s)
  {
    var w' := Next(w, v);
    if i :| i in w'.tables && Belief(w', i, id).Present? && Belief(w', i, id).m.status == s {
      MoveIsEntrywise(w, v, i, id);
      if v.Deliver? {
        ReportRaises(Belief(w, i, id), id, i, v.report);
      }
    } else {
      var report :| report in w'.wire && id in report && report[id] == s;
      if report !in w.wire {
        assert report == Gossiped(w.tables[v.i], v.i);
        assert Belief(w, v.i, id).m.status == s;
      }
    }
  }

  /** How often node i's entry for id changes in a run. */
  function Changes(w: World, run: seq<Move>, i: Id, id: Id): nat
    requires Possible(w, run)
    decreases |run|
  {
    if run == [] then 0
    else
      var w' := Next(w, run[0]);
      (if Belief(w', i, id) != Belief(w, i, id) then 1 else 0) + Changes(w', run[1..], i, id)
  }

  /** Membership gossip.  However reports are lost, repeated and reordered, gossip alone never moves a status back
      towards Alive, and nobody comes to say Dead (or Left) of a member unless somebody already did. */
  lemma {:induction false} GossipOnlyEscalates(w: World, run: seq<Move>, i: Id, id: Id)
    requires Sound(w) && Possible(w, run)
    ensures Rank(Belief(w, i, id)) <= Rank(Belief(Play(w, run), i, id))
    ensures Said(Play(w, run), id, Dead) ==> Said(w, id, Dead)
    ensures Said(Play(w, run), id, Left) ==> Said(w, id, Left)
    decreases |run|
  {
    if run != [] {
      var v := run[0];
      MoveKeepsSound(w, v);
      MoveIsEntrywise(w, v, i, id);
      if v.Deliver? && v.i == i {
        ReportRaises(Belief(w, i, id), id, i, v.report);
      }
      GossipOnlyEscalates(Next(w, v), run[1..], i, id);
      if Said(Next(w, v), id, Dead) {
        MoveSaysNothingNew(w, v, id, Dead);
      }
      if Said(Next(w, v), id, Left) {
        MoveSaysNothingNew(w, v, id, Left);
      }
    }
  }

  /** While nobody is said to have left, every change of an entry is one step along Alive, Suspect, Dead, so no
      entry changes more than twice in any run. */
  lemma {:induction false} EntriesChangeAtMostTwice(w: World, run: seq<Move>, i: Id, id: Id)
    requires Sound(w) && Possible(w, run) && !Said(w, id, Left)
    ensures Changes(w, run, i, id) == Rank(Belief(Play(w, run), i, id)) - Rank(Belief(w, i, id))
    ensures Changes(w, run, i, id) <= 2
    decreases |run|
  {
    if run != [] {
      var v := run[0];
      MoveKeepsSound(w, v);
      MoveIsEntrywise(w, v, i, id);
      if v.Deliver? && v.i == i {
        ReportRaises(Belief(w, i, id), id, i, v.report);
      }
      if Said(Next(w, v), id, Left) {
        MoveSaysNothingNew(w, v, id, Left);
      }
      EntriesChangeAtMostTwice(Next(w, v), run[1..], i, id);
    }
  }

  /** Gossip spreads.  When node i receives what node p sends, it still believes a third member Alive iff it did before
      and p does not say otherwise; if p says Left so does i, and if p says Dead of a member that i suspected on
      some evidence, so does i. */
  lemma GossipSpreads(w: World, p: Id, i: Id, id: Id)
    requires Sound(w) && p in w.tables && i in w.tables && id != i && id != p && Belief(w, i, id).Present?
    ensures var w1 := Next(w, Send(p));
            var heard := Gossiped(w.tables[p], p);
            && Can(w1, Deliver(i, heard))
            && var was, said, now := Belief(w, i, id), Belief(w, p, id), Belief(Next(w1, Deliver(i, heard)), i, id);
               && now.Present?
               && (now.m.status == Alive <==> was.m.status == Alive && (said.Absent? || said.m.status == Alive))
               && (said.Present? && said.m.status == Left ==> now.m.status == Left)
               && (said.Present? && said.m.status == Dead && was.m.status == Suspect && was.m.suspectCount >= 1 ==>
                     now.m.status == Dead)
  {
    var w1, heard := Next(w, Send(p)), Gossiped(w.tables[p], p);
    MoveIsEntrywise(w, Send(p), i, id);
    MoveIsEntrywise(w1, Deliver(i, heard), i, id);
    assert WellFormed(Belief(w, i, id));
  }

  // ----- with Left reports -----

  /** n deliveries to node i, alternating between two reports. */
  function Alternate(i: Id, first: map<Id, Status>, second: map<Id, Status>, n: nat): seq<Move>
    decreases n
  {
    if n == 0 then [] else [Deliver(i, first)] + Alternate(i, second, first, n - 1)
  }

  /** The entry is Left and the next report says Dead, or the other way round; it is under suspicion. */
  ghost predicate Swings(e: Entry, id: Id, first: map<Id, Status>, second: map<Id, Status>) {
    && e.Present? && e.m.suspectCount >= 1 && !e.m.isActive && id in first && id in second
    && (|| (e.m.status == Left && first[id] == Dead && second[id] == Left)
        || (e.m.status == Dead && first[id] == Left && second[id] == Dead))
  }

  /** Without the Left-free condition there is no bound: if node i has an entry that left under suspicion, and a Dead
      and a Left report of it are on the network, then for every n there is a run in which it changes n times. */
  lemma {:induction false} LeftAndDeadAlternate(w: World, i: Id, id: Id, first: map<Id, Status>,
                                                second: map<Id, Status>, n: nat)
    requires i in w.tables && id != i && first in w.wire && second in w.wire &&
      Swings(Belief(w, i, id), id, first, second)
    ensures Possible(w, Alternate(i, first, second, n))
    ensures Changes(w, Alternate(i, first, second, n), i, id) == n
    decreases n
  {
    if n > 0 {
      var v, rest := Deliver(i, first), Alternate(i, second, first, n - 1);
      MoveIsEntrywise(w, v, i, id);
      assert ([v] + rest)[1..] == rest;
      LeftAndDeadAlternate(Next(w, v), i, id, second, first, n - 1);
    }
  }

  /** Tables that three nodes reach on their own: i has removed x under suspicion, p was told that x is dead, and q
      has removed x. */
  function Divided(i: Id, p: Id, q: Id, x: Id, address: string, now: int): World {
    World(map[i := After(Fresh(i, address, now), i, RemovedUnderSuspicion(x, address, now)),
              p := After(Fresh(p, address, now), p, [Put(x, address, Dead, now)]),
              q := After(Fresh(q, address, now), q, RemovedUnderSuspicion(x, address, now))], {})
  }

  /** So such worlds are reachable: once p and q have gossiped, x's entry at i changes n times, for every n. */
  lemma AlternationIsReachable(i: Id, p: Id, q: Id, x: Id, address: string, now: int, n: nat)
    requires i != p && i != q && p != q && x != i && x != p && x != q
    ensures exists run ::
      Possible(Divided(i, p, q, x, address, now), run) && Changes(Divided(i, p, q, x, address, now), run, i, x) == n
  {
    var w := Divided(i, p, q, x, address, now);
    var dead, left := Gossiped(w.tables[p], p), Gossiped(w.tables[q], q);
    LeftBecomesDead(i, x, address, now, map[x := Dead]);
    LeftBecomesDead(q, x, address, now, map[x := Dead]);
    ToldDead(p, x, address, now);
    var w1 := Next(w, Send(p));
    var w2 := Next(w1, Send(q));
    LeftAndDeadAlternate(w2, i, x, dead, left, n);
    var rest := Alternate(i, dead, left, n);
    SendFirst(w1, Send(q), rest, i, x);
    SendFirst(w, Send(p), [Send(q)] + rest, i, x);
  }

  lemma ToldDead(p: Id, x: Id, address: string, now: int)
    requires x != p
    ensures var t := After(Fresh(p, address, now), p, [Put(x, address, Dead, now)]);
            x in t && t[x].status == Dead
  {
    assert [Put(x, address, Dead, now)][..0] == [];
  }

  /** Sending changes no entry. */
  lemma SendFirst(w: World, v: Move, rest: seq<Move>, i: Id, id: Id)
    requires Can(w, v) && v.Send? && Possible(Next(w, v), rest)
    ensures Possible(w, [v] + rest) && Changes(w, [v] + rest, i, id) == Changes(Next(w, v), rest, i, id)
  {
    assert ([v] + rest)[1..] == rest;
    MoveIsEntrywise(w, v, i, id);
  }
}
