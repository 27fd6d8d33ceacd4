/** The membership object that the handlers, the sweeper and the SWIM detector of one node update in place. */
module Members {
  import opened Membership

  datatype Target = NoTarget | Target(id: Id)

  class MemberTable {
    const nodeID: Id
    var members: Table

    constructor (nodeID: Id)
      ensures this.nodeID == nodeID && members == map[]
    {
      this.nodeID := nodeID;
      members := map[];
    }

    method AddOrUpdateMemberStatus(id: Id, address: string, status: Status, lastHeartbeat: int)
      modifies this
      ensures members == Apply(old(members), nodeID, Put(id, address, status, lastHeartbeat))
    {
      if id in members {
        var member := members[id].(address := address, lastHeartbeat := lastHeartbeat);
        if status == Alive {
          member := SetStatus(member, Alive);
          member := member.(suspectCount := 0);
        }
        members := members[id := member];
        return;
      }
      var member := Member(address, Dead, false, lastHeartbeat, 0, 0);
      member := SetStatus(member, status);
      members := members[id := member];
    }

    method AddOrUpdateMember(id: Id, address: string, isActive: bool, lastHeartbeat: int)
      modifies this
      ensures members == Apply(old(members), nodeID, Put(id, address, if isActive then Alive else Dead, lastHeartbeat))
    {
      var status := Dead;
      if isActive {
        status := Alive;
      }
      AddOrUpdateMemberStatus(id, address, status, lastHeartbeat);
    }

    method UpdateHeartbeat(id: Id, now: int)
      modifies this
      ensures members == if id in old(members) then old(members)[id := Revived(old(members)[id], now)] else old(members)
    {
      if id in members {
        var member := members[id].(lastHeartbeat := now);
        member := SetStatus(member, Alive);
        member := member.(suspectCount := 0);
        members := members[id := member];
      }
    }

    method SetPriority(id: Id, priority: int)
      modifies this
      ensures members == Apply(old(members), nodeID, Prioritise(id, priority))
    {
      if id in members {
        members := members[id := members[id].(priority := priority)];
      }
    }

    method MarkSuspect(id: Id)
      modifies this
      ensures members == if id in old(members) then old(members)[id := Suspected(old(members)[id])] else old(members)
    {
      if id in members {
        var member := members[id];
        if member.status == Dead || member.status == Left {
          return;
        }
        member := SetStatus(member, Suspect);
        member := member.(suspectCount := member.suspectCount + 1);
        members := members[id := member];
      }
    }

    method MarkDead(id: Id)
      modifies this
      ensures members == if id in old(members) then old(members)[id := SetStatus(old(members)[id], Dead)]
        else old(members)
    {
      if id in members {
        members := members[id := SetStatus(members[id], Dead)];
      }
    }

    method MarkLeft(id: Id)
      modifies this
      ensures members == if id in old(members) then old(members)[id := SetStatus(old(members)[id], Left)]
        else old(members)
    {
      if id in members {
        members := members[id := SetStatus(members[id], Left)];
      }
    }

    /** The operator's RemoveNode refuses to remove the local node. */
    method RemoveNode(id: Id) returns (removed: bool)
      modifies this
      ensures removed <==> id != "" && id != nodeID
      ensures members == if removed then Apply(old(members), nodeID, Remove(id)) else old(members)
    {
      if id == "" || id == nodeID {
        return false;
      }
      MarkLeft(id);
      return true;
    }

    method EscalateStale(m: Member, threshold: int, now: int) returns (member: Member, moved: bool)
      ensures member == Staled(m, now, threshold)
      ensures moved <==> member.status != m.status
      ensures !moved ==> member == m
    {
      member, moved := m, false;
      if now - m.lastHeartbeat > threshold {
        match m.status {
          case Alive =>
            member := SetStatus(member, Suspect);
            member := member.(suspectCount := member.suspectCount + 1);
            moved := true;
          case Suspect =>
            member := SetStatus(member, Dead);
            moved := true;
          case Dead =>
          case Left =>
        }
      }
    }

    /** The sweep visits every member once, in any order, and reports exactly those whose status it changed, each
        once, in the order of its visits. */
    method MarkStale(threshold: int, now: int) returns (changed: seq<Id>)
      modifies this
      ensures members == Apply(old(members), nodeID, Sweep(threshold, now))
      ensures forall id :: id in changed <==> id in old(members) && members[id].status != old(members)[id].status
      ensures forall x, y :: 0 <= x < y < |changed| ==> changed[x] != changed[y]
    {
      changed := [];
      var todo := members.Keys;
      while todo != {}
        invariant todo <= members.Keys == old(members).Keys
        invariant forall id :: id in todo ==> members[id] == old(members)[id]
        invariant forall id :: id in members && id !in todo ==>
          members[id] == SweepAll(old(members), nodeID, threshold, now)[id]
        invariant forall id :: id in changed <==> id in old(members) && members[id].status != old(members)[id].status
        invariant forall x, y :: 0 <= x < y < |changed| ==> changed[x] != changed[y]
      {
        var id :| id in todo;
        todo := todo - {id};
        if id != nodeID {
          var member, moved := EscalateStale(members[id], threshold, now);
          if moved {
            members := members[id := member];
            changed := changed + [id];
          }
        }
      }
    }

    method GossipMembership() returns (out: map<Id, Status>)
      ensures out == Gossiped(members, nodeID)
      ensures nodeID !in out
    {
      out := map[];
      var todo := members.Keys;
      while todo != {}
        invariant todo <= members.Keys
        invariant out.Keys == members.Keys - todo - {nodeID}
        invariant forall id :: id in out ==> out[id] == members[id].status
      {
        var id :| id in todo;
        todo := todo - {id};
        if id != nodeID {
          out := out[id := members[id].status];
        }
      }
    }

    method ApplyMembership(statuses: map<Id, Status>)
      modifies this
      ensures members == Apply(old(members), nodeID, Report(statuses))
    {
      var todo := statuses.Keys;
      while todo != {}
        invariant todo <= statuses.Keys && members.Keys == old(members).Keys
        invariant forall id :: id in members && id in todo ==> members[id] == old(members)[id]
        invariant forall id :: id in members && id !in todo ==>
          members[id] == ReportAll(old(members), nodeID, statuses)[id]
      {
        var id :| id in todo;
        todo := todo - {id};
        if id != nodeID && id in members {
          var member := members[id];
          match statuses[id] {
            case Dead =>
              if member.status == Alive {
                member := SetStatus(member, Suspect);
                member := member.(suspectCount := member.suspectCount + 1);
              } else if member.suspectCount >= 1 {
                member := SetStatus(member, Dead);
              }
            case Suspect =>
              if member.status == Alive {
                member := SetStatus(member, Suspect);
                member := member.(suspectCount := member.suspectCount + 1);
              }
            case Left =>
              member := SetStatus(member, Left);
            case Alive =>
          }
          members := members[id := member];
        }
      }
    }

    /** GetRandomProbeTarget: any Alive or Suspect member but the node itself, if there is one. */
    method GetRandomProbeTarget() returns (target: Target)
      ensures target.Target? ==>
        target.id in members && target.id != nodeID && members[target.id].status in {Alive, Suspect}
      ensures target.NoTarget? ==> forall id :: id in members && id != nodeID ==>
        members[id].status !in {Alive, Suspect}
    {
      var candidates: set<Id> := {};
      var todo := members.Keys;
      while todo != {}
        invariant todo <= members.Keys
        invariant candidates == set id | id in members && id !in todo && id != nodeID &&
          members[id].status in {Alive, Suspect}
      {
        var id :| id in todo;
        todo := todo - {id};
        if id != nodeID && (members[id].status == Alive || members[id].status == Suspect) {
          candidates := candidates + {id};
        }
      }
      if candidates == {} {
        assert forall id :: id in members && id != nodeID ==> id !in candidates;
        return NoTarget;
      }
      var id :| id in candidates;
      return Target(id);
    }
  }

  class SwimDetector {
    const table: MemberTable
    const threshold: int

    constructor (table: MemberTable, suspectToDead: int)
      ensures this.table == table && threshold == Threshold(suspectToDead) && threshold >= 1
    {
      this.table := table;
      threshold := if suspectToDead <= 0 then 3 else suspectToDead;
    }

    /** One protocol period, given whether the direct and the indirect probe reach the target. */
    method Round(direct: bool, indirect: bool, now: int) returns (target: Target)
      modifies table
      ensures target.NoTarget? ==> table.members == old(table.members)
      ensures target.Target? ==>
        target.id != table.nodeID && target.id in old(table.members) &&
          old(table.members)[target.id].status in {Alive, Suspect} &&
        table.members == Apply(old(table.members), table.nodeID, Probe(target.id, direct || indirect, threshold, now))
    {
      target := table.GetRandomProbeTarget();
      if target.NoTarget? {
        return;
      }
      if direct {
        table.UpdateHeartbeat(target.id, now);
        return;
      }
      if indirect {
        table.UpdateHeartbeat(target.id, now);
        return;
      }
      var member := table.members[target.id];
      if member.status == Alive {
        table.MarkSuspect(target.id);
      } else if member.suspectCount + 1 >= threshold {
        table.MarkDead(target.id);
      } else {
        table.MarkSuspect(target.id);
      }
    }
  }
}
