/** The in-memory registry of app/core/ws_manager.py. Each method is one region held
    under the manager's lock; sending and closing happen outside it. */
module ConnectionManager {
  type Socket = nat

  /** The regions held under the lock, as they act on the subscribers of one run. */
  datatype Region = Add(socket: Socket) | Remove(socket: Socket) | Copy | Drop(dead: set<Socket>) | Clear

  function Registry(sockets: set<Socket>, region: Region): set<Socket> {
    match region
    case Add(socket) => sockets + {socket}
    case Remove(socket) => sockets - {socket}
    case Copy => sockets
    case Drop(dead) => sockets - dead
    case Clear => {}
  }

  class Manager {
    var connections: map<nat, set<Socket>>

    /** A run without subscribers has no entry. */
    ghost predicate Valid()
      reads this
    {
      forall runId :: runId in connections ==> connections[runId] != {}
    }

    function Subscribed(runId: nat): set<Socket>
      reads this
    {
      if runId in connections then connections[runId] else {}
    }

    constructor ()
      ensures Valid() && forall runId :: Subscribed(runId) == {}
    {
      connections := map[];
    }

    method Connect(runId: nat, socket: Socket)
      requires Valid()
      modifies this
      ensures Valid() && Subscribed(runId) == Registry(old(Subscribed(runId)), Add(socket))
      ensures Subscribed(runId) == old(Subscribed(runId)) + {socket}
      ensures forall r :: r != runId ==> Subscribed(r) == old(Subscribed(r))
    {
      if runId !in connections {
        connections := connections[runId := {}];
      }
      connections := connections[runId := connections[runId] + {socket}];
    }

    method Disconnect(runId: nat, socket: Socket)
      requires Valid()
      modifies this
      ensures Valid() && Subscribed(runId) == Registry(old(Subscribed(runId)), Remove(socket))
      ensures Subscribed(runId) == old(Subscribed(runId)) - {socket}
      ensures forall r :: r != runId ==> Subscribed(r) == old(Subscribed(r))
    {
      if runId !in connections {
        return;
      }
      var sockets := connections[runId] - {socket};
      connections := connections[runId := sockets];
      if sockets == {} {
        connections := connections - {runId};
      }
    }

    /** The first locked region of broadcast. */
    method CopySubscribers(runId: nat) returns (sockets: set<Socket>)
      ensures sockets == Subscribed(runId)
    {
      sockets := if runId in connections then connections[runId] else {};
    }

    /** The sending loop of broadcast, outside the lock: every copied socket is tried exactly
        once, and the dead ones are those whose send raises. */
    method SendEach(sockets: set<Socket>, broken: set<Socket>) returns (tried: seq<Socket>, dead: seq<Socket>)
      ensures multiset(tried) == multiset(sockets)
      ensures forall s :: s in dead <==> s in sockets && s in broken
    {
      tried, dead := [], [];
      var rest := sockets;
      while rest != {}
        invariant rest <= sockets && multiset(tried) == multiset(sockets - rest)
        invariant forall s :: s in dead <==> s in sockets - rest && s in broken
        decreases rest
      {
        var socket :| socket in rest;
        assert sockets - (rest - {socket}) == (sockets - rest) + {socket};
        tried := tried + [socket];
        if socket in broken {
          dead := dead + [socket];
        }
        rest := rest - {socket};
      }
      assert sockets - rest == sockets;
    }

    /** broadcast that nothing interrupts: the three regions in a row. */
    method Broadcast(runId: nat, broken: set<Socket>) returns (tried: seq<Socket>)
      requires Valid()
      modifies this
      ensures Valid() && multiset(tried) == multiset(old(Subscribed(runId)))
      ensures Subscribed(runId) == Registry(old(Subscribed(runId)), Drop(broken))
      ensures Subscribed(runId) == old(Subscribed(runId)) - broken
      ensures forall r :: r != runId ==> Subscribed(r) == old(Subscribed(r))
    {
      var sockets := CopySubscribers(runId);
      var dead;
      tried, dead := SendEach(sockets, broken);
      assert sockets - (set s | s in dead) == sockets - broken;
      if dead != [] {
        DropDead(runId, dead);
      }
    }

    /** The second locked region of broadcast. */
    method DropDead(runId: nat, dead: seq<Socket>)
      requires Valid()
      modifies this
      ensures Valid() && Subscribed(runId) == Registry(old(Subscribed(runId)), Drop(set s | s in dead))
      ensures forall r :: r != runId ==> Subscribed(r) == old(Subscribed(r))
    {
      if runId in connections {
        var live := connections[runId];
        for i := 0 to |dead|
          invariant live == old(connections)[runId] - (set s | s in dead[..i])
        {
          live := live - {dead[i]};
        }
        connections := connections[runId := live];
        if live == {} {
          connections := connections - {runId};
        }
      }
    }

    /** The locked region of close_all. */
    method PopAll(runId: nat) returns (sockets: set<Socket>)
      requires Valid()
      modifies this
      ensures Valid() && sockets == old(Subscribed(runId)) && Subscribed(runId) == Registry(sockets, Clear)
      ensures forall r :: r != runId ==> Subscribed(r) == old(Subscribed(r))
    {
      sockets := Subscribed(runId);
      connections := connections - {runId};
    }

    /** Every socket that was subscribed is closed once, whatever closing the others gives. */
    method CloseAll(runId: nat) returns (closed: seq<Socket>)
      requires Valid()
      modifies this
      ensures Valid() && Subscribed(runId) == {} && multiset(closed) == multiset(old(Subscribed(runId)))
      ensures forall r :: r != runId ==> Subscribed(r) == old(Subscribed(r))
    {
      var sockets := PopAll(runId);
      closed := [];
      var rest := sockets;
      while rest != {}
        invariant rest <= sockets && multiset(closed) == multiset(sockets - rest)
        decreases rest
      {
        var socket :| socket in rest;
        closed := closed + [socket];
        assert sockets - (rest - {socket}) == (sockets - rest) + {socket};
        rest := rest - {socket};
      }
      assert sockets - rest == sockets;
    }
  }
}
