/** The three tables of the stack as mutable objects over one owner of all sockets. */
module Tables {
  import opened Words
  import opened ControlBlock

  /** Owner of all control blocks; identifiers are handed out in increasing order from 1. */
  class SocketTable {
    var nextId: SocketId
    var sockets: map<SocketId, Tcb>

    constructor ()
      ensures nextId == 1 && sockets == map[]
    {
      nextId, sockets := 1, map[];
    }

    predicate Contains(id: SocketId)
      reads this
    {
      id != 0 && id in sockets
    }

    method CreateSocket(state: State, src: Address, dst: Address) returns (id: SocketId)
      modifies this
      ensures id == old(nextId) && nextId == old(nextId) + 1
      ensures sockets == old(sockets)[id := FreshTcb(id, state, src, dst)]
    {
      id := nextId;
      nextId := nextId + 1;
      sockets := sockets[id := FreshTcb(id, state, src, dst)];
    }

    method DestroySocket(id: SocketId) returns (found: bool)
      modifies this`sockets
      ensures found == old(Contains(id))
      ensures sockets == if id == 0 then old(sockets) else old(sockets) - {id}
    {
      if id == 0 {
        return false;
      }
      found := id in sockets;
      sockets := sockets - {id};
    }

    method Put(id: SocketId, t: Tcb)
      modifies this`sockets
      ensures sockets == old(sockets)[id := t]
    {
      sockets := sockets[id := t];
    }
  }

  /** Routes from listening ports to sockets, which may have been destroyed since. */
  class ListenerTable {
    const socketTable: SocketTable
    var listeners: map<u16, SocketId>

    constructor (socketTable: SocketTable)
      ensures this.socketTable == socketTable && listeners == map[]
    {
      this.socketTable, listeners := socketTable, map[];
    }

    method BindNew(addr: Address) returns (id: SocketId)
      modifies this, socketTable
      ensures id == old(socketTable.nextId) && socketTable.nextId == id + 1
      ensures socketTable.sockets == old(socketTable.sockets)[id := FreshTcb(id, Closed, addr, Address(0, 0))]
      ensures listeners == old(listeners)[addr.port := id]
    {
      id := socketTable.CreateSocket(Closed, addr, Address(0, 0));
      listeners := listeners[addr.port := id];
    }

    /** The live socket bound to `port`, or 0. */
    method Find(port: u16) returns (id: SocketId)
      ensures id != 0 ==> socketTable.Contains(id) && port in listeners && listeners[port] == id
      ensures id == 0 <==> port !in listeners || !socketTable.Contains(listeners[port])
    {
      id := 0;
      if port in listeners && socketTable.Contains(listeners[port]) {
        id := listeners[port];
      }
    }

    /** Removes the route and destroys whatever socket it led to. */
    method Unbind(port: u16) returns (found: bool)
      modifies this, socketTable`sockets
      ensures listeners == old(listeners) - {port}
      ensures found == old(port in listeners && socketTable.Contains(listeners[port]))
      ensures socketTable.sockets ==
        old(if port in listeners && listeners[port] != 0 then socketTable.sockets - {listeners[port]} else socketTable.sockets)
    {
      var id: SocketId := 0;
      if port in listeners {
        id := listeners[port];
      }
      listeners := listeners - {port};
      found := false;
      if id != 0 {
        found := socketTable.DestroySocket(id);
      }
    }

    method Contains(port: u16) returns (bound: bool)
      ensures bound <==> port in listeners && socketTable.Contains(listeners[port])
    {
      bound := port in listeners && socketTable.Contains(listeners[port]);
    }
  }

  /** Routes from (remote, local) pairs to sockets, which may have been destroyed since. */
  class ConnectionTable {
    const socketTable: SocketTable
    var connections: map<(Address, Address), SocketId>

    constructor (socketTable: SocketTable)
      ensures this.socketTable == socketTable && connections == map[]
    {
      this.socketTable, connections := socketTable, map[];
    }

    method Insert(remote: Address, local: Address, id: SocketId)
      modifies this
      ensures connections == old(connections)[(remote, local) := id]
    {
      connections := connections[(remote, local) := id];
    }

    /** Reuses a live socket with new addresses, or creates one; either way it is routed. */
    method RegisterConnection(local: Address, remote: Address, id: SocketId) returns (used: SocketId)
      modifies this, socketTable
      ensures connections == old(connections)[(remote, local) := used]
      ensures if old(socketTable.Contains(id)) then
          && used == id && socketTable.nextId == old(socketTable.nextId)
          && socketTable.sockets == old(socketTable.sockets)[id := old(socketTable.sockets[id]).(src := local, dst := remote)]
        else
          && used == old(socketTable.nextId) && socketTable.nextId == used + 1
          && socketTable.sockets == old(socketTable.sockets)[used := FreshTcb(used, Closed, local, remote)]
    {
      used := id;
      if id == 0 || !socketTable.Contains(id) {
        used := socketTable.CreateSocket(Closed, local, remote);
      } else {
        socketTable.Put(id, socketTable.sockets[id].(src := local, dst := remote));
      }
      connections := connections[(remote, local) := used];
    }

    /** The live socket of the connection, or 0. */
    method Find(remote: Address, local: Address) returns (id: SocketId)
      ensures id != 0 ==> socketTable.Contains(id) && (remote, local) in connections && connections[(remote, local)] == id
      ensures id == 0 <==> (remote, local) !in connections || !socketTable.Contains(connections[(remote, local)])
    {
      id := 0;
      if (remote, local) in connections && socketTable.Contains(connections[(remote, local)]) {
        id := connections[(remote, local)];
      }
    }

    method Erase(remote: Address, local: Address) returns (found: bool)
      modifies this
      ensures found == ((remote, local) in old(connections))
      ensures connections == old(connections) - {(remote, local)}
    {
      found := (remote, local) in connections;
      connections := connections - {(remote, local)};
    }

    /** Removes the route and destroys whatever socket it led to. */
    method DestroyConnection(remote: Address, local: Address) returns (found: bool)
      modifies this, socketTable`sockets
      ensures connections == old(connections) - {(remote, local)}
      ensures found == old((remote, local) in connections && socketTable.Contains(connections[(remote, local)]))
      ensures socketTable.sockets == old(
        if (remote, local) in connections && connections[(remote, local)] != 0
        then socketTable.sockets - {connections[(remote, local)]} else socketTable.sockets)
    {
      var id: SocketId := 0;
      if (remote, local) in connections {
        id := connections[(remote, local)];
        connections := connections - {(remote, local)};
      }
      found := false;
      if id != 0 {
        found := socketTable.DestroySocket(id);
      }
    }
  }
}
