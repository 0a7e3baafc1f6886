/** What the data calls of an application achieve on any stack, and what they leave alone. */
module UserCalls {
  import opened Words
  import opened ControlBlock
  import opened StackModel

  /** One socket changes, the output and all tables stay. */
  ghost predicate OnlySocket(s: Stack, s': Stack, id: SocketId) {
    && id in s.sockets && id in s'.sockets
    && s'.sockets == s.sockets[id := s'.sockets[id]]
    && s' == s.(sockets := s'.sockets, dirty := s'.dirty)
  }

  /** How many bytes of `data` there is room for. */
  function Room(t: Tcb, data: seq<u8>): nat {
    Min(|data|, CAPACITY - |t.sendBuf|)
  }

  /**
   * `send` on a live socket waits exactly when its buffer is full and not released. Otherwise
   * it takes the longest prefix there is room for, something unless the data is empty or the
   * buffer full, queues the socket for the daemon, and changes nothing else.
   */
  lemma SendTakesWhatFits(s: Stack, id: SocketId, data: seq<u8>)
    requires Alive(s, id)
    ensures var t, s' := s.sockets[id], SendOn(s, id, data);
      if |t.sendBuf| == CAPACITY && !t.sendWoken then s' == s
      else && OnlySocket(s, s', id)
           && s'.sockets[id] == t.(sendBuf := t.sendBuf + data[..Room(t, data)])
           && s'.dirty == s.dirty + [id]
           && (Room(t, data) == 0 <==> data == [] || |t.sendBuf| == CAPACITY)
  {
  }

  /**
   * `recv` on a live socket waits exactly when its buffer is empty and not released. Otherwise
   * it hands out the front of the buffer, as much as asked for or as there is, and keeps the
   * rest.
   */
  lemma RecvHandsOutFront(s: Stack, id: SocketId, limit: nat)
    requires Alive(s, id)
    ensures var t, s' := s.sockets[id], RecvOn(s, id, limit);
      if t.recvBuf == [] && !t.recvWoken then s' == s
      else && OnlySocket(s, s', id) && s'.dirty == s.dirty
           && |Received(t, limit)| == Min(limit, |t.recvBuf|)
           && t.recvBuf == Received(t, limit) + s'.sockets[id].recvBuf
           && s'.sockets[id] == t.(recvBuf := s'.sockets[id].recvBuf)
  {
  }
}
