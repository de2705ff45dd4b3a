/**
  The completion-port event manager itself (NetIOCPEventManager.hpp).  `Mirrors(m)` ties its
  objects to the value `m`, and each method's contract is the matching function of
  IocpManagerStates.
 */
module IocpManagers {
  import opened Memory
  import opened Connections
  import opened Contexts
  import opened EventHandlers
  import opened Sending
  import opened EventTables
  import opened IocpManagerStates
  import opened PollManagers

  datatype IOOperationType = Receive | Send

  /** What the wait yields: nothing, or a context, the operation that completed, and its bytes. */
  datatype Packet = NoPacket | Packet(socketContext: SocketContext, operation: IOOperationType, bytes: seq<char>)

  /** The completion that a packet stands for, given the live contexts; packets of removed contexts carry no bytes. */
  ghost predicate StandsFor(packet: Packet, contexts: seq<SocketContext>, e: Completion) {
    match e
    case Nothing => packet.NoPacket?
    case StaleZeroBytes => packet.Packet? && packet.bytes == [] && packet.socketContext !in contexts
    case ZeroBytes(i) => packet.Packet? && packet.bytes == [] && i < |contexts| && packet.socketContext == contexts[i]
    case ReceiveDone(i, data) => i < |contexts| && data != [] && packet == Packet(contexts[i], Receive, data)
    case SendDone(i) =>
      && packet.Packet? && packet.bytes != [] && packet.operation == Send
      && i < |contexts| && packet.socketContext == contexts[i]
  }

  /** A completion that finds a receive slot, or a queue that is not empty. */
  ghost predicate ArrivesSafely(m: Iocp, e: Completion) {
    && CanArrive(m, e)
    && (e.ReceiveDone? ==>
          var c := m.contexts[e.index];
          HasSlot(State(m.pool, c)) && c.posted == [c.receive.netBuffer] && |e.data| <= m.pool.size)
    && (e.SendDone? ==> m.contexts[e.index].conn.toSend != [])
  }

  /** In a whole manager every completion arrives safely. */
  lemma AlwaysSafely(m: Iocp, e: Completion)
    requires IocpOk(m) && CanArrive(m, e)
    ensures ArrivesSafely(m, e)
  {
    if e.ReceiveDone? {
      Apart(m, e.index);
    }
    if e.SendDone? {
      SendDoneKeeps(m, e.index);
    }
  }

  /** The sends of the first `i` contexts issued. */
  ghost function PartlyIssued(cs: seq<Ctx>, i: nat): (r: seq<Ctx>)
    requires i <= |cs|
    ensures |r| == |cs| && forall k :: 0 <= k < |cs| ==> r[k] == if k < i then Issued(cs[k]) else cs[k]
  {
    IssuedAll(cs)[..i] + cs[i..]
  }

  lemma PartlyIssuedNext(cs: seq<Ctx>, i: nat)
    requires i < |cs|
    ensures PartlyIssued(cs, i)[i := Issued(PartlyIssued(cs, i)[i])] == PartlyIssued(cs, i + 1)
  {
  }

  lemma PartlyIssuedEnds(cs: seq<Ctx>)
    ensures PartlyIssued(cs, 0) == cs && PartlyIssued(cs, |cs|) == IssuedAll(cs)
  {
  }

  lemma NoIocpParts(m: NetIOCPEventManager, blocks: seq<array<char>>, contexts: seq<SocketContext>)
    ensures (m as object) !in Parts(contexts)
    ensures (m.netEventHandler.bufferPool as object) !in Parts(contexts)
    ensures forall k :: 0 <= k < |blocks| ==> (blocks[k] as object) !in Parts(contexts)
  {
  }

  class NetIOCPEventManager {
    const netEventHandler: NetEventHandler
    var socketContexts: seq<SocketContext>
    ghost var lost: multiset<Pointer>

    ghost predicate Valid()
      reads this, netEventHandler.bufferPool, netEventHandler.bufferPool.buffers
    {
      netEventHandler.bufferPool.Valid() && AllSeparate(socketContexts)
    }

    ghost predicate Mirrors(m: Iocp)
      reads this, netEventHandler.bufferPool, Parts(socketContexts)
    {
      && netEventHandler.bufferPool.View() == m.pool && lost == m.lost
      && |socketContexts| == |m.contexts|
      && forall k :: 0 <= k < |m.contexts| ==> socketContexts[k].View() == m.contexts[k]
    }

    constructor (size: nat)
      requires 1 <= size < UINT32
      ensures fresh(netEventHandler) && fresh(netEventHandler.bufferPool)
      ensures forall k :: 0 <= k < |netEventHandler.bufferPool.buffers| ==> fresh(netEventHandler.bufferPool.buffers[k])
      ensures Valid() && socketContexts == []
      ensures var m := Iocp(netEventHandler.bufferPool.View(), [], multiset{});
              Mirrors(m) && IocpInitial(m) && m.pool.size == size
    {
      netEventHandler := new NetEventHandler(size);
      socketContexts := [];
      lost := multiset{};
    }

    /** The pool only gained new blocks. */
    twostate predicate Grown(before: seq<array<char>>)
      reads netEventHandler.bufferPool
    {
      forall k :: 0 <= k < |netEventHandler.bufferPool.buffers| ==>
        netEventHandler.bufferPool.buffers[k] in before || fresh(netEventHandler.bufferPool.buffers[k])
    }

    method AddConnection(socket: NetSocket, connection: NetConnection, ghost m: Iocp)
      requires Valid() && Mirrors(m)
      requires socket.Silent() && connection.View() == FRESH
      requires forall c <- socketContexts :: c.socket != socket && c.connection != connection
      modifies this, netEventHandler.bufferPool, socket`posted
      ensures Valid() && Mirrors(IocpAdded(m, socket.handle)) && Grown(old(netEventHandler.bufferPool.buffers))
      ensures |socketContexts| == |old(socketContexts)| + 1 && old(socketContexts) <= socketContexts
      ensures var c := socketContexts[|old(socketContexts)|];
              c.socket == socket && c.connection == connection && fresh(c)
    {
      hide StartedRead;
      var socketContext := OpenContext(netEventHandler, socket, connection);
      AppendSeparate(socketContexts, socketContext);
      ghost var before := socketContexts;
      socketContexts := socketContexts + [socketContext];
      ReceiveAsync(socketContext);
      forall k | 0 <= k < |m.contexts|
        ensures socketContexts[k].View() == m.contexts[k]
      {
        assert socketContexts[k] == before[k];
        assert Separate(socketContexts[k], socketContext);
      }
    }

    /** Hands the next message of one context to the operating system, if there is one. */
    method IssueEntry(i: nat, ghost m: Iocp)
      requires Valid() && Mirrors(m) && i < |m.contexts|
      modifies socketContexts[i].sendContext, socketContexts[i].connection, socketContexts[i].socket
      ensures Valid() && Mirrors(m.(contexts := m.contexts[i := Issued(m.contexts[i])]))
    {
      var started := netEventHandler.StartWrite(socketContexts[i]);
      if started {
        SendAsync(socketContexts[i]);
      }
      forall k | 0 <= k < |m.contexts| && k != i
        ensures socketContexts[k].View() == m.contexts[k]
      {
        assert Separate(socketContexts[k], socketContexts[i]);
      }
    }

    method IssueNext(i: nat, ghost m: Iocp)
      requires i < |m.contexts| && Valid() && Mirrors(m.(contexts := PartlyIssued(m.contexts, i)))
      modifies Parts(socketContexts)
      ensures Valid() && Mirrors(m.(contexts := PartlyIssued(m.contexts, i + 1)))
      ensures unchanged(this)
    {
      NoIocpParts(this, netEventHandler.bufferPool.buffers, socketContexts);
      PartlyIssuedNext(m.contexts, i);
      PartsHas(socketContexts, i);
      hide Issued, PartlyIssued, Parts;
      IssueEntry(i, m.(contexts := PartlyIssued(m.contexts, i)));
    }

    method ProcessSend(ghost m: Iocp)
      requires Valid() && Mirrors(m)
      modifies Parts(socketContexts)
      ensures Valid() && Mirrors(SendsIssued(m))
    {
      PartlyIssuedEnds(m.contexts);
      assert |socketContexts| == |m.contexts|;
      hide Valid, Mirrors, Parts;
      for i := 0 to |socketContexts|
        invariant unchanged(this) && Valid() && Mirrors(m.(contexts := PartlyIssued(m.contexts, i)))
      {
        IssueNext(i, m);
      }
    }

    /** The position of a context, or the number of contexts if it is not there. */
    method Find(socketContext: SocketContext) returns (at: nat)
      ensures at <= |socketContexts| && socketContext !in socketContexts[..at]
      ensures at < |socketContexts| ==> socketContexts[at] == socketContext
    {
      at := 0;
      while at < |socketContexts| && socketContexts[at] != socketContext
        invariant at <= |socketContexts| && socketContext !in socketContexts[..at]
      {
        at := at + 1;
      }
    }

    /** Removes a context that is still there; for one that was removed before, nothing changes. */
    method RemoveConnection(socketContext: SocketContext, ghost m: Iocp)
      requires Valid() && Mirrors(m) && socketContext.Valid()
      modifies this, socketContext.connection
      ensures Valid()
      ensures socketContext !in old(socketContexts) ==>
                unchanged(this) && unchanged(socketContext.connection) && Mirrors(m)
      ensures forall i :: 0 <= i < |m.contexts| && socketContext == old(socketContexts)[i] ==>
                && socketContexts == Erased(old(socketContexts), i)
                && Mirrors(Arrive(m, ZeroBytes(i)))
                && socketContext.connection.View() == Marked(m.contexts[i].conn)
    {
      var at := Find(socketContext);
      if at < |socketContexts| {
        var closed := netEventHandler.Disconnect(socketContext);
        assert forall k :: 0 <= k < |socketContexts| && k != at ==> Separate(socketContexts[k], socketContext);
        if closed {
          EraseContext(at, m);
        }
      }
    }

    method EraseContext(at: nat, ghost m: Iocp)
      requires Valid() && at < |socketContexts| == |m.contexts|
      requires netEventHandler.bufferPool.View() == m.pool && lost == m.lost
      requires forall k :: 0 <= k < |m.contexts| && k != at ==> socketContexts[k].View() == m.contexts[k]
      modifies this
      ensures Valid() && socketContexts == Erased(old(socketContexts), at) && Mirrors(Arrive(m, ZeroBytes(at)))
    {
      ErasedSeparate(socketContexts, at);
      ghost var before := socketContexts;
      socketContexts := Erased(socketContexts, at);
      lost := lost + multiset(m.contexts[at].receive.buffers);
      forall k | 0 <= k < |socketContexts|
        ensures socketContexts[k].View() == Erased(m.contexts, at)[k]
      {
        assert socketContexts[k] == before[if k < at then k else k + 1];
      }
    }

    method ReceiveEntry(socketContext: SocketContext, bytes: seq<char>, ghost i: nat, ghost m: Iocp)
      requires i < |socketContexts| && socketContexts[i] == socketContext && Valid() && Mirrors(m)
      requires ArrivesSafely(m, ReceiveDone(i, bytes))
      modifies netEventHandler.bufferPool, netEventHandler.bufferPool.buffers
      modifies socketContext.receiveContext, socketContext.socket, socketContext.connection
      ensures Valid() && Grown(old(netEventHandler.bufferPool.buffers))
      ensures Mirrors(Arrive(m, ReceiveDone(i, bytes)))
    {
      hide Landed, ReadAndPosted;
      ReceiveCompleted(netEventHandler, socketContext, bytes);
      forall k | 0 <= k < |m.contexts| && k != i
        ensures socketContexts[k].View() == m.contexts[k]
      {
        assert Separate(socketContexts[k], socketContext);
      }
    }

    method SendEntry(socketContext: SocketContext, bytes: nat, ghost i: nat, ghost m: Iocp)
      requires i < |socketContexts| && socketContexts[i] == socketContext && Valid() && Mirrors(m)
      requires CanArrive(m, SendDone(i)) && m.contexts[i].conn.toSend != []
      modifies socketContext.sendContext, socketContext.socket, socketContext.connection
      ensures Valid() && Mirrors(Arrive(m, SendDone(i)))
    {
      SendCompleted(netEventHandler, socketContext, bytes);
      forall k | 0 <= k < |m.contexts| && k != i
        ensures socketContexts[k].View() == m.contexts[k]
      {
        assert Separate(socketContexts[k], socketContext);
      }
    }

    /** What `HandleNetEvents` does with the packet it waited for. */
    method Dispatch(packet: Packet, ghost m: Iocp, ghost e: Completion, ghost parts: set<object>)
      requires Valid() && Mirrors(m)
      requires StandsFor(packet, socketContexts, e) && ArrivesSafely(m, e)
      requires packet.Packet? ==> packet.socketContext.Valid() && packet.socketContext.connection in parts
      requires e.ReceiveDone? || e.SendDone? ==>
                 && packet.socketContext.socket in parts
                 && packet.socketContext.receiveContext in parts && packet.socketContext.sendContext in parts
      modifies this, netEventHandler.bufferPool, netEventHandler.bufferPool.buffers, parts
      ensures Valid() && Grown(old(netEventHandler.bufferPool.buffers)) && Mirrors(Arrive(m, e))
      ensures socketContexts == if e.ZeroBytes? then Erased(old(socketContexts), e.index) else old(socketContexts)
      ensures e.ZeroBytes? ==> old(socketContexts)[e.index].connection.status == MarkForClose
    {
      if packet.NoPacket? { return; }
      if packet.bytes == [] {
        RemoveConnection(packet.socketContext, m);
        assert packet.socketContext.connection.status == packet.socketContext.connection.View().status;
      } else if packet.operation == Receive {
        ReceiveEntry(packet.socketContext, packet.bytes, e.index, m);
      } else {
        SendEntry(packet.socketContext, |packet.bytes|, e.index, m);
      }
    }

    method AccountedDispatch(packet: Packet, ghost m: Iocp, ghost e: Completion, ghost parts: set<object>)
      requires Valid() && Mirrors(m)
      requires StandsFor(packet, socketContexts, e) && ArrivesSafely(m, e)
      requires packet.Packet? ==> packet.socketContext.Valid() && packet.socketContext.connection in parts
      requires e.ReceiveDone? || e.SendDone? ==>
                 && packet.socketContext.socket in parts
                 && packet.socketContext.receiveContext in parts && packet.socketContext.sendContext in parts
      modifies this, netEventHandler.bufferPool, netEventHandler.bufferPool.buffers, parts
      ensures Valid() && Grown(old(netEventHandler.bufferPool.buffers)) && Mirrors(Arrive(m, e))
      ensures Accounted(old(socketContexts))
    {
      ghost var contexts := socketContexts;
      Dispatch(packet, m, e, parts);
      forall c <- contexts
        ensures c in socketContexts || c.connection.status == MarkForClose
      {
        if e.ZeroBytes? && c != contexts[e.index] {
          StillThere(contexts, e.index, c);
        }
      }
    }

    /**
      `parts` is all that may change outside the manager: the contexts' parts, and what a stale
      packet still points to.
     */
    method HandleNetEvents(packet: Packet, ghost m: Iocp, ghost e: Completion, ghost parts: set<object>)
      requires Valid() && Mirrors(m) && IocpOk(m)
      requires StandsFor(packet, socketContexts, e) && CanArrive(SendsIssued(m), e)
      requires packet.Packet? ==> packet.socketContext.Valid() && packet.socketContext.connection in parts
      requires this !in parts && Parts(socketContexts) <= parts
      modifies this, netEventHandler.bufferPool, netEventHandler.bufferPool.buffers, parts
      ensures Valid() && Grown(old(netEventHandler.bufferPool.buffers)) && Mirrors(IocpHandled(m, e))
      ensures Accounted(old(socketContexts))
    {
      SendsIssuedKeeps(m);
      AlwaysSafely(SendsIssued(m), e);
      NoIocpParts(this, netEventHandler.bufferPool.buffers, socketContexts);
      PartsAll(socketContexts);
      ProcessSend(m);
      AccountedDispatch(packet, SendsIssued(m), e, parts);
    }

    /** Handles one more completion, then marks every connection and drops every context. */
    method DisconnectAllConnections(packet: Packet, ghost m: Iocp, ghost e: Completion, ghost parts: set<object>)
      requires Valid() && Mirrors(m) && IocpOk(m)
      requires StandsFor(packet, socketContexts, e) && CanArrive(SendsIssued(m), e)
      requires packet.Packet? ==> packet.socketContext.Valid() && packet.socketContext.connection in parts
      requires this !in parts && netEventHandler.bufferPool !in parts && Parts(socketContexts) <= parts
      modifies this, netEventHandler.bufferPool, netEventHandler.bufferPool.buffers, parts
      ensures Valid() && Mirrors(AllDropped(IocpHandled(m, e)))
      ensures forall c <- old(socketContexts) :: c.connection.status == MarkForClose
    {
      ghost var contexts := socketContexts;
      PartsAll(socketContexts);
      HandleNetEvents(packet, m, e, parts);
      DropAll(IocpHandled(m, e), contexts, parts);
    }

    /** Of the contexts there were, each is still there or has its connection marked; none is new. */
    ghost predicate Accounted(contexts: seq<SocketContext>)
      reads this, Parts(contexts)
    {
      && (forall c <- socketContexts :: c in contexts)
      && (forall c <- contexts :: c in socketContexts || c.connection.status == MarkForClose)
    }

    method DropAll(ghost m: Iocp, ghost contexts: seq<SocketContext>, ghost parts: set<object>)
      requires Valid() && Mirrors(m) && Accounted(contexts)
      requires this !in parts && netEventHandler.bufferPool !in parts
      requires forall c <- socketContexts :: c.connection in parts
      modifies this, parts
      ensures Valid() && Mirrors(AllDropped(m))
      ensures forall c <- contexts :: c.connection.status == MarkForClose
    {
      for i := 0 to |socketContexts|
        invariant Valid() && socketContexts == old(socketContexts) && lost == old(lost)
        invariant netEventHandler.bufferPool.View() == m.pool
        invariant forall c <- contexts :: c in socketContexts[i..] || c.connection.status == MarkForClose
      {
        var closed := netEventHandler.Disconnect(socketContexts[i]);
        assert socketContexts[i].connection.status == socketContexts[i].View().conn.status;
        assert socketContexts[i..] == [socketContexts[i]] + socketContexts[i + 1..];
      }
      socketContexts := [];
      lost := lost + Bags(m.contexts);
    }
  }

  /** `TNetProtocol::SendAsync` on the send context's message. */
  method SendAsync(socketContext: SocketContext)
    modifies socketContext.socket`issued, socketContext.socket`handed
    ensures socketContext.View() == Issue(old(socketContext.View()))
  {
    socketContext.socket.issued := socketContext.socket.issued + [Target(socketContext.View())];
    socketContext.socket.handed := socketContext.socket.handed + [socketContext.sendContext.netBuffer];
  }

  /** `TNetProtocol::ReceiveAsync` into the receive context's buffer. */
  method ReceiveAsync(socketContext: SocketContext)
    modifies socketContext.socket`posted
    ensures socketContext.View() == Posted(old(socketContext.View()))
  {
    socketContext.socket.posted := socketContext.socket.posted + [socketContext.receiveContext.netBuffer];
  }

  /** The oldest receive posted has completed: the handler reads its bytes, and the next receive is posted. */
  method ReceiveCompleted(netEventHandler: NetEventHandler, socketContext: SocketContext, bytes: seq<char>)
    requires netEventHandler.Ready(socketContext) && HasSlot(netEventHandler.View(socketContext))
    requires socketContext.socket.posted == [socketContext.receiveContext.netBuffer]
    requires 1 <= |bytes| <= netEventHandler.bufferPool.size
    modifies netEventHandler.bufferPool, netEventHandler.bufferPool.buffers
    modifies socketContext.receiveContext, socketContext.socket, socketContext.connection
    ensures netEventHandler.Ready(socketContext)
    ensures forall k :: 0 <= k < |netEventHandler.bufferPool.buffers| ==>
              netEventHandler.bufferPool.buffers[k] in old(netEventHandler.bufferPool.buffers) ||
              fresh(netEventHandler.bufferPool.buffers[k])
    ensures netEventHandler.View(socketContext) ==
            ReadAndPosted(Landed(old(netEventHandler.View(socketContext)), bytes), |bytes|)
  {
    var socket := socketContext.socket;
    netEventHandler.bufferPool.Receive(socket.posted[0].buf, bytes);
    socket.posted := socket.posted[1..];
    netEventHandler.Read(socketContext, |bytes|);
    ReceiveAsync(socketContext);
  }

  /** The oldest send in flight has completed: the handler is told, and may start the next. */
  method SendCompleted(netEventHandler: NetEventHandler, socketContext: SocketContext, bytesTransferred: nat)
    requires socketContext.Valid() && socketContext.connection.messagesToSend != []
    requires |socketContext.socket.wire| < |socketContext.socket.issued|
    modifies socketContext.sendContext, socketContext.socket, socketContext.connection
    ensures socketContext.View() == Completed(old(socketContext.View()))
  {
    ghost var socket := socketContext.socket;
    socket.wire := socket.wire + [socket.issued[|socket.wire|]];
    var more := netEventHandler.Write(socketContext, bytesTransferred);
    if more {
      SendAsync(socketContext);
    }
  }
}
