/**
  The buffer-based event manager itself (NetBufferBasedEventManager.hpp), over the poll table.
  `Mirrors(m)` ties its objects to the value `m`, and each method's contract is the matching
  function of PollManagerStates.
 */
module PollManagers {
  import opened Memory
  import opened BufferPools
  import opened Connections
  import opened Contexts
  import opened EventHandlers
  import opened Sending
  import opened EventTables
  import opened EventPass
  import opened PollManagerStates

  /** Two contexts share no object. */
  ghost predicate Separate(a: SocketContext, b: SocketContext) {
    && a != b && a.socket != b.socket && a.connection != b.connection
    && a.receiveContext != b.receiveContext && a.receiveContext != b.sendContext
    && a.sendContext != b.receiveContext && a.sendContext != b.sendContext
  }

  ghost predicate AllSeparate(contexts: seq<SocketContext>) {
    && (forall k :: 0 <= k < |contexts| ==> contexts[k].Valid())
    && (forall j, k :: 0 <= j < |contexts| && 0 <= k < |contexts| && j != k ==> Separate(contexts[j], contexts[k]))
  }

  lemma StillThere(contexts: seq<SocketContext>, i: nat, c: SocketContext)
    requires i < |contexts| && c in contexts && c != contexts[i]
    ensures c in Erased(contexts, i)
  {
  }

  lemma {:induction false} ChangedIsEvents(t: seq<PollFD>, es: seq<Entry>, os: Os)
    requires |t| == |es|
    requires forall k :: 0 <= k < |t| ==> t[k].fd == es[k].ctx.handle && t[k].revents == os(t[k].fd).ready
    ensures Changed(t) == Events(es, os)
  {
    if t != [] {
      ChangedIsEvents(t[1..], es[1..], os);
    }
  }

  lemma HandleSafely(m: Manager, os: Os)
    requires ManagerOk(m) && AnswersOk(ProcessedSend(m.entries), os, m.pool.size)
    ensures var now, count := m.(entries := ProcessedSend(m.entries)), Events(ProcessedSend(m.entries), os);
            LoopSafe(now, 0, os, count) && Looped(now, 0, os, count) == Handled(m, os, count)
  {
    var now, count := m.(entries := ProcessedSend(m.entries)), Events(ProcessedSend(m.entries), os);
    ProcessedSendKeeps(m);
    LoopIsSafe(now, 0, os, count);
    LoopIsSweep(now, 0, os, count);
    PassStart(m, os, count);
  }

  lemma AppendSeparate(contexts: seq<SocketContext>, context: SocketContext)
    requires AllSeparate(contexts) && context.Valid()
    requires forall k :: 0 <= k < |contexts| ==> Separate(contexts[k], context)
    ensures AllSeparate(contexts + [context])
  {
  }

  lemma ErasedSeparate(contexts: seq<SocketContext>, i: nat)
    requires AllSeparate(contexts) && i < |contexts|
    ensures AllSeparate(Erased(contexts, i))
  {
  }

  lemma AfterAgain(m: Manager, p: Pool, i: nat, e: Entry, v: Visited)
    requires i < |m.entries|
    ensures After(Manager(p, m.entries[i := e], m.lost), i, v) == After(m, i, v)
  {
  }

  /** What the contexts own, and the connections they point to. */
  ghost function Parts(contexts: seq<SocketContext>): set<object> {
    (set c | c in contexts :: c.socket as object) + (set c | c in contexts :: c.connection as object) +
    (set c | c in contexts :: c.receiveContext as object) + (set c | c in contexts :: c.sendContext as object)
  }

  lemma PartsHas(contexts: seq<SocketContext>, i: nat)
    requires i < |contexts|
    ensures contexts[i].socket in Parts(contexts) && contexts[i].connection in Parts(contexts)
    ensures contexts[i].receiveContext in Parts(contexts) && contexts[i].sendContext in Parts(contexts)
  {
  }

  lemma PartsAll(contexts: seq<SocketContext>)
    ensures forall c <- contexts ::
              && c.socket in Parts(contexts) && c.connection in Parts(contexts)
              && c.receiveContext in Parts(contexts) && c.sendContext in Parts(contexts)
  {
  }

  /** The manager, its table, its pool and the pool's blocks are no parts of contexts. */
  lemma NoParts(m: NetBufferBasedEventManager, blocks: seq<array<char>>, contexts: seq<SocketContext>)
    ensures (m as object) !in Parts(contexts) && (m.netEventBuffer as object) !in Parts(contexts)
    ensures (m.netEventHandler.bufferPool as object) !in Parts(contexts)
    ensures forall k :: 0 <= k < |blocks| ==> (blocks[k] as object) !in Parts(contexts)
  {
  }

  class NetBufferBasedEventManager {
    const netEventHandler: NetEventHandler
    const netEventBuffer: NetPollBuffer
    var socketContexts: seq<SocketContext>
    ghost var lost: multiset<Pointer>

    ghost predicate Valid()
      reads this, netEventHandler.bufferPool, netEventHandler.bufferPool.buffers
    {
      netEventHandler.bufferPool.Valid() && AllSeparate(socketContexts)
    }

    /** The two vectors are aligned, index by index, and hold what the value says. */
    ghost predicate Mirrors(m: Manager)
      reads this, netEventBuffer, netEventHandler.bufferPool, Parts(socketContexts)
    {
      && netEventHandler.bufferPool.View() == m.pool && lost == m.lost
      && |socketContexts| == |netEventBuffer.pollFDs| == |m.entries|
      && forall k :: 0 <= k < |m.entries| ==>
           && socketContexts[k].View() == m.entries[k].ctx
           && netEventBuffer.pollFDs[k].fd == m.entries[k].ctx.handle
           && netEventBuffer.pollFDs[k].wantsWrite == m.entries[k].wantsWrite
    }

    constructor (size: nat)
      requires 1 <= size < UINT32
      ensures fresh(netEventHandler) && fresh(netEventHandler.bufferPool) && fresh(netEventBuffer)
      ensures forall k :: 0 <= k < |netEventHandler.bufferPool.buffers| ==> fresh(netEventHandler.bufferPool.buffers[k])
      ensures Valid() && socketContexts == []
      ensures var m := Manager(netEventHandler.bufferPool.View(), [], multiset{});
              Mirrors(m) && Initial(m) && m.pool.size == size
    {
      netEventHandler := new NetEventHandler(size);
      netEventBuffer := new NetPollBuffer();
      socketContexts := [];
      lost := multiset{};
    }

    /** The operating system's answers have arrived in the table. */
    ghost predicate Answered(os: Os)
      reads netEventBuffer
    {
      forall k :: 0 <= k < |netEventBuffer.pollFDs| ==>
        netEventBuffer.pollFDs[k].revents == os(netEventBuffer.pollFDs[k].fd).ready
    }

    /** Marks the connection behind one entry. */
    method DisconnectEntry(index: nat, ghost m: Manager) returns (closed: bool)
      requires Valid() && Mirrors(m) && index < |m.entries|
      modifies socketContexts[index].connection
      ensures Valid() && closed
      ensures Mirrors(m.(entries := m.entries[index := DisconnectedEntry(m.entries[index])]))
    {
      closed := netEventHandler.Disconnect(socketContexts[index]);
      forall k | 0 <= k < |m.entries| && k != index
        ensures socketContexts[k].View() == m.entries[k].ctx
      {
        assert Separate(socketContexts[k], socketContexts[index]);
      }
    }

    /** Erases one index of both vectors. */
    method EraseEntry(index: nat, ghost m: Manager)
      requires Valid() && Mirrors(m) && index < |m.entries|
      modifies this, netEventBuffer
      ensures Valid()
      ensures socketContexts == Erased(old(socketContexts), index)
      ensures netEventBuffer.pollFDs == Erased(old(netEventBuffer.pollFDs), index)
      ensures Mirrors(Manager(m.pool, Erased(m.entries, index), m.lost + Holding(m.entries[index])))
    {
      ErasedSeparate(socketContexts, index);
      netEventBuffer.Remove(index);
      ghost var before, es := socketContexts, Erased(m.entries, index);
      socketContexts := Erased(socketContexts, index);
      lost := lost + Holding(m.entries[index]);
      forall k | 0 <= k < |es|
        ensures socketContexts[k].View() == es[k].ctx
      {
        assert socketContexts[k] == before[if k < index then k else k + 1];
      }
    }

    /** `RemoveConnection(index)`: the context's receive buffers stay out of the pool. */
    method RemoveConnection(index: nat, ghost m: Manager)
      requires Valid() && Mirrors(m) && index < |m.entries|
      modifies this, netEventBuffer, socketContexts[index].connection
      ensures Valid()
      ensures old(socketContexts[index]).View() == DisconnectedEntry(m.entries[index]).ctx
      ensures socketContexts == Erased(old(socketContexts), index)
      ensures netEventBuffer.pollFDs == Erased(old(netEventBuffer.pollFDs), index)
      ensures Mirrors(Manager(m.pool, Erased(m.entries, index), m.lost + Holding(m.entries[index])))
    {
      var closed := DisconnectEntry(index, m);
      if closed {
        ghost var marked := m.entries[index := DisconnectedEntry(m.entries[index])];
        assert Erased(marked, index) == Erased(m.entries, index);
        EraseEntry(index, m.(entries := marked));
      }
    }

    /** Receives into the slot of one entry. */
    method ReadEntry(i: nat, incoming: seq<char>, ghost m: Manager)
      requires Valid() && Mirrors(m) && i < |m.entries|
      requires HasSlot(State(m.pool, m.entries[i].ctx)) && 1 <= |incoming| <= m.pool.size
      modifies netEventHandler.bufferPool, netEventHandler.bufferPool.buffers
      modifies socketContexts[i].receiveContext, socketContexts[i].socket, socketContexts[i].connection
      ensures Valid() && Grown(old(netEventHandler.bufferPool.buffers))
      ensures var s := Received(State(m.pool, m.entries[i].ctx), incoming);
              Mirrors(Manager(s.pool, m.entries[i := m.entries[i].(ctx := s.ctx)], m.lost))
    {
      hide Received;
      Receive(netEventHandler, socketContexts[i], incoming);
      forall k | 0 <= k < |m.entries| && k != i
        ensures socketContexts[k].View() == m.entries[k].ctx
      {
        assert Separate(socketContexts[k], socketContexts[i]);
      }
    }

    /** The pool only gained new blocks. */
    twostate predicate Grown(before: seq<array<char>>)
      reads netEventHandler.bufferPool
    {
      forall k :: 0 <= k < |netEventHandler.bufferPool.buffers| ==>
        netEventHandler.bufferPool.buffers[k] in before || fresh(netEventHandler.bufferPool.buffers[k])
    }

    /** Transmits the send context's message, and clears the write flag when no other follows. */
    method WriteEntry(i: nat, ghost m: Manager)
      requires Valid() && Mirrors(m) && i < |m.entries| && m.entries[i].ctx.conn.toSend != []
      modifies netEventBuffer, socketContexts[i].sendContext, socketContexts[i].socket, socketContexts[i].connection
      ensures Valid()
      ensures |netEventBuffer.pollFDs| == |old(netEventBuffer.pollFDs)|
      ensures forall k :: 0 <= k < |netEventBuffer.pollFDs| ==>
                netEventBuffer.pollFDs[k].revents == old(netEventBuffer.pollFDs)[k].revents
      ensures var (c, more) := WriteDone(Transmitted(m.entries[i].ctx));
              Mirrors(m.(entries := m.entries[i := Entry(c, m.entries[i].wantsWrite && more)]))
    {
      hide WriteDone, Transmitted;
      var more := SendAndWrite(netEventHandler, socketContexts[i]);
      if !more {
        netEventBuffer.ResetWriteFlag(i);
      }
      forall k | 0 <= k < |m.entries| && k != i
        ensures socketContexts[k].View() == m.entries[k].ctx
      {
        assert Separate(socketContexts[k], socketContexts[i]);
      }
    }

    /**
      What the rest of the round on an index has done: the entry replaced or removed, its context in
      its last state.
     */
    twostate predicate VisitDone(before: seq<SocketContext>, i: nat, removed: bool, m: Manager, v: Visited, os: Os)
      requires i < |before| && i < |m.entries|
      reads this, netEventBuffer, netEventHandler.bufferPool, Parts(socketContexts), before[i]
      reads before[i].socket, before[i].connection, before[i].receiveContext, before[i].sendContext
      reads netEventHandler.bufferPool.buffers
    {
      && Valid() && Answered(os) && removed == v.removed
      && socketContexts == (if removed then Erased(before, i) else before)
      && before[i].View() == v.entry.ctx
      && Mirrors(After(m, i, v))
    }

    /** A round that removes the entry. */
    method VisitRemovedEntry(i: nat, ghost os: Os, ghost m: Manager)
      requires Valid() && Mirrors(m) && Answered(os) && i < |m.entries|
      modifies this, netEventBuffer, socketContexts[i].connection
      ensures VisitDone(old(socketContexts), i, true, m, RemovedEntry(m.pool, m.entries[i]), os)
    {
      RemoveConnection(i, m);
    }

    method VisitRestEntry(i: nat, os: Os, ghost m: Manager) returns (removed: bool)
      requires Valid() && Mirrors(m) && Answered(os) && i < |m.entries|
      modifies this, netEventBuffer, socketContexts[i].connection
      ensures var v := VisitRest(m.pool, m.entries[i], os(m.entries[i].ctx.handle));
              VisitDone(old(socketContexts), i, removed, m, v, os)
    {
      var netEvent := netEventBuffer.At(i).revents;
      if netEvent.hangup {
        VisitRemovedEntry(i, os, m);
        return true;
      }
      if netEvent.except {
        VisitRemovedEntry(i, os, m);
        return true;
      }
      assert m.entries[i := m.entries[i]] == m.entries;
      return false;
    }

    method VisitSendEntry(i: nat, os: Os, ghost m: Manager) returns (removed: bool)
      requires Valid() && Mirrors(m) && Answered(os) && i < |m.entries| && m.entries[i].ctx.conn.toSend != []
      modifies this, netEventBuffer
      modifies socketContexts[i].sendContext, socketContexts[i].socket, socketContexts[i].connection
      ensures var (c, more) := WriteDone(Transmitted(m.entries[i].ctx));
              var e := Entry(c, m.entries[i].wantsWrite && more);
              VisitDone(old(socketContexts), i, removed, m, VisitRest(m.pool, e, os(m.entries[i].ctx.handle)), os)
    {
      WriteEntry(i, m);
      ghost var (c, more) := WriteDone(Transmitted(m.entries[i].ctx));
      ghost var e := Entry(c, m.entries[i].wantsWrite && more);
      removed := VisitRestEntry(i, os, m.(entries := m.entries[i := e]));
      AfterAgain(m, m.pool, i, e, VisitRest(m.pool, e, os(m.entries[i].ctx.handle)));
    }

    method VisitWriteEntry(i: nat, os: Os, ghost m: Manager) returns (removed: bool)
      requires Valid() && Mirrors(m) && Answered(os) && i < |m.entries|
      modifies this, netEventBuffer
      modifies socketContexts[i].sendContext, socketContexts[i].socket, socketContexts[i].connection
      ensures var v := VisitWrite(m.pool, m.entries[i], os(m.entries[i].ctx.handle));
              VisitDone(old(socketContexts), i, removed, m, v, os)
    {
      var ready := netEventHandler.ReadyToWrite(socketContexts[i]);
      hide VisitDone, VisitRest, RemovedEntry, WriteDone, Transmitted;
      if netEventBuffer.At(i).revents.write && ready {
        if os(socketContexts[i].socket.handle).sendOk {
          removed := VisitSendEntry(i, os, m);
        } else {
          VisitRemovedEntry(i, os, m);
          removed := true;
        }
      } else {
        removed := VisitRestEntry(i, os, m);
      }
    }

    method VisitReadEntry(i: nat, incoming: seq<char>, os: Os, ghost m: Manager) returns (removed: bool)
      requires Valid() && Mirrors(m) && Answered(os) && i < |m.entries|
      requires HasSlot(State(m.pool, m.entries[i].ctx)) && 1 <= |incoming| <= m.pool.size
      modifies this, netEventBuffer, netEventHandler.bufferPool, netEventHandler.bufferPool.buffers
      modifies socketContexts[i].socket, socketContexts[i].connection
      modifies socketContexts[i].receiveContext, socketContexts[i].sendContext
      ensures var s := Received(State(m.pool, m.entries[i].ctx), incoming);
              var e := m.entries[i].(ctx := s.ctx);
              VisitDone(old(socketContexts), i, removed, m, VisitWrite(s.pool, e, os(m.entries[i].ctx.handle)), os)
      ensures Grown(old(netEventHandler.bufferPool.buffers))
    {
      ReadEntry(i, incoming, m);
      ghost var s := Received(State(m.pool, m.entries[i].ctx), incoming);
      ghost var e := m.entries[i].(ctx := s.ctx);
      removed := VisitWriteEntry(i, os, Manager(s.pool, m.entries[i := e], m.lost));
      AfterAgain(m, s.pool, i, e, VisitWrite(s.pool, e, os(m.entries[i].ctx.handle)));
    }

    /** One round of the loop. */
    method VisitEntry(i: nat, os: Os, ghost m: Manager) returns (removed: bool)
      requires Valid() && Mirrors(m) && Answered(os) && i < |m.entries|
      requires HasSlot(State(m.pool, m.entries[i].ctx)) && |os(m.entries[i].ctx.handle).incoming| <= m.pool.size
      modifies this, netEventBuffer, netEventHandler.bufferPool, netEventHandler.bufferPool.buffers
      modifies socketContexts[i].socket, socketContexts[i].connection
      modifies socketContexts[i].receiveContext, socketContexts[i].sendContext
      ensures var v := Visit(m.pool, m.entries[i], os(m.entries[i].ctx.handle));
              VisitDone(old(socketContexts), i, removed, m, v, os)
      ensures Grown(old(netEventHandler.bufferPool.buffers))
    {
      if netEventBuffer.At(i).revents.read {
        var incoming := os(socketContexts[i].socket.handle).incoming;
        if incoming != [] {
          removed := VisitReadEntry(i, incoming, os, m);
        } else {
          VisitRemovedEntry(i, os, m);
          removed := true;
        }
      } else {
        removed := VisitWriteEntry(i, os, m);
      }
    }

    method StartEntry(i: nat, ghost m: Manager)
      requires Valid() && Mirrors(m) && i < |m.entries|
      modifies netEventBuffer, socketContexts[i].sendContext, socketContexts[i].connection
      ensures Valid() && Mirrors(m.(entries := m.entries[i := StartedEntry(m.entries[i])]))
    {
      var started := netEventHandler.StartWrite(socketContexts[i]);
      if started {
        netEventBuffer.SetWriteFlag(i);
      }
      forall k | 0 <= k < |m.entries| && k != i
        ensures socketContexts[k].View() == m.entries[k].ctx
      {
        assert Separate(socketContexts[k], socketContexts[i]);
      }
    }

    /** Starts the send of every context, and asks for writability where one was started. */
    method ProcessSend(ghost m: Manager)
      requires Valid() && Mirrors(m)
      modifies netEventBuffer, Parts(socketContexts)
      ensures Valid() && Mirrors(m.(entries := ProcessedSend(m.entries)))
      ensures socketContexts == old(socketContexts)
      ensures netEventHandler.bufferPool.buffers == old(netEventHandler.bufferPool.buffers)
    {
      PartlySentEnds(m.entries);
      NoParts(this, netEventHandler.bufferPool.buffers, socketContexts);
      var i := 0;
      while i < |netEventBuffer.pollFDs|
        invariant 0 <= i <= |netEventBuffer.pollFDs| == |m.entries|
        invariant Valid() && Mirrors(m.(entries := PartlySent(m.entries, i)))
      {
        PartlySentNext(m.entries, i);
        PartsHas(socketContexts, i);
        StartEntry(i, m.(entries := PartlySent(m.entries, i)));
        i := i + 1;
      }
    }

    method Round(i: nat, os: Os, pollResult: nat, ghost m: Manager) returns (left: nat, removed: bool)
      requires Valid() && Mirrors(m) && Answered(os) && i < |m.entries| && pollResult > 0
      requires HasSlot(State(m.pool, m.entries[i].ctx)) && |os(m.entries[i].ctx.handle).incoming| <= m.pool.size
      modifies this, netEventBuffer, netEventHandler.bufferPool, netEventHandler.bufferPool.buffers
      modifies socketContexts[i].socket, socketContexts[i].connection
      modifies socketContexts[i].receiveContext, socketContexts[i].sendContext
      ensures Valid() && Mirrors(VisitedAt(m, i, os)) && Answered(os)
      ensures socketContexts == if removed then Erased(old(socketContexts), i) else old(socketContexts)
      ensures removed ==> old(socketContexts)[i].connection.status == MarkForClose
      ensures Grown(old(netEventHandler.bufferPool.buffers))
      ensures left == Left(m, i, os, pollResult)
    {
      left := pollResult;
      if netEventBuffer.At(i).revents.IsChanged() {
        left := left - 1;
      }
      ghost var context := socketContexts[i];
      if Visit(m.pool, m.entries[i], os(m.entries[i].ctx.handle)).removed {
        RemovalMarks(m.pool, m.entries[i], os(m.entries[i].ctx.handle));
      }
      removed := VisitEntry(i, os, m);
      assert context.View().conn.status == context.connection.status;
    }

    /** A round does not touch the connection of any other context there ever was. */
    method SteadyRound(i: nat, os: Os, pollResult: nat, ghost m: Manager, ghost contexts: seq<SocketContext>)
      returns (left: nat, removed: bool)
      requires Valid() && Mirrors(m) && Answered(os) && i < |m.entries| && pollResult > 0
      requires HasSlot(State(m.pool, m.entries[i].ctx)) && |os(m.entries[i].ctx.handle).incoming| <= m.pool.size
      requires AllSeparate(contexts) && socketContexts[i] in contexts
      modifies this, netEventBuffer, netEventHandler.bufferPool, netEventHandler.bufferPool.buffers
      modifies socketContexts[i].socket, socketContexts[i].connection
      modifies socketContexts[i].receiveContext, socketContexts[i].sendContext
      ensures Valid() && Mirrors(VisitedAt(m, i, os)) && Answered(os)
      ensures socketContexts == if removed then Erased(old(socketContexts), i) else old(socketContexts)
      ensures removed ==> old(socketContexts)[i].connection.status == MarkForClose
      ensures forall c <- contexts :: c != old(socketContexts)[i] ==> c.connection.status == old(c.connection.status)
      ensures Grown(old(netEventHandler.bufferPool.buffers))
      ensures left == Left(m, i, os, pollResult)
    {
      ghost var context := socketContexts[i];
      left, removed := Round(i, os, pollResult, m);
      forall c <- contexts | c != context
        ensures c.connection.status == old(c.connection.status)
      {
        assert Separate(c, context);
      }
    }

    /** Of the contexts there were, each is still there or has its connection marked; none is new. */
    ghost predicate Accounted(contexts: seq<SocketContext>)
      reads this, Parts(contexts)
    {
      && (forall c <- socketContexts :: c in contexts)
      && (forall c <- contexts :: c in socketContexts || c.connection.status == MarkForClose)
    }

    method AccountedRound(i: nat, os: Os, pollResult: nat, ghost m: Manager, ghost contexts: seq<SocketContext>)
      returns (left: nat, ghost next: Manager)
      requires Valid() && Mirrors(m) && Answered(os) && i < |m.entries| && pollResult > 0
      requires LoopSafe(m, i, os, pollResult)
      requires AllSeparate(contexts) && Accounted(contexts)
      modifies this, netEventBuffer, netEventHandler.bufferPool, netEventHandler.bufferPool.buffers
      modifies socketContexts[i].socket, socketContexts[i].connection
      modifies socketContexts[i].receiveContext, socketContexts[i].sendContext
      ensures Valid() && Mirrors(next) && Answered(os) && Accounted(contexts)
      ensures |socketContexts| <= old(|socketContexts|)
      ensures Grown(old(netEventHandler.bufferPool.buffers))
      ensures LoopSafe(next, i + 1, os, left) && Looped(next, i + 1, os, left) == Looped(m, i, os, pollResult)
    {
      next := VisitedAt(m, i, os);
      ghost var before := socketContexts;
      ghost var removed;
      left, removed := SteadyRound(i, os, pollResult, m, contexts);
      forall c <- contexts
        ensures c in socketContexts || c.connection.status == MarkForClose
      {
        if c in before && c != before[i] {
          StillThere(before, i, c);
        }
      }
    }

    /** The loop of `HandleNetEvents`; `parts` is all it may change outside the manager. */
    method Pass(os: Os, count: nat, ghost m: Manager, ghost parts: set<object>)
      requires Valid() && Mirrors(m) && Answered(os) && LoopSafe(m, 0, os, count)
      requires this !in parts
      requires forall c <- socketContexts ::
                 c.socket in parts && c.connection in parts && c.receiveContext in parts && c.sendContext in parts
      modifies this, netEventBuffer, netEventHandler.bufferPool, netEventHandler.bufferPool.buffers, parts
      ensures Valid() && Accounted(old(socketContexts)) && Grown(old(netEventHandler.bufferPool.buffers))
      ensures Mirrors(Looped(m, 0, os, count))
    {
      ghost var contexts, target := socketContexts, Looped(m, 0, os, count);
      assert AllSeparate(contexts);
      hide Looped, LoopSafe, Valid, Mirrors, Answered, AllSeparate;
      var pollResult := count;
      ghost var now := m;
      var i := 0;
      while i < |netEventBuffer.pollFDs|
        invariant Valid() && Mirrors(now) && Answered(os) && Accounted(contexts)
        invariant Grown(old(netEventHandler.bufferPool.buffers))
        invariant LoopSafe(now, i, os, pollResult) && Looped(now, i, os, pollResult) == target
        decreases |socketContexts| - i
      {
        if pollResult == 0 {
          break;
        }
        Aligned(now);
        pollResult, now := AccountedRound(i, os, pollResult, now, contexts);
        i := i + 1;
      }
      Aligned(now);
      LoopEnds(now, i, os, pollResult);
    }

    /** Both vectors have an entry for each entry of the value. */
    lemma Aligned(m: Manager)
      requires Mirrors(m)
      ensures |socketContexts| == |netEventBuffer.pollFDs| == |m.entries|
    {
    }

    /** Starts the sends, waits, and passes over the entries; nothing happens when the table is empty. */
    method HandleNetEvents(os: Os, ghost m: Manager)
      requires Valid() && Mirrors(m) && ManagerOk(m)
      requires AnswersOk(ProcessedSend(m.entries), os, m.pool.size)
      modifies this, netEventBuffer, netEventHandler.bufferPool, netEventHandler.bufferPool.buffers
      modifies Parts(socketContexts)
      ensures Valid() && Accounted(old(socketContexts)) && Grown(old(netEventHandler.bufferPool.buffers))
      ensures Mirrors(Handled(m, os, Events(ProcessedSend(m.entries), os)))
    {
      HandleSafely(m, os);
      hide ManagerOk, Looped, LoopSafe;
      NoParts(this, netEventHandler.bufferPool.buffers, socketContexts);
      PartsAll(socketContexts);
      if netEventBuffer.pollFDs == [] {
        assert ProcessedSend(m.entries) == m.entries;
        return;
      }
      ProcessSend(m);
      WaitAndPass(os, m.(entries := ProcessedSend(m.entries)), Parts(socketContexts));
    }

    method WaitAndPass(os: Os, ghost m: Manager, ghost parts: set<object>)
      requires Valid() && Mirrors(m) && LoopSafe(m, 0, os, Events(m.entries, os))
      requires this !in parts && netEventBuffer !in parts
      requires forall c <- socketContexts ::
                 c.socket in parts && c.connection in parts && c.receiveContext in parts && c.sendContext in parts
      modifies this, netEventBuffer, netEventHandler.bufferPool, netEventHandler.bufferPool.buffers, parts
      ensures Valid() && Accounted(old(socketContexts)) && Grown(old(netEventHandler.bufferPool.buffers))
      ensures Mirrors(Looped(m, 0, os, Events(m.entries, os)))
    {
      hide LoopSafe, Looped, Answered, Valid, Mirrors;
      var pollResult := Wait(os, m);
      if pollResult == 0 {
        LoopEnds(m, 0, os, pollResult);
        return;
      }
      Pass(os, pollResult, m, parts);
    }

    /** The wait: the answers arrive in the table, and the entries with an event are counted. */
    method Wait(os: Os, ghost m: Manager) returns (pollResult: nat)
      requires Valid() && Mirrors(m)
      modifies netEventBuffer
      ensures Valid() && Mirrors(m) && Answered(os) && pollResult == Events(m.entries, os)
    {
      var t := netEventBuffer.pollFDs;
      pollResult := netEventBuffer.WaitForEvents(seq(|t|, k requires 0 <= k < |t| => os(t[k].fd).ready));
      ChangedIsEvents(netEventBuffer.pollFDs, m.entries, os);
    }

    /** A new context and row for a connection, with reading started. */
    method AddConnection(socket: NetSocket, connection: NetConnection, ghost m: Manager)
      requires Valid() && Mirrors(m)
      requires socket.Silent() && connection.View() == FRESH
      requires forall c <- socketContexts :: c.socket != socket && c.connection != connection
      modifies this, netEventBuffer, netEventHandler.bufferPool
      ensures Valid() && Mirrors(Added(m, socket.handle)) && Grown(old(netEventHandler.bufferPool.buffers))
      ensures |socketContexts| == |old(socketContexts)| + 1 && old(socketContexts) <= socketContexts
      ensures var c := socketContexts[|old(socketContexts)|];
              && c.socket == socket && c.connection == connection
              && fresh(c) && fresh(c.receiveContext) && fresh(c.sendContext)
    {
      var socketContext := OpenContext(netEventHandler, socket, connection);
      ghost var reading := Manager(netEventHandler.bufferPool.View(), m.entries, m.lost);
      EmplaceEntry(socketContext, reading);
    }

    /** Appends a context to both vectors. */
    method EmplaceEntry(socketContext: SocketContext, ghost m: Manager)
      requires Valid() && Mirrors(m) && socketContext.Valid()
      requires forall c <- socketContexts :: Separate(c, socketContext)
      modifies this, netEventBuffer
      ensures Valid() && socketContexts == old(socketContexts) + [socketContext]
      ensures Mirrors(Manager(m.pool, m.entries + [Entry(socketContext.View(), false)], m.lost))
    {
      AppendSeparate(socketContexts, socketContext);
      var added := netEventBuffer.Add(socketContext.socket.handle);
      socketContexts := socketContexts + [socketContext];
    }

    /** Marks the connection of every context. */
    method MarkAll()
      requires Valid()
      modifies Parts(socketContexts)
      ensures Valid() && unchanged(this)
      ensures forall k :: 0 <= k < |socketContexts| ==>
                socketContexts[k].connection.View() == Marked(old(socketContexts[k].connection.View()))
    {
      NoParts(this, netEventHandler.bufferPool.buffers, socketContexts);
      var i := 0;
      while i < |socketContexts|
        invariant 0 <= i <= |socketContexts| && unchanged(this) && Valid()
        invariant forall k :: 0 <= k < |socketContexts| ==>
                    var before := old(socketContexts[k].connection.View());
                    socketContexts[k].connection.View() == if k < i then Marked(before) else before
      {
        PartsHas(socketContexts, i);
        var closed := netEventHandler.Disconnect(socketContexts[i]);
        assert forall k :: 0 <= k < |socketContexts| && k != i ==> Separate(socketContexts[k], socketContexts[i]);
        i := i + 1;
      }
    }

    /**
      The manager's last step: every connection is marked and every context dropped, but the table
      keeps its entries.
     */
    method DisconnectAllConnections(ghost m: Manager)
      requires Valid() && Mirrors(m)
      modifies this, Parts(socketContexts)
      ensures Valid() && socketContexts == [] && lost == m.lost + Holdings(m.entries)
      ensures forall c <- old(socketContexts) :: c.connection.View() == Marked(old(c.connection.View()))
      ensures |socketContexts| == |netEventBuffer.pollFDs| <==> old(socketContexts) == []
    {
      NoParts(this, netEventHandler.bufferPool.buffers, socketContexts);
      MarkAll();
      socketContexts := [];
      lost := lost + Holdings(m.entries);
    }
  }

  /** A new context on which reading has started. */
  method OpenContext(netEventHandler: NetEventHandler, socket: NetSocket, connection: NetConnection)
    returns (socketContext: SocketContext)
    requires netEventHandler.bufferPool.Valid()
    requires socket.Silent() && connection.View() == FRESH
    modifies netEventHandler.bufferPool
    ensures netEventHandler.Ready(socketContext)
    ensures socketContext.socket == socket && socketContext.connection == connection
    ensures fresh(socketContext) && fresh(socketContext.receiveContext) && fresh(socketContext.sendContext)
    ensures forall k :: 0 <= k < |netEventHandler.bufferPool.buffers| ==>
              netEventHandler.bufferPool.buffers[k] in old(netEventHandler.bufferPool.buffers) ||
              fresh(netEventHandler.bufferPool.buffers[k])
    ensures netEventHandler.View(socketContext) ==
            StartedRead(State(old(netEventHandler.bufferPool.View()), NewContext(socket.handle)))
  {
    socketContext := new SocketContext(socket, connection);
    netEventHandler.StartRead(socketContext);
  }

  /** `TNetProtocol::Send` puts the send context's message on the wire, and the handler is told. */
  method SendAndWrite(netEventHandler: NetEventHandler, socketContext: SocketContext) returns (more: bool)
    requires socketContext.Valid() && socketContext.connection.messagesToSend != []
    modifies socketContext.sendContext, socketContext.socket, socketContext.connection
    ensures (socketContext.View(), more) == WriteDone(Transmitted(old(socketContext.View())))
  {
    socketContext.socket.wire := socketContext.socket.wire + [Target(socketContext.View())];
    socketContext.socket.handed := socketContext.socket.handed + [socketContext.sendContext.netBuffer];
    more := netEventHandler.Write(socketContext, socketContext.sendContext.netBuffer.len);
  }

  /** `TNetProtocol::Receive` fills the slot, and the handler reads it. */
  method Receive(netEventHandler: NetEventHandler, socketContext: SocketContext, incoming: seq<char>)
    requires netEventHandler.Ready(socketContext) && HasSlot(netEventHandler.View(socketContext))
    requires 1 <= |incoming| <= netEventHandler.bufferPool.size
    modifies netEventHandler.bufferPool, netEventHandler.bufferPool.buffers
    modifies socketContext.receiveContext, socketContext.socket, socketContext.connection
    ensures netEventHandler.Ready(socketContext)
    ensures forall k :: 0 <= k < |netEventHandler.bufferPool.buffers| ==>
              netEventHandler.bufferPool.buffers[k] in old(netEventHandler.bufferPool.buffers) ||
              fresh(netEventHandler.bufferPool.buffers[k])
    ensures netEventHandler.View(socketContext) == Received(old(netEventHandler.View(socketContext)), incoming)
  {
    netEventHandler.bufferPool.Receive(socketContext.receiveContext.netBuffer.buf, incoming);
    netEventHandler.Read(socketContext, |incoming|);
  }
}
