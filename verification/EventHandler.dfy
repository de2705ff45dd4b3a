/**
  The per-connection event handler (NetEventHandler.cpp): what one receive or send event does
  to the pool, the socket context and the connection behind it.
 */
module EventHandlers {
  import opened Memory
  import opened BufferPools
  import opened Framing
  import opened Connections
  import opened Contexts

  /** What an event changes: the handler's pool and the context it is about. */
  datatype State = State(pool: Pool, ctx: Ctx)

  /** Makes the next pool buffer the place the next receive writes to. */
  ghost function Supplied(s: State): State {
    var (pool, b) := Take(s.pool);
    State(pool, s.ctx.(receive := NextBuffer(s.ctx.receive, b)))
  }

  ghost function StartedRead(s: State): State {
    Supplied(s.(ctx := s.ctx.(receive := MessageLength(s.ctx.receive, s.pool.size))))
  }

  /** The receive buffer is the last one of the chain, and every pointer of the chain is a pool buffer. */
  ghost predicate HasSlot(s: State) {
    var io := s.ctx.receive;
    io.buffers != [] && s.pool.HasAll(io.buffers) && io.netBuffer.buf == io.buffers[|io.buffers| - 1]
  }

  ghost function Slot(s: State): seq<char>
    requires HasSlot(s)
  {
    s.pool.At(s.ctx.receive.netBuffer.buf)
  }

  /** The chain joined into a message for the connection, its buffers returned. */
  ghost function Emitted(s: State): State
    requires HasSlot(s)
  {
    var io := s.ctx.receive;
    State(
      GiveBack(s.pool, io.buffers),
      s.ctx.(conn := Delivered(s.ctx.conn, Join(s.pool.Chain(io.buffers))), receive := io.(buffers := [])))
  }

  ghost function ReadDone(s: State, bytesTransferred: nat): State
    requires HasSlot(s) && 1 <= bytesTransferred <= |Slot(s)|
  {
    var r: Read := Read(Slot(s), bytesTransferred);
    var logged := s.(ctx := s.ctx.(log := s.ctx.log + [r]));
    Supplied(if EndsMessage(r) then Emitted(logged) else logged)
  }

  /** Points the send context at the queue's LAST message, unless that one was already handed over. */
  ghost function StartedWrite(c: Ctx): (Ctx, bool) {
    var q := c.conn.toSend;
    if q == [] || q[|q| - 1].sended then (c, false)
    else
      var m := q[|q| - 1];
      (c.(send := NextBuffer(MessageLength(c.send, |m.msg| + 1), Text(m.id)),
          conn := c.conn.(toSend := q[|q| - 1 := m.(sended := true)])),
       true)
  }

  /** Drops the queue's FIRST message. */
  ghost function Popped(c: Ctx): Ctx
    requires c.conn.toSend != []
  {
    c.(conn := c.conn.(toSend := c.conn.toSend[1..]), send := c.send.(buffers := []))
  }

  ghost function WriteDone(c: Ctx): (Ctx, bool)
    requires c.conn.toSend != []
  {
    StartedWrite(Popped(c))
  }

  ghost function Disconnected(c: Ctx): Ctx {
    c.(conn := Marked(c.conn))
  }

  class NetEventHandler {
    const bufferPool: BufferPool

    constructor (size: nat)
      ensures fresh(bufferPool) && bufferPool.Valid() && bufferPool.size == size
      ensures forall k :: 0 <= k < |bufferPool.buffers| ==> fresh(bufferPool.buffers[k])
      ensures Owned(bufferPool.View(), multiset{}) && |bufferPool.View().bytes| == 8
    {
      bufferPool := new BufferPool(size, 8);
    }

    /** The handler's pool and a context, as a value. */
    ghost function View(socketContext: SocketContext): State
      reads bufferPool, socketContext.socket, socketContext.connection
      reads socketContext.receiveContext, socketContext.sendContext
    {
      State(bufferPool.View(), socketContext.View())
    }

    ghost predicate Ready(socketContext: SocketContext)
      reads bufferPool, bufferPool.buffers
    {
      bufferPool.Valid() && socketContext.Valid()
    }

    /** Takes a pool buffer as the next one to receive into. */
    method Supply(socketContext: SocketContext)
      requires Ready(socketContext)
      modifies bufferPool, socketContext.receiveContext
      ensures Ready(socketContext) && old(bufferPool.buffers) <= bufferPool.buffers
      ensures forall k :: |old(bufferPool.buffers)| <= k < |bufferPool.buffers| ==> fresh(bufferPool.buffers[k])
      ensures View(socketContext) == Supplied(old(View(socketContext)))
    {
      var buffer := bufferPool.TakeBuffer();
      socketContext.receiveContext.SetNextBuffer(buffer);
    }

    method StartRead(socketContext: SocketContext)
      requires Ready(socketContext)
      modifies bufferPool, socketContext.receiveContext
      ensures Ready(socketContext) && old(bufferPool.buffers) <= bufferPool.buffers
      ensures forall k :: |old(bufferPool.buffers)| <= k < |bufferPool.buffers| ==> fresh(bufferPool.buffers[k])
      ensures View(socketContext) == StartedRead(old(View(socketContext)))
    {
      socketContext.receiveContext.SetMessageLength(bufferPool.size);
      Supply(socketContext);
    }

    method Read(socketContext: SocketContext, bytesTransferred: nat)
      requires Ready(socketContext) && HasSlot(View(socketContext))
      requires 1 <= bytesTransferred <= bufferPool.size
      modifies bufferPool, socketContext.receiveContext, socketContext.socket`log
      modifies socketContext.connection`receivedMessages, socketContext.connection`inbox
      ensures Ready(socketContext) && old(bufferPool.buffers) <= bufferPool.buffers
      ensures forall k :: |old(bufferPool.buffers)| <= k < |bufferPool.buffers| ==> fresh(bufferPool.buffers[k])
      ensures View(socketContext) == ReadDone(old(View(socketContext)), bytesTransferred)
    {
      var buffer := bufferPool.buffers[socketContext.receiveContext.netBuffer.buf.index];
      ghost var r: Read := RawRead.Read(buffer[..], bytesTransferred);
      socketContext.socket.log := socketContext.socket.log + [r];

      if buffer[bytesTransferred - 1] == NUL {
        EmitMessage(socketContext);
      }
      Supply(socketContext);
    }

    /** Joins the chain into a message for the connection, and returns its buffers. */
    method EmitMessage(socketContext: SocketContext)
      requires Ready(socketContext) && HasSlot(View(socketContext)) && NUL in Slot(View(socketContext))
      modifies bufferPool`buffersQueue, socketContext.receiveContext
      modifies socketContext.connection`receivedMessages, socketContext.connection`inbox
      ensures Ready(socketContext)
      ensures View(socketContext) == Emitted(old(View(socketContext)))
      ensures socketContext.connection.receivedMessages == old(socketContext.connection.receivedMessages) +
              [Join(old(bufferPool.View().Chain(socketContext.receiveContext.buffers)))]
    {
      var ioContext := socketContext.receiveContext;
      var blocks := bufferPool.Deref(ioContext.buffers);
      var fullMsg := ConcatBuffers(blocks, bufferPool.size, bufferPool.View().Chain(ioContext.buffers));
      var connection := socketContext.connection;
      connection.receivedMessages := connection.receivedMessages + [fullMsg];
      connection.inbox := connection.inbox + [fullMsg];

      bufferPool.ReturnBuffers(ioContext.buffers);
      ioContext.Reset();
    }

    method StartWrite(socketContext: SocketContext) returns (started: bool)
      requires socketContext.Valid()
      modifies socketContext.sendContext, socketContext.connection`messagesToSend
      ensures (socketContext.View(), started) == StartedWrite(old(socketContext.View()))
    {
      var connection := socketContext.connection;
      if connection.messagesToSend != [] {
        var back := |connection.messagesToSend| - 1;
        var sendMsg := connection.messagesToSend[back];
        if sendMsg.sended { return false; }

        socketContext.sendContext.SetMessageLength(|sendMsg.msg| + 1);
        socketContext.sendContext.SetNextBuffer(Text(sendMsg.id));
        connection.messagesToSend := connection.messagesToSend[back := sendMsg.(sended := true)];
        return true;
      }
      return false;
    }

    method Write(socketContext: SocketContext, bytesTransferred: nat) returns (more: bool)
      requires socketContext.Valid() && socketContext.connection.messagesToSend != []
      modifies socketContext.sendContext, socketContext.connection`messagesToSend
      ensures (socketContext.View(), more) == WriteDone(old(socketContext.View()))
    {
      socketContext.connection.messagesToSend := socketContext.connection.messagesToSend[1..];
      socketContext.sendContext.Reset();
      more := StartWrite(socketContext);
    }

    method ReadyToWrite(socketContext: SocketContext) returns (ready: bool)
      ensures ready <==> socketContext.connection.messagesToSend != []
    {
      ready := socketContext.connection.messagesToSend != [];
    }

    method Disconnect(socketContext: SocketContext) returns (closed: bool)
      requires socketContext.Valid()
      modifies socketContext.connection`status
      ensures closed && socketContext.View() == Disconnected(old(socketContext.View()))
    {
      socketContext.connection.ChangeStateToClose();
      closed := true;
    }
  }
}
