/**
  The contexts an event manager keeps for a connection (NetContext.hpp, NetContext.cpp), and
  the socket as far as the engine sees it.
 */
module Contexts {
  import opened Memory
  import opened Framing
  import opened Connections

  /** Lengths are 32 bits wide. */
  const UINT32: nat := 0x1_0000_0000

  datatype NetBuffer = NetBuffer(len: nat, buf: Pointer)

  /** An I/O context as a value. */
  datatype Io = Io(netBuffer: NetBuffer, buffers: seq<Pointer>)

  ghost function NextBuffer(io: Io, buffer: Pointer): Io {
    Io(io.netBuffer.(buf := buffer), io.buffers + [buffer])
  }

  ghost function MessageLength(io: Io, len: nat): Io {
    io.(netBuffer := io.netBuffer.(len := len % UINT32))
  }

  /**
    A socket context as a value: the socket's handle and what went over it, the two I/O
    contexts, and the connection it points to.  `log` is every read processed, `wire` the
    numbers of the messages whose send succeeded, `issued` those of the asynchronous sends
    started, `handed` the network buffers these sends were given, in order, and `posted` the
    asynchronous receives that have not completed.
   */
  datatype Ctx = Ctx(
    handle: nat,
    log: seq<Read>,
    wire: seq<nat>,
    issued: seq<nat>,
    handed: seq<NetBuffer>,
    posted: seq<NetBuffer>,
    receive: Io,
    send: Io,
    conn: Conn
  )

  class IOContext {
    var netBuffer: NetBuffer
    var buffers: seq<Pointer>

    ghost function View(): Io
      reads this
    {
      Io(netBuffer, buffers)
    }

    constructor ()
      ensures View() == Io(NetBuffer(0, Null), [])
    {
      netBuffer := NetBuffer(0, Null);
      buffers := [];
    }

    method SetNextBuffer(buffer: Pointer)
      modifies this
      ensures View() == NextBuffer(old(View()), buffer)
    {
      netBuffer := netBuffer.(buf := buffer);
      buffers := buffers + [buffer];
    }

    method SetMessageLength(messageLen: nat)
      modifies this`netBuffer
      ensures View() == MessageLength(old(View()), messageLen)
    {
      netBuffer := netBuffer.(len := messageLen % UINT32);
    }

    method Reset()
      modifies this`buffers
      ensures View() == old(View()).(buffers := [])
    {
      buffers := [];
    }
  }

  /** Stands for the operating system's side of a connected socket. */
  class NetSocket {
    const handle: nat
    ghost var log: seq<Read>
    ghost var wire: seq<nat>
    ghost var issued: seq<nat>
    ghost var handed: seq<NetBuffer>
    var posted: seq<NetBuffer>

    /** Nothing went over the socket yet. */
    ghost predicate Silent()
      reads this
    {
      log == [] && wire == [] && issued == [] && handed == [] && posted == []
    }

    constructor (handle: nat)
      ensures this.handle == handle && Silent()
    {
      this.handle := handle;
      log, wire, issued, handed, posted := [], [], [], [], [];
    }
  }

  class SocketContext {
    const socket: NetSocket
    const connection: NetConnection
    const receiveContext: IOContext
    const sendContext: IOContext

    ghost predicate Valid() {
      receiveContext != sendContext
    }

    ghost function View(): Ctx
      reads socket, connection, receiveContext, sendContext
    {
      Ctx(socket.handle, socket.log, socket.wire, socket.issued, socket.handed, socket.posted,
          receiveContext.View(), sendContext.View(), connection.View())
    }

    constructor (socket: NetSocket, connection: NetConnection)
      ensures Valid() && this.socket == socket && this.connection == connection
      ensures fresh(receiveContext) && fresh(sendContext)
      ensures receiveContext.View() == sendContext.View() == Io(NetBuffer(0, Null), [])
    {
      this.socket := socket;
      this.connection := connection;
      this.receiveContext := new IOContext();
      this.sendContext := new IOContext();
    }
  }
}
