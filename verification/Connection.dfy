/**
  A client connection (NetConnection.hpp): the two message queues the event handler and
  the user share, and the lifecycle from accept to the disconnect notification.
 */
module Connections {

  /** `id` counts the messages of a connection and stands for the address of the queue element. */
  datatype NetSendMessage = NetSendMessage(id: nat, msg: string, sended: bool)

  datatype NetStatus = Init | Error | Opened | MarkForClose | Closed

  datatype Callback = OnMessage(msg: string) | OnDisconnect

  /**
    A connection as a value.  `history` is every message ever enqueued, `inbox` every message
    ever received, `calls` every user callback made.
   */
  datatype Conn = Conn(
    toSend: seq<NetSendMessage>,
    received: seq<string>,
    status: NetStatus,
    history: seq<string>,
    inbox: seq<string>,
    calls: seq<Callback>
  )

  const FRESH: Conn := Conn([], [], Init, [], [], [])

  ghost function Enqueued(c: Conn, message: string): Conn {
    c.(toSend := c.toSend + [NetSendMessage(|c.history|, message, false)], history := c.history + [message])
  }

  ghost function Delivered(c: Conn, message: string): Conn {
    c.(received := c.received + [message], inbox := c.inbox + [message])
  }

  ghost function Marked(c: Conn): Conn {
    c.(status := MarkForClose)
  }

  ghost function Repeat<T>(n: nat, x: T): (r: seq<T>)
    ensures |r| == n && forall k :: 0 <= k < n ==> r[k] == x
  {
    if n == 0 then [] else Repeat(n - 1, x) + [x]
  }

  /** One `OnMessage` for each pending message, but each carries the one that was last. */
  ghost function Drained(c: Conn): Conn {
    if c.received == [] then c
    else
      var last := c.received[|c.received| - 1];
      c.(received := [], calls := c.calls + Repeat(|c.received|, OnMessage(last)))
  }

  ghost function Updated(c: Conn): Conn {
    var d := Drained(c);
    if d.status == MarkForClose then d.(calls := d.calls + [OnDisconnect], status := Closed) else d
  }

  ghost function Destroyed(c: Conn): Conn {
    if c.status == MarkForClose then c.(calls := c.calls + [OnDisconnect]) else c
  }

  class NetConnection {
    var messagesToSend: seq<NetSendMessage>
    var receivedMessages: seq<string>
    var status: NetStatus
    /** Model only: numbers the messages, and records what was sent, received and called. */
    var history: seq<string>
    ghost var inbox: seq<string>
    ghost var calls: seq<Callback>

    ghost function View(): Conn
      reads this
    {
      Conn(messagesToSend, receivedMessages, status, history, inbox, calls)
    }

    constructor ()
      ensures View() == FRESH
    {
      messagesToSend, receivedMessages, status := [], [], Init;
      history, inbox, calls := [], [], [];
    }

    method Send(message: string)
      modifies this
      ensures View() == Enqueued(old(View()), message)
      ensures history == old(history) + [message]
      ensures messagesToSend == old(messagesToSend) + [NetSendMessage(|old(history)|, message, false)]
    {
      messagesToSend := messagesToSend + [NetSendMessage(|history|, message, false)];
      history := history + [message];
    }

    method Update() returns (alive: bool)
      modifies this
      ensures View() == Updated(old(View()))
      ensures alive <==> old(status) != MarkForClose
    {
      ghost var pending := receivedMessages;
      while receivedMessages != []
        invariant messagesToSend == old(messagesToSend) && status == old(status)
        invariant history == old(history) && inbox == old(inbox)
        invariant |receivedMessages| <= |pending|
        invariant receivedMessages == pending[|pending| - |receivedMessages|..]
        invariant pending == [] ==> calls == old(calls)
        invariant pending != [] ==>
                    calls == old(calls) + Repeat(|pending| - |receivedMessages|, OnMessage(pending[|pending| - 1]))
        decreases |receivedMessages|
      {
        calls := calls + [OnMessage(receivedMessages[|receivedMessages| - 1])];
        receivedMessages := receivedMessages[1..];
      }
      if status == MarkForClose {
        calls := calls + [OnDisconnect];
        status := Closed;
        return false;
      }
      return true;
    }

    method ChangeStateToClose()
      modifies this`status
      ensures View() == Marked(old(View()))
    {
      status := MarkForClose;
    }

    /** The destructor. */
    method Destroy()
      modifies this`calls
      ensures View() == Destroyed(old(View()))
    {
      if status == MarkForClose {
        calls := calls + [OnDisconnect];
      }
    }
  }

  // ----- What the user hears -----

  ghost function Heard(calls: seq<Callback>): seq<string> {
    if calls == [] then []
    else
      var front, c := Heard(calls[..|calls| - 1]), calls[|calls| - 1];
      if c.OnMessage? then front + [c.msg] else front
  }

  lemma HeardNext(calls: seq<Callback>, msg: string)
    ensures Heard(calls + [OnMessage(msg)]) == Heard(calls) + [msg]
  {
  }

  lemma {:induction false} HeardRepeat(calls: seq<Callback>, n: nat, msg: string)
    ensures Heard(calls + Repeat(n, OnMessage(msg))) == Heard(calls) + Repeat(n, msg)
  {
    hide Heard;
    if n == 0 {
      assert calls + Repeat(n, OnMessage(msg)) == calls;
    } else {
      HeardRepeat(calls, n - 1, msg);
      HeardNext(calls + Repeat(n - 1, OnMessage(msg)), msg);
      assert calls + Repeat(n, OnMessage(msg)) == calls + Repeat(n - 1, OnMessage(msg)) + [OnMessage(msg)];
      assert Heard(calls) + Repeat(n, msg) == Heard(calls) + Repeat(n - 1, msg) + [msg];
    }
  }

  /**
    `Update` drains the queue and makes one call a message, in any case.  The user hears the
    pending messages themselves if and only if they are all equal to the last one.
   */
  lemma UpdateHears(c: Conn)
    ensures Updated(c).received == []
    ensures c.received == [] ==> Heard(Updated(c).calls) == Heard(c.calls)
    ensures c.received != [] ==>
              Heard(Updated(c).calls) == Heard(c.calls) + Repeat(|c.received|, c.received[|c.received| - 1])
    ensures |Heard(Updated(c).calls)| == |Heard(c.calls)| + |c.received|
    ensures Heard(Updated(c).calls) == Heard(c.calls) + c.received
       <==> forall k :: 0 <= k < |c.received| ==> c.received[k] == c.received[|c.received| - 1]
  {
    var d := Drained(c);
    assert (d.calls + [OnDisconnect])[..|d.calls|] == d.calls;
    assert Heard(Updated(c).calls) == Heard(d.calls);
    if c.received != [] {
      var last := c.received[|c.received| - 1];
      HeardRepeat(c.calls, |c.received|, last);
      var told := Repeat(|c.received|, last);
      assert Heard(d.calls)[|Heard(c.calls)|..] == told;
      assert (Heard(c.calls) + c.received)[|Heard(c.calls)|..] == c.received;
      assert told == c.received <==> forall k :: 0 <= k < |c.received| ==> c.received[k] == last;
    }
  }

  /** It happens: of two different pending messages the user hears the last one twice. */
  lemma HeardTwice(c: Conn)
    requires c.received == ["a", "b"] && c.calls == [] && c.status == Init
    ensures Heard(Updated(c).calls) == ["b", "b"]
  {
    HeardRepeat([], 2, "b");
    assert [] + Repeat(2, OnMessage("b")) == Repeat(2, OnMessage("b"));
    assert Repeat(2, "b") == ["b", "b"];
    assert Heard([]) == [];
  }

  /** The user was served the front of the inbox, message for call, and the rest of it is pending. */
  ghost predicate Served(c: Conn) {
    |Heard(c.calls)| <= |c.inbox| && c.received == c.inbox[|Heard(c.calls)|..]
  }

  /** What the user heard is what was received. */
  ghost predicate HeardTrue(c: Conn)
    requires Served(c)
  {
    Heard(c.calls) == c.inbox[..|Heard(c.calls)|]
  }

  /** All pending messages are equal. */
  ghost predicate AllSame(c: Conn) {
    forall k :: 0 <= k < |c.received| ==> c.received[k] == c.received[|c.received| - 1]
  }

  lemma UpdatedServes(c: Conn)
    requires Served(c)
    ensures Served(Updated(c)) && (HeardTrue(Updated(c)) <==> HeardTrue(c) && AllSame(c))
  {
    UpdateHears(c);
    var n, before, after := |Heard(c.calls)|, Heard(c.calls), Heard(Updated(c).calls);
    assert c.inbox == c.inbox[..n] + c.received;
    assert after[..n] == before;
    assert after == before + after[n..];
    if HeardTrue(Updated(c)) {
      assert c.inbox[..|after|][..n] == c.inbox[..n];
    }
  }

  // ----- The disconnect notification -----

  ghost function Notices(calls: seq<Callback>): nat {
    multiset(calls)[OnDisconnect]
  }

  datatype LifeOp = SendOp(msg: string) | DeliverOp(msg: string) | MarkOp | UpdateOp

  ghost function LifeStep(c: Conn, op: LifeOp): Conn {
    match op
    case SendOp(m) => Enqueued(c, m)
    case DeliverOp(m) => Delivered(c, m)
    case MarkOp => Marked(c)
    case UpdateOp => Updated(c)
  }

  /** A life: steps until an update closes the connection, which erases it; the end of either is the destructor. */
  ghost function Life(c: Conn, ops: seq<LifeOp>): Conn
    decreases |ops|
  {
    if ops == [] || c.status == Closed then Destroyed(c) else Life(LifeStep(c, ops[0]), ops[1..])
  }

  /** Whether the life, up to its end, disconnected the connection. */
  ghost predicate WasDisconnected(c: Conn, ops: seq<LifeOp>)
    decreases |ops|
  {
    c.status == MarkForClose || c.status == Closed ||
    (ops != [] && WasDisconnected(LifeStep(c, ops[0]), ops[1..]))
  }

  lemma DrainedNotices(c: Conn)
    ensures Notices(Drained(c).calls) == Notices(c.calls) && Drained(c).status == c.status
  {
  }

  /**
    The user is told of a disconnection at most once in a connection's life, and exactly once
    if and only if the connection was disconnected, whether an update or the destructor ends it.
   */
  lemma {:induction false} NotifiedExactlyOnce(c: Conn, ops: seq<LifeOp>)
    requires c.status in {Init, MarkForClose, Closed}
    requires Notices(c.calls) == if c.status == Closed then 1 else 0
    ensures Notices(Life(c, ops).calls) == if WasDisconnected(c, ops) then 1 else 0
    decreases |ops|
  {
    if ops != [] && c.status != Closed {
      DrainedNotices(c);
      NotifiedExactlyOnce(LifeStep(c, ops[0]), ops[1..]);
    }
  }

  /** When an update notifies, nothing pending is left, and the notice is its last call. */
  lemma NoticeComesLast(c: Conn)
    ensures c.status == MarkForClose ==>
              var u := Updated(c);
              && u.received == [] && u.calls == Drained(c).calls + [OnDisconnect]
              && Notices(u.calls) == Notices(c.calls) + 1
    ensures c.status != MarkForClose ==> Notices(Updated(c).calls) == Notices(c.calls)
  {
  }
}
