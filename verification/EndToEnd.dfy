/**
  From one engine's `Send` to another's received messages: the send order of a connection
  (NetEventHandler.cpp, NetConnection.hpp) put together with the framing of the reads at the
  other end, over whole runs of both, whichever manager each of them uses.
 */
module EndToEnd {
  import opened Memory
  import opened Framing
  import opened Connections
  import opened Contexts
  import opened Sending
  import opened EventPass
  import opened SendRuns
  import opened UserRuns
  import P = PollManagerStates
  import I = IocpManagerStates

  /** The bytes that a network buffer given to a send covers: the text of a message and the NUL behind it. */
  ghost function Sent(history: seq<string>, b: NetBuffer): seq<char> {
    match b.buf
    case Text(id) =>
      if id < |history| && b.len <= |history[id]| + 1 then (history[id] + [NUL])[..b.len] else []
    case _ => []
  }

  /** The whole message and its NUL are sent if and only if their length fits 32 bits. */
  lemma SentWhole(history: seq<string>, id: nat)
    requires id < |history|
    ensures Sent(history, Whole(history, id)) == history[id] + [NUL] <==> |history[id]| + 1 < UINT32
  {
    if Sent(history, Whole(history, id)) == history[id] + [NUL] {
      assert |Sent(history, Whole(history, id))| == |history[id]| + 1;
    }
  }

  /** The bytes sent, in order. */
  ghost function Bytes(history: seq<string>, handed: seq<NetBuffer>): seq<char> {
    if handed == [] then [] else Bytes(history, handed[..|handed| - 1]) + Sent(history, handed[|handed| - 1])
  }

  /** Messages a C string can carry in one send. */
  ghost predicate Sendable(message: string) {
    NUL !in message && |message| + 1 < UINT32
  }

  ghost predicate AllSendable(history: seq<string>) {
    forall k :: 0 <= k < |history| ==> Sendable(history[k])
  }

  lemma {:induction false} BytesOfAll(history: seq<string>, handed: seq<NetBuffer>)
    requires |handed| <= |history| && AllSendable(history) && Given(history, seq(|handed|, k => k), handed)
    ensures Bytes(history, handed) == Wire(history[..|handed|])
  {
    if handed != [] {
      var n := |handed| - 1;
      assert handed[n] == Whole(history, seq(|handed|, k => k)[n]);
      BytesOfAll(history, handed[..n]);
      assert history[..n + 1][..n] == history[..n];
      SentWhole(history, n);
      assert Wire(history[..n]) + (history[n] + [NUL]) == Wire(history[..n]) + history[n] + [NUL];
    }
  }

  /** One NUL for each message sent. */
  lemma {:induction false} NulsOfBytes(history: seq<string>, ids: seq<nat>, handed: seq<NetBuffer>)
    requires Given(history, ids, handed) && AllSendable(history)
    ensures Nuls(Bytes(history, handed)) == |ids|
  {
    if ids != [] {
      var n := |ids| - 1;
      var m := history[ids[n]];
      NulsOfBytes(history, ids[..n], handed[..n]);
      SentWhole(history, ids[n]);
      NoNuls(m);
      NulsAppend(Bytes(history, handed[..n]), m + [NUL]);
      NulsAppend(m, [NUL]);
      assert Nuls([NUL]) == 1;
    }
  }

  /** The sending side of a connection, in any state either manager keeps it in. */
  ghost predicate SendSide(c: Ctx) {
    && QueueOk(c.conn) && Record(c.conn, c.wire) && |c.wire| == Dropped(c.conn)
    && |c.wire| <= |c.handed| && Given(c.conn.history, c.wire, c.handed[..|c.wire|])
  }

  lemma PollSendSide(c: Ctx, wantsWrite: bool)
    requires PollSendOk(c, wantsWrite)
    ensures SendSide(c)
  {
    assert c.handed[..|c.wire|] == c.handed;
  }

  lemma IocpSendSide(c: Ctx)
    requires IocpSendOk(c)
    ensures SendSide(c)
  {
    assert forall k :: 0 <= k < |c.wire| ==> c.wire[k] == c.issued[k] && Handed(c.conn, c.issued[k]);
  }

  /** What went over the wire: the buffers of the sends that succeeded. */
  ghost function OnWire(c: Ctx): seq<char> {
    if |c.wire| <= |c.handed| then Bytes(c.conn.history, c.handed[..|c.wire|]) else []
  }

  /**
    Delivery.  When the reads at one end cut exactly the bytes sent at the other, the messages
    received are all the messages ever enqueued, in order and once each, if and only if the send
    queue is empty and every read was aligned.
   */
  lemma Delivery(c: Ctx, log: seq<Read>)
    requires SendSide(c) && AllSendable(c.conn.history) && Stream(log) == OnWire(c)
    ensures Framed(log).inbox == c.conn.history <==> c.conn.toSend == [] && AllAligned(log)
  {
    var history, handed := c.conn.history, c.handed[..|c.wire|];
    DeliveredIffDrained(c.conn, c.wire);
    if c.conn.toSend == [] {
      BytesOfAll(history, handed);
      assert history[..|history|] == history;
      RoundTrip(history, log);
    } else {
      NulBalance(log);
      NulsOfBytes(history, c.wire, handed);
    }
  }

  /**
    One connection at an end: what its manager did before the accept and after it.  `n` is its index
    at the end.
   */
  datatype End =
    | PollEnd(start: P.Manager, before: seq<P.ManagerOp>, m: P.Manager, handle: nat,
              ops: seq<P.ManagerOp>, m': P.Manager, n: nat)
    | IocpEnd(iocpStart: I.Iocp, iocpBefore: seq<I.IocpOp>, iocp: I.Iocp, handle: nat,
              iocpOps: seq<I.IocpOp>, iocp': I.Iocp, n: nat)

  ghost predicate Reached(e: End) {
    match e
    case PollEnd(start, before, m, handle, ops, m', n) =>
      && P.Initial(start) && P.Reaches(start, before, m) && P.Reaches(P.Added(m, handle), ops, m')
      && Followed(P.Added(m, handle), ops, |m.entries|) == At(n) && n < |m'.entries|
    case IocpEnd(start, before, m, handle, ops, m', n) =>
      && I.IocpInitial(start) && I.IocpReaches(start, before, m) && I.IocpReaches(I.IocpAdded(m, handle), ops, m')
      && IocpFollowed(I.IocpAdded(m, handle), ops, |m.contexts|) == At(n) && n < |m'.contexts|
  }

  ghost function CtxOf(e: End): Ctx
    requires Reached(e)
  {
    match e
    case PollEnd(_, _, _, _, _, m', n) => m'.entries[n].ctx
    case IocpEnd(_, _, _, _, _, m', n) => m'.contexts[n]
  }

  /** The messages that the user sent on the connection. */
  ghost function SentOn(e: End): seq<string>
    requires Reached(e)
  {
    match e
    case PollEnd(_, _, m, handle, ops, _, _) => MessagesSent(P.Added(m, handle), ops, |m.entries|)
    case IocpEnd(_, _, m, handle, ops, _, _) => IocpMessagesSent(I.IocpAdded(m, handle), ops, |m.contexts|)
  }

  /** Every update found equal messages pending. */
  ghost predicate UpdatedInTime(e: End)
    requires Reached(e)
  {
    match e
    case PollEnd(_, _, m, handle, ops, _, _) => UpdatesOnSame(P.Added(m, handle), ops, |m.entries|)
    case IocpEnd(_, _, m, handle, ops, _, _) => IocpUpdatesOnSame(I.IocpAdded(m, handle), ops, |m.contexts|)
  }

  lemma PollEndOk(e: End)
    requires e.PollEnd? && Reached(e)
    ensures SendSide(CtxOf(e)) && CtxOf(e).conn.inbox == Framed(CtxOf(e).log).inbox
  {
    P.RunKeeps(e.start, e.before, e.m);
    P.AddedKeeps(e.m, e.handle);
    P.RunKeeps(P.Added(e.m, e.handle), e.ops, e.m');
    assert EntryOk(e.m'.pool, e.m'.entries[e.n]);
    PollSendSide(CtxOf(e), e.m'.entries[e.n].wantsWrite);
  }

  lemma IocpEndOk(e: End)
    requires e.IocpEnd? && Reached(e)
    ensures SendSide(CtxOf(e)) && CtxOf(e).conn.inbox == Framed(CtxOf(e).log).inbox
  {
    I.IocpRunKeeps(e.iocpStart, e.iocpBefore, e.iocp);
    I.IocpAddedKeeps(e.iocp, e.handle);
    I.IocpRunKeeps(I.IocpAdded(e.iocp, e.handle), e.iocpOps, e.iocp');
    assert I.ContextOk(e.iocp'.pool, e.iocp'.contexts[e.n]);
    IocpSendSide(CtxOf(e));
  }

  lemma EndOk(e: End)
    requires Reached(e)
    ensures SendSide(CtxOf(e)) && CtxOf(e).conn.inbox == Framed(CtxOf(e).log).inbox
  {
    match e
    case PollEnd(_, _, _, _, _, _, _) => PollEndOk(e);
    case IocpEnd(_, _, _, _, _, _, _) => IocpEndOk(e);
  }

  lemma UserOf(e: End)
    requires Reached(e)
    ensures var c := CtxOf(e).conn;
            && c.history == SentOn(e) && |Heard(c.calls)| + |c.received| == |c.inbox|
            && (Heard(c.calls) == c.inbox[..|Heard(c.calls)|] <==> UpdatedInTime(e))
  {
    match e
    case PollEnd(_, _, m, handle, ops, m', _) => UserEverywhere(m, handle, ops, m');
    case IocpEnd(_, _, m, handle, ops, m', _) => IocpUserEverywhere(m, handle, ops, m');
  }

  /**
    Delivery between two engines, whatever else each of them did: any run of the sending manager
    and any run of the receiving one, each over poll, select or a completion port.  When the bytes
    that arrived are those that were sent, the messages received are exactly those the user sent, in
    order and once each, if and only if the send queue is empty and every read was aligned.
   */
  lemma DeliveryEverywhere(sender: End, receiver: End)
    requires Reached(sender) && Reached(receiver) && AllSendable(SentOn(sender))
    requires Stream(CtxOf(receiver).log) == OnWire(CtxOf(sender))
    ensures CtxOf(receiver).conn.inbox == SentOn(sender)
       <==> CtxOf(sender).conn.toSend == [] && AllAligned(CtxOf(receiver).log)
  {
    EndOk(sender);
    EndOk(receiver);
    UserOf(sender);
    hide Reached, SendSide, SentOn;
    Delivery(CtxOf(sender), CtxOf(receiver).log);
  }

  /**
    From user to user: when nothing is pending at the receiver, and its updates found no two
    different messages pending, its user has heard exactly what the sender's user sent, if and only
    if the send queue is empty and every read was aligned.
   */
  lemma HeardEverywhere(sender: End, receiver: End)
    requires Reached(sender) && Reached(receiver) && AllSendable(SentOn(sender))
    requires Stream(CtxOf(receiver).log) == OnWire(CtxOf(sender))
    requires CtxOf(receiver).conn.received == [] && UpdatedInTime(receiver)
    ensures Heard(CtxOf(receiver).conn.calls) == SentOn(sender)
       <==> CtxOf(sender).conn.toSend == [] && AllAligned(CtxOf(receiver).log)
  {
    UserOf(receiver);
    hide Reached, SentOn, UpdatedInTime;
    var c := CtxOf(receiver).conn;
    assert c.inbox[..|c.inbox|] == c.inbox;
    DeliveryEverywhere(sender, receiver);
  }
}
