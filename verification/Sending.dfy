/**
  The send queue of a connection over whole runs.  `StartWrite` hands over the queue's last
  message while `Write` drops its first (NetEventHandler.cpp), so what is sent, what is dropped
  and what stays queued only agree by counting.  Messages are named by their number.
 */
module Sending {
  import opened Memory
  import opened Connections
  import opened Contexts
  import opened EventHandlers

  ghost predicate Increasing(s: seq<nat>) {
    forall j, k :: 0 <= j < k < |s| ==> s[j] < s[k]
  }

  lemma {:induction false} AtLeastItsIndex(s: seq<nat>, k: nat)
    requires Increasing(s) && k < |s|
    ensures k <= s[k]
  {
    if k > 0 {
      AtLeastItsIndex(s, k - 1);
    }
  }

  /** Numbers below `n`, increasing and `n` of them: all of them, in order. */
  lemma {:induction false} FullRange(s: seq<nat>, k: nat)
    requires Increasing(s) && (forall j :: 0 <= j < |s| ==> s[j] < |s|) && k < |s|
    ensures s[k] == k
    decreases |s| - k
  {
    AtLeastItsIndex(s, k);
    if k + 1 < |s| {
      FullRange(s, k + 1);
    }
  }

  /** How many messages were dropped from the front: the number of the queue's first. */
  ghost function Dropped(c: Conn): int {
    |c.history| - |c.toSend|
  }

  /** The queue is the end of the history. */
  ghost predicate QueueOk(c: Conn) {
    && 0 <= Dropped(c)
    && forall k :: 0 <= k < |c.toSend| ==>
         c.toSend[k].id == Dropped(c) + k && c.toSend[k].msg == c.history[Dropped(c) + k]
  }

  ghost predicate Queued(c: Conn, id: nat)
    requires QueueOk(c)
  {
    Dropped(c) <= id < |c.history|
  }

  /** If the message is still queued, it is marked as handed over. */
  ghost predicate Handed(c: Conn, id: nat)
    requires QueueOk(c)
  {
    id < |c.history| && (Queued(c, id) ==> c.toSend[id - Dropped(c)].sended)
  }

  /** An increasing record of message numbers, all handed over. */
  ghost predicate Record(c: Conn, ids: seq<nat>)
    requires QueueOk(c)
  {
    Increasing(ids) && forall k :: 0 <= k < |ids| ==> Handed(c, ids[k])
  }

  lemma PoppedKeeps(c: Ctx, ids: seq<nat>)
    requires QueueOk(c.conn) && Record(c.conn, ids) && c.conn.toSend != []
    ensures QueueOk(Popped(c).conn) && Record(Popped(c).conn, ids) && Dropped(Popped(c).conn) == Dropped(c.conn) + 1
    ensures Popped(c).send.buffers == []
  {
  }

  /** The network buffer of a whole message: its text and the NUL behind it, in 32 bits. */
  ghost function Whole(history: seq<string>, id: nat): NetBuffer
    requires id < |history|
  {
    NetBuffer((|history[id]| + 1) % UINT32, Text(id))
  }

  /** The network buffers given to the operating system are those of these messages. */
  ghost predicate Given(history: seq<string>, ids: seq<nat>, handed: seq<NetBuffer>) {
    |ids| == |handed| && forall k :: 0 <= k < |ids| ==> ids[k] < |history| && handed[k] == Whole(history, ids[k])
  }

  lemma GivenMore(history: seq<string>, ids: seq<nat>, handed: seq<NetBuffer>, id: nat)
    requires Given(history, ids, handed) && id < |history|
    ensures Given(history, ids + [id], handed + [Whole(history, id)])
  {
  }

  /** The message the send context points at. */
  ghost function Target(c: Ctx): nat {
    match c.send.netBuffer.buf
    case Text(id) => id
    case _ => 0
  }

  /** Every pointer of the send chain is to a message that is still queued. */
  ghost predicate ChainQueued(c: Ctx)
    requires QueueOk(c.conn)
  {
    forall k :: 0 <= k < |c.send.buffers| ==> c.send.buffers[k].Text? && Queued(c.conn, c.send.buffers[k].id)
  }

  /** The chain ends with the message in the making. */
  ghost predicate ChainEnds(c: Ctx) {
    c.send.buffers != [] && c.send.buffers[|c.send.buffers| - 1] == c.send.netBuffer.buf
  }

  /** One, if the queue's last message still waits to be handed over. */
  ghost function Waiting(c: Conn): nat {
    if c.toSend != [] && !c.toSend[|c.toSend| - 1].sended then 1 else 0
  }

  /** Starting a write marks one message, above every one handed over before, and nothing else of the queue. */
  lemma StartedWriteKeeps(c: Ctx, ids: seq<nat>)
    requires QueueOk(c.conn) && Record(c.conn, ids)
    ensures var (c', started) := StartedWrite(c);
            && QueueOk(c'.conn) && Record(c'.conn, ids) && Dropped(c'.conn) == Dropped(c.conn)
            && (ChainQueued(c) ==> ChainQueued(c'))
            && (!started ==> c' == c) && Waiting(c'.conn) == 0 && (started <==> Waiting(c.conn) == 1)
            && (started ==>
                  && Target(c') == |c.conn.history| - 1 && Queued(c'.conn, Target(c'))
                  && c'.send.netBuffer == Whole(c'.conn.history, Target(c')) && ChainEnds(c')
                  && Record(c'.conn, ids + [Target(c')]))
  {
  }

  // ----- Poll and select: one send in the making at a time -----

  /**
    A write flag means work to do: the send context points at a message that is still queued,
    marked, and not yet transmitted.  What was transmitted is increasing, each message whole, and
    as many messages were dropped.
   */
  ghost predicate PollSendOk(c: Ctx, wantsWrite: bool) {
    && QueueOk(c.conn) && Record(c.conn, c.wire)
    && |c.wire| == Dropped(c.conn) && Given(c.conn.history, c.wire, c.handed) && ChainQueued(c)
    && (wantsWrite ==>
          && ChainEnds(c)
          && Queued(c.conn, Target(c)) && c.send.netBuffer == Whole(c.conn.history, Target(c))
          && Record(c.conn, c.wire + [Target(c)]))
  }

  /** A send that succeeded: what the send context points at is on the wire. */
  ghost function Transmitted(c: Ctx): Ctx {
    c.(wire := c.wire + [Target(c)], handed := c.handed + [c.send.netBuffer])
  }

  lemma PollEnqueueKeeps(c: Ctx, wantsWrite: bool, message: string)
    requires PollSendOk(c, wantsWrite)
    ensures PollSendOk(c.(conn := Enqueued(c.conn, message)), wantsWrite)
  {
  }

  lemma PollStartKeeps(c: Ctx, wantsWrite: bool)
    requires PollSendOk(c, wantsWrite)
    ensures var (c', started) := StartedWrite(c); PollSendOk(c', started || wantsWrite)
  {
    StartedWriteKeeps(c, c.wire);
  }

  /**
    With the flag set the queue is not empty, so dropping its first message is safe, and the flag is
    set right again.
   */
  lemma {:induction false} PollWriteKeeps(c: Ctx)
    requires PollSendOk(c, true)
    ensures c.conn.toSend != []
    ensures var (c', more) := WriteDone(Transmitted(c));
            && PollSendOk(c', more) && c'.wire == c.wire + [Target(c)]
            && (more <==> |c.conn.toSend| > 1 && Waiting(c.conn) == 1)
            && (more ==> Target(c') == |c.conn.history| - 1)
  {
    var ids := c.wire + [Target(c)];
    AtLeastItsIndex(ids, |c.wire|);
    GivenMore(c.conn.history, c.wire, c.handed, Target(c));
    PoppedKeeps(Transmitted(c), ids);
    StartedWriteKeeps(Popped(Transmitted(c)), ids);
  }

  /**
    Exact delivery.  What was transmitted is an increasing choice of the messages enqueued, as
    many as were dropped; it is all of them, in order and once each, if and only if the queue is empty.
   */
  lemma DeliveredIffDrained(c: Conn, wire: seq<nat>)
    requires QueueOk(c) && Record(c, wire) && |wire| == Dropped(c)
    ensures |c.toSend| == |c.history| - |wire|
    ensures wire == seq(|c.history|, k => k) <==> c.toSend == []
  {
    forall k | 0 <= k < |wire|
      ensures wire[k] < |c.history|
    {
      assert Handed(c, wire[k]);
    }
    if c.toSend == [] {
      forall k | 0 <= k < |wire|
        ensures wire[k] == k
      {
        FullRange(wire, k);
      }
    }
  }

  // ----- IOCP: any number of sends in flight -----

  /**
    Completions come in issue order, so the transmitted messages are the first issued ones.
   */
  ghost predicate IocpSendOk(c: Ctx) {
    && QueueOk(c.conn) && Record(c.conn, c.issued)
    && c.wire <= c.issued && Given(c.conn.history, c.issued, c.handed)
    && |c.wire| == Dropped(c.conn) && ChainQueued(c)
  }

  /** An asynchronous send of what the send context points at. */
  ghost function Issue(c: Ctx): Ctx {
    c.(issued := c.issued + [Target(c)], handed := c.handed + [c.send.netBuffer])
  }

  /** Starts an asynchronous send if there is something to hand over. */
  ghost function Issued(c: Ctx): Ctx {
    var (c', started) := StartedWrite(c);
    if started then Issue(c') else c'
  }

  /** The oldest send in flight completes. */
  ghost function Completed(c: Ctx): Ctx
    requires |c.wire| < |c.issued| && c.conn.toSend != []
  {
    var done := c.(wire := c.wire + [c.issued[|c.wire|]]);
    var (c', more) := WriteDone(done);
    if more then Issue(c') else c'
  }

  /** Every send in flight is of a message that is still queued. */
  lemma InFlightIsQueued(c: Ctx, j: nat)
    requires IocpSendOk(c) && |c.wire| <= j < |c.issued|
    ensures Queued(c.conn, c.issued[j]) && c.conn.toSend[c.issued[j] - Dropped(c.conn)].sended
  {
    AtLeastItsIndex(c.issued, j);
    assert Handed(c.conn, c.issued[j]);
  }

  lemma IocpEnqueueKeeps(c: Ctx, message: string)
    requires IocpSendOk(c)
    ensures IocpSendOk(c.(conn := Enqueued(c.conn, message)))
  {
  }

  lemma IssuedKeeps(c: Ctx)
    requires IocpSendOk(c)
    ensures IocpSendOk(Issued(c)) && Issued(c).wire == c.wire && c.issued <= Issued(c).issued
  {
    StartedWriteKeeps(c, c.issued);
    if StartedWrite(c).1 {
      GivenMore(c.conn.history, c.issued, c.handed, Target(StartedWrite(c).0));
    }
    hide QueueOk, Record, Given;
  }

  /** A completion never meets an empty queue, and does not drop a message whose send is still in flight. */
  lemma CompletedKeeps(c: Ctx)
    requires IocpSendOk(c) && |c.wire| < |c.issued|
    ensures c.conn.toSend != []
    ensures IocpSendOk(Completed(c)) && Completed(c).wire == c.wire + [c.issued[|c.wire|]]
    ensures Completed(c).issued == c.issued +
            if |c.conn.toSend| > 1 && Waiting(c.conn) == 1 then [|c.conn.history| - 1] else []
    ensures forall j :: |c.wire| < j < |c.issued| ==> c.issued[j] > c.conn.toSend[0].id
  {
    InFlightIsQueued(c, |c.wire|);
    var done := c.(wire := c.wire + [c.issued[|c.wire|]]);
    PoppedKeeps(done, c.issued);
    StartedWriteKeeps(Popped(done), c.issued);
    forall j | |c.wire| < j < |c.issued|
      ensures c.issued[j] > c.conn.toSend[0].id
    {
      AtLeastItsIndex(c.issued, j);
    }
  }

  /**
    Storage safety: the j-th send issued is of message j or a later one, every send in flight is
    of a message still queued and marked, and the completed ones are the first issued.  All
    messages were transmitted, once each and in order, if and only if the queue is empty.
   */
  lemma StorageSafety(c: Ctx)
    requires IocpSendOk(c)
    ensures forall j :: 0 <= j < |c.issued| ==> j <= c.issued[j]
    ensures forall j :: |c.wire| <= j < |c.issued| ==> Queued(c.conn, c.issued[j])
    ensures c.wire == c.issued[..|c.wire|]
    ensures c.wire == seq(|c.conn.history|, i => i) <==> c.conn.toSend == []
  {
    forall j | 0 <= j < |c.issued|
      ensures j <= c.issued[j]
    {
      AtLeastItsIndex(c.issued, j);
    }
    forall j | |c.wire| <= j < |c.issued|
      ensures Queued(c.conn, c.issued[j])
    {
      InFlightIsQueued(c, j);
    }
    assert forall j :: 0 <= j < |c.wire| ==> c.wire[j] == c.issued[j] && Handed(c.conn, c.issued[j]);
    DeliveredIffDrained(c.conn, c.wire);
  }

  // ----- Which messages are overtaken: IOCP -----

  /** The messages enqueued that were neither handed over nor wait to be. */
  ghost function Passed(c: Ctx): int {
    |c.conn.history| - |c.issued| - Waiting(c.conn)
  }

  lemma IssuedPasses(c: Ctx)
    requires IocpSendOk(c)
    ensures IocpSendOk(Issued(c)) && Passed(Issued(c)) == Passed(c)
  {
    IssuedKeeps(c);
  }

  lemma CompletedPasses(c: Ctx)
    requires IocpSendOk(c) && |c.wire| < |c.issued| && c.conn.toSend != []
    ensures IocpSendOk(Completed(c)) && Passed(Completed(c)) == Passed(c)
  {
    CompletedKeeps(c);
    if |c.conn.toSend| == 1 {
      InFlightIsQueued(c, |c.wire|);
    }
  }

  /** Increasing numbers below their number are all of them, in order. */
  lemma AllInTurn(ids: seq<nat>)
    requires Increasing(ids) && forall k :: 0 <= k < |ids| ==> ids[k] < |ids|
    ensures forall k :: 0 <= k < |ids| ==> ids[k] == k
  {
    forall k | 0 <= k < |ids|
      ensures ids[k] == k
    {
      FullRange(ids, k);
    }
  }

  /** The messages handed over are the first ones enqueued, in order and all but one that may wait. */
  ghost predicate HandedInTurn(c: Ctx) {
    (forall k :: 0 <= k < |c.issued| ==> c.issued[k] == k) && |c.issued| + Waiting(c.conn) == |c.conn.history|
  }

  lemma HandedInTurnIff(c: Ctx)
    requires IocpSendOk(c)
    ensures HandedInTurn(c) <==> Passed(c) == 0
  {
    if Passed(c) == 0 {
      assert forall k :: 0 <= k < |c.issued| ==> Handed(c.conn, c.issued[k]);
      AllInTurn(c.issued);
    }
  }

  // ----- Which messages are overtaken: poll and select -----

  /** A context and its write flag. */
  datatype PollSide = PollSide(ctx: Ctx, wantsWrite: bool)

  /** The user sends, or the manager makes a pass in which the socket is writable or not. */
  datatype PollEvent = SendEvent(message: string) | PassEvent(writable: bool)

  ghost function PollNext(p: PollSide, event: PollEvent): PollSide {
    match event
    case SendEvent(message) => p.(ctx := p.ctx.(conn := Enqueued(p.ctx.conn, message)))
    case PassEvent(writable) =>
      var (c, started) := StartedWrite(p.ctx);
      if writable && (started || p.wantsWrite) && c.conn.toSend != [] then
        var (c', more) := WriteDone(Transmitted(c));
        PollSide(c', more)
      else PollSide(c, started || p.wantsWrite)
  }

  /** One, if the last message enqueued has not been transmitted. */
  ghost function Untransmitted(c: Ctx): nat {
    if c.conn.history != [] && |c.conn.history| - 1 !in c.wire then 1 else 0
  }

  /** The write flag means the last message, and is set until that is transmitted, unless a newer one waits. */
  ghost predicate PollSideOk(p: PollSide) {
    PollSendOk(p.ctx, p.wantsWrite) &&
    (Waiting(p.ctx.conn) == 0 ==>
       && (p.wantsWrite ==> Target(p.ctx) == |p.ctx.conn.history| - 1)
       && (Untransmitted(p.ctx) == 1 ==> p.wantsWrite))
  }

  lemma SendPasses(p: PollSide, message: string)
    requires PollSideOk(p)
    ensures var p' := PollNext(p, PollEvent.SendEvent(message)); PollSideOk(p') && Untransmitted(p'.ctx) == 1
  {
  }

  lemma StartPasses(p: PollSide)
    requires PollSideOk(p)
    ensures var (c, started) := StartedWrite(p.ctx);
            && PollSideOk(PollSide(c, started || p.wantsWrite))
            && Waiting(c.conn) == 0 && Untransmitted(c) == Untransmitted(p.ctx)
  {
    PollStartKeeps(p.ctx, p.wantsWrite);
  }

  lemma WritePasses(c: Ctx)
    requires PollSideOk(PollSide(c, true)) && Waiting(c.conn) == 0
    ensures c.conn.toSend != [] && Untransmitted(c) == 1
    ensures var (c', more) := WriteDone(Transmitted(c));
            && PollSideOk(PollSide(c', more)) && Untransmitted(c') == 0
            && |c'.wire| == |c.wire| + 1 && c'.conn.history == c.conn.history
  {
    PollWriteKeeps(c);
    var (c', more) := WriteDone(Transmitted(c));
    assert c'.wire[|c.wire|] == |c.conn.history| - 1;
    var ids := c.wire + [Target(c)];
    assert forall k :: 0 <= k < |c.wire| ==> c.wire[k] == ids[k] && ids[k] < ids[|c.wire|];
    assert |c.conn.history| - 1 !in c.wire;
  }

  lemma {:induction false} PollNextKeeps(p: PollSide, event: PollEvent)
    requires PollSideOk(p)
    ensures var p' := PollNext(p, event);
            && PollSideOk(p')
            && |p'.ctx.conn.history| - |p'.ctx.wire| - Untransmitted(p'.ctx) ==
               |p.ctx.conn.history| - |p.ctx.wire| - Untransmitted(p.ctx)
               + if event.SendEvent? then Untransmitted(p.ctx) else 0
  {
    match event
    case SendEvent(message) => SendPasses(p, message);
    case PassEvent(writable) =>
      StartPasses(p);
      var (c, started) := StartedWrite(p.ctx);
      if writable && (started || p.wantsWrite) {
        WritePasses(c);
      }
  }

  /** The messages transmitted are the first ones enqueued, in order and all but one that may still be on its way. */
  ghost predicate SentInTurn(c: Ctx) {
    (forall k :: 0 <= k < |c.wire| ==> c.wire[k] == k) && |c.wire| + Untransmitted(c) == |c.conn.history|
  }

  /** Messages were sent in turn exactly if the queue holds at most the last one, on its way. */
  lemma InTurnIff(p: PollSide)
    requires PollSideOk(p)
    ensures SentInTurn(p.ctx) <==> |p.ctx.conn.toSend| == Untransmitted(p.ctx)
  {
    var c := p.ctx;
    if |c.conn.toSend| == Untransmitted(c) {
      assert forall k :: 0 <= k < |c.wire| ==> Handed(c.conn, c.wire[k]) && c.wire[k] in c.wire;
      AllInTurn(c.wire);
    }
  }
}
