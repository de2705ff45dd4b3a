/**
  The completion-port event manager as a value (NetIOCPEventManager.hpp): sends and receives
  are issued and complete later, any number of sends of one connection being in flight.
 */
module IocpManagerStates {
  import opened Memory
  import opened BufferPools
  import opened Framing
  import opened Connections
  import opened Contexts
  import opened EventHandlers
  import opened Receiving
  import opened Sending
  import opened EventTables
  import opened PollManagerStates

  datatype Iocp = Iocp(pool: Pool, contexts: seq<Ctx>, lost: multiset<Pointer>)

  /** What the completion port yields, for the context at a live index or for one that was removed before. */
  datatype Completion =
    | Nothing
    | ReceiveDone(index: nat, data: seq<char>)
    | SendDone(index: nat)
    | ZeroBytes(index: nat)
    | StaleZeroBytes

  ghost function Bags(cs: seq<Ctx>): multiset<Pointer> {
    if cs == [] then multiset{} else multiset(cs[0].receive.buffers) + Bags(cs[1..])
  }

  /** One asynchronous receive is posted, into the receive slot. */
  ghost predicate ContextOk(p: Pool, c: Ctx) {
    ReceiveOk(State(p, c)) && IocpSendOk(c) && c.conn.status == Init && c.posted == [c.receive.netBuffer]
  }

  ghost predicate ContextsOk(p: Pool, cs: seq<Ctx>) {
    forall k :: 0 <= k < |cs| ==> ContextOk(p, cs[k])
  }

  ghost predicate IocpOk(m: Iocp) {
    PoolOk(m.pool, Bags(m.contexts) + m.lost) && ContextsOk(m.pool, m.contexts)
  }

  /** Posts an asynchronous receive into the current buffer. */
  ghost function Posted(c: Ctx): Ctx {
    c.(posted := c.posted + [c.receive.netBuffer])
  }

  /** The oldest receive posted completes: the bytes are in the buffer it was posted with. */
  ghost function Landed(s: State, data: seq<char>): State
    requires s.ctx.posted != []
  {
    var b, ctx := s.ctx.posted[0].buf, s.ctx.(posted := s.ctx.posted[1..]);
    if s.pool.Has(b) && |data| <= |s.pool.At(b)| then State(Store(s.pool, b, data), ctx) else State(s.pool, ctx)
  }

  /** The handler reads what landed, and the next receive is posted. */
  ghost function ReadAndPosted(s: State, n: nat): State {
    if HasSlot(s) && 1 <= n <= |Slot(s)| then
      var r := ReadDone(s, n);
      State(r.pool, Posted(r.ctx))
    else s
  }

  ghost function IocpAdded(m: Iocp, handle: nat): Iocp {
    var s := StartedRead(State(m.pool, NewContext(handle)));
    Iocp(s.pool, m.contexts + [Posted(s.ctx)], m.lost)
  }

  ghost function IssuedAll(cs: seq<Ctx>): (r: seq<Ctx>)
    ensures |r| == |cs| && forall k :: 0 <= k < |cs| ==> r[k] == Issued(cs[k])
  {
    if cs == [] then [] else [Issued(cs[0])] + IssuedAll(cs[1..])
  }

  /** What the completion can be, given the state after `ProcessSend`. */
  ghost predicate CanArrive(m: Iocp, e: Completion) {
    match e
    case Nothing => true
    case ReceiveDone(i, data) =>
      i < |m.contexts| && m.contexts[i].posted != [] && 1 <= |data| <= m.contexts[i].posted[0].len
    case SendDone(i) => i < |m.contexts| && |m.contexts[i].wire| < |m.contexts[i].issued|
    case ZeroBytes(i) => i < |m.contexts|
    case StaleZeroBytes => true
  }

  ghost function Arrive(m: Iocp, e: Completion): Iocp
    requires CanArrive(m, e)
  {
    match e
    case Nothing => m
    case ReceiveDone(i, data) =>
      var s := ReadAndPosted(Landed(State(m.pool, m.contexts[i]), data), |data|);
      m.(pool := s.pool, contexts := m.contexts[i := s.ctx])
    case SendDone(i) =>
      if m.contexts[i].conn.toSend == [] then m
      else m.(contexts := m.contexts[i := Completed(m.contexts[i])])
    case ZeroBytes(i) =>
      m.(contexts := Erased(m.contexts, i), lost := m.lost + multiset(m.contexts[i].receive.buffers))
    case StaleZeroBytes => m
  }

  ghost function SendsIssued(m: Iocp): Iocp {
    m.(contexts := IssuedAll(m.contexts))
  }

  ghost function IocpHandled(m: Iocp, e: Completion): Iocp
    requires CanArrive(SendsIssued(m), e)
  {
    Arrive(SendsIssued(m), e)
  }

  ghost function AllDropped(m: Iocp): Iocp {
    Iocp(m.pool, [], m.lost + Bags(m.contexts))
  }

  // ----- Every operation keeps the manager whole -----

  lemma {:induction false} BagsSplit(front: seq<Ctx>, back: seq<Ctx>)
    ensures Bags(front + back) == Bags(front) + Bags(back)
  {
    if front == [] {
      assert front + back == back;
    } else {
      assert (front + back)[1..] == front[1..] + back;
      BagsSplit(front[1..], back);
    }
  }

  lemma BagsOne(c: Ctx)
    ensures Bags([c]) == multiset(c.receive.buffers)
  {
  }

  lemma BagsInsert(front: seq<Ctx>, c: Ctx, back: seq<Ctx>)
    ensures Bags(front + ([c] + back)) == Bags(front + back) + multiset(c.receive.buffers)
  {
    BagsSplit(front, back);
    BagsSplit(front, [c] + back);
    BagsSplit([c], back);
    BagsOne(c);
    Regroup(Bags(front), Bags(back), multiset(c.receive.buffers));
  }

  lemma BagsAround(cs: seq<Ctx>, i: nat, c: Ctx)
    requires i < |cs|
    ensures Bags(cs[i := c]) == Bags(Erased(cs, i)) + multiset(c.receive.buffers)
  {
    assert cs[i := c] == cs[..i] + ([c] + cs[i + 1..]);
    BagsInsert(cs[..i], c, cs[i + 1..]);
  }

  lemma {:induction false} BagWithin(cs: seq<Ctx>, k: nat)
    requires k < |cs|
    ensures multiset(cs[k].receive.buffers) <= Bags(cs)
  {
    if k > 0 {
      BagWithin(cs[1..], k - 1);
    }
  }

  lemma ContextsStay(p: Pool, p': Pool, cs: seq<Ctx>)
    requires ContextsOk(p, cs) && Untouched(p, p', Bags(cs)) && p'.size == p.size
    ensures ContextsOk(p', cs)
  {
    forall k | 0 <= k < |cs|
      ensures ContextOk(p', cs[k])
    {
      BagWithin(cs, k);
      ReceiveStays(p, p', cs[k]);
    }
  }

  lemma OthersAndOne(p: Pool, cs: seq<Ctx>, i: nat, c: Ctx)
    requires i < |cs| && ContextsOk(p, Erased(cs, i)) && ContextOk(p, c)
    ensures ContextsOk(p, cs[i := c])
  {
    var cs' := cs[i := c];
    forall k | 0 <= k < |cs'|
      ensures ContextOk(p, cs'[k])
    {
      if k != i {
        assert cs'[k] == Erased(cs, i)[if k < i then k else k - 1];
      }
    }
  }

  lemma OthersOk(p: Pool, cs: seq<Ctx>, i: nat)
    requires i < |cs| && ContextsOk(p, cs)
    ensures ContextsOk(p, Erased(cs, i))
  {
  }

  lemma BagsReplaced(cs: seq<Ctx>, i: nat, c: Ctx, lost: multiset<Pointer>)
    requires i < |cs|
    ensures Bags(cs[i := c]) + lost == Bags(Erased(cs, i)) + lost + multiset(c.receive.buffers)
  {
    BagsAround(cs, i, c);
  }

  /** Replacing one context by one that is as good, over a pool that kept everybody else's bytes. */
  lemma ReplacedOk(m: Iocp, i: nat, p: Pool, c: Ctx)
    requires ContextsOk(m.pool, m.contexts) && i < |m.contexts| && ContextOk(p, c) && p.size == m.pool.size
    requires var others := Bags(Erased(m.contexts, i)) + m.lost;
             PoolOk(p, others + multiset(c.receive.buffers)) && Untouched(m.pool, p, others)
    ensures IocpOk(m.(pool := p, contexts := m.contexts[i := c]))
  {
    var rest := Erased(m.contexts, i);
    BagsReplaced(m.contexts, i, c, m.lost);
    OthersOk(m.pool, m.contexts, i);
    ContextsStay(m.pool, p, rest);
    OthersAndOne(p, m.contexts, i, c);
  }

  /** The rest of the manager, apart from one context, still owns its buffers. */
  lemma Apart(m: Iocp, i: nat)
    requires IocpOk(m) && i < |m.contexts|
    ensures ContextOk(m.pool, m.contexts[i])
    ensures PoolOk(m.pool, Bags(Erased(m.contexts, i)) + m.lost + multiset(m.contexts[i].receive.buffers))
    ensures Untouched(m.pool, m.pool, Bags(Erased(m.contexts, i)) + m.lost)
  {
    var c, rest := m.contexts[i], Erased(m.contexts, i);
    BagsAround(m.contexts, i, c);
    assert m.contexts[i := c] == m.contexts;
    assert Bags(rest) + m.lost + multiset(c.receive.buffers) == Bags(m.contexts) + m.lost;
    HeldIsThere(m.pool, Bags(rest) + m.lost + multiset(c.receive.buffers));
  }

  lemma SameIocpSend(c: Ctx, c': Ctx)
    requires IocpSendOk(c) && c'.send == c.send
    requires c'.issued == c.issued && c'.wire == c.wire && c'.handed == c.handed
    requires c'.conn.toSend == c.conn.toSend && c'.conn.history == c.conn.history
    ensures IocpSendOk(c')
  {
  }

  /** A receive lands in the slot. */
  lemma LandedIsFilled(p: Pool, c: Ctx, data: seq<char>)
    requires ContextOk(p, c) && p.WellSized() && 1 <= |data| <= c.posted[0].len
    ensures var s := State(p, c.(posted := []));
            ReceiveOk(s) && |data| <= |Slot(s)| && |data| <= p.size && Landed(State(p, c), data) == Filled(s, data)
  {
  }

  /** Reading leaves the send side, the status and the receives posted. */
  lemma ReadLeaves(s: State, n: nat)
    requires HasSlot(s) && 1 <= n <= |Slot(s)|
    ensures var c := ReadDone(s, n).ctx;
            && c.posted == s.ctx.posted && c.issued == s.ctx.issued && c.wire == s.ctx.wire
            && c.handed == s.ctx.handed && c.send == s.ctx.send
            && c.conn.toSend == s.ctx.conn.toSend && c.conn.history == s.ctx.conn.history
            && c.conn.status == s.ctx.conn.status && ReadDone(s, n).pool.size == s.pool.size
  {
    hide Join;
  }

  lemma PostedOk(p: Pool, c: Ctx)
    requires ReceiveOk(State(p, c)) && IocpSendOk(c) && c.conn.status == Init && c.posted == []
    ensures ContextOk(p, Posted(c))
  {
  }

  /** The read leaves a context as good, with its next receive posted. */
  lemma LandedKeeps(p: Pool, c: Ctx, data: seq<char>, others: multiset<Pointer>)
    requires ContextOk(p, c) && PoolOk(p, others + multiset(c.receive.buffers))
    requires c.posted != [] && 1 <= |data| <= c.posted[0].len
    ensures var s := ReadAndPosted(Landed(State(p, c), data), |data|);
            && PoolOk(s.pool, others + Bag(s)) && ContextOk(s.pool, s.ctx) && s.pool.size == p.size
            && Untouched(p, s.pool, others)
            && |s.ctx.log| == |c.log| + 1 && s.ctx.log[..|c.log|] == c.log && Data(s.ctx.log[|c.log|]) == data
  {
    var s := State(p, c.(posted := []));
    LandedIsFilled(p, c, data);
    ReceiveKeeps(s, data, others);
    ReadLeaves(Filled(s, data), |data|);
    var r := ReadDone(Filled(s, data), |data|);
    SameIocpSend(c, r.ctx);
    hide PoolOk, ReceiveOk, IocpSendOk, ReadDone, Landed;
    PostedOk(r.pool, r.ctx);
  }

  lemma {:induction false} ReceiveDoneKeeps(m: Iocp, i: nat, data: seq<char>)
    requires IocpOk(m) && CanArrive(m, ReceiveDone(i, data))
    ensures IocpOk(Arrive(m, ReceiveDone(i, data)))
  {
    Apart(m, i);
    var c := m.contexts[i];
    LandedKeeps(m.pool, c, data, Bags(Erased(m.contexts, i)) + m.lost);
    var s := ReadAndPosted(Landed(State(m.pool, c), data), |data|);
    ReplacedOk(m, i, s.pool, s.ctx);
  }

  lemma CompletedOk(p: Pool, c: Ctx)
    requires ContextOk(p, c) && |c.wire| < |c.issued|
    ensures c.conn.toSend != []
    ensures ContextOk(p, Completed(c)) && Completed(c).receive == c.receive
  {
    CompletedKeeps(c);
  }

  /** A completed send finds its queue not empty, so the handler's pop is safe. */
  lemma SendDoneKeeps(m: Iocp, i: nat)
    requires IocpOk(m) && CanArrive(m, SendDone(i))
    ensures m.contexts[i].conn.toSend != []
    ensures IocpOk(Arrive(m, SendDone(i)))
  {
    Apart(m, i);
    CompletedOk(m.pool, m.contexts[i]);
    ReplacedOk(m, i, m.pool, Completed(m.contexts[i]));
  }

  lemma {:induction false} BagsRemoved(cs: seq<Ctx>, i: nat, lost: multiset<Pointer>)
    requires i < |cs|
    ensures Bags(cs) + lost == Bags(Erased(cs, i)) + (lost + multiset(cs[i].receive.buffers))
  {
    assert cs[i := cs[i]] == cs;
    BagsAround(cs, i, cs[i]);
    Regroup(Bags(Erased(cs, i)), multiset(cs[i].receive.buffers), lost);
  }

  lemma ZeroBytesKeeps(m: Iocp, i: nat)
    requires IocpOk(m) && i < |m.contexts|
    ensures IocpOk(Arrive(m, ZeroBytes(i)))
  {
    var lost := m.lost + multiset(m.contexts[i].receive.buffers);
    assert PoolOk(m.pool, Bags(Erased(m.contexts, i)) + lost) by {
      BagsRemoved(m.contexts, i, m.lost);
    }
    OthersOk(m.pool, m.contexts, i);
  }

  lemma {:induction false} BagsSame(cs: seq<Ctx>, cs': seq<Ctx>)
    requires |cs| == |cs'| && forall k :: 0 <= k < |cs| ==> cs[k].receive.buffers == cs'[k].receive.buffers
    ensures Bags(cs) == Bags(cs')
  {
    if cs != [] {
      BagsSame(cs[1..], cs'[1..]);
    }
  }

  lemma IssuedOk(p: Pool, c: Ctx)
    requires ContextOk(p, c)
    ensures ContextOk(p, Issued(c)) && Issued(c).receive == c.receive
  {
  }

  lemma {:induction false} SendsIssuedKeeps(m: Iocp)
    requires IocpOk(m)
    ensures IocpOk(SendsIssued(m))
  {
    BagsSame(m.contexts, IssuedAll(m.contexts));
    forall k | 0 <= k < |m.contexts|
      ensures ContextOk(m.pool, IssuedAll(m.contexts)[k])
    {
      IssuedOk(m.pool, m.contexts[k]);
    }
  }

  lemma {:induction false} IocpHandledKeeps(m: Iocp, e: Completion)
    requires IocpOk(m) && CanArrive(SendsIssued(m), e)
    ensures IocpOk(IocpHandled(m, e))
  {
    SendsIssuedKeeps(m);
    match e
    case Nothing =>
    case ReceiveDone(i, data) => ReceiveDoneKeeps(SendsIssued(m), i, data);
    case SendDone(i) => SendDoneKeeps(SendsIssued(m), i);
    case ZeroBytes(i) => ZeroBytesKeeps(SendsIssued(m), i);
    case StaleZeroBytes =>
  }

  lemma BagsAppended(cs: seq<Ctx>, c: Ctx, lost: multiset<Pointer>)
    ensures Bags(cs + [c]) + lost == Bags(cs) + lost + multiset(c.receive.buffers)
  {
    BagsSplit(cs, [c]);
    BagsOne(c);
  }

  lemma OneMoreOk(p: Pool, cs: seq<Ctx>, c: Ctx)
    requires ContextsOk(p, cs) && ContextOk(p, c)
    ensures ContextsOk(p, cs + [c])
  {
  }

  lemma NewContextOk(s: State, others: multiset<Pointer>, handle: nat)
    requires s.ctx == NewContext(handle) && PoolOk(s.pool, others)
    ensures var s' := StartedRead(s);
            && PoolOk(s'.pool, others + Bag(s')) && Untouched(s.pool, s'.pool, others) && s'.pool.size == s.pool.size
            && ContextOk(s'.pool, Posted(s'.ctx))
  {
    NewEntryOk(s, others, handle);
  }

  lemma IocpAddedKeeps(m: Iocp, handle: nat)
    requires IocpOk(m)
    ensures IocpOk(IocpAdded(m, handle))
  {
    NewContextOk(State(m.pool, NewContext(handle)), Bags(m.contexts) + m.lost, handle);
    var s := StartedRead(State(m.pool, NewContext(handle)));
    BagsAppended(m.contexts, Posted(s.ctx), m.lost);
    ContextsStay(m.pool, s.pool, m.contexts);
    OneMoreOk(s.pool, m.contexts, Posted(s.ctx));
  }

  lemma AllDroppedKeeps(m: Iocp)
    requires IocpOk(m)
    ensures IocpOk(AllDropped(m))
  {
  }

  ghost function WithIocpConn(m: Iocp, i: nat, conn: Conn): Iocp
    requires i < |m.contexts|
  {
    m.(contexts := m.contexts[i := m.contexts[i].(conn := conn)])
  }

  lemma IocpConnKeeps(m: Iocp, i: nat, conn: Conn)
    requires IocpOk(m) && i < |m.contexts| && conn.status == Init && conn.inbox == m.contexts[i].conn.inbox
    requires IocpSendOk(m.contexts[i].(conn := conn))
    ensures IocpOk(WithIocpConn(m, i, conn))
  {
    Apart(m, i);
    ReplacedOk(m, i, m.pool, m.contexts[i].(conn := conn));
  }

  // ----- Runs -----

  datatype IocpOp =
    | AddOp(handle: nat)
    | SendOp(index: nat, message: string)
    | UpdateOp(index: nat)
    | HandleOp(completion: Completion)
    | DisconnectAllOp(completion: Completion)

  ghost predicate IocpPossible(m: Iocp, op: IocpOp) {
    match op
    case AddOp(_) => true
    case SendOp(i, _) => i < |m.contexts|
    case UpdateOp(i) => i < |m.contexts|
    case HandleOp(e) => CanArrive(SendsIssued(m), e)
    case DisconnectAllOp(e) => CanArrive(SendsIssued(m), e)
  }

  ghost function IocpStep(m: Iocp, op: IocpOp): Iocp
    requires IocpPossible(m, op)
  {
    match op
    case AddOp(handle) => IocpAdded(m, handle)
    case SendOp(i, message) => WithIocpConn(m, i, Enqueued(m.contexts[i].conn, message))
    case UpdateOp(i) => WithIocpConn(m, i, Updated(m.contexts[i].conn))
    case HandleOp(e) => IocpHandled(m, e)
    case DisconnectAllOp(e) => AllDropped(IocpHandled(m, e))
  }

  lemma {:induction false} IocpStepKeeps(m: Iocp, op: IocpOp)
    requires IocpOk(m) && IocpPossible(m, op)
    ensures IocpOk(IocpStep(m, op))
  {
    match op
    case AddOp(handle) => IocpAddedKeeps(m, handle);
    case SendOp(i, message) =>
      Apart(m, i);
      IocpEnqueueKeeps(m.contexts[i], message);
      IocpConnKeeps(m, i, Enqueued(m.contexts[i].conn, message));
    case UpdateOp(i) =>
      Apart(m, i);
      SameIocpSend(m.contexts[i], m.contexts[i].(conn := Updated(m.contexts[i].conn)));
      IocpConnKeeps(m, i, Updated(m.contexts[i].conn));
    case HandleOp(e) => IocpHandledKeeps(m, e);
    case DisconnectAllOp(e) =>
      IocpHandledKeeps(m, e);
      AllDroppedKeeps(IocpHandled(m, e));
  }

  ghost predicate IocpReaches(m: Iocp, ops: seq<IocpOp>, m': Iocp)
    decreases |ops|
  {
    if ops == [] then m' == m else IocpPossible(m, ops[0]) && IocpReaches(IocpStep(m, ops[0]), ops[1..], m')
  }

  lemma {:induction false} IocpRunKeeps(m: Iocp, ops: seq<IocpOp>, m': Iocp)
    requires IocpOk(m) && IocpReaches(m, ops, m')
    ensures IocpOk(m')
    decreases |ops|
  {
    if ops != [] {
      IocpStepKeeps(m, ops[0]);
      IocpRunKeeps(IocpStep(m, ops[0]), ops[1..], m');
    }
  }

  ghost predicate IocpInitial(m: Iocp) {
    PoolOk(m.pool, multiset{}) && m.contexts == [] && m.lost == multiset{}
  }

  /**
    Storage safety in every state that any run of accepts, sends, updates, completions and
    shutdowns can reach: the j-th send issued is of message j or a later one, every send in
    flight and every pointer of the send chain is of a message that is still queued, a completion
    never meets an empty queue, and all messages were transmitted, in order and once each, if and only
    if the queue is empty.
   */
  lemma StorageSafetyEverywhere(m: Iocp, ops: seq<IocpOp>, m': Iocp, i: nat)
    requires IocpInitial(m) && IocpReaches(m, ops, m') && i < |m'.contexts|
    ensures var c := m'.contexts[i];
            && QueueOk(c.conn) && Increasing(c.issued) && c.wire <= c.issued
            && (forall j :: 0 <= j < |c.issued| ==> j <= c.issued[j])
            && (forall j :: |c.wire| <= j < |c.issued| ==> Queued(c.conn, c.issued[j]))
            && (|c.wire| < |c.issued| ==> c.conn.toSend != [])
            && (forall k :: 0 <= k < |c.send.buffers| ==>
                  c.send.buffers[k].Text? && Queued(c.conn, c.send.buffers[k].id))
            && (c.wire == seq(|c.conn.history|, k => k) <==> c.conn.toSend == [])
  {
    IocpRunKeeps(m, ops, m');
    var c := m'.contexts[i];
    assert ContextOk(m'.pool, c);
    StorageSafety(c);
    if |c.wire| < |c.issued| {
      CompletedKeeps(c);
    }
  }

  /** Ownership and framing in every reachable state, as for the other manager. */
  lemma IocpOwnershipEverywhere(m: Iocp, ops: seq<IocpOp>, m': Iocp, b: Pointer)
    requires IocpInitial(m) && IocpReaches(m, ops, m')
    ensures multiset(m'.pool.free)[b] + Bags(m'.contexts)[b] + m'.lost[b] == if m'.pool.Has(b) then 1 else 0
  {
    IocpRunKeeps(m, ops, m');
    NodesCount(|m'.pool.bytes|, b);
    assert (multiset(m'.pool.free) + (Bags(m'.contexts) + m'.lost))[b]
        == multiset(m'.pool.free)[b] + Bags(m'.contexts)[b] + m'.lost[b];
  }

  lemma IocpFramingEverywhere(m: Iocp, ops: seq<IocpOp>, m': Iocp, i: nat)
    requires IocpInitial(m) && IocpReaches(m, ops, m') && i < |m'.contexts|
    ensures var c := m'.contexts[i];
            && c.conn.inbox == Framed(c.log).inbox
            && (c.conn.inbox == SplitAtNuls(Stream(c.log)).messages <==>
                AllAligned(c.log[..LastEnd(c.log)]) && NUL !in Stream(c.log[LastEnd(c.log)..]))
  {
    IocpRunKeeps(m, ops, m');
    var c := m'.contexts[i];
    assert ContextOk(m'.pool, c);
    ExactFraming(c.log);
  }

  // ----- The buffers of removed contexts -----

  /** How many contexts a step removes. */
  ghost function IocpRemovedBy(m: Iocp, op: IocpOp): nat
    requires IocpPossible(m, op)
  {
    match op
    case HandleOp(e) => if e.ZeroBytes? then 1 else 0
    case DisconnectAllOp(_) => |m.contexts|
    case _ => 0
  }

  ghost function IocpRemovals(m: Iocp, ops: seq<IocpOp>): nat
    decreases |ops|
  {
    if ops == [] || !IocpPossible(m, ops[0]) then 0
    else IocpRemovedBy(m, ops[0]) + IocpRemovals(IocpStep(m, ops[0]), ops[1..])
  }

  lemma {:induction false} BagsCount(p: Pool, cs: seq<Ctx>)
    requires ContextsOk(p, cs)
    ensures |Bags(cs)| >= |cs|
  {
    if cs != [] {
      BagsCount(p, cs[1..]);
      assert ContextOk(p, cs[0]);
    }
  }

  lemma HandledLoses(m: Iocp, e: Completion)
    requires IocpOk(m) && CanArrive(SendsIssued(m), e)
    ensures var m' := IocpHandled(m, e);
            && |m'.contexts| == |m.contexts| - (if e.ZeroBytes? then 1 else 0)
            && m.lost <= m'.lost && |m'.lost| >= |m.lost| + (if e.ZeroBytes? then 1 else 0)
            && (!e.ZeroBytes? ==> m'.lost == m.lost)
  {
    if e.ZeroBytes? {
      SendsIssuedKeeps(m);
      Apart(SendsIssued(m), e.index);
    }
  }

  lemma IocpStepLoses(m: Iocp, op: IocpOp)
    requires IocpOk(m) && IocpPossible(m, op)
    ensures var m' := IocpStep(m, op);
            && m.lost <= m'.lost && |m'.lost| >= |m.lost| + IocpRemovedBy(m, op)
            && (IocpRemovedBy(m, op) == 0 ==> m'.lost == m.lost)
  {
    match op
    case HandleOp(e) => HandledLoses(m, e);
    case DisconnectAllOp(e) =>
      HandledLoses(m, e);
      IocpHandledKeeps(m, e);
      var h := IocpHandled(m, e);
      hide IocpHandled, CanArrive, ContextsOk;
      BagsCount(h.pool, h.contexts);
    case _ =>
  }

  lemma {:induction false} IocpRunLoses(m: Iocp, ops: seq<IocpOp>, m': Iocp)
    requires IocpOk(m) && IocpReaches(m, ops, m')
    ensures m.lost <= m'.lost && |m'.lost| >= |m.lost| + IocpRemovals(m, ops)
    ensures IocpRemovals(m, ops) == 0 ==> m'.lost == m.lost
    decreases |ops|
  {
    if ops != [] {
      IocpStepLoses(m, ops[0]);
      IocpStepKeeps(m, ops[0]);
      hide IocpOk, IocpRemovedBy, IocpStep, IocpPossible;
      IocpRunLoses(IocpStep(m, ops[0]), ops[1..], m');
    }
  }

  /** Once lost, a buffer is lost in every later state, never free and never in a chain again. */
  lemma IocpLostForever(m: Iocp, ops: seq<IocpOp>, m1: Iocp, more: seq<IocpOp>, m2: Iocp, b: Pointer)
    requires IocpInitial(m) && IocpReaches(m, ops, m1) && IocpReaches(m1, more, m2) && b in m1.lost
    ensures m1.lost <= m2.lost && b !in m2.pool.free && b !in Bags(m2.contexts)
  {
    IocpRunKeeps(m, ops, m1);
    IocpRunLoses(m1, more, m2);
    IocpRunKeeps(m1, more, m2);
    hide ContextsOk, IocpReaches;
    assert m2.lost[b] >= m1.lost[b];
    OwnedMeans(m2.pool, Bags(m2.contexts) + m2.lost, b);
  }

  /** A run loses no buffer if and only if it removed no context, shutdown included. */
  lemma IocpLostIffRemoved(m: Iocp, ops: seq<IocpOp>, m': Iocp)
    requires IocpInitial(m) && IocpReaches(m, ops, m')
    ensures m'.lost == multiset{} <==> IocpRemovals(m, ops) == 0
  {
    assert IocpOk(m);
    IocpRunLoses(m, ops, m');
  }

  /** It happens: a completion without bytes on the only connection loses its receive buffer. */
  lemma ZeroBytesLoses(m: Iocp, handle: nat)
    requires m.contexts == []
    ensures IocpRemovals(IocpAdded(m, handle), [IocpOp.HandleOp(ZeroBytes(0))]) == 1
  {
    var ops := [IocpOp.HandleOp(ZeroBytes(0))];
    assert ops[1..] == [];
    assert |SendsIssued(IocpAdded(m, handle)).contexts| == 1;
    hide IocpAdded, SendsIssued;
    assert IocpRemovals(IocpStep(IocpAdded(m, handle), ops[0]), []) == 0;
  }

  /** In every reachable state each live context has one receive posted: a whole buffer, the end of its own chain. */
  lemma OneReceiveEverywhere(m: Iocp, ops: seq<IocpOp>, m': Iocp, i: nat)
    requires IocpInitial(m) && IocpReaches(m, ops, m') && i < |m'.contexts|
    ensures var c := m'.contexts[i];
            && c.receive.buffers != []
            && c.posted == [NetBuffer(m'.pool.size, c.receive.buffers[|c.receive.buffers| - 1])]
  {
    IocpRunKeeps(m, ops, m');
    assert ContextOk(m'.pool, m'.contexts[i]);
  }
}
