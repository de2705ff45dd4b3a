/**
  What every receive event keeps, whatever else shares the pool: the ownership of buffers, and
  the bytes of every chain, so that a connection's messages depend on its own reads alone.
 */
module Receiving {
  import opened Memory
  import opened BufferPools
  import opened Framing
  import opened Contexts
  import opened EventHandlers

  ghost predicate PoolOk(p: Pool, held: multiset<Pointer>) {
    Owned(p, held) && p.WellSized() && 1 <= p.size < UINT32
  }

  /** The chain without the slot: the buffers already read since the last message. */
  ghost function Past(io: Io): seq<Pointer>
    requires io.buffers != []
  {
    io.buffers[..|io.buffers| - 1]
  }

  /**
    The receive slot is in place, offers a whole buffer, and the chain behind it holds what
    framing the connection's own reads leaves pending.
   */
  ghost predicate ReceiveOk(s: State) {
    && HasSlot(s)
    && s.ctx.receive.netBuffer.len == s.pool.size
    && AllFit(s.ctx.log, s.pool.size)
    && Framed(s.ctx.log) == Frame(s.pool.Chain(Past(s.ctx.receive)), s.ctx.conn.inbox)
  }

  /** The held buffers are still there and hold the same bytes. */
  ghost predicate Untouched(p: Pool, p': Pool, held: multiset<Pointer>) {
    forall b: Pointer :: b in held ==> p.Has(b) && p'.Has(b) && p'.At(b) == p.At(b)
  }

  ghost function Bag(s: State): multiset<Pointer> {
    multiset(s.ctx.receive.buffers)
  }

  /** The operating system received `data` into the slot. */
  ghost function Filled(s: State, data: seq<char>): State
    requires HasSlot(s) && |data| <= |Slot(s)|
  {
    s.(pool := Store(s.pool, s.ctx.receive.netBuffer.buf, data))
  }

  lemma SameChain(p: Pool, p': Pool, chain: seq<Pointer>, held: multiset<Pointer>)
    requires Untouched(p, p', held) && forall k :: 0 <= k < |chain| ==> chain[k] in held
    ensures p.HasAll(chain) && p'.HasAll(chain) && p'.Chain(chain) == p.Chain(chain)
  {
  }

  /** A context whose buffers are untouched still receives as before. */
  lemma ReceiveStays(p: Pool, p': Pool, c: Ctx)
    requires ReceiveOk(State(p, c)) && Untouched(p, p', multiset(c.receive.buffers)) && p'.size == p.size
    ensures ReceiveOk(State(p', c))
  {
  }

  lemma SlotIsApart(s: State, others: multiset<Pointer>)
    requires HasSlot(s) && Owned(s.pool, others + Bag(s))
    ensures s.ctx.receive.netBuffer.buf !in others + multiset(Past(s.ctx.receive))
    ensures others + multiset(Past(s.ctx.receive)) + multiset{s.ctx.receive.netBuffer.buf} == others + Bag(s)
  {
    var io := s.ctx.receive;
    assert io.buffers == Past(io) + [io.netBuffer.buf];
    OwnedMeans(s.pool, others + Bag(s), io.netBuffer.buf);
  }

  lemma HeldIsThere(p: Pool, held: multiset<Pointer>)
    requires Owned(p, held)
    ensures forall b: Pointer :: b in held ==> p.Has(b)
  {
    forall b: Pointer | b in held
      ensures p.Has(b)
    {
      OwnedMeans(p, held, b);
    }
  }

  lemma FilledKeeps(s: State, data: seq<char>, others: multiset<Pointer>)
    requires HasSlot(s) && PoolOk(s.pool, others + Bag(s)) && |data| <= s.pool.size
    ensures |data| <= |Slot(s)|
    ensures var s' := Filled(s, data);
            && PoolOk(s'.pool, others + Bag(s)) && HasSlot(s') && Slot(s')[..|data|] == data
            && Untouched(s.pool, s'.pool, others + multiset(Past(s.ctx.receive)))
  {
    SlotIsApart(s, others);
    HeldIsThere(s.pool, others + Bag(s));
    StoreChangesOne(s.pool, s.ctx.receive.netBuffer.buf, data);
  }

  lemma SuppliedKeeps(s: State, others: multiset<Pointer>)
    requires PoolOk(s.pool, others + Bag(s))
    ensures var s' := Supplied(s);
            && PoolOk(s'.pool, others + Bag(s')) && HasSlot(s') && Past(s'.ctx.receive) == s.ctx.receive.buffers
            && Untouched(s.pool, s'.pool, others + Bag(s)) && s'.pool.size == s.pool.size
  {
    var (p, b) := Take(s.pool);
    TakeKeepsOwned(s.pool, others + Bag(s));
    HeldIsThere(s.pool, others + Bag(s));
    OwnedHas(s.pool, others + Bag(s), s.ctx.receive.buffers);
    assert others + Bag(Supplied(s)) == others + Bag(s) + multiset{b};
    hide Owned;
    OwnedHas(p, others + Bag(Supplied(s)), Supplied(s).ctx.receive.buffers);
  }

  /** The start of reading on a new context. */
  lemma StartedReadKeeps(s: State, others: multiset<Pointer>)
    requires PoolOk(s.pool, others) && s.ctx.receive.buffers == [] && s.ctx.log == [] && s.ctx.conn.inbox == []
    ensures var s' := StartedRead(s);
            PoolOk(s'.pool, others + Bag(s')) && ReceiveOk(s') && Untouched(s.pool, s'.pool, others)
  {
    hide Owned, Take;
    assert others + Bag(s) == others;
    var sized := s.(ctx := s.ctx.(receive := MessageLength(s.ctx.receive, s.pool.size)));
    SuppliedKeeps(sized, others);
  }

  lemma EmittedKeeps(s: State, others: multiset<Pointer>)
    requires HasSlot(s) && PoolOk(s.pool, others + Bag(s))
    ensures var s' := Emitted(s);
            PoolOk(s'.pool, others + Bag(s')) && s'.pool.bytes == s.pool.bytes && s'.ctx.receive.buffers == []
  {
  }

  lemma ChainSplit(s: State)
    requires HasSlot(s)
    ensures s.pool.Chain(s.ctx.receive.buffers) == s.pool.Chain(Past(s.ctx.receive)) + [Slot(s)]
  {
  }

  /** The read that the handler is about to process. */
  ghost function Pending(s: State, n: nat): Read
    requires HasSlot(s) && 1 <= n <= |Slot(s)|
  {
    Read(Slot(s), n)
  }

  /** The framing of the reads, one read further, as the handler computes it from the pool. */
  lemma FramedByPool(s: State, n: nat)
    requires HasSlot(s) && 1 <= n <= |Slot(s)|
    requires Framed(s.ctx.log) == Frame(s.pool.Chain(Past(s.ctx.receive)), s.ctx.conn.inbox)
    ensures Framed(s.ctx.log + [Pending(s, n)]) ==
            if EndsMessage(Pending(s, n)) then Frame([], s.ctx.conn.inbox + [Join(s.pool.Chain(s.ctx.receive.buffers))])
            else Frame(s.pool.Chain(s.ctx.receive.buffers), s.ctx.conn.inbox)
  {
    ChainSplit(s);
    FramedNext(s.ctx.log, Pending(s, n));
  }

  lemma ReadEndKeeps(s: State, n: nat, others: multiset<Pointer>)
    requires ReceiveOk(s) && PoolOk(s.pool, others + Bag(s)) && 1 <= n <= |Slot(s)| && EndsMessage(Pending(s, n))
    ensures var s' := ReadDone(s, n);
            PoolOk(s'.pool, others + Bag(s')) && ReceiveOk(s') && Untouched(s.pool, s'.pool, others)
  {
    hide Join, Owned, Take;
    var logged := s.(ctx := s.ctx.(log := s.ctx.log + [Pending(s, n)]));
    FramedByPool(s, n);
    EmittedKeeps(logged, others);
    SuppliedKeeps(Emitted(logged), others);
    HeldIsThere(s.pool, others + Bag(s));
  }

  lemma ReadMiddleKeeps(s: State, n: nat, others: multiset<Pointer>)
    requires ReceiveOk(s) && PoolOk(s.pool, others + Bag(s)) && 1 <= n <= |Slot(s)| && !EndsMessage(Pending(s, n))
    ensures var s' := ReadDone(s, n);
            PoolOk(s'.pool, others + Bag(s')) && ReceiveOk(s') && Untouched(s.pool, s'.pool, others)
  {
    hide Owned, Take;
    var logged := s.(ctx := s.ctx.(log := s.ctx.log + [Pending(s, n)]));
    FramedByPool(s, n);
    SuppliedKeeps(logged, others);
    assert forall b <- s.ctx.receive.buffers :: b in multiset(s.ctx.receive.buffers);
    SameChain(s.pool, ReadDone(s, n).pool, s.ctx.receive.buffers, others + Bag(s));
  }

  /**
    A receive of any 1 to `size` bytes: no buffer is lost, given twice or shared, the slot is
    in place again, the chain still frames the connection's own reads, and no byte of a buffer
    held by anyone else changes.
   */
  lemma ReceiveKeeps(s: State, data: seq<char>, others: multiset<Pointer>)
    requires ReceiveOk(s) && PoolOk(s.pool, others + Bag(s)) && 1 <= |data| <= s.pool.size
    ensures |data| <= |Slot(s)| && HasSlot(Filled(s, data)) && |data| <= |Slot(Filled(s, data))|
    ensures var s' := ReadDone(Filled(s, data), |data|);
            && PoolOk(s'.pool, others + Bag(s')) && ReceiveOk(s') && Untouched(s.pool, s'.pool, others)
            && |s'.ctx.log| == |s.ctx.log| + 1 && s'.ctx.log[..|s.ctx.log|] == s.ctx.log
            && Data(s'.ctx.log[|s.ctx.log|]) == data
  {
    FilledKeeps(s, data, others);
    SameChain(s.pool, Filled(s, data).pool, Past(s.ctx.receive), others + multiset(Past(s.ctx.receive)));
    var f := Filled(s, data);
    if EndsMessage(Pending(f, |data|)) {
      ReadEndKeeps(f, |data|, others);
    } else {
      ReadMiddleKeeps(f, |data|, others);
    }
  }
}
