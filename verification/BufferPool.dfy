/**
  The pool of receive buffers (BufferPool.hpp).  `Pool` is the pool as a value, with the
  ownership law that everything else about buffers rests on; `BufferPool` is the class.
 */
module BufferPools {
  import opened Memory

  /** The free queue, the bytes of every storage node in list order, and the buffer size. */
  datatype Pool = Pool(free: seq<Pointer>, bytes: seq<seq<char>>, size: nat) {
    predicate Has(b: Pointer) {
      b.Buffer? && b.index < |bytes|
    }

    predicate HasAll(chain: seq<Pointer>) {
      forall k :: 0 <= k < |chain| ==> Has(chain[k])
    }

    ghost predicate WellSized() {
      AllOfSize(bytes, size)
    }

    function At(b: Pointer): seq<char>
      requires Has(b)
    {
      bytes[b.index]
    }

    function Chain(chain: seq<Pointer>): (r: seq<seq<char>>)
      requires HasAll(chain)
      ensures |r| == |chain|
    {
      seq(|chain|, k requires 0 <= k < |chain| => At(chain[k]))
    }
  }

  function Zeros(size: nat): (r: seq<char>)
    ensures |r| == size && forall k :: 0 <= k < size ==> r[k] == NUL
  {
    seq(size, _ => NUL)
  }

  /** The first free buffer, or a new storage node when there is none. */
  function Take(p: Pool): (Pool, Pointer) {
    if p.free == [] then
      (p.(bytes := p.bytes + [Zeros(p.size)]), Buffer(|p.bytes|))
    else
      (p.(free := p.free[1..]), p.free[0])
  }

  function GiveBack(p: Pool, chain: seq<Pointer>): Pool {
    p.(free := p.free + chain)
  }

  /** The operating system writes received bytes to the start of a buffer. */
  function Store(p: Pool, b: Pointer, data: seq<char>): Pool
    requires p.Has(b) && |data| <= |p.At(b)|
  {
    p.(bytes := p.bytes[b.index := data + p.At(b)[|data|..]])
  }

  /** One of each storage node. */
  ghost function Nodes(n: nat): multiset<Pointer> {
    if n == 0 then multiset{} else Nodes(n - 1) + multiset{Buffer(n - 1)}
  }

  lemma {:induction false} NodesCount(n: nat, b: Pointer)
    ensures Nodes(n)[b] == if b.Buffer? && b.index < n then 1 else 0
  {
    if n > 0 {
      NodesCount(n - 1, b);
    }
  }

  lemma {:induction false} NodesSize(n: nat)
    ensures |Nodes(n)| == n
  {
    if n > 0 {
      NodesSize(n - 1);
    }
  }

  /**
    The ownership law: the free queue and the buffers held elsewhere make up the storage,
    each node exactly once.
   */
  ghost predicate Owned(p: Pool, held: multiset<Pointer>) {
    multiset(p.free) + held == Nodes(|p.bytes|)
  }

  /** What the law means for one pointer. */
  lemma OwnedMeans(p: Pool, held: multiset<Pointer>, b: Pointer)
    requires Owned(p, held)
    ensures b in p.free || b in held <==> p.Has(b)
    ensures multiset(p.free)[b] + held[b] <= 1
    ensures !b.Buffer? ==> b !in p.free && b !in held
  {
    NodesCount(|p.bytes|, b);
    assert (multiset(p.free) + held)[b] == multiset(p.free)[b] + held[b];
    assert b in p.free <==> b in multiset(p.free);
  }

  lemma OwnedHas(p: Pool, held: multiset<Pointer>, chain: seq<Pointer>)
    requires Owned(p, held) && multiset(chain) <= held
    ensures p.HasAll(chain)
  {
    forall k | 0 <= k < |chain|
      ensures p.Has(chain[k])
    {
      assert chain[k] in multiset(chain);
      OwnedMeans(p, held, chain[k]);
    }
  }

  /** A taken buffer belonged to nobody, and taking changes no byte of any other buffer. */
  lemma TakeKeepsOwned(p: Pool, held: multiset<Pointer>)
    requires Owned(p, held)
    ensures var (p', b) := Take(p);
            && Owned(p', held + multiset{b}) && p'.Has(b) && held[b] == 0
            && p'.size == p.size && (p.WellSized() ==> p'.WellSized())
  {
    var (p', b) := Take(p);
    TakeBag(p, held);
    OwnedMeans(p, held, b);
    if p.free != [] {
      assert b in p.free;
    }
  }

  lemma TakeBag(p: Pool, held: multiset<Pointer>)
    requires Owned(p, held)
    ensures Owned(Take(p).0, held + multiset{Take(p).1})
  {
    if p.free != [] {
      assert p.free == [p.free[0]] + p.free[1..];
    }
  }

  lemma GiveBackKeepsOwned(p: Pool, held: multiset<Pointer>, chain: seq<Pointer>)
    requires Owned(p, held + multiset(chain))
    ensures Owned(GiveBack(p, chain), held)
  {
  }

  /** Bytes are written to one buffer only. */
  lemma StoreChangesOne(p: Pool, b: Pointer, data: seq<char>)
    requires p.Has(b) && |data| <= |p.At(b)|
    ensures var p' := Store(p, b, data);
            && p'.free == p.free && |p'.bytes| == |p.bytes|
            && p'.At(b)[..|data|] == data
            && (forall c: Pointer :: p.Has(c) && c != b ==> p'.Has(c) && p'.At(c) == p.At(c))
            && (p.WellSized() ==> p'.WellSized())
  {
  }

  // ----- The high-water mark -----

  datatype PoolOp = TakeOp | ReturnOp(chain: seq<Pointer>)

  /** A pool in use: what is out, and the largest number ever out at once. */
  datatype Usage = Usage(pool: Pool, out: multiset<Pointer>, peak: nat)

  ghost function UseStep(u: Usage, op: PoolOp): Usage {
    match op
    case TakeOp =>
      var (p, b) := Take(u.pool);
      var out := u.out + multiset{b};
      Usage(p, out, if |out| > u.peak then |out| else u.peak)
    case ReturnOp(chain) => Usage(GiveBack(u.pool, chain), u.out - multiset(chain), u.peak)
  }

  ghost function UseRun(u: Usage, ops: seq<PoolOp>): Usage
    decreases |ops|
  {
    if ops == [] then u else UseRun(UseStep(u, ops[0]), ops[1..])
  }

  /** Only buffers that are out are returned. */
  ghost predicate WellFormed(u: Usage, ops: seq<PoolOp>)
    decreases |ops|
  {
    ops == [] ||
    ((ops[0].ReturnOp? ==> multiset(ops[0].chain) <= u.out) && WellFormed(UseStep(u, ops[0]), ops[1..]))
  }

  ghost function Max(a: nat, b: nat): nat {
    if a > b then a else b
  }

  lemma InUse(p: Pool, out: multiset<Pointer>)
    requires Owned(p, out)
    ensures |p.bytes| == |p.free| + |out|
  {
    NodesSize(|p.bytes|);
    assert |multiset(p.free) + out| == |multiset(p.free)| + |out|;
  }

  lemma UseStepKeeps(u: Usage, op: PoolOp, initial: nat)
    requires Owned(u.pool, u.out) && |u.out| <= u.peak && |u.pool.bytes| == Max(initial, u.peak)
    requires op.ReturnOp? ==> multiset(op.chain) <= u.out
    ensures var u' := UseStep(u, op);
            Owned(u'.pool, u'.out) && |u'.out| <= u'.peak && |u'.pool.bytes| == Max(initial, u'.peak)
  {
    match op
    case TakeOp =>
      TakeBag(u.pool, u.out);
      InUse(u.pool, u.out);
    case ReturnOp(chain) =>
      assert u.out - multiset(chain) + multiset(chain) == u.out;
      GiveBackKeepsOwned(u.pool, u.out - multiset(chain), chain);
  }

  /**
    The pool grows to its high-water mark and no further: its number of buffers is the
    larger of the initial count and the most that were ever out at once.
   */
  lemma {:induction false} HighWaterMark(u: Usage, ops: seq<PoolOp>, initial: nat)
    requires Owned(u.pool, u.out) && |u.out| <= u.peak && |u.pool.bytes| == Max(initial, u.peak)
    requires WellFormed(u, ops)
    ensures var u' := UseRun(u, ops);
            Owned(u'.pool, u'.out) && |u'.out| <= u'.peak && |u'.pool.bytes| == Max(initial, u'.peak)
    decreases |ops|
  {
    if ops != [] {
      UseStepKeeps(u, ops[0], initial);
      HighWaterMark(UseStep(u, ops[0]), ops[1..], initial);
    }
  }

  /** What a step takes that is no new storage node, and what it returns. */
  ghost function ReusedBy(u: Usage, op: PoolOp): seq<Pointer> {
    var (p, b) := Take(u.pool);
    if op.TakeOp? && |p.bytes| == |u.pool.bytes| then [b] else []
  }

  ghost function ReturnedBy(op: PoolOp): seq<Pointer> {
    if op.ReturnOp? then op.chain else []
  }

  ghost function Reused(u: Usage, ops: seq<PoolOp>): seq<Pointer>
    decreases |ops|
  {
    if ops == [] then [] else ReusedBy(u, ops[0]) + Reused(UseStep(u, ops[0]), ops[1..])
  }

  ghost function Returned(ops: seq<PoolOp>): seq<Pointer> {
    if ops == [] then [] else ReturnedBy(ops[0]) + Returned(ops[1..])
  }

  lemma StepInTurn(u: Usage, op: PoolOp)
    ensures ReusedBy(u, op) + UseStep(u, op).pool.free == u.pool.free + ReturnedBy(op)
  {
  }

  /**
    First in, first out: over any run the free buffers and those returned are used again in that
    order, each before the pool grows, and what is left of them is the free queue.
   */
  lemma {:induction false} FirstInFirstOut(u: Usage, ops: seq<PoolOp>)
    ensures Reused(u, ops) + UseRun(u, ops).pool.free == u.pool.free + Returned(ops)
    decreases |ops|
  {
    if ops != [] {
      var u1, rest := UseStep(u, ops[0]), ops[1..];
      StepInTurn(u, ops[0]);
      FirstInFirstOut(u1, rest);
      assert Reused(u, ops) == ReusedBy(u, ops[0]) + Reused(u1, rest);
      assert Returned(ops) == ReturnedBy(ops[0]) + Returned(rest);
      assert UseRun(u, ops) == UseRun(u1, rest);
      hide ReusedBy, ReturnedBy, UseStep, Reused, Returned, UseRun;
      InTurn(ReusedBy(u, ops[0]), u1.pool.free, u.pool.free, ReturnedBy(ops[0]),
             Reused(u1, rest), UseRun(u1, rest).pool.free, Returned(rest));
    }
  }

  lemma InTurn<T>(first: seq<T>, queue: seq<T>, before: seq<T>, back: seq<T>, more: seq<T>, end: seq<T>, rest: seq<T>)
    requires first + queue == before + back && more + end == queue + rest
    ensures (first + more) + end == before + (back + rest)
  {
    assert (first + more) + end == first + (more + end) == (first + queue) + rest;
  }

  // ----- The class -----

  class BufferPool {
    const size: nat
    var buffersQueue: seq<Pointer>
    var buffers: seq<array<char>>
    /** What the nodes hold. */
    ghost var bytes: seq<seq<char>>

    ghost predicate Valid()
      reads this, buffers
    {
      && (forall j, k :: 0 <= j < k < |buffers| ==> buffers[j] != buffers[k])
      && (forall k :: 0 <= k < |buffers| ==> buffers[k].Length == size)
      && Holds(buffers, bytes)
    }

    ghost function View(): Pool
      reads this
    {
      Pool(buffersQueue, bytes, size)
    }

    constructor (size: nat, bufferCount: nat)
      ensures Valid() && this.size == size && forall k :: 0 <= k < |buffers| ==> fresh(buffers[k])
      ensures Owned(View(), multiset{}) && |View().bytes| == bufferCount
    {
      this.size := size;
      buffersQueue := [];
      buffers := [];
      bytes := [];
      new;
      InitBuffers(bufferCount);
    }

    method InitBuffers(bufferCount: nat)
      requires Valid() && buffersQueue == [] && buffers == []
      modifies this
      ensures Valid() && forall k :: 0 <= k < |buffers| ==> fresh(buffers[k])
      ensures Owned(View(), multiset{}) && |View().bytes| == bufferCount
    {
      var i := 0;
      while i < bufferCount
        invariant 0 <= i <= bufferCount && |bytes| == i
        invariant Valid()
        invariant forall k :: 0 <= k < |buffers| ==> fresh(buffers[k])
        invariant multiset(buffersQueue) == Nodes(i)
      {
        var data := EmplaceBack();
        buffersQueue := buffersQueue + [data];
        i := i + 1;
      }
    }

    /** A new, zeroed node at the back of the storage list. */
    method EmplaceBack() returns (data: Pointer)
      requires Valid()
      modifies this`buffers, this`bytes
      ensures Valid() && old(buffers) <= buffers
      ensures forall k :: |old(buffers)| <= k < |buffers| ==> fresh(buffers[k])
      ensures bytes == old(bytes) + [Zeros(size)] && data == Buffer(|old(bytes)|)
    {
      var node := new char[size](_ => NUL);
      assert node[..] == Zeros(size);
      data := Buffer(|buffers|);
      buffers := buffers + [node];
      bytes := bytes + [node[..]];
    }

    method TakeBuffer() returns (buffer: Pointer)
      requires Valid()
      modifies this
      ensures Valid() && old(buffers) <= buffers
      ensures forall k :: |old(buffers)| <= k < |buffers| ==> fresh(buffers[k])
      ensures (View(), buffer) == Take(old(View()))
    {
      if buffersQueue == [] {
        buffer := EmplaceBack();
      } else {
        buffer := buffersQueue[0];
        buffersQueue := buffersQueue[1..];
      }
    }

    method ReturnBuffer(returnBuffer: Pointer)
      requires Valid()
      modifies this`buffersQueue
      ensures Valid()
      ensures View() == GiveBack(old(View()), [returnBuffer])
    {
      buffersQueue := buffersQueue + [returnBuffer];
    }

    method ReturnBuffers(returnBuffers: seq<Pointer>)
      requires Valid()
      modifies this`buffersQueue
      ensures Valid()
      ensures View() == GiveBack(old(View()), returnBuffers)
    {
      for i := 0 to |returnBuffers|
        invariant buffersQueue == old(buffersQueue) + returnBuffers[..i]
      {
        buffersQueue := buffersQueue + [returnBuffers[i]];
      }
    }

    /** The blocks a list of pointers refers to. */
    function Deref(chain: seq<Pointer>): (blocks: seq<array<char>>)
      reads this
      requires forall k :: 0 <= k < |chain| ==> chain[k].Buffer? && chain[k].index < |buffers|
      ensures |blocks| == |chain|
      ensures forall k :: 0 <= k < |chain| ==> blocks[k] == buffers[chain[k].index]
    {
      seq(|chain|, k
            requires 0 <= k < |chain|
            requires chain[k].Buffer? && chain[k].index < |buffers|
            reads this
            => buffers[chain[k].index])
    }

    /** The operating system fills the start of a buffer. */
    method Receive(b: Pointer, data: seq<char>)
      requires Valid() && View().Has(b) && |data| <= size
      modifies this`bytes, buffers[b.index]
      ensures Valid() && View() == Store(old(View()), b, data)
    {
      var block := buffers[b.index];
      forall i | 0 <= i < |data| {
        block[i] := data[i];
      }
      bytes := bytes[b.index := block[..]];
      assert block[..] == data + old(block[..])[|data|..];
    }
  }

  /** Buffers taken together and returned together; `others` is what the pool's other users hold. */
  class BufferChain {
    const bufferPool: BufferPool
    var buffers: seq<Pointer>

    ghost predicate Valid(others: multiset<Pointer>)
      reads this, bufferPool, bufferPool.buffers
    {
      bufferPool.Valid() && Owned(bufferPool.View(), others + multiset(buffers))
    }

    constructor (bufferPool: BufferPool, ghost others: multiset<Pointer>)
      requires bufferPool.Valid() && Owned(bufferPool.View(), others)
      ensures this.bufferPool == bufferPool && buffers == [] && Valid(others)
    {
      this.bufferPool := bufferPool;
      buffers := [];
      new;
      assert others + multiset(buffers) == others;
    }

    method TakeBuffer(ghost others: multiset<Pointer>) returns (buffer: Pointer)
      requires Valid(others)
      modifies this, bufferPool
      ensures Valid(others) && buffers == old(buffers) + [buffer]
      ensures (bufferPool.View(), buffer) == Take(old(bufferPool.View()))
      ensures buffer !in old(buffers) && buffer !in others
    {
      TakeKeepsOwned(bufferPool.View(), others + multiset(buffers));
      buffer := bufferPool.TakeBuffer();
      assert multiset(buffers)[buffer] == 0 && others[buffer] == 0;
      assert others + multiset(buffers + [buffer]) == others + multiset(buffers) + multiset{buffer};
      buffers := buffers + [buffer];
    }

    method ReturnAllBuffers(ghost others: multiset<Pointer>)
      requires Valid(others)
      modifies this, bufferPool`buffersQueue
      ensures Valid(others) && buffers == []
      ensures bufferPool.View() == GiveBack(old(bufferPool.View()), old(buffers))
    {
      for i := 0 to |buffers|
        invariant buffers == old(buffers) && bufferPool.Valid()
        invariant bufferPool.View() == GiveBack(old(bufferPool.View()), buffers[..i])
      {
        bufferPool.ReturnBuffer(buffers[i]);
      }
      assert buffers[..|buffers|] == buffers;
      GiveBackKeepsOwned(old(bufferPool.View()), others, buffers);
      buffers := [];
      assert others + multiset(buffers) == others;
    }

    /**
      The destructor: after it, or after `ReturnAllBuffers` and it, nothing of the chain is out and
      nothing is returned twice.
     */
    method Destroy(ghost others: multiset<Pointer>)
      requires Valid(others)
      modifies bufferPool`buffersQueue
      ensures bufferPool.Valid() && Owned(bufferPool.View(), others)
      ensures bufferPool.View() == GiveBack(old(bufferPool.View()), buffers)
    {
      for i := 0 to |buffers|
        invariant bufferPool.Valid()
        invariant bufferPool.View() == GiveBack(old(bufferPool.View()), buffers[..i])
      {
        bufferPool.ReturnBuffer(buffers[i]);
      }
      assert buffers[..|buffers|] == buffers;
      GiveBackKeepsOwned(old(bufferPool.View()), others, buffers);
    }

    method Concat(ghost others: multiset<Pointer>) returns (message: string)
      requires Valid(others) && buffers != []
      requires bufferPool.View().HasAll(buffers) && NUL in bufferPool.View().At(buffers[|buffers| - 1])
      ensures message == Join(bufferPool.View().Chain(buffers))
    {
      message := ConcatBuffers(bufferPool.Deref(buffers), bufferPool.size, bufferPool.View().Chain(buffers));
    }
  }
}
