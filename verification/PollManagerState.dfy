/**
  The buffer-based event manager as a value (NetBufferBasedEventManager.hpp), and what holds
  of it in every state that any run of accepts, sends, updates and event passes can reach.
 */
module PollManagerStates {
  import opened Memory
  import opened BufferPools
  import opened Framing
  import opened Connections
  import opened Contexts
  import opened EventHandlers
  import opened Receiving
  import opened Sending
  import opened EventTables
  import opened EventPass

  /** The handler's pool, the two parallel vectors, and the receive buffers of removed contexts. */
  datatype Manager = Manager(pool: Pool, entries: seq<Entry>, lost: multiset<Pointer>)

  ghost predicate ManagerOk(m: Manager) {
    PoolOk(m.pool, Holdings(m.entries) + m.lost) && AllOk(m.pool, m.entries)
  }

  const UNUSED: Io := Io(NetBuffer(0, Null), [])

  function NewContext(handle: nat): Ctx {
    Ctx(handle, [], [], [], [], [], UNUSED, UNUSED, FRESH)
  }

  ghost function Added(m: Manager, handle: nat): Manager {
    var s := StartedRead(State(m.pool, NewContext(handle)));
    Manager(s.pool, m.entries + [Entry(s.ctx, false)], m.lost)
  }

  ghost function WithConn(m: Manager, i: nat, conn: Conn): Manager
    requires i < |m.entries|
  {
    var e := m.entries[i];
    m.(entries := m.entries[i := e.(ctx := e.ctx.(conn := conn))])
  }

  ghost function StartedEntry(e: Entry): Entry {
    var (c, started) := StartedWrite(e.ctx);
    Entry(c, started || e.wantsWrite)
  }

  ghost function ProcessedSend(es: seq<Entry>): (r: seq<Entry>)
    ensures |r| == |es| && forall k :: 0 <= k < |es| ==> r[k] == StartedEntry(es[k])
  {
    if es == [] then [] else [StartedEntry(es[0])] + ProcessedSend(es[1..])
  }

  /** The sends of the first `i` entries started. */
  ghost function PartlySent(es: seq<Entry>, i: nat): (r: seq<Entry>)
    requires i <= |es|
    ensures |r| == |es| && forall k :: 0 <= k < |es| ==> r[k] == if k < i then StartedEntry(es[k]) else es[k]
  {
    ProcessedSend(es)[..i] + es[i..]
  }

  lemma PartlySentNext(es: seq<Entry>, i: nat)
    requires i < |es|
    ensures PartlySent(es, i)[i := StartedEntry(PartlySent(es, i)[i])] == PartlySent(es, i + 1)
  {
  }

  lemma PartlySentEnds(es: seq<Entry>)
    ensures PartlySent(es, 0) == es && PartlySent(es, |es|) == ProcessedSend(es)
  {
  }

  /** The receive buffers that go with removed contexts: nobody returns them to the pool. */
  ghost function LostBy(vs: seq<Verdict>): multiset<Pointer> {
    if vs == [] then multiset{}
    else (if vs[0].tag == Removed then Holding(vs[0].entry) else multiset{}) + LostBy(vs[1..])
  }

  /** A pass, given the operating system's answers and the count its wait returned. */
  ghost function Handled(m: Manager, os: Os, count: nat): Manager {
    var started := ProcessedSend(m.entries);
    if count == 0 then m.(entries := started)
    else
      var (p, vs) := Sweep(m.pool, started, os, count, false);
      Manager(p, Survivors(vs), m.lost + LostBy(vs))
  }

  lemma PassStart(m: Manager, os: Os, count: nat)
    ensures Handled(m, os, count) == Finish(m.(entries := ProcessedSend(m.entries)), 0, os, count)
  {
    var started := ProcessedSend(m.entries);
    assert started[0..] == started;
    if count == 0 {
      PassEnd(m.(entries := started), 0, os, count);
    }
  }

  // ----- The index loop is the sweep -----

  /** The manager after the visit of entry `i`: the entry replaced, or erased from both vectors. */
  ghost function After(m: Manager, i: nat, v: Visited): Manager
    requires i < |m.entries|
  {
    if v.removed then Manager(v.pool, Erased(m.entries, i), m.lost + Holding(v.entry))
    else Manager(v.pool, m.entries[i := v.entry], m.lost)
  }

  ghost function VisitedAt(m: Manager, i: nat, os: Os): Manager
    requires i < |m.entries|
  {
    After(m, i, Visit(m.pool, m.entries[i], os(m.entries[i].ctx.handle)))
  }

  /** The manager whose first entries are done and whose others a sweep is still to pass. */
  ghost function Sweeping(p: Pool, front: seq<Entry>, lost: multiset<Pointer>, rest: seq<Entry>,
                          os: Os, count: nat, skip: bool): Manager {
    var (p', vs) := Sweep(p, rest, os, count, skip);
    Manager(p', front + Survivors(vs), lost + LostBy(vs))
  }

  /** What the loop still makes of the manager, standing at index `i` with `count` left. */
  ghost function Finish(m: Manager, i: nat, os: Os, count: nat): Manager {
    if i >= |m.entries| then m
    else Sweeping(m.pool, m.entries[..i], m.lost, m.entries[i..], os, count, false)
  }

  lemma {:induction false} ZeroCountKeeps(p: Pool, es: seq<Entry>, os: Os)
    ensures var (p', vs) := Sweep(p, es, os, 0, false);
            p' == p && Survivors(vs) == es && LostBy(vs) == multiset{}
  {
    if es != [] {
      ZeroCountKeeps(p, es[1..], os);
      var vs := Sweep(p, es[1..], os, 0, false).1;
      assert ([Verdict(es[0], NotReached)] + vs)[1..] == vs;
    }
  }

  lemma SweepingNothing(p: Pool, front: seq<Entry>, lost: multiset<Pointer>, rest: seq<Entry>, os: Os)
    ensures Sweeping(p, front, lost, rest, os, 0, false) == Manager(p, front + rest, lost)
  {
    ZeroCountKeeps(p, rest, os);
  }

  lemma PassEnd(m: Manager, i: nat, os: Os, count: nat)
    requires count == 0 || i >= |m.entries|
    ensures Finish(m, i, os, count) == m
  {
    if i < |m.entries| {
      SweepingNothing(m.pool, m.entries[..i], m.lost, m.entries[i..], os);
      assert m.entries[..i] + m.entries[i..] == m.entries;
    }
  }

  lemma FinishAt(m: Manager, front: seq<Entry>, rest: seq<Entry>, os: Os, count: nat)
    requires m.entries == front + rest
    ensures Finish(m, |front|, os, count) == Sweeping(m.pool, front, m.lost, rest, os, count, false)
  {
  }

  lemma {:induction false} SweepVisit(p: Pool, front: seq<Entry>, lost: multiset<Pointer>,
                                      e: Entry, rest: seq<Entry>, os: Os, count: nat, left: nat)
    requires count > 0 && left == if HasEvent(e, os) then count - 1 else count
    ensures var v := Visit(p, e, os(e.ctx.handle));
            Sweeping(p, front, lost, [e] + rest, os, count, false) ==
            Sweeping(v.pool, if v.removed then front else front + [v.entry],
                     if v.removed then lost + Holding(v.entry) else lost, rest, os, left, v.removed)
  {
    var v := Visit(p, e, os(e.ctx.handle));
    var vs := Sweep(v.pool, rest, os, left, v.removed).1;
    var head := Verdict(v.entry, if v.removed then Removed else Kept);
    assert ([e] + rest)[1..] == rest;
    assert Sweep(p, [e] + rest, os, count, false).1 == [head] + vs;
    assert ([head] + vs)[1..] == vs;
    if !v.removed {
      assert front + ([v.entry] + Survivors(vs)) == front + [v.entry] + Survivors(vs);
    } else {
      assert [] + Survivors(vs) == Survivors(vs);
    }
  }

  lemma SweepSkip(p: Pool, front: seq<Entry>, lost: multiset<Pointer>, e: Entry, rest: seq<Entry>, os: Os, count: nat)
    ensures Sweeping(p, front, lost, [e] + rest, os, count, true)
         == Sweeping(p, front + [e], lost, rest, os, count, false)
  {
  }

  lemma KeptStep(m: Manager, i: nat, os: Os, left: nat)
    requires i < |m.entries| && !Visit(m.pool, m.entries[i], os(m.entries[i].ctx.handle)).removed
    ensures var v := Visit(m.pool, m.entries[i], os(m.entries[i].ctx.handle));
            Finish(VisitedAt(m, i, os), i + 1, os, left) ==
            Sweeping(v.pool, m.entries[..i] + [v.entry], m.lost, m.entries[i + 1..], os, left, false)
  {
  }

  lemma RemovedStep(m: Manager, i: nat, os: Os, left: nat)
    requires i < |m.entries| && Visit(m.pool, m.entries[i], os(m.entries[i].ctx.handle)).removed
    ensures var v := Visit(m.pool, m.entries[i], os(m.entries[i].ctx.handle));
            Finish(VisitedAt(m, i, os), i + 1, os, left) ==
            Sweeping(v.pool, m.entries[..i], m.lost + Holding(v.entry), m.entries[i + 1..], os, left, true)
  {
    var v := Visit(m.pool, m.entries[i], os(m.entries[i].ctx.handle));
    var m' := VisitedAt(m, i, os);
    var front, rest := m.entries[..i], m.entries[i + 1..];
    if rest == [] {
      PassEnd(m', i + 1, os, left);
      assert m'.entries == front + [];
    } else {
      assert rest == [rest[0]] + rest[1..];
      SweepSkip(v.pool, front, m'.lost, rest[0], rest[1..], os, left);
      assert m'.entries == (front + [rest[0]]) + rest[1..];
      FinishAt(m', front + [rest[0]], rest[1..], os, left);
    }
  }

  /** One round of the loop brings the manager one step nearer to the sweep's result, erasures included. */
  lemma {:induction false} PassStep(m: Manager, i: nat, os: Os, count: nat, left: nat)
    requires i < |m.entries| && count > 0
    requires left == if HasEvent(m.entries[i], os) then count - 1 else count
    ensures Finish(VisitedAt(m, i, os), i + 1, os, left) == Finish(m, i, os, count)
  {
    var e, rest := m.entries[i], m.entries[i + 1..];
    assert m.entries[i..] == [e] + rest;
    SweepVisit(m.pool, m.entries[..i], m.lost, e, rest, os, count, left);
    if Visit(m.pool, e, os(e.ctx.handle)).removed {
      RemovedStep(m, i, os, left);
    } else {
      KeptStep(m, i, os, left);
    }
  }

  ghost function Left(m: Manager, i: nat, os: Os, count: nat): nat
    requires i < |m.entries| && count > 0
  {
    if HasEvent(m.entries[i], os) then count - 1 else count
  }

  /** The index loop itself, round by round. */
  ghost function Looped(m: Manager, i: nat, os: Os, count: nat): Manager
    decreases |m.entries| - i
  {
    if i >= |m.entries| || count == 0 then m else Looped(VisitedAt(m, i, os), i + 1, os, Left(m, i, os, count))
  }

  lemma LoopEnds(m: Manager, i: nat, os: Os, count: nat)
    requires i >= |m.entries| || count == 0
    ensures Looped(m, i, os, count) == m
  {
  }

  /** Every round of the loop finds a receive slot, and is answered with no more than fits it. */
  ghost predicate LoopSafe(m: Manager, i: nat, os: Os, count: nat)
    decreases |m.entries| - i
  {
    i < |m.entries| && count > 0 ==>
      && HasSlot(State(m.pool, m.entries[i].ctx)) && |os(m.entries[i].ctx.handle).incoming| <= m.pool.size
      && LoopSafe(VisitedAt(m, i, os), i + 1, os, Left(m, i, os, count))
  }

  /** Erasing while iterating by index does what the sweep says. */
  lemma {:induction false} LoopIsSweep(m: Manager, i: nat, os: Os, count: nat)
    ensures Looped(m, i, os, count) == Finish(m, i, os, count)
    decreases |m.entries| - i
  {
    if i >= |m.entries| || count == 0 {
      PassEnd(m, i, os, count);
    } else {
      LoopIsSweep(VisitedAt(m, i, os), i + 1, os, Left(m, i, os, count));
      PassStep(m, i, os, count, Left(m, i, os, count));
    }
  }

  // ----- Every operation keeps the manager whole -----

  lemma {:induction false} HoldingsAppend(es: seq<Entry>, e: Entry)
    ensures Holdings(es + [e]) == Holdings(es) + Holding(e)
  {
    if es == [] {
      assert es + [e] == [e];
    } else {
      assert (es + [e])[1..] == es[1..] + [e];
      HoldingsAppend(es[1..], e);
    }
  }

  lemma {:induction false} HoldingsSame(es: seq<Entry>, es': seq<Entry>)
    requires |es| == |es'| && forall k :: 0 <= k < |es| ==> Holding(es[k]) == Holding(es'[k])
    ensures Holdings(es) == Holdings(es')
  {
    if es != [] {
      HoldingsSame(es[1..], es'[1..]);
    }
  }

  lemma HoldingsCons(e: Entry, es: seq<Entry>)
    ensures Holdings([e] + es) == Holding(e) + Holdings(es)
  {
  }

  lemma {:induction false} SurvivorsHold(vs: seq<Verdict>)
    ensures Holdings(Entries(vs)) == Holdings(Survivors(vs)) + LostBy(vs)
  {
    if vs != [] {
      var v, rest := vs[0], vs[1..];
      SurvivorsHold(rest);
      HoldingsCons(v.entry, Entries(rest));
      HoldingsCons(v.entry, Survivors(rest));
      if v.tag == Removed {
        assert [] + Survivors(rest) == Survivors(rest);
        Regroup(Holdings(Survivors(rest)), LostBy(rest), Holding(v.entry));
      }
    }
  }

  lemma Regroup(a: multiset<Pointer>, b: multiset<Pointer>, c: multiset<Pointer>)
    ensures c + (a + b) == a + (c + b) == a + b + c
  {
  }

  lemma {:induction false} SurvivorsOk(p: Pool, vs: seq<Verdict>)
    requires forall k :: 0 <= k < |vs| ==> VerdictOk(p, vs[k])
    ensures AllOk(p, Survivors(vs))
  {
    if vs != [] {
      SurvivorsOk(p, vs[1..]);
      assert VerdictOk(p, vs[0]);
    }
  }

  lemma NewEntryOk(s: State, others: multiset<Pointer>, handle: nat)
    requires s.ctx == NewContext(handle) && PoolOk(s.pool, others)
    ensures var s' := StartedRead(s);
            && PoolOk(s'.pool, others + Bag(s')) && Untouched(s.pool, s'.pool, others) && s'.pool.size == s.pool.size
            && EntryOk(s'.pool, Entry(s'.ctx, false))
  {
    StartedReadKeeps(s, others);
  }

  lemma AllOkAppend(p: Pool, es: seq<Entry>, e: Entry)
    requires AllOk(p, es) && EntryOk(p, e)
    ensures AllOk(p, es + [e])
  {
  }

  lemma AddedKeeps(m: Manager, handle: nat)
    requires ManagerOk(m)
    ensures ManagerOk(Added(m, handle))
  {
    var held := Holdings(m.entries) + m.lost;
    var s0 := State(m.pool, NewContext(handle));
    NewEntryOk(s0, held, handle);
    var s := StartedRead(s0);
    var e := Entry(s.ctx, false);
    AllStay(m.pool, s.pool, m.entries);
    AllOkAppend(s.pool, m.entries, e);
    HoldingsAppend(m.entries, e);
    assert Holdings(m.entries + [e]) + m.lost == held + Bag(s);
  }

  lemma ConnKeeps(m: Manager, i: nat, conn: Conn)
    requires ManagerOk(m) && i < |m.entries| && conn.status == Init
    requires conn.inbox == m.entries[i].ctx.conn.inbox
    requires PollSendOk(m.entries[i].ctx.(conn := conn), m.entries[i].wantsWrite)
    ensures ManagerOk(WithConn(m, i, conn))
  {
    HoldingsSame(m.entries, WithConn(m, i, conn).entries);
    assert EntryOk(m.pool, m.entries[i]);
  }

  lemma {:induction false} SentKeeps(m: Manager, i: nat, message: string)
    requires ManagerOk(m) && i < |m.entries|
    ensures ManagerOk(WithConn(m, i, Enqueued(m.entries[i].ctx.conn, message)))
  {
    assert EntryOk(m.pool, m.entries[i]);
    PollEnqueueKeeps(m.entries[i].ctx, m.entries[i].wantsWrite, message);
    ConnKeeps(m, i, Enqueued(m.entries[i].ctx.conn, message));
  }

  lemma UpdatedKeeps(m: Manager, i: nat)
    requires ManagerOk(m) && i < |m.entries|
    ensures ManagerOk(WithConn(m, i, Updated(m.entries[i].ctx.conn)))
  {
    var c := m.entries[i].ctx;
    assert EntryOk(m.pool, m.entries[i]);
    SameSendSide(c, c.(conn := Updated(c.conn)), m.entries[i].wantsWrite);
    ConnKeeps(m, i, Updated(c.conn));
  }

  ghost function UpdatedEntry(e: Entry): Entry {
    e.(ctx := e.ctx.(conn := Updated(e.ctx.conn)))
  }

  /** Every connection behind an entry updated. */
  ghost function AllUpdated(es: seq<Entry>): (r: seq<Entry>)
    ensures |r| == |es| && forall k :: 0 <= k < |es| ==> r[k] == UpdatedEntry(es[k])
  {
    if es == [] then [] else [UpdatedEntry(es[0])] + AllUpdated(es[1..])
  }

  lemma {:induction false} AllUpdatedKeeps(m: Manager)
    requires ManagerOk(m)
    ensures ManagerOk(m.(entries := AllUpdated(m.entries)))
  {
    HoldingsSame(m.entries, AllUpdated(m.entries));
    forall k | 0 <= k < |m.entries|
      ensures EntryOk(m.pool, AllUpdated(m.entries)[k])
    {
      var c := m.entries[k].ctx;
      assert EntryOk(m.pool, m.entries[k]);
      SameSendSide(c, c.(conn := Updated(c.conn)), m.entries[k].wantsWrite);
    }
  }

  lemma {:induction false} ProcessedSendKeeps(m: Manager)
    requires ManagerOk(m)
    ensures ManagerOk(m.(entries := ProcessedSend(m.entries)))
  {
    HoldingsSame(m.entries, ProcessedSend(m.entries));
    forall k | 0 <= k < |m.entries|
      ensures EntryOk(m.pool, ProcessedSend(m.entries)[k])
    {
      assert EntryOk(m.pool, m.entries[k]);
      PollStartKeeps(m.entries[k].ctx, m.entries[k].wantsWrite);
    }
  }

  lemma {:induction false} HoldingsSplit(front: seq<Entry>, rest: seq<Entry>)
    ensures Holdings(front + rest) == Holdings(front) + Holdings(rest)
  {
    if front == [] {
      assert front + rest == rest;
    } else {
      assert (front + rest)[1..] == front[1..] + rest;
      HoldingsSplit(front[1..], rest);
    }
  }

  lemma HoldingsInsert(front: seq<Entry>, e: Entry, back: seq<Entry>)
    ensures Holdings(front + ([e] + back)) == Holdings(front + back) + Holding(e)
  {
    HoldingsSplit(front, back);
    HoldingsSplit(front, [e] + back);
    HoldingsCons(e, back);
    Regroup(Holdings(front), Holdings(back), Holding(e));
  }

  /** The entries other than the `i`-th hold the rest. */
  lemma HoldingsAround(es: seq<Entry>, i: nat, e: Entry)
    requires i < |es|
    ensures Holdings(es[i := e]) == Holdings(Erased(es, i)) + Holding(e)
  {
    assert es[i := e] == es[..i] + ([e] + es[i + 1..]);
    HoldingsInsert(es[..i], e, es[i + 1..]);
  }

  lemma Replaced(p: Pool, es: seq<Entry>, i: nat, e: Entry)
    requires i < |es| && AllOk(p, Erased(es, i)) && EntryOk(p, e)
    ensures AllOk(p, es[i := e])
  {
    var es' := es[i := e];
    forall k | 0 <= k < |es'|
      ensures EntryOk(p, es'[k])
    {
      if k != i {
        assert es'[k] == Erased(es, i)[if k < i then k else k - 1];
      }
    }
  }

  lemma ErasedOk(p: Pool, es: seq<Entry>, i: nat)
    requires i < |es| && AllOk(p, es)
    ensures AllOk(p, Erased(es, i))
  {
  }

  lemma AfterOk(m: Manager, i: nat, v: Visited)
    requires i < |m.entries| && AllOk(v.pool, Erased(m.entries, i))
    requires PoolOk(v.pool, Holdings(Erased(m.entries, i)) + m.lost + Holding(v.entry))
    requires !v.removed ==> EntryOk(v.pool, v.entry)
    ensures ManagerOk(After(m, i, v))
  {
    var rest := Holdings(Erased(m.entries, i));
    if v.removed {
      assert rest + m.lost + Holding(v.entry) == rest + (m.lost + Holding(v.entry));
    } else {
      HoldingsAround(m.entries, i, v.entry);
      assert rest + m.lost + Holding(v.entry) == rest + Holding(v.entry) + m.lost;
      Replaced(v.pool, m.entries, i, v.entry);
    }
  }

  lemma {:induction false} VisitedAtKeeps(m: Manager, i: nat, os: Os)
    requires ManagerOk(m) && i < |m.entries| && AnswerOk(m.entries[i], os(m.entries[i].ctx.handle), m.pool.size)
    ensures ManagerOk(VisitedAt(m, i, os)) && VisitedAt(m, i, os).pool.size == m.pool.size
  {
    var e, rest := m.entries[i], Erased(m.entries, i);
    HoldingsAround(m.entries, i, e);
    assert m.entries[i := e] == m.entries;
    assert Holdings(rest) + m.lost + Holding(e) == Holdings(m.entries) + m.lost;
    VisitKeeps(m.pool, e, os(e.ctx.handle), Holdings(rest) + m.lost);
    ErasedOk(m.pool, m.entries, i);
    AllStay(m.pool, Visit(m.pool, e, os(e.ctx.handle)).pool, rest);
    AfterOk(m, i, Visit(m.pool, e, os(e.ctx.handle)));
  }

  /** The operating system's answers for the entries from index `i` on are possible ones. */
  ghost predicate AnswersFrom(m: Manager, i: nat, os: Os) {
    forall k :: i <= k < |m.entries| ==> AnswerOk(m.entries[k], os(m.entries[k].ctx.handle), m.pool.size)
  }

  lemma RemovalMarks(p: Pool, e: Entry, a: Answer)
    requires Visit(p, e, a).removed
    ensures Visit(p, e, a).entry.ctx.conn.status == MarkForClose
  {
  }

  lemma AnswersNext(m: Manager, i: nat, v: Visited, os: Os)
    requires i < |m.entries| && AnswersFrom(m, i, os) && v.pool.size == m.pool.size
    ensures AnswersFrom(After(m, i, v), i + 1, os)
  {
  }

  lemma RoundKeeps(m: Manager, i: nat, os: Os)
    requires ManagerOk(m) && i < |m.entries| && AnswersFrom(m, i, os)
    ensures HasSlot(State(m.pool, m.entries[i].ctx))
    ensures |os(m.entries[i].ctx.handle).incoming| <= m.pool.size
    ensures ManagerOk(VisitedAt(m, i, os)) && AnswersFrom(VisitedAt(m, i, os), i + 1, os)
  {
    assert EntryOk(m.pool, m.entries[i]) && AnswerOk(m.entries[i], os(m.entries[i].ctx.handle), m.pool.size);
    VisitedAtKeeps(m, i, os);
    AnswersNext(m, i, Visit(m.pool, m.entries[i], os(m.entries[i].ctx.handle)), os);
  }

  lemma {:induction false} LoopIsSafe(m: Manager, i: nat, os: Os, count: nat)
    requires ManagerOk(m) && AnswersFrom(m, i, os)
    ensures LoopSafe(m, i, os, count)
    decreases |m.entries| - i
  {
    if i < |m.entries| && count > 0 {
      RoundKeeps(m, i, os);
      LoopIsSafe(VisitedAt(m, i, os), i + 1, os, Left(m, i, os, count));
    }
  }

  lemma {:induction false} HandledKeeps(m: Manager, os: Os, count: nat)
    requires ManagerOk(m) && AnswersOk(ProcessedSend(m.entries), os, m.pool.size)
    ensures ManagerOk(Handled(m, os, count))
  {
    ProcessedSendKeeps(m);
    if count > 0 {
      var started := ProcessedSend(m.entries);
      assert Holdings(started) + m.lost == m.lost + Holdings(started);
      SweepKeeps(m.pool, started, os, count, false, m.lost);
      var (p, vs) := Sweep(m.pool, started, os, count, false);
      SurvivorsHold(vs);
      SurvivorsOk(p, vs);
      assert m.lost + (Holdings(Survivors(vs)) + LostBy(vs)) == Holdings(Survivors(vs)) + (m.lost + LostBy(vs));
    }
  }

  // ----- Runs -----

  datatype ManagerOp =
    | AddOp(handle: nat)
    | SendOp(index: nat, message: string)
    | UpdateOp(index: nat)
    | HandleOp(os: Os, count: nat)

  /** What is possible next; of the operating system only what `AnswersOk` says is assumed. */
  ghost predicate Possible(m: Manager, op: ManagerOp) {
    match op
    case AddOp(_) => true
    case SendOp(i, _) => i < |m.entries|
    case UpdateOp(i) => i < |m.entries|
    case HandleOp(os, _) => AnswersOk(ProcessedSend(m.entries), os, m.pool.size)
  }

  ghost function ManagerStep(m: Manager, op: ManagerOp): Manager
    requires Possible(m, op)
  {
    match op
    case AddOp(handle) => Added(m, handle)
    case SendOp(i, message) => WithConn(m, i, Enqueued(m.entries[i].ctx.conn, message))
    case UpdateOp(i) => WithConn(m, i, Updated(m.entries[i].ctx.conn))
    case HandleOp(os, count) => Handled(m, os, count)
  }

  ghost predicate Reaches(m: Manager, ops: seq<ManagerOp>, m': Manager)
    decreases |ops|
  {
    if ops == [] then m' == m else Possible(m, ops[0]) && Reaches(ManagerStep(m, ops[0]), ops[1..], m')
  }

  ghost predicate Initial(m: Manager) {
    PoolOk(m.pool, multiset{}) && m.entries == [] && m.lost == multiset{}
  }

  lemma StepKeeps(m: Manager, op: ManagerOp)
    requires ManagerOk(m) && Possible(m, op)
    ensures ManagerOk(ManagerStep(m, op))
  {
    match op
    case AddOp(handle) => AddedKeeps(m, handle);
    case SendOp(i, message) => SentKeeps(m, i, message);
    case UpdateOp(i) => UpdatedKeeps(m, i);
    case HandleOp(os, count) => HandledKeeps(m, os, count);
  }

  lemma {:induction false} RunKeeps(m: Manager, ops: seq<ManagerOp>, m': Manager)
    requires ManagerOk(m) && Reaches(m, ops, m')
    ensures ManagerOk(m')
    decreases |ops|
  {
    if ops != [] {
      StepKeeps(m, ops[0]);
      RunKeeps(ManagerStep(m, ops[0]), ops[1..], m');
    }
  }

  /** In every reachable state the manager is whole. */
  lemma ReachableIsOk(m: Manager, ops: seq<ManagerOp>, m': Manager)
    requires Initial(m) && Reaches(m, ops, m')
    ensures ManagerOk(m')
  {
    RunKeeps(m, ops, m');
  }

  /**
    Buffer ownership in every reachable state: a storage node is either free, or in the chain of
    one live context, or was in the chain of one removed context, and never two of these or one
    of them twice; and no pointer of another kind ever enters the pool or a chain.
   */
  lemma OwnershipEverywhere(m: Manager, ops: seq<ManagerOp>, m': Manager, b: Pointer)
    requires Initial(m) && Reaches(m, ops, m')
    ensures multiset(m'.pool.free)[b] + Holdings(m'.entries)[b] + m'.lost[b] == if m'.pool.Has(b) then 1 else 0
  {
    ReachableIsOk(m, ops, m');
    NodesCount(|m'.pool.bytes|, b);
    assert (multiset(m'.pool.free) + (Holdings(m'.entries) + m'.lost))[b]
        == multiset(m'.pool.free)[b] + Holdings(m'.entries)[b] + m'.lost[b];
  }

  // ----- The buffers of removed contexts -----

  /** How many contexts a pass removed. */
  ghost function RemovedIn(vs: seq<Verdict>): nat {
    if vs == [] then 0 else (if vs[0].tag == Removed then 1 else 0) + RemovedIn(vs[1..])
  }

  ghost predicate Chained(e: Entry) {
    e.ctx.receive.buffers != []
  }

  lemma VisitLeavesChain(p: Pool, e: Entry, a: Answer)
    requires Chained(e)
    ensures Chained(Visit(p, e, a).entry)
  {
    hide Join, Take;
  }

  /** Each context that a pass removes takes at least its receive slot with it. */
  lemma {:induction false} RemovedLose(p: Pool, es: seq<Entry>, os: Os, count: nat, skip: bool)
    requires forall k :: 0 <= k < |es| ==> Chained(es[k])
    ensures var vs := Sweep(p, es, os, count, skip).1;
            |LostBy(vs)| >= RemovedIn(vs) && (RemovedIn(vs) == 0 ==> LostBy(vs) == multiset{})
    decreases |es|
  {
    if es != [] {
      var e, rest := es[0], es[1..];
      var vs := Sweep(p, es, os, count, skip).1;
      if skip || count == 0 {
        RemovedLose(p, rest, os, count, false);
        assert vs[1..] == Sweep(p, rest, os, count, false).1;
      } else {
        var a := os(e.ctx.handle);
        var v := Visit(p, e, a);
        var left := if a.ready.IsChanged() then count - 1 else count;
        VisitLeavesChain(p, e, a);
        RemovedLose(v.pool, rest, os, left, v.removed);
        assert vs[1..] == Sweep(v.pool, rest, os, left, v.removed).1;
      }
    }
  }

  ghost function RemovedBy(m: Manager, op: ManagerOp): nat {
    if op.HandleOp? && op.count > 0 then
      RemovedIn(Sweep(m.pool, ProcessedSend(m.entries), op.os, op.count, false).1)
    else 0
  }

  /** How many contexts the passes of a run removed. */
  ghost function Removals(m: Manager, ops: seq<ManagerOp>): nat
    decreases |ops|
  {
    if ops == [] || !Possible(m, ops[0]) then 0
    else RemovedBy(m, ops[0]) + Removals(ManagerStep(m, ops[0]), ops[1..])
  }

  lemma StepLoses(m: Manager, op: ManagerOp)
    requires ManagerOk(m) && Possible(m, op)
    ensures var m' := ManagerStep(m, op);
            && m.lost <= m'.lost && |m'.lost| >= |m.lost| + RemovedBy(m, op)
            && (RemovedBy(m, op) == 0 ==> m'.lost == m.lost)
  {
    if op.HandleOp? && op.count > 0 {
      forall k | 0 <= k < |m.entries|
        ensures Chained(ProcessedSend(m.entries)[k])
      {
        assert EntryOk(m.pool, m.entries[k]);
      }
      RemovedLose(m.pool, ProcessedSend(m.entries), op.os, op.count, false);
    }
  }

  lemma {:induction false} RunLoses(m: Manager, ops: seq<ManagerOp>, m': Manager)
    requires ManagerOk(m) && Reaches(m, ops, m')
    ensures m.lost <= m'.lost && |m'.lost| >= |m.lost| + Removals(m, ops)
    ensures Removals(m, ops) == 0 ==> m'.lost == m.lost
    decreases |ops|
  {
    if ops != [] {
      StepLoses(m, ops[0]);
      StepKeeps(m, ops[0]);
      hide ManagerOk, RemovedBy;
      RunLoses(ManagerStep(m, ops[0]), ops[1..], m');
    }
  }

  /**
    The receive buffers of a removed context never return: once lost, a buffer is lost in every
    later state, never free and never in a chain again.
   */
  lemma LostForever(m: Manager, ops: seq<ManagerOp>, m1: Manager, more: seq<ManagerOp>, m2: Manager, b: Pointer)
    requires Initial(m) && Reaches(m, ops, m1) && Reaches(m1, more, m2) && b in m1.lost
    ensures m1.lost <= m2.lost && b !in m2.pool.free && b !in Holdings(m2.entries)
  {
    RunKeeps(m, ops, m1);
    RunLoses(m1, more, m2);
    RunKeeps(m1, more, m2);
    assert m2.lost[b] >= m1.lost[b];
    OwnedMeans(m2.pool, Holdings(m2.entries) + m2.lost, b);
  }

  /** A run loses no buffer if and only if no pass of it removed a context. */
  lemma LostIffRemoved(m: Manager, ops: seq<ManagerOp>, m': Manager)
    requires Initial(m) && Reaches(m, ops, m')
    ensures m'.lost == multiset{} <==> Removals(m, ops) == 0
  {
    assert ManagerOk(m);
    RunLoses(m, ops, m');
  }

  /** It happens: a hang-up on the only connection loses its receive buffer. */
  lemma HangUpLoses(m: Manager, os: Os)
    requires m.entries == [] && os(7) == Answer(Ready(false, false, false, true, false), [], true)
    ensures Removals(Added(m, 7), [HandleOp(os, 1)]) == 1
  {
    var added := Added(m, 7);
    var started := ProcessedSend(added.entries);
    assert added.entries == [added.entries[0]] && started == [StartedEntry(added.entries[0])];
    assert started[0] == added.entries[0];
    assert AnswerOk(started[0], os(7), m.pool.size);
    HangUpRemoves(added.pool, started, os);
    assert [HandleOp(os, 1)][1..] == [];
    hide Sweep, Handled, Added;
    assert Removals(ManagerStep(added, HandleOp(os, 1)), []) == 0;
  }

  lemma HangUpRemoves(p: Pool, es: seq<Entry>, os: Os)
    requires |es| == 1 && os(es[0].ctx.handle) == Answer(Ready(false, false, false, true, false), [], true)
    ensures RemovedIn(Sweep(p, es, os, 1, false).1) == 1
  {
    assert Visit(p, es[0], os(es[0].ctx.handle)) == RemovedEntry(p, es[0]);
    assert es[1..] == [] && Sweep(p, es[1..], os, 0, true) == (p, []);
    var vs := Sweep(p, es, os, 1, false).1;
    assert vs == [Verdict(RemovedEntry(p, es[0]).entry, Removed)] + [];
    assert vs[1..] == [] && vs[0].tag == Removed;
  }

  /**
    Write interest in every reachable state: a set flag means the send context points at a
    message that is still queued, marked as handed over, and not among those transmitted; and every
    pointer of the send chain is to a message still queued.
   */
  lemma WriteInterestEverywhere(m: Manager, ops: seq<ManagerOp>, m': Manager, i: nat)
    requires Initial(m) && Reaches(m, ops, m') && i < |m'.entries|
    ensures var e := m'.entries[i];
            var conn := e.ctx.conn;
            QueueOk(conn) &&
            (forall k :: 0 <= k < |e.ctx.send.buffers| ==>
               e.ctx.send.buffers[k].Text? && Queued(conn, e.ctx.send.buffers[k].id)) &&
            (e.wantsWrite ==>
               && e.ctx.send.buffers != []
               && e.ctx.send.buffers[|e.ctx.send.buffers| - 1] == e.ctx.send.netBuffer.buf
               && e.ctx.send.netBuffer.buf == Text(Target(e.ctx)) && Queued(conn, Target(e.ctx))
               && conn.toSend[Target(e.ctx) - Dropped(conn)].sended
               && Target(e.ctx) !in e.ctx.wire)
  {
    ReachableIsOk(m, ops, m');
    var e := m'.entries[i];
    assert EntryOk(m'.pool, e);
    if e.wantsWrite {
      var ids := e.ctx.wire + [Target(e.ctx)];
      assert Handed(e.ctx.conn, ids[|e.ctx.wire|]);
      assert forall k :: 0 <= k < |e.ctx.wire| ==> ids[k] == e.ctx.wire[k];
    }
  }

  /**
    Send order in every reachable state: the numbers of the transmitted messages increase, the
    queue is as long as what was enqueued minus what was transmitted, and everything enqueued was
    transmitted, once each and in order, if and only if the queue is empty.
   */
  lemma SendOrderEverywhere(m: Manager, ops: seq<ManagerOp>, m': Manager, i: nat)
    requires Initial(m) && Reaches(m, ops, m') && i < |m'.entries|
    ensures var c := m'.entries[i].ctx;
            && Increasing(c.wire) && (forall k :: 0 <= k < |c.wire| ==> c.wire[k] < |c.conn.history|)
            && |c.conn.toSend| == |c.conn.history| - |c.wire|
            && (c.wire == seq(|c.conn.history|, k => k) <==> c.conn.toSend == [])
  {
    ReachableIsOk(m, ops, m');
    var c := m'.entries[i].ctx;
    assert EntryOk(m'.pool, m'.entries[i]);
    assert forall k :: 0 <= k < |c.wire| ==> Handed(c.conn, c.wire[k]);
    DeliveredIffDrained(c.conn, c.wire);
  }

  /**
    Framing in every reachable state, whatever the other connections of the pool did: what a
    connection received is what its own reads frame to, its receive slot is the end of its
    chain and offers a whole buffer; and the messages received so far are those of the byte stream
    if and only if every read up to the last one that ended a message was aligned, and no NUL came since.
   */
  lemma FramingEverywhere(m: Manager, ops: seq<ManagerOp>, m': Manager, i: nat)
    requires Initial(m) && Reaches(m, ops, m') && i < |m'.entries|
    ensures var c := m'.entries[i].ctx;
            && c.conn.inbox == Framed(c.log).inbox
            && c.receive.buffers != []
            && c.receive.netBuffer == NetBuffer(m'.pool.size, c.receive.buffers[|c.receive.buffers| - 1])
            && (c.conn.inbox == SplitAtNuls(Stream(c.log)).messages <==>
                AllAligned(c.log[..LastEnd(c.log)]) && NUL !in Stream(c.log[LastEnd(c.log)..]))
  {
    ReachableIsOk(m, ops, m');
    assert EntryOk(m'.pool, m'.entries[i]);
    ExactFraming(m'.entries[i].ctx.log);
  }
}
