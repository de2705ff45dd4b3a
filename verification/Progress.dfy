/**
  What one pass and one completion do for each connection, told by what the operating system
  answered: nobody's bytes, sends or disconnections are left aside, except where the erasing loop
  passes an entry over.
 */
module Progress {
  import opened Memory
  import opened BufferPools
  import opened Framing
  import opened Connections
  import opened Contexts
  import opened EventHandlers
  import opened Receiving
  import opened Sending
  import opened EventTables
  import opened EventPass
  import opened SendRuns
  import P = PollManagerStates
  import I = IocpManagerStates

  /** One more read, of these bytes. */
  ghost predicate OneMoreRead(log: seq<Read>, log': seq<Read>, data: seq<char>) {
    |log'| == |log| + 1 && log'[..|log|] == log && Data(log'[|log|]) == data
  }

  // ----- Poll and select -----

  /** In every reachable state the write flag stands for the newest message. */
  lemma SideEverywhere(m: P.Manager, ops: seq<P.ManagerOp>, m': P.Manager, i: nat)
    requires P.Initial(m) && P.Reaches(m, ops, m') && i < |m'.entries|
    ensures PollSideOk(SideOf(m'.entries[i]))
  {
    var at, m1 := Origin(m, ops, m', i);
    NewSide(m1, ops[at].handle);
    hide PollSideOk, P.Added;
    RunFollows(P.Added(m1, ops[at].handle), ops[at + 1..], m', |m1.entries|);
  }

  lemma NewSide(m: P.Manager, handle: nat)
    ensures |P.Added(m, handle).entries| == |m.entries| + 1
    ensures PollSideOk(SideOf(P.Added(m, handle).entries[|m.entries|]))
  {
    assert P.Added(m, handle).entries[|m.entries|].ctx.conn == FRESH;
  }

  lemma StartedSide(e: Entry)
    requires PollSideOk(SideOf(e))
    ensures var s := P.StartedEntry(e);
            && PollSendOk(s.ctx, s.wantsWrite) && s.ctx.wire == e.ctx.wire && s.ctx.log == e.ctx.log
            && s.ctx.conn.history == e.ctx.conn.history && s.ctx.handle == e.ctx.handle
            && (s.wantsWrite <==> Untransmitted(e.ctx) == 1)
            && (s.wantsWrite ==>
                  && Target(s.ctx) == |e.ctx.conn.history| - 1
                  && s.ctx.send.netBuffer == Whole(e.ctx.conn.history, |e.ctx.conn.history| - 1)
                  && s.ctx.conn.toSend != [])
  {
    StartPasses(SideOf(e));
    var s := P.StartedEntry(e);
    if s.wantsWrite {
      var ids := s.ctx.wire + [Target(s.ctx)];
      assert forall k :: 0 <= k < |s.ctx.wire| ==> s.ctx.wire[k] == ids[k] && ids[k] < ids[|s.ctx.wire|];
      assert Handed(s.ctx.conn, ids[|s.ctx.wire|]);
    }
  }

  /**
    In every reachable state, once the sends are started: an entry asks for writability if and only if
    its newest message has not been transmitted, and then that message, whole, is what it will send.
   */
  lemma FlagIffUntransmitted(m: P.Manager, ops: seq<P.ManagerOp>, m': P.Manager, i: nat)
    requires P.Initial(m) && P.Reaches(m, ops, m') && i < |m'.entries|
    ensures var c, s := m'.entries[i].ctx, P.ProcessedSend(m'.entries)[i];
            && (s.wantsWrite <==> c.conn.history != [] && |c.conn.history| - 1 !in c.wire)
            && (s.wantsWrite ==> s.ctx.send.netBuffer == Whole(c.conn.history, |c.conn.history| - 1))
  {
    SideEverywhere(m, ops, m', i);
    StartedSide(m'.entries[i]);
  }

  /** The visit that a sweep makes of an entry finds the entry and its buffers in order. */
  ghost predicate WellVisited(q: Pool, e: Entry, os: Os, size: nat, v: Verdict) {
    EntryOk(q, e) && q.WellSized() && q.size == size && VisitedWith(q, e, os, v)
  }

  lemma {:induction false} SweepVisitsWell(p: Pool, es: seq<Entry>, os: Os, count: nat, skip: bool,
                                           others: multiset<Pointer>, k: nat)
    requires PoolOk(p, others + Holdings(es)) && AllOk(p, es) && AnswersOk(es, os, p.size) && k < |es|
    ensures var vs := Sweep(p, es, os, count, skip).1;
            |vs| == |es| && (!Unvisited(vs[k]) ==> exists q :: WellVisited(q, es[k], os, p.size, vs[k]))
    decreases |es|
  {
    SweepShape(p, es, os, count, skip);
    var e, rest := es[0], es[1..];
    var vs := Sweep(p, es, os, count, skip).1;
    assert others + Holdings(es) == others + Holding(e) + Holdings(rest);
    if skip || count == 0 {
      if k > 0 {
        SweepVisitsWell(p, rest, os, count, false, others + Holding(e), k - 1);
        assert vs[1..] == Sweep(p, rest, os, count, false).1;
      }
    } else if k == 0 {
      assert WellVisited(p, e, os, p.size, vs[0]);
    } else {
      VisitedThenWell(p, es, os, count, others, k);
    }
  }

  lemma {:induction false} VisitedThenWell(p: Pool, es: seq<Entry>, os: Os, count: nat,
                                           others: multiset<Pointer>, k: nat)
    requires PoolOk(p, others + Holdings(es)) && AllOk(p, es) && AnswersOk(es, os, p.size)
    requires 0 < k < |es| && count > 0
    ensures var vs := Sweep(p, es, os, count, false).1;
            |vs| == |es| && (!Unvisited(vs[k]) ==> exists q :: WellVisited(q, es[k], os, p.size, vs[k]))
    decreases |es|, 0
  {
    hide EntryOk, PoolOk, Untouched;
    var e, rest := es[0], es[1..];
    var a := os(e.ctx.handle);
    var v := Visit(p, e, a);
    var left := if a.ready.IsChanged() then count - 1 else count;
    assert others + Holdings(es) == others + Holdings(rest) + Holding(e);
    VisitKeeps(p, e, a, others + Holdings(rest));
    AllStay(p, v.pool, rest);
    assert others + Holdings(rest) + Holding(v.entry) == others + Holding(v.entry) + Holdings(rest);
    SweepVisitsWell(v.pool, rest, os, left, v.removed, others + Holding(v.entry), k - 1);
    assert Sweep(p, es, os, count, false).1[1..] == Sweep(v.pool, rest, os, left, v.removed).1;
  }

  lemma {:induction false} NoneWithoutCount(es: seq<Entry>, os: Os, k: nat)
    requires Events(es, os) == 0 && k < |es|
    ensures !HasEvent(es[k], os)
  {
    if k > 0 {
      NoneWithoutCount(es[1..], os, k - 1);
    }
  }

  /** The answer closes the connection. */
  ghost predicate Closes(a: Answer) {
    || (a.ready.read && a.incoming == []) || a.ready.hangup || a.ready.except
    || (a.ready.write && !a.sendOk)
  }

  /** What a round does for an entry whose send was started, told by the answer alone. */
  ghost predicate RoundDoes(c: Ctx, a: Answer, c': Ctx) {
    && (if a.ready.read then OneMoreRead(c.log, c'.log, a.incoming) else c'.log == c.log)
    && c'.wire == c.wire + if a.ready.write then [|c.conn.history| - 1] else []
  }

  lemma VisitIsRound(q: Pool, e: Entry, os: Os, v: Verdict)
    requires PollSideOk(SideOf(e)) && WellVisited(q, P.StartedEntry(e), os, q.size, v)
    requires AnswerOk(P.StartedEntry(e), os(e.ctx.handle), q.size)
    ensures v.tag == Removed <==> Closes(os(e.ctx.handle))
    ensures v.tag != Removed ==> RoundDoes(e.ctx, os(e.ctx.handle), v.entry.ctx)
  {
    var s, a := P.StartedEntry(e), os(e.ctx.handle);
    StartedSide(e);
    SlotIsWhole(q, s);
    hide EntryOk, PollSideOk, Visit, P.StartedEntry;
    VisitRemovesIff(q, s, a);
    VisitDoes(q, s, a);
  }

  lemma SlotIsWhole(q: Pool, e: Entry)
    requires EntryOk(q, e) && q.WellSized()
    ensures HasSlot(State(q, e.ctx)) && |Slot(State(q, e.ctx))| == q.size
  {
  }

  /** An entry is reached by a pass unless the one before it was removed in that pass. */
  ghost predicate Reached(m: P.Manager, op: P.ManagerOp, k: nat)
    requires k < |m.entries|
  {
    k == 0 || Next(m, op, k - 1).At?
  }

  /** The verdict on an entry, told by the answer. */
  ghost predicate Decided(c: Ctx, a: Answer, reached: bool, v: Verdict) {
    && (v.tag == Removed <==> reached && Closes(a))
    && (v.tag != Removed ==>
          if reached then RoundDoes(c, a, v.entry.ctx)
          else v.entry.ctx.log == c.log && v.entry.ctx.wire == c.wire)
  }

  lemma QuietDoes(c: Ctx, c': Ctx, a: Answer)
    requires a.ready == QUIET && c'.log == c.log && c'.wire == c.wire
    ensures !Closes(a) && RoundDoes(c, a, c')
  {
  }

  lemma SweepDecides(m: P.Manager, os: Os, count: nat, k: nat)
    requires P.ManagerOk(m) && AnswersOk(P.ProcessedSend(m.entries), os, m.pool.size)
    requires Events(P.ProcessedSend(m.entries), os) <= count
    requires k < |m.entries| && PollSideOk(SideOf(m.entries[k]))
    ensures var started := P.ProcessedSend(m.entries);
            var vs := Sweep(m.pool, started, os, count, false).1;
            && |vs| == |m.entries|
            && Decided(m.entries[k].ctx, os(m.entries[k].ctx.handle), k == 0 || vs[k - 1].tag != Removed, vs[k])
  {
    P.ProcessedSendKeeps(m);
    var started, e := P.ProcessedSend(m.entries), m.entries[k];
    var a := os(e.ctx.handle);
    assert Holdings(started) + m.lost == m.lost + Holdings(started);
    SweepVisitsWell(m.pool, started, os, count, false, m.lost, k);
    EarlyExit(m.pool, started, os, count, k);
    SweepShape(m.pool, started, os, count, false);
    StartedSide(e);
    var vs := Sweep(m.pool, started, os, count, false).1;
    hide Sweep, P.StartedEntry, EntryOk, PollSideOk, RoundDoes, Closes, P.ManagerOk;
    if Unvisited(vs[k]) {
      if a.ready == QUIET {
        QuietDoes(e.ctx, vs[k].entry.ctx, a);
      }
    } else {
      var q :| WellVisited(q, started[k], os, m.pool.size, vs[k]);
      assert AnswerOk(started[k], a, m.pool.size);
      VisitIsRound(q, e, os, vs[k]);
    }
  }

  /** What a pass makes of an entry, told by the answer and by whether the pass reached it. */
  ghost predicate PassIs(m: P.Manager, os: Os, count: nat, k: nat)
    requires k < |m.entries|
  {
    var op, c, m' := P.HandleOp(os, count), m.entries[k].ctx, P.Handled(m, os, count);
    var a, reached := os(c.handle), Reached(m, op, k);
    && (Next(m, op, k).Gone? <==> reached && Closes(a))
    && (Next(m, op, k).At? ==>
          && Next(m, op, k).index < |m'.entries|
          && var c' := m'.entries[Next(m, op, k).index].ctx;
             if reached then RoundDoes(c, a, c') else c'.log == c.log && c'.wire == c.wire)
  }

  lemma NoPassDoes(m: P.Manager, os: Os, k: nat)
    requires k < |m.entries| && Events(P.ProcessedSend(m.entries), os) == 0 && PollSideOk(SideOf(m.entries[k]))
    ensures PassIs(m, os, 0, k)
  {
    NoneWithoutCount(P.ProcessedSend(m.entries), os, k);
    StartedSide(m.entries[k]);
  }

  lemma SweptDoes(m: P.Manager, os: Os, count: nat, k: nat)
    requires P.ManagerOk(m) && AnswersOk(P.ProcessedSend(m.entries), os, m.pool.size) && count > 0
    requires Events(P.ProcessedSend(m.entries), os) <= count
    requires k < |m.entries| && PollSideOk(SideOf(m.entries[k]))
    ensures PassIs(m, os, count, k)
  {
    hide Next, Reached, Sweep, PollSideOk, AnswersOk, Closes, RoundDoes, P.ManagerOk, P.Handled;
    SweepDecides(m, os, count, k);
    NextIs(m, os, count, k);
    ReachedIs(m, os, count, k);
  }

  /**
    What a pass does, exactly.  In any reachable state, with any answers and a wait that counted at
    least the entries with an event: an entry is removed if and only if the one before it was not and
    its peer closed, hung up or failed, or its send failed.  If it stays and the one before it too, it
    has read exactly the bytes that came in, in one read, and its newest message went out if the
    socket was writable.  If the one before it was removed, it neither read nor sent.
   */
  lemma PassDoes(start: P.Manager, ops: seq<P.ManagerOp>, m: P.Manager, os: Os, count: nat, k: nat)
    requires P.Initial(start) && P.Reaches(start, ops, m) && P.Possible(m, P.HandleOp(os, count))
    requires Events(P.ProcessedSend(m.entries), os) <= count && k < |m.entries|
    ensures PassIs(m, os, count, k)
  {
    hide PassIs, PollSideOk, P.ManagerOk, P.Reaches;
    P.ReachableIsOk(start, ops, m);
    SideEverywhere(start, ops, m, k);
    if count == 0 {
      NoPassDoes(m, os, k);
    } else {
      SweptDoes(m, os, count, k);
    }
  }

  lemma ReachedIs(m: P.Manager, os: Os, count: nat, k: nat)
    requires count > 0 && k < |m.entries|
    ensures var vs := Sweep(m.pool, P.ProcessedSend(m.entries), os, count, false).1;
            |vs| == |m.entries| && (Reached(m, P.HandleOp(os, count), k) <==> k == 0 || vs[k - 1].tag != Removed)
  {
    NextIs(m, os, count, if k == 0 then 0 else k - 1);
  }

  lemma NextIs(m: P.Manager, os: Os, count: nat, k: nat)
    requires count > 0 && k < |m.entries|
    ensures var op, vs := P.HandleOp(os, count), Sweep(m.pool, P.ProcessedSend(m.entries), os, count, false).1;
            && |vs| == |m.entries| && (Next(m, op, k).Gone? <==> vs[k].tag == Removed)
            && (Next(m, op, k).At? ==>
                  && Next(m, op, k).index < |P.Handled(m, os, count).entries|
                  && P.Handled(m, os, count).entries[Next(m, op, k).index] == vs[k].entry)
  {
    SweepShape(m.pool, P.ProcessedSend(m.entries), os, count, false);
    var vs := Sweep(m.pool, P.ProcessedSend(m.entries), os, count, false).1;
    if vs[k].tag != Removed {
      RankIs(vs, k);
    }
  }

  // ----- Completion ports -----

  lemma IssuedDoes(c: Ctx)
    requires IocpSendOk(c)
    ensures var c' := Issued(c);
            && IocpSendOk(c') && Waiting(c'.conn) == 0
            && c'.log == c.log && c'.wire == c.wire && c'.posted == c.posted
            && c'.issued == c.issued + if Waiting(c.conn) == 1 then [|c.conn.history| - 1] else []
  {
    IssuedKeeps(c);
    StartedWriteKeeps(c, c.issued);
  }

  lemma CompletedDoes(c: Ctx)
    requires IocpSendOk(c) && Waiting(c.conn) == 0 && |c.wire| < |c.issued|
    ensures c.conn.toSend != []
    ensures var c' := Completed(c);
            && c'.log == c.log && c'.issued == c.issued && c'.wire == c.wire + [c.issued[|c.wire|]]
  {
    CompletedKeeps(c);
  }

  /** What a completion does for a context, told by the completion. */
  ghost predicate CompletionIs(c: Ctx, e: I.Completion, k: nat, c': Ctx) {
    && c'.issued == c.issued
    && (if e.ReceiveDone? && e.index == k then OneMoreRead(c.log, c'.log, e.data) else c'.log == c.log)
    && (if e.SendDone? && e.index == k
        then |c.wire| < |c.issued| && c'.wire == c.wire + [c.issued[|c.wire|]]
        else c'.wire == c.wire)
  }

  lemma ReceiveDoes(m: I.Iocp, i: nat, data: seq<char>)
    requires I.IocpOk(m) && I.CanArrive(m, I.ReceiveDone(i, data))
    ensures var m' := I.Arrive(m, I.ReceiveDone(i, data));
            && m'.contexts == m.contexts[i := m'.contexts[i]]
            && CompletionIs(m.contexts[i], I.ReceiveDone(i, data), i, m'.contexts[i])
  {
    I.Apart(m, i);
    I.LandedKeeps(m.pool, m.contexts[i], data, Rest(m, i));
    LandedSame(State(m.pool, m.contexts[i]), data);
  }

  lemma SendDoes(m: I.Iocp, i: nat)
    requires I.IocpOk(m) && I.CanArrive(m, I.SendDone(i)) && Waiting(m.contexts[i].conn) == 0
    ensures var m' := I.Arrive(m, I.SendDone(i));
            && m'.contexts == m.contexts[i := m'.contexts[i]]
            && CompletionIs(m.contexts[i], I.SendDone(i), i, m'.contexts[i])
  {
    I.Apart(m, i);
    CompletedDoes(m.contexts[i]);
  }

  /** Where a context is after a completion for another. */
  ghost function Place(e: I.Completion, k: nat): nat {
    if e.ZeroBytes? && e.index < k then k - 1 else k
  }

  /** The completion is not about this context. */
  ghost predicate Elsewhere(e: I.Completion, k: nat) {
    e.Nothing? || e.StaleZeroBytes? || e.index != k
  }

  lemma ArriveLeaves(m: I.Iocp, e: I.Completion, k: nat)
    requires I.CanArrive(m, e) && k < |m.contexts| && Elsewhere(e, k)
    ensures Place(e, k) < |I.Arrive(m, e).contexts| && I.Arrive(m, e).contexts[Place(e, k)] == m.contexts[k]
  {
    hide Completed, I.Landed, I.ReadAndPosted;
  }

  lemma ArriveDoes(m: I.Iocp, e: I.Completion, k: nat)
    requires I.IocpOk(m) && I.CanArrive(m, e) && k < |m.contexts| && Waiting(m.contexts[k].conn) == 0
    requires e != I.ZeroBytes(k)
    ensures Place(e, k) < |I.Arrive(m, e).contexts|
    ensures CompletionIs(m.contexts[k], e, k, I.Arrive(m, e).contexts[Place(e, k)])
  {
    if Elsewhere(e, k) {
      ArriveLeaves(m, e, k);
    } else if e.ReceiveDone? {
      hide I.Arrive, I.IocpOk, CompletionIs;
      ReceiveDoes(m, k, e.data);
    } else {
      hide I.Arrive, I.IocpOk, CompletionIs;
      SendDoes(m, k);
    }
  }

  /** What the rest of the manager holds. */
  ghost function Rest(m: I.Iocp, i: nat): multiset<Pointer>
    requires i < |m.contexts|
  {
    I.Bags(Erased(m.contexts, i)) + m.lost
  }

  lemma IssuedThenIs(c: Ctx, issued: Ctx, e: I.Completion, k: nat, c': Ctx)
    requires issued.log == c.log && issued.wire == c.wire && CompletionIs(issued, e, k, c')
    requires issued.issued == c.issued + if Waiting(c.conn) == 1 then [|c.conn.history| - 1] else []
    ensures CallIs(c, e, k, c')
  {
  }

  /** What one call of the manager does for a context: its newest message is issued if it waited, and the completion. */
  ghost predicate CallIs(c: Ctx, e: I.Completion, k: nat, c': Ctx) {
    && c'.issued == c.issued + (if Waiting(c.conn) == 1 then [|c.conn.history| - 1] else [])
    && (if e.ReceiveDone? && e.index == k then OneMoreRead(c.log, c'.log, e.data) else c'.log == c.log)
    && (if e.SendDone? && e.index == k
        then |c.wire| < |c'.issued| && c'.wire == c.wire + [c'.issued[|c.wire|]]
        else c'.wire == c.wire)
  }

  /**
    What one call of the completion-port manager does, exactly, in any reachable state and for any
    completion: each connection's newest message is issued if it waited; a receive's bytes are read, in
    one read, by the connection they came for; a send completes the oldest one issued; a completion
    without bytes removes its connection; and no other connection notices.
   */
  lemma CompletionDoes(start: I.Iocp, ops: seq<I.IocpOp>, m: I.Iocp, e: I.Completion, k: nat)
    requires I.IocpInitial(start) && I.IocpReaches(start, ops, m) && I.IocpPossible(m, I.HandleOp(e))
    requires k < |m.contexts|
    ensures var c, m' := m.contexts[k], I.IocpHandled(m, e);
            && |m'.contexts| == |m.contexts| - (if e.ZeroBytes? then 1 else 0)
            && (e != I.ZeroBytes(k) ==>
                  Place(e, k) < |m'.contexts| && CallIs(c, e, k, m'.contexts[Place(e, k)]))
  {
    I.IocpRunKeeps(start, ops, m);
    I.HandledLoses(m, e);
    if e != I.ZeroBytes(k) {
      HandledDoes(m, e, k);
    }
  }

  lemma SendsIssuedDoes(m: I.Iocp, k: nat)
    requires I.IocpOk(m) && k < |m.contexts|
    ensures |I.SendsIssued(m).contexts| == |m.contexts| && I.IocpOk(I.SendsIssued(m))
    ensures var c, c' := m.contexts[k], I.SendsIssued(m).contexts[k];
            && Waiting(c'.conn) == 0 && c'.log == c.log && c'.wire == c.wire
            && c'.issued == c.issued + if Waiting(c.conn) == 1 then [|c.conn.history| - 1] else []
  {
    assert I.ContextOk(m.pool, m.contexts[k]);
    IssuedDoes(m.contexts[k]);
    I.SendsIssuedKeeps(m);
  }

  lemma HandledDoes(m: I.Iocp, e: I.Completion, k: nat)
    requires I.IocpOk(m) && I.CanArrive(I.SendsIssued(m), e) && k < |m.contexts| && e != I.ZeroBytes(k)
    ensures var m' := I.Arrive(I.SendsIssued(m), e);
            Place(e, k) < |m'.contexts| && CallIs(m.contexts[k], e, k, m'.contexts[Place(e, k)])
  {
    hide CompletionIs, CallIs, Place, Waiting, I.Arrive, I.CanArrive, I.IocpOk, I.SendsIssued;
    var issued := I.SendsIssued(m);
    SendsIssuedDoes(m, k);
    ArriveDoes(issued, e, k);
    IssuedThenIs(m.contexts[k], issued.contexts[k], e, k, I.Arrive(issued, e).contexts[Place(e, k)]);
  }
}
