/**
  What becomes of one connection's messages over the runs of its manager: the counts of
  Sending, followed through accepts, other connections' traffic, and removals that shift the entry.
 */
module SendRuns {
  import opened Memory
  import opened BufferPools
  import opened Connections
  import opened Contexts
  import opened EventHandlers
  import opened Sending
  import opened EventPass
  import P = PollManagerStates
  import I = IocpManagerStates

  /** Where an entry is after a step, if it is still there. */
  datatype Where = Gone | At(index: nat)

  /** Two contexts whose send sides agree. */
  ghost predicate SameSend(c: Ctx, d: Ctx) {
    && c.send == d.send && c.wire == d.wire && c.issued == d.issued && c.handed == d.handed
    && c.conn.toSend == d.conn.toSend && c.conn.history == d.conn.history
  }

  // ----- Poll and select -----

  function SideOf(e: Entry): PollSide {
    PollSide(e.ctx, e.wantsWrite)
  }

  ghost predicate SameSide(p: PollSide, q: PollSide) {
    p.wantsWrite == q.wantsWrite && SameSend(p.ctx, q.ctx)
  }

  lemma SideStaysOk(p: PollSide, q: PollSide)
    requires PollSideOk(p) && SameSide(p, q)
    ensures PollSideOk(q) && Untransmitted(q.ctx) == Untransmitted(p.ctx)
  {
    SameSendSide(p.ctx, q.ctx, p.wantsWrite);
  }

  lemma ReceivedSame(s: State, data: seq<char>)
    ensures SameSend(Received(s, data).ctx, s.ctx)
  {
    hide Join, Take;
  }

  /** What follows the read of a visit is the rest of one pass of the send side. */
  lemma WriteIsPass(p: Pool, e: Entry, c: Ctx, a: Answer)
    requires SameSend(c, P.StartedEntry(e).ctx) && (a.ready.write ==> P.StartedEntry(e).wantsWrite)
    requires !VisitWrite(p, Entry(c, P.StartedEntry(e).wantsWrite), a).removed
    ensures SameSide(SideOf(VisitWrite(p, Entry(c, P.StartedEntry(e).wantsWrite), a).entry),
                     PollNext(SideOf(e), PassEvent(a.ready.write)))
  {
  }

  /**
    Starting an entry's send and visiting it, with whatever events, is one pass of its send side,
    unless it is removed.
   */
  lemma VisitIsPass(p: Pool, e: Entry, a: Answer)
    requires a.ready.write ==> P.StartedEntry(e).wantsWrite
    requires !Visit(p, P.StartedEntry(e), a).removed
    ensures SameSide(SideOf(Visit(p, P.StartedEntry(e), a).entry), PollNext(SideOf(e), PassEvent(a.ready.write)))
  {
    var started := P.StartedEntry(e);
    hide PollNext, VisitWrite, Received;
    if a.ready.read {
      var s := Received(State(p, started.ctx), a.incoming);
      ReceivedSame(State(p, started.ctx), a.incoming);
      WriteIsPass(s.pool, e, s.ctx, a);
    } else {
      WriteIsPass(p, e, started.ctx, a);
    }
  }

  lemma {:induction false} SweepIsPass(p: Pool, es: seq<Entry>, os: Os, count: nat, skip: bool, k: nat)
    requires k < |es| && AnswersOk(P.ProcessedSend(es), os, p.size)
    ensures var vs := Sweep(p, P.ProcessedSend(es), os, count, skip).1;
            && |vs| == |es|
            && (vs[k].tag != Removed ==>
                  SameSide(SideOf(vs[k].entry),
                           PollNext(SideOf(es[k]), PassEvent(vs[k].tag == Kept && os(es[k].ctx.handle).ready.write))))
    decreases |es|
  {
    var started := P.ProcessedSend(es);
    SweepShape(p, started, os, count, skip);
    var vs := Sweep(p, started, os, count, skip).1;
    if !Unvisited(vs[k]) {
      SweepVisits(p, started, os, count, skip, k);
      var q :| VisitedWith(q, started[k], os, vs[k]);
      assert AnswerOk(started[k], os(started[k].ctx.handle), p.size);
      hide Visit, PollNext, Sweep;
      if vs[k].tag == Kept {
        VisitIsPass(q, es[k], os(es[k].ctx.handle));
      }
    }
  }

  /** The verdict is that of a visit of the entry with this pool. */
  ghost predicate VisitedWith(q: Pool, e: Entry, os: Os, v: Verdict) {
    var done := Visit(q, e, os(e.ctx.handle));
    v == Verdict(done.entry, if done.removed then Removed else Kept)
  }

  lemma {:induction false} SweepVisits(p: Pool, es: seq<Entry>, os: Os, count: nat, skip: bool, k: nat)
    requires k < |es|
    ensures var vs := Sweep(p, es, os, count, skip).1;
            |vs| == |es| && (!Unvisited(vs[k]) ==> exists q :: VisitedWith(q, es[k], os, vs[k]))
    decreases |es|
  {
    SweepShape(p, es, os, count, skip);
    var vs := Sweep(p, es, os, count, skip).1;
    if skip || count == 0 {
      if k > 0 {
        SweepVisits(p, es[1..], os, count, false, k - 1);
        assert vs[1..] == Sweep(p, es[1..], os, count, false).1;
      }
    } else if k == 0 {
      assert VisitedWith(p, es[0], os, vs[0]);
    } else {
      var a := os(es[0].ctx.handle);
      var v := Visit(p, es[0], a);
      var left := if a.ready.IsChanged() then count - 1 else count;
      SweepVisits(v.pool, es[1..], os, left, v.removed, k - 1);
      assert vs[1..] == Sweep(v.pool, es[1..], os, left, v.removed).1;
    }
  }

  /** How many of the first `k` entries were not removed: where the k-th is afterwards. */
  ghost function Rank(vs: seq<Verdict>, k: nat): nat
    requires k <= |vs|
  {
    if k == 0 then 0 else (if vs[0].tag == Removed then 0 else 1) + Rank(vs[1..], k - 1)
  }

  lemma {:induction false} RankIs(vs: seq<Verdict>, k: nat)
    requires k < |vs| && vs[k].tag != Removed
    ensures Rank(vs, k) < |Survivors(vs)| && Survivors(vs)[Rank(vs, k)] == vs[k].entry
  {
    if k > 0 {
      RankIs(vs[1..], k - 1);
    }
  }

  ghost function Next(m: P.Manager, op: P.ManagerOp, i: nat): Where
    requires i < |m.entries|
  {
    if !op.HandleOp? || op.count == 0 then At(i)
    else
      var vs := Sweep(m.pool, P.ProcessedSend(m.entries), op.os, op.count, false).1;
      if i >= |vs| || vs[i].tag == Removed then Gone else At(Rank(vs, i))
  }

  /** One, if the step is a send on the entry that finds its last message untransmitted. */
  ghost function Missed(m: P.Manager, op: P.ManagerOp, i: nat): nat
    requires i < |m.entries|
  {
    if op.SendOp? && op.index == i then Untransmitted(m.entries[i].ctx) else 0
  }

  /** The entry's queue, but for a last message that is still on its way. */
  ghost function Stuck(e: Entry): int {
    |e.ctx.conn.toSend| - Untransmitted(e.ctx)
  }

  ghost predicate StepIs(e: Entry, e': Entry, missed: nat) {
    PollSideOk(SideOf(e')) && Stuck(e') == Stuck(e) + missed
  }

  lemma EventIs(e: Entry, event: PollEvent, e': Entry)
    requires PollSideOk(SideOf(e)) && SameSide(SideOf(e'), PollNext(SideOf(e), event))
    ensures StepIs(e, e', if event.SendEvent? then Untransmitted(e.ctx) else 0)
  {
    PollNextKeeps(SideOf(e), event);
    hide PollNext, PollSendOk;
    SideStaysOk(PollNext(SideOf(e), event), SideOf(e'));
    QueueLeft(PollNext(SideOf(e), event));
    QueueLeft(SideOf(e));
  }

  lemma QueueLeft(p: PollSide)
    requires PollSideOk(p)
    ensures |p.ctx.conn.toSend| == |p.ctx.conn.history| - |p.ctx.wire|
  {
  }

  lemma HandleIs(m: P.Manager, os: Os, count: nat, i: nat)
    requires P.Possible(m, P.HandleOp(os, count)) && i < |m.entries| && PollSideOk(SideOf(m.entries[i]))
    requires Next(m, P.HandleOp(os, count), i).At?
    ensures var j := Next(m, P.HandleOp(os, count), i).index;
            j < |P.Handled(m, os, count).entries| && StepIs(m.entries[i], P.Handled(m, os, count).entries[j], 0)
  {
    var started := P.ProcessedSend(m.entries);
    if count == 0 {
      EventIs(m.entries[i], PassEvent(false), started[i]);
    } else {
      SweepIsPass(m.pool, m.entries, os, count, false, i);
      var vs := Sweep(m.pool, started, os, count, false).1;
      RankIs(vs, i);
      hide PollNext, Sweep, PollSideOk;
      EventIs(m.entries[i], PassEvent(vs[i].tag == Kept && os(m.entries[i].ctx.handle).ready.write), vs[i].entry);
    }
  }

  lemma StepFollows(m: P.Manager, op: P.ManagerOp, i: nat)
    requires P.Possible(m, op) && i < |m.entries| && PollSideOk(SideOf(m.entries[i])) && Next(m, op, i).At?
    ensures var m', j := P.ManagerStep(m, op), Next(m, op, i).index;
            j < |m'.entries| && StepIs(m.entries[i], m'.entries[j], Missed(m, op, i))
  {
    match op
    case AddOp(handle) =>
    case SendOp(j, message) =>
      if j == i {
        EventIs(m.entries[i], PollEvent.SendEvent(message), P.ManagerStep(m, op).entries[i]);
      }
    case UpdateOp(j) =>
      SideStaysOk(SideOf(m.entries[i]), SideOf(P.ManagerStep(m, op).entries[i]));
    case HandleOp(os, count) => HandleIs(m, os, count, i);
  }

  /** Where an entry is after a run. */
  ghost function Followed(m: P.Manager, ops: seq<P.ManagerOp>, i: nat): Where
    decreases |ops|
  {
    if i >= |m.entries| then Gone
    else if ops == [] then At(i)
    else if !P.Possible(m, ops[0]) || Next(m, ops[0], i).Gone? then Gone
    else Followed(P.ManagerStep(m, ops[0]), ops[1..], Next(m, ops[0], i).index)
  }

  /** How many sends on an entry found its last message untransmitted. */
  ghost function AllMissed(m: P.Manager, ops: seq<P.ManagerOp>, i: nat): nat
    requires Followed(m, ops, i).At?
    decreases |ops|
  {
    if ops == [] then 0
    else Missed(m, ops[0], i) + AllMissed(P.ManagerStep(m, ops[0]), ops[1..], Next(m, ops[0], i).index)
  }

  /** Every send on an entry found its queue empty. */
  ghost predicate SendsOnEmpty(m: P.Manager, ops: seq<P.ManagerOp>, i: nat)
    requires Followed(m, ops, i).At?
    decreases |ops|
  {
    ops != [] ==>
      && (ops[0].SendOp? && ops[0].index == i ==> m.entries[i].ctx.conn.toSend == [])
      && SendsOnEmpty(P.ManagerStep(m, ops[0]), ops[1..], Next(m, ops[0], i).index)
  }

  lemma {:induction false} RunFollows(m: P.Manager, ops: seq<P.ManagerOp>, m': P.Manager, i: nat)
    requires P.Reaches(m, ops, m') && Followed(m, ops, i).At? && PollSideOk(SideOf(m.entries[i]))
    ensures var k := Followed(m, ops, i).index;
            k < |m'.entries| && StepIs(m.entries[i], m'.entries[k], AllMissed(m, ops, i))
    ensures Stuck(m.entries[i]) == 0 ==> (SendsOnEmpty(m, ops, i) <==> AllMissed(m, ops, i) == 0)
    decreases |ops|
  {
    if ops != [] {
      StepFollows(m, ops[0], i);
      hide PollSideOk, P.ManagerStep, Next, P.Possible;
      RunFollows(P.ManagerStep(m, ops[0]), ops[1..], m', Next(m, ops[0], i).index);
    }
  }

  // Where an entry comes from.

  lemma {:induction false} RankOfPlace(vs: seq<Verdict>, j: nat)
    requires j < |Survivors(vs)|
    ensures |Places(vs)| == |Survivors(vs)| && Places(vs)[j] < |vs|
    ensures vs[Places(vs)[j]].tag != Removed && Rank(vs, Places(vs)[j]) == j
  {
    PlacesCount(vs);
    PlacesCount(vs[1..]);
    if vs[0].tag == Removed {
      RankOfPlace(vs[1..], j);
    } else if j > 0 {
      RankOfPlace(vs[1..], j - 1);
    }
  }

  /** An entry after a step was there before it, unless it was accepted. */
  lemma ComesFrom(m: P.Manager, op: P.ManagerOp, j: nat) returns (i: nat)
    requires P.Possible(m, op) && j < |P.ManagerStep(m, op).entries| && !(op.AddOp? && j == |m.entries|)
    ensures i < |m.entries| && Next(m, op, i) == At(j)
  {
    i := j;
    if op.HandleOp? && op.count > 0 {
      var started := P.ProcessedSend(m.entries);
      SweepShape(m.pool, started, op.os, op.count, false);
      var vs := Sweep(m.pool, started, op.os, op.count, false).1;
      RankOfPlace(vs, j);
      i := Places(vs)[j];
    }
  }

  /** The run accepted the connection at this step, in this state, and it can be followed from there to its end. */
  ghost predicate AcceptedAt(m: P.Manager, ops: seq<P.ManagerOp>, m': P.Manager, j: nat, at: nat, m1: P.Manager) {
    && at < |ops| && ops[at].AddOp? && P.Reaches(m, ops[..at], m1)
    && P.Reaches(P.Added(m1, ops[at].handle), ops[at + 1..], m')
    && Followed(P.Added(m1, ops[at].handle), ops[at + 1..], |m1.entries|) == At(j)
  }

  /** Every connection of a run's last state either was in its first state or was accepted by the run. */
  lemma {:induction false} OriginOf(m: P.Manager, ops: seq<P.ManagerOp>, m': P.Manager, j: nat)
    returns (accepted: bool, at: nat, m1: P.Manager)
    requires P.Reaches(m, ops, m') && j < |m'.entries|
    ensures !accepted ==> at < |m.entries| && Followed(m, ops, at) == At(j)
    ensures accepted ==> AcceptedAt(m, ops, m', j, at, m1)
    decreases |ops|
  {
    accepted, at, m1 := false, j, m;
    if ops != [] {
      hide Next, AcceptedAt, P.Possible, P.ManagerStep;
      accepted, at, m1 := OriginOf(P.ManagerStep(m, ops[0]), ops[1..], m', j);
      if accepted {
        OneMore(m, ops, m', j, at, m1);
        at := at + 1;
      } else if ops[0].AddOp? && at == |m.entries| {
        FirstIs(m, ops, m', j);
        accepted, at, m1 := true, 0, m;
      } else {
        var i := ComesFrom(m, ops[0], at);
        FollowOn(m, ops, i, at);
        at := i;
      }
    }
  }

  lemma FollowOn(m: P.Manager, ops: seq<P.ManagerOp>, i: nat, j: nat)
    requires ops != [] && i < |m.entries| && P.Possible(m, ops[0]) && Next(m, ops[0], i) == At(j)
    ensures Followed(m, ops, i) == Followed(P.ManagerStep(m, ops[0]), ops[1..], j)
  {
  }

  lemma OneMore(m: P.Manager, ops: seq<P.ManagerOp>, m': P.Manager, j: nat, n: nat, m1: P.Manager)
    requires ops != [] && P.Possible(m, ops[0]) && AcceptedAt(P.ManagerStep(m, ops[0]), ops[1..], m', j, n, m1)
    ensures AcceptedAt(m, ops, m', j, n + 1, m1)
  {
    hide P.Possible, P.ManagerStep, Followed;
    assert ops[..n + 1][1..] == ops[1..][..n];
    assert ops[1..][n + 1..] == ops[n + 2..];
  }

  lemma FirstIs(m: P.Manager, ops: seq<P.ManagerOp>, m': P.Manager, j: nat)
    requires ops != [] && ops[0].AddOp? && P.Reaches(P.ManagerStep(m, ops[0]), ops[1..], m')
    requires Followed(P.ManagerStep(m, ops[0]), ops[1..], |m.entries|) == At(j)
    ensures AcceptedAt(m, ops, m', j, 0, m)
  {
    assert ops[..0] == [];
  }

  /**
    So what is proved of a connection from its accept on holds of every connection of every
    reachable state.
   */
  lemma Origin(m: P.Manager, ops: seq<P.ManagerOp>, m': P.Manager, j: nat) returns (at: nat, m1: P.Manager)
    requires P.Initial(m) && P.Reaches(m, ops, m') && j < |m'.entries|
    ensures AcceptedAt(m, ops, m', j, at, m1)
  {
    var accepted;
    accepted, at, m1 := OriginOf(m, ops, m', j);
  }

  /**
    In every run of a manager, from a connection's accept on: its messages are sent in turn if and
    only if every send on it found its queue empty; and its queue is as long as the number of sends
    that found the last message untransmitted, plus that message if it is on its way.
   */
  lemma PollLosesEverywhere(m: P.Manager, handle: nat, ops: seq<P.ManagerOp>, m': P.Manager)
    requires P.Reaches(P.Added(m, handle), ops, m') && Followed(P.Added(m, handle), ops, |m.entries|).At?
    ensures var k := Followed(P.Added(m, handle), ops, |m.entries|).index;
            && k < |m'.entries|
            && var c := m'.entries[k].ctx;
               && |c.conn.toSend| == AllMissed(P.Added(m, handle), ops, |m.entries|) + Untransmitted(c)
               && (SentInTurn(c) <==> SendsOnEmpty(P.Added(m, handle), ops, |m.entries|))
  {
    var added, i := P.Added(m, handle), |m.entries|;
    assert added.entries[i].ctx.conn == FRESH && added.entries[i].ctx.wire == [];
    RunFollows(added, ops, m', i);
    InTurnIff(SideOf(m'.entries[Followed(added, ops, i).index]));
  }

  lemma SendFirst(m: P.Manager, i: nat, message: string, rest: seq<P.ManagerOp>, m': P.Manager)
    requires i < |m.entries|
    requires var m1 := P.ManagerStep(m, P.SendOp(i, message));
             P.Reaches(m1, rest, m') && Followed(m1, rest, i).At?
    ensures var m1, ops := P.ManagerStep(m, P.SendOp(i, message)), [P.SendOp(i, message)] + rest;
            && P.Reaches(m, ops, m') && Followed(m, ops, i) == Followed(m1, rest, i)
            && AllMissed(m, ops, i) == Untransmitted(m.entries[i].ctx) + AllMissed(m1, rest, i)
            && (SendsOnEmpty(m, ops, i) <==> m.entries[i].ctx.conn.toSend == [] && SendsOnEmpty(m1, rest, i))
  {
    assert ([P.SendOp(i, message)] + rest)[1..] == rest;
  }

  /** Two messages sent at once on a connection just accepted. */
  lemma TwoQueued(m: P.Manager, handle: nat)
    ensures var added, i := P.Added(m, handle), |m.entries|;
            var m1 := P.ManagerStep(added, P.SendOp(i, "a"));
            var m2 := P.ManagerStep(m1, P.SendOp(i, "b"));
            && |added.entries| == |m1.entries| == |m2.entries| == i + 1
            && added.entries[i].ctx.conn == FRESH && added.entries[i].ctx.wire == []
            && m1.entries[i].ctx.conn.toSend == [NetSendMessage(0, "a", false)] && m1.entries[i].ctx.wire == []
            && m2.entries[i].ctx.conn.toSend == [NetSendMessage(0, "a", false), NetSendMessage(1, "b", false)]
            && m2.entries[i].ctx.wire == []
  {
  }

  /**
    It happens: of two messages sent at once the first is dropped untransmitted, and the second
    stays queued once it was sent.
   */
  lemma PollLosesOne(m: P.Manager, handle: nat)
    ensures var added, i := P.Added(m, handle), |m.entries|;
            var two := [P.SendOp(i, "a"), P.SendOp(i, "b")];
            var m2 := P.ManagerStep(P.ManagerStep(added, two[0]), two[1]);
            && P.Reaches(added, two, m2) && Followed(added, two, i) == At(i)
            && AllMissed(added, two, i) == 1 && !SendsOnEmpty(added, two, i)
            && var c := PollNext(SideOf(m2.entries[i]), PassEvent(true)).ctx;
               c.wire == [1] && c.conn.toSend == [NetSendMessage(1, "b", true)]
  {
    var added, i := P.Added(m, handle), |m.entries|;
    TwoQueued(m, handle);
    var m1 := P.ManagerStep(added, P.SendOp(i, "a"));
    var m2 := P.ManagerStep(m1, P.SendOp(i, "b"));
    hide P.Added, P.ManagerStep;
    SendFirst(m1, i, "b", [], m2);
    assert [P.SendOp(i, "b")] + [] == [P.SendOp(i, "b")];
    SendFirst(added, i, "a", [P.SendOp(i, "b")], m2);
    assert [P.SendOp(i, "a")] + [P.SendOp(i, "b")] == [P.SendOp(i, "a"), P.SendOp(i, "b")];
  }

  // ----- Completion ports -----

  ghost predicate IocpStepIs(c: Ctx, c': Ctx, missed: nat) {
    IocpSendOk(c') && Passed(c') == Passed(c) + missed
  }

  lemma SameSendPasses(c: Ctx, d: Ctx)
    requires IocpSendOk(c) && SameSend(c, d)
    ensures IocpStepIs(c, d, 0)
  {
    I.SameIocpSend(c, d);
  }

  lemma LandedSame(s: State, data: seq<char>)
    requires s.ctx.posted != []
    ensures SameSend(s.ctx, I.ReadAndPosted(I.Landed(s, data), |data|).ctx)
  {
    hide Join, Take;
  }

  ghost function IocpNextAt(m: I.Iocp, op: I.IocpOp, i: nat): Where {
    match op
    case HandleOp(e) => if !e.ZeroBytes? || e.index > i then At(i) else if e.index == i then Gone else At(i - 1)
    case DisconnectAllOp(_) => Gone
    case _ => At(i)
  }

  /** One, if the step is a send on the context that finds a message waiting. */
  ghost function IocpMissed(m: I.Iocp, op: I.IocpOp, i: nat): nat
    requires i < |m.contexts|
  {
    if op.SendOp? && op.index == i then Waiting(m.contexts[i].conn) else 0
  }

  lemma ArriveIs(m: I.Iocp, e: I.Completion, i: nat)
    requires I.CanArrive(m, e) && i < |m.contexts| && IocpSendOk(m.contexts[i])
    requires IocpNextAt(m, I.HandleOp(e), i).At?
    ensures var j := IocpNextAt(m, I.HandleOp(e), i).index;
            j < |I.Arrive(m, e).contexts| && IocpStepIs(m.contexts[i], I.Arrive(m, e).contexts[j], 0)
  {
    match e
    case ReceiveDone(k, data) =>
      LandedSame(State(m.pool, m.contexts[k]), data);
      if k == i {
        SameSendPasses(m.contexts[i], I.Arrive(m, e).contexts[i]);
      }
    case SendDone(k) =>
      if k == i {
        CompletedKeeps(m.contexts[i]);
        CompletedPasses(m.contexts[i]);
      }
    case _ =>
  }

  lemma IocpStepFollows(m: I.Iocp, op: I.IocpOp, i: nat)
    requires I.IocpPossible(m, op) && i < |m.contexts| && IocpSendOk(m.contexts[i]) && IocpNextAt(m, op, i).At?
    ensures var m', j := I.IocpStep(m, op), IocpNextAt(m, op, i).index;
            j < |m'.contexts| && IocpStepIs(m.contexts[i], m'.contexts[j], IocpMissed(m, op, i))
  {
    match op
    case AddOp(handle) =>
    case SendOp(j, message) =>
      if j == i {
        IocpEnqueueKeeps(m.contexts[i], message);
      }
    case UpdateOp(j) =>
      SameSendPasses(m.contexts[i], I.IocpStep(m, op).contexts[i]);
    case HandleOp(e) =>
      IssuedPasses(m.contexts[i]);
      ArriveIs(I.SendsIssued(m), e, i);
  }

  /** Where a context is after a run. */
  ghost function IocpFollowed(m: I.Iocp, ops: seq<I.IocpOp>, i: nat): Where
    decreases |ops|
  {
    if i >= |m.contexts| then Gone
    else if ops == [] then At(i)
    else if !I.IocpPossible(m, ops[0]) || IocpNextAt(m, ops[0], i).Gone? then Gone
    else IocpFollowed(I.IocpStep(m, ops[0]), ops[1..], IocpNextAt(m, ops[0], i).index)
  }

  /** How many sends on a context found a message waiting. */
  ghost function AllIocpMissed(m: I.Iocp, ops: seq<I.IocpOp>, i: nat): nat
    requires IocpFollowed(m, ops, i).At?
    decreases |ops|
  {
    if ops == [] then 0
    else IocpMissed(m, ops[0], i) + AllIocpMissed(I.IocpStep(m, ops[0]), ops[1..], IocpNextAt(m, ops[0], i).index)
  }

  lemma {:induction false} IocpRunFollows(m: I.Iocp, ops: seq<I.IocpOp>, m': I.Iocp, i: nat)
    requires I.IocpReaches(m, ops, m') && IocpFollowed(m, ops, i).At? && IocpSendOk(m.contexts[i])
    ensures var k := IocpFollowed(m, ops, i).index;
            k < |m'.contexts| && IocpStepIs(m.contexts[i], m'.contexts[k], AllIocpMissed(m, ops, i))
    decreases |ops|
  {
    if ops != [] {
      IocpStepFollows(m, ops[0], i);
      hide IocpSendOk, I.IocpStep, IocpNextAt, I.IocpPossible;
      IocpRunFollows(I.IocpStep(m, ops[0]), ops[1..], m', IocpNextAt(m, ops[0], i).index);
    }
  }

  lemma IocpComesFrom(m: I.Iocp, op: I.IocpOp, j: nat) returns (i: nat)
    requires I.IocpPossible(m, op) && j < |I.IocpStep(m, op).contexts| && !(op.AddOp? && j == |m.contexts|)
    ensures i < |m.contexts| && IocpNextAt(m, op, i) == At(j)
  {
    i := if op.HandleOp? && op.completion.ZeroBytes? && op.completion.index <= j then j + 1 else j;
  }

  ghost predicate IocpAcceptedAt(m: I.Iocp, ops: seq<I.IocpOp>, m': I.Iocp, j: nat, at: nat, m1: I.Iocp) {
    && at < |ops| && ops[at].AddOp? && I.IocpReaches(m, ops[..at], m1)
    && I.IocpReaches(I.IocpAdded(m1, ops[at].handle), ops[at + 1..], m')
    && IocpFollowed(I.IocpAdded(m1, ops[at].handle), ops[at + 1..], |m1.contexts|) == At(j)
  }

  lemma {:induction false} IocpOriginOf(m: I.Iocp, ops: seq<I.IocpOp>, m': I.Iocp, j: nat)
    returns (accepted: bool, at: nat, m1: I.Iocp)
    requires I.IocpReaches(m, ops, m') && j < |m'.contexts|
    ensures !accepted ==> at < |m.contexts| && IocpFollowed(m, ops, at) == At(j)
    ensures accepted ==> IocpAcceptedAt(m, ops, m', j, at, m1)
    decreases |ops|
  {
    accepted, at, m1 := false, j, m;
    if ops != [] {
      hide IocpNextAt, IocpAcceptedAt, I.IocpPossible, I.IocpStep;
      accepted, at, m1 := IocpOriginOf(I.IocpStep(m, ops[0]), ops[1..], m', j);
      if accepted {
        IocpOneMore(m, ops, m', j, at, m1);
        at := at + 1;
      } else if ops[0].AddOp? && at == |m.contexts| {
        IocpFirstIs(m, ops, m', j);
        accepted, at, m1 := true, 0, m;
      } else {
        var i := IocpComesFrom(m, ops[0], at);
        IocpFollowOn(m, ops, i, at);
        at := i;
      }
    }
  }

  lemma IocpFollowOn(m: I.Iocp, ops: seq<I.IocpOp>, i: nat, j: nat)
    requires ops != [] && i < |m.contexts| && I.IocpPossible(m, ops[0]) && IocpNextAt(m, ops[0], i) == At(j)
    ensures IocpFollowed(m, ops, i) == IocpFollowed(I.IocpStep(m, ops[0]), ops[1..], j)
  {
  }

  lemma IocpOneMore(m: I.Iocp, ops: seq<I.IocpOp>, m': I.Iocp, j: nat, n: nat, m1: I.Iocp)
    requires ops != [] && I.IocpPossible(m, ops[0]) && IocpAcceptedAt(I.IocpStep(m, ops[0]), ops[1..], m', j, n, m1)
    ensures IocpAcceptedAt(m, ops, m', j, n + 1, m1)
  {
    hide I.IocpPossible, I.IocpStep, IocpFollowed;
    assert ops[..n + 1][1..] == ops[1..][..n];
    assert ops[1..][n + 1..] == ops[n + 2..];
  }

  lemma IocpFirstIs(m: I.Iocp, ops: seq<I.IocpOp>, m': I.Iocp, j: nat)
    requires ops != [] && ops[0].AddOp? && I.IocpReaches(I.IocpStep(m, ops[0]), ops[1..], m')
    requires IocpFollowed(I.IocpStep(m, ops[0]), ops[1..], |m.contexts|) == At(j)
    ensures IocpAcceptedAt(m, ops, m', j, 0, m)
  {
    assert ops[..0] == [];
  }

  lemma IocpOrigin(m: I.Iocp, ops: seq<I.IocpOp>, m': I.Iocp, j: nat) returns (at: nat, m1: I.Iocp)
    requires I.IocpInitial(m) && I.IocpReaches(m, ops, m') && j < |m'.contexts|
    ensures IocpAcceptedAt(m, ops, m', j, at, m1)
  {
    var accepted;
    accepted, at, m1 := IocpOriginOf(m, ops, m', j);
  }

  /**
    In every run of a manager, from a connection's accept on: as many messages are lost as sends on
    it found one waiting, that is, found the queue's last message not handed over; and its messages
    are handed over in turn, all but one that may still wait, if and only if there was no such send.
   */
  lemma IocpLosesEverywhere(m: I.Iocp, handle: nat, ops: seq<I.IocpOp>, m': I.Iocp)
    requires I.IocpReaches(I.IocpAdded(m, handle), ops, m')
    requires IocpFollowed(I.IocpAdded(m, handle), ops, |m.contexts|).At?
    ensures var k := IocpFollowed(I.IocpAdded(m, handle), ops, |m.contexts|).index;
            var lost := AllIocpMissed(I.IocpAdded(m, handle), ops, |m.contexts|);
            && k < |m'.contexts|
            && var c := m'.contexts[k];
               && |c.conn.history| - |c.issued| == lost + Waiting(c.conn)
               && (HandedInTurn(c) <==> lost == 0)
  {
    var added, i := I.IocpAdded(m, handle), |m.contexts|;
    assert added.contexts[i].conn == FRESH && added.contexts[i].wire == added.contexts[i].issued == [];
    IocpRunFollows(added, ops, m', i);
    HandedInTurnIff(m'.contexts[IocpFollowed(added, ops, i).index]);
  }

  lemma IocpSendFirst(m: I.Iocp, i: nat, message: string, rest: seq<I.IocpOp>, m': I.Iocp)
    requires i < |m.contexts|
    requires var m1 := I.IocpStep(m, I.SendOp(i, message));
             I.IocpReaches(m1, rest, m') && IocpFollowed(m1, rest, i).At?
    ensures var m1, ops := I.IocpStep(m, I.SendOp(i, message)), [I.SendOp(i, message)] + rest;
            && I.IocpReaches(m, ops, m') && IocpFollowed(m, ops, i) == IocpFollowed(m1, rest, i)
            && AllIocpMissed(m, ops, i) == Waiting(m.contexts[i].conn) + AllIocpMissed(m1, rest, i)
  {
    assert ([I.SendOp(i, message)] + rest)[1..] == rest;
  }

  /** Of two messages that wait, the second is handed over, and its completion drops the first. */
  lemma SecondGoes(c: Ctx)
    requires c.conn.toSend == [NetSendMessage(0, "a", false), NetSendMessage(1, "b", false)]
    requires c.wire == c.issued == []
    ensures Issued(c).issued == [1] && Issued(c).wire == [] && |Issued(c).conn.toSend| == 2
    ensures Completed(Issued(c)).wire == [1] && Completed(Issued(c)).conn.toSend == [NetSendMessage(1, "b", true)]
  {
  }

  lemma TwoWait(m: I.Iocp, i: nat)
    requires i < |m.contexts| && m.contexts[i].conn == FRESH && m.contexts[i].wire == m.contexts[i].issued == []
    ensures var m1 := I.IocpStep(m, I.SendOp(i, "a"));
            var c := I.IocpStep(m1, I.SendOp(i, "b")).contexts[i];
            && Waiting(m.contexts[i].conn) == 0 && Waiting(m1.contexts[i].conn) == 1
            && c.conn.toSend == [NetSendMessage(0, "a", false), NetSendMessage(1, "b", false)]
            && c.wire == c.issued == []
  {
    var m1 := I.IocpStep(m, I.SendOp(i, "a"));
    assert m1.contexts[i].conn.toSend == [NetSendMessage(0, "a", false)];
  }

  /** The pass and the completion that come next. */
  lemma SecondArrives(m: I.Iocp, i: nat)
    requires i < |m.contexts| && m.contexts[i].wire == m.contexts[i].issued == []
    requires m.contexts[i].conn.toSend == [NetSendMessage(0, "a", false), NetSendMessage(1, "b", false)]
    ensures var issued := I.SendsIssued(m);
            && I.CanArrive(issued, I.SendDone(i))
            && var c := I.Arrive(issued, I.SendDone(i)).contexts[i];
               c.wire == [1] && c.conn.toSend == [NetSendMessage(1, "b", true)]
  {
    SecondGoes(m.contexts[i]);
    hide Issued, Completed;
    assert I.SendsIssued(m).contexts[i] == Issued(m.contexts[i]);
  }

  /**
    It happens: of two messages sent at once the first is dropped unsent, and the second stays
    queued once it was sent.
   */
  lemma IocpLosesOne(m: I.Iocp, handle: nat)
    ensures var added, i := I.IocpAdded(m, handle), |m.contexts|;
            var two := [I.SendOp(i, "a"), I.SendOp(i, "b")];
            var m2 := I.IocpStep(I.IocpStep(added, two[0]), two[1]);
            && I.IocpReaches(added, two, m2) && IocpFollowed(added, two, i) == At(i)
            && AllIocpMissed(added, two, i) == 1
            && var issued := I.SendsIssued(m2);
               && I.CanArrive(issued, I.SendDone(i))
               && var c := I.Arrive(issued, I.SendDone(i)).contexts[i];
                  c.wire == [1] && c.conn.toSend == [NetSendMessage(1, "b", true)]
  {
    var added, i := I.IocpAdded(m, handle), |m.contexts|;
    assert added.contexts[i].conn == FRESH && added.contexts[i].wire == added.contexts[i].issued == [];
    hide I.IocpAdded, I.Arrive, I.CanArrive, I.SendsIssued, Waiting;
    var m1 := I.IocpStep(added, I.SendOp(i, "a"));
    var m2 := I.IocpStep(m1, I.SendOp(i, "b"));
    TwoWait(added, i);
    SecondArrives(m2, i);
    IocpSendFirst(m1, i, "b", [], m2);
    assert [I.SendOp(i, "b")] + [] == [I.SendOp(i, "b")];
    IocpSendFirst(added, i, "a", [I.SendOp(i, "b")], m2);
    assert [I.SendOp(i, "a")] + [I.SendOp(i, "b")] == [I.SendOp(i, "a"), I.SendOp(i, "b")];
  }
}
