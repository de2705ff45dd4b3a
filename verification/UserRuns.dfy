/**
  The user's side of one connection over the runs of its manager: which messages the queue was
  given, and what the user hears of the messages received, with both kinds of manager.
 */
module UserRuns {
  import opened Memory
  import opened BufferPools
  import opened Connections
  import opened Contexts
  import opened EventHandlers
  import opened Receiving
  import opened Sending
  import opened EventPass
  import opened SendRuns
  import P = PollManagerStates
  import I = IocpManagerStates

  /** `d` is `c` with some more messages received, and pending. */
  ghost predicate Grown(c: Conn, d: Conn) {
    && d.calls == c.calls && d.history == c.history
    && c.inbox <= d.inbox && d.received == c.received + d.inbox[|c.inbox|..]
  }

  lemma GrownTwice(c: Conn, d: Conn, e: Conn)
    requires Grown(c, d) && Grown(d, e)
    ensures Grown(c, e)
  {
    assert e.inbox[|c.inbox|..] == d.inbox[|c.inbox|..] + e.inbox[|d.inbox|..];
  }

  lemma GrownServes(c: Conn, d: Conn)
    requires Served(c) && Grown(c, d)
    ensures Served(d) && (HeardTrue(d) <==> HeardTrue(c))
  {
    var n := |Heard(c.calls)|;
    assert d.inbox[n..] == c.inbox[n..] + d.inbox[|c.inbox|..];
    assert d.inbox[..n] == c.inbox[..n];
  }

  lemma ReadGrows(s: State, n: nat)
    requires HasSlot(s) && 1 <= n <= |Slot(s)|
    ensures Grown(s.ctx.conn, ReadDone(s, n).ctx.conn)
  {
    hide Join, Take;
  }

  /** The user's side of a connection after one step: what was sent on it, and whether it was updated. */
  ghost predicate UserStep(c: Conn, sent: seq<string>, updated: bool, d: Conn) {
    && Served(d) && d.history == c.history + sent
    && (Served(c) ==> (HeardTrue(d) <==> HeardTrue(c) && (updated ==> AllSame(c))))
  }

  /** The same after a run: what was sent, and whether every update found equal messages pending. */
  ghost predicate UserRun(c: Conn, sent: seq<string>, same: bool, d: Conn)
    requires Served(c)
  {
    Served(d) && d.history == c.history + sent && (HeardTrue(d) <==> HeardTrue(c) && same)
  }

  lemma StepThenRun(c: Conn, sent: seq<string>, updated: bool, c1: Conn, more: seq<string>, same: bool, d: Conn)
    requires Served(c) && UserStep(c, sent, updated, c1) && UserRun(c1, more, same, d)
    ensures UserRun(c, sent + more, (updated ==> AllSame(c)) && same, d)
  {
  }

  lemma NothingRun(c: Conn)
    requires Served(c)
    ensures UserRun(c, [], true, c)
  {
  }

  lemma GrownIs(c: Conn, d: Conn)
    requires Served(c) && Grown(c, d)
    ensures UserStep(c, [], false, d)
  {
    GrownServes(c, d);
  }

  lemma EnqueuedIs(c: Conn, message: string)
    requires Served(c)
    ensures UserStep(c, [message], false, Enqueued(c, message))
  {
  }

  lemma UpdatedIs(c: Conn)
    requires Served(c)
    ensures UserStep(c, [], true, Updated(c))
  {
    UpdatedServes(c);
  }

  // ----- Poll and select -----

  lemma ReceivedGrows(s: State, data: seq<char>)
    ensures Grown(s.ctx.conn, Received(s, data).ctx.conn)
  {
    hide ReadDone;
    if HasSlot(s) && 1 <= |data| <= |Slot(s)| {
      ReadGrows(Filled(s, data), |data|);
    }
  }

  lemma VisitWriteGrows(p: Pool, e: Entry, a: Answer)
    ensures Grown(e.ctx.conn, VisitWrite(p, e, a).entry.ctx.conn)
  {
  }

  lemma VisitGrows(p: Pool, e: Entry, a: Answer)
    ensures Grown(e.ctx.conn, Visit(p, e, a).entry.ctx.conn)
  {
    hide Received, VisitWrite;
    if a.ready.read {
      var s := Received(State(p, e.ctx), a.incoming);
      ReceivedGrows(State(p, e.ctx), a.incoming);
      VisitWriteGrows(s.pool, e.(ctx := s.ctx), a);
      GrownTwice(e.ctx.conn, s.ctx.conn, VisitWrite(s.pool, e.(ctx := s.ctx), a).entry.ctx.conn);
    } else {
      VisitWriteGrows(p, e, a);
    }
  }

  lemma SweepGrows(p: Pool, es: seq<Entry>, os: Os, count: nat, k: nat)
    requires k < |es|
    ensures var vs := Sweep(p, es, os, count, false).1;
            |vs| == |es| && Grown(es[k].ctx.conn, vs[k].entry.ctx.conn)
  {
    SweepShape(p, es, os, count, false);
    SweepVisits(p, es, os, count, false, k);
    var vs := Sweep(p, es, os, count, false).1;
    if !Unvisited(vs[k]) {
      var q :| VisitedWith(q, es[k], os, vs[k]);
      VisitGrows(q, es[k], os(es[k].ctx.handle));
    }
  }

  lemma HandledGrows(m: P.Manager, os: Os, count: nat, i: nat)
    requires i < |m.entries| && Next(m, P.HandleOp(os, count), i).At?
    ensures var j := Next(m, P.HandleOp(os, count), i).index;
            j < |P.Handled(m, os, count).entries| &&
            Grown(m.entries[i].ctx.conn, P.Handled(m, os, count).entries[j].ctx.conn)
  {
    var started := P.ProcessedSend(m.entries);
    assert started[i].ctx.conn == StartedWrite(m.entries[i].ctx).0.conn;
    if count > 0 {
      SweepGrows(m.pool, started, os, count, i);
      RankIs(Sweep(m.pool, started, os, count, false).1, i);
    }
  }

  /** What a step sends on an entry. */
  ghost function SentBy(op: P.ManagerOp, i: nat): seq<string> {
    if op.SendOp? && op.index == i then [op.message] else []
  }

  ghost predicate Updates(op: P.ManagerOp, i: nat) {
    op.UpdateOp? && op.index == i
  }

  lemma StepServes(m: P.Manager, op: P.ManagerOp, i: nat)
    requires P.Possible(m, op) && i < |m.entries| && Served(m.entries[i].ctx.conn) && Next(m, op, i).At?
    ensures var m', j := P.ManagerStep(m, op), Next(m, op, i).index;
            j < |m'.entries| &&
            UserStep(m.entries[i].ctx.conn, SentBy(op, i), Updates(op, i), m'.entries[j].ctx.conn)
  {
    var c := m.entries[i].ctx.conn;
    hide Served, HeardTrue;
    match op
    case AddOp(handle) => GrownIs(c, c);
    case SendOp(j, message) =>
      GrownIs(c, c);
      if j == i {
        EnqueuedIs(c, message);
      }
    case UpdateOp(j) =>
      GrownIs(c, c);
      if j == i {
        UpdatedIs(c);
      }
    case HandleOp(os, count) =>
      HandledGrows(m, os, count, i);
      GrownIs(c, P.Handled(m, os, count).entries[Next(m, op, i).index].ctx.conn);
  }

  /** The messages a run sends on an entry, in order. */
  ghost function MessagesSent(m: P.Manager, ops: seq<P.ManagerOp>, i: nat): seq<string>
    requires Followed(m, ops, i).At?
    decreases |ops|
  {
    if ops == [] then []
    else SentBy(ops[0], i) + MessagesSent(P.ManagerStep(m, ops[0]), ops[1..], Next(m, ops[0], i).index)
  }

  /** Every update of an entry's connection found equal messages pending, if any. */
  ghost predicate UpdatesOnSame(m: P.Manager, ops: seq<P.ManagerOp>, i: nat)
    requires Followed(m, ops, i).At?
    decreases |ops|
  {
    ops != [] ==>
      && (Updates(ops[0], i) ==> AllSame(m.entries[i].ctx.conn))
      && UpdatesOnSame(P.ManagerStep(m, ops[0]), ops[1..], Next(m, ops[0], i).index)
  }

  lemma {:induction false} RunServes(m: P.Manager, ops: seq<P.ManagerOp>, m': P.Manager, i: nat)
    requires P.Reaches(m, ops, m') && Followed(m, ops, i).At? && Served(m.entries[i].ctx.conn)
    ensures var k := Followed(m, ops, i).index;
            k < |m'.entries| &&
            UserRun(m.entries[i].ctx.conn, MessagesSent(m, ops, i), UpdatesOnSame(m, ops, i), m'.entries[k].ctx.conn)
    decreases |ops|
  {
    if ops == [] {
      NothingRun(m.entries[i].ctx.conn);
    } else {
      StepServes(m, ops[0], i);
      var m1, j := P.ManagerStep(m, ops[0]), Next(m, ops[0], i).index;
      assert Served(m1.entries[j].ctx.conn);
      hide Served, UserStep, UserRun, AllSame, SentBy, Updates, Next, P.ManagerStep, P.Possible;
      RunServes(m1, ops[1..], m', j);
      StepThenRun(m.entries[i].ctx.conn, SentBy(ops[0], i), Updates(ops[0], i), m1.entries[j].ctx.conn,
                  MessagesSent(m1, ops[1..], j), UpdatesOnSame(m1, ops[1..], j),
                  m'.entries[Followed(m, ops, i).index].ctx.conn);
    }
  }

  /**
    In every run of a manager, from a connection's accept on: the messages enqueued are exactly those
    the run sent on it, in order; the user was served the front of what was received, call for
    message, and the rest is pending; and he heard these messages themselves if and only if every
    update found equal messages pending.
   */
  lemma UserEverywhere(m: P.Manager, handle: nat, ops: seq<P.ManagerOp>, m': P.Manager)
    requires P.Reaches(P.Added(m, handle), ops, m') && Followed(P.Added(m, handle), ops, |m.entries|).At?
    ensures var k := Followed(P.Added(m, handle), ops, |m.entries|).index;
            k < |m'.entries| &&
            var c := m'.entries[k].ctx.conn;
            && c.history == MessagesSent(P.Added(m, handle), ops, |m.entries|)
            && |Heard(c.calls)| + |c.received| == |c.inbox| && c.received == c.inbox[|Heard(c.calls)|..]
            && (Heard(c.calls) == c.inbox[..|Heard(c.calls)|] <==>
                UpdatesOnSame(P.Added(m, handle), ops, |m.entries|))
  {
    var added, i := P.Added(m, handle), |m.entries|;
    assert added.entries[i].ctx.conn == FRESH && Heard(FRESH.calls) == [];
    RunServes(added, ops, m', i);
  }

  /** So in every reachable state each connection's user was served the front of what it received, call for message. */
  lemma ServedEverywhere(m: P.Manager, ops: seq<P.ManagerOp>, m': P.Manager, i: nat)
    requires P.Initial(m) && P.Reaches(m, ops, m') && i < |m'.entries|
    ensures var c := m'.entries[i].ctx.conn;
            |Heard(c.calls)| + |c.received| == |c.inbox| && c.received == c.inbox[|Heard(c.calls)|..]
  {
    hide P.Initial, P.Added, Heard;
    var at, m1 := Origin(m, ops, m', i);
    UserEverywhere(m1, ops[at].handle, ops[at + 1..], m');
  }

  // ----- Completion ports -----

  lemma LandedGrows(s: State, data: seq<char>)
    requires s.ctx.posted != []
    ensures Grown(s.ctx.conn, I.ReadAndPosted(I.Landed(s, data), |data|).ctx.conn)
  {
    hide ReadDone;
    var l := I.Landed(s, data);
    if HasSlot(l) && 1 <= |data| <= |Slot(l)| {
      ReadGrows(l, |data|);
    }
  }

  lemma IssuedGrows(c: Ctx)
    ensures Grown(c.conn, Issued(c).conn)
    ensures |c.wire| < |c.issued| && c.conn.toSend != [] ==> Grown(c.conn, Completed(c).conn)
  {
  }

  lemma ArriveGrows(m: I.Iocp, e: I.Completion, i: nat)
    requires I.CanArrive(m, e) && i < |m.contexts| && IocpNextAt(m, I.HandleOp(e), i).At?
    ensures var j := IocpNextAt(m, I.HandleOp(e), i).index;
            j < |I.Arrive(m, e).contexts| && Grown(m.contexts[i].conn, I.Arrive(m, e).contexts[j].conn)
  {
    match e
    case ReceiveDone(k, data) => LandedGrows(State(m.pool, m.contexts[k]), data);
    case SendDone(k) => IssuedGrows(m.contexts[k]);
    case _ =>
  }

  ghost function IocpSentBy(op: I.IocpOp, i: nat): seq<string> {
    if op.SendOp? && op.index == i then [op.message] else []
  }

  ghost predicate IocpUpdates(op: I.IocpOp, i: nat) {
    op.UpdateOp? && op.index == i
  }

  lemma IocpHandleServes(m: I.Iocp, e: I.Completion, i: nat)
    requires I.CanArrive(I.SendsIssued(m), e) && i < |m.contexts| && Served(m.contexts[i].conn)
    requires IocpNextAt(m, I.HandleOp(e), i).At?
    ensures var m', j := I.IocpHandled(m, e), IocpNextAt(m, I.HandleOp(e), i).index;
            j < |m'.contexts| && UserStep(m.contexts[i].conn, [], false, m'.contexts[j].conn)
  {
    hide Served, UserStep;
    var issued := I.SendsIssued(m);
    var d := I.Arrive(issued, e).contexts[IocpNextAt(m, I.HandleOp(e), i).index].conn;
    IssuedGrows(m.contexts[i]);
    ArriveGrows(issued, e, i);
    GrownTwice(m.contexts[i].conn, issued.contexts[i].conn, d);
    GrownIs(m.contexts[i].conn, d);
  }

  lemma IocpStepServes(m: I.Iocp, op: I.IocpOp, i: nat)
    requires I.IocpPossible(m, op) && i < |m.contexts| && Served(m.contexts[i].conn) && IocpNextAt(m, op, i).At?
    ensures var m', j := I.IocpStep(m, op), IocpNextAt(m, op, i).index;
            j < |m'.contexts| &&
            UserStep(m.contexts[i].conn, IocpSentBy(op, i), IocpUpdates(op, i), m'.contexts[j].conn)
  {
    var c := m.contexts[i].conn;
    hide Served, HeardTrue;
    match op
    case AddOp(handle) => GrownIs(c, c);
    case SendOp(j, message) =>
      GrownIs(c, c);
      if j == i {
        EnqueuedIs(c, message);
      }
    case UpdateOp(j) =>
      GrownIs(c, c);
      if j == i {
        UpdatedIs(c);
      }
    case HandleOp(e) => IocpHandleServes(m, e, i);
  }

  ghost function IocpMessagesSent(m: I.Iocp, ops: seq<I.IocpOp>, i: nat): seq<string>
    requires IocpFollowed(m, ops, i).At?
    decreases |ops|
  {
    if ops == [] then []
    else IocpSentBy(ops[0], i) + IocpMessagesSent(I.IocpStep(m, ops[0]), ops[1..], IocpNextAt(m, ops[0], i).index)
  }

  ghost predicate IocpUpdatesOnSame(m: I.Iocp, ops: seq<I.IocpOp>, i: nat)
    requires IocpFollowed(m, ops, i).At?
    decreases |ops|
  {
    ops != [] ==>
      && (IocpUpdates(ops[0], i) ==> AllSame(m.contexts[i].conn))
      && IocpUpdatesOnSame(I.IocpStep(m, ops[0]), ops[1..], IocpNextAt(m, ops[0], i).index)
  }

  lemma {:induction false} IocpRunServes(m: I.Iocp, ops: seq<I.IocpOp>, m': I.Iocp, i: nat)
    requires I.IocpReaches(m, ops, m') && IocpFollowed(m, ops, i).At? && Served(m.contexts[i].conn)
    ensures var k := IocpFollowed(m, ops, i).index;
            k < |m'.contexts| &&
            UserRun(m.contexts[i].conn, IocpMessagesSent(m, ops, i), IocpUpdatesOnSame(m, ops, i), m'.contexts[k].conn)
    decreases |ops|
  {
    if ops == [] {
      NothingRun(m.contexts[i].conn);
    } else {
      IocpStepServes(m, ops[0], i);
      var m1, j := I.IocpStep(m, ops[0]), IocpNextAt(m, ops[0], i).index;
      assert Served(m1.contexts[j].conn);
      hide Served, UserStep, UserRun, AllSame, IocpSentBy, IocpUpdates, IocpNextAt, I.IocpStep, I.IocpPossible;
      IocpRunServes(m1, ops[1..], m', j);
      StepThenRun(m.contexts[i].conn, IocpSentBy(ops[0], i), IocpUpdates(ops[0], i), m1.contexts[j].conn,
                  IocpMessagesSent(m1, ops[1..], j), IocpUpdatesOnSame(m1, ops[1..], j),
                  m'.contexts[IocpFollowed(m, ops, i).index].conn);
    }
  }

  /** The same in every run of this manager. */
  lemma IocpUserEverywhere(m: I.Iocp, handle: nat, ops: seq<I.IocpOp>, m': I.Iocp)
    requires I.IocpReaches(I.IocpAdded(m, handle), ops, m')
    requires IocpFollowed(I.IocpAdded(m, handle), ops, |m.contexts|).At?
    ensures var k := IocpFollowed(I.IocpAdded(m, handle), ops, |m.contexts|).index;
            k < |m'.contexts| &&
            var c := m'.contexts[k].conn;
            && c.history == IocpMessagesSent(I.IocpAdded(m, handle), ops, |m.contexts|)
            && |Heard(c.calls)| + |c.received| == |c.inbox| && c.received == c.inbox[|Heard(c.calls)|..]
            && (Heard(c.calls) == c.inbox[..|Heard(c.calls)|] <==>
                IocpUpdatesOnSame(I.IocpAdded(m, handle), ops, |m.contexts|))
  {
    var added, i := I.IocpAdded(m, handle), |m.contexts|;
    assert added.contexts[i].conn == FRESH && Heard(FRESH.calls) == [];
    IocpRunServes(added, ops, m', i);
  }

  lemma IocpServedEverywhere(m: I.Iocp, ops: seq<I.IocpOp>, m': I.Iocp, i: nat)
    requires I.IocpInitial(m) && I.IocpReaches(m, ops, m') && i < |m'.contexts|
    ensures var c := m'.contexts[i].conn;
            |Heard(c.calls)| + |c.received| == |c.inbox| && c.received == c.inbox[|Heard(c.calls)|..]
  {
    hide I.IocpInitial, I.IocpAdded, Heard;
    var at, m1 := IocpOrigin(m, ops, m', i);
    IocpUserEverywhere(m1, ops[at].handle, ops[at + 1..], m');
  }
}
