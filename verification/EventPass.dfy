/**
  One pass of the buffer-based event manager over its entries (NetBufferBasedEventManager.hpp).
  The loop erases while it iterates by index, so an entry that shifts into an erased place is
  passed over, and it stops early when the count that the wait returned is used up.
 */
module EventPass {
  import opened Memory
  import opened BufferPools
  import opened Framing
  import opened Connections
  import opened Contexts
  import opened EventHandlers
  import opened Receiving
  import opened Sending
  import opened EventTables

  /** One index of the two parallel vectors. */
  datatype Entry = Entry(ctx: Ctx, wantsWrite: bool)

  /**
    What the operating system answers about a socket in this pass: its events, the bytes a
    receive yields (none when it fails or the peer closed), and whether a send succeeds.
   */
  datatype Answer = Answer(ready: Ready, incoming: seq<char>, sendOk: bool)

  type Os = nat -> Answer

  datatype Visited = Visited(pool: Pool, entry: Entry, removed: bool)

  /** A receive of the bytes, when there is a slot to hold them. */
  ghost function Received(s: State, data: seq<char>): State {
    if HasSlot(s) && 1 <= |data| <= |Slot(s)| then
      assert |Slot(Filled(s, data))| == |Slot(s)|;
      ReadDone(Filled(s, data), |data|)
    else s
  }

  ghost function DisconnectedEntry(e: Entry): Entry {
    e.(ctx := Disconnected(e.ctx))
  }

  ghost function RemovedEntry(p: Pool, e: Entry): Visited {
    Visited(p, DisconnectedEntry(e), true)
  }

  /** The checks after a successful read: write, then hang-up, then exception. */
  ghost function VisitWrite(p: Pool, e: Entry, a: Answer): Visited {
    if a.ready.write && e.ctx.conn.toSend != [] then
      if a.sendOk then
        var (c, more) := WriteDone(Transmitted(e.ctx));
        VisitRest(p, Entry(c, e.wantsWrite && more), a)
      else RemovedEntry(p, e)
    else VisitRest(p, e, a)
  }

  ghost function VisitRest(p: Pool, e: Entry, a: Answer): Visited {
    if a.ready.hangup || a.ready.except then RemovedEntry(p, e) else Visited(p, e, false)
  }

  /** One round of the loop on an entry. */
  ghost function Visit(p: Pool, e: Entry, a: Answer): Visited {
    if a.ready.read then
      if a.incoming == [] then RemovedEntry(p, e)
      else
        var s := Received(State(p, e.ctx), a.incoming);
        VisitWrite(s.pool, e.(ctx := s.ctx), a)
    else VisitWrite(p, e, a)
  }

  /**
    A visit removes its entry exactly when the peer closed, a send failed, the peer hung up, or
    there was an exception.
   */
  lemma VisitRemovesIff(p: Pool, e: Entry, a: Answer)
    requires HasSlot(State(p, e.ctx)) && |a.incoming| <= |Slot(State(p, e.ctx))|
    ensures Visit(p, e, a).removed <==>
              || (a.ready.read && a.incoming == [])
              || (a.ready.write && e.ctx.conn.toSend != [] && !a.sendOk)
              || a.ready.hangup || a.ready.except
  {
    hide Join, Take;
  }

  lemma VisitWriteDoes(p: Pool, e: Entry, a: Answer)
    ensures var c' := VisitWrite(p, e, a).entry.ctx;
            && c'.handle == e.ctx.handle && c'.conn.history == e.ctx.conn.history && c'.log == e.ctx.log
            && c'.wire == e.ctx.wire +
               if a.ready.write && e.ctx.conn.toSend != [] && a.sendOk then [Target(e.ctx)] else []
  {
  }

  lemma ReceivedDoes(s: State, data: seq<char>)
    requires HasSlot(s) && 1 <= |data| <= |Slot(s)|
    ensures var c' := Received(s, data).ctx;
            && |c'.log| == |s.ctx.log| + 1 && c'.log[..|s.ctx.log|] == s.ctx.log && Data(c'.log[|s.ctx.log|]) == data
            && c'.handle == s.ctx.handle && c'.wire == s.ctx.wire && c'.handed == s.ctx.handed && c'.send == s.ctx.send
            && c'.conn.toSend == s.ctx.conn.toSend && c'.conn.history == s.ctx.conn.history
  {
    hide Join, Take;
  }

  /**
    What a visit receives and sends: one read of what came in, and one message, unless the peer
    turns out to have closed.
   */
  lemma VisitDoes(p: Pool, e: Entry, a: Answer)
    requires HasSlot(State(p, e.ctx)) && |a.incoming| <= |Slot(State(p, e.ctx))|
    ensures var c', closed := Visit(p, e, a).entry.ctx, a.ready.read && a.incoming == [];
            && c'.handle == e.ctx.handle && c'.conn.history == e.ctx.conn.history
            && (if a.ready.read && !closed
                then
                  && |c'.log| == |e.ctx.log| + 1 && c'.log[..|e.ctx.log|] == e.ctx.log
                  && Data(c'.log[|e.ctx.log|]) == a.incoming
                else c'.log == e.ctx.log)
            && c'.wire == e.ctx.wire +
               if !closed && a.ready.write && e.ctx.conn.toSend != [] && a.sendOk then [Target(e.ctx)] else []
  {
    hide Received, VisitWrite;
    if a.ready.read && a.incoming != [] {
      ReceivedDoes(State(p, e.ctx), a.incoming);
      var s := Received(State(p, e.ctx), a.incoming);
      VisitWriteDoes(s.pool, e.(ctx := s.ctx), a);
    } else {
      VisitWriteDoes(p, e, a);
    }
  }

  datatype Tag = Kept | Removed | PassedOver | NotReached

  datatype Verdict = Verdict(entry: Entry, tag: Tag)

  /** The pass, entry by entry: what becomes of each entry, in the original order. */
  ghost function Sweep(p: Pool, es: seq<Entry>, os: Os, count: nat, skip: bool): (Pool, seq<Verdict>)
    decreases |es|
  {
    if es == [] then (p, [])
    else if skip then
      var (p', vs) := Sweep(p, es[1..], os, count, false);
      (p', [Verdict(es[0], PassedOver)] + vs)
    else if count == 0 then
      var (p', vs) := Sweep(p, es[1..], os, 0, false);
      (p', [Verdict(es[0], NotReached)] + vs)
    else
      var a := os(es[0].ctx.handle);
      var v := Visit(p, es[0], a);
      var (p', vs) := Sweep(v.pool, es[1..], os, if a.ready.IsChanged() then count - 1 else count, v.removed);
      (p', [Verdict(v.entry, if v.removed then Removed else Kept)] + vs)
  }

  /** What is left of the vectors: every entry that was not removed, in the original order. */
  ghost function Survivors(vs: seq<Verdict>): seq<Entry> {
    if vs == [] then []
    else (if vs[0].tag == Removed then [] else [vs[0].entry]) + Survivors(vs[1..])
  }

  ghost function Shifted(places: seq<nat>): (r: seq<nat>)
    ensures |r| == |places| && forall k :: 0 <= k < |r| ==> r[k] == places[k] + 1
  {
    seq(|places|, k requires 0 <= k < |places| => places[k] + 1)
  }

  lemma ShiftedHas(places: seq<nat>, p: nat)
    ensures p in Shifted(places) <==> p > 0 && p - 1 in places
  {
    if p > 0 && p - 1 in places {
      var k :| 0 <= k < |places| && places[k] == p - 1;
      assert Shifted(places)[k] == p;
    }
  }

  /** The old positions of the entries that were not removed. */
  ghost function Places(vs: seq<Verdict>): seq<nat> {
    if vs == [] then []
    else if vs[0].tag == Removed then Shifted(Places(vs[1..]))
    else [0] + Shifted(Places(vs[1..]))
  }

  lemma {:induction false} PlacesHave(vs: seq<Verdict>, p: nat)
    requires p < |vs|
    ensures p in Places(vs) <==> vs[p].tag != Removed
  {
    var rest := Places(vs[1..]);
    ShiftedHas(rest, p);
    if p > 0 {
      PlacesHave(vs[1..], p - 1);
    }
  }

  lemma {:induction false} PlacesCount(vs: seq<Verdict>)
    ensures |Places(vs)| == |Survivors(vs)|
  {
    if vs != [] {
      PlacesCount(vs[1..]);
    }
  }

  lemma {:induction false} PlacesFit(vs: seq<Verdict>, k: nat)
    requires k < |Places(vs)|
    ensures |Places(vs)| == |Survivors(vs)| && Places(vs)[k] < |vs| && vs[Places(vs)[k]].entry == Survivors(vs)[k]
    ensures k > 0 ==> Places(vs)[k - 1] < Places(vs)[k]
  {
    PlacesCount(vs);
    PlacesCount(vs[1..]);
    if vs[0].tag == Removed {
      PlacesFit(vs[1..], k);
    } else if k > 0 {
      PlacesFit(vs[1..], k - 1);
    }
  }

  /** The vectors keep what was not removed, in its original order: old positions increase, and none is left out. */
  lemma SurvivorsInOrder(vs: seq<Verdict>)
    ensures |Places(vs)| == |Survivors(vs)|
    ensures forall k :: 0 <= k < |Places(vs)| ==> Places(vs)[k] < |vs| && vs[Places(vs)[k]].entry == Survivors(vs)[k]
    ensures forall k :: 0 < k < |Places(vs)| ==> Places(vs)[k - 1] < Places(vs)[k]
    ensures forall p :: 0 <= p < |vs| ==> (p in Places(vs) <==> vs[p].tag != Removed)
  {
    PlacesCount(vs);
    hide Places, Survivors;
    forall k | 0 <= k < |Places(vs)|
      ensures Places(vs)[k] < |vs| && vs[Places(vs)[k]].entry == Survivors(vs)[k]
      ensures k > 0 ==> Places(vs)[k - 1] < Places(vs)[k]
    {
      PlacesFit(vs, k);
    }
    forall p | 0 <= p < |vs|
      ensures p in Places(vs) <==> vs[p].tag != Removed
    {
      PlacesHave(vs, p);
    }
  }

  // ----- Which entries a pass leaves unvisited -----

  ghost predicate Unvisited(v: Verdict) {
    v.tag == PassedOver || v.tag == NotReached
  }

  ghost predicate HasEvent(e: Entry, os: Os) {
    os(e.ctx.handle).ready != QUIET
  }

  lemma {:induction false} SweepShape(p: Pool, es: seq<Entry>, os: Os, count: nat, skip: bool)
    ensures var (p', vs) := Sweep(p, es, os, count, skip);
            && |vs| == |es|
            && (forall k :: 0 <= k < |vs| ==> Unvisited(vs[k]) ==> vs[k].entry == es[k])
            && (forall k :: 0 < k < |vs| ==> (vs[k].tag == PassedOver <==> vs[k - 1].tag == Removed))
            && (es != [] ==> (vs[0].tag == PassedOver <==> skip))
            && (forall k :: 0 <= k < |vs| - 1 ==> vs[k].tag == NotReached ==> vs[k + 1].tag == NotReached)
    decreases |es|
  {
    if es != [] {
      if skip {
        SweepShape(p, es[1..], os, count, false);
      } else if count == 0 {
        SweepShape(p, es[1..], os, 0, false);
        ZeroCountReachesNothing(p, es[1..], os);
      } else {
        var a := os(es[0].ctx.handle);
        var v := Visit(p, es[0], a);
        SweepShape(v.pool, es[1..], os, if a.ready.IsChanged() then count - 1 else count, v.removed);
      }
    }
  }

  lemma {:induction false} ZeroCountReachesNothing(p: Pool, es: seq<Entry>, os: Os)
    ensures es != [] ==> |Sweep(p, es, os, 0, false).1| > 0 && Sweep(p, es, os, 0, false).1[0].tag == NotReached
  {
  }

  /** How many entries have an event. */
  ghost function Events(es: seq<Entry>, os: Os): nat {
    if es == [] then 0 else (if HasEvent(es[0], os) then 1 else 0) + Events(es[1..], os)
  }

  /** How many entries with an event were not visited. */
  ghost function Missed(es: seq<Entry>, vs: seq<Verdict>, os: Os): nat
    requires |es| == |vs|
  {
    if es == [] then 0
    else (if Unvisited(vs[0]) && HasEvent(es[0], os) then 1 else 0) + Missed(es[1..], vs[1..], os)
  }

  ghost predicate BrokeOff(vs: seq<Verdict>) {
    vs != [] && (vs[0].tag == NotReached || BrokeOff(vs[1..]))
  }

  lemma {:induction false} MissedNone(es: seq<Entry>, vs: seq<Verdict>, os: Os, k: nat)
    requires |es| == |vs| && Missed(es, vs, os) == 0 && k < |es| && Unvisited(vs[k])
    ensures !HasEvent(es[k], os)
  {
    if k > 0 {
      MissedNone(es[1..], vs[1..], os, k - 1);
    }
  }

  lemma {:induction false} NotReachedBreaks(vs: seq<Verdict>, k: nat)
    requires k < |vs| && vs[k].tag == NotReached
    ensures BrokeOff(vs)
  {
    if k > 0 {
      NotReachedBreaks(vs[1..], k - 1);
    }
  }

  /** When the loop breaks off, the count went to visited entries with an event, one each. */
  lemma {:induction false} BreakCount(p: Pool, es: seq<Entry>, os: Os, count: nat, skip: bool)
    ensures var vs := Sweep(p, es, os, count, skip).1;
            |vs| == |es| && (BrokeOff(vs) ==> Missed(es, vs, os) + count == Events(es, os))
    decreases |es|
  {
    SweepShape(p, es, os, count, skip);
    if es != [] {
      var vs := Sweep(p, es, os, count, skip).1;
      if skip {
        BreakCount(p, es[1..], os, count, false);
        assert vs[1..] == Sweep(p, es[1..], os, count, false).1;
      } else if count == 0 {
        BreakCount(p, es[1..], os, 0, false);
        ZeroCountReachesNothing(p, es[1..], os);
        assert vs[1..] == Sweep(p, es[1..], os, 0, false).1;
      } else {
        var a := os(es[0].ctx.handle);
        var v := Visit(p, es[0], a);
        var left := if a.ready.IsChanged() then count - 1 else count;
        BreakCount(v.pool, es[1..], os, left, v.removed);
        assert vs[1..] == Sweep(v.pool, es[1..], os, left, v.removed).1;
      }
    }
  }

  /**
    The early exit is sound.  When the wait counted at least the entries with an event, as both
    poll and select do, a pass leaves an entry with an event unvisited if and only if the entry
    before it was removed in this pass; and then the loop did not break off.
   */
  lemma EarlyExit(p: Pool, es: seq<Entry>, os: Os, count: nat, k: nat)
    requires Events(es, os) <= count && k < |es|
    ensures var vs := Sweep(p, es, os, count, false).1;
            && |vs| == |es|
            && (Unvisited(vs[k]) ==> vs[k].entry == es[k])
            && (HasEvent(es[k], os) ==>
                  && (Unvisited(vs[k]) <==> k > 0 && vs[k - 1].tag == Removed)
                  && (Unvisited(vs[k]) ==> !BrokeOff(vs)))
  {
    SweepShape(p, es, os, count, false);
    BreakCount(p, es, os, count, false);
    var vs := Sweep(p, es, os, count, false).1;
    if Unvisited(vs[k]) && HasEvent(es[k], os) {
      if BrokeOff(vs) {
        MissedNone(es, vs, os, k);
      }
      if vs[k].tag == NotReached {
        NotReachedBreaks(vs, k);
      }
    }
  }

  /** It happens: of two entries whose peers both hang up, the first is removed and the second is passed over. */
  lemma SecondHangUpIsMissed(p: Pool, es: seq<Entry>, os: Os)
    requires |es| == 2
    requires forall k :: 0 <= k < 2 ==>
               os(es[k].ctx.handle) == Answer(Ready(false, false, false, true, false), [], true)
    ensures var vs := Sweep(p, es, os, 2, false).1;
            && Events(es, os) == 2 && |vs| == 2
            && vs[0].tag == Removed && vs[1] == Verdict(es[1], PassedOver) && HasEvent(es[1], os)
  {
    assert es[1..][0] == es[1] && es[1..][1..] == [];
    assert Events(es[1..], os) == 1 + Events([], os);
    assert Visit(p, es[0], os(es[0].ctx.handle)) == RemovedEntry(p, es[0]);
    assert Sweep(p, es[1..], os, 1, true).1 == [Verdict(es[1], PassedOver)];
  }

  /** With select the events of the entries are those its three sets report of their sockets. */
  lemma {:induction false} EventsAreChanged(es: seq<Entry>, os: Os, sockets: seq<nat>,
                                            r: set<nat>, w: set<nat>, x: set<nat>)
    requires |sockets| == |es|
    requires forall k :: 0 <= k < |es| ==>
               sockets[k] == es[k].ctx.handle && os(sockets[k]).ready == SelectFD(sockets[k], r, w, x)
    ensures Events(es, os) == ChangedSockets(sockets, r, w, x)
  {
    if es != [] {
      EventsAreChanged(es[1..], os, sockets[1..], r, w, x);
    }
  }

  /**
    What a wait over a select buffer reports: the table's sockets are those of the entries, and each
    copy keeps of its set the descriptors that are ready.
   */
  ghost predicate Selected(es: seq<Entry>, os: Os, t: SelectTable,
                           readable: set<nat>, writable: set<nat>, failing: set<nat>) {
    && SelectOk(t) && |t.sockets| == |es|
    && forall k :: 0 <= k < |es| ==>
         && t.sockets[k] == es[k].ctx.handle && (es[k].wantsWrite <==> t.sockets[k] in t.writeFDs)
         && os(t.sockets[k]).ready ==
            SelectFD(t.sockets[k], t.readFDs * readable, t.writeFDs * writable, t.exceptFDs * failing)
  }

  /** Select reports a socket readable, writable or failing if it is, but writable only where that was asked for. */
  lemma SelectReports(es: seq<Entry>, os: Os, t: SelectTable,
                      readable: set<nat>, writable: set<nat>, failing: set<nat>, k: nat)
    requires Selected(es, os, t, readable, writable, failing) && k < |es|
    ensures var e, a := es[k], os(es[k].ctx.handle);
            && (a.ready.read <==> e.ctx.handle in readable)
            && (a.ready.write <==> e.wantsWrite && e.ctx.handle in writable)
            && (a.ready.except <==> e.ctx.handle in failing)
            && !a.ready.hangup && !a.ready.other
            && forall size: nat :: |a.incoming| <= size ==> AnswerOk(e, a, size)
  {
    assert t.sockets[k] in t.sockets;
  }

  /** The early exit is sound over select too, whose wait counts bits and not sockets. */
  lemma SelectEarlyExit(p: Pool, es: seq<Entry>, os: Os, t: SelectTable,
                        readable: set<nat>, writable: set<nat>, failing: set<nat>, k: nat)
    requires Selected(es, os, t, readable, writable, failing) && k < |es|
    ensures var r, w, x := t.readFDs * readable, t.writeFDs * writable, t.exceptFDs * failing;
            var vs, fd := Sweep(p, es, os, |r| + |w| + |x|, false).1, es[k].ctx.handle;
            && |vs| == |es|
            && (Unvisited(vs[k]) ==> vs[k].entry == es[k])
            && (fd in readable || (es[k].wantsWrite && fd in writable) || fd in failing ==>
                  && (Unvisited(vs[k]) <==> k > 0 && vs[k - 1].tag == Removed)
                  && (Unvisited(vs[k]) ==> !BrokeOff(vs)))
  {
    hide Sweep, BrokeOff, Events, SelectFD, AnswerOk;
    var r, w, x := t.readFDs * readable, t.writeFDs * writable, t.exceptFDs * failing;
    EventsAreChanged(es, os, t.sockets, r, w, x);
    SelectCountCovers(t.sockets, r, w, x);
    EarlyExit(p, es, os, |r| + |w| + |x|, k);
    SelectReports(es, os, t, readable, writable, failing, k);
  }

  // ----- What a pass keeps -----

  ghost function Holding(e: Entry): multiset<Pointer> {
    multiset(e.ctx.receive.buffers)
  }

  /** Everything an open entry keeps: its receive side, its send side, and an open connection. */
  ghost predicate EntryOk(p: Pool, e: Entry) {
    ReceiveOk(State(p, e.ctx)) && PollSendOk(e.ctx, e.wantsWrite) && e.ctx.conn.status == Init
  }

  /** What the operating system can answer: at most a buffer of bytes, and writability only where it was asked for. */
  ghost predicate AnswerOk(e: Entry, a: Answer, size: nat) {
    |a.incoming| <= size && (a.ready.write ==> e.wantsWrite)
  }

  lemma EntryStays(p: Pool, p': Pool, e: Entry)
    requires EntryOk(p, e) && Untouched(p, p', Holding(e)) && p'.size == p.size
    ensures EntryOk(p', e)
  {
  }

  lemma {:induction false} VisitWriteKeeps(p: Pool, e: Entry, a: Answer)
    requires EntryOk(p, e) && (a.ready.write ==> e.wantsWrite)
    ensures var v := VisitWrite(p, e, a);
            && v.pool == p && Holding(v.entry) == Holding(e)
            && (v.removed ==> v.entry.ctx.conn.status == MarkForClose)
            && (!v.removed ==> EntryOk(p, v.entry))
  {
    if a.ready.write && a.sendOk {
      PollWriteKeeps(e.ctx);
    }
  }

  lemma SameSendSide(c: Ctx, c': Ctx, wantsWrite: bool)
    requires PollSendOk(c, wantsWrite)
    requires c'.send == c.send && c'.wire == c.wire && c'.handed == c.handed
    requires c'.conn.toSend == c.conn.toSend && c'.conn.history == c.conn.history
    ensures PollSendOk(c', wantsWrite)
  {
  }

  lemma ReceivedKeeps(p: Pool, e: Entry, data: seq<char>, others: multiset<Pointer>)
    requires EntryOk(p, e) && PoolOk(p, others + Holding(e)) && 1 <= |data| <= p.size
    ensures var s := Received(State(p, e.ctx), data);
            && PoolOk(s.pool, others + multiset(s.ctx.receive.buffers)) && s.pool.size == p.size
            && Untouched(p, s.pool, others) && EntryOk(s.pool, e.(ctx := s.ctx))
  {
    ReceiveKeeps(State(p, e.ctx), data, others);
    var s := Received(State(p, e.ctx), data);
    SameSendSide(e.ctx, s.ctx, e.wantsWrite);
  }

  lemma {:induction false} VisitKeeps(p: Pool, e: Entry, a: Answer, others: multiset<Pointer>)
    requires EntryOk(p, e) && AnswerOk(e, a, p.size) && PoolOk(p, others + Holding(e))
    ensures var v := Visit(p, e, a);
            && PoolOk(v.pool, others + Holding(v.entry)) && v.pool.size == p.size && Untouched(p, v.pool, others)
            && (v.removed ==> v.entry.ctx.conn.status == MarkForClose)
            && (!v.removed ==> EntryOk(v.pool, v.entry))
  {
    if a.ready.read && a.incoming != [] {
      ReceivedKeeps(p, e, a.incoming, others);
      var s := Received(State(p, e.ctx), a.incoming);
      VisitWriteKeeps(s.pool, e.(ctx := s.ctx), a);
    } else {
      HeldIsThere(p, others + Holding(e));
      if !a.ready.read {
        VisitWriteKeeps(p, e, a);
      }
    }
  }

  ghost function Holdings(es: seq<Entry>): multiset<Pointer> {
    if es == [] then multiset{} else Holding(es[0]) + Holdings(es[1..])
  }

  ghost function Entries(vs: seq<Verdict>): (es: seq<Entry>)
    ensures |es| == |vs| && forall k :: 0 <= k < |vs| ==> es[k] == vs[k].entry
  {
    if vs == [] then [] else [vs[0].entry] + Entries(vs[1..])
  }

  ghost predicate AllOk(p: Pool, es: seq<Entry>) {
    forall k :: 0 <= k < |es| ==> EntryOk(p, es[k])
  }

  ghost predicate AnswersOk(es: seq<Entry>, os: Os, size: nat) {
    forall k :: 0 <= k < |es| ==> AnswerOk(es[k], os(es[k].ctx.handle), size)
  }

  /** Kept and unvisited entries are as good as before; removed ones have their connection marked. */
  ghost predicate VerdictOk(p: Pool, v: Verdict) {
    if v.tag == Removed then v.entry.ctx.conn.status == MarkForClose else EntryOk(p, v.entry)
  }

  lemma {:induction false} HoldingWithin(es: seq<Entry>, k: nat)
    requires k < |es|
    ensures Holding(es[k]) <= Holdings(es)
  {
    if k > 0 {
      HoldingWithin(es[1..], k - 1);
    }
  }

  lemma AllStay(p: Pool, p': Pool, es: seq<Entry>)
    requires AllOk(p, es) && Untouched(p, p', Holdings(es)) && p'.size == p.size
    ensures AllOk(p', es)
  {
    forall k | 0 <= k < |es|
      ensures EntryOk(p', es[k])
    {
      HoldingWithin(es, k);
      EntryStays(p, p', es[k]);
    }
  }

  /** What a sweep of `es` promises to whoever holds `others`. */
  ghost predicate SweepOk(p: Pool, p': Pool, vs: seq<Verdict>, others: multiset<Pointer>) {
    && PoolOk(p', others + Holdings(Entries(vs))) && p'.size == p.size
    && Untouched(p, p', others)
    && forall k :: 0 <= k < |vs| ==> VerdictOk(p', vs[k])
  }

  lemma HeadVerdict(p: Pool, p1: Pool, p': Pool, v: Verdict, vs: seq<Verdict>, others: multiset<Pointer>)
    requires Untouched(p, p1, others) && p1.size == p.size && VerdictOk(p1, v)
    requires SweepOk(p1, p', vs, others + Holding(v.entry))
    ensures SweepOk(p, p', [v] + vs, others)
  {
    assert ([v] + vs)[1..] == vs;
    assert others + Holding(v.entry) + Holdings(Entries(vs)) == others + Holdings(Entries([v] + vs));
    if v.tag != Removed {
      EntryStays(p1, p', v.entry);
    }
  }

  /**
    A pass loses no buffer, hands none out twice, touches no byte held outside it, and leaves
    every entry that stays with its receive slot, its framing and its write interest intact.
   */
  lemma {:induction false} SweepKeeps(p: Pool, es: seq<Entry>, os: Os, count: nat, skip: bool,
                                      others: multiset<Pointer>)
    requires PoolOk(p, others + Holdings(es)) && AllOk(p, es) && AnswersOk(es, os, p.size)
    ensures var (p', vs) := Sweep(p, es, os, count, skip); SweepOk(p, p', vs, others)
    decreases |es|
  {
    if es == [] {
      HeldIsThere(p, others + Holdings(es));
    } else {
      var e, rest := es[0], es[1..];
      assert others + Holdings(es) == others + Holdings(rest) + Holding(e) == others + Holding(e) + Holdings(rest);
      HeldIsThere(p, others + Holdings(es));
      if skip {
        SweepKeeps(p, rest, os, count, false, others + Holding(e));
        var (p', vs) := Sweep(p, rest, os, count, false);
        HeadVerdict(p, p, p', Verdict(e, PassedOver), vs, others);
      } else if count == 0 {
        SweepKeeps(p, rest, os, 0, false, others + Holding(e));
        var (p', vs) := Sweep(p, rest, os, 0, false);
        HeadVerdict(p, p, p', Verdict(e, NotReached), vs, others);
      } else {
        VisitedKeeps(p, es, os, count, others);
      }
    }
  }

  lemma {:induction false} VisitedKeeps(p: Pool, es: seq<Entry>, os: Os, count: nat, others: multiset<Pointer>)
    requires es != [] && count > 0
    requires PoolOk(p, others + Holdings(es)) && AllOk(p, es) && AnswersOk(es, os, p.size)
    ensures var (p', vs) := Sweep(p, es, os, count, false); SweepOk(p, p', vs, others)
    decreases |es|, 0
  {
    hide EntryOk, PoolOk, Untouched;
    var e, rest := es[0], es[1..];
    var a := os(e.ctx.handle);
    var v := Visit(p, e, a);
    var left := if a.ready.IsChanged() then count - 1 else count;
    assert others + Holdings(es) == others + Holdings(rest) + Holding(e);
    VisitKeeps(p, e, a, others + Holdings(rest));
    AllStay(p, v.pool, rest);
    assert others + Holdings(rest) + Holding(v.entry) == others + Holding(v.entry) + Holdings(rest);
    SweepKeeps(v.pool, rest, os, left, v.removed, others + Holding(v.entry));
    var (p', vs) := Sweep(v.pool, rest, os, left, v.removed);
    HeadVerdict(p, v.pool, p', Verdict(v.entry, if v.removed then Removed else Kept), vs, others);
  }
}
