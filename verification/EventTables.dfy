/**
  The two interest tables (NetPollEventManager.hpp, NetSelectEventManager.hpp): poll keeps an
  entry with flags for each index, select keeps sets of descriptors beside a vector.
 */
module EventTables {

  /** What a wait reports of one socket. */
  datatype Ready = Ready(read: bool, write: bool, except: bool, hangup: bool, other: bool) {
    predicate IsChanged()
      ensures IsChanged() <==> this != QUIET
    {
      read || write || except || hangup || other
    }
  }

  const QUIET: Ready := Ready(false, false, false, false, false)

  datatype PollFD = PollFD(fd: nat, wantsWrite: bool, revents: Ready)

  const FD_SETSIZE: nat := 1024

  /** The select buffer as a value. */
  datatype SelectTable = SelectTable(
    sockets: seq<nat>,
    readFDs: set<nat>,
    writeFDs: set<nat>,
    exceptFDs: set<nat>,
    largest: nat
  )

  datatype TableOp = AddOp(fd: nat) | RemoveOp(index: nat) | SetWriteOp(index: nat) | ResetWriteOp(index: nat)

  /** `erase` of a vector. */
  function Erased<T>(s: seq<T>, i: nat): (r: seq<T>)
    requires i < |s|
    ensures |r| == |s| - 1 && forall k :: 0 <= k < |r| ==> r[k] == if k < i then s[k] else s[k + 1]
  {
    s[..i] + s[i + 1..]
  }

  ghost function PollStep(t: seq<PollFD>, op: TableOp): seq<PollFD>
    requires !op.AddOp? ==> op.index < |t|
  {
    match op
    case AddOp(fd) => t + [PollFD(fd, false, QUIET)]
    case RemoveOp(i) => Erased(t, i)
    case SetWriteOp(i) => t[i := t[i].(wantsWrite := true)]
    case ResetWriteOp(i) => t[i := t[i].(wantsWrite := false)]
  }

  function Highest(sockets: seq<nat>): (m: nat)
    requires sockets != []
    ensures m in sockets && forall s <- sockets :: s <= m
  {
    if |sockets| == 1 then sockets[0]
    else
      var rest := Highest(sockets[1..]);
      assert sockets == [sockets[0]] + sockets[1..];
      if sockets[0] < rest then rest else sockets[0]
  }

  ghost function SelectStep(t: SelectTable, op: TableOp): SelectTable
    requires !op.AddOp? ==> op.index < |t.sockets|
  {
    match op
    case AddOp(fd) =>
      if fd >= FD_SETSIZE then t
      else t.(sockets := t.sockets + [fd], readFDs := t.readFDs + {fd}, exceptFDs := t.exceptFDs + {fd},
              largest := if fd > t.largest then fd else t.largest)
    case RemoveOp(i) =>
      var fd := t.sockets[i];
      t.(sockets := Erased(t.sockets, i),
         readFDs := t.readFDs - {fd}, writeFDs := t.writeFDs - {fd}, exceptFDs := t.exceptFDs - {fd},
         largest := if t.largest == fd then Highest(t.sockets) else t.largest)
    case SetWriteOp(i) => t.(writeFDs := t.writeFDs + {t.sockets[i]})
    case ResetWriteOp(i) => t.(writeFDs := t.writeFDs - {t.sockets[i]})
  }

  ghost predicate Distinct(s: seq<nat>) {
    forall j, k :: 0 <= j < k < |s| ==> s[j] != s[k]
  }

  /** The sets of a select buffer are those of its vector. */
  ghost predicate SelectOk(t: SelectTable) {
    && Distinct(t.sockets)
    && (forall fd :: fd in t.readFDs <==> fd in t.sockets)
    && t.exceptFDs == t.readFDs
    && t.writeFDs <= t.readFDs
    && (forall fd <- t.sockets :: fd <= t.largest && fd < FD_SETSIZE)
  }

  /** Both tables hold the same rows in the same order. */
  ghost predicate Agree(p: seq<PollFD>, s: SelectTable) {
    && |p| == |s.sockets|
    && forall k :: 0 <= k < |p| ==> p[k].fd == s.sockets[k] && (p[k].wantsWrite <==> s.sockets[k] in s.writeFDs)
  }

  /** Indices are in range, and a socket that is added is in neither table. */
  ghost predicate Applicable(p: seq<PollFD>, s: SelectTable, op: TableOp) {
    match op
    case AddOp(fd) => fd !in s.sockets && forall k :: 0 <= k < |p| ==> p[k].fd != fd
    case RemoveOp(i) => i < |p| && i < |s.sockets|
    case SetWriteOp(i) => i < |p| && i < |s.sockets|
    case ResetWriteOp(i) => i < |p| && i < |s.sockets|
  }

  ghost predicate Refused(op: TableOp) {
    op.AddOp? && op.fd >= FD_SETSIZE
  }

  lemma RemoveAt<T>(s: seq<T>, i: nat, x: T)
    requires i < |s|
    ensures x in Erased(s, i) ==> x in s
    ensures x in s && x != s[i] ==> x in Erased(s, i)
  {
  }

  lemma SelectRemoveKeeps(t: SelectTable, i: nat)
    requires SelectOk(t) && i < |t.sockets|
    ensures SelectOk(SelectStep(t, RemoveOp(i))) && SelectStep(t, RemoveOp(i)).largest == t.largest
  {
    var t' := SelectStep(t, RemoveOp(i));
    assert t.sockets[i] in t.sockets;
    forall fd: nat
      ensures fd in t'.readFDs <==> fd in t'.sockets
    {
      RemoveAt(t.sockets, i, fd);
    }
  }

  lemma SelectStepKeeps(t: SelectTable, op: TableOp)
    requires SelectOk(t)
    requires if op.AddOp? then op.fd !in t.sockets else op.index < |t.sockets|
    ensures SelectOk(SelectStep(t, op))
    ensures SelectStep(t, op).largest == if op.AddOp? && !Refused(op) && op.fd > t.largest then op.fd else t.largest
  {
    if op.RemoveOp? {
      SelectRemoveKeeps(t, op.index);
    }
  }

  lemma AgreeStep(p: seq<PollFD>, s: SelectTable, op: TableOp)
    requires SelectOk(s) && Agree(p, s) && Applicable(p, s, op) && !Refused(op)
    ensures Agree(PollStep(p, op), SelectStep(s, op))
  {
  }

  datatype Tables = Tables(poll: seq<PollFD>, select: SelectTable)

  ghost function TablesRun(t: Tables, ops: seq<TableOp>): Tables
    requires ApplicableRun(t, ops)
    decreases |ops|
  {
    if ops == [] then t
    else TablesRun(Tables(PollStep(t.poll, ops[0]), SelectStep(t.select, ops[0])), ops[1..])
  }

  ghost predicate ApplicableRun(t: Tables, ops: seq<TableOp>)
    decreases |ops|
  {
    ops != [] ==>
      && Applicable(t.poll, t.select, ops[0])
      && ApplicableRun(Tables(PollStep(t.poll, ops[0]), SelectStep(t.select, ops[0])), ops[1..])
  }

  ghost function Refusals(ops: seq<TableOp>): nat {
    if ops == [] then 0 else (if Refused(ops[0]) then 1 else 0) + Refusals(ops[1..])
  }

  lemma {:induction false} RunLengths(t: Tables, ops: seq<TableOp>)
    requires ApplicableRun(t, ops) && SelectOk(t.select)
    ensures var t' := TablesRun(t, ops);
            SelectOk(t'.select) && |t'.poll| - |t'.select.sockets| == |t.poll| - |t.select.sockets| + Refusals(ops)
    decreases |ops|
  {
    if ops != [] {
      SelectStepKeeps(t.select, ops[0]);
      RunLengths(Tables(PollStep(t.poll, ops[0]), SelectStep(t.select, ops[0])), ops[1..]);
    }
  }

  lemma {:induction false} RunAgrees(t: Tables, ops: seq<TableOp>)
    requires ApplicableRun(t, ops) && SelectOk(t.select) && Agree(t.poll, t.select) && Refusals(ops) == 0
    ensures var t' := TablesRun(t, ops); Agree(t'.poll, t'.select)
    decreases |ops|
  {
    if ops != [] {
      SelectStepKeeps(t.select, ops[0]);
      AgreeStep(t.poll, t.select, ops[0]);
      RunAgrees(Tables(PollStep(t.poll, ops[0]), SelectStep(t.select, ops[0])), ops[1..]);
    }
  }

  /**
    One table, two representations.  After any run of operations the select sets are still
    those of its vector, and the two buffers represent the same rows if and only if no socket
    that was added had a value of FD_SETSIZE or more.
   */
  lemma OneTable(t: Tables, ops: seq<TableOp>)
    requires ApplicableRun(t, ops) && SelectOk(t.select) && Agree(t.poll, t.select)
    ensures var t' := TablesRun(t, ops);
            SelectOk(t'.select) && (Agree(t'.poll, t'.select) <==> Refusals(ops) == 0)
  {
    RunLengths(t, ops);
    if Refusals(ops) == 0 {
      RunAgrees(t, ops);
    }
  }

  /** It happens: a socket of FD_SETSIZE gets a row of the poll buffer and none of the select buffer. */
  lemma OneRefused(t: Tables)
    requires t == Tables([], SelectTable([], {}, {}, {}, 0))
    ensures var ops := [AddOp(FD_SETSIZE)];
            && ApplicableRun(t, ops) && Refusals(ops) == 1
            && |TablesRun(t, ops).poll| == 1 && TablesRun(t, ops).select.sockets == []
  {
    var ops := [AddOp(FD_SETSIZE)];
    assert ops[1..] == [];
  }

  // ----- A manager's contexts beside a select buffer -----

  /**
    The sockets of a manager's contexts: an accept appends one whether the table took it or not, a
    removal erases the index it is given.
   */
  ghost function ContextsStep(handles: seq<nat>, op: TableOp): seq<nat> {
    match op
    case AddOp(fd) => handles + [fd]
    case RemoveOp(i) => if i < |handles| then Erased(handles, i) else handles
    case _ => handles
  }

  ghost function ContextsRun(handles: seq<nat>, ops: seq<TableOp>): seq<nat>
    decreases |ops|
  {
    if ops == [] then handles else ContextsRun(ContextsStep(handles, ops[0]), ops[1..])
  }

  /** The contexts are those of the poll rows. */
  ghost predicate RowsOf(handles: seq<nat>, p: seq<PollFD>) {
    |handles| == |p| && forall k :: 0 <= k < |p| ==> handles[k] == p[k].fd
  }

  lemma {:induction false} ContextsAreRows(t: Tables, handles: seq<nat>, ops: seq<TableOp>)
    requires ApplicableRun(t, ops) && RowsOf(handles, t.poll)
    ensures RowsOf(ContextsRun(handles, ops), TablesRun(t, ops).poll)
    decreases |ops|
  {
    if ops != [] {
      assert RowsOf(ContextsStep(handles, ops[0]), PollStep(t.poll, ops[0]));
      hide RowsOf, PollStep, ContextsStep, SelectStep;
      ContextsAreRows(Tables(PollStep(t.poll, ops[0]), SelectStep(t.select, ops[0])),
                      ContextsStep(handles, ops[0]), ops[1..]);
    }
  }

  /**
    Over a select buffer a manager's contexts stay aligned with the sockets, so that events go to
    the right context, if and only if no socket that was accepted had a value of FD_SETSIZE or more.
   */
  lemma ContextsAligned(t: Tables, ops: seq<TableOp>)
    requires ApplicableRun(t, ops) && SelectOk(t.select) && Agree(t.poll, t.select)
    ensures ContextsRun(t.select.sockets, ops) == TablesRun(t, ops).select.sockets <==> Refusals(ops) == 0
  {
    ContextsAreRows(t, t.select.sockets, ops);
    RunLengths(t, ops);
    if Refusals(ops) == 0 {
      RunAgrees(t, ops);
    }
  }

  lemma RunFirst(t: Tables, op: TableOp, rest: seq<TableOp>)
    requires Applicable(t.poll, t.select, op)
    requires ApplicableRun(Tables(PollStep(t.poll, op), SelectStep(t.select, op)), rest)
    ensures ApplicableRun(t, [op] + rest)
    ensures TablesRun(t, [op] + rest) == TablesRun(Tables(PollStep(t.poll, op), SelectStep(t.select, op)), rest)
    ensures forall handles :: ContextsRun(handles, [op] + rest) == ContextsRun(ContextsStep(handles, op), rest)
  {
    assert ([op] + rest)[1..] == rest;
  }

  /** It happens: after a refused socket, the first row of the table is another context's. */
  lemma WrongContext(t: Tables)
    requires t == Tables([], SelectTable([], {}, {}, {}, 0))
    ensures var ops := [AddOp(FD_SETSIZE), AddOp(5)];
            && ApplicableRun(t, ops)
            && TablesRun(t, ops).select.sockets == [5] && ContextsRun([], ops) == [FD_SETSIZE, 5]
  {
    var first, second := AddOp(FD_SETSIZE), AddOp(5);
    var t1 := Tables(PollStep(t.poll, first), SelectStep(t.select, first));
    var t2 := Tables(PollStep(t1.poll, second), SelectStep(t1.select, second));
    assert t1.select.sockets == [] && t2.select.sockets == [5];
    assert ContextsStep([], first) == [FD_SETSIZE] && ContextsStep([FD_SETSIZE], second) == [FD_SETSIZE, 5];
    RunFirst(t1, second, []);
    assert [second] + [] == [second];
    RunFirst(t, first, [second]);
    assert [first] + [second] == [first, second];
  }

  /** The largest socket of a run: never lowered, not even when its socket is removed. */
  ghost function LargestAdded(largest: nat, ops: seq<TableOp>): nat
    decreases |ops|
  {
    if ops == [] then largest
    else
      var op := ops[0];
      LargestAdded(if op.AddOp? && !Refused(op) && op.fd > largest then op.fd else largest, ops[1..])
  }

  lemma {:induction false} LargestNeverFalls(t: Tables, ops: seq<TableOp>)
    requires ApplicableRun(t, ops) && SelectOk(t.select)
    ensures TablesRun(t, ops).select.largest == LargestAdded(t.select.largest, ops)
    decreases |ops|
  {
    if ops != [] {
      SelectStepKeeps(t.select, ops[0]);
      LargestNeverFalls(Tables(PollStep(t.poll, ops[0]), SelectStep(t.select, ops[0])), ops[1..]);
    }
  }

  // ----- What a wait counts -----

  function Arrived(t: seq<PollFD>, events: seq<Ready>): (t': seq<PollFD>)
    requires |events| == |t|
    ensures |t'| == |t| && forall k :: 0 <= k < |t| ==> t'[k] == t[k].(revents := events[k])
  {
    seq(|t|, k requires 0 <= k < |t| => t[k].(revents := events[k]))
  }

  /** How many entries have an event: what poll returns. */
  function Changed(t: seq<PollFD>): nat {
    if t == [] then 0 else (if t[0].revents.IsChanged() then 1 else 0) + Changed(t[1..])
  }

  /** The events that the three sets select leaves report of a socket. */
  function SelectFD(fd: nat, r: set<nat>, w: set<nat>, e: set<nat>): Ready {
    Ready(fd in r, fd in w, fd in e, false, false)
  }

  /** How many sockets have an event according to those sets. */
  ghost function ChangedSockets(sockets: seq<nat>, r: set<nat>, w: set<nat>, e: set<nat>): nat {
    if sockets == [] then 0
    else (if SelectFD(sockets[0], r, w, e).IsChanged() then 1 else 0) + ChangedSockets(sockets[1..], r, w, e)
  }

  lemma {:induction false} ChangedWithin(sockets: seq<nat>, r: set<nat>, w: set<nat>, e: set<nat>, any: set<nat>)
    requires Distinct(sockets)
    requires forall fd <- sockets :: SelectFD(fd, r, w, e).IsChanged() ==> fd in any
    ensures ChangedSockets(sockets, r, w, e) <= |any|
  {
    if sockets != [] {
      var fd, rest := sockets[0], sockets[1..];
      assert fd in sockets && fd !in rest;
      assert forall f <- rest :: f in sockets;
      if fd in any {
        ChangedWithin(rest, r, w, e, any - {fd});
        assert |any - {fd}| == |any| - 1;
      } else {
        ChangedWithin(rest, r, w, e, any);
      }
    }
  }

  /** The number of bits that select returns is at least the number of sockets with an event. */
  lemma SelectCountCovers(sockets: seq<nat>, r: set<nat>, w: set<nat>, e: set<nat>)
    requires Distinct(sockets)
    ensures ChangedSockets(sockets, r, w, e) <= |r| + |w| + |e|
  {
    ChangedWithin(sockets, r, w, e, r + w + e);
    UnionSize(r, w);
    UnionSize(r + w, e);
  }

  lemma UnionSize(a: set<nat>, b: set<nat>)
    ensures |a + b| <= |a| + |b|
  {
  }

  // ----- The classes -----

  class NetPollBuffer {
    var pollFDs: seq<PollFD>

    constructor ()
      ensures pollFDs == []
    {
      pollFDs := [];
    }

    method Add(fd: nat) returns (added: bool)
      modifies this
      ensures added && pollFDs == PollStep(old(pollFDs), AddOp(fd))
    {
      pollFDs := pollFDs + [PollFD(fd, false, QUIET)];
      added := true;
    }

    method Remove(index: nat)
      requires index < |pollFDs|
      modifies this
      ensures pollFDs == PollStep(old(pollFDs), RemoveOp(index))
    {
      pollFDs := Erased(pollFDs, index);
    }

    method SetWriteFlag(index: nat)
      requires index < |pollFDs|
      modifies this
      ensures pollFDs == PollStep(old(pollFDs), SetWriteOp(index))
    {
      pollFDs := pollFDs[index := pollFDs[index].(wantsWrite := true)];
    }

    method ResetWriteFlag(index: nat)
      requires index < |pollFDs|
      modifies this
      ensures pollFDs == PollStep(old(pollFDs), ResetWriteOp(index))
    {
      pollFDs := pollFDs[index := pollFDs[index].(wantsWrite := false)];
    }

    /** The operating system fills in the events of every entry and counts the entries that have any. */
    method WaitForEvents(events: seq<Ready>) returns (result: nat)
      requires |events| == |pollFDs|
      modifies this
      ensures pollFDs == Arrived(old(pollFDs), events) && result == Changed(pollFDs)
    {
      pollFDs := Arrived(pollFDs, events);
      result := Changed(pollFDs);
    }

    function At(index: nat): PollFD
      requires index < |pollFDs|
      reads this
    {
      pollFDs[index]
    }
  }

  class NetSelectBuffer {
    var sockets: seq<nat>
    var readFDs: set<nat>
    var writeFDs: set<nat>
    var exceptFDs: set<nat>
    var largestSocket: nat
    var readFDsCopy: set<nat>
    var writeFDsCopy: set<nat>
    var exceptFDsCopy: set<nat>

    ghost function Table(): SelectTable
      reads this
    {
      SelectTable(sockets, readFDs, writeFDs, exceptFDs, largestSocket)
    }

    constructor ()
      ensures Table() == SelectTable([], {}, {}, {}, 0) && SelectOk(Table())
    {
      sockets, readFDs, writeFDs, exceptFDs, largestSocket := [], {}, {}, {}, 0;
      readFDsCopy, writeFDsCopy, exceptFDsCopy := {}, {}, {};
    }

    method Add(fd: nat) returns (added: bool)
      requires SelectOk(Table()) && fd !in sockets
      modifies this
      ensures SelectOk(Table()) && Table() == SelectStep(old(Table()), AddOp(fd))
      ensures added <==> fd < FD_SETSIZE
    {
      SelectStepKeeps(Table(), AddOp(fd));
      if fd >= FD_SETSIZE {
        return false;
      }
      readFDs := readFDs + {fd};
      exceptFDs := exceptFDs + {fd};
      if fd > largestSocket { largestSocket := fd; }
      sockets := sockets + [fd];
      return true;
    }

    method Remove(index: nat)
      requires SelectOk(Table()) && index < |sockets|
      modifies this
      ensures SelectOk(Table()) && Table() == SelectStep(old(Table()), RemoveOp(index))
      ensures largestSocket == old(largestSocket)
    {
      SelectRemoveKeeps(Table(), index);
      var fd := sockets[index];
      readFDs := readFDs - {fd};
      writeFDs := writeFDs - {fd};
      exceptFDs := exceptFDs - {fd};
      if largestSocket == fd { largestSocket := Highest(sockets); }
      sockets := Erased(sockets, index);
    }

    method SetWriteFlag(index: nat)
      requires SelectOk(Table()) && index < |sockets|
      modifies this`writeFDs
      ensures SelectOk(Table()) && Table() == SelectStep(old(Table()), SetWriteOp(index))
    {
      writeFDs := writeFDs + {sockets[index]};
    }

    method ResetWriteFlag(index: nat)
      requires SelectOk(Table()) && index < |sockets|
      modifies this`writeFDs
      ensures SelectOk(Table()) && Table() == SelectStep(old(Table()), ResetWriteOp(index))
    {
      writeFDs := writeFDs - {sockets[index]};
    }

    /** The operating system leaves in each copy the descriptors that are ready, and counts bits. */
    method WaitForEvents(readable: set<nat>, writable: set<nat>, failing: set<nat>) returns (result: nat)
      requires SelectOk(Table())
      modifies this`readFDsCopy, this`writeFDsCopy, this`exceptFDsCopy
      ensures readFDsCopy == readFDs * readable
      ensures writeFDsCopy == writeFDs * writable
      ensures exceptFDsCopy == exceptFDs * failing
      ensures result >= ChangedSockets(sockets, readFDsCopy, writeFDsCopy, exceptFDsCopy)
      ensures forall i :: 0 <= i < |sockets| ==>
                && (At(i).read <==> sockets[i] in readable)
                && (At(i).write <==> sockets[i] in writeFDs && sockets[i] in writable)
                && (At(i).except <==> sockets[i] in failing)
                && !At(i).hangup && !At(i).other
    {
      readFDsCopy := readFDs * readable;
      writeFDsCopy := writeFDs * writable;
      exceptFDsCopy := exceptFDs * failing;
      SelectCountCovers(sockets, readFDsCopy, writeFDsCopy, exceptFDsCopy);
      result := |readFDsCopy| + |writeFDsCopy| + |exceptFDsCopy|;
    }

    function At(index: nat): Ready
      requires index < |sockets|
      reads this
    {
      SelectFD(sockets[index], readFDsCopy, writeFDsCopy, exceptFDsCopy)
    }
  }
}
