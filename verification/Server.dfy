/**
  The server itself (NetServer.hpp), over buffer-based event managers.  `Represents(t)` ties
  its list, its managers' contexts and its index to a topology `t`, and each method's contract
  is the matching step of Topologies.
 */
module Servers {
  import opened Connections
  import opened Contexts
  import opened EventTables
  import opened EventPass
  import opened PollManagerStates
  import opened PollManagers
  import Balancers
  import T = Topologies

  type Topology = T.Topology<NetConnection>

  /** For each manager of a server, what it may change. */
  type Regions = seq<set<object>>

  /** The connections that contexts point to. */
  function Conns(contexts: seq<SocketContext>): (r: seq<NetConnection>)
    ensures |r| == |contexts| && forall k :: 0 <= k < |r| ==> r[k] == contexts[k].connection
  {
    seq(|contexts|, k requires 0 <= k < |contexts| => contexts[k].connection)
  }

  lemma ConnsApart(contexts: seq<SocketContext>)
    requires AllSeparate(contexts)
    ensures T.NoDup(Conns(contexts))
  {
  }

  lemma {:induction false} SubBag<C>(kept: seq<C>, bag: multiset<C>)
    requires T.NoDup(kept) && forall c <- kept :: c in bag
    ensures multiset(kept) <= bag
  {
    if kept != [] {
      var front, last := kept[..|kept| - 1], kept[|kept| - 1];
      assert kept == front + [last];
      SubBag(front, bag - multiset{last});
    }
  }

  lemma PartsShrink(contexts: seq<SocketContext>, more: seq<SocketContext>)
    requires forall c <- contexts :: c in more
    ensures Parts(contexts) <= Parts(more)
  {
  }

  /** A valid manager, with everything it may change in its region. */
  ghost predicate Settled(m: NetBufferBasedEventManager, region: set<object>)
    reads region
  {
    && m in region && m.netEventBuffer in region && m.netEventHandler.bufferPool in region
    && (forall b <- m.netEventHandler.bufferPool.buffers :: b in region)
    && Parts(m.socketContexts) <= region
    && m.Valid()
  }

  lemma KeptAreOpen(manager: NetBufferBasedEventManager, m: Manager)
    requires manager.Valid() && manager.Mirrors(m) && ManagerOk(m)
    ensures forall c <- Conns(manager.socketContexts) :: c.status == Init
  {
  }

  lemma ConnsWithin(contexts: seq<SocketContext>, more: seq<SocketContext>)
    requires forall c <- contexts :: c in more
    ensures forall c <- Conns(contexts) :: c in multiset(Conns(more))
  {
    forall j | 0 <= j < |contexts|
      ensures contexts[j].connection in multiset(Conns(more))
    {
      assert contexts[j] in more;
      var k :| 0 <= k < |more| && more[k] == contexts[j];
      assert Conns(more)[k] == contexts[j].connection;
    }
  }

  lemma KeptOrMarked(manager: NetBufferBasedEventManager, before: seq<SocketContext>)
    requires manager.Accounted(before)
    ensures forall c <- Conns(before) :: c in Conns(manager.socketContexts) || c.status == MarkForClose
  {
  }

  /** What being accounted for means for the connections. */
  lemma KeptIs(manager: NetBufferBasedEventManager, before: seq<SocketContext>)
    requires AllSeparate(manager.socketContexts) && manager.Accounted(before)
    ensures Parts(manager.socketContexts) <= Parts(before)
    ensures multiset(Conns(manager.socketContexts)) <= multiset(Conns(before))
  {
    PartsShrink(manager.socketContexts, before);
    ConnsApart(manager.socketContexts);
    ConnsWithin(manager.socketContexts, before);
    SubBag(Conns(manager.socketContexts), multiset(Conns(before)));
  }

  lemma OthersAreNoParts(list: seq<NetConnection>, contexts: seq<SocketContext>)
    ensures forall c <- list :: c !in Conns(contexts) ==> (c as object) !in Parts(contexts)
  {
  }

  /** An event pass of one manager, as its effect on connections: those kept are open, the others marked. */
  method HandleManager(manager: NetBufferBasedEventManager, os: Os, ghost m: Manager)
    returns (ghost kept: seq<NetConnection>)
    requires manager.Valid() && manager.Mirrors(m) && ManagerOk(m)
    requires AnswersOk(ProcessedSend(m.entries), os, m.pool.size)
    modifies manager, manager.netEventBuffer, manager.netEventHandler.bufferPool
    modifies manager.netEventHandler.bufferPool.buffers, Parts(manager.socketContexts)
    ensures manager.Valid() && manager.Grown(old(manager.netEventHandler.bufferPool.buffers))
    ensures manager.Mirrors(Handled(m, os, Events(ProcessedSend(m.entries), os)))
    ensures Parts(manager.socketContexts) <= old(Parts(manager.socketContexts))
    ensures kept == Conns(manager.socketContexts)
    ensures multiset(kept) <= multiset(Conns(old(manager.socketContexts)))
    ensures forall c <- kept :: c.status == Init
    ensures forall c <- Conns(old(manager.socketContexts)) :: c in kept || c.status == MarkForClose
  {
    ghost var before := manager.socketContexts;
    manager.HandleNetEvents(os, m);
    kept := Conns(manager.socketContexts);
    KeptIs(manager, before);
    KeptOrMarked(manager, before);
    HandledKeeps(m, os, Events(ProcessedSend(m.entries), os));
    KeptAreOpen(manager, Handled(m, os, Events(ProcessedSend(m.entries), os)));
  }

  /** Of the connections before, those kept are open, the others marked; the rest of the list has the marks it had. */
  ghost predicate KeptOrClosed(before: seq<NetConnection>, kept: seq<NetConnection>,
                               list: seq<NetConnection>, marked: set<NetConnection>)
    reads before, kept, list
  {
    && multiset(kept) <= multiset(before)
    && (forall c <- kept :: c.status == Init)
    && (forall c <- before :: c in kept || c.status == MarkForClose)
    && (forall c <- list :: c !in before ==> c.status == if c in marked then MarkForClose else Init)
  }

  /** The same pass, as it leaves the other connections of a list alone. */
  method HandleAmong(manager: NetBufferBasedEventManager, os: Os, ghost m: Manager,
                    ghost list: seq<NetConnection>, ghost marked: set<NetConnection>)
    returns (ghost kept: seq<NetConnection>)
    requires manager.Valid() && manager.Mirrors(m) && ManagerOk(m) && StatusIs(list, marked)
    requires AnswersOk(ProcessedSend(m.entries), os, m.pool.size)
    modifies manager, manager.netEventBuffer, manager.netEventHandler.bufferPool
    modifies manager.netEventHandler.bufferPool.buffers, Parts(manager.socketContexts)
    ensures manager.Valid() && manager.Grown(old(manager.netEventHandler.bufferPool.buffers))
    ensures manager.Mirrors(Handled(m, os, Events(ProcessedSend(m.entries), os)))
    ensures Parts(manager.socketContexts) <= old(Parts(manager.socketContexts))
    ensures kept == Conns(manager.socketContexts)
    ensures KeptOrClosed(Conns(old(manager.socketContexts)), kept, list, marked)
  {
    hide ManagerOk, AnswersOk, Handled, ProcessedSend, Events, Parts, Conns;
    hide NetBufferBasedEventManager.Mirrors, NetBufferBasedEventManager.Valid;
    ghost var before, parts := Conns(manager.socketContexts), Parts(manager.socketContexts);
    OthersAreNoParts(list, manager.socketContexts);
    kept := HandleManager(manager, os, m);
    forall c <- list | c !in before
      ensures c.status == if c in marked then MarkForClose else Init
    {
      assert (c as object) !in parts;
    }
  }

  /** The region of a manager once its pool has grown. */
  ghost function Grown(region: set<object>, blocks: seq<array<char>>): set<object> {
    region + set b <- blocks :: b as object
  }

  /** A pass of a manager stays in its region, up to new blocks of its pool. */
  method HandleIn(manager: NetBufferBasedEventManager, os: Os, ghost m: Manager,
                  ghost list: seq<NetConnection>, ghost marked: set<NetConnection>, ghost region: set<object>)
    returns (ghost kept: seq<NetConnection>, ghost region': set<object>)
    requires Settled(manager, region) && manager.Mirrors(m) && ManagerOk(m) && StatusIs(list, marked)
    requires AnswersOk(ProcessedSend(m.entries), os, m.pool.size)
    modifies region
    ensures Settled(manager, region')
    ensures region <= region' && fresh(region' - region)
    ensures manager.Mirrors(Handled(m, os, Events(ProcessedSend(m.entries), os)))
    ensures kept == Conns(manager.socketContexts)
    ensures KeptOrClosed(Conns(old(manager.socketContexts)), kept, list, marked)
  {
    kept := HandleAmong(manager, os, m, list, marked);
    region' := Grown(region, manager.netEventHandler.bufferPool.buffers);
  }

  /** The last step of a manager, as its effect on connections: all are marked. */
  method DropManager(manager: NetBufferBasedEventManager, ghost m: Manager,
                     ghost list: seq<NetConnection>, ghost marked: set<NetConnection>)
    requires manager.Valid() && manager.Mirrors(m) && StatusIs(list, marked)
    modifies manager, Parts(manager.socketContexts)
    ensures manager.Valid() && manager.socketContexts == []
    ensures KeptOrClosed(Conns(old(manager.socketContexts)), [], list, marked)
  {
    OthersAreNoParts(list, manager.socketContexts);
    ghost var contexts := manager.socketContexts;
    manager.DisconnectAllConnections(m);
    forall k | 0 <= k < |contexts|
      ensures contexts[k].connection.status == MarkForClose
    {
      assert contexts[k] in contexts;
    }
  }

  method DropIn(manager: NetBufferBasedEventManager, ghost m: Manager,
                ghost list: seq<NetConnection>, ghost marked: set<NetConnection>, ghost region: set<object>)
    requires Settled(manager, region) && manager.Mirrors(m) && StatusIs(list, marked)
    modifies region
    ensures Settled(manager, region) && manager.socketContexts == []
    ensures KeptOrClosed(Conns(old(manager.socketContexts)), [], list, marked)
  {
    hide NetBufferBasedEventManager.Mirrors;
    NoParts(manager, manager.netEventHandler.bufferPool.buffers, manager.socketContexts);
    DropManager(manager, m, list, marked);
  }

  /** A socket nobody has used, and a connection nobody has used. */
  ghost predicate Unused(socket: NetSocket, connection: NetConnection)
    reads socket, connection
  {
    socket.Silent() && connection.View() == FRESH
  }

  /** A manager's region once it has a context for the connection. */
  method AddIn(manager: NetBufferBasedEventManager, socket: NetSocket, connection: NetConnection, ghost m: Manager,
               ghost region: set<object>)
    returns (ghost region': set<object>)
    requires Settled(manager, region) && manager.Mirrors(m) && Unused(socket, connection)
    requires socket !in region && connection !in region
    modifies manager, manager.netEventBuffer, manager.netEventHandler.bufferPool
    ensures Settled(manager, region') && manager.Mirrors(Added(m, socket.handle))
    ensures fresh(region' - region - {socket, connection})
    ensures Conns(manager.socketContexts) == Conns(old(manager.socketContexts)) + [connection]
  {
    hide NetBufferBasedEventManager.Mirrors, NetBufferBasedEventManager.Valid, Parts, Added, Conns;
    ghost var before := manager.socketContexts;
    NewToAll(before, socket, connection);
    manager.AddConnection(socket, connection, m);
    ghost var c := manager.socketContexts[|before|];
    assert manager.socketContexts == before + [c];
    ghost var parts := {socket, connection, c.receiveContext, c.sendContext};
    region' := Grown(region + parts, manager.netEventHandler.bufferPool.buffers);
    OneMore(before, c);
  }

  lemma NewToAll(contexts: seq<SocketContext>, socket: NetSocket, connection: NetConnection)
    requires (socket as object) !in Parts(contexts) && (connection as object) !in Parts(contexts)
    ensures forall c <- contexts :: c.socket != socket && c.connection != connection
  {
  }

  lemma OneMore(contexts: seq<SocketContext>, c: SocketContext)
    ensures Parts(contexts + [c]) <= Parts(contexts) + {c.socket, c.connection, c.receiveContext, c.sendContext}
    ensures Conns(contexts + [c]) == Conns(contexts) + [c.connection]
  {
  }

  ghost function Union(regions: Regions): set<object> {
    set i, o | 0 <= i < |regions| && o in regions[i] :: o
  }

  ghost predicate Disjoint(regions: Regions) {
    forall i, j :: 0 <= i < |regions| && 0 <= j < |regions| && i != j ==> regions[i] !! regions[j]
  }

  lemma StillDisjoint(regions: Regions, i: nat, region: set<object>)
    requires Disjoint(regions) && i < |regions|
    requires forall j :: 0 <= j < |regions| ==> regions[j] !! (region - regions[i])
    ensures Disjoint(regions[i := region])
  {
  }

  ghost predicate PointTo(managers: seq<NetBufferBasedEventManager>, conns: seq<seq<NetConnection>>)
    reads managers
  {
    |managers| == |conns| && forall i :: 0 <= i < |conns| ==> Conns(managers[i].socketContexts) == conns[i]
  }

  ghost predicate StatusIs(list: seq<NetConnection>, marked: set<NetConnection>)
    reads list
  {
    forall c <- list :: c.status == if c in marked then MarkForClose else Init
  }

  lemma StatusPassed(list: seq<NetConnection>, t: Topology, i: nat, kept: seq<NetConnection>)
    requires T.Linked(t) && i < |t.managers| && t.list == list
    requires KeptOrClosed(t.managers[i], kept, list, t.marked)
    ensures StatusIs(list, T.Passed(t, i, kept).marked)
  {
    forall c <- list
      ensures c.status == if c in T.Passed(t, i, kept).marked then MarkForClose else Init
    {
      if c in t.managers[i] {
        var k :| 0 <= k < |t.managers[i]| && t.managers[i][k] == c;
        T.PointedIsOpen(t, i, k);
      }
    }
  }

  /** The connections of a list, the first `n` of them updated since they were as in `before`. */
  ghost predicate Views(list: seq<NetConnection>, before: seq<Conn>, n: nat)
    reads list
  {
    && |before| == |list|
    && forall k :: 0 <= k < |list| ==> list[k].View() == if k < n then Connections.Updated(before[k]) else before[k]
  }

  ghost function Snapshot(list: seq<NetConnection>): (views: seq<Conn>)
    reads list
    ensures |views| == |list| && forall k :: 0 <= k < |list| ==> views[k] == list[k].View()
  {
    if list == [] then [] else [list[0].View()] + Snapshot(list[1..])
  }

  ghost predicate AsMarked(t: Topology, before: seq<Conn>) {
    && |before| == |t.list|
    && forall k :: 0 <= k < |t.list| ==> before[k].status == if t.list[k] in t.marked then MarkForClose else Init
  }

  /** A pass whose wait counted the entries with an event. */
  ghost function HandledBy(m: Manager, os: Os): Manager {
    Handled(m, os, Events(ProcessedSend(m.entries), os))
  }

  /** The region of a manager without contexts. */
  ghost function Region(m: NetBufferBasedEventManager): set<object>
    reads m.netEventHandler.bufferPool
  {
    Grown({m, m.netEventBuffer, m.netEventHandler.bufferPool}, m.netEventHandler.bufferPool.buffers)
  }

  method NewManager(size: nat) returns (manager: NetBufferBasedEventManager)
    requires 1 <= size < UINT32
    ensures Settled(manager, Region(manager)) && fresh(Region(manager)) && manager.socketContexts == []
    ensures exists m :: Initial(m) && manager.Mirrors(m)
  {
    manager := new NetBufferBasedEventManager(size);
  }

  class NetServer {
    var connections: seq<NetConnection>
    var netEventManagers: seq<NetBufferBasedEventManager>
    var availableServerIndex: nat
    /** The erased connections, of whose disconnection the user was told. */
    ghost var notified: seq<NetConnection>

    /** The managers are valid, each in a region of its own. */
    ghost predicate Valid(regions: Regions)
      reads this, Union(regions)
    {
      && availableServerIndex < |netEventManagers| == |regions| && Disjoint(regions)
      && forall i :: 0 <= i < |regions| ==> this !in regions[i] && Settled(netEventManagers[i], regions[i])
    }

    ghost predicate Represents(t: Topology)
      reads this, netEventManagers, connections
    {
      && connections == t.list && notified == t.notified && availableServerIndex == t.index
      && PointTo(netEventManagers, t.managers)
      && StatusIs(connections, t.marked)
    }

    lemma Resettled(regions: Regions, i: nat, region: set<object>)
      requires availableServerIndex < |netEventManagers| == |regions| && i < |regions|
      requires Disjoint(regions[i := region]) && this !in region && Settled(netEventManagers[i], region)
      requires forall j :: 0 <= j < |regions| && j != i ==>
                 this !in regions[j] && Settled(netEventManagers[j], regions[j])
      ensures Valid(regions[i := region])
    {
    }

    /** A server starts with one event handler. */
    constructor (size: nat)
      requires 1 <= size < UINT32
      ensures |netEventManagers| == 1 && Valid([Region(netEventManagers[0])]) && fresh(Region(netEventManagers[0]))
      ensures Represents(T.Topology([], {}, [[]], 0, []))
      ensures exists m :: Initial(m) && netEventManagers[0].Mirrors(m)
    {
      var manager := NewManager(size);
      connections, netEventManagers, availableServerIndex, notified := [], [manager], 0, [];
    }

    method AddEventHandler(size: nat, ghost t: Topology, ghost regions: Regions)
      requires 1 <= size < UINT32
      requires Valid(regions) && Represents(t)
      modifies this`netEventManagers
      ensures |netEventManagers| == |old(netEventManagers)| + 1 && old(netEventManagers) <= netEventManagers
      ensures var region := Region(netEventManagers[|regions|]); fresh(region) && Valid(regions + [region])
      ensures Represents(T.WithManager(t)) && (T.Linked(t) ==> T.Linked(T.WithManager(t)))
      ensures exists m :: Initial(m) && netEventManagers[|regions|].Mirrors(m)
    {
      if T.Linked(t) {
        T.WithManagerKeeps(t);
      }
      hide T.Linked, T.WithManager, Settled, Represents, NetBufferBasedEventManager.Mirrors;
      var manager := NewManager(size);
      AppendManager(manager, t, regions, Region(manager));
    }

    /** A manager without contexts, in a region of its own, becomes the last one. */
    method AppendManager(manager: NetBufferBasedEventManager, ghost t: Topology,
                         ghost regions: Regions, ghost region: set<object>)
      requires Valid(regions) && Represents(t)
      requires Settled(manager, region) && manager.socketContexts == [] && this !in region
      requires forall i :: 0 <= i < |regions| ==> regions[i] !! region
      modifies this`netEventManagers
      ensures netEventManagers == old(netEventManagers) + [manager]
      ensures Valid(regions + [region]) && Represents(T.WithManager(t))
    {
      hide Settled, StatusIs;
      netEventManagers := netEventManagers + [manager];
    }

    /** The handler in line takes the connection; the line may move on. */
    method GetAvailableEventHandler(ghost t: Topology) returns (handler: nat)
      requires availableServerIndex < |netEventManagers| && availableServerIndex == t.index
      requires PointTo(netEventManagers, t.managers)
      modifies this`availableServerIndex
      ensures handler == old(availableServerIndex)
      ensures availableServerIndex == Balancers.Accepted(T.RingOf(t)).index
    {
      handler := availableServerIndex;
      var newAvailableServerIndex := (availableServerIndex + 1) % |netEventManagers|;
      if |netEventManagers[handler].socketContexts| > |netEventManagers[newAvailableServerIndex].socketContexts| {
        availableServerIndex := newAvailableServerIndex;
      }
    }

    /** A pass of one manager, in its own region. */
    method HandleOne(i: nat, os: Os, ghost m: Manager, ghost marked: set<NetConnection>, ghost regions: Regions)
      returns (ghost kept: seq<NetConnection>, ghost region: set<object>)
      requires Valid(regions) && i < |netEventManagers| && StatusIs(connections, marked)
      requires netEventManagers[i].Mirrors(m) && ManagerOk(m)
      requires AnswersOk(ProcessedSend(m.entries), os, m.pool.size)
      modifies regions[i]
      ensures Settled(netEventManagers[i], region) && fresh(region - regions[i])
      ensures unchanged(this)
      ensures forall j :: 0 <= j < |regions| && j != i ==>
                && Settled(netEventManagers[j], regions[j])
                && netEventManagers[j].socketContexts == old(netEventManagers[j].socketContexts)
      ensures netEventManagers[i].Mirrors(Handled(m, os, Events(ProcessedSend(m.entries), os)))
      ensures kept == Conns(netEventManagers[i].socketContexts)
      ensures KeptOrClosed(Conns(old(netEventManagers[i].socketContexts)), kept, connections, marked)
    {
      hide ManagerOk, NetBufferBasedEventManager.Mirrors;
      kept, region := HandleIn(netEventManagers[i], os, m, connections, marked, regions[i]);
    }

    /** A pass of one manager, as a step of the topology. */
    method HandleTurn(i: nat, os: Os, ghost m: Manager, ghost t: Topology, ghost regions: Regions)
      returns (ghost kept: seq<NetConnection>, ghost region: set<object>)
      requires Valid(regions) && Represents(t) && T.Linked(t) && i < |netEventManagers|
      requires netEventManagers[i].Mirrors(m) && ManagerOk(m)
      requires AnswersOk(ProcessedSend(m.entries), os, m.pool.size)
      modifies regions[i]
      ensures unchanged(this) && Valid(regions[i := region]) && fresh(region - regions[i])
      ensures T.CanPass(t, i, kept) && Represents(T.Passed(t, i, kept))
      ensures netEventManagers[i].Mirrors(Handled(m, os, Events(ProcessedSend(m.entries), os)))
    {
      hide ManagerOk, Settled, T.Linked, NetBufferBasedEventManager.Mirrors;
      kept, region := HandleOne(i, os, m, t.marked, regions);
      StillDisjoint(regions, i, region);
      Resettled(regions, i, region);
      StatusPassed(connections, t, i, kept);
    }

    /** The same pass leaves what the other managers hold alone. */
    method HandleApart(i: nat, os: Os, ghost ms: seq<Manager>, ghost t: Topology, ghost regions: Regions)
      returns (ghost kept: seq<NetConnection>, ghost region: set<object>)
      requires Valid(regions) && Represents(t) && T.Linked(t) && i < |netEventManagers| == |ms|
      requires forall j :: 0 <= j < |ms| ==> netEventManagers[j].Mirrors(ms[j])
      requires ManagerOk(ms[i]) && AnswersOk(ProcessedSend(ms[i].entries), os, ms[i].pool.size)
      modifies regions[i]
      ensures unchanged(this) && Valid(regions[i := region]) && fresh(region - regions[i])
      ensures T.CanPass(t, i, kept) && Represents(T.Passed(t, i, kept))
      ensures forall j :: 0 <= j < |ms| ==> netEventManagers[j].Mirrors(if j == i then HandledBy(ms[i], os) else ms[j])
    {
      hide Represents, T.Linked, T.CanPass, ManagerOk, NetBufferBasedEventManager.Mirrors;
      kept, region := HandleTurn(i, os, ms[i], t, regions);
      forall j | 0 <= j < |ms| && j != i
        ensures netEventManagers[j].Mirrors(ms[j])
      {
        assert regions[j] !! regions[i];
        assert Settled(netEventManagers[j], regions[j]);
      }
    }

    /** Within a pass of all managers: the first ones, as many as `kepts`, have had theirs. */
    ghost predicate InPass(t: Topology, kepts: seq<seq<NetConnection>>, ms: seq<Manager>, regions: Regions)
      reads this, Union(regions), connections
    {
      && Valid(regions) && |kepts| <= |netEventManagers| == |t.managers| == |ms|
      && T.CanPassAll(t, kepts) && Represents(T.PassedAll(t, kepts)) && T.Linked(T.PassedAll(t, kepts))
      && (forall j :: 0 <= j < |ms| ==> netEventManagers[j].Mirrors(ms[j]))
    }

    method HandleNext(i: nat, os: Os, ghost t: Topology,
                      ghost kepts: seq<seq<NetConnection>>, ghost ms: seq<Manager>, ghost regions: Regions)
      returns (ghost kepts': seq<seq<NetConnection>>, ghost ms': seq<Manager>, ghost regions': Regions)
      requires InPass(t, kepts, ms, regions) && |kepts| == i < |netEventManagers| == |ms| == |regions|
      requires ManagerOk(ms[i]) && AnswersOk(ProcessedSend(ms[i].entries), os, ms[i].pool.size)
      modifies regions[i]
      ensures unchanged(this) && InPass(t, kepts', ms', regions') && |kepts'| == i + 1
      ensures ms' == ms[i := HandledBy(ms[i], os)]
      ensures |regions'| == |regions| && regions' == regions[i := regions'[i]] && fresh(regions'[i] - regions[i])
    {
      hide Valid, Represents, ManagerOk, AnswersOk, HandledBy, Union;
      hide T.Linked, T.CanPass, T.CanPassAll, NetBufferBasedEventManager.Mirrors;
      ghost var kept, region := HandleApart(i, os, ms, T.PassedAll(t, kepts), regions);
      T.PassedNext(t, kepts, kept);
      T.CanPassNext(t, kepts, kept);
      T.PassedKeeps(T.PassedAll(t, kepts), i, kept);
      kepts', ms', regions' := kepts + [kept], ms[i := HandledBy(ms[i], os)], regions[i := region];
    }

    /** One pass of every manager. */
    method HandleNetEvents(oses: seq<Os>, ghost t: Topology, ghost ms: seq<Manager>, ghost regions: Regions)
      returns (ghost kepts: seq<seq<NetConnection>>, ghost ms': seq<Manager>, ghost regions': Regions)
      requires InPass(t, [], ms, regions) && |netEventManagers| == |oses| == |ms| == |regions|
      requires forall j :: 0 <= j < |ms| ==>
                 ManagerOk(ms[j]) && AnswersOk(ProcessedSend(ms[j].entries), oses[j], ms[j].pool.size)
      modifies Union(regions)
      ensures unchanged(this) && InPass(t, kepts, ms', regions') && |kepts| == |netEventManagers|
      ensures |ms'| == |ms| && forall j :: 0 <= j < |ms| ==> ms'[j] == HandledBy(ms[j], oses[j])
      ensures |regions'| == |regions| && forall j :: 0 <= j < |regions| ==> fresh(regions'[j] - regions[j])
    {
      hide InPass;
      kepts, ms', regions' := [], ms, regions;
      for i := 0 to |netEventManagers|
        invariant unchanged(this) && |kepts| == i
        invariant InPass(t, kepts, ms', regions')
        invariant |regions'| == |regions|
        invariant forall j :: 0 <= j < i ==> fresh(regions'[j] - regions[j])
        invariant forall j :: i <= j < |regions| ==> regions'[j] == regions[j]
        invariant |ms'| == |ms|
        invariant forall j :: 0 <= j < |ms| ==> ms'[j] == if j < i then HandledBy(ms[j], oses[j]) else ms[j]
      {
        kepts, ms', regions' := HandleNext(i, oses[i], t, kepts, ms', regions');
      }
    }

    /** The bookkeeping of an update, having gone through the first `n` connections of the list. */
    ghost predicate UpdatedTo(t: Topology, n: nat)
      requires n <= |t.list|
      reads this
    {
      && connections == T.Open(t.list[..n], t.marked) + t.list[n..]
      && notified == t.notified + T.Closing(t.list[..n], t.marked)
    }

    /** The turn of the n-th connection of the list, which is the i-th of what is left. */
    method UpdateNext(i: nat, ghost n: nat, ghost t: Topology) returns (next: nat)
      requires n < |t.list| && i == |T.Open(t.list[..n], t.marked)| && UpdatedTo(t, n)
      requires t.list[n].status == if t.list[n] in t.marked then MarkForClose else Init
      modifies this`connections, this`notified, t.list[n]
      ensures next == |T.Open(t.list[..n + 1], t.marked)| && UpdatedTo(t, n + 1)
      ensures t.list[n].View() == Connections.Updated(old(t.list[n].View()))
    {
      hide Connections.Updated, NetConnection.View;
      T.OpenNext(t.list, t.marked, n);
      assert connections[i] == t.list[n];
      var connection := connections[i];
      var alive := connection.Update();
      if !alive {
        notified := notified + [connection];
        connections := Erased(connections, i);
        return i;
      }
      return i + 1;
    }

    lemma UpdateBegins(t: Topology)
      requires Represents(t)
      ensures UpdatedTo(t, 0) && T.Open(t.list[..0], t.marked) == []
    {
    }

    lemma UpdateEnds(t: Topology, n: nat)
      requires n <= |t.list| && UpdatedTo(t, n) && |connections| <= |T.Open(t.list[..n], t.marked)|
      ensures n == |t.list| && connections == T.Updated(t).list && notified == T.Updated(t).notified
    {
      assert t.list[..n] == t.list;
    }

    method UpdateTurn(i: nat, ghost n: nat, ghost t: Topology, ghost before: seq<Conn>) returns (next: nat)
      requires n < |t.list| && i == |T.Open(t.list[..n], t.marked)| && UpdatedTo(t, n)
      requires T.NoDup(t.list) && Views(t.list, before, n) && AsMarked(t, before)
      modifies this`connections, this`notified, t.list[n]
      ensures next == |T.Open(t.list[..n + 1], t.marked)| && UpdatedTo(t, n + 1) && Views(t.list, before, n + 1)
    {
      assert t.list[n].status == t.list[n].View().status;
      hide UpdatedTo, T.Open, T.Closing, Connections.Updated, NetConnection.View;
      next := UpdateNext(i, n, t);
    }

    /** The loop of `Update`: every connection once, in list order; those that are closed are erased. */
    method UpdateList(ghost t: Topology, ghost before: seq<Conn>)
      requires Represents(t) && T.NoDup(t.list) && Views(t.list, before, 0)
      modifies this`connections, this`notified, connections
      ensures Views(t.list, before, |t.list|)
      ensures connections == T.Updated(t).list && notified == T.Updated(t).notified
    {
      UpdateBegins(t);
      MarksAreSeen(t, before);
      assert connections == t.list;
      hide UpdatedTo, Represents, T.Open, T.Closing, Views, AsMarked, T.NoDup;
      ghost var n := 0;
      var i := 0;
      while i < |connections|
        invariant n <= |t.list| && i == |T.Open(t.list[..n], t.marked)| && UpdatedTo(t, n)
        invariant Views(t.list, before, n)
        decreases |t.list| - n
      {
        SomeLeft(t, n);
        i := UpdateTurn(i, n, t, before);
        n := n + 1;
      }
      UpdateEnds(t, n);
    }

    lemma SomeLeft(t: Topology, n: nat)
      requires n <= |t.list| && UpdatedTo(t, n) && |T.Open(t.list[..n], t.marked)| < |connections|
      ensures n < |t.list|
    {
    }

    /** The list after an update, as a step of the topology. */
    method UpdateOwned(ghost t: Topology, ghost before: seq<Conn>, ghost regions: Regions)
      requires Valid(regions) && Represents(t) && T.NoDup(t.list) && Views(t.list, before, 0)
      modifies this`connections, this`notified, connections
      ensures Valid(regions) && Represents(T.Updated(t)) && Views(t.list, before, |t.list|)
    {
      MarksAreSeen(t, before);
      hide T.NoDup, Connections.Updated, NetConnection.View;
      UpdateList(t, before);
      OpenStaysOpen(t, before);
    }

    /** The managers `js` mirror their values apart from the connections, which are in the list. */
    ghost predicate AllBut(js: set<nat>, ms: seq<Manager>, list: seq<NetConnection>, before: seq<Conn>)
      reads *
    {
      && |ms| == |netEventManagers|
      && forall j <- js ::
           && j < |ms| && MirrorsBut(netEventManagers[j], ms[j])
           && ConnsAre(netEventManagers[j].socketContexts, ms[j], list, before)
    }

    lemma SplitAll(js: set<nat>, t: Topology, ms: seq<Manager>, before: seq<Conn>)
      requires Represents(t) && T.Linked(t) && |ms| == |netEventManagers| && Views(t.list, before, 0)
      requires forall j <- js :: j < |ms| && netEventManagers[j].Mirrors(ms[j])
      ensures AllBut(js, ms, t.list, before) && T.NoDup(t.list)
    {
      T.ListHasNoDup(t.notified, t.list);
      forall j <- js
        ensures MirrorsBut(netEventManagers[j], ms[j])
        ensures ConnsAre(netEventManagers[j].socketContexts, ms[j], t.list, before)
      {
        SplitMirrors(netEventManagers[j], ms[j], t, j, before);
      }
    }

    lemma JoinAll(js: set<nat>, ms: seq<Manager>, list: seq<NetConnection>, before: seq<Conn>)
      requires AllBut(js, ms, list, before) && Views(list, before, |list|)
      ensures forall j <- js :: netEventManagers[j].Mirrors(ms[j].(entries := AllUpdated(ms[j].entries)))
    {
    }

    method UpdateKept(ghost t: Topology, ghost js: set<nat>, ghost ms: seq<Manager>, ghost before: seq<Conn>,
                      ghost regions: Regions)
      requires Valid(regions) && Represents(t) && T.NoDup(t.list) && Views(t.list, before, 0)
      requires AllBut(js, ms, t.list, before)
      modifies this`connections, this`notified, connections
      ensures Valid(regions) && Represents(T.Updated(t)) && Views(t.list, before, |t.list|)
      ensures AllBut(js, ms, t.list, before)
    {
      hide T.NoDup, Valid, Represents, Views, ConnsAre, MirrorsBut;
      UpdateOwned(t, before, regions);
    }

    /** The update, as seen by the managers `js`, which mirror values. */
    method UpdateFor(ghost js: set<nat>, ghost t: Topology, ghost ms: seq<Manager>, ghost regions: Regions)
      requires Valid(regions) && Represents(t) && T.Linked(t) && |ms| == |netEventManagers|
      requires forall j <- js :: j < |ms| && netEventManagers[j].Mirrors(ms[j])
      modifies this`connections, this`notified, connections
      ensures Valid(regions) && Represents(T.Updated(t)) && netEventManagers == old(netEventManagers)
      ensures Views(t.list, old(Snapshot(connections)), |t.list|)
      ensures forall j <- js :: netEventManagers[j].Mirrors(ms[j].(entries := AllUpdated(ms[j].entries)))
    {
      ghost var before := Snapshot(connections);
      hide T.Linked, T.NoDup, Valid, AllBut, NetBufferBasedEventManager.Mirrors;
      SplitAll(js, t, ms, before);
      UpdateKept(t, js, ms, before, regions);
      JoinAll(js, ms, t.list, before);
    }

    /**
      Updates every connection once, erases those that were closed, and leaves no context dangling.
      A manager that mirrored a value mirrors it with its connections updated.
     */
    method Update(ghost t: Topology, ghost ms: seq<Manager>, ghost regions: Regions)
      requires Valid(regions) && Represents(t) && T.Linked(t) && |ms| == |netEventManagers|
      modifies this`connections, this`notified, connections
      ensures Valid(regions) && Represents(T.Updated(t)) && T.Linked(T.Updated(t))
      ensures netEventManagers == old(netEventManagers)
      ensures Views(t.list, old(Snapshot(connections)), |t.list|)
      ensures forall j :: 0 <= j < |ms| ==>
                old(netEventManagers[j].Mirrors(ms[j])) ==>
                netEventManagers[j].Mirrors(ms[j].(entries := AllUpdated(ms[j].entries)))
    {
      hide T.Linked, Valid, Represents, Views, NetBufferBasedEventManager.Mirrors;
      ghost var js := set j: nat | j < |ms| && netEventManagers[j].Mirrors(ms[j]);
      T.UpdatedKeeps(t);
      UpdateFor(js, t, ms, regions);
    }

    /** The last step of one manager, in its own region. */
    method DropOne(i: nat, ghost m: Manager, ghost marked: set<NetConnection>, ghost regions: Regions)
      requires Valid(regions) && i < |netEventManagers| && StatusIs(connections, marked)
      requires netEventManagers[i].Mirrors(m)
      modifies regions[i]
      ensures Settled(netEventManagers[i], regions[i]) && unchanged(this)
      ensures forall j :: 0 <= j < |regions| && j != i ==>
                && Settled(netEventManagers[j], regions[j])
                && netEventManagers[j].socketContexts == old(netEventManagers[j].socketContexts)
      ensures netEventManagers[i].socketContexts == []
      ensures KeptOrClosed(Conns(old(netEventManagers[i].socketContexts)), [], connections, marked)
    {
      hide NetBufferBasedEventManager.Mirrors;
      DropIn(netEventManagers[i], m, connections, marked, regions[i]);
    }

    /** The same, as a step of the topology. */
    method DropTurn(i: nat, ghost m: Manager, ghost t: Topology, ghost regions: Regions)
      requires Valid(regions) && Represents(t) && T.Linked(t) && i < |netEventManagers|
      requires netEventManagers[i].Mirrors(m)
      modifies regions[i]
      ensures unchanged(this) && Valid(regions) && Represents(T.Passed(t, i, []))
    {
      hide Settled, T.Linked, NetBufferBasedEventManager.Mirrors;
      DropOne(i, m, t.marked, regions);
      assert regions[i := regions[i]] == regions;
      Resettled(regions, i, regions[i]);
      StatusPassed(connections, t, i, []);
    }

    method DropApart(i: nat, ghost ms: seq<Manager>, ghost t: Topology, ghost regions: Regions)
      requires Valid(regions) && Represents(t) && T.Linked(t) && i < |netEventManagers| == |ms|
      requires forall j :: i <= j < |ms| ==> netEventManagers[j].Mirrors(ms[j])
      modifies regions[i]
      ensures unchanged(this) && Valid(regions) && Represents(T.Passed(t, i, []))
      ensures forall j :: i < j < |ms| ==> netEventManagers[j].Mirrors(ms[j])
    {
      hide Represents, T.Linked, NetBufferBasedEventManager.Mirrors;
      DropTurn(i, ms[i], t, regions);
      forall j | i < j < |ms|
        ensures netEventManagers[j].Mirrors(ms[j])
      {
        assert regions[j] !! regions[i];
        assert Settled(netEventManagers[j], regions[j]);
      }
    }

    /** Within a shutdown: the first `i` managers have taken their last step. */
    ghost predicate InDrop(t: Topology, i: nat, ms: seq<Manager>, regions: Regions)
      requires i <= |t.managers|
      reads this, Union(regions), connections
    {
      && Valid(regions) && |netEventManagers| == |t.managers| == |ms|
      && Represents(T.Dropped(t, i)) && T.Linked(T.Dropped(t, i))
      && (forall j :: i <= j < |ms| ==> netEventManagers[j].Mirrors(ms[j]))
    }

    method DropNext(i: nat, ghost t: Topology, ghost ms: seq<Manager>, ghost regions: Regions)
      requires i < |t.managers| == |netEventManagers| == |regions| && InDrop(t, i, ms, regions)
      modifies regions[i]
      ensures unchanged(this) && InDrop(t, i + 1, ms, regions)
    {
      hide Valid, Represents, T.Linked, NetBufferBasedEventManager.Mirrors;
      DropApart(i, ms, T.Dropped(t, i), regions);
      T.PassedKeeps(T.Dropped(t, i), i, []);
    }

    /** Every manager's last step: no context is left, and every connection that had one is marked. */
    method DisconnectAll(ghost t: Topology, ghost ms: seq<Manager>, ghost regions: Regions)
      requires |t.managers| == |netEventManagers| == |regions| && InDrop(t, 0, ms, regions)
      modifies Union(regions)
      ensures unchanged(this) && InDrop(t, |t.managers|, ms, regions)
    {
      hide InDrop;
      for i := 0 to |netEventManagers|
        invariant unchanged(this) && InDrop(t, i, ms, regions)
      {
        DropNext(i, t, ms, regions);
      }
    }

    /** After every manager's last step there is no context, and no connection of the list is unmarked. */
    lemma NothingIsLeft(t: Topology, ms: seq<Manager>, regions: Regions)
      requires InDrop(t, |t.managers|, ms, regions)
      ensures forall i :: 0 <= i < |netEventManagers| ==> netEventManagers[i].socketContexts == []
      ensures T.Updated(T.AllDropped(t)).list == []
    {
      T.DroppedShape(t, |t.managers|);
      T.NothingLeft(T.AllDropped(t));
      forall i | 0 <= i < |netEventManagers|
        ensures netEventManagers[i].socketContexts == []
      {
        assert Conns(netEventManagers[i].socketContexts) == [];
      }
    }

    /** Shutdown: disconnecting all and one update leave no connection and no context, and everybody has been told. */
    method Shutdown(ghost t: Topology, ghost ms: seq<Manager>, ghost regions: Regions)
      requires |t.managers| == |netEventManagers| == |regions| && InDrop(t, 0, ms, regions)
      modifies this`connections, this`notified, connections, Union(regions)
      ensures connections == [] && T.NoDup(notified) && multiset(notified) == multiset(t.notified + t.list)
      ensures forall i :: 0 <= i < |netEventManagers| ==> netEventManagers[i].socketContexts == []
      ensures Valid(regions)
    {
      hide Valid;
      DisconnectAll(t, ms, regions);
      NothingIsLeft(t, ms, regions);
      UpdateAfterDrop(t, ms, regions);
      T.DroppedShape(t, |t.managers|);
    }

    method UpdateAfterDrop(ghost t: Topology, ghost ms: seq<Manager>, ghost regions: Regions)
      requires InDrop(t, |t.managers|, ms, regions) && T.Updated(T.AllDropped(t)).list == []
      modifies this`connections, this`notified, connections
      ensures Valid(regions) && netEventManagers == old(netEventManagers) && connections == []
      ensures T.NoDup(notified) && multiset(notified) == multiset(T.AllDropped(t).notified + T.AllDropped(t).list)
    {
      T.AllTold(T.AllDropped(t));
      hide Valid, T.Linked, NetBufferBasedEventManager.Mirrors;
      Update(T.AllDropped(t), ms, regions);
    }

    /** A new context in one manager, in its own region. */
    method AddAt(i: nat, socket: NetSocket, connection: NetConnection, ghost m: Manager, ghost regions: Regions)
      returns (ghost region: set<object>)
      requires Valid(regions) && i < |netEventManagers| && netEventManagers[i].Mirrors(m) && Unused(socket, connection)
      requires forall j :: 0 <= j < |regions| ==> socket !in regions[j] && connection !in regions[j]
      modifies netEventManagers[i], netEventManagers[i].netEventBuffer, netEventManagers[i].netEventHandler.bufferPool
      ensures unchanged(this) && Settled(netEventManagers[i], region)
      ensures netEventManagers[i].Mirrors(Added(m, socket.handle))
      ensures fresh(region - regions[i] - {socket, connection}) && this !in region
      ensures forall j :: 0 <= j < |regions| && j != i ==>
                && Settled(netEventManagers[j], regions[j])
                && netEventManagers[j].socketContexts == old(netEventManagers[j].socketContexts)
      ensures Conns(netEventManagers[i].socketContexts) == Conns(old(netEventManagers[i].socketContexts)) + [connection]
    {
      hide NetBufferBasedEventManager.Mirrors, Unused;
      region := AddIn(netEventManagers[i], socket, connection, m, regions[i]);
    }

    /** The same leaves the other managers as they were. */
    method AddApart(i: nat, socket: NetSocket, connection: NetConnection,
                    ghost ms: seq<Manager>, ghost regions: Regions)
      returns (ghost region: set<object>)
      requires Valid(regions) && i < |netEventManagers| == |ms| && Unused(socket, connection)
      requires forall j :: 0 <= j < |ms| ==> netEventManagers[j].Mirrors(ms[j])
      requires forall j :: 0 <= j < |regions| ==> socket !in regions[j] && connection !in regions[j]
      modifies netEventManagers[i], netEventManagers[i].netEventBuffer, netEventManagers[i].netEventHandler.bufferPool
      ensures unchanged(this) && Valid(regions[i := region]) && fresh(region - regions[i] - {socket, connection})
      ensures forall j :: 0 <= j < |ms| ==>
                && netEventManagers[j].Mirrors(if j == i then Added(ms[i], socket.handle) else ms[j])
                && Conns(netEventManagers[j].socketContexts) ==
                   Conns(old(netEventManagers[j].socketContexts)) + if j == i then [connection] else []
    {
      hide Added, Conns, Unused, NetBufferBasedEventManager.Mirrors;
      region := AddAt(i, socket, connection, ms[i], regions);
      StillDisjoint(regions, i, region);
      forall j | 0 <= j < |ms| && j != i
        ensures netEventManagers[j].Mirrors(ms[j])
      {
        assert regions[j] !! regions[i];
        assert Settled(netEventManagers[j], regions[j]);
      }
      Resettled(regions, i, region);
    }

    /** A new connection at the end of the list, and the handler in line for it. */
    method Enlist(ghost t: Topology) returns (connection: NetConnection, handler: nat)
      requires Represents(t) && availableServerIndex < |netEventManagers|
      modifies this`connections, this`availableServerIndex
      ensures fresh(connection) && connection.View() == FRESH && handler == t.index
      ensures notified == t.notified && availableServerIndex == Balancers.Accepted(T.RingOf(t)).index
      ensures availableServerIndex < |netEventManagers|
      ensures connections == t.list + [connection]
      ensures StatusIs(t.list, t.marked) && PointTo(netEventManagers, t.managers)
    {
      connection := new NetConnection();
      connections := connections + [connection];
      handler := GetAvailableEventHandler(t);
    }

    /** The same leaves the managers as they were. */
    method EnlistApart(ghost t: Topology, ghost ms: seq<Manager>, ghost regions: Regions)
      returns (connection: NetConnection, handler: nat)
      requires Valid(regions) && Represents(t) && |netEventManagers| == |ms|
      requires forall j :: 0 <= j < |ms| ==> netEventManagers[j].Mirrors(ms[j])
      modifies this`connections, this`availableServerIndex
      ensures fresh(connection) && connection.View() == FRESH && handler == t.index
      ensures Valid(regions) && forall j :: 0 <= j < |ms| ==> netEventManagers[j].Mirrors(ms[j])
      ensures notified == t.notified && availableServerIndex == Balancers.Accepted(T.RingOf(t)).index
      ensures connections == t.list + [connection]
      ensures StatusIs(t.list, t.marked) && PointTo(netEventManagers, t.managers)
    {
      assert forall j :: 0 <= j < |regions| ==> this !in Parts(netEventManagers[j].socketContexts);
      hide NetBufferBasedEventManager.Mirrors, Settled, Parts, PointTo, StatusIs;
      connection, handler := Enlist(t);
      forall j | 0 <= j < |ms|
        ensures netEventManagers[j].Mirrors(ms[j])
      {
        assert this !in Parts(netEventManagers[j].socketContexts);
      }
    }

    /** A new connection at the end of the list, with a context in the manager in line. */
    method AddConnection(socket: NetSocket, ghost t: Topology, ghost ms: seq<Manager>, ghost regions: Regions)
      returns (connection: NetConnection, ghost region: set<object>)
      requires Valid(regions) && Represents(t) && T.Linked(t) && |netEventManagers| == |ms|
      requires socket.Silent()
      requires forall j :: 0 <= j < |ms| ==> netEventManagers[j].Mirrors(ms[j])
      requires forall j :: 0 <= j < |regions| ==> socket !in regions[j]
      modifies this`connections, this`availableServerIndex
      modifies netEventManagers[availableServerIndex], netEventManagers[availableServerIndex].netEventBuffer
      modifies netEventManagers[availableServerIndex].netEventHandler.bufferPool
      ensures fresh(connection) && Represents(T.Accepted(t, connection)) && T.Linked(T.Accepted(t, connection))
      ensures Valid(regions[t.index := region]) && fresh(region - regions[t.index] - {socket})
      ensures forall j :: 0 <= j < |ms| ==>
                netEventManagers[j].Mirrors(if j == t.index then Added(ms[j], socket.handle) else ms[j])
    {
      hide T.Linked, Settled, NetBufferBasedEventManager.Mirrors;
      var handler;
      connection, handler := EnlistApart(t, ms, regions);
      region := AddApart(handler, socket, connection, ms, regions);
      T.AcceptedKeeps(t, connection);
    }

    lemma MarksAreSeen(t: Topology, before: seq<Conn>)
      requires Represents(t) && Views(t.list, before, 0)
      ensures AsMarked(t, before)
    {
    }
  }

  /** What a manager mirrors of a value apart from the connections. */
  ghost predicate MirrorsBut(manager: NetBufferBasedEventManager, m: Manager)
    reads manager, manager.netEventBuffer, manager.netEventHandler.bufferPool
    reads (set c <- manager.socketContexts :: c.socket), (set c <- manager.socketContexts :: c.receiveContext)
    reads (set c <- manager.socketContexts :: c.sendContext)
  {
    && manager.netEventHandler.bufferPool.View() == m.pool && manager.lost == m.lost
    && |manager.socketContexts| == |manager.netEventBuffer.pollFDs| == |m.entries|
    && forall k :: 0 <= k < |m.entries| ==>
         var c, e := manager.socketContexts[k], m.entries[k];
         && c.socket.handle == e.ctx.handle && c.socket.log == e.ctx.log
         && c.socket.wire == e.ctx.wire && c.socket.issued == e.ctx.issued
         && c.socket.handed == e.ctx.handed && c.socket.posted == e.ctx.posted
         && c.receiveContext.View() == e.ctx.receive && c.sendContext.View() == e.ctx.send
         && manager.netEventBuffer.pollFDs[k].fd == e.ctx.handle
         && manager.netEventBuffer.pollFDs[k].wantsWrite == e.wantsWrite
  }

  /** The contexts' connections are in the list, and were there what the value says. */
  ghost predicate ConnsAre(contexts: seq<SocketContext>, m: Manager, list: seq<NetConnection>, before: seq<Conn>) {
    && |contexts| == |m.entries| && |before| == |list|
    && forall k :: 0 <= k < |contexts| ==> WasThere(contexts[k].connection, m.entries[k].ctx.conn, list, before)
  }

  ghost predicate WasThere(c: NetConnection, conn: Conn, list: seq<NetConnection>, before: seq<Conn>)
    requires |before| == |list|
  {
    exists p :: 0 <= p < |list| && list[p] == c && before[p] == conn
  }

  lemma SplitMirrors(manager: NetBufferBasedEventManager, m: Manager, t: Topology, j: nat, before: seq<Conn>)
    requires manager.Mirrors(m) && j < |t.managers| && Conns(manager.socketContexts) == t.managers[j]
    requires T.Within(t.managers, t.list) && Views(t.list, before, 0)
    ensures MirrorsBut(manager, m) && ConnsAre(manager.socketContexts, m, t.list, before)
  {
  }

  lemma OpenStaysOpen(t: Topology, before: seq<Conn>)
    requires AsMarked(t, before) && Views(t.list, before, |t.list|)
    ensures StatusIs(T.Updated(t).list, {})
  {
    forall c <- T.Updated(t).list
      ensures c.status == Init
    {
      T.OpenHas(t.list, t.marked, c);
      var k :| 0 <= k < |t.list| && t.list[k] == c;
      assert c.View() == Connections.Updated(before[k]);
    }
  }
}
