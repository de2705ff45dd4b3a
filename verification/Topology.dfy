/**
  Who points to whom in a server (NetServer.hpp): the connection list owns the connections,
  the event managers' contexts point into it, and `Update` erases what has been disconnected.
  `C` is the identity of a connection.
 */
module Topologies {
  import opened Balancers

  /**
    The list, the connections in it that are marked for close, the connections that each
    manager's contexts point to, the balancer's index, and the connections whose disconnection
    the user was told of.
   */
  datatype Topology<C(==)> = Topology(
    list: seq<C>,
    marked: set<C>,
    managers: seq<seq<C>>,
    index: nat,
    notified: seq<C>
  )

  ghost predicate NoDup<C>(s: seq<C>) {
    forall j, k :: 0 <= j < k < |s| ==> s[j] != s[k]
  }

  /** The connections of a list that are not marked, in list order. */
  function Open<C(==)>(list: seq<C>, marked: set<C>): seq<C> {
    if list == [] then []
    else
      var front, last := Open(list[..|list| - 1], marked), list[|list| - 1];
      if last in marked then front else front + [last]
  }

  /** The marked ones, in list order. */
  function Closing<C(==)>(list: seq<C>, marked: set<C>): seq<C> {
    if list == [] then []
    else
      var front, last := Closing(list[..|list| - 1], marked), list[|list| - 1];
      if last in marked then front + [last] else front
  }

  /** How many contexts of all managers point to a connection. */
  ghost function Pointing<C>(managers: seq<seq<C>>, c: C): nat {
    if managers == [] then 0
    else Pointing(managers[..|managers| - 1], c) + multiset(managers[|managers| - 1])[c]
  }

  /** The managers' contexts point only to connections of the list. */
  ghost predicate Within<C>(managers: seq<seq<C>>, list: seq<C>) {
    forall i, k :: 0 <= i < |managers| && 0 <= k < |managers[i]| ==> managers[i][k] in list
  }

  /**
    What holds whatever the user does: exactly one context points to each unmarked connection of
    the list, at most one to a marked one, and none outside the list; no connection was ever listed
    or notified twice.
   */
  ghost predicate Tied<C>(t: Topology<C>) {
    && NoDup(t.notified + t.list)
    && (forall c <- t.marked :: c in t.list)
    && Within(t.managers, t.list)
    && forall c <- t.list :: Pointing(t.managers, c) <= 1 && (c !in t.marked ==> Pointing(t.managers, c) == 1)
  }

  /** No context points to a marked connection. */
  ghost predicate NoneMarkedHeld<C>(t: Topology<C>) {
    forall c <- t.marked :: Pointing(t.managers, c) == 0
  }

  /** The bijection: exactly one context points to each unmarked connection of the list, and none to any other. */
  ghost predicate Linked<C>(t: Topology<C>) {
    Tied(t) && NoneMarkedHeld(t)
  }

  // ----- Steps -----

  ghost function Accepted<C>(t: Topology<C>, c: C): Topology<C>
    requires t.index < |t.managers|
  {
    t.(list := t.list + [c],
       managers := t.managers[t.index := t.managers[t.index] + [c]],
       index := Balancers.Accepted(RingOf(t)).index)
  }

  /** One more event manager, without contexts. */
  ghost function WithManager<C>(t: Topology<C>): Topology<C> {
    t.(managers := t.managers + [[]])
  }

  ghost function RingOf<C>(t: Topology<C>): (r: Ring)
    ensures |r.loads| == |t.managers| && r.index == t.index
  {
    Ring(seq(|t.managers|, i requires 0 <= i < |t.managers| => |t.managers[i]|), t.index)
  }

  ghost function Missing<C>(before: seq<C>, kept: seq<C>): set<C> {
    set c | c in before && c !in kept
  }

  /** An event pass of one manager keeps some contexts and marks the connections of the others. */
  ghost function Passed<C>(t: Topology<C>, i: nat, kept: seq<C>): Topology<C>
    requires i < |t.managers|
  {
    t.(marked := t.marked + Missing(t.managers[i], kept), managers := t.managers[i := kept])
  }

  /** The user closes a connection himself, which marks it and leaves its context. */
  ghost function ClosedByUser<C>(t: Topology<C>, c: C): Topology<C> {
    t.(marked := t.marked + {c})
  }

  /** A pass of the first managers, in order. */
  ghost function PassedAll<C>(t: Topology<C>, kepts: seq<seq<C>>): (t': Topology<C>)
    requires |kepts| <= |t.managers|
    ensures |t'.managers| == |t.managers| && t'.list == t.list
    ensures forall i :: 0 <= i < |t.managers| ==> t'.managers[i] == if i < |kepts| then kepts[i] else t.managers[i]
  {
    if kepts == [] then t
    else Passed(PassedAll(t, kepts[..|kepts| - 1]), |kepts| - 1, kepts[|kepts| - 1])
  }

  lemma PassedNext<C>(t: Topology<C>, kepts: seq<seq<C>>, kept: seq<C>)
    requires |kepts| < |t.managers|
    ensures PassedAll(t, kepts + [kept]) == Passed(PassedAll(t, kepts), |kepts|, kept)
  {
  }

  /** Marks the connections of the first `i` managers' contexts and drops these contexts. */
  ghost function Dropped<C>(t: Topology<C>, i: nat): (t': Topology<C>)
    requires i <= |t.managers|
    ensures |t'.managers| == |t.managers|
  {
    if i == 0 then t else Passed(Dropped(t, i - 1), i - 1, [])
  }

  ghost function AllDropped<C>(t: Topology<C>): Topology<C> {
    Dropped(t, |t.managers|)
  }

  ghost function Updated<C>(t: Topology<C>): Topology<C> {
    t.(list := Open(t.list, t.marked), marked := {}, notified := t.notified + Closing(t.list, t.marked))
  }

  // ----- The steps keep the bijection -----

  lemma {:induction false} OpenHas<C>(list: seq<C>, marked: set<C>, c: C)
    ensures c in Open(list, marked) <==> c in list && c !in marked
    ensures c in Closing(list, marked) <==> c in list && c in marked
  {
    if list != [] {
      OpenHas(list[..|list| - 1], marked, c);
      assert list == list[..|list| - 1] + [list[|list| - 1]];
    }
  }

  lemma OpenNext<C>(list: seq<C>, marked: set<C>, n: nat)
    requires n < |list|
    ensures Open(list[..n + 1], marked) == Open(list[..n], marked) + (if list[n] in marked then [] else [list[n]])
    ensures Closing(list[..n + 1], marked) == Closing(list[..n], marked) + (if list[n] in marked then [list[n]] else [])
  {
    assert list[..n + 1][..n] == list[..n];
  }

  lemma {:induction false} Halves<C>(list: seq<C>, marked: set<C>)
    ensures multiset(list) == multiset(Open(list, marked)) + multiset(Closing(list, marked))
  {
    if list != [] {
      Halves(list[..|list| - 1], marked);
      assert list == list[..|list| - 1] + [list[|list| - 1]];
    }
  }

  lemma {:induction false} DupCount<C>(s: seq<C>, c: C)
    requires NoDup(s)
    ensures multiset(s)[c] == if c in s then 1 else 0
  {
    if s != [] {
      var front, last := s[..|s| - 1], s[|s| - 1];
      DupCount(front, c);
      assert s == front + [last];
      assert last !in front;
    }
  }

  lemma {:induction false} CountDup<C>(s: seq<C>)
    requires forall c <- s :: multiset(s)[c] <= 1
    ensures NoDup(s)
  {
    if s != [] {
      var front, last := s[..|s| - 1], s[|s| - 1];
      assert s == front + [last];
      assert multiset(s) == multiset(front) + multiset{last};
      forall c <- front
        ensures multiset(front)[c] <= 1
      {
        assert c in s;
      }
      CountDup(front);
      assert last in s && last !in multiset(front);
    }
  }

  lemma {:induction false} PointingReplaced<C>(managers: seq<seq<C>>, i: nat, kept: seq<C>, c: C)
    requires i < |managers|
    ensures Pointing(managers[i := kept], c) + multiset(managers[i])[c] == Pointing(managers, c) + multiset(kept)[c]
  {
    var n := |managers| - 1;
    var changed := managers[i := kept];
    if i == n {
      assert changed[..n] == managers[..n];
    } else {
      PointingReplaced(managers[..n], i, kept, c);
      assert changed[..n] == managers[..n][i := kept];
    }
  }

  lemma {:induction false} PointingAt<C>(managers: seq<seq<C>>, i: nat, c: C)
    requires i < |managers|
    ensures multiset(managers[i])[c] <= Pointing(managers, c)
  {
    var n := |managers| - 1;
    if i < n {
      PointingAt(managers[..n], i, c);
    }
  }

  lemma {:induction false} PointingNone<C>(managers: seq<seq<C>>, c: C)
    requires forall i :: 0 <= i < |managers| ==> c !in managers[i]
    ensures Pointing(managers, c) == 0
  {
    if managers != [] {
      PointingNone(managers[..|managers| - 1], c);
      assert c !in multiset(managers[|managers| - 1]);
    }
  }

  lemma ListHasNoDup<C>(a: seq<C>, b: seq<C>)
    requires NoDup(a + b)
    ensures NoDup(b)
  {
    forall j, k | 0 <= j < k < |b|
      ensures b[j] != b[k]
    {
      assert (a + b)[|a| + j] != (a + b)[|a| + k];
    }
  }

  ghost predicate Unknown<C>(t: Topology<C>, c: C) {
    c !in t.list && c !in t.notified
  }

  lemma AcceptedAdds<C>(t: Topology<C>, c: C, d: C)
    requires t.index < |t.managers|
    ensures Pointing(Accepted(t, c).managers, d) == Pointing(t.managers, d) + if d == c then 1 else 0
  {
    var m := t.managers[t.index];
    PointingReplaced(t.managers, t.index, m + [c], d);
    assert multiset(m + [c])[d] == multiset(m)[d] + if d == c then 1 else 0;
  }

  lemma AcceptedTied<C>(t: Topology<C>, c: C)
    requires Tied(t) && t.index < |t.managers| && Unknown(t, c)
    ensures Tied(Accepted(t, c))
  {
    var t' := Accepted(t, c);
    forall d <- t'.list
      ensures Pointing(t'.managers, d) <= 1 && (d !in t'.marked ==> Pointing(t'.managers, d) == 1)
    {
      AcceptedAdds(t, c, d);
      if d == c {
        PointingNone(t.managers, c);
      }
    }
    assert t.notified + (t.list + [c]) == t.notified + t.list + [c];
  }

  lemma AcceptedKeeps<C>(t: Topology<C>, c: C)
    requires Linked(t) && t.index < |t.managers| && Unknown(t, c)
    ensures Linked(Accepted(t, c))
  {
    AcceptedTied(t, c);
    forall d <- t.marked
      ensures Pointing(Accepted(t, c).managers, d) == 0
    {
      AcceptedAdds(t, c, d);
    }
  }

  lemma WithManagerTied<C>(t: Topology<C>)
    requires Tied(t)
    ensures Tied(WithManager(t)) && forall c :: Pointing(WithManager(t).managers, c) == Pointing(t.managers, c)
  {
    var managers := WithManager(t).managers;
    assert managers[..|managers| - 1] == t.managers;
  }

  lemma WithManagerKeeps<C>(t: Topology<C>)
    requires Linked(t)
    ensures Linked(WithManager(t))
  {
    WithManagerTied(t);
  }

  /** A pass keeps some of a manager's contexts. */
  ghost predicate CanPass<C>(t: Topology<C>, i: nat, kept: seq<C>) {
    i < |t.managers| && multiset(kept) <= multiset(t.managers[i])
  }

  lemma KeptWithin<C>(before: seq<C>, kept: seq<C>, c: C)
    requires multiset(kept) <= multiset(before)
    ensures c in kept ==> c in before
    ensures (multiset(before)[c] > 0 <==> c in before) && (multiset(kept)[c] > 0 <==> c in kept)
  {
  }

  lemma PassedTakes<C>(t: Topology<C>, i: nat, kept: seq<C>, c: C)
    requires CanPass(t, i, kept)
    ensures Pointing(Passed(t, i, kept).managers, c) <= Pointing(t.managers, c)
    ensures c in Missing(t.managers[i], kept) && Pointing(t.managers, c) <= 1 ==>
              Pointing(Passed(t, i, kept).managers, c) == 0
    ensures c !in Missing(t.managers[i], kept) && Pointing(t.managers, c) <= 1 ==>
              Pointing(Passed(t, i, kept).managers, c) == Pointing(t.managers, c)
  {
    PointingReplaced(t.managers, i, kept, c);
    PointingAt(t.managers, i, c);
    KeptWithin(t.managers[i], kept, c);
    assert multiset(kept)[c] <= multiset(t.managers[i])[c];
  }

  lemma PassedWithin<C>(t: Topology<C>, i: nat, kept: seq<C>)
    requires Within(t.managers, t.list) && CanPass(t, i, kept)
    ensures Within(Passed(t, i, kept).managers, t.list)
  {
    var managers := Passed(t, i, kept).managers;
    forall j, k | 0 <= j < |managers| && 0 <= k < |managers[j]|
      ensures managers[j][k] in t.list
    {
      if j == i {
        assert kept[k] in kept;
        KeptWithin(t.managers[i], kept, kept[k]);
      }
    }
  }

  lemma PassedTied<C>(t: Topology<C>, i: nat, kept: seq<C>)
    requires Tied(t) && CanPass(t, i, kept)
    ensures Tied(Passed(t, i, kept))
  {
    var t' := Passed(t, i, kept);
    PassedWithin(t, i, kept);
    forall c <- t'.list
      ensures Pointing(t'.managers, c) <= 1 && (c !in t'.marked ==> Pointing(t'.managers, c) == 1)
    {
      PassedTakes(t, i, kept, c);
    }
  }

  lemma PassedKeeps<C>(t: Topology<C>, i: nat, kept: seq<C>)
    requires Linked(t) && CanPass(t, i, kept)
    ensures Linked(Passed(t, i, kept))
  {
    PassedTied(t, i, kept);
    forall c <- Passed(t, i, kept).marked
      ensures Pointing(Passed(t, i, kept).managers, c) == 0
    {
      PassedTakes(t, i, kept, c);
    }
  }

  lemma {:induction false} DroppedShape<C>(t: Topology<C>, i: nat)
    requires i <= |t.managers|
    ensures Dropped(t, i).list == t.list && Dropped(t, i).notified == t.notified
    ensures forall j :: 0 <= j < |t.managers| ==> Dropped(t, i).managers[j] == if j < i then [] else t.managers[j]
  {
    if i > 0 {
      DroppedShape(t, i - 1);
    }
  }

  lemma {:induction false} DroppedTied<C>(t: Topology<C>, i: nat)
    requires Tied(t) && i <= |t.managers|
    ensures Tied(Dropped(t, i))
  {
    hide Tied, Passed;
    if i > 0 {
      DroppedTied(t, i - 1);
      PassedTied(Dropped(t, i - 1), i - 1, []);
    }
  }

  lemma {:induction false} DroppedKeeps<C>(t: Topology<C>, i: nat)
    requires Linked(t) && i <= |t.managers|
    ensures Linked(Dropped(t, i))
  {
    hide Linked, Passed;
    if i > 0 {
      DroppedKeeps(t, i - 1);
      PassedKeeps(Dropped(t, i - 1), i - 1, []);
    }
  }

  lemma NoDupAfterUpdate<C>(t: Topology<C>)
    requires NoDup(t.notified + t.list)
    ensures NoDup(Updated(t).notified + Updated(t).list)
    ensures multiset(Updated(t).notified + Updated(t).list) == multiset(t.notified + t.list)
  {
    Halves(t.list, t.marked);
    var before, after := t.notified + t.list, Updated(t).notified + Updated(t).list;
    assert multiset(after) == multiset(before);
    forall c <- after
      ensures multiset(after)[c] <= 1
    {
      DupCount(before, c);
    }
    CountDup(after);
  }

  lemma UpdatedKeeps<C>(t: Topology<C>)
    requires Linked(t)
    ensures Linked(Updated(t))
  {
    NoDupAfterUpdate(t);
    forall c <- Updated(t).list
      ensures c in t.list && c !in t.marked
    {
      OpenHas(t.list, t.marked, c);
    }
    forall i, k | 0 <= i < |t.managers| && 0 <= k < |t.managers[i]|
      ensures t.managers[i][k] in Updated(t).list
    {
      PointedIsOpen(t, i, k);
      OpenHas(t.list, t.marked, t.managers[i][k]);
    }
  }

  /** What a context points to is listed and not marked. */
  lemma PointedIsOpen<C>(t: Topology<C>, i: nat, k: nat)
    requires Linked(t) && i < |t.managers| && k < |t.managers[i]|
    ensures t.managers[i][k] in t.list && t.managers[i][k] !in t.marked
  {
    var c := t.managers[i][k];
    PointingAt(t.managers, i, c);
    assert c in multiset(t.managers[i]);
  }

  // ----- Runs -----

  datatype ServerOp<C> =
    | AcceptOp(c: C)
    | AddManagerOp
    | CloseOp(c: C)
    | PassOp(i: nat, kept: seq<C>)
    | UpdateOp
    | DisconnectAllOp

  /**
    New connections are new, a pass of one manager only drops contexts, and the user closes what is
    in the list.  A run ends where an update would leave a context dangling: what the program does
    from there is undefined.
   */
  ghost predicate Possible<C>(t: Topology<C>, op: ServerOp<C>) {
    match op
    case AcceptOp(c) => t.index < |t.managers| && Unknown(t, c)
    case AddManagerOp => true
    case CloseOp(c) => c in t.list
    case PassOp(i, kept) => CanPass(t, i, kept)
    case UpdateOp => NoneMarkedHeld(t)
    case DisconnectAllOp => true
  }

  ghost function Step<C>(t: Topology<C>, op: ServerOp<C>): Topology<C>
    requires Possible(t, op)
  {
    match op
    case AcceptOp(c) => Accepted(t, c)
    case AddManagerOp => WithManager(t)
    case CloseOp(c) => ClosedByUser(t, c)
    case PassOp(i, kept) => Passed(t, i, kept)
    case UpdateOp => Updated(t)
    case DisconnectAllOp => AllDropped(t)
  }

  ghost predicate Reaches<C>(t: Topology<C>, ops: seq<ServerOp<C>>, t': Topology<C>)
    decreases |ops|
  {
    if ops == [] then t' == t else Possible(t, ops[0]) && Reaches(Step(t, ops[0]), ops[1..], t')
  }

  lemma {:induction false} ReachesOneMore<C>(t: Topology<C>, ops: seq<ServerOp<C>>, t1: Topology<C>, op: ServerOp<C>)
    requires Reaches(t, ops, t1) && Possible(t1, op)
    ensures Reaches(t, ops + [op], Step(t1, op))
    decreases |ops|
  {
    if ops == [] {
      assert (ops + [op])[1..] == [];
    } else {
      assert (ops + [op])[1..] == ops[1..] + [op];
      ReachesOneMore(Step(t, ops[0]), ops[1..], t1, op);
    }
  }

  /** The first managers' passes each keep some of the manager's contexts. */
  ghost predicate CanPassAll<C>(t: Topology<C>, kepts: seq<seq<C>>) {
    |kepts| <= |t.managers| && forall i :: 0 <= i < |kepts| ==> multiset(kepts[i]) <= multiset(t.managers[i])
  }

  lemma CanPassNext<C>(t: Topology<C>, kepts: seq<seq<C>>, kept: seq<C>)
    requires |kepts| < |t.managers| && CanPassAll(t, kepts) && CanPass(PassedAll(t, kepts), |kepts|, kept)
    ensures CanPassAll(t, kepts + [kept])
  {
  }

  ghost function PassOps<C>(kepts: seq<seq<C>>): seq<ServerOp<C>> {
    if kepts == [] then [] else PassOps(kepts[..|kepts| - 1]) + [PassOp(|kepts| - 1, kepts[|kepts| - 1])]
  }

  /** One pass of every manager is a run of the server. */
  lemma {:induction false} PassesAreARun<C>(t: Topology<C>, kepts: seq<seq<C>>)
    requires CanPassAll(t, kepts)
    ensures Reaches(t, PassOps(kepts), PassedAll(t, kepts))
  {
    if kepts != [] {
      var n := |kepts| - 1;
      PassesAreARun(t, kepts[..n]);
      ReachesOneMore(t, PassOps(kepts[..n]), PassedAll(t, kepts[..n]), PassOp(n, kepts[n]));
    }
  }

  /** A server before its first accept. */
  ghost predicate Idle<C>(t: Topology<C>) {
    && t.list == [] && t.marked == {} && t.notified == [] && t.index == 0 && t.managers != []
    && forall i :: 0 <= i < |t.managers| ==> t.managers[i] == []
  }

  lemma IdleTied<C>(t: Topology<C>)
    requires Idle(t)
    ensures Tied(t) && t.notified + t.list == []
  {
  }

  lemma StepTied<C>(t: Topology<C>, op: ServerOp<C>)
    requires Tied(t) && Possible(t, op)
    ensures Tied(Step(t, op))
  {
    match op
    case AcceptOp(c) => AcceptedTied(t, c);
    case AddManagerOp => WithManagerTied(t);
    case CloseOp(c) =>
    case PassOp(i, kept) => PassedTied(t, i, kept);
    case UpdateOp => UpdatedKeeps(t);
    case DisconnectAllOp => DroppedTied(t, |t.managers|);
  }

  lemma {:induction false} RunTied<C>(t: Topology<C>, ops: seq<ServerOp<C>>, t': Topology<C>)
    requires Tied(t) && Reaches(t, ops, t')
    ensures Tied(t')
    decreases |ops|
  {
    if ops != [] {
      StepTied(t, ops[0]);
      RunTied(Step(t, ops[0]), ops[1..], t');
    }
  }

  lemma StepKeeps<C>(t: Topology<C>, op: ServerOp<C>)
    requires Linked(t) && Possible(t, op) && !op.CloseOp?
    ensures Linked(Step(t, op))
  {
    match op
    case AcceptOp(c) => AcceptedKeeps(t, c);
    case AddManagerOp => WithManagerKeeps(t);
    case PassOp(i, kept) => PassedKeeps(t, i, kept);
    case UpdateOp => UpdatedKeeps(t);
    case DisconnectAllOp => DroppedKeeps(t, |t.managers|);
  }

  /** The user closes no connection himself. */
  ghost predicate NoCloses<C>(ops: seq<ServerOp<C>>) {
    forall k :: 0 <= k < |ops| ==> !ops[k].CloseOp?
  }

  lemma {:induction false} RunKeeps<C>(t: Topology<C>, ops: seq<ServerOp<C>>, t': Topology<C>)
    requires Linked(t) && Reaches(t, ops, t') && NoCloses(ops)
    ensures Linked(t')
    decreases |ops|
  {
    if ops != [] {
      StepKeeps(t, ops[0]);
      RunKeeps(Step(t, ops[0]), ops[1..], t');
    }
  }

  /** The connections a run accepted. */
  ghost function AcceptedIn<C>(ops: seq<ServerOp<C>>): seq<C> {
    if ops == [] then []
    else (if ops[0].AcceptOp? then [ops[0].c] else []) + AcceptedIn(ops[1..])
  }

  lemma StepKnows<C>(t: Topology<C>, op: ServerOp<C>)
    requires Tied(t) && Possible(t, op)
    ensures var t' := Step(t, op);
            multiset(t'.notified + t'.list) ==
            multiset(t.notified + t.list) + (if op.AcceptOp? then multiset{op.c} else multiset{})
  {
    match op
    case AcceptOp(c) => assert t.notified + (t.list + [c]) == t.notified + t.list + [c];
    case AddManagerOp =>
    case CloseOp(c) =>
    case PassOp(i, kept) =>
    case UpdateOp => NoDupAfterUpdate(t);
    case DisconnectAllOp => DroppedShape(t, |t.managers|);
  }

  /** The connections listed or told of are those that were, and those accepted since. */
  lemma {:induction false} KnownAreAccepted<C>(t: Topology<C>, ops: seq<ServerOp<C>>, t': Topology<C>)
    requires Tied(t) && Reaches(t, ops, t')
    ensures multiset(t'.notified + t'.list) == multiset(t.notified + t.list) + multiset(AcceptedIn(ops))
    decreases |ops|
  {
    if ops != [] {
      StepKnows(t, ops[0]);
      StepTied(t, ops[0]);
      KnownAreAccepted(Step(t, ops[0]), ops[1..], t');
      hide Tied, Step, Possible;
      var first := if ops[0].AcceptOp? then [ops[0].c] else [];
      assert multiset(AcceptedIn(ops)) == multiset(first) + multiset(AcceptedIn(ops[1..]));
    }
  }

  /**
    The bijection in every reachable state: a connection has one context, in one manager, if it
    is listed and not marked, and none otherwise, unless the user closed it himself.
   */
  lemma BijectionEverywhere<C>(t: Topology<C>, ops: seq<ServerOp<C>>, t': Topology<C>, c: C)
    requires Idle(t) && Reaches(t, ops, t')
    ensures Pointing(t'.managers, c) <= 1
    ensures c !in t'.list ==> Pointing(t'.managers, c) == 0
    ensures c in t'.list && c !in t'.marked ==> Pointing(t'.managers, c) == 1
    ensures c in t'.marked && NoCloses(ops) ==> Pointing(t'.managers, c) == 0
  {
    RunTied(t, ops, t');
    if NoCloses(ops) {
      RunKeeps(t, ops, t');
    }
    if c !in t'.list {
      PointingNone(t'.managers, c);
    }
  }

  lemma {:induction false} SomeContext<C>(managers: seq<seq<C>>, c: C)
    requires Pointing(managers, c) > 0
    ensures exists i, k :: 0 <= i < |managers| && 0 <= k < |managers[i]| && managers[i][k] == c
  {
    var n := |managers| - 1;
    if c in managers[n] {
      var k :| 0 <= k < |managers[n]| && managers[n][k] == c;
    } else {
      assert c !in multiset(managers[n]);
      SomeContext(managers[..n], c);
      var i, k :| 0 <= i < n && 0 <= k < |managers[..n][i]| && managers[..n][i][k] == c;
      assert managers[i][k] == c;
    }
  }

  /** No context points to a connection that was erased from the list. */
  ghost predicate NoneDangles<C>(t: Topology<C>) {
    Within(t.managers, t.list)
  }

  /**
    In every reachable state, whatever the user closed: no context dangles, and an update leaves
    none dangling if and only if no marked connection still has a context.  If the user closed none
    himself, that is always so.
   */
  lemma UpdateDanglesIff<C>(t: Topology<C>, ops: seq<ServerOp<C>>, t': Topology<C>)
    requires Idle(t) && Reaches(t, ops, t')
    ensures NoneDangles(t') && (NoneDangles(Updated(t')) <==> NoneMarkedHeld(t'))
    ensures NoCloses(ops) ==> NoneMarkedHeld(t')
  {
    RunTied(t, ops, t');
    if NoCloses(ops) {
      RunKeeps(t, ops, t');
    }
    if NoneMarkedHeld(t') {
      UpdatedKeeps(t');
    } else {
      var c :| c in t'.marked && Pointing(t'.managers, c) != 0;
      SomeContext(t'.managers, c);
      OpenHas(t'.list, t'.marked, c);
    }
  }

  /** It happens: a connection that the user closes while it is open dangles at the next update. */
  lemma UserCloseDangles<C>(t: Topology<C>, ops: seq<ServerOp<C>>, t': Topology<C>, c: C)
    requires Idle(t) && Reaches(t, ops, t') && c in t'.list && c !in t'.marked
    ensures Reaches(t, ops + [CloseOp(c)], ClosedByUser(t', c)) && !NoneDangles(Updated(ClosedByUser(t', c)))
  {
    RunTied(t, ops, t');
    ReachesOneMore(t, ops, t', CloseOp(c));
    UpdateDanglesIff(t, ops + [CloseOp(c)], ClosedByUser(t', c));
    assert c in ClosedByUser(t', c).marked && Pointing(t'.managers, c) == 1;
  }

  /** And it can be: one accept and one close. */
  lemma OneCloseDangles<C>(t: Topology<C>, c: C)
    requires Idle(t)
    ensures var t' := Accepted(t, c);
            Reaches(t, [AcceptOp(c)] + [CloseOp(c)], ClosedByUser(t', c)) && !NoneDangles(Updated(ClosedByUser(t', c)))
  {
    var ops := [ServerOp.AcceptOp(c)];
    assert ops[1..] == [] && Reaches(t, ops, Accepted(t, c));
    UserCloseDangles(t, ops, Accepted(t, c), c);
  }

  /**
    The disconnect notices over a whole run: nobody is told twice; the next update tells of
    every marked connection, once, and erases it, and keeps every other one untold.
   */
  lemma NoticesEverywhere<C>(t: Topology<C>, ops: seq<ServerOp<C>>, t': Topology<C>, c: C)
    requires Idle(t) && Reaches(t, ops, t')
    ensures multiset(t'.notified)[c] <= 1
    ensures c in t'.list ==>
              && multiset(Updated(t').notified)[c] == (if c in t'.marked then 1 else 0)
              && (c in Updated(t').list <==> c !in t'.marked)
  {
    RunTied(t, ops, t');
    DupCount(t'.notified + t'.list, c);
    NoDupAfterUpdate(t');
    DupCount(Updated(t').notified + Updated(t').list, c);
    OpenHas(t'.list, t'.marked, c);
    CountsAdd(t'.notified, t'.list, c);
    CountsAdd(Updated(t').notified, Updated(t').list, c);
  }

  lemma CountsAdd<C>(a: seq<C>, b: seq<C>, c: C)
    ensures multiset(a + b)[c] == multiset(a)[c] + multiset(b)[c]
    ensures (c in a <==> multiset(a)[c] > 0) && (c in b <==> multiset(b)[c] > 0)
  {
  }

  /** An update keeps the connections that stay in their order: their old positions increase, and none is left out. */
  lemma {:induction false} SurvivorsInOrder<C>(list: seq<C>, marked: set<C>) returns (at: seq<nat>)
    ensures |at| == |Open(list, marked)|
    ensures forall k :: 0 <= k < |at| ==> at[k] < |list| && list[at[k]] == Open(list, marked)[k]
    ensures forall j, k :: 0 <= j < k < |at| ==> at[j] < at[k]
    ensures forall p :: 0 <= p < |list| ==> (p in at <==> list[p] !in marked)
  {
    at := [];
    if list != [] {
      var n := |list| - 1;
      at := SurvivorsInOrder(list[..n], marked);
      OpenNext(list, marked, n);
      assert list[..n + 1] == list;
      assert forall p :: 0 <= p < n ==> list[..n][p] == list[p];
      hide Open;
      if list[n] !in marked {
        at := at + [n];
      }
    }
  }

  lemma {:induction false} ClosingIsOpen<C>(list: seq<C>, marked: set<C>, unmarked: set<C>)
    requires forall c <- list :: c in unmarked <==> c !in marked
    ensures Closing(list, marked) == Open(list, unmarked)
  {
    if list != [] {
      ClosingIsOpen(list[..|list| - 1], marked, unmarked);
      assert list[|list| - 1] in list;
    }
  }

  /** An update tells of the connections it erases in their order in the list, and of every one. */
  lemma NoticesInOrder<C>(list: seq<C>, marked: set<C>) returns (at: seq<nat>)
    ensures |at| == |Closing(list, marked)|
    ensures forall k :: 0 <= k < |at| ==> at[k] < |list| && list[at[k]] == Closing(list, marked)[k]
    ensures forall j, k :: 0 <= j < k < |at| ==> at[j] < at[k]
    ensures forall p :: 0 <= p < |list| ==> (p in at <==> list[p] in marked)
  {
    var unmarked := set c | c in list && c !in marked;
    ClosingIsOpen(list, marked, unmarked);
    at := SurvivorsInOrder(list, unmarked);
  }

  lemma {:induction false} OpenSame<C>(list: seq<C>, a: set<C>, b: set<C>)
    requires forall c <- list :: c in a <==> c in b
    ensures Open(list, a) == Open(list, b)
  {
    if list != [] {
      OpenSame(list[..|list| - 1], a, b);
      assert list[|list| - 1] in list;
    }
  }

  lemma {:induction false} OpenAppend<C>(front: seq<C>, back: seq<C>, marked: set<C>)
    ensures Open(front + back, marked) == Open(front, marked) + Open(back, marked)
  {
    if back == [] {
      assert front + back == front;
    } else {
      var n := |back| - 1;
      assert (front + back)[..|front| + n] == front + back[..n];
      OpenAppend(front, back[..n], marked);
    }
  }

  lemma {:induction false} OpenTwice<C>(list: seq<C>, a: set<C>, b: set<C>)
    requires a <= b
    ensures Open(Open(list, a), b) == Open(list, b)
  {
    if list != [] {
      var n := |list| - 1;
      OpenTwice(list[..n], a, b);
      OpenAppend(Open(list[..n], a), [list[n]], b);
      assert [list[n]][..0] == [];
    }
  }

  lemma OpenOnward<C>(list: seq<C>, first: seq<C>, more: seq<C>, a: set<C>, b: set<C>)
    requires a <= b
    ensures Open(Open(list + first, a) + more, b) == Open(list + (first + more), b)
  {
    hide Open;
    OpenAppend(Open(list + first, a), more, b);
    OpenTwice(list + first, a, b);
    OpenAppend(list + first, more, b);
    assert list + first + more == list + (first + more);
  }

  ghost function Told<C>(t: Topology<C>): set<C> {
    set c | c in t.notified
  }

  lemma NotBoth<C>(a: seq<C>, b: seq<C>, c: C)
    requires NoDup(a + b) && c in b
    ensures c !in a
  {
    var k :| 0 <= k < |b| && b[k] == c;
    forall j | 0 <= j < |a|
      ensures a[j] != c
    {
      assert (a + b)[j] != (a + b)[|a| + k];
    }
  }

  /** Nobody in the list was told. */
  lemma NoneTold<C>(t: Topology<C>)
    requires Tied(t)
    ensures Open(t.list, Told(t)) == t.list
  {
    forall c <- t.list
      ensures c !in t.notified
    {
      NotBoth(t.notified, t.list, c);
    }
    OpenSame(t.list, Told(t), {});
    OpenNone(t.list);
  }

  lemma {:induction false} OpenNone<C>(list: seq<C>)
    ensures Open(list, {}) == list
  {
    if list != [] {
      OpenNone(list[..|list| - 1]);
    }
  }

  /** An update keeps those it has not told. */
  lemma UpdatedUntold<C>(t: Topology<C>)
    requires Tied(t)
    ensures Updated(t).list == Open(t.list, Told(Updated(t)))
  {
    forall c <- t.list
      ensures c in t.marked <==> c in Told(Updated(t))
    {
      OpenHas(t.list, t.marked, c);
      NotBoth(t.notified, t.list, c);
    }
    OpenSame(t.list, t.marked, Told(Updated(t)));
  }

  lemma StepUntold<C>(t: Topology<C>, op: ServerOp<C>)
    requires Tied(t) && Possible(t, op)
    ensures t.notified <= Step(t, op).notified
    ensures Step(t, op).list ==
            Open(t.list + (if op.AcceptOp? then [op.c] else []), if op.UpdateOp? then Told(Step(t, op)) else {})
  {
    OpenNone(t.list + (if op.AcceptOp? then [op.c] else []));
    match op
    case UpdateOp =>
      UpdatedUntold(t);
      assert t.list + [] == t.list;
    case DisconnectAllOp => DroppedShape(t, |t.managers|);
    case _ =>
  }

  /**
    The list keeps the order of accepts: it is always the connections that were listed and those
    accepted since, in order, without those whose disconnection was told.
   */
  lemma {:induction false} ListInOrder<C>(t: Topology<C>, ops: seq<ServerOp<C>>, t': Topology<C>)
    requires Tied(t) && Reaches(t, ops, t')
    ensures t.notified <= t'.notified
    ensures t'.list == Open(t.list + AcceptedIn(ops), Told(t'))
    decreases |ops|
  {
    if ops == [] {
      NoneTold(t);
      assert t.list + [] == t.list;
    } else {
      var t1, first := Step(t, ops[0]), if ops[0].AcceptOp? then [ops[0].c] else [];
      StepUntold(t, ops[0]);
      StepTied(t, ops[0]);
      hide Tied, Step, Possible, Open;
      ListInOrder(t1, ops[1..], t');
      var kept := if ops[0].UpdateOp? then Told(t1) else {};
      assert kept <= Told(t');
      assert AcceptedIn(ops) == first + AcceptedIn(ops[1..]);
      hide AcceptedIn, Told, Reaches;
      OpenOnward(t.list, first, AcceptedIn(ops[1..]), kept, Told(t'));
    }
  }

  lemma NothingLeft<C>(t: Topology<C>)
    requires Tied(t) && forall i :: 0 <= i < |t.managers| ==> t.managers[i] == []
    ensures Updated(t).list == []
  {
    if Updated(t).list != [] {
      OpenHas(t.list, t.marked, Updated(t).list[0]);
      PointingNone(t.managers, Updated(t).list[0]);
    }
  }

  lemma AllTold<C>(t: Topology<C>)
    requires Tied(t) && Updated(t).list == []
    ensures NoDup(Updated(t).notified) && multiset(Updated(t).notified) == multiset(t.notified + t.list)
  {
    NoDupAfterUpdate(t);
    assert Updated(t).notified + [] == Updated(t).notified;
  }

  /**
    Shutdown is complete: from any reachable state, disconnecting all and one update leave no
    connection and no context, and every connection ever accepted has been told of exactly once.
   */
  lemma ShutdownIsComplete<C>(t: Topology<C>, ops: seq<ServerOp<C>>, t': Topology<C>)
    requires Idle(t) && Reaches(t, ops, t')
    ensures var u := Updated(AllDropped(t'));
            && u.list == [] && (forall i :: 0 <= i < |u.managers| ==> u.managers[i] == [])
            && NoDup(u.notified) && multiset(u.notified) == multiset(AcceptedIn(ops))
  {
    hide Tied, Idle, Reaches;
    IdleTied(t);
    RunTied(t, ops, t');
    KnownAreAccepted(t, ops, t');
    DroppedShape(t', |t'.managers|);
    DroppedTied(t', |t'.managers|);
    NothingLeft(AllDropped(t'));
    AllTold(AllDropped(t'));
  }

  // ----- The balancer over the managers -----

  /** The loads the balancer sees are the managers' numbers of contexts. */
  lemma AcceptIsRingStep<C>(t: Topology<C>, c: C)
    requires t.index < |t.managers|
    ensures RingOf(Accepted(t, c)) == Balancers.Accepted(RingOf(t))
  {
  }

  ghost function AcceptedAll<C>(t: Topology<C>, cs: seq<C>): (t': Topology<C>)
    requires t.index < |t.managers|
    ensures t'.index < |t'.managers| == |t.managers|
  {
    if cs == [] then t else Accepted(AcceptedAll(t, cs[..|cs| - 1]), cs[|cs| - 1])
  }

  lemma {:induction false} AcceptsAreRingRun<C>(t: Topology<C>, cs: seq<C>)
    requires t.index < |t.managers|
    ensures RingOf(AcceptedAll(t, cs)) == AcceptedRun(RingOf(t), |cs|)
  {
    if cs != [] {
      AcceptsAreRingRun(t, cs[..|cs| - 1]);
      AcceptIsRingStep(AcceptedAll(t, cs[..|cs| - 1]), cs[|cs| - 1]);
    }
  }

  /** However many connections an idle server accepts, its managers' numbers of contexts never differ by more than 2. */
  lemma BalancedServer<C>(t: Topology<C>, cs: seq<C>, i: nat, j: nat)
    requires Idle(t) && i < |t.managers| && j < |t.managers|
    ensures |AcceptedAll(t, cs).managers[i]| <= |AcceptedAll(t, cs).managers[j]| + 2
  {
    AcceptsAreRingRun(t, cs);
    SpreadBound(RingOf(t), |cs|, i, j);
    assert RingOf(AcceptedAll(t, cs)).loads[i] == |AcceptedAll(t, cs).managers[i]|;
    assert RingOf(AcceptedAll(t, cs)).loads[j] == |AcceptedAll(t, cs).managers[j]|;
  }
}
