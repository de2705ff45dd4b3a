/**
  The ring load balancer of the server (NetServer.hpp): which event handler gets the next
  connection, and how evenly.
 */
module Balancers {

  /** The number of connections of each handler, and the handler that is next in line. */
  datatype Ring = Ring(loads: seq<nat>, index: nat) {
    ghost predicate Valid() {
      index < |loads|
    }
  }

  function After(i: nat, n: nat): (j: nat)
    requires i < n
    ensures j == (i + 1) % n
  {
    if i + 1 < n then i + 1 else 0
  }

  /**
    The choice is the handler in line; the line moves on if that one's load, before the accept,
    exceeds its neighbour's.
   */
  ghost function Accepted(r: Ring): Ring
    requires r.Valid()
  {
    var next := After(r.index, |r.loads|);
    Ring(r.loads[r.index := r.loads[r.index] + 1], if r.loads[r.index] > r.loads[next] then next else r.index)
  }

  ghost function AcceptedRun(r: Ring, m: nat): (r': Ring)
    requires r.Valid()
    ensures r'.Valid() && |r'.loads| == |r.loads|
  {
    if m == 0 then r else Accepted(AcceptedRun(r, m - 1))
  }

  // ----- From empty: the exact state after any number of accepts -----

  /** Where the k-th round starts: one place further back each time. */
  ghost function Start(k: nat, n: nat): (s: nat)
    requires n > 0
    ensures s < n
  {
    if k == 0 then 0 else Before(Start(k - 1, n), n)
  }

  ghost function Before(i: nat, n: nat): nat
    requires i < n
  {
    if i == 0 then n - 1 else i - 1
  }

  /** Round k starts at -k, modulo the number of handlers. */
  lemma {:induction false} StartIs(k: nat, n: nat) returns (turns: nat)
    requires n > 0
    ensures Start(k, n) + k == turns * n
  {
    if k == 0 {
      turns := 0;
    } else {
      turns := StartIs(k - 1, n);
      if Start(k - 1, n) == 0 {
        assert turns * n + n == (turns + 1) * n;
        turns := turns + 1;
      }
    }
  }

  /** How far `j` is ahead of `s` along the ring. */
  ghost function Ahead(s: nat, j: nat, n: nat): (d: nat)
    requires s < n && j < n
    ensures d < n
  {
    if j >= s then j - s else j + n - s
  }

  /**
    Round k, with `filled` handlers done: the filled ones hold 2k + 2, the one in line 2k or
    2k + 1, the others 2k.
   */
  ghost predicate InRound(r: Ring, k: nat, filled: nat, half: nat) {
    && r.Valid() && filled < |r.loads| && half <= 1
    && var s, n := Start(k, |r.loads|), |r.loads|;
       && Ahead(s, r.index, n) == filled
       && forall j :: 0 <= j < n ==>
            var d := Ahead(s, j, n);
            r.loads[j] == 2 * k + (if d < filled then 2 else if d == filled then half else 0)
  }

  lemma RoundStep(r: Ring, k: nat, filled: nat, half: nat)
    requires InRound(r, k, filled, half)
    ensures if half == 0 then InRound(Accepted(r), k, filled, 1)
            else if filled + 1 < |r.loads| then InRound(Accepted(r), k, filled + 1, 0)
            else InRound(Accepted(r), k + 1, 0, 0)
  {
  }

  ghost predicate Empty(r: Ring) {
    r.Valid() && r.index == 0 && forall j :: 0 <= j < |r.loads| ==> r.loads[j] == 0
  }

  lemma RoundZero(r: Ring)
    requires Empty(r)
    ensures InRound(r, 0, 0, 0)
  {
  }

  /** Where the m-th accept stands: the round, the handlers filled in it, and half a handler. */
  lemma {:induction false} RoundOf(m: nat, n: nat, k: nat, filled: nat, half: nat, r: Ring)
    requires Empty(r) && n == |r.loads|
    requires m == 2 * (k * n + filled) + half && filled < n && half <= 1
    ensures InRound(AcceptedRun(r, m), k, filled, half)
    decreases m
  {
    hide InRound;
    if half == 1 {
      RoundOf(m - 1, n, k, filled, 0, r);
      RoundStep(AcceptedRun(r, m - 1), k, filled, 0);
    } else if filled > 0 {
      RoundOf(m - 1, n, k, filled - 1, 1, r);
      RoundStep(AcceptedRun(r, m - 1), k, filled - 1, 1);
    } else if k > 0 {
      assert k * n == (k - 1) * n + n;
      RoundOf(m - 1, n, k - 1, n - 1, 1, r);
      RoundStep(AcceptedRun(r, m - 1), k - 1, n - 1, 1);
    } else {
      RoundZero(r);
    }
  }

  /** Every number of accepts has its round. */
  lemma Rounds(m: nat, n: nat) returns (k: nat, filled: nat, half: nat)
    requires n > 0
    ensures m == 2 * (k * n + filled) + half && filled < n && half <= 1
  {
    half := m % 2;
    k, filled := m / 2 / n, m / 2 % n;
  }

  /** In an accept-only run from empty, no two loads ever differ by more than 2. */
  lemma SpreadBound(r: Ring, m: nat, i: nat, j: nat)
    requires Empty(r) && i < |r.loads| && j < |r.loads|
    ensures AcceptedRun(r, m).loads[i] <= AcceptedRun(r, m).loads[j] + 2
  {
    var k, filled, half := Rounds(m, |r.loads|);
    RoundOf(m, |r.loads|, k, filled, half, r);
  }

  /** The bound is met: with two handlers or more, after two accepts one has 2 and its neighbour none. */
  lemma SpreadIsMet(r: Ring)
    requires Empty(r) && |r.loads| >= 2
    ensures AcceptedRun(r, 2).loads[0] == 2 && AcceptedRun(r, 2).loads[1] == 0
  {
    RoundOf(2, |r.loads|, 0, 1, 0, r);
    assert Ahead(0, 0, |r.loads|) == 0 && Ahead(0, 1, |r.loads|) == 1;
  }

  /** After 2nk accepts every handler has exactly 2k, and the line has moved k places back. */
  lemma FullRounds(r: Ring, k: nat)
    requires Empty(r)
    ensures var r' := AcceptedRun(r, 2 * (k * |r.loads|));
            && (forall j :: 0 <= j < |r.loads| ==> r'.loads[j] == 2 * k)
            && r'.index == Start(k, |r.loads|)
  {
    RoundOf(2 * (k * |r.loads|), |r.loads|, k, 0, 0, r);
    assert Ahead(Start(k, |r.loads|), AcceptedRun(r, 2 * (k * |r.loads|)).index, |r.loads|) == 0;
  }

  // ----- From any loads: progress -----

  /** How many accepts the handler in line takes before the line moves on. */
  ghost function Stay(r: Ring): (t: nat)
    requires r.Valid()
    ensures t >= 1
  {
    var c: int, d: int := r.loads[r.index], r.loads[After(r.index, |r.loads|)];
    if d - c + 2 > 1 then d - c + 2 else 1
  }

  lemma {:induction false} Staying(r: Ring, t: nat)
    requires r.Valid() && |r.loads| >= 2 && t < Stay(r)
    ensures AcceptedRun(r, t) == Ring(r.loads[r.index := r.loads[r.index] + t], r.index)
  {
    if t > 0 {
      Staying(r, t - 1);
    }
  }

  /**
    The line stays at a handler of load c, beside one of load d, for exactly max(d - c + 2, 1)
    accepts, and then moves one on.
   */
  lemma LeavesAfter(r: Ring)
    requires r.Valid() && |r.loads| >= 2
    ensures forall t: nat :: t < Stay(r) ==> AcceptedRun(r, t).index == r.index
    ensures AcceptedRun(r, Stay(r)).index == After(r.index, |r.loads|)
  {
    forall t: nat | t < Stay(r)
      ensures AcceptedRun(r, t).index == r.index
    {
      Staying(r, t);
    }
    Staying(r, Stay(r) - 1);
  }

  lemma {:induction false} RunOn(r: Ring, a: nat, b: nat)
    requires r.Valid()
    ensures AcceptedRun(AcceptedRun(r, a), b) == AcceptedRun(r, a + b)
  {
    if b > 0 {
      RunOn(r, a, b - 1);
      assert AcceptedRun(r, a + b) == Accepted(AcceptedRun(r, a + b - 1));
    }
  }

  lemma {:induction false} Reached(r: Ring, j: nat) returns (m: nat)
    requires r.Valid() && |r.loads| >= 2 && j < |r.loads|
    ensures AcceptedRun(r, m).index == j
    decreases Ahead(r.index, j, |r.loads|)
  {
    if r.index == j {
      m := 0;
    } else {
      LeavesAfter(r);
      var r' := AcceptedRun(r, Stay(r));
      var rest := Reached(r', j);
      RunOn(r, Stay(r), rest);
      m := Stay(r) + rest;
    }
  }

  /** Whatever the loads are, every handler comes in line again. */
  lemma ReachedAgain(r: Ring, j: nat) returns (m: nat)
    requires r.Valid() && |r.loads| >= 2 && j < |r.loads|
    ensures m > 0 && AcceptedRun(r, m).index == j
  {
    var rest := Reached(AcceptedRun(r, Stay(r)), j);
    RunOn(r, Stay(r), rest);
    m := Stay(r) + rest;
  }
}
