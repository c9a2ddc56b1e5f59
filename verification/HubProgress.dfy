/** No schedule goes on forever. */
module HubProgress {
  import opened Prelude
  import opened OpLog
  import opened HubMachine
  import opened HubTheorems

  // ------------------------------------------------------------------- adding up threads

  function PhaseSum(pcs: map<Tid, Pc>, n: nat): nat {
    if n == 0 then 0 else PhaseSum(pcs, n - 1) + Phase(PcAt(pcs, n - 1))
  }

  function WorkSum(pcs: map<Tid, Pc>, n: nat): nat {
    if n == 0 then 0 else WorkSum(pcs, n - 1) + Work(PcAt(pcs, n - 1))
  }

  ghost predicate OnlyThread(p: map<Tid, Pc>, p': map<Tid, Pc>, t: Tid) {
    forall u: Tid :: u != t ==> PcAt(p', u) == PcAt(p, u)
  }

  lemma {:induction false} SumsMove(p: map<Tid, Pc>, p': map<Tid, Pc>, t: Tid, n: nat)
    requires OnlyThread(p, p', t)
    ensures PhaseSum(p', n) - PhaseSum(p, n) == if t < n then Phase(PcAt(p', t)) - Phase(PcAt(p, t)) else 0
    ensures WorkSum(p', n) - WorkSum(p, n) == if t < n then Work(PcAt(p', t)) - Work(PcAt(p, t)) else 0
  {
    hide Phase, Work, PcAt;
    if n == 0 {
    } else {
      SumsMove(p, p', t, n - 1);
    }
  }

  /** No thread from n on has a call under way. */
  ghost predicate Below(s: State, n: nat) {
    forall t: Tid :: t >= n ==> PcAt(s.pcs, t) == Idle
  }

  lemma {:induction false} BoundOf(keys: set<Tid>) returns (n: nat)
    ensures forall t :: t in keys ==> t < n
    decreases |keys|
  {
    if keys == {} {
      n := 0;
    } else {
      var t :| t in keys;
      var m := BoundOf(keys - {t});
      n := Max(m, t + 1);
      forall u | u in keys ensures u < n {
        assert u == t || u in keys - {t};
      }
    }
  }

  /** A step of a call makes the sum smaller, by its phase or, within a phase, by its work. */
  lemma StepShrinks(s: State, t: Tid, a: Action, n: nat)
    requires Moves(s, t, a) && Below(s, n)
    ensures var s' := Do(s, t, a);
      && Below(s', n) && PhaseSum(s'.pcs, n) <= PhaseSum(s.pcs, n)
      && (PhaseSum(s'.pcs, n) == PhaseSum(s.pcs, n) ==> WorkSum(s'.pcs, n) < WorkSum(s.pcs, n))
  {
    hide Do, Phase, Work, PhaseSum, WorkSum;
    var s' := Do(s, t, a);
    MoverBusy(s, t, a);
    CallsProgress(s, t, a, t);
    forall u: Tid | u != t ensures PcAt(s'.pcs, u) == PcAt(s.pcs, u) { CallsProgress(s, t, a, u); }
    SumsMove(s.pcs, s'.pcs, t, n);
  }

  lemma MoverBusy(s: State, t: Tid, a: Action)
    requires Moves(s, t, a)
    ensures PcAt(s.pcs, t) != Idle
  {
  }

  // --------------------------------------------------------------------- schedules

  /** The state after the first n moves of a plan that starts no call; none when one of them is not possible. */
  ghost function Play(s: State, plan: nat -> Move, n: nat): Option<State> {
    if n == 0 then Some(s)
    else
      match Play(s, plan, n - 1)
      case None => None
      case Some(x) =>
        if Moves(x, plan(n - 1).t, plan(n - 1).a) then Some(Do(x, plan(n - 1).t, plan(n - 1).a)) else None
  }

  /** A state that the plan reaches and from which its next move is not possible. */
  lemma {:induction false} PlanEnds(s: State, plan: nat -> Move, i: nat, x: State, b: nat) returns (n: nat, y: State)
    requires Play(s, plan, i) == Some(x) && Below(x, b)
    ensures Play(s, plan, n) == Some(y) && !Moves(y, plan(n).t, plan(n).a)
    decreases PhaseSum(x.pcs, b), WorkSum(x.pcs, b)
  {
    hide Moves, Do, PhaseSum, WorkSum;
    var m := plan(i);
    if Moves(x, m.t, m.a) {
      StepShrinks(x, m.t, m.a, b);
      var x' := StepTo(x, m);
      assert Play(s, plan, i + 1) == Some(x');
      n, y := PlanEnds(s, plan, i + 1, x', b);
    } else {
      n, y := i, x;
    }
  }

  ghost function StepTo(x: State, m: Move): State
    requires Moves(x, m.t, m.a)
  {
    Do(x, m.t, m.a)
  }

  lemma {:induction false} PlayReached(moves: seq<Move>, s: State, plan: nat -> Move, n: nat, x: State) returns (all: seq<Move>)
    requires Reached(moves, s) && Play(s, plan, n) == Some(x)
    ensures Reached(all, x)
  {
    hide Do, Moves;
    if n == 0 {
      all := moves;
    } else {
      var before := Play(s, plan, n - 1).value;
      var init := PlayReached(moves, s, plan, n - 1, before);
      all := init + [plan(n - 1)];
      assert all[..|all| - 1] == init;
      MovesEnabled(before, plan(n - 1));
    }
  }

  lemma MovesEnabled(s: State, m: Move)
    requires Moves(s, m.t, m.a)
    ensures Enabled(s, m.t, m.a)
  {
  }

  /** All calls have returned and all locks are free. */
  ghost predicate AtRest(s: State) {
    && (forall t: Tid :: PcAt(s.pcs, t) == Idle)
    && s.hub.None? && forall rid :: rid in s.rooms ==> s.rooms[rid].lock.None?
  }

  lemma StuckAtRest(moves: seq<Move>, s: State)
    requires Reached(moves, s) && !CanMove(s)
    ensures AtRest(s)
  {
    hide Moves;
    forall t: Tid ensures PcAt(s.pcs, t) == Idle {
      if PcAt(s.pcs, t) != Idle { NoDeadlock(moves, s, t); }
    }
    LocksReleased(moves, s);
  }

  /** A plan that makes some move whenever one is possible. */
  ghost predicate Persists(s: State, plan: nat -> Move) {
    forall n: nat, x: State :: Play(s, plan, n) == Some(x) && CanMove(x) ==> Moves(x, plan(n).t, plan(n).a)
  }

  /**
   * From every reachable state, whatever the order of steps: a plan that starts no new call and moves on while it
   * can comes to a state where every call has returned and every lock is free.
   */
  lemma EveryScheduleEnds(moves: seq<Move>, s: State, plan: nat -> Move)
    requires Reached(moves, s) && Persists(s, plan)
    ensures exists n: nat, y: State :: Play(s, plan, n) == Some(y) && AtRest(y)
  {
    hide Moves, CanMove, AtRest, PhaseSum, WorkSum, Reached;
    var b := BoundOf(s.pcs.Keys);
    assert Below(s, b);
    var n, y := PlanEnds(s, plan, 0, s, b);
    assert !CanMove(y);
    var all := PlayReached(moves, s, plan, n, y);
    StuckAtRest(all, y);
  }

  /** Plans that never stop do not exist: every plan comes to a move that is not possible. */
  lemma NoEndlessPlan(s: State, plan: nat -> Move)
    ensures exists n: nat :: Play(s, plan, n).None?
  {
    hide Moves, PhaseSum, WorkSum;
    var b := BoundOf(s.pcs.Keys);
    assert Below(s, b);
    var n, y := PlanEnds(s, plan, 0, s, b);
    assert Play(s, plan, n + 1).None?;
  }
}
