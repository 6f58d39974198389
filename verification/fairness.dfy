/** Time sharing among ordinary processes: what ticks and selections add up to over whole rounds. */
module Fairness {
  import opened Links
  import opened Chains
  import opened Sleep
  import opened Sched

  /** The run list's quanta and the position of the process that runs. */
  datatype Turn = Turn(quanta: seq<int>, current: nat)

  ghost predicate Priority(prio: seq<int>) {
    prio != [] && forall i :: 0 <= i < |prio| ==> prio[i] > 0
  }

  ghost predicate Live(s: Turn, prio: seq<int>) {
    && Priority(prio)
    && |s.quanta| == |prio|
    && s.current < |prio|
    && s.quanta[s.current] > 0
    && (forall i :: 0 <= i < |prio| ==> s.quanta[i] >= 0)
  }

  /** One tick: the running process is charged; when it has used up its quantum, another is chosen. */
  ghost function Ticked(s: Turn, prio: seq<int>): Turn
    requires Live(s, prio)
  {
    var q := s.quanta[s.current := s.quanta[s.current] - 1];
    if q[s.current] > 0 then Turn(q, s.current)
    else if q[FirstMax(q)] > 0 then Turn(q, FirstMax(q))
    else Turn(prio, FirstMax(prio))
  }

  lemma TickedLive(s: Turn, prio: seq<int>)
    requires Live(s, prio)
    ensures Live(Ticked(s, prio), prio)
  {
  }

  ghost function Sum(q: seq<int>): int {
    if q == [] then 0 else q[0] + Sum(q[1..])
  }

  lemma {:induction false} SumUpdate(q: seq<int>, i: nat, x: int)
    requires i < |q|
    ensures Sum(q[i := x]) == Sum(q) - q[i] + x
  {
    if i > 0 {
      SumUpdate(q[1..], i - 1, x);
      assert q[i := x][1..] == q[1..][i - 1 := x];
    } else {
      assert q[i := x][1..] == q[1..];
    }
  }

  /** A sum of quanta that are not negative is positive exactly when one of them is. */
  lemma {:induction false} SumPositive(q: seq<int>)
    requires forall i :: 0 <= i < |q| ==> q[i] >= 0
    ensures Sum(q) >= 0
    ensures q != [] ==> (Sum(q) > 0 <==> q[FirstMax(q)] > 0)
    ensures forall i :: 0 <= i < |q| ==> q[i] <= Sum(q)
  {
    if q != [] {
      SumPositive(q[1..]);
      forall i | 0 <= i < |q| ensures q[i] <= Sum(q) {
        if i > 0 { assert q[i] == q[1..][i - 1]; }
      }
      if q[FirstMax(q)] == 0 && |q| > 1 {
        assert q[1..][FirstMax(q[1..])] == 0;
      }
    }
  }

  ghost function After(s: Turn, prio: seq<int>, n: nat): Turn
    requires Live(s, prio)
    decreases n
  {
    TickedLive(s, prio);
    if n == 0 then s else After(Ticked(s, prio), prio, n - 1)
  }

  /** Which process runs at each of the next `n` ticks. */
  ghost function Ran(s: Turn, prio: seq<int>, n: nat): (r: seq<nat>)
    requires Live(s, prio)
    ensures |r| == n
    decreases n
  {
    TickedLive(s, prio);
    if n == 0 then [] else [s.current] + Ran(Ticked(s, prio), prio, n - 1)
  }

  ghost function Count(r: seq<nat>, i: nat): nat {
    if r == [] then 0 else (if r[0] == i then 1 else 0) + Count(r[1..], i)
  }

  /** When nothing is left but the unit just spent, it was the running process's. */
  lemma LastUnit(s: Turn, q: seq<int>)
    requires s.current < |s.quanta| && q == s.quanta[s.current := s.quanta[s.current] - 1]
    requires Sum(q) == 0 && forall i :: 0 <= i < |q| ==> 0 <= q[i] <= Sum(q)
    ensures forall i :: 0 <= i < |q| ==> s.quanta[i] == if i == s.current then 1 else 0
  {
    hide Sum;
    forall i | 0 <= i < |q| ensures s.quanta[i] == if i == s.current then 1 else 0 {
      assert q[i] == 0;
    }
  }

  /** A tick spends one unit of the round, or the last one, and then the round starts over. */
  lemma TickSpendsOne(s: Turn, prio: seq<int>)
    requires Live(s, prio)
    ensures Sum(s.quanta) > 0
    ensures Sum(s.quanta) > 1 ==>
              Ticked(s, prio).quanta == s.quanta[s.current := s.quanta[s.current] - 1]
              && Sum(Ticked(s, prio).quanta) == Sum(s.quanta) - 1
    ensures Sum(s.quanta) == 1 ==>
              Ticked(s, prio) == Turn(prio, FirstMax(prio))
              && forall i :: 0 <= i < |prio| ==> s.quanta[i] == if i == s.current then 1 else 0
  {
    hide Sum;
    hide FirstMax;
    var q := s.quanta[s.current := s.quanta[s.current] - 1];
    SumPositive(s.quanta);
    SumUpdate(s.quanta, s.current, s.quanta[s.current] - 1);
    SumPositive(q);
    if Sum(s.quanta) == 1 {
      LastUnit(s, q);
    } else {
      assert q[s.current] > 0 || q[FirstMax(q)] > 0;
    }
  }

  /** Until the quanta are used up nobody gets a new one, and everyone runs exactly its quantum. */
  lemma {:induction false} RoundIsExact(s: Turn, prio: seq<int>, i: nat)
    requires Live(s, prio) && i < |prio|
    ensures Sum(s.quanta) > 0
    ensures After(s, prio, Sum(s.quanta)) == Turn(prio, FirstMax(prio))
    ensures Count(Ran(s, prio, Sum(s.quanta)), i) == s.quanta[i]
    decreases Sum(s.quanta)
  {
    hide Ticked;
    hide Sum;
    hide FirstMax;
    TickSpendsOne(s, prio);
    TickedLive(s, prio);
    var n := Sum(s.quanta);
    if n > 1 {
      RoundIsExact(Ticked(s, prio), prio, i);
    } else {
      assert After(Ticked(s, prio), prio, 0) == Ticked(s, prio);
      assert Ran(Ticked(s, prio), prio, 0) == [];
    }
  }

  /** From one refill to the next: `Sum(prio)` ticks, of which process `i` runs `prio[i]`, so it does run. */
  lemma RefillToRefill(prio: seq<int>, i: nat)
    requires Priority(prio) && i < |prio|
    ensures Live(Turn(prio, FirstMax(prio)), prio) && Sum(prio) > 0
    ensures After(Turn(prio, FirstMax(prio)), prio, Sum(prio)) == Turn(prio, FirstMax(prio))
    ensures Count(Ran(Turn(prio, FirstMax(prio)), prio, Sum(prio)), i) == prio[i]
    ensures i in Ran(Turn(prio, FirstMax(prio)), prio, Sum(prio))
  {
    RoundIsExact(Turn(prio, FirstMax(prio)), prio, i);
    CountIn(Ran(Turn(prio, FirstMax(prio)), prio, Sum(prio)), i);
  }

  lemma {:induction false} CountIn(r: seq<nat>, i: nat)
    ensures Count(r, i) > 0 <==> i in r
  {
    if r != [] {
      CountIn(r[1..], i);
    }
  }

  lemma {:induction false} AfterAdd(s: Turn, prio: seq<int>, m: nat, n: nat)
    requires Live(s, prio)
    ensures Live(After(s, prio, m), prio)
    ensures After(s, prio, m + n) == After(After(s, prio, m), prio, n)
    ensures Ran(s, prio, m + n) == Ran(s, prio, m) + Ran(After(s, prio, m), prio, n)
    decreases m
  {
    hide Ticked;
    TickedLive(s, prio);
    if m > 0 {
      AfterAdd(Ticked(s, prio), prio, m - 1, n);
    }
  }

  /** Every ordinary process runs within any stretch of ticks as long as a round and its remainder. */
  lemma NobodyStarves(s: Turn, prio: seq<int>, i: nat)
    requires Live(s, prio) && i < |prio|
    ensures Sum(s.quanta) >= 0 && Sum(prio) >= 0
    ensures i in Ran(s, prio, Sum(s.quanta) + Sum(prio))
  {
    hide Sum;
    hide After;
    hide Ran;
    hide FirstMax;
    RoundIsExact(s, prio, i);
    RefillToRefill(prio, i);
    AfterAdd(s, prio, Sum(s.quanta), Sum(prio));
  }

  /** Charging the running process changes its quantum and nothing else about the run list. */
  lemma ChargeQuanta(t: Procs, list: seq<Ptr>, p: Ptr, quantum: int)
    requires AllIn(t, list) && Distinct(list) && p in list
    ensures AllIn(t[p := t[p].(quantum := quantum)], list)
    ensures Quanta(t[p := t[p].(quantum := quantum)], list) == Quanta(t, list)[IndexOf(list, p) := quantum]
    ensures Priorities(t[p := t[p].(quantum := quantum)], list) == Priorities(t, list)
    ensures NoRealTime(t[p := t[p].(quantum := quantum)], list) <==> NoRealTime(t, list)
  {
    var k := IndexOf(list, p);
    assert forall i :: 0 <= i < |list| && i != k ==> list[i] != p;
  }

  /** A selection among ordinary processes takes the first of the longest quanta, or refills. */
  lemma SelectedTurn(t: Procs, list: seq<Ptr>, idle: Ptr, t': Procs, next: Ptr)
    requires AllIn(t, list) && NoRealTime(t, list) && Distinct(list) && list != [] && QuantaOk(t)
    requires forall p :: p in list ==> t[p].state == Running
    requires Selected(t, list, idle, t', next)
    ensures AllIn(t', list) && NoRealTime(t', list) && next in list && Priorities(t', list) == Priorities(t, list)
    ensures var q := Quanta(t, list);
            Turn(Quanta(t', list), IndexOf(list, next)) ==
            if q[FirstMax(q)] > 0 then Turn(q, FirstMax(q))
              else Turn(Priorities(t, list), FirstMax(Priorities(t, list)))
  {
    var q := Quanta(t, list);
    if q[FirstMax(q)] > 0 {
      IndexIs(list, FirstMax(q));
    } else {
      IndexIs(list, FirstMax(Priorities(t, list)));
      RefilledFacts(t, list);
      assert Priorities(t', list) == Priorities(t, list);
    }
  }

  /** What holds of the kernel while only ordinary processes run and one of them has time left. */
  ghost predicate Sharing(k: Kernel, current: Ptr, idle: Ptr)
    reads k, k.run, k.sleepers
  {
    && k.Valid() && QuantaOk(k.procs) && !k.needResched
    && idle in k.procs && k.procs[idle].state != Running && !RealTime(k.procs[idle])
    && AllIn(k.procs, k.run.lists[0]) && NoRealTime(k.procs, k.run.lists[0])
    && current in k.run.lists[0] && k.procs[current].quantum > 0
  }

  ghost function TurnOf(k: Kernel, current: Ptr): Turn
    requires |k.run.lists| == 1 && AllIn(k.procs, k.run.lists[0])
    reads k, k.run
  {
    Turn(Quanta(k.procs, k.run.lists[0]), IndexOf(k.run.lists[0], current))
  }

  lemma SharingLive(k: Kernel, current: Ptr, idle: Ptr)
    requires Sharing(k, current, idle)
    ensures Live(TurnOf(k, current), Priorities(k.procs, k.run.lists[0]))
    ensures Distinct(k.run.lists[0]) && k.run.lists[0] != []
    ensures forall p :: p in k.run.lists[0] <==> p in k.procs && k.procs[p].state == Running
  {
    RunListKnown(k);
    k.run.WalkFrom(0);
    var list := k.run.lists[0];
    forall i | 0 <= i < |list| ensures Priorities(k.procs, list)[i] > 0 && Quanta(k.procs, list)[i] >= 0 {
      assert list[i] in list;
    }
  }

  /** The kernel's tick, followed by do_sched() when it asks for one, is exactly one step of the turn. */
  method TimerTick(k: Kernel, current: Ptr, idle: Ptr) returns (next: Ptr)
    requires Sharing(k, current, idle)
    modifies k`procs, k`needResched
    ensures Sharing(k, next, idle)
    ensures Priorities(k.procs, k.run.lists[0]) == old(Priorities(k.procs, k.run.lists[0]))
    ensures Live(old(TurnOf(k, current)), Priorities(k.procs, k.run.lists[0]))
    ensures TurnOf(k, next) == Ticked(old(TurnOf(k, current)), Priorities(k.procs, k.run.lists[0]))
  {
    hide Table.Valid;
    hide RunMatches;
    hide SleepMatches;
    hide SleepersRegistered;
    hide NoRealTime;
    hide Distinct;
    hide Quanta;
    hide Priorities;
    hide Selected;
    hide IndexOf;
    hide FirstMax;
    SharingLive(k, current, idle);
    ghost var t, list := k.procs, k.run.lists[0];
    ChargeQuanta(t, list, current, t[current].quantum - 1);
    Tick(k, current, idle);
    ghost var t1 := k.procs;
    next := current;
    if k.needResched {
      next := DoSched(k, current, idle);
      SelectedTurn(t1, list, idle, k.procs, next);
      SelectedIdle(t1, list, idle, k.procs, next);
    }
  }

  lemma SelectedIdle(t: Procs, list: seq<Ptr>, idle: Ptr, t': Procs, next: Ptr)
    requires AllIn(t, list) && idle in t && Selected(t, list, idle, t', next)
    ensures idle in t' && t'[idle].state == t[idle].state && t'[idle].policy == t[idle].policy
  {
  }
}
