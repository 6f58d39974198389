/** The process selection of kernel/sched.c and the quantum accounting of kernel/timer.c. */
module Sched {
  import opened Links
  import opened Chains
  import opened Sleep

  predicate RealTime(p: Proc) {
    p.policy != Other
  }

  /** What makes do_sched() prefer real-time process `a` to `b`. */
  predicate Outranks(a: Proc, b: Proc) {
    a.rtPriority > b.rtPriority || (a.rtPriority == b.rtPriority && a.quantum > b.quantum)
  }

  ghost predicate AllIn(t: Procs, list: seq<Ptr>) {
    forall p :: p in list ==> p in t
  }

  /** `r` is the first of the highest-ranking real-time processes of `list`. */
  ghost predicate BestRealTime(t: Procs, list: seq<Ptr>, r: Ptr)
    requires AllIn(t, list)
  {
    && r in list && RealTime(t[r])
    && (forall p :: p in list && RealTime(t[p]) ==> !Outranks(t[p], t[r]))
    && (forall p :: p in list[..IndexOf(list, r)] && RealTime(t[p]) ==> Outranks(t[r], t[p]))
  }

  ghost predicate NoRealTime(t: Procs, list: seq<Ptr>)
    requires AllIn(t, list)
  {
    forall p :: p in list ==> !RealTime(t[p])
  }

  /** The quanta of the run list, in list order. */
  ghost function Quanta(t: Procs, list: seq<Ptr>): (q: seq<int>)
    requires AllIn(t, list)
    ensures |q| == |list| && forall i :: 0 <= i < |q| ==> q[i] == t[list[i]].quantum
  {
    seq(|list|, i requires 0 <= i < |list| => t[list[i]].quantum)
  }

  ghost function Priorities(t: Procs, list: seq<Ptr>): (q: seq<int>)
    requires AllIn(t, list)
    ensures |q| == |list| && forall i :: 0 <= i < |q| ==> q[i] == t[list[i]].priority
  {
    seq(|list|, i requires 0 <= i < |list| => t[list[i]].priority)
  }

  /** The position of the first maximum. */
  ghost function FirstMax(q: seq<int>): (k: nat)
    requires q != []
    ensures k < |q|
    ensures forall i :: 0 <= i < |q| ==> q[i] <= q[k]
    ensures forall i :: 0 <= i < k ==> q[i] < q[k]
  {
    if |q| == 1 then 0
    else
      var k := FirstMax(q[..|q| - 1]);
      if q[|q| - 1] > q[k] then |q| - 1 else k
  }

  lemma FirstMaxUnique(q: seq<int>, k: nat)
    requires k < |q|
    requires forall i :: 0 <= i < |q| ==> q[i] <= q[k]
    requires forall i :: 0 <= i < k ==> q[i] < q[k]
    ensures FirstMax(q) == k
  {
    var m := FirstMax(q);
    assert q[m] == q[k];
  }

  /** Every process of the list has its quantum reset to its priority. */
  ghost function Refilled(t: Procs, list: seq<Ptr>): Procs {
    map p | p in t :: if p in list then t[p].(quantum := t[p].priority) else t[p]
  }

  /** The choice `sel` over a list: its best real-time process, or `idle`. */
  ghost predicate RealTimeChoice(t: Procs, list: seq<Ptr>, idle: Ptr, sel: Ptr)
    requires AllIn(t, list)
  {
    if NoRealTime(t, list) then sel == idle else BestRealTime(t, list, sel)
  }

  lemma PrefixIndex(list: seq<Ptr>, i: nat, x: Ptr)
    requires Distinct(list) && i < |list|
    ensures IndexOf(list[..i + 1], list[i]) == i && list[..i + 1][..i] == list[..i]
    ensures x in list[..i] ==>
      && IndexOf(list[..i + 1], x) == IndexOf(list[..i], x)
      && list[..i + 1][..IndexOf(list[..i], x)] == list[..i][..IndexOf(list[..i], x)]
  {
    hide IndexOf;
    var before, after := list[..i], list[..i + 1];
    IndexIs(after, i);
    if x in before {
      var k := IndexOf(before, x);
      IndexIs(after, k);
    }
  }

  /** One who outranks the best so far is the best now. */
  lemma NewBest(t: Procs, list: seq<Ptr>, i: nat, sel: Ptr)
    requires AllIn(t, list) && Distinct(list) && i < |list| && sel in t && RealTime(t[list[i]])
    requires NoRealTime(t, list[..i]) || (BestRealTime(t, list[..i], sel) && Outranks(t[list[i]], t[sel]))
    ensures BestRealTime(t, list[..i + 1], list[i])
  {
    hide IndexOf;
    var before, after := list[..i], list[..i + 1];
    assert after == before + [list[i]];
    PrefixIndex(list, i, sel);
    forall p | p in before && RealTime(t[p]) ensures Outranks(t[list[i]], t[p]) {
      assert !Outranks(t[p], t[sel]);
    }
  }

  /** One who does not leaves it the best. */
  lemma SameBest(t: Procs, list: seq<Ptr>, i: nat, sel: Ptr)
    requires AllIn(t, list) && Distinct(list) && i < |list| && BestRealTime(t, list[..i], sel)
    requires RealTime(t[list[i]]) ==> !Outranks(t[list[i]], t[sel])
    ensures BestRealTime(t, list[..i + 1], sel)
  {
    hide IndexOf;
    hide Outranks;
    var before, after := list[..i], list[..i + 1];
    assert after == before + [list[i]];
    PrefixIndex(list, i, sel);
  }

  lemma BestIsRealTime(t: Procs, list: seq<Ptr>, sel: Ptr)
    requires AllIn(t, list) && BestRealTime(t, list, sel)
    ensures sel in list && RealTime(t[sel])
  {
  }

  lemma RealTimeStep(t: Procs, list: seq<Ptr>, i: nat, idle: Ptr, sel: Ptr, sel': Ptr)
    requires AllIn(t, list) && Distinct(list) && i < |list| && idle in t && !RealTime(t[idle])
    requires RealTimeChoice(t, list[..i], idle, sel)
    requires sel in t
    requires sel'
      == if RealTime(t[list[i]]) && (!RealTime(t[sel]) || Outranks(t[list[i]], t[sel])) then list[i] else sel
    ensures RealTimeChoice(t, list[..i + 1], idle, sel')
  {
    hide BestRealTime;
    hide Outranks;
    var before, after := list[..i], list[..i + 1];
    assert after == before + [list[i]];
    if !NoRealTime(t, before) {
      BestIsRealTime(t, before, sel);
    }
    if RealTime(t[list[i]]) {
      if sel' == list[i] {
        NewBest(t, list, i, sel);
      } else {
        SameBest(t, list, i, sel);
      }
    } else if !NoRealTime(t, before) {
      SameBest(t, list, i, sel);
    }
  }

  lemma RunListKnown(k: Kernel)
    requires k.Valid()
    ensures AllIn(k.procs, k.run.lists[0])
    ensures forall p :: p in k.run.lists[0] <==> p in k.procs && k.procs[p].state == Running
  {
  }

  method SelectRealTime(k: Kernel, idle: Ptr) returns (selected: Ptr)
    requires k.Valid() && idle in k.procs && !RealTime(k.procs[idle])
    ensures AllIn(k.procs, k.run.lists[0])
    ensures RealTimeChoice(k.procs, k.run.lists[0], idle, selected) && selected in k.procs
  {
    hide Table.Valid;
    hide RunMatches;
    hide SleepMatches;
    hide RealTimeChoice;
    ghost var list := k.run.lists[0];
    k.run.WalkFrom(0);
    RunListKnown(k);
    selected := idle;
    var p := k.run.heads[0];
    ghost var i := 0;
    RealTimeNone(k.procs, idle);
    while p != NULL
      invariant 0 <= i <= |list| && p == At(list, i, NULL)
      invariant selected in k.procs && RealTimeChoice(k.procs, list[..i], idle, selected)
      decreases |list| - i
    {
      k.run.WalkOn(0, i);
      ghost var before := selected;
      if k.procs[p].policy != Other {
        if k.procs[selected].policy == Other || Outranks(k.procs[p], k.procs[selected]) {
          selected := p;
        }
      }
      RealTimeStep(k.procs, list, i, idle, before, selected);
      p := k.run.next[p];
      i := i + 1;
    }
    assert list[..i] == list;
  }

  lemma RealTimeNone(t: Procs, idle: Ptr)
    ensures RealTimeChoice(t, [], idle, idle)
  {
  }

  /** The highest quantum and the first process that has it; -1 and `idle` on an empty list. */
  ghost predicate QuantumChoice(t: Procs, list: seq<Ptr>, idle: Ptr, count: int, sel: Ptr)
    requires AllIn(t, list)
  {
    if list == [] then count == -1 && sel == idle
    else
      var q := Quanta(t, list);
      sel == list[FirstMax(q)] && count == q[FirstMax(q)]
  }

  lemma QuantumStep(t: Procs, list: seq<Ptr>, i: nat, idle: Ptr, count: int, sel: Ptr)
    requires AllIn(t, list) && i < |list| && (forall p :: p in list ==> t[p].quantum >= 0)
    requires QuantumChoice(t, list[..i], idle, count, sel)
    ensures
      if t[list[i]].quantum > count then QuantumChoice(t, list[..i + 1], idle, t[list[i]].quantum, list[i])
      else QuantumChoice(t, list[..i + 1], idle, count, sel)
  {
    var before, after := list[..i], list[..i + 1];
    var q := Quanta(t, after);
    if t[list[i]].quantum > count {
      if i > 0 {
        var m := FirstMax(Quanta(t, before));
        assert forall j :: 0 <= j < i ==> q[j] == Quanta(t, before)[j];
      }
      FirstMaxUnique(q, i);
    } else {
      var m := FirstMax(Quanta(t, before));
      assert forall j :: 0 <= j < i ==> q[j] == Quanta(t, before)[j];
      FirstMaxUnique(q, m);
    }
  }

  method SelectOther(k: Kernel, idle: Ptr) returns (count: int, selected: Ptr)
    requires k.Valid()
    requires forall p :: p in k.procs && k.procs[p].state == Running ==> k.procs[p].quantum >= 0
    ensures AllIn(k.procs, k.run.lists[0])
    ensures QuantumChoice(k.procs, k.run.lists[0], idle, count, selected)
  {
    hide Table.Valid;
    hide RunMatches;
    hide SleepMatches;
    hide QuantumChoice;
    ghost var list := k.run.lists[0];
    k.run.WalkFrom(0);
    RunListKnown(k);
    count, selected := -1, idle;
    var p := k.run.heads[0];
    ghost var i := 0;
    QuantumNone(k.procs, idle);
    while p != NULL
      invariant 0 <= i <= |list| && p == At(list, i, NULL)
      invariant QuantumChoice(k.procs, list[..i], idle, count, selected)
      decreases |list| - i
    {
      k.run.WalkOn(0, i);
      QuantumStep(k.procs, list, i, idle, count, selected);
      if k.procs[p].quantum > count {
        count := k.procs[p].quantum;
        selected := p;
      }
      p := k.run.next[p];
      i := i + 1;
    }
    assert list[..i] == list;
  }

  lemma QuantumNone(t: Procs, idle: Ptr)
    ensures QuantumChoice(t, [], idle, -1, idle)
  {
  }

  lemma RefillStep(t: Procs, list: seq<Ptr>, i: nat)
    requires AllIn(t, list) && Distinct(list) && i < |list|
    ensures list[i] in Refilled(t, list[..i]) && Refilled(t, list[..i])[list[i]] == t[list[i]]
    ensures Refilled(t, list[..i + 1]) == Refilled(t, list[..i])[list[i] := t[list[i]].(quantum := t[list[i]].priority)]
  {
    assert list[..i + 1] == list[..i] + [list[i]];
  }

  lemma RefillNone(t: Procs)
    ensures Refilled(t, []) == t
  {
  }

  lemma RefilledKeepsValid(k: Kernel, t: Procs, list: seq<Ptr>)
    requires k.run != k.sleepers && k.run.Valid() && |k.run.lists| == |k.run.heads| == 1
    requires k.sleepers.Valid() && |k.sleepers.lists| == |k.sleepers.heads| == NR_BUCKETS
    requires NULL !in t && RunMatches(t, k.run.lists[0], k.run.next, k.run.prev)
    requires SleepMatches(t, k.sleepers.lists) && SleepersRegistered(t)
    requires k.procs == Refilled(t, list)
    ensures k.Valid()
  {
    hide Table.Valid;
    hide RunMatches;
    hide SleepMatches;
    RunFrame(t, k.run.lists[0], k.run.next, k.run.prev, k.procs);
    SleepFrame(t, k.sleepers.lists, k.procs);
  }

  /** Reassigns a new quantum to every running process. */
  method Refill(k: Kernel)
    requires k.Valid()
    modifies k`procs
    ensures k.Valid() && k.procs == Refilled(old(k.procs), k.run.lists[0])
  {
    hide Table.Valid;
    hide RunMatches;
    hide SleepMatches;
    hide SleepersRegistered;
    hide Refilled;
    ghost var t, list := k.procs, k.run.lists[0];
    k.run.WalkFrom(0);
    RunListKnown(k);
    RefillNone(t);
    var p := k.run.heads[0];
    ghost var i := 0;
    while p != NULL
      invariant 0 <= i <= |list| && p == At(list, i, NULL)
      invariant k.procs == Refilled(t, list[..i])
      decreases |list| - i
    {
      k.run.WalkOn(0, i);
      RefillStep(t, list, i);
      k.procs := k.procs[p := k.procs[p].(quantum := k.procs[p].priority)];
      p := k.run.next[p];
      i := i + 1;
    }
    assert list[..i] == list;
    RefilledKeepsValid(k, t, list);
  }

  /** Running processes have positive priorities and quanta that never go below zero. */
  ghost predicate QuantaOk(t: Procs) {
    forall p :: p in t && t[p].state == Running ==> t[p].priority > 0 && t[p].quantum >= 0
  }

  /** What do_sched() leaves of the table when it does select, and whom it selects. */
  ghost predicate Selected(t: Procs, list: seq<Ptr>, idle: Ptr, t': Procs, next: Ptr)
    requires AllIn(t, list)
  {
    if !NoRealTime(t, list) then
      && BestRealTime(t, list, next)
      && t' == if t[next].policy == RoundRobin
           && t[next].quantum <= 0 then t[next := t[next].(quantum := t[next].priority)] else t
    else if list == [] then
      t' == t && next == idle
    else if Quanta(t, list)[FirstMax(Quanta(t, list))] > 0 then
      t' == t && next == list[FirstMax(Quanta(t, list))]
    else
      t' == Refilled(t, list) && next == list[FirstMax(Priorities(t, list))]
  }

  /** After a refill the same processes compete, each with its priority, and one of them has time left. */
  lemma RefilledFacts(t: Procs, list: seq<Ptr>)
    requires AllIn(t, list) && QuantaOk(t) && (forall p :: p in list ==> t[p].state == Running)
    ensures AllIn(Refilled(t, list), list) && QuantaOk(Refilled(t, list))
    ensures Quanta(Refilled(t, list), list) == Priorities(t, list)
    ensures NoRealTime(Refilled(t, list), list) <==> NoRealTime(t, list)
    ensures list != [] ==> Priorities(t, list)[FirstMax(Priorities(t, list))] > 0
    ensures forall p :: p in t ==> p in Refilled(t, list) && Refilled(t, list)[p].policy == t[p].policy
  {
    if list != [] {
      assert list[FirstMax(Priorities(t, list))] in list;
    }
  }

  lemma ChoiceFacts(t: Procs, list: seq<Ptr>, idle: Ptr, sel: Ptr)
    requires AllIn(t, list) && sel in t && idle in t && !RealTime(t[idle]) && RealTimeChoice(t, list, idle, sel)
    ensures RealTime(t[sel]) <==> !NoRealTime(t, list)
    ensures RealTime(t[sel]) ==> BestRealTime(t, list, sel)
  {
  }

  lemma RecordKeepsValid(k: Kernel, t: Procs, p: Ptr, quantum: int)
    requires k.run != k.sleepers && k.run.Valid() && |k.run.lists| == |k.run.heads| == 1
    requires k.sleepers.Valid() && |k.sleepers.lists| == |k.sleepers.heads| == NR_BUCKETS
    requires NULL !in t && RunMatches(t, k.run.lists[0], k.run.next, k.run.prev)
    requires SleepMatches(t, k.sleepers.lists) && SleepersRegistered(t)
    requires p in t && k.procs == t[p := t[p].(quantum := quantum)]
    ensures k.Valid()
  {
    hide Table.Valid;
    hide RunMatches;
    hide SleepMatches;
    RunFrame(t, k.run.lists[0], k.run.next, k.run.prev, k.procs);
    SleepFrame(t, k.sleepers.lists, k.procs);
  }

  /** A round-robin process chosen with its quantum used up gets a new one. */
  method Grant(k: Kernel, p: Ptr)
    requires k.Valid() && QuantaOk(k.procs) && p in k.procs && k.procs[p].state == Running
    modifies k`procs
    ensures k.Valid() && QuantaOk(k.procs)
    ensures k.procs == if old(k.procs)[p].policy == RoundRobin && old(k.procs)[p].quantum <= 0
                       then old(k.procs)[p := old(k.procs)[p].(quantum := old(k.procs)[p].priority)] else old(k.procs)
  {
    hide Table.Valid;
    hide RunMatches;
    hide SleepMatches;
    ghost var t := k.procs;
    if k.procs[p].policy == RoundRobin && k.procs[p].quantum <= 0 {
      k.procs := k.procs[p := k.procs[p].(quantum := k.procs[p].priority)];
      RecordKeepsValid(k, t, p, t[p].priority);
    }
  }

  /** The selection loop of do_sched(). */
  method Choose(k: Kernel, idle: Ptr) returns (next: Ptr)
    requires k.Valid() && QuantaOk(k.procs) && idle in k.procs && !RealTime(k.procs[idle])
    modifies k`procs
    ensures k.Valid() && QuantaOk(k.procs)
    ensures AllIn(old(k.procs), k.run.lists[0])
    ensures Selected(old(k.procs), k.run.lists[0], idle, k.procs, next)
  {
    hide Table.Valid;
    hide RunMatches;
    hide SleepMatches;
    hide SleepersRegistered;
    hide RealTimeChoice;
    hide BestRealTime;
    hide NoRealTime;
    hide Refilled;
    RunListKnown(k);
    ghost var t, list := k.procs, k.run.lists[0];
    RefilledFacts(t, list);
    var count := 0;
    next := idle;
    ghost var refilled := false;
    while true
      invariant k.Valid() && QuantaOk(k.procs) && idle in k.procs && !RealTime(k.procs[idle])
      invariant !refilled ==> k.procs == t
      invariant refilled ==>
        && k.procs == Refilled(t, list) && NoRealTime(t, list) && list != []
        && Quanta(t, list)[FirstMax(Quanta(t, list))] == 0
      decreases !refilled
    {
      next := SelectRealTime(k, idle);
      ChoiceFacts(k.procs, list, idle, next);
      if k.procs[next].policy != Other {
        BestRuns(k, next);
        Grant(k, next);
        return;
      }
      count, next := SelectOther(k, idle);
      if count != 0 {
        break;
      }
      Refill(k);
      refilled := true;
    }
  }

  lemma BestRuns(k: Kernel, p: Ptr)
    requires k.Valid() && AllIn(k.procs, k.run.lists[0]) && BestRealTime(k.procs, k.run.lists[0], p)
    ensures k.procs[p].state == Running
  {
  }

  /** do_sched(): the process that runs next. */
  method DoSched(k: Kernel, current: Ptr, idle: Ptr) returns (next: Ptr)
    requires k.Valid() && QuantaOk(k.procs)
    requires current in k.procs && idle in k.procs && !RealTime(k.procs[idle])
    modifies k`procs, k`needResched
    ensures k.Valid() && QuantaOk(k.procs)
    ensures old(k.procs)[current].state == Running && old(k.procs)[current].quantum > 0 ==>
              next == current && k.procs == old(k.procs) && k.needResched == old(k.needResched)
    ensures AllIn(old(k.procs), k.run.lists[0])
    ensures !(old(k.procs)[current].state == Running && old(k.procs)[current].quantum > 0) ==>
              Selected(old(k.procs), k.run.lists[0], idle, k.procs, next) && !k.needResched
  {
    hide Selected;
    RunListKnown(k);
    if k.procs[current].state == Running && k.procs[current].quantum > 0 {
      return current;
    }
    k.needResched := false;
    next := Choose(k, idle);
  }

  /** The quantum accounting of one timer tick. */
  method Tick(k: Kernel, current: Ptr, idle: Ptr)
    requires k.Valid() && QuantaOk(k.procs) && current in k.procs
    modifies k`procs, k`needResched
    ensures k.Valid() && QuantaOk(k.procs)
    ensures current == idle ==> k.procs == old(k.procs) && k.needResched == old(k.needResched)
    ensures current != idle ==>
              var left := old(k.procs)[current].quantum - 1;
              && k.procs == old(k.procs)[current := old(k.procs)[current].(quantum := if left <= 0 then 0 else left)]
              && k.needResched == (old(k.needResched) || left <= 0)
  {
    hide Table.Valid;
    hide RunMatches;
    hide SleepMatches;
    if current != idle {
      ghost var t := k.procs;
      k.procs := k.procs[current := k.procs[current].(quantum := k.procs[current].quantum - 1)];
      if k.procs[current].quantum <= 0 {
        k.procs := k.procs[current := k.procs[current].(quantum := 0)];
        k.needResched := true;
      }
      RecordKeepsValid(k, t, current, k.procs[current].quantum);
    }
  }
}
