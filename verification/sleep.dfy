/** Sleeping and waking, as kernel/sleep.c does it: the process table as every caller sees it. */
module Sleep {
  import opened Links
  import opened Chains

  const NR_PROCS := 1024
  const NR_BUCKETS := NR_PROCS * 10 / 100

  datatype State = Running | Sleeping | Zombie | Stopped | Idle
  datatype Mode = Interruptible | Uninterruptible
  datatype Policy = Other | Fifo | RoundRobin

  /** A process without its list links. Channel 0 is the null sleep address. */
  datatype Proc = Proc(state: State, channel: nat, notInterruptible: bool,
                       policy: Policy, rtPriority: int, priority: int, quantum: int)

  type Procs = map<Ptr, Proc>

  function Bucket(channel: nat): (b: nat)
    ensures b < NR_BUCKETS
  {
    channel % NR_BUCKETS
  }

  // ---- what each primitive does to the process table ----

  function SetState(t: Procs, p: Ptr, state: State): Procs
    requires p in t
  {
    t[p := t[p].(state := state)]
  }

  function SetChannel(t: Procs, p: Ptr, channel: nat): Procs
    requires p in t
  {
    t[p := t[p].(channel := channel)]
  }

  /** A process going to sleep; an uninterruptible sleeper is marked so that signals pass it by. */
  function Parked(t: Procs, p: Ptr, mode: Mode): Procs
    requires p in t
  {
    t[p := t[p].(state := Sleeping, notInterruptible := t[p].notInterruptible || mode == Uninterruptible)]
  }

  /** sleep(): check for a signal, register, and stop running. */
  function Slept(t: Procs, p: Ptr, channel: nat, mode: Mode, signal: bool): Procs
    requires p in t
  {
    if (mode == Interruptible && signal) || t[p].state == Sleeping then t
    else Parked(SetChannel(t, p, channel), p, mode)
  }

  /** sleep_arm(): register without sleeping. */
  function Armed(t: Procs, p: Ptr, channel: nat): Procs
    requires p in t
  {
    if t[p].channel != 0 || t[p].state == Sleeping then t else SetChannel(t, p, channel)
  }

  /** sleep_disarm(): drop the registration. */
  function Disarmed(t: Procs, p: Ptr): Procs
    requires p in t
  {
    SetChannel(t, p, 0)
  }

  /** sleep_commit(): sleep on the registration, unless a wake has already taken it. */
  function Committed(t: Procs, p: Ptr, mode: Mode, signal: bool): Procs
    requires p in t
  {
    if t[p].channel == 0 || (mode == Interruptible && signal) then t else Parked(t, p, mode)
  }

  function WokenProc(p: Proc): Proc {
    p.(channel := 0, notInterruptible := false, quantum := p.priority, state := if p.state == Sleeping then Running
      else p.state)
  }

  /** wakeup(): every process registered on the channel loses its registration; the sleeping ones run. */
  function Woken(t: Procs, channel: nat): Procs {
    map p | p in t :: if channel != 0 && t[p].channel == channel then WokenProc(t[p]) else t[p]
  }

  /** wakeup_proc(): a signal or a timeout ends one interruptible sleep, or a stop. */
  function WokenOne(t: Procs, p: Ptr): Procs
    requires p in t
  {
    if t[p].state !in {Sleeping, Stopped} || t[p].notInterruptible then t
    else t[p := t[p].(channel := 0, quantum := t[p].priority, state := Running)]
  }

  // ---- runs: any processes calling the primitives in any order ----

  datatype Call =
    | CallSleep(p: Ptr, channel: nat, mode: Mode, signal: bool)
    | CallArm(p: Ptr, channel: nat)
    | CallDisarm(p: Ptr)
    | CallCommit(p: Ptr, mode: Mode, signal: bool)
    | CallWakeup(channel: nat)
    | CallWakeupProc(p: Ptr)
    | CallRunnable(p: Ptr)
    | CallNotRunnable(p: Ptr, state: State)

  /** A waiting primitive is called by the running process itself; sleep() is never called while armed. */
  predicate Allowed(t: Procs, call: Call) {
    match call
    case CallSleep(p, channel, _, _) => p in t && t[p].state == Running && t[p].channel == 0 && channel != 0
    case CallArm(p, channel) => p in t && t[p].state == Running && channel != 0
    case CallDisarm(p) => p in t && t[p].state == Running
    case CallCommit(p, _, _) => p in t && t[p].state == Running
    case CallWakeup(_) => true
    case CallWakeupProc(p) => p in t
    case CallRunnable(p) => p in t
    case CallNotRunnable(p, state) => p in t && state in {Zombie, Stopped}
  }

  function Apply(t: Procs, call: Call): Procs
    requires Allowed(t, call)
  {
    match call
    case CallSleep(p, channel, mode, signal) => Slept(t, p, channel, mode, signal)
    case CallArm(p, channel) => Armed(t, p, channel)
    case CallDisarm(p) => Disarmed(t, p)
    case CallCommit(p, mode, signal) => Committed(t, p, mode, signal)
    case CallWakeup(channel) => Woken(t, channel)
    case CallWakeupProc(p) => WokenOne(t, p)
    case CallRunnable(p) => SetState(t, p, Running)
    case CallNotRunnable(p, state) => SetState(t, p, state)
  }

  ghost predicate AllAllowed(t: Procs, calls: seq<Call>)
    decreases |calls|
  {
    calls == [] || (Allowed(t, calls[0]) && AllAllowed(Apply(t, calls[0]), calls[1..]))
  }

  ghost function ApplyAll(t: Procs, calls: seq<Call>): Procs
    requires AllAllowed(t, calls)
    decreases |calls|
  {
    if calls == [] then t else ApplyAll(Apply(t, calls[0]), calls[1..])
  }

  // ---- how the lists must agree with the table ----

  /** The run list holds exactly the running processes; the others have null run links. */
  ghost predicate RunMatches(t: Procs, list: seq<Ptr>, next: map<Ptr, Ptr>, prev: map<Ptr, Ptr>) {
    && NULL !in t
    && Distinct(list)
    && (forall p :: p in list <==> p in t && t[p].state == Running)
    && (forall p :: p in t ==> p in next && p in prev)
    && (forall p :: p in t && t[p].state != Running ==> next[p] == prev[p] == NULL)
  }

  /** Each bucket holds exactly the processes registered on a channel that hashes there. */
  ghost predicate SleepMatches(t: Procs, buckets: seq<seq<Ptr>>) {
    && |buckets| == NR_BUCKETS
    && (forall b :: 0 <= b < NR_BUCKETS ==> Distinct(buckets[b]))
    && (forall b, p :: 0 <= b < NR_BUCKETS ==>
          (p in buckets[b] <==> p in t && t[p].channel != 0 && Bucket(t[p].channel) == b))
  }

  /** Nobody sleeps without being registered. */
  ghost predicate SleepersRegistered(t: Procs) {
    forall p :: p in t && t[p].state == Sleeping ==> t[p].channel != 0
  }

  lemma RunFrame(t: Procs, list: seq<Ptr>, next: map<Ptr, Ptr>, prev: map<Ptr, Ptr>, t': Procs)
    requires RunMatches(t, list, next, prev) && t'.Keys == t.Keys
    requires forall p :: p in t ==> t'[p].state == t[p].state
    ensures RunMatches(t', list, next, prev)
  {
  }

  lemma SleepFrame(t: Procs, buckets: seq<seq<Ptr>>, t': Procs)
    requires SleepMatches(t, buckets) && t'.Keys == t.Keys
    requires forall p :: p in t ==> t'[p].channel == t[p].channel
    ensures SleepMatches(t', buckets)
  {
    hide Bucket;
  }

  lemma RunEnter(t: Procs, list: seq<Ptr>, next: map<Ptr, Ptr>, prev: map<Ptr, Ptr>, p: Ptr,
                 next': map<Ptr, Ptr>, prev': map<Ptr, Ptr>)
    requires RunMatches(t, list, next, prev) && p in t && t[p].state != Running
    requires next'.Keys == next.Keys && prev'.Keys == prev.Keys
    requires forall q :: q in next' && q in prev' && q != p && q !in list ==> next'[q] == next[q] && prev'[q] == prev[q]
    ensures RunMatches(SetState(t, p, Running), [p] + list, next', prev')
  {
  }

  lemma RunLeave(t: Procs, list: seq<Ptr>, next: map<Ptr, Ptr>, prev: map<Ptr, Ptr>, p: Ptr, state: State,
                 next': map<Ptr, Ptr>, prev': map<Ptr, Ptr>)
    requires RunMatches(t, list, next, prev) && p in t && state != Running
    requires next'.Keys == next.Keys && prev'.Keys == prev.Keys && next'[p] == prev'[p] == NULL
    requires forall q :: q in next' && q in prev' && q != p && q !in list ==> next'[q] == next[q] && prev'[q] == prev[q]
    ensures RunMatches(SetState(t, p, state), Without(list, p), next', prev')
  {
    hide Without;
    hide RunMatches;
    LinksLeft(t, list, next, prev, p, state, next', prev');
    ListLeft(t, list, next, prev, p, state);
    hide Distinct;
    RunMatchesBy(SetState(t, p, state), Without(list, p), next', prev');
  }

  lemma RunMatchesBy(t: Procs, list: seq<Ptr>, next: map<Ptr, Ptr>, prev: map<Ptr, Ptr>)
    requires NULL !in t && Distinct(list) && (forall p :: p in list <==> p in t && t[p].state == Running)
    requires forall p :: p in t ==> p in next && p in prev && (t[p].state != Running ==> next[p] == prev[p] == NULL)
    ensures RunMatches(t, list, next, prev)
  {
    hide Distinct;
  }

  lemma ListLeft(t: Procs, list: seq<Ptr>, next: map<Ptr, Ptr>, prev: map<Ptr, Ptr>, p: Ptr, state: State)
    requires RunMatches(t, list, next, prev) && p in t && state != Running
    ensures NULL !in t && Distinct(Without(list, p))
    ensures forall q :: q in Without(list, p) <==>
      q in SetState(t, p, state) && SetState(t, p, state)[q].state == Running
  {
    hide Without;
    WithoutMembers(list, p);
    hide Distinct;
  }

  lemma LinksLeft(t: Procs, list: seq<Ptr>, next: map<Ptr, Ptr>, prev: map<Ptr, Ptr>, p: Ptr, state: State,
                  next': map<Ptr, Ptr>, prev': map<Ptr, Ptr>)
    requires RunMatches(t, list, next, prev) && p in t && state != Running
    requires next'.Keys == next.Keys && prev'.Keys == prev.Keys && next'[p] == prev'[p] == NULL
    requires forall q :: q in next' && q in prev' && q != p && q !in list ==> next'[q] == next[q] && prev'[q] == prev[q]
    ensures forall q :: q in t ==> q in next' && q in prev'
    ensures forall q :: q in t && (q == p || t[q].state != Running) ==> next'[q] == prev'[q] == NULL
  {
    hide Distinct;
    forall q | q in t ensures q in next' && q in prev' {
      assert q in next.Keys && q in prev.Keys;
    }
  }

  lemma SleepEnter(t: Procs, buckets: seq<seq<Ptr>>, p: Ptr, channel: nat)
    requires SleepMatches(t, buckets) && p in t && t[p].channel == 0 && channel != 0
    ensures SleepMatches(SetChannel(t, p, channel), Pushed(buckets, Bucket(channel), p))
    ensures forall b :: 0 <= b < NR_BUCKETS ==> p !in buckets[b]
  {
    hide Bucket;
  }

  lemma SleepLeave(t: Procs, buckets: seq<seq<Ptr>>, p: Ptr)
    requires SleepMatches(t, buckets) && p in t && t[p].channel != 0
    ensures p in buckets[Bucket(t[p].channel)]
    ensures SleepMatches(SetChannel(t, p, 0), Dropped(buckets, Bucket(t[p].channel), p))
    ensures forall b :: 0 <= b < NR_BUCKETS ==> p !in Dropped(buckets, Bucket(t[p].channel), p)[b]
  {
    hide Bucket;
    hide Without;
  }

  // ---- wakeup()'s walk over a bucket ----

  /** The table once the processes `done` of a bucket have been visited. */
  ghost function WokenAmong(t: Procs, done: seq<Ptr>, channel: nat): Procs {
    map p | p in t :: if p in done && t[p].channel == channel then WokenProc(t[p]) else t[p]
  }

  lemma WokenNone(t: Procs, channel: nat)
    ensures WokenAmong(t, [], channel) == t
  {
  }

  lemma BucketFacts(t: Procs, table: Table, b: nat)
    requires table.Valid() && SleepMatches(t, table.lists) && b < NR_BUCKETS
    ensures Distinct(table.lists[b]) && NULL !in table.lists[b]
    ensures table.heads[b] == At(table.lists[b], 0, NULL)
    ensures forall p :: p in table.lists[b] ==> p in t && t[p].channel != 0
  {
    assert Chain(table.lists[b], table.heads[b], table.next, table.prev, NULL);
  }

  lemma WokenStep(t: Procs, all: seq<Ptr>, i: nat, channel: nat)
    requires i < |all| && all[i] in t && all[i] !in all[..i]
    ensures WokenAmong(t, all[..i], channel)[all[i]] == t[all[i]]
    ensures WokenAmong(t, all[..i + 1], channel) ==
            if t[all[i]].channel == channel
            then WokenAmong(t, all[..i], channel)[all[i] := WokenProc(t[all[i]])]
            else WokenAmong(t, all[..i], channel)
  {
    assert all[..i + 1] == all[..i] + [all[i]];
  }

  /** Visiting the channel's whole bucket reaches every process registered on the channel. */
  lemma WokenAll(t: Procs, buckets: seq<seq<Ptr>>, channel: nat)
    requires SleepMatches(t, buckets)
    ensures WokenAmong(t, buckets[Bucket(channel)], channel) == Woken(t, channel)
  {
  }

  /** In a list of which `kept` has been passed, the walk stands at the head of `rest`. */
  lemma Walk(list: seq<Ptr>, head: Ptr, next: map<Ptr, Ptr>, prev: map<Ptr, Ptr>, kept: seq<Ptr>, rest: seq<Ptr>)
    requires Chain(list, head, next, prev, NULL) && list == kept + rest && rest != []
    ensures rest[0] in next && next[rest[0]] == At(rest, 1, NULL)
    ensures Without(list, rest[0]) == kept + rest[1..]
    ensures rest[0] in list
  {
    assert list[|kept|] == rest[0];
    assert next[list[|kept|]] == At(list, |kept| + 1, NULL);
    var k := IndexOf(list, rest[0]);
    assert k == |kept|;
  }

  class Kernel {
    var procs: Procs
    const run: Table
    const sleepers: Table
    var needResched: bool

    ghost predicate RunOk()
      reads this, run
    {
      && run.Valid()
      && |run.lists| == |run.heads| == 1
      && RunMatches(procs, run.lists[0], run.next, run.prev)
    }

    ghost predicate SleepOk()
      reads this, sleepers
    {
      && sleepers.Valid()
      && |sleepers.lists| == |sleepers.heads| == NR_BUCKETS
      && SleepMatches(procs, sleepers.lists)
    }

    ghost predicate Valid()
      reads this, run, sleepers
    {
      && run != sleepers
      && NULL !in procs
      && RunOk()
      && SleepOk()
      && SleepersRegistered(procs)
    }

    /** sleep_init(): nobody runs, nobody is registered. */
    constructor (procs: Procs)
      requires NULL !in procs
      requires forall p :: p in procs ==> procs[p].state !in {Running, Sleeping} && procs[p].channel == 0
      ensures Valid() && this.procs == procs && fresh(run) && fresh(sleepers)
    {
      this.procs := procs;
      run := new Table(1, procs.Keys);
      sleepers := new Table(NR_BUCKETS, procs.Keys);
      needResched := false;
    }

    method Runnable(p: Ptr)
      requires RunOk() && p in procs
      modifies this`procs, run
      ensures RunOk()
      ensures procs == SetState(old(procs), p, Running)
      ensures run.lists[0] == if old(procs)[p].state == Running then old(run.lists[0]) else [p] + old(run.lists[0])
    {
      hide Chain;
      if procs[p].state == Running {
        return;
      }
      run.PushClean(0, p);
      RunEnter(procs, old(run.lists)[0], old(run.next), old(run.prev), p, run.next, run.prev);
      procs := SetState(procs, p, Running);
    }

    method NotRunnable(p: Ptr, state: State)
      requires RunOk() && p in procs && state != Running
      modifies this`procs, run
      ensures RunOk()
      ensures procs == SetState(old(procs), p, state)
      ensures run.lists[0] == Without(old(run.lists[0]), p)
    {
      hide Chain;
      hide Without;
      run.RemoveClean(0, p);
      RunLeave(procs, old(run.lists)[0], old(run.next), old(run.prev), p, state, run.next, run.prev);
      procs := SetState(procs, p, state);
    }

    /** Registers `p`, which is on no sleep list, at the head of its channel's bucket. */
    method Register(p: Ptr, channel: nat)
      requires Valid() && p in procs && procs[p].channel == 0 && channel != 0
      modifies this`procs, sleepers
      ensures Valid()
      ensures procs == SetChannel(old(procs), p, channel)
      ensures sleepers.lists == Pushed(old(sleepers.lists), Bucket(channel), p)
    {
      hide Chain;
      hide Bucket;
      SleepEnter(procs, sleepers.lists, p, channel);
      sleepers.Push(Bucket(channel), p);
      RunFrame(procs, run.lists[0], run.next, run.prev, SetChannel(procs, p, channel));
      procs := SetChannel(procs, p, channel);
    }

    /** Stops running a registered process. */
    method Park(p: Ptr, mode: Mode)
      requires Valid() && p in procs && procs[p].channel != 0
      modifies this`procs, run
      ensures Valid()
      ensures procs == Parked(old(procs), p, mode)
    {
      hide Chain;
      hide Bucket;
      hide RunMatches;
      hide SleepMatches;
      hide Table.Valid;
      ghost var t := procs;
      if mode == Uninterruptible {
        procs := procs[p := procs[p].(notInterruptible := true)];
      }
      RunFrame(t, run.lists[0], run.next, run.prev, procs);
      NotRunnable(p, Sleeping);
      SleepFrame(t, sleepers.lists, procs);
    }

    /** sleep(): `slept` tells whether the processor is given up. */
    method Sleep(current: Ptr, channel: nat, mode: Mode, signal: bool) returns (slept: bool)
      requires Valid() && current in procs && channel != 0
      requires procs[current].state != Sleeping ==> procs[current].channel == 0
      modifies this`procs, run, sleepers
      ensures Valid()
      ensures procs == Slept(old(procs), current, channel, mode, signal)
      ensures slept <==> !(mode == Interruptible && signal) && old(procs)[current].state != Sleeping
    {
      if mode == Interruptible && signal {
        return false;
      }
      if procs[current].state == Sleeping {
        return false;
      }
      Register(current, channel);
      Park(current, mode);
      slept := true;
    }

    method Arm(current: Ptr, channel: nat)
      requires Valid() && current in procs && channel != 0
      modifies this`procs, sleepers
      ensures Valid()
      ensures procs == Armed(old(procs), current, channel)
    {
      if procs[current].channel != 0 {
        return;
      }
      if procs[current].state == Sleeping {
        return;
      }
      Register(current, channel);
    }

    method Disarm(current: Ptr)
      requires Valid() && current in procs && procs[current].state != Sleeping
      modifies this`procs, sleepers
      ensures Valid()
      ensures procs == Disarmed(old(procs), current)
    {
      hide Chain;
      hide Bucket;
      hide Without;
      hide RunMatches;
      hide SleepMatches;
      hide Distinct;
      hide Table.Valid;
      if procs[current].channel != 0 {
        var b := Bucket(procs[current].channel);
        Registered(current);
        SleepLeave(procs, sleepers.lists, current);
        var found := sleepers.Find(b, current);
        if found {
          sleepers.Remove(b, current);
        }
        RunFrame(procs, run.lists[0], run.next, run.prev, SetChannel(procs, current, 0));
        procs := SetChannel(procs, current, 0);
        sleepers.Forget(current);
      }
    }

    method Commit(current: Ptr, mode: Mode, signal: bool) returns (slept: bool)
      requires Valid() && current in procs
      modifies this`procs, run
      ensures Valid()
      ensures procs == Committed(old(procs), current, mode, signal)
      ensures slept <==> old(procs)[current].channel != 0 && !(mode == Interruptible && signal)
    {
      if procs[current].channel == 0 {
        return false;
      }
      if mode == Interruptible && signal {
        return false;
      }
      Park(current, mode);
      slept := true;
    }

    /** The fields a wake resets, and the run list if `p` slept. */
    method Revive(p: Ptr)
      requires RunOk() && p in procs
      modifies this`procs, run
      ensures RunOk()
      ensures procs == old(procs)[p := WokenProc(old(procs)[p])]
    {
      hide Chain;
      hide Table.Valid;
      hide RunMatches;
      ghost var t := procs;
      var asleep := procs[p].state == Sleeping;
      procs := procs[p := procs[p].(channel := 0, notInterruptible := false, quantum := procs[p].priority)];
      RunFrame(t, run.lists[0], run.next, run.prev, procs);
      if asleep {
        Runnable(p);
      }
    }

    /** One match of wakeup()'s loop: `p` stops being registered, and runs if it slept. */
    lemma Registered(p: Ptr)
      requires SleepOk() && p in procs && procs[p].channel != 0
      ensures var b := Bucket(procs[p].channel);
        b < |sleepers.lists| && Distinct(sleepers.lists[b]) && p in sleepers.lists[b] && p in sleepers.next
          && p in sleepers.prev
    {
      hide Bucket;
      hide Table.Valid;
      sleepers.WalkIn(Bucket(procs[p].channel), p);
    }

    method WakeOne(p: Ptr)
      requires Valid() && p in procs && procs[p].channel != 0
      modifies this`procs, run, sleepers
      ensures Valid()
      ensures procs == old(procs)[p := WokenProc(old(procs)[p])]
      ensures Distinct(old(sleepers.lists)[Bucket(old(procs)[p].channel)])
      ensures sleepers.lists == Dropped(old(sleepers.lists), Bucket(old(procs)[p].channel), p)
      ensures p in sleepers.next && sleepers.next[p] == old(sleepers.next)[p]
    {
      hide Chain;
      hide Bucket;
      hide Without;
      hide RunMatches;
      hide SleepMatches;
      hide Distinct;
      hide Table.Valid;
      var b := Bucket(procs[p].channel);
      ghost var t := procs;
      Registered(p);
      SleepLeave(t, sleepers.lists, p);
      Revive(p);
      sleepers.Remove(b, p);
      SleepFrame(SetChannel(t, p, 0), sleepers.lists, procs);
    }

    /** One turn of wakeup()'s loop, at node `h` with `kept` behind it. */
    method Visit(channel: nat, b: nat, h: Ptr, ghost kept: seq<Ptr>, ghost rest: seq<Ptr>)
      returns (following: Ptr, woke: bool)
      requires Valid() && b < NR_BUCKETS
      requires sleepers.lists[b] == kept + rest && rest != [] && rest[0] == h
      modifies this`procs, run, sleepers
      ensures Valid()
      ensures h in old(procs) && woke == (old(procs)[h].channel == channel)
      ensures procs == if woke then old(procs)[h := WokenProc(old(procs)[h])] else old(procs)
      ensures sleepers.lists[b] == (if woke then kept else kept + [h]) + rest[1..]
      ensures following == At(rest, 1, NULL)
    {
      hide Chain;
      hide Bucket;
      hide RunMatches;
      hide Without;
      Walk(sleepers.lists[b], sleepers.heads[b], sleepers.next, sleepers.prev, kept, rest);
      woke := procs[h].channel == channel;
      if woke {
        WakeOne(h);
      }
      following := sleepers.next[h];
    }

    /** wakeup(): walks the channel's bucket, unlinking every process registered on the channel. */
    method Wakeup(channel: nat)
      requires Valid()
      modifies this, run, sleepers
      ensures Valid()
      ensures procs == Woken(old(procs), channel)
      ensures needResched <==> old(needResched) || procs != old(procs)
    {
      hide Bucket;
      hide RunMatches;
      hide SleepMatches;
      hide SleepersRegistered;
      hide Chain;
      hide Table.Valid;
      hide Woken;
      hide WokenAmong;
      ghost var t := procs;
      var b := Bucket(channel);
      BucketFacts(t, sleepers, b);
      ghost var all := sleepers.lists[b];
      ghost var i, kept := 0, [];
      var found := false;
      var h := sleepers.heads[b];
      WokenNone(t, channel);
      while h != NULL
        invariant Valid()
        invariant 0 <= i <= |all| && h == At(all, i, NULL)
        invariant sleepers.lists[b] == kept + all[i..]
        invariant procs == WokenAmong(t, all[..i], channel)
        invariant found <==> procs != t
        invariant needResched == old(needResched)
        decreases |all| - i
      {
        WokenStep(t, all, i, channel);
        var woke;
        h, woke := Visit(channel, b, h, kept, all[i..]);
        kept := if woke then kept else kept + [all[i]];
        found := found || woke;
        i := i + 1;
      }
      assert all[..i] == all;
      WokenAll(t, old(sleepers.lists), channel);
      if found {
        needResched := true;
      }
    }

    /** wakeup_proc(): wakes one process from an interruptible sleep or a stop. */
    method WakeupProc(p: Ptr)
      requires Valid() && p in procs
      modifies this, run, sleepers
      ensures Valid()
      ensures procs == WokenOne(old(procs), p)
      ensures needResched <==>
        old(needResched) || (old(procs)[p].state in {Sleeping, Stopped} && !old(procs)[p].notInterruptible)
    {
      hide Chain;
      hide Bucket;
      hide Without;
      hide RunMatches;
      hide SleepMatches;
      hide Table.Valid;
      if procs[p].state != Sleeping && procs[p].state != Stopped {
        return;
      }
      if procs[p].notInterruptible {
        return;
      }
      if procs[p].channel != 0 {
        Unlink(p);
      }
      Resume(p);
      needResched := true;
    }

    /** A process that is on no sleep list gets a new quantum and runs. */
    method Resume(p: Ptr)
      requires run != sleepers && NULL !in procs && RunOk() && SleepOk() && p in procs
      requires forall q :: q in procs && q != p && procs[q].state == Sleeping ==> procs[q].channel != 0
      modifies this`procs, run
      ensures Valid()
      ensures procs == old(procs)[p := old(procs)[p].(quantum := old(procs)[p].priority, state := Running)]
    {
      hide Chain;
      hide Bucket;
      hide RunMatches;
      hide SleepMatches;
      hide Table.Valid;
      ghost var t := procs;
      procs := procs[p := procs[p].(quantum := procs[p].priority)];
      RunFrame(t, run.lists[0], run.next, run.prev, procs);
      Runnable(p);
      SleepFrame(t, sleepers.lists, procs);
    }

    /** Takes `p` off its sleep list; a sleeper is then only on its way to the run list. */
    method Unlink(p: Ptr)
      requires run != sleepers && NULL !in procs && RunOk() && SleepOk() && p in procs && procs[p].channel != 0
      modifies this`procs, sleepers
      ensures RunOk() && SleepOk()
      ensures procs == SetChannel(old(procs), p, 0)
    {
      hide Chain;
      hide Bucket;
      hide Without;
      hide RunMatches;
      hide SleepMatches;
      hide Distinct;
      hide Table.Valid;
      Registered(p);
      SleepLeave(procs, sleepers.lists, p);
      sleepers.Remove(Bucket(procs[p].channel), p);
      RunFrame(procs, run.lists[0], run.next, run.prev, SetChannel(procs, p, 0));
      procs := SetChannel(procs, p, 0);
    }

    method Start(p: Ptr)
      requires Valid() && p in procs
      modifies this`procs, run
      ensures Valid() && procs == SetState(old(procs), p, Running)
    {
      hide Chain;
      hide Table.Valid;
      hide RunMatches;
      hide Bucket;
      Runnable(p);
      SleepFrame(old(procs), sleepers.lists, procs);
    }

    method Stop(p: Ptr, state: State)
      requires Valid() && p in procs && state in {Zombie, Stopped}
      modifies this`procs, run
      ensures Valid() && procs == SetState(old(procs), p, state)
    {
      hide Chain;
      hide Table.Valid;
      hide RunMatches;
      hide Bucket;
      NotRunnable(p, state);
      SleepFrame(old(procs), sleepers.lists, procs);
    }

    method Do(call: Call)
      requires Valid() && Allowed(procs, call)
      modifies this, run, sleepers
      ensures Valid() && procs == Apply(old(procs), call)
    {
      hide RunMatches;
      hide SleepMatches;
      hide Table.Valid;
      hide Woken;
      match call
      case CallSleep(p, channel, mode, signal) => var _ := Sleep(p, channel, mode, signal);
      case CallArm(p, channel) => Arm(p, channel);
      case CallDisarm(p) => Disarm(p);
      case CallCommit(p, mode, signal) => var _ := Commit(p, mode, signal);
      case CallWakeup(channel) => Wakeup(channel);
      case CallWakeupProc(p) => WakeupProc(p);
      case CallRunnable(p) => Start(p);
      case CallNotRunnable(p, state) => Stop(p, state);
    }

    /** Every run of the primitives keeps the lists exact and does what the calls say, in order. */
    method Execute(calls: seq<Call>)
      requires Valid() && AllAllowed(procs, calls)
      modifies this, run, sleepers
      ensures Valid() && procs == ApplyAll(old(procs), calls)
      decreases |calls|
    {
      hide Allowed;
      hide Apply;
      if calls != [] {
        Do(calls[0]);
        Execute(calls[1..]);
      }
    }
  }
}
