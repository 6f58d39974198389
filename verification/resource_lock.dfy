/**
 lock_resource() and unlock_resource(): processes contending for one kernel resource, on one CPU. Each event
 is one section that runs with interrupts off. lock_resource() restores the caller's interrupt state between
 its test and its call of sleep(), so handlers can run there; another process cannot, since the CPU changes
 hands only in sleep() and on the way back to user mode.
 */
module ResourceLock {
  import opened Chains
  import opened Sleep

  /** `masked` enter lock_resource() with interrupts off; `handlers` says that a handler may unlock for the holder. */
  datatype Config = Config(resource: nat, masked: set<Ptr>, handlers: bool)

  /** Where a process stands. `Willing` has found the resource locked and is about to call sleep(). */
  datatype Point = Out | Testing | Willing | Waiting | Holding

  datatype World = World(procs: Procs, at: map<Ptr, Point>, locked: bool, wanted: bool, cpu: Ptr)

  datatype Event =
    | Enter(p: Ptr)
    | Test(p: Ptr)
    | Park(p: Ptr)
    | Retry(p: Ptr)
    | Release(p: Ptr)
    | SleepElsewhere(p: Ptr, channel: nat, mode: Mode, signal: bool)
    | Switch(p: Ptr)
    | HandlerRelease(p: Ptr)
    | StrayWake(channel: nat)
    | Signal(p: Ptr)

  ghost predicate Known(s: World, p: Ptr) {
    p in s.at && p in s.procs
  }

  /** `p` has the CPU and is not about to lose it to another process. */
  ghost predicate OnCpu(s: World, p: Ptr) {
    Known(s, p) && s.cpu == p && s.procs[p].state == Running
  }

  /** The process on the CPU is inside lock_resource(), between two sections. */
  ghost predicate Inside(s: World) {
    s.cpu in s.at && s.at[s.cpu] in {Testing, Willing}
  }

  ghost predicate Interrupts(c: Config, s: World) {
    Inside(s) ==> s.cpu !in c.masked
  }

  ghost predicate Enabled(c: Config, s: World, e: Event) {
    match e
    case Enter(p) => OnCpu(s, p) && s.at[p] == Out
    case Test(p) => OnCpu(s, p) && s.at[p] == Testing
    case Park(p) => OnCpu(s, p) && s.at[p] == Willing
    case Retry(p) => OnCpu(s, p) && s.at[p] == Waiting
    case Release(p) => OnCpu(s, p) && s.at[p] == Holding
    case SleepElsewhere(p, channel, _, _) => OnCpu(s, p) && s.at[p] in {Out, Holding} && channel !in {0, c.resource}
    case Switch(p) => Known(s, p) && s.procs[p].state == Running && !Inside(s)
    case HandlerRelease(p) => c.handlers && Interrupts(c, s) && Known(s, p) && s.at[p] == Holding
    case StrayWake(_) => !Inside(s) || Interrupts(c, s)
    case Signal(p) => p in s.procs && (!Inside(s) || Interrupts(c, s))
  }

  /** unlock_resource(), for holder `p`. */
  ghost function Unlocked(c: Config, s: World, p: Ptr): World {
    s.(locked := false, wanted := false, at := s.at[p := Out],
       procs := if s.wanted then Woken(s.procs, c.resource) else s.procs)
  }

  ghost function Step(c: Config, s: World, e: Event): World
    requires Enabled(c, s, e)
  {
    match e
    case Enter(p) => s.(at := s.at[p := Testing])
    case Test(p) =>
      if s.locked then s.(wanted := true, at := s.at[p := Willing]) else s.(locked := true, at := s.at[p := Holding])
    case Park(p) => s.(procs := Slept(s.procs, p, c.resource, Uninterruptible, false), at := s.at[p := Waiting])
    case Retry(p) => s.(at := s.at[p := Testing])
    case Release(p) => Unlocked(c, s, p)
    case SleepElsewhere(p, channel, mode, signal) => s.(procs := Slept(s.procs, p, channel, mode, signal))
    case Switch(p) => s.(cpu := p)
    case HandlerRelease(p) => Unlocked(c, s, p)
    case StrayWake(channel) => s.(procs := Woken(s.procs, channel))
    case Signal(p) => s.(procs := WokenOne(s.procs, p))
  }

  ghost predicate Initial(c: Config, s: World) {
    && c.resource != 0 && !s.locked && !s.wanted && s.cpu in s.at
    && (forall p :: p in s.at ==>
         p in s.procs && s.at[p] == Out && s.procs[p].state == Running && s.procs[p].channel == 0)
  }

  /** Whoever contends: there is a world to start in. */
  lemma StartExists(c: Config, contenders: set<Ptr>, cpu: Ptr) returns (s: World)
    requires c.resource != 0 && cpu in contenders
    ensures Initial(c, s) && s.at.Keys == contenders && s.cpu == cpu
  {
    var procs := map p | p in contenders :: Proc(Running, 0, false, Other, 0, 1, 1);
    s := World(procs, map p | p in contenders :: Out, false, false, cpu);
  }

  ghost predicate Run(c: Config, s0: World, events: seq<Event>, s: World)
    decreases |events|
  {
    if events == [] then s == s0
    else Enabled(c, s0, events[0]) && Run(c, Step(c, s0, events[0]), events[1..], s)
  }

  ghost predicate Reachable(c: Config, s0: World, s: World) {
    exists events :: Run(c, s0, events, s)
  }

  /** A process asleep in lock_resource() although the next unlock_resource() will not wake it. */
  ghost predicate Forgotten(s: World, p: Ptr) {
    Known(s, p) && s.at[p] == Waiting && s.procs[p].state == Sleeping && !(s.locked && s.wanted)
  }

  /** Nothing can unlock between this process's test and its sleep(). */
  ghost predicate Safe(c: Config, p: Ptr) {
    !c.handlers || p in c.masked
  }

  // ---- the invariant ----

  ghost predicate ProcOk(c: Config, s: World, p: Ptr) {
    && Known(s, p)
    && (s.procs[p].state != Sleeping ==> s.procs[p].channel == 0)
    && (s.at[p] in {Testing, Willing} ==> s.cpu == p && s.procs[p].state == Running)
    && (s.at[p] == Waiting && s.procs[p].state == Sleeping ==>
          s.procs[p].channel == c.resource && s.procs[p].notInterruptible)
    && (s.at[p] == Holding ==> s.locked)
    && (Safe(c, p) && (s.at[p] == Willing || (s.at[p] == Waiting && s.procs[p].state == Sleeping)) ==>
         s.locked && s.wanted)
  }

  ghost predicate Inv(c: Config, s: World) {
    && c.resource != 0
    && (forall p :: p in s.at ==> ProcOk(c, s, p))
    && (s.locked ==> exists p :: p in s.at && s.at[p] == Holding)
    && (forall p, r :: p in s.at && r in s.at && s.at[p] == Holding && s.at[r] == Holding ==> p == r)
  }

  /** The processes after an unlocking: one who was about to sleep could not have been safe. */
  lemma UnlockProc(c: Config, s: World, e: Event, p: Ptr)
    requires Inv(c, s) && Enabled(c, s, e) && p in s.at && (e.Release? || e.HandlerRelease?)
    ensures ProcOk(c, Step(c, s, e), p)
  {
    assert ProcOk(c, s, p) && ProcOk(c, s, e.p);
  }

  /** The processes after a step of the one on the CPU that unlocks nothing. */
  lemma OwnProc(c: Config, s: World, e: Event, p: Ptr)
    requires c.resource != 0 && ProcOk(c, s, p) && Enabled(c, s, e) && p in s.at
    requires e.Enter? || e.Test? || e.Park? || e.Retry? || e.SleepElsewhere? || e.Switch?
    ensures ProcOk(c, Step(c, s, e), p)
  {
  }

  lemma WakeProc(c: Config, s: World, e: Event, p: Ptr)
    requires c.resource != 0 && ProcOk(c, s, p) && Enabled(c, s, e) && p in s.at && (e.StrayWake? || e.Signal?)
    ensures ProcOk(c, Step(c, s, e), p)
  {
  }

  lemma StepProc(c: Config, s: World, e: Event, p: Ptr)
    requires Inv(c, s) && Enabled(c, s, e) && p in s.at
    ensures ProcOk(c, Step(c, s, e), p)
  {
    hide ProcOk;
    hide Enabled;
    hide Step;
    if e.Release? || e.HandlerRelease? {
      UnlockProc(c, s, e, p);
    } else if e.StrayWake? || e.Signal? {
      WakeProc(c, s, e, p);
    } else {
      OwnProc(c, s, e, p);
    }
  }

  lemma StepHolder(c: Config, s: World, e: Event)
    requires Inv(c, s) && Enabled(c, s, e)
    ensures Step(c, s, e).locked ==> exists p :: p in Step(c, s, e).at && Step(c, s, e).at[p] == Holding
    ensures var at := Step(c, s, e).at;
      forall p, r :: p in at && r in at && at[p] == Holding && at[r] == Holding ==> p == r
  {
    var s' := Step(c, s, e);
    if s.locked {
      var h :| h in s.at && s.at[h] == Holding;
      assert !e.Release? && !e.HandlerRelease? ==> s'.at[h] == Holding;
    }
    if e.Test? && !s.locked {
      assert s'.at[e.p] == Holding;
      assert forall p :: p in s.at ==> ProcOk(c, s, p);
    }
  }

  lemma StepInv(c: Config, s: World, e: Event)
    requires Inv(c, s) && Enabled(c, s, e)
    ensures Inv(c, Step(c, s, e))
  {
    hide ProcOk;
    var s' := Step(c, s, e);
    forall p | p in s'.at ensures ProcOk(c, s', p) {
      StepProc(c, s, e, p);
    }
    StepHolder(c, s, e);
  }

  lemma {:induction false} RunInv(c: Config, s0: World, events: seq<Event>, s: World)
    requires Inv(c, s0) && Run(c, s0, events, s)
    ensures Inv(c, s)
    decreases |events|
  {
    hide Inv;
    hide Enabled;
    hide Step;
    if events != [] {
      StepInv(c, s0, events[0]);
      RunInv(c, Step(c, s0, events[0]), events[1..], s);
    }
  }

  /** The resource is held by at most one process, and is locked exactly while it is held. */
  lemma MutualExclusion(c: Config, s0: World, events: seq<Event>, s: World)
    requires Initial(c, s0) && Run(c, s0, events, s)
    ensures s.locked <==> exists p :: p in s.at && s.at[p] == Holding
    ensures forall p, r :: p in s.at && r in s.at && s.at[p] == Holding && s.at[r] == Holding ==> p == r
  {
    RunInv(c, s0, events, s);
    forall p | p in s.at ensures ProcOk(c, s, p) {
    }
  }

  /** Between the test of a process and its sleep() no other process runs. */
  lemma NobodyInBetween(c: Config, s0: World, events: seq<Event>, s: World, p: Ptr, e: Event)
    requires Initial(c, s0) && Run(c, s0, events, s) && p in s.at && s.at[p] == Willing && Enabled(c, s, e)
    ensures e == Park(p) || e.HandlerRelease? || e.StrayWake? || e.Signal?
  {
    RunInv(c, s0, events, s);
    assert ProcOk(c, s, p);
  }

  /** Nobody is forgotten while only processes unlock, whether or not they lock with interrupts on. */
  lemma NobodyForgotten(c: Config, s0: World, events: seq<Event>, s: World, p: Ptr)
    requires Safe(c, p) && Initial(c, s0) && Run(c, s0, events, s)
    ensures !Forgotten(s, p)
  {
    RunInv(c, s0, events, s);
    if p in s.at {
      assert ProcOk(c, s, p);
    }
  }

  /** A sleeper has a holder to wait for, and runs again as soon as that one unlocks. */
  lemma UnlockWakes(c: Config, s0: World, events: seq<Event>, s: World, p: Ptr)
    requires Safe(c, p) && Initial(c, s0) && Run(c, s0, events, s)
    requires Known(s, p) && s.at[p] == Waiting && s.procs[p].state == Sleeping
    ensures exists h :: h in s.at && s.at[h] == Holding
    ensures forall h :: h in s.at && s.at[h] == Holding ==> Unlocked(c, s, h).procs[p].state == Running
  {
    RunInv(c, s0, events, s);
    assert ProcOk(c, s, p);
  }

  // ---- unlocking in a handler ----

  lemma {:induction false} RunLast(c: Config, s0: World, events: seq<Event>, s: World, e: Event)
    requires Run(c, s0, events, s) && Enabled(c, s, e)
    ensures Run(c, s0, events + [e], Step(c, s, e))
    decreases |events|
  {
    hide Enabled;
    hide Step;
    if events == [] {
      assert [e][1..] == [];
      assert Run(c, Step(c, s, e), [], Step(c, s, e));
    } else {
      RunLast(c, Step(c, s0, events[0]), events[1..], s, e);
      assert (events + [e])[1..] == events[1..] + [e];
    }
  }

  /** `h` gets the resource, and `p` finds it locked. */
  lemma Contend(c: Config, s0: World, h: Ptr, p: Ptr) returns (events: seq<Event>, s: World)
    requires Initial(c, s0) && h in s0.at && p in s0.at && h != p
    ensures Run(c, s0, events, s) && OnCpu(s, p) && Known(s, h)
    ensures s.at[h] == Holding && s.at[p] == Willing && s.procs == s0.procs
  {
    var s1 := Step(c, s0, Switch(h));
    var s2 := Step(c, s1, Enter(h));
    var s3 := Step(c, s2, Test(h));
    var s4 := Step(c, s3, Switch(p));
    var s5 := Step(c, s4, Enter(p));
    s := Step(c, s5, Test(p));
    hide Enabled;
    hide Step;
    assert Run(c, s0, [], s0);
    RunLast(c, s0, [], s0, Switch(h));
    RunLast(c, s0, [] + [Switch(h)], s1, Enter(h));
    RunLast(c, s0, [] + [Switch(h)] + [Enter(h)], s2, Test(h));
    RunLast(c, s0, [] + [Switch(h)] + [Enter(h)] + [Test(h)], s3, Switch(p));
    RunLast(c, s0, [] + [Switch(h)] + [Enter(h)] + [Test(h)] + [Switch(p)], s4, Enter(p));
    RunLast(c, s0, [] + [Switch(h)] + [Enter(h)] + [Test(h)] + [Switch(p)] + [Enter(p)], s5, Test(p));
    events := [] + [Switch(h)] + [Enter(h)] + [Test(h)] + [Switch(p)] + [Enter(p)] + [Test(p)];
  }

  /** A handler that unlocks between the test of `p` and its sleep() leaves it asleep for a free resource. */
  lemma HandlerCanForget(c: Config, s0: World, h: Ptr, p: Ptr) returns (events: seq<Event>, s: World)
    requires !Safe(c, p) && Initial(c, s0) && h in s0.at && p in s0.at && h != p
    ensures Run(c, s0, events, s) && Forgotten(s, p) && !s.locked
  {
    events, s := Contend(c, s0, h, p);
    RunLast(c, s0, events, s, HandlerRelease(h));
    events, s := events + [HandlerRelease(h)], Step(c, s, HandlerRelease(h));
    RunLast(c, s0, events, s, Park(p));
    events, s := events + [Park(p)], Step(c, s, Park(p));
  }

  lemma SafeReachable(c: Config, s0: World, s: World, p: Ptr)
    requires Safe(c, p) && Initial(c, s0) && Reachable(c, s0, s)
    ensures !Forgotten(s, p)
  {
    var events :| Run(c, s0, events, s);
    NobodyForgotten(c, s0, events, s, p);
  }

  lemma ForgottenReachable(c: Config, s0: World, h: Ptr, p: Ptr) returns (s: World)
    requires !Safe(c, p) && Initial(c, s0) && h in s0.at && p in s0.at && h != p
    ensures Reachable(c, s0, s) && Forgotten(s, p)
  {
    var events;
    events, s := HandlerCanForget(c, s0, h, p);
    assert Run(c, s0, events, s);
  }

  /** A process can be forgotten exactly when a handler may unlock while this process locks with interrupts on. */
  lemma ForgettingIffHandlerUnlocks(c: Config, s0: World, h: Ptr, p: Ptr)
    requires Initial(c, s0) && h in s0.at && p in s0.at && h != p
    ensures (c.handlers && p !in c.masked) <==> exists s :: Reachable(c, s0, s) && Forgotten(s, p)
  {
    hide Forgotten;
    hide Reachable;
    hide Initial;
    if Safe(c, p) {
      forall s | Reachable(c, s0, s) ensures !Forgotten(s, p) {
        SafeReachable(c, s0, s, p);
      }
    } else {
      var s := ForgottenReachable(c, s0, h, p);
      assert Reachable(c, s0, s) && Forgotten(s, p);
    }
  }
}
