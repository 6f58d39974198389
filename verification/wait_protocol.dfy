/**
 Waiting for a condition: the arm / look / disarm-or-commit loop of the multiplexing waiters, interleaved
 with producers that change state first and wake second. Every event below is one section that runs
 with interrupts off, or one step of a look; events of different processes interleave freely.
 */
module WaitProtocol {
  import opened Chains
  import opened Sleep

  type Object = nat
  type Producer = nat

  /**
   Who waits where, on what. `arms` tells whether waiters register before they look (sleep_arm and
   sleep_commit) or only when they sleep (the older check, then sleep()).
   */
  datatype Config =
    Config(channel: map<Ptr, nat>, watch: map<Ptr, seq<Object>>, notify: map<Object, set<nat>>, arms: bool)
  {
    /** Every waiter's channel is real, and is among those woken for each object it watches. */
    ghost predicate Valid() {
      && channel.Keys == watch.Keys
      && (forall w :: w in channel ==> channel[w] != 0)
      && (forall w, i :: w in watch && 0 <= i < |watch[w]| ==>
            watch[w][i] in notify && channel[w] in notify[watch[w][i]])
    }
  }

  /** Where a waiter stands in its loop, which it may come to again. A look has passed the first `next` objects. */
  datatype Point = Start | Looking(next: nat, found: bool) | Parked | Done

  /** `due[q]` are the channels producer `q` has still to wake for a change it has already made. */
  datatype World = World(procs: Procs, at: map<Ptr, Point>, ready: set<Object>, due: map<Producer, seq<nat>>)

  datatype Event =
    | Arm(w: Ptr)
    | Look(w: Ptr)
    | Disarm(w: Ptr)
    | Commit(w: Ptr, mode: Mode, signal: bool)
    | Resume(w: Ptr)
    | Again(w: Ptr)
    | Change(q: Producer, objects: set<Object>, channels: seq<nat>)
    | Wake(q: Producer)
    | Consume(objects: set<Object>)
    | StrayWake(channel: nat)
    | Signal(p: Ptr)

  ghost predicate IsWaiter(c: Config, s: World, w: Ptr) {
    w in c.channel && w in c.watch && w in s.at && w in s.procs
  }

  ghost predicate Enabled(c: Config, s: World, e: Event) {
    match e
    case Arm(w) => IsWaiter(c, s, w) && s.at[w] == Start && s.procs[w].state == Running
    case Look(w) => IsWaiter(c, s, w) && s.at[w].Looking? && s.at[w].next < |c.watch[w]|
    case Disarm(w) => IsWaiter(c, s, w) && s.at[w].Looking? && s.at[w].next >= |c.watch[w]| && s.at[w].found
    case Commit(w, _, _) => IsWaiter(c, s, w) && s.at[w].Looking? && s.at[w].next >= |c.watch[w]| && !s.at[w].found
    case Resume(w) => IsWaiter(c, s, w) && s.at[w] == Parked && s.procs[w].state == Running
    case Again(w) => IsWaiter(c, s, w) && s.at[w] == Done
    case Change(q, objects, channels) =>
      && q in s.due && s.due[q] == []
      && (forall o, k :: o in objects && o in c.notify && k in c.notify[o] ==> k in channels)
    case Wake(q) => q in s.due && s.due[q] != []
    case Consume(_) => true
    case StrayWake(_) => true
    case Signal(p) => p in s.procs
  }

  ghost function Step(c: Config, s: World, e: Event): World
    requires Enabled(c, s, e)
  {
    match e
    case Arm(w) =>
      s.(procs := if c.arms then Armed(s.procs, w, c.channel[w]) else s.procs, at := s.at[w := Looking(0, false)])
    case Look(w) =>
      var found := s.at[w].found || c.watch[w][s.at[w].next] in s.ready;
      s.(at := s.at[w := Looking(s.at[w].next + 1, found)])
    case Disarm(w) =>
      s.(procs := if c.arms then Disarmed(s.procs, w) else s.procs, at := s.at[w := Done])
    case Commit(w, mode, signal) =>
      var t := if c.arms then Committed(s.procs, w, mode, signal) else Slept(s.procs, w, c.channel[w], mode, signal);
      if mode == Interruptible && signal && (c.arms ==> s.procs[w].channel != 0) then
        s.(procs := Disarmed(t, w), at := s.at[w := Done])
      else if c.arms && s.procs[w].channel == 0 then
        s.(procs := t, at := s.at[w := Start])
      else
        s.(procs := t, at := s.at[w := Parked])
    case Resume(w) => s.(at := s.at[w := Start])
    case Again(w) => s.(at := s.at[w := Start])
    case Change(q, objects, channels) => s.(ready := s.ready + objects, due := s.due[q := channels])
    case Wake(q) => s.(procs := Woken(s.procs, s.due[q][0]), due := s.due[q := s.due[q][1..]])
    case Consume(objects) => s.(ready := s.ready - objects)
    case StrayWake(channel) => s.(procs := Woken(s.procs, channel))
    case Signal(p) => s.(procs := WokenOne(s.procs, p))
  }

  /** Before anyone waits: the waiters run, nobody is registered, and every producer is idle. */
  ghost predicate Initial(c: Config, s: World) {
    && c.Valid()
    && s.at.Keys == c.channel.Keys
    && (forall w :: w in c.channel ==>
         w in s.procs && s.at[w] == Start && s.procs[w].state == Running && s.procs[w].channel == 0)
    && (forall q :: q in s.due ==> s.due[q] == [])
  }

  /** `s` is reached from `s0` by some events, each enabled when it happens. */
  ghost predicate Run(c: Config, s0: World, events: seq<Event>, s: World)
    decreases |events|
  {
    if events == [] then s == s0
    else Enabled(c, s0, events[0]) && Run(c, Step(c, s0, events[0]), events[1..], s)
  }

  ghost predicate Reachable(c: Config, s0: World, s: World) {
    exists events :: Run(c, s0, events, s)
  }

  ghost predicate WakeDue(s: World, channel: nat) {
    exists q :: q in s.due && channel in s.due[q]
  }

  /** A waiter asleep although something it watches is ready, with nobody about to wake it. */
  ghost predicate Stranded(c: Config, s: World, w: Ptr) {
    && IsWaiter(c, s, w)
    && s.procs[w].state == Sleeping
    && (exists i :: 0 <= i < |c.watch[w]| && c.watch[w][i] in s.ready)
    && !WakeDue(s, c.channel[w])
  }

  // ---- the invariant ----

  /** How much of its watch list a waiter has looked at and found not ready since it armed. */
  ghost function Seen(c: Config, s: World, w: Ptr): nat
    requires IsWaiter(c, s, w)
  {
    match s.at[w]
    case Looking(next, false) => if next <= |c.watch[w]| then next else |c.watch[w]|
    case Parked => |c.watch[w]|
    case _ => 0
  }

  ghost predicate WaiterOk(c: Config, s: World, w: Ptr) {
    && IsWaiter(c, s, w)
    && s.procs[w].channel in {0, c.channel[w]}
    && (s.procs[w].state == Sleeping ==> s.at[w] == Parked && s.procs[w].channel != 0)
    && (s.procs[w].channel != 0 ==>
          forall i :: 0 <= i < Seen(c, s, w) && c.watch[w][i] in s.ready ==> WakeDue(s, c.channel[w]))
  }

  ghost predicate Inv(c: Config, s: World) {
    && c.Valid()
    && s.at.Keys == c.channel.Keys
    && (forall w :: w in c.channel ==> WaiterOk(c, s, w))
  }

  /** Whoever waits for what, and whoever produces: there is a world to start in. */
  lemma StartExists(c: Config, producers: set<Producer>) returns (s: World)
    requires c.Valid()
    ensures Initial(c, s) && s.due.Keys == producers
  {
    var procs := map w | w in c.channel :: Proc(Running, 0, false, Other, 0, 1, 1);
    s := World(procs, map w | w in c.channel :: Start, {}, map q | q in producers :: []);
  }

  lemma InitialInv(c: Config, s: World)
    requires Initial(c, s)
    ensures Inv(c, s)
  {
  }

  /** No event but the wake itself takes back a wake that is due. */
  lemma DueKept(c: Config, s: World, e: Event, channel: nat)
    requires Enabled(c, s, e) && WakeDue(s, channel)
    ensures WakeDue(Step(c, s, e), channel) || (e.Wake? && s.due[e.q][0] == channel)
  {
    var s' := Step(c, s, e);
    var q :| q in s.due && channel in s.due[q];
    if e.Wake? && e.q == q && s.due[q][0] != channel {
      assert s.due[q] == [s.due[q][0]] + s.due[q][1..];
    }
    assert (e.Wake? && s.due[e.q][0] == channel) || (q in s'.due && channel in s'.due[q]);
  }

  /** What becomes ready has a wake due on every channel that is notified of it. */
  lemma ReadyIsDue(c: Config, s: World, e: Event, o: Object, channel: nat)
    requires Enabled(c, s, e) && o in c.notify && channel in c.notify[o]
    requires o !in s.ready && o in Step(c, s, e).ready
    ensures WakeDue(Step(c, s, e), channel)
  {
    var s' := Step(c, s, e);
    assert e.q in s'.due && channel in s'.due[e.q];
  }

  /** What a step leaves of a waiter's place and registration, when the step is its own. */
  lemma OwnPlace(c: Config, s: World, e: Event, w: Ptr)
    requires WaiterOk(c, s, w) && c.arms && Enabled(c, s, e) && c.channel[w] != 0
    requires (e.Arm? || e.Look? || e.Disarm? || e.Commit? || e.Resume? || e.Again?) && e.w == w
    ensures IsWaiter(c, Step(c, s, e), w) && Step(c, s, e).procs[w].channel in {0, c.channel[w]}
    ensures Step(c, s, e).procs[w].state == Sleeping ==>
      Step(c, s, e).at[w] == Parked && Step(c, s, e).procs[w].channel != 0
  {
    hide Seen;
    hide WakeDue;
  }

  lemma StepPlace(c: Config, s: World, e: Event, w: Ptr)
    requires WaiterOk(c, s, w) && c.arms && Enabled(c, s, e) && c.channel[w] != 0
    ensures IsWaiter(c, Step(c, s, e), w) && Step(c, s, e).procs[w].channel in {0, c.channel[w]}
    ensures Step(c, s, e).procs[w].state == Sleeping ==>
      Step(c, s, e).at[w] == Parked && Step(c, s, e).procs[w].channel != 0
  {
    hide Seen;
    hide WakeDue;
    match e
    case Arm(v) => if v == w { OwnPlace(c, s, e, w); }
    case Look(v) => if v == w { OwnPlace(c, s, e, w); }
    case Disarm(v) => if v == w { OwnPlace(c, s, e, w); }
    case Commit(v, _, _) => if v == w { OwnPlace(c, s, e, w); }
    case Resume(v) => if v == w { OwnPlace(c, s, e, w); }
    case Again(v) => if v == w { OwnPlace(c, s, e, w); }
    case _ =>
  }

  /** A registered waiter passes nothing that is ready: what it has passed and was ready, it had passed before. */
  lemma StepSeen(c: Config, s: World, e: Event, w: Ptr, i: nat)
    requires WaiterOk(c, s, w) && c.arms && Enabled(c, s, e) && IsWaiter(c, Step(c, s, e), w)
    requires Step(c, s, e).procs[w].channel != 0 && i < Seen(c, Step(c, s, e), w) && c.watch[w][i] in s.ready
    ensures s.procs[w].channel != 0 && i < Seen(c, s, w)
    ensures !(e.Wake? && s.due[e.q][0] == c.channel[w])
  {
    hide WakeDue;
  }

  lemma StepWaiter(c: Config, s: World, e: Event, w: Ptr)
    requires Inv(c, s) && c.arms && Enabled(c, s, e) && w in c.channel
    ensures WaiterOk(c, Step(c, s, e), w)
  {
    hide WakeDue;
    hide Step;
    hide Enabled;
    var s' := Step(c, s, e);
    assert WaiterOk(c, s, w);
    StepPlace(c, s, e, w);
    if s'.procs[w].channel != 0 {
      forall i | 0 <= i < Seen(c, s', w) && c.watch[w][i] in s'.ready
        ensures WakeDue(s', c.channel[w])
      {
        if c.watch[w][i] !in s.ready {
          ReadyIsDue(c, s, e, c.watch[w][i], c.channel[w]);
        } else {
          StepSeen(c, s, e, w, i);
          DueKept(c, s, e, c.channel[w]);
        }
      }
    }
  }

  lemma StepInv(c: Config, s: World, e: Event)
    requires Inv(c, s) && c.arms && Enabled(c, s, e)
    ensures Inv(c, Step(c, s, e))
  {
    hide WaiterOk;
    forall w | w in c.channel ensures WaiterOk(c, Step(c, s, e), w) {
      StepWaiter(c, s, e, w);
    }
  }

  lemma {:induction false} RunInv(c: Config, s0: World, events: seq<Event>, s: World)
    requires Inv(c, s0) && c.arms && Run(c, s0, events, s)
    ensures Inv(c, s)
    decreases |events|
  {
    hide Inv;
    hide Enabled;
    hide Step;
    if events != [] {
      StepInv(c, s0, events[0]);
      RunInv(c, Step(c, s0, events[0]), events[1..], s);
    }
  }

  /** No interleaving strands a waiter that registers before it looks. */
  lemma ArmedWaitIsNeverStranded(c: Config, s0: World, events: seq<Event>, s: World, w: Ptr)
    requires c.arms && Initial(c, s0) && Run(c, s0, events, s)
    ensures !Stranded(c, s, w)
  {
    InitialInv(c, s0);
    RunInv(c, s0, events, s);
    if w in c.channel {
      assert WaiterOk(c, s, w);
    }
  }

  /** And a due wake, when it comes, finds the sleeper: it runs again. */
  lemma DueWakeEndsTheSleep(c: Config, s0: World, events: seq<Event>, s: World, w: Ptr, q: Producer)
    requires c.arms && Initial(c, s0) && Run(c, s0, events, s)
    requires w in c.channel && w in s.procs && s.procs[w].state == Sleeping
    requires q in s.due && s.due[q] != [] && s.due[q][0] == c.channel[w]
    ensures Step(c, s, Wake(q)).procs[w].state == Running
  {
    hide Run;
    InitialInv(c, s0);
    RunInv(c, s0, events, s);
    SleeperWoken(c, s, w, q);
  }

  lemma SleeperWoken(c: Config, s: World, w: Ptr, q: Producer)
    requires Inv(c, s) && w in c.channel && w in s.procs && s.procs[w].state == Sleeping
    requires q in s.due && s.due[q] != [] && s.due[q][0] == c.channel[w]
    ensures Step(c, s, Wake(q)).procs[w].state == Running
  {
    hide Seen;
    hide WakeDue;
    assert WaiterOk(c, s, w);
  }

  // ---- checking first and registering second ----

  lemma {:induction false} RunAppend(c: Config, s0: World, before: seq<Event>, s1: World, after: seq<Event>, s2: World)
    requires Run(c, s0, before, s1) && Run(c, s1, after, s2)
    ensures Run(c, s0, before + after, s2)
    decreases |before|
  {
    hide Enabled;
    hide Step;
    if before == [] {
      assert before + after == after;
    } else {
      RunAppend(c, Step(c, s0, before[0]), before[1..], s1, after, s2);
      assert (before + after)[1..] == before[1..] + after;
    }
  }

  /** A look at objects none of which is ready runs to the end of the watch list. */
  lemma {:induction false} LookThrough(c: Config, s: World, w: Ptr) returns (events: seq<Event>, s': World)
    requires IsWaiter(c, s, w) && s.at[w].Looking? && !s.at[w].found && s.at[w].next <= |c.watch[w]|
    requires forall i :: 0 <= i < |c.watch[w]| ==> c.watch[w][i] !in s.ready
    ensures Run(c, s, events, s')
    ensures s' == s.(at := s.at[w := Looking(|c.watch[w]|, false)])
    decreases |c.watch[w]| - s.at[w].next
  {
    if s.at[w].next == |c.watch[w]| {
      events, s' := [], s;
    } else {
      var s1 := Step(c, s, Look(w));
      events, s' := LookThrough(c, s1, w);
      events := [Look(w)] + events;
    }
  }

  /** A producer can finish its wakes; a process registered nowhere does not notice. */
  lemma {:induction false} WakeThrough(c: Config, s: World, q: Producer, w: Ptr) returns (events: seq<Event>, s': World)
    requires q in s.due && w in s.procs && s.procs[w].channel == 0
    ensures Run(c, s, events, s')
    ensures s'.at == s.at && s'.ready == s.ready && s'.due == s.due[q := []]
    ensures w in s'.procs && s'.procs[w] == s.procs[w]
    decreases |s.due[q]|
  {
    if s.due[q] == [] {
      events, s' := [], s;
    } else {
      var s1 := Step(c, s, Wake(q));
      events, s' := WakeThrough(c, s1, q, w);
      events := [Wake(q)] + events;
    }
  }

  ghost function Listed(channels: set<nat>): (r: seq<nat>)
    ensures forall k :: k in channels <==> k in r
  {
    if channels == {} then [] else
      var k :| k in channels;
      [k] + Listed(channels - {k})
  }

  /** A plain waiter looks at everything while nothing is ready, and is registered nowhere. */
  lemma LooksInVain(c: Config, s0: World, w: Ptr) returns (events: seq<Event>, s: World)
    requires !c.arms && Initial(c, s0) && w in c.channel
    ensures Run(c, s0, events, s)
    ensures s == s0.(ready := {}, at := s0.at[w := Looking(|c.watch[w]|, false)])
  {
    var s1 := Step(c, s0, Consume(s0.ready));
    var s2 := Step(c, s1, Arm(w));
    var looks;
    looks, s := LookThrough(c, s2, w);
    hide Run;
    Two(c, s0, Consume(s0.ready), Arm(w));
    RunAppend(c, s0, [Consume(s0.ready), Arm(w)], s2, looks, s);
    events := [Consume(s0.ready), Arm(w)] + looks;
  }

  /** Then the change comes, and all its wakes. */
  lemma ChangesBehind(c: Config, s: World, w: Ptr, q: Producer, o: Object) returns (events: seq<Event>, s': World)
    requires q in s.due && s.due[q] == [] && w in s.procs && s.procs[w].channel == 0 && o in c.notify
    ensures Run(c, s, events, s')
    ensures s'.at == s.at && s'.ready == s.ready + {o} && s'.due == s.due && w in s'.procs && s'.procs[w] == s.procs[w]
  {
    var change := Change(q, {o}, Listed(c.notify[o]));
    var s1 := Step(c, s, change);
    var wakes;
    wakes, s' := WakeThrough(c, s1, q, w);
    hide Run;
    One(c, s, change);
    RunAppend(c, s, [change], s1, wakes, s');
    events := [change] + wakes;
  }

  /** Whoever looks before registering can be stranded: here is the run, for any waiter and producer. */
  lemma PlainWaitCanBeStranded(c: Config, s0: World, w: Ptr, q: Producer) returns (events: seq<Event>, s: World)
    requires !c.arms && Initial(c, s0) && w in c.channel && c.watch[w] != [] && q in s0.due
    ensures Run(c, s0, events, s) && Stranded(c, s, w)
  {
    hide Run;
    var o := c.watch[w][0];
    var looks, s1 := LooksInVain(c, s0, w);
    var changes, s2 := ChangesBehind(c, s1, w, q, o);
    var commit := Commit(w, Uninterruptible, false);
    s := Step(c, s2, commit);
    One(c, s2, commit);
    RunAppend(c, s0, looks, s1, changes, s2);
    RunAppend(c, s0, looks + changes, s2, [commit], s);
    events := looks + changes + [commit];
    assert c.watch[w][0] in s.ready;
  }

  lemma One(c: Config, s: World, e: Event)
    requires Enabled(c, s, e)
    ensures Run(c, s, [e], Step(c, s, e))
  {
    hide Enabled;
    hide Step;
    assert [e][1..] == [];
    assert Run(c, Step(c, s, e), [], Step(c, s, e));
  }

  lemma Two(c: Config, s: World, e: Event, f: Event)
    requires Enabled(c, s, e) && Enabled(c, Step(c, s, e), f)
    ensures Run(c, s, [e, f], Step(c, Step(c, s, e), f))
  {
    hide Enabled;
    hide Step;
    One(c, Step(c, s, e), f);
    assert [e, f][1..] == [f];
  }

  lemma ArmedReachable(c: Config, s0: World, s: World, w: Ptr)
    requires c.arms && Initial(c, s0) && Reachable(c, s0, s)
    ensures !Stranded(c, s, w)
  {
    hide Stranded;
    hide Initial;
    var events :| Run(c, s0, events, s);
    ArmedWaitIsNeverStranded(c, s0, events, s, w);
  }

  lemma StrandedReachable(c: Config, s0: World, w: Ptr, q: Producer) returns (s: World)
    requires !c.arms && Initial(c, s0) && w in c.channel && c.watch[w] != [] && q in s0.due
    ensures Reachable(c, s0, s) && Stranded(c, s, w)
  {
    hide Stranded;
    hide Initial;
    var events;
    events, s := PlainWaitCanBeStranded(c, s0, w, q);
    assert Run(c, s0, events, s);
  }

  /** Registering before looking is exactly what makes every interleaving safe. */
  lemma StrandingIffNotArmed(c: Config, s0: World, w: Ptr, q: Producer)
    requires Initial(c, s0) && w in c.channel && c.watch[w] != [] && q in s0.due
    ensures c.arms <==> forall s :: Reachable(c, s0, s) ==> !Stranded(c, s, w)
  {
    hide Stranded;
    hide Reachable;
    if c.arms {
      forall s | Reachable(c, s0, s) ensures !Stranded(c, s, w) {
        ArmedReachable(c, s0, s, w);
      }
    } else {
      var s := StrandedReachable(c, s0, w, q);
      assert Reachable(c, s0, s) && Stranded(c, s, w);
    }
  }
}
