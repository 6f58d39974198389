/**
 Whole runs of the callout queue. Callers arm and disarm at any time; ticks come one by one, and the
 bottom half fires everything that is due before the next tick.
 */
module AlarmClock {
  import opened DeltaQueue
  import opened CalloutTable

  datatype Firing = Firing(req: Request, at: int)

  datatype Clock = Clock(now: int, queue: seq<Callout>, log: seq<Firing>)

  datatype Event =
    | Arm(req: Request, ticks: nat)
    | Refuse(req: Request)
    | Disarm(req: Request)
    | Tick
    | Fire

  /** A tick comes only once the bottom half is done; callouts are armed for at least one tick. */
  ghost predicate Enabled(s: Clock, e: Event) {
    match e
    case Arm(_, ticks) => 1 <= ticks <= INT_MAX
    case Refuse(_) => true
    case Disarm(_) => true
    case Tick => s.queue == [] || s.queue[0].expires > 0
    case Fire => s.queue != [] && s.queue[0].expires == 0
  }

  /** Refuse is add_callout() finding no free slot: whatever was pending for the request is gone. */
  ghost function Step(s: Clock, e: Event): Clock
    requires Enabled(s, e)
  {
    match e
    case Arm(req, ticks) => s.(queue := Inserted(Disarmed(s.queue, req), Callout(req, ticks)))
    case Refuse(req) => s.(queue := Disarmed(s.queue, req))
    case Disarm(req) => s.(queue := Disarmed(s.queue, req))
    case Tick => s.(now := s.now + 1, queue := Counted(s.queue))
    case Fire => s.(queue := s.queue[1..], log := s.log + [Firing(s.queue[0].req, s.now)])
  }

  ghost predicate Run(s0: Clock, events: seq<Event>, s: Clock)
    decreases |events|
  {
    if events == [] then s == s0
    else Enabled(s0, events[0]) && Run(Step(s0, events[0]), events[1..], s)
  }

  ghost function Alarms(s: Clock): seq<Alarm> {
    Deadlines(s.queue, s.now)
  }

  /** The event does not concern `req`. */
  ghost predicate Spares(e: Event, req: Request) {
    e.Tick? || e.Fire? || e.req != req
  }

  lemma {:induction false} DeadlinesRequests(q: seq<Callout>, now: int)
    ensures forall i :: 0 <= i < |q| ==> Deadlines(q, now)[i].req == q[i].req
  {
    if q != [] {
      DeadlinesRequests(q[1..], now + q[0].expires);
    }
  }

  /** Without request `req`, if it is there. */
  ghost predicate DropsOnly(a: seq<Alarm>, req: Request, b: seq<Alarm>) {
    b == a || exists k :: 0 <= k < |a| && a[k].req == req && b == a[..k] + a[k + 1..]
  }

  lemma DisarmedAlarms(q: seq<Callout>, req: Request, now: int)
    ensures DropsOnly(Deadlines(q, now), req, Deadlines(Disarmed(q, req), now))
  {
    var k := Position(q, req);
    if k < |q| {
      DeadlinesRequests(q, now);
      DeletedDeadlines(q, k, now);
      var a := Deadlines(q, now);
      assert a[k].req == req && Deadlines(Disarmed(q, req), now) == a[..k] + a[k + 1..];
    }
  }

  lemma DropsKeeps(a: seq<Alarm>, req: Request, b: seq<Alarm>, x: Alarm)
    requires DropsOnly(a, req, b) && x in a && x.req != req
    ensures x in b
  {
    if b != a {
      var k :| 0 <= k < |a| && a[k].req == req && b == a[..k] + a[k + 1..];
      assert a == a[..k] + [a[k]] + a[k + 1..];
    }
  }

  /** An alarm the event does not concern keeps its deadline, or fires, exactly at it. */
  lemma StepKeepsAlarm(s: Clock, e: Event, x: Alarm)
    requires Enabled(s, e) && Spares(e, x.req) && x in Alarms(s)
    ensures var s' := Step(s, e);
      || (x in Alarms(s') && s'.log == if e.Fire? then s.log + [Firing(s.queue[0].req, s.now)] else s.log)
      || (e == Fire && s.queue[0].req == x.req && s.now == x.due && s'.log == s.log + [Firing(x.req, x.due)])
  {
    hide Deadlines;
    hide Inserted;
    hide Disarmed;
    match e
    case Arm(req, ticks) =>
      DisarmedAlarms(s.queue, req, s.now);
      var q := Disarmed(s.queue, req);
      DropsKeeps(Alarms(s), req, Deadlines(q, s.now), x);
      InsertedDeadlines(q, Callout(req, ticks), s.now);
    case Refuse(req) =>
      DisarmedAlarms(s.queue, req, s.now);
      DropsKeeps(Alarms(s), req, Alarms(Step(s, e)), x);
    case Disarm(req) =>
      DisarmedAlarms(s.queue, req, s.now);
      DropsKeeps(Alarms(s), req, Alarms(Step(s, e)), x);
    case Tick =>
      CountedDeadlines(s.queue, s.now);
    case Fire =>
      FiredDeadlines(s.queue, s.now);
      DeadlinesRequests(s.queue, s.now);
      var a := Alarms(s);
      assert a == [a[0]] + a[1..];
  }

  lemma StepHealthy(s: Clock, e: Event)
    requires Enabled(s, e) && Healthy(s.queue)
    ensures Healthy(Step(s, e).queue)
  {
    hide Healthy;
    match e
    case Arm(req, ticks) =>
      DisarmedHealthy(s.queue, req);
      InsertedHealthy(Disarmed(s.queue, req), Callout(req, ticks));
    case Refuse(req) => DisarmedHealthy(s.queue, req);
    case Disarm(req) => DisarmedHealthy(s.queue, req);
    case Tick => CountedHealthy(s.queue);
    case Fire => FiredHealthy(s.queue);
  }

  ghost predicate Absent(q: seq<Callout>, req: Request) {
    forall i :: 0 <= i < |q| ==> q[i].req != req
  }

  lemma DisarmedAbsent(q: seq<Callout>, other: Request, req: Request)
    requires Absent(q, req)
    ensures Absent(Disarmed(q, other), req)
  {
  }

  lemma {:induction false} InsertedAbsent(q: seq<Callout>, c: Callout, req: Request)
    requires Absent(q, req) && c.req != req
    ensures Absent(Inserted(q, c), req)
  {
    if q != [] && q[0].expires <= c.expires {
      InsertedAbsent(q[1..], c.(expires := c.expires - q[0].expires), req);
    }
  }

  lemma StepStaysAbsent(s: Clock, e: Event, req: Request)
    requires Enabled(s, e) && Spares(e, req) && Absent(s.queue, req)
    ensures Absent(Step(s, e).queue, req)
  {
    hide Inserted;
    hide Disarmed;
    if e.Arm? || e.Refuse? || e.Disarm? {
      DisarmedAbsent(s.queue, e.req, req);
    }
    if e.Arm? {
      InsertedAbsent(Disarmed(s.queue, e.req), Callout(e.req, e.ticks), req);
    }
  }

  /** What a run has fired. */
  ghost function New(s0: Clock, s: Clock): seq<Firing> {
    if s0.log <= s.log then s.log[|s0.log|..] else []
  }

  ghost predicate NeverFired(log: seq<Firing>, req: Request) {
    forall i :: 0 <= i < |log| ==> log[i].req != req
  }

  /** `req` fires once in the log, at `at`. */
  ghost predicate FiredOnce(log: seq<Firing>, req: Request, at: int) {
    exists k :: 0 <= k < |log| && log[k] == Firing(req, at) && NeverFired(log[..k], req)
      && NeverFired(log[k + 1..], req)
  }

  lemma NewJoined(s0: Clock, s1: Clock, s: Clock)
    requires s0.log <= s1.log <= s.log
    ensures s0.log <= s.log && New(s0, s) == New(s0, s1) + New(s1, s)
  {
  }

  lemma NeverBoth(a: seq<Firing>, b: seq<Firing>, req: Request)
    ensures NeverFired(a + b, req) <==> NeverFired(a, req) && NeverFired(b, req)
  {
    if NeverFired(a + b, req) {
      forall i | 0 <= i < |a| ensures a[i].req != req {
        assert (a + b)[i] == a[i];
      }
      forall i | 0 <= i < |b| ensures b[i].req != req {
        assert (a + b)[|a| + i] == b[i];
      }
    }
  }

  lemma AbsentStep(s: Clock, e: Event, req: Request)
    requires Enabled(s, e) && Absent(s.queue, req)
    ensures s.log <= Step(s, e).log && NeverFired(New(s, Step(s, e)), req)
  {
    hide Inserted;
    hide Disarmed;
  }

  lemma {:induction false} AbsentNeverFires(s0: Clock, events: seq<Event>, s: Clock, req: Request)
    requires Run(s0, events, s) && Absent(s0.queue, req) && Healthy(s0.queue)
    requires forall i :: 0 <= i < |events| ==> Spares(events[i], req)
    ensures s0.log <= s.log && NeverFired(New(s0, s), req)
    decreases |events|
  {
    hide Healthy;
    hide Enabled;
    hide Step;
    hide Absent;
    if events == [] {
      assert New(s0, s) == [];
    } else {
      var s1 := Step(s0, events[0]);
      StepHealthy(s0, events[0]);
      StepStaysAbsent(s0, events[0], req);
      AbsentStep(s0, events[0], req);
      AbsentNeverFires(s1, events[1..], s, req);
      hide New;
      hide NeverFired;
      NewJoined(s0, s1, s);
      NeverBoth(New(s0, s1), New(s1, s), req);
    }
  }

  lemma PendingIsAhead(s: Clock, x: Alarm)
    requires Healthy(s.queue) && x in Alarms(s)
    ensures s.now <= x.due
  {
    DeadlinesOrdered(s.queue, s.now);
  }

  /** One step of an untouched pending callout: still pending, or fired now and gone. */
  lemma FirstStep(s: Clock, e: Event, x: Alarm)
    requires Enabled(s, e) && Spares(e, x.req) && x in Alarms(s) && Healthy(s.queue)
    ensures s.log <= Step(s, e).log
    ensures var s' := Step(s, e);
      || (x in Alarms(s') && NeverFired(New(s, s'), x.req))
      || (New(s, s') == [Firing(x.req, x.due)] && Absent(s'.queue, x.req))
  {
    hide Deadlines;
    var s' := Step(s, e);
    StepKeepsAlarm(s, e, x);
    if e.Fire? {
      FiredDeadlines(s.queue, s.now);
      DeadlinesRequests(s.queue, s.now);
      var a := Alarms(s);
      var i :| 0 <= i < |a| && a[i] == x;
      if i == 0 {
        assert Absent(s'.queue, x.req);
      } else {
        assert s.queue[0].req != s.queue[i].req;
        assert a[1..][i - 1] == x;
      }
    }
  }

  lemma FiredLater(a: seq<Firing>, b: seq<Firing>, req: Request, due: int)
    requires NeverFired(a, req) && FiredOnce(b, req, due)
    ensures FiredOnce(a + b, req, due)
  {
    var k :| 0 <= k < |b| && b[k] == Firing(req, due) && NeverFired(b[..k], req) && NeverFired(b[k + 1..], req);
    var c, m := a + b, |a| + k;
    assert c[..m] == a + b[..k] && c[m + 1..] == b[k + 1..];
    assert c[m] == Firing(req, due);
  }

  lemma FiredFirst(log: seq<Firing>, req: Request, due: int)
    requires NeverFired(log, req)
    ensures FiredOnce([Firing(req, due)] + log, req, due)
  {
    var all := [Firing(req, due)] + log;
    assert all[0] == Firing(req, due) && all[..0] == [] && all[1..] == log;
  }

  lemma Later(s0: Clock, s1: Clock, s: Clock, req: Request, due: int)
    requires s0.log <= s1.log <= s.log && NeverFired(New(s0, s1), req)
    ensures NeverFired(New(s1, s), req) ==> NeverFired(New(s0, s), req)
    ensures FiredOnce(New(s1, s), req, due) ==> FiredOnce(New(s0, s), req, due)
  {
    hide FiredOnce;
    hide New;
    hide NeverFired;
    NewJoined(s0, s1, s);
    NeverBoth(New(s0, s1), New(s1, s), req);
    if FiredOnce(New(s1, s), req, due) {
      FiredLater(New(s0, s1), New(s1, s), req, due);
    }
  }

  /** A pending callout that nobody touches fires once, exactly at its deadline, and not before it. */
  lemma {:induction false} FiresAtItsDeadline(s0: Clock, events: seq<Event>, s: Clock, x: Alarm)
    requires Run(s0, events, s) && Healthy(s0.queue) && x in Alarms(s0)
    requires forall i :: 0 <= i < |events| ==> Spares(events[i], x.req)
    ensures s0.log <= s.log
    ensures (x in Alarms(s) && s.now <= x.due && NeverFired(New(s0, s), x.req)) || FiredOnce(New(s0, s), x.req, x.due)
    decreases |events|
  {
    hide Healthy;
    hide Alarms;
    hide FiredOnce;
    hide Enabled;
    hide Step;
    hide Absent;
    if events == [] {
      PendingIsAhead(s0, x);
      assert New(s0, s) == [];
    } else {
      var s1 := Step(s0, events[0]);
      StepHealthy(s0, events[0]);
      FirstStep(s0, events[0], x);
      hide New;
      hide NeverFired;
      if x in Alarms(s1) && NeverFired(New(s0, s1), x.req) {
        FiresAtItsDeadline(s1, events[1..], s, x);
        Later(s0, s1, s, x.req, x.due);
      } else {
        AbsentNeverFires(s1, events[1..], s, x.req);
        NewJoined(s0, s1, s);
        FiredFirst(New(s1, s), x.req, x.due);
      }
    }
  }

  /** A callout armed for `ticks` ticks fires on the `ticks`-th tick, neither sooner nor later. */
  lemma ArmedFiresOnTime(s0: Clock, req: Request, ticks: nat, events: seq<Event>, s: Clock)
    requires Healthy(s0.queue) && 1 <= ticks <= INT_MAX
    requires Run(Step(s0, Arm(req, ticks)), events, s)
    requires forall i :: 0 <= i < |events| ==> Spares(events[i], req)
    ensures s0.log <= s.log
    ensures s.now < s0.now + ticks ==> NeverFired(New(s0, s), req)
    ensures s.now > s0.now + ticks ==> FiredOnce(New(s0, s), req, s0.now + ticks)
    ensures NeverFired(New(s0, s), req) || FiredOnce(New(s0, s), req, s0.now + ticks)
  {
    hide Healthy;
    hide Disarmed;
    var s1 := Step(s0, Arm(req, ticks));
    StepHealthy(s0, Arm(req, ticks));
    InsertedDeadlines(Disarmed(s0.queue, req), Callout(req, ticks), s0.now);
    FiresAtItsDeadline(s1, events, s, Alarm(req, s0.now + ticks));
    LogTimes(s1, events, s);
  }

  /** Everything a run fires is stamped with a tick the run has reached. */
  lemma {:induction false} LogTimes(s0: Clock, events: seq<Event>, s: Clock)
    requires Run(s0, events, s)
    ensures s0.log <= s.log && s0.now <= s.now
    ensures forall i :: 0 <= i < |New(s0, s)| ==> s0.now <= New(s0, s)[i].at <= s.now
    decreases |events|
  {
    if events != [] {
      var s1 := Step(s0, events[0]);
      LogTimes(s1, events[1..], s);
      assert New(s0, s) == s1.log[|s0.log|..] + New(s1, s);
    }
  }

  // ---- the order of firing ----

  /** `r1` is pending ahead of `r2`. */
  ghost predicate Ahead(a: seq<Alarm>, r1: Request, r2: Request) {
    exists i, j :: 0 <= i < j < |a| && a[i].req == r1 && a[j].req == r2
  }

  lemma ScheduledPlace(a: seq<Alarm>, x: Alarm, y: Alarm)
    requires Ordered(a) && y in a
    ensures y.due <= x.due ==> Ahead(Scheduled(a, x), y.req, x.req)
    ensures y.due > x.due ==> Ahead(Scheduled(a, x), x.req, y.req)
  {
    var i :| 0 <= i < |a| && a[i] == y;
    var k, b := Slot(a, x.due), Scheduled(a, x);
    assert b[k] == x;
    assert b[if i < k then i else i + 1] == y;
  }

  /** Arming puts the new callout behind everything due no later than it, and ahead of the rest. */
  lemma ArmedBehindEquals(s: Clock, req: Request, ticks: nat, x: Alarm)
    requires Healthy(s.queue) && 1 <= ticks <= INT_MAX && x in Alarms(s) && x.req != req
    ensures x.due <= s.now + ticks ==> Ahead(Alarms(Step(s, Arm(req, ticks))), x.req, req)
    ensures x.due > s.now + ticks ==> Ahead(Alarms(Step(s, Arm(req, ticks))), req, x.req)
  {
    hide Deadlines;
    hide Inserted;
    hide Disarmed;
    hide Ahead;
    hide Scheduled;
    var q := Disarmed(s.queue, req);
    var a := Deadlines(q, s.now);
    DisarmedAlarms(s.queue, req, s.now);
    DropsKeeps(Alarms(s), req, a, x);
    InsertedDeadlines(q, Callout(req, ticks), s.now);
    DisarmedHealthy(s.queue, req);
    DeadlinesOrdered(q, s.now);
    ScheduledPlace(a, Alarm(req, s.now + ticks), x);
  }

  lemma StepKeepsOrder(s: Clock, e: Event, r1: Request, r2: Request)
    requires Enabled(s, e) && Spares(e, r1) && Spares(e, r2) && r1 != r2 && Healthy(s.queue) && Ahead(Alarms(s), r1, r2)
    ensures Ahead(Alarms(Step(s, e)), r1, r2) || (e == Fire && s.queue[0].req == r1)
    ensures e == Fire ==> s.queue[0].req != r2
  {
    hide Deadlines;
    hide Inserted;
    hide Disarmed;
    hide DropsOnly;
    hide Ahead;
    var a, b := Alarms(s), Alarms(Step(s, e));
    match e
    case Arm(req, ticks) =>
      DisarmedAlarms(s.queue, req, s.now);
      var q := Disarmed(s.queue, req);
      InsertedDeadlines(q, Callout(req, ticks), s.now);
      DropsKeepsOrder(a, req, Deadlines(q, s.now), r1, r2);
      ScheduledKeepsOrder(Deadlines(q, s.now), Alarm(req, s.now + ticks), r1, r2);
    case Refuse(req) =>
      DisarmedAlarms(s.queue, req, s.now);
      DropsKeepsOrder(a, req, b, r1, r2);
    case Disarm(req) =>
      DisarmedAlarms(s.queue, req, s.now);
      DropsKeepsOrder(a, req, b, r1, r2);
    case Tick =>
      CountedDeadlines(s.queue, s.now);
    case Fire =>
      FireKeepsOrder(s, r1, r2);
  }

  lemma FireKeepsOrder(s: Clock, r1: Request, r2: Request)
    requires Enabled(s, Fire) && Healthy(s.queue) && Ahead(Alarms(s), r1, r2)
    ensures Ahead(Alarms(Step(s, Fire)), r1, r2) || s.queue[0].req == r1
    ensures s.queue[0].req != r2
  {
    hide Deadlines;
    var a, b := Alarms(s), Alarms(Step(s, Fire));
    FiredDeadlines(s.queue, s.now);
    DeadlinesRequests(s.queue, s.now);
    var i, j :| 0 <= i < j < |a| && a[i].req == r1 && a[j].req == r2;
    assert s.queue[0].req != s.queue[j].req;
    if i > 0 {
      assert b[i - 1].req == r1 && b[j - 1].req == r2;
    }
  }

  lemma AheadWithout(a: seq<Alarm>, k: nat, r1: Request, r2: Request)
    requires k < |a| && a[k].req != r1 && a[k].req != r2 && Ahead(a, r1, r2)
    ensures Ahead(a[..k] + a[k + 1..], r1, r2)
  {
    var b := a[..k] + a[k + 1..];
    var i, j :| 0 <= i < j < |a| && a[i].req == r1 && a[j].req == r2;
    var i', j' := if i < k then i else i - 1, if j < k then j else j - 1;
    assert b[i'] == a[i] && b[j'] == a[j];
  }

  lemma DropsKeepsOrder(a: seq<Alarm>, req: Request, b: seq<Alarm>, r1: Request, r2: Request)
    requires DropsOnly(a, req, b) && r1 != req && r2 != req && Ahead(a, r1, r2)
    ensures Ahead(b, r1, r2)
  {
    if b != a {
      var k :| 0 <= k < |a| && a[k].req == req && b == a[..k] + a[k + 1..];
      AheadWithout(a, k, r1, r2);
    }
  }

  lemma ScheduledKeepsOrder(a: seq<Alarm>, x: Alarm, r1: Request, r2: Request)
    requires Ahead(a, r1, r2)
    ensures Ahead(Scheduled(a, x), r1, r2)
  {
    var k, b := Slot(a, x.due), Scheduled(a, x);
    var i, j :| 0 <= i < j < |a| && a[i].req == r1 && a[j].req == r2;
    var i', j' := if i < k then i else i + 1, if j < k then j else j + 1;
    assert b[i'] == a[i] && b[j'] == a[j];
  }

  /** Callouts fire in the order of the queue: `r2` never before an `r1` that is ahead of it. */
  lemma {:induction false} FiresInOrder(s0: Clock, events: seq<Event>, s: Clock, r1: Request, r2: Request)
    requires Run(s0, events, s) && Healthy(s0.queue) && r1 != r2 && Ahead(Alarms(s0), r1, r2)
    requires forall i :: 0 <= i < |events| ==> Spares(events[i], r1) && Spares(events[i], r2)
    ensures s0.log <= s.log
    ensures NeverFired(New(s0, s), r1) ==> NeverFired(New(s0, s), r2)
    decreases |events|
  {
    hide Healthy;
    hide Alarms;
    hide Enabled;
    hide Step;
    hide Ahead;
    if events == [] {
      assert New(s0, s) == [];
    } else {
      var s1 := Step(s0, events[0]);
      StepHealthy(s0, events[0]);
      StepKeepsOrder(s0, events[0], r1, r2);
      LogGrows(s0, events[0]);
      FirstNew(s0, events[0], r1, r2);
      hide New;
      hide NeverFired;
      if Ahead(Alarms(s1), r1, r2) {
        FiresInOrder(s1, events[1..], s, r1, r2);
      } else {
        LogTimes(s1, events[1..], s);
      }
      NewJoined(s0, s1, s);
      NeverBoth(New(s0, s1), New(s1, s), r1);
      NeverBoth(New(s0, s1), New(s1, s), r2);
    }
  }

  /** What the first step fires. */
  lemma FirstNew(s: Clock, e: Event, r1: Request, r2: Request)
    requires Enabled(s, e) && (e == Fire ==> s.queue[0].req != r2)
    ensures NeverFired(New(s, Step(s, e)), r2)
    ensures e == Fire && s.queue[0].req == r1 ==> !NeverFired(New(s, Step(s, e)), r1)
  {
    hide Step;
    LogGrows(s, e);
    if e == Fire {
      assert New(s, Step(s, e))[0] == Firing(s.queue[0].req, s.now);
    }
  }

  lemma LogGrows(s: Clock, e: Event)
    requires Enabled(s, e)
    ensures s.log <= Step(s, e).log
    ensures Step(s, e).log[|s.log|..] == if e == Fire then [Firing(s.queue[0].req, s.now)] else []
  {
  }

  // ---- armed for more ticks than an int holds ----

  /**
    * Any event in any state: the bottom half stops at a callout that is not due, and a tick counts down to zero only.
    */
  ghost function Anyway(s: Clock, e: Event): Clock {
    match e
    case Arm(req, ticks) => s.(queue := Inserted(Disarmed(s.queue, req), Callout(req, AsInt(ticks))))
    case Refuse(req) => s.(queue := Disarmed(s.queue, req))
    case Disarm(req) => s.(queue := Disarmed(s.queue, req))
    case Tick => s.(now := s.now + 1, queue := Counted(s.queue))
    case Fire =>
      if s.queue == [] || s.queue[0].expires != 0 then s
      else s.(queue := s.queue[1..], log := s.log + [Firing(s.queue[0].req, s.now)])
  }

  ghost function AnywayAll(s: Clock, events: seq<Event>): Clock
    decreases |events|
  {
    if events == [] then s else AnywayAll(Anyway(s, events[0]), events[1..])
  }

  lemma AnywayIsStep(s: Clock, e: Event)
    requires Enabled(s, e)
    ensures Anyway(s, e) == Step(s, e)
  {
  }

  /** The first callout is `req`, and will never be due. */
  ghost predicate Jammed(s: Clock, req: Request) {
    s.queue != [] && s.queue[0].req == req && s.queue[0].expires < 0
  }

  lemma JammedStep(s: Clock, e: Event, req: Request)
    requires Jammed(s, req) && Spares(e, req) && (e.Arm? ==> e.ticks <= INT_MAX)
    ensures Jammed(Anyway(s, e), req) && Anyway(s, e).log == s.log
  {
  }

  lemma {:induction false} JammedForever(s: Clock, events: seq<Event>, req: Request)
    requires Jammed(s, req)
    requires forall i :: 0 <= i < |events| ==> Spares(events[i], req) && (events[i].Arm? ==> events[i].ticks <= INT_MAX)
    ensures Jammed(AnywayAll(s, events), req) && AnywayAll(s, events).log == s.log
    decreases |events|
  {
    hide Jammed;
    hide Anyway;
    if events != [] {
      JammedStep(s, events[0], req);
      JammedForever(Anyway(s, events[0]), events[1..], req);
    }
  }

  /**
    * A callout armed for more ticks than an int holds never fires, and while it is pending nothing else does: no run of
    * ticks, bottom halves and calls for other requests adds to the log.
    */
  lemma LongArmStopsTheClock(s: Clock, req: Request, ticks: nat, events: seq<Event>)
    requires Healthy(s.queue) && INT_MAX < ticks < UNSIGNED
    requires forall i :: 0 <= i < |events| ==> Spares(events[i], req) && (events[i].Arm? ==> events[i].ticks <= INT_MAX)
    ensures AnywayAll(Anyway(s, Arm(req, ticks)), events).log == s.log
  {
    hide Disarmed;
    hide Healthy;
    DisarmedHealthy(s.queue, req);
    FirstNotNegative(Disarmed(s.queue, req));
    JammedForever(Anyway(s, Arm(req, ticks)), events, req);
  }

  lemma FirstNotNegative(q: seq<Callout>)
    requires Healthy(q)
    ensures q != [] ==> q[0].expires >= 0
  {
  }

  // ---- the linked callouts ----

  /** A run of enabled events is one of any events. */
  lemma {:induction false} RunIsAnyway(s0: Clock, events: seq<Event>, s: Clock)
    requires Run(s0, events, s)
    ensures AnywayAll(s0, events) == s
    decreases |events|
  {
    hide Enabled;
    hide Step;
    hide Anyway;
    if events != [] {
      AnywayIsStep(s0, events[0]);
      RunIsAnyway(Step(s0, events[0]), events[1..], s);
    }
  }

  lemma {:induction false} AnywayMore(s: Clock, events: seq<Event>, e: Event)
    ensures AnywayAll(s, events + [e]) == Anyway(AnywayAll(s, events), e)
    decreases |events|
  {
    hide Anyway;
    if events == [] {
      assert events + [e] == [e] && [e][1..] == [];
    } else {
      assert (events + [e])[0] == events[0] && (events + [e])[1..] == events[1..] + [e];
      AnywayMore(Anyway(s, events[0]), events[1..], e);
    }
  }

  /** What the kernel is asked to do; whether a callout can be armed is for it to say. */
  datatype Ask = Add(req: Request, ticks: nat) | Del(req: Request) | Timer | BottomHalf

  predicate Does(ask: Ask, e: Event) {
    match ask
    case Add(req, ticks) => e == Arm(req, ticks) || e == Refuse(req)
    case Del(req) => e == Disarm(req)
    case Timer => e == Tick
    case BottomHalf => e == Fire
  }

  /** One request, on the linked callouts; `log` is what has fired. A callout is refused only without a free slot. */
  method Serve(c: Callouts, ask: Ask, now: int, log: seq<Firing>) returns (e: Event, now': int, log': seq<Firing>)
    requires c.Shape() && (ask.Add? ==> ask.ticks < UNSIGNED)
    modifies c
    ensures c.Shape() && Does(ask, e) && (e.Refuse? ==> old(c.pool) == [])
    ensures Clock(now', c.Queue(), log') == Anyway(Clock(now, old(c.Queue()), log), e)
    ensures Healthy(old(c.Queue())) && (ask.Add? ==> ask.ticks <= INT_MAX) ==> Healthy(c.Queue())
  {
    hide Callouts.Shape;
    hide Callouts.Queue;
    hide Inserted;
    hide Disarmed;
    hide Healthy;
    hide Counted;
    now', log' := now, log;
    match ask
    case Add(req, ticks) =>
      var armed := c.Add(req, ticks);
      e := if armed then Arm(req, ticks) else Refuse(req);
    case Del(req) =>
      ghost var found := c.Del(req);
      e := Disarm(req);
    case Timer =>
      var expired := c.Tick();
      e, now' := Tick, now + 1;
    case BottomHalf =>
      var fired, req := c.Fire();
      e := Fire;
      if fired {
        log' := log + [Firing(req, now)];
      }
  }

  /**
    * Any run of requests, on the linked callouts: the queue and the firings are those of a run of the clock, in which
    * every request is done in turn.
    */
  method Execute(c: Callouts, asks: seq<Ask>, now: int) returns (events: seq<Event>, end: int, log: seq<Firing>)
    requires c.Shape() && forall i :: 0 <= i < |asks| && asks[i].Add? ==> asks[i].ticks < UNSIGNED
    modifies c
    ensures c.Shape() && |events| == |asks| && forall i :: 0 <= i < |asks| ==> Does(asks[i], events[i])
    ensures Clock(end, c.Queue(), log) == AnywayAll(Clock(now, old(c.Queue()), []), events)
    ensures Healthy(old(c.Queue())) && (forall i :: 0 <= i < |asks| && asks[i].Add? ==> asks[i].ticks <= INT_MAX) ==>
      Healthy(c.Queue())
  {
    hide Callouts.Shape;
    hide Callouts.Queue;
    hide Anyway;
    hide Healthy;
    hide Does;
    events, end, log := [], now, [];
    ghost var s := Clock(now, c.Queue(), []);
    for n := 0 to |asks|
      invariant c.Shape() && |events| == n && Clock(end, c.Queue(), log) == AnywayAll(s, events)
      invariant forall i :: 0 <= i < n ==> Does(asks[i], events[i])
      invariant Healthy(s.queue) && (forall i :: 0 <= i < n && asks[i].Add? ==> asks[i].ticks <= INT_MAX) ==>
        Healthy(c.Queue())
    {
      var e;
      e, end, log := Serve(c, asks[n], end, log);
      AnywayMore(s, events, e);
      events := events + [e];
    }
  }
}
