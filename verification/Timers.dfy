// At-most timers outside parallel rules: what an expired timer stops, and what it leaves alone.
module Timers {
  import opened Rules
  import opened Isolation
  import opened Coroutine
  import opened Interleaving

  ghost predicate Monotone(env: Env) {
    forall m, n :: m <= n ==> env.now(m) <= env.now(n)
  }

  ghost predicate HasTimer(g: Game, k: Key) {
    exists i :: 0 <= i < |g.callbacks| && g.callbacks[i] == Timer(k.id) && k.world == g.world
  }

  // All callbacks are running timers that are not among the rules in own.
  ghost predicate OnlyTimers(own: set<RuleId>, g: Game) {
    forall i :: 0 <= i < |g.callbacks| ==>
      var k := CallbackKey(g.callbacks[i], g.world);
      g.callbacks[i].Timer? && g.callbacks[i].id !in own && k in g.states && g.states[k].Deadline?
  }

  ghost predicate Late(env: Env, g: Game, k: Key) {
    k in g.states && g.states[k].Deadline? && g.states[k].at <= env.now(g.ticks)
  }

  ghost predicate Rings(k: Key, d: Log) {
    Checked(k, true) in d
  }

  // Once a timer of g has rung, nothing happens but further checks of timers.
  ghost predicate Quiet(g: Game, d: Log) {
    forall i, j :: 0 <= i < j < |d| && d[i].Checked? && d[i].expired && HasTimer(g, d[i].key) ==> d[j].Checked?
  }

  // Every answer of the timer from g to h is that of the clock, read in between.
  ghost predicate Honest(env: Env, k: Key, at: int, g: Game, h: Game) {
    forall j :: |g.log| <= j < |h.log| && h.log[j].Checked? && h.log[j].key == k ==>
      ClockSays(env, at, g.ticks, h.ticks, h.log[j].expired)
  }

  ghost predicate ClockSays(env: Env, at: int, from: nat, to: nat, expired: bool) {
    exists n: nat :: from <= n < to && (expired <==> env.now(n) >= at)
  }

  // ... of all timers of g.
  ghost predicate AllHonest(env: Env, g: Game, h: Game) {
    forall k :: HasTimer(g, k) && k in g.states && g.states[k].Deadline? ==> Honest(env, k, g.states[k].at, g, h)
  }

  // From g to h the timers of g have been obeyed; only states in own have changed.
  ghost predicate Timed(env: Env, own: set<RuleId>, g: Game, h: Game) {
    && h.callbacks == g.callbacks && h.world == g.world && g.ticks <= h.ticks && g.log <= h.log
    && Quiet(g, h.log[|g.log|..])
    && (forall k :: HasTimer(g, k) && Rings(k, h.log[|g.log|..]) ==> Late(env, h, k))
    && AllHonest(env, g, h)
    && (forall k :: !Owned(own, g.world, k) ==> SameAt(k, g, h))
  }

  ghost predicate NoneRings(g: Game, d: Log) {
    forall k :: HasTimer(g, k) ==> !Rings(k, d)
  }

  ghost predicate OnlyChecks(d: Log) {
    forall i :: 0 <= i < |d| ==> d[i].Checked?
  }

  lemma TimerKept(own: set<RuleId>, g: Game, h: Game, k: Key)
    requires OnlyTimers(own, g) && HasTimer(g, k) && (forall q :: !Owned(own, g.world, q) ==> SameAt(q, g, h))
    ensures SameAt(k, g, h) && k in g.states && g.states[k].Deadline?
  {
    var i :| 0 <= i < |g.callbacks| && g.callbacks[i] == Timer(k.id) && k.world == g.world;
    assert CallbackKey(g.callbacks[i], g.world) == k;
    assert !Owned(own, g.world, k);
  }

  lemma HonestTrans(env: Env, k: Key, at: int, g: Game, h: Game, i: Game)
    requires Honest(env, k, at, g, h) && Honest(env, k, at, h, i)
    requires g.log <= h.log <= i.log && g.ticks <= h.ticks <= i.ticks
    ensures Honest(env, k, at, g, i)
  {
    forall j | |g.log| <= j < |i.log| && i.log[j].Checked? && i.log[j].key == k
      ensures ClockSays(env, at, g.ticks, i.ticks, i.log[j].expired)
    {
      if j < |h.log| {
        assert i.log[j] == h.log[j];
        assert ClockSays(env, at, g.ticks, h.ticks, h.log[j].expired);
      } else {
        assert ClockSays(env, at, h.ticks, i.ticks, i.log[j].expired);
      }
    }
  }

  lemma AllHonestTrans(env: Env, own: set<RuleId>, g: Game, h: Game, i: Game)
    requires OnlyTimers(own, g) && Timed(env, own, g, h) && Timed(env, own, h, i)
    ensures AllHonest(env, g, i)
  {
    forall k | HasTimer(g, k) && k in g.states && g.states[k].Deadline?
      ensures Honest(env, k, g.states[k].at, g, i)
    {
      TimerKept(own, g, h, k);
      assert HasTimer(h, k);
      HonestTrans(env, k, g.states[k].at, g, h, i);
    }
  }

  lemma TimedTrans(env: Env, own: set<RuleId>, g: Game, h: Game, i: Game)
    requires Monotone(env) && OnlyTimers(own, g) && Timed(env, own, g, h) && Timed(env, own, h, i)
    requires NoneRings(g, h.log[|g.log|..]) || OnlyChecks(i.log[|h.log|..])
    ensures Timed(env, own, g, i)
  {
    AllHonestTrans(env, own, g, h, i);
    var d, e := h.log[|g.log|..], i.log[|h.log|..];
    assert i.log[|g.log|..] == d + e;
    var f: Log := d + e;
    forall m, n | 0 <= m < n < |f| && f[m].Checked? && f[m].expired && HasTimer(g, f[m].key) ensures f[n].Checked? {
      if m < |d| {
        assert Rings(d[m].key, d);
      } else {
        assert HasTimer(h, e[m - |d|].key);
      }
    }
    forall k | HasTimer(g, k) && Rings(k, d + e) ensures Late(env, i, k) {
      TimerKept(own, g, h, k);
      assert HasTimer(h, k);
      TimerKept(own, h, i, k) by { OnlyTimersKept(own, g, h); }
      if Rings(k, d) {
        assert Late(env, h, k);
      } else {
        assert Rings(k, e);
      }
    }
  }

  lemma OnlyTimersKept(own: set<RuleId>, g: Game, h: Game)
    requires OnlyTimers(own, g) && h.callbacks == g.callbacks && h.world == g.world
    requires forall k :: !Owned(own, g.world, k) ==> SameAt(k, g, h)
    ensures OnlyTimers(own, h)
  {
    forall i | 0 <= i < |h.callbacks| ensures
      var k := CallbackKey(h.callbacks[i], h.world);
      h.callbacks[i].Timer? && h.callbacks[i].id !in own && k in h.states && h.states[k].Deadline?
    {
      var k := CallbackKey(g.callbacks[i], g.world);
      assert !Owned(own, g.world, k) && SameAt(k, g, h);
    }
  }

  ghost function AfterAsking(env: Env, g: Game, k: Key): Game
    requires k in g.states && g.states[k].Deadline?
  {
    Emit(g.(ticks := g.ticks + 1), Checked(k, !(env.now(g.ticks) < g.states[k].at)))
  }

  // Asking one timer.
  lemma AskTimer(env: Env, own: set<RuleId>, g: Game, k: Key)
    requires Monotone(env) && OnlyTimers(own, g) && HasTimer(g, k) && k in g.states && g.states[k].Deadline?
    ensures Timed(env, own, g, AfterAsking(env, g, k)) && OnlyTimers(own, AfterAsking(env, g, k))
    ensures AfterAsking(env, g, k).log[|g.log|..] == [Checked(k, Late(env, g, k))]
    ensures Late(env, g, k) <==> !NoneRings(g, [Checked(k, Late(env, g, k))])
  {
    var h := AfterAsking(env, g, k);
    var d := h.log[|g.log|..];
    assert d == [Checked(k, Late(env, g, k))];
    assert env.now(g.ticks) <= env.now(h.ticks);
    if Late(env, g, k) {
      assert Checked(k, true) == d[0];
      assert Rings(k, d);
    }
    forall q | HasTimer(g, q) && Rings(q, d) ensures Late(env, h, q) {
      assert q == k;
    }
    assert ClockSays(env, g.states[k].at, g.ticks, h.ticks, Late(env, g, k));
  }

  // What asking the timers below position n comes to.
  ghost predicate AnswersFrom(env: Env, own: set<RuleId>, g: Game, n: nat, v: Verdict) {
    && v.Verdict? && !v.resumed && Timed(env, own, g, v.g) && v.g.states == g.states
    && OnlyChecks(v.g.log[|g.log|..])
    && (v.stop <==> !NoneRings(g, v.g.log[|g.log|..]))
    && forall i :: 0 <= i < n && i < |g.callbacks| && Late(env, g, CallbackKey(g.callbacks[i], g.world)) ==> v.stop
  }

  // A timer that is not late leaves the answer to those below it.
  lemma NotThisTimer(env: Env, own: set<RuleId>, g: Game, n: nat, v: Verdict)
    requires Monotone(env) && OnlyTimers(own, g) && 0 < n <= |g.callbacks|
    requires var k := CallbackKey(g.callbacks[n - 1], g.world);
             k in g.states && g.states[k].Deadline? && !Late(env, g, k)
                 && AnswersFrom(env, own, AfterAsking(env, g, k), n - 1, v)
    ensures AnswersFrom(env, own, g, n, v)
  {
    var k := CallbackKey(g.callbacks[n - 1], g.world);
    assert HasTimer(g, k);
    AskTimer(env, own, g, k);
    var h := AfterAsking(env, g, k);
    var d, e := h.log[|g.log|..], v.g.log[|h.log|..];
    assert v.g.log[|g.log|..] == d + e;
    TimedTrans(env, own, g, h, v.g);
    SameRings(g, h, d, e);
    forall i | 0 <= i < n && Late(env, g, CallbackKey(g.callbacks[i], g.world)) ensures v.stop {
      assert env.now(g.ticks) <= env.now(h.ticks);
      assert Late(env, h, CallbackKey(h.callbacks[i], h.world));
    }
  }

  lemma SameRings(g: Game, h: Game, d: Log, e: Log)
    requires h.callbacks == g.callbacks && h.world == g.world && NoneRings(g, d)
    ensures NoneRings(g, d + e) <==> NoneRings(h, e)
  {
    forall q ensures HasTimer(g, q) ==> HasTimer(h, q) && (Rings(q, d + e) <==> Rings(q, e)) {
      assert HasTimer(g, q) ==> !Rings(q, d);
    }
  }

  // Asking the timers: a late one stops the rule, and a rule is only stopped by a late one.
  lemma {:induction false} CheckTimers(env: Env, own: set<RuleId>, g: Game, n: nat, who: Rule)
    requires Monotone(env) && OnlyTimers(own, g) && n <= |g.callbacks|
    ensures var v := CheckFrom(env, g, n, who);
            && v.Verdict? && !v.resumed && Timed(env, own, g, v.g) && v.g.states == g.states
            && OnlyChecks(v.g.log[|g.log|..])
            && (v.stop <==> !NoneRings(g, v.g.log[|g.log|..]))
    ensures forall i ::
        0 <= i < n && Late(env, g, CallbackKey(g.callbacks[i], g.world)) ==> CheckFrom(env, g, n, who).stop
    decreases n
  {
    if n > 0 {
      var k := CallbackKey(g.callbacks[n - 1], g.world);
      assert HasTimer(g, k);
      AskTimer(env, own, g, k);
      if !Late(env, g, k) {
        var h := AfterAsking(env, g, k);
        CheckTimers(env, own, h, n - 1, who);
        NotThisTimer(env, own, g, n, CheckFrom(env, h, n - 1, who));
      }
    }
  }

  lemma TimedWiden(env: Env, mine: set<RuleId>, own: set<RuleId>, g: Game, h: Game)
    requires mine <= own && Timed(env, mine, g, h)
    ensures Timed(env, own, g, h)
  {
    forall k | !Owned(own, g.world, k) ensures SameAt(k, g, h) {
      assert !Owned(mine, g.world, k);
    }
  }

  // A step that only changes owned states and lets owned events happen.
  lemma TimedStep(env: Env, own: set<RuleId>, g: Game, h: Game)
    requires OnlyTimers(own, g) && h.callbacks == g.callbacks && h.world == g.world && h.ticks == g.ticks
        && g.log <= h.log
    requires forall i :: |g.log| <= i < |h.log| ==> !h.log[i].Checked?
    requires forall k :: !Owned(own, g.world, k) ==> SameAt(k, g, h)
    ensures Timed(env, own, g, h) && OnlyTimers(own, h) && NoneRings(g, h.log[|g.log|..])
  {
    OnlyTimersKept(own, g, h);
  }

  ghost predicate SomeLate(env: Env, g: Game) {
    exists i :: 0 <= i < |g.callbacks| && Late(env, g, CallbackKey(g.callbacks[i], g.world))
  }

  ghost predicate TimedStart(env: Env, r: Rule, g: Game) {
    Monotone(env) && WellFormed(r) && OnlyTimers(Ids(r), g) && Absent(Below(r), g)
  }

  // The rule has obeyed the timers around it and taken its rule states away.
  ghost predicate TimedEnd(env: Env, r: Rule, g: Game, h: Game) {
    Timed(env, Ids(r), g, h) && Absent(Ids(r), h)
  }

  // The first steps of a call under timers.
  ghost predicate BegunTimed(env: Env, r: Rule, g: Game, b: Start) {
    !b.Broken? ==>
      && Timed(env, Ids(r), g, b.g) && OnlyTimers(Ids(r), b.g) && NoneRings(g, b.g.log[|g.log|..])
      && Absent(if b.Over? || b.Hands? then Ids(r) else Below(r), b.g)
      && (b.Works? || b.Hands? ==> b.child in Children(r))
  }

  lemma BeginTimed(env: Env, r: Rule, g: Game)
    requires TimedStart(env, r, g) && !r.AtMost?
    ensures BegunTimed(env, r, g, Begin(env, r, g))
  {
    BeginTouches(env, r, g);
    BeginClean(env, r, g);
    var b := Begin(env, r, g);
    if !b.Broken? {
      forall k | !Owned(Ids(r), g.world, k) ensures SameAt(k, g, b.g) {
        assert k != KeyOf(r, g);
      }
      TimedStep(env, Ids(r), g, b.g);
    }
  }

  // A rule run under timers obeys them and leaves no rule states, whether it was stopped or not.
  lemma {:induction false} TimedRun(env: Env, r: Rule, g: Game, gas: nat)
    requires TimedStart(env, r, g)
    ensures var o := Run(env, r, g, gas); o.Done? ==> TimedEnd(env, r, g, o.g)
    decreases gas, 0
  {
    if gas == 0 {
    } else if r.AtMost? {
      TimedAtMost(env, r, g, gas);
    } else {
      BeginTimed(env, r, g);
      ContinueTimed(env, r, g, Begin(env, r, g), gas - 1);
    }
  }

  lemma {:induction false} ContinueTimed(env: Env, r: Rule, g: Game, b: Start, gas: nat)
    requires TimedStart(env, r, g) && BegunTimed(env, r, g, b)
    ensures var o := Continue(env, r, b, gas); o.Done? ==> TimedEnd(env, r, g, o.g)
    decreases gas, 3
  {
    match b
    case Broken =>
    case Over(_) =>
    case Polls(_) =>
      TimedSettle(env, r, b.g, gas);
      TimedGoOn(env, r, g, b.g, Settle(env, r, b.g, gas));
    case Works(child, _) =>
      TimedSub(env, r, child, b.g, gas);
      TimedGoOn(env, r, g, b.g, Sub(env, r, child, b.g, gas));
    case Hands(child, _) =>
      TimedHand(env, r, child, b.g, gas);
      TimedGoOn(env, r, g, b.g, Run(env, child, b.g, gas));
  }

  lemma TimedGoOn(env: Env, r: Rule, g: Game, h: Game, o: Outcome)
    requires Monotone(env) && OnlyTimers(Ids(r), g) && Timed(env, Ids(r), g, h) && NoneRings(g, h.log[|g.log|..])
    requires o.Done? ==> TimedEnd(env, r, h, o.g)
    ensures o.Done? ==> TimedEnd(env, r, g, o.g)
  {
    if o.Done? {
      TimedTrans(env, Ids(r), g, h, o.g);
    }
  }

  lemma {:induction false} TimedHand(env: Env, r: Rule, child: Rule, g: Game, gas: nat)
    requires Monotone(env) && WellFormed(r) && OnlyTimers(Ids(r), g) && Absent(Ids(r), g) && child in Children(r)
    ensures var o := Run(env, child, g, gas); o.Done? ==> TimedEnd(env, r, g, o.g)
    decreases gas, 1
  {
    TimedRun(env, child, g, gas);
    var o := Run(env, child, g, gas);
    if o.Done? {
      TimedWiden(env, Ids(child), Ids(r), g, o.g);
      StillAbsent(env, Ids(child), Ids(r), g, o.g);
    }
  }

  lemma StillAbsent(env: Env, mine: set<RuleId>, all: set<RuleId>, g: Game, h: Game)
    requires Timed(env, mine, g, h) && Absent(mine, h) && Absent(all, g)
    ensures Absent(all, h)
  {
    forall i | i in all ensures Key(i, h.world) !in h.states {
      assert i in mine || SameAt(Key(i, g.world), g, h);
    }
  }

  lemma ArmedStart(env: Env, r: Rule, g: Game)
    requires TimedStart(env, r, g) && r.AtMost?
    ensures TimedStart(env, r.body, Armed(env, r, g))
  {
    var h := Armed(env, r, g);
    forall i | 0 <= i < |h.callbacks| ensures
      var k := CallbackKey(h.callbacks[i], h.world);
      h.callbacks[i].Timer? && h.callbacks[i].id !in Ids(r.body) && k in h.states && h.states[k].Deadline?
    {
      assert i < |g.callbacks| ==> h.callbacks[i] == g.callbacks[i];
    }
  }

  lemma TimerNotAround(own: set<RuleId>, id: RuleId, g: Game)
    requires OnlyTimers(own, g) && id in own
    ensures Timer(id) !in g.callbacks
  {
    forall i | 0 <= i < |g.callbacks| ensures g.callbacks[i] != Timer(id) {
      assert g.callbacks[i].id !in own;
    }
  }

  lemma {:induction false} TimedAtMost(env: Env, r: Rule, g: Game, gas: nat)
    requires TimedStart(env, r, g) && r.AtMost? && gas > 0
    ensures var o := Run(env, r, g, gas); o.Done? ==> TimedEnd(env, r, g, o.g)
    decreases gas - 1, 3
  {
    var g0 := Armed(env, r, g);
    ArmedStart(env, r, g);
    TimedRun(env, r.body, g0, gas - 1);
    match Run(env, r.body, g0, gas - 1)
    case Stuck =>
    case Done(g1, gas1) =>
      TimerNotAround(Ids(r), r.id, g);
      DeregisterLast(g.callbacks, Timer(r.id));
      Disarmed(env, r, g, g1);
  }

  lemma Disarmed(env: Env, r: Rule, g: Game, g1: Game)
    requires TimedStart(env, r, g) && r.AtMost? && TimedEnd(env, r.body, Armed(env, r, g), g1)
    ensures TimedEnd(env, r, g, Drop(g1.(callbacks := g.callbacks), KeyOf(r, g)))
  {
    var g0, h, k := Armed(env, r, g), Drop(g1.(callbacks := g.callbacks), KeyOf(r, g)), KeyOf(r, g);
    forall q | !Owned(Ids(r), g.world, q) ensures SameAt(q, g, h) {
      assert !Owned(Ids(r.body), g.world, q) && SameAt(q, g0, g1) && q != k;
    }
    forall q | HasTimer(g, q) ensures HasTimer(g0, q) && q != k {
      var i :| 0 <= i < |g.callbacks| && g.callbacks[i] == Timer(q.id) && q.world == g.world;
      assert g0.callbacks[i] == Timer(q.id);
    }
  }

  lemma {:induction false} TimedSub(env: Env, r: Rule, child: Rule, g: Game, gas: nat)
    requires TimedStart(env, r, g) && child in Children(r)
    ensures var o := Sub(env, r, child, g, gas); o.Done? ==> TimedEnd(env, r, g, o.g)
    decreases gas, 2
  {
    TimedRun(env, child, g, gas);
    match Run(env, child, g, gas)
    case Stuck =>
    case Done(g1, gas1) =>
      TimedWiden(env, Ids(child), Ids(r), g, g1);
      StillAbsent(env, Ids(child), Below(r), g, g1);
      OnlyTimersKept(Ids(r), g, g1);
      TimedSettle(env, r, g1, gas1);
      RungThenLate(env, Ids(r), g, g1);
      var o := Settle(env, r, g1, gas1);
      if o.Done? {
        TimedTrans(env, Ids(r), g, g1, o.g);
      }
  }

  lemma RungThenLate(env: Env, own: set<RuleId>, g: Game, h: Game)
    requires Timed(env, own, g, h)
    ensures NoneRings(g, h.log[|g.log|..]) || SomeLate(env, h)
  {
    if !NoneRings(g, h.log[|g.log|..]) {
      var k :| HasTimer(g, k) && Rings(k, h.log[|g.log|..]);
      assert Late(env, h, k) && HasTimer(h, k);
    }
  }

  lemma {:induction false} TimedSettle(env: Env, r: Rule, g: Game, gas: nat)
    requires TimedStart(env, r, g)
    ensures var o := Settle(env, r, g, gas); o.Done? ==> TimedEnd(env, r, g, o.g)
    ensures var o := Settle(env, r, g, gas); o.Done? && SomeLate(env, g) ==> OnlyChecks(o.g.log[|g.log|..])
    decreases gas, 1
  {
    CheckTimers(env, Ids(r), g, |g.callbacks|, r);
    var v := Check(env, g, r);
    OnlyTimersKept(Ids(r), g, v.g);
    if HasSpot(r, v.g) {
      var g2 := Advance(r, v.g);
      AdvanceLike(r, v.g, v.g);
      TimedStep(env, Ids(r), v.g, g2);
      TimedTrans(env, Ids(r), g, v.g, g2);
      if v.stop {
        TimedStop(env, r, g, g2);
      } else {
        TimedRun(env, r, g2, gas);
        var o := Settle(env, r, g, gas);
        if o.Done? {
          TimedTrans(env, Ids(r), g, g2, o.g);
        }
      }
    }
  }

  lemma TimedStop(env: Env, r: Rule, g: Game, g2: Game)
    requires TimedStart(env, r, g) && Timed(env, Ids(r), g, g2) && OnlyTimers(Ids(r), g2) && Absent(Below(r), g2)
    ensures r.Loop? ==> TimedEnd(env, r, g, g2)
    ensures TimedEnd(env, r, g, Drop(g2, KeyOf(r, g2)))
  {
    var h := Drop(g2, KeyOf(r, g2));
    TimedStep(env, Ids(r), g2, h);
    assert OnlyChecks(h.log[|g2.log|..]);
    TimedTrans(env, Ids(r), g, g2, h);
  }

  // Once its time is up, a timer's body starts nothing more: after the timer has rung there are
  // only checks of timers until it returns.
  lemma ExpiredTimerStops(env: Env, r: Rule, g: Game, gas: nat)
    requires TimedStart(env, r, g) && r.AtMost? && Run(env, r, g, gas).Done?
    ensures var h := Run(env, r, g, gas).g;
            g.log <= h.log && forall i, j ::
                |g.log| <= i < j < |h.log| && h.log[i] == Checked(KeyOf(r, g), true) ==> h.log[j].Checked?
  {
    var g0 := Armed(env, r, g);
    ArmedStart(env, r, g);
    TimedRun(env, r.body, g0, gas - 1);
    var h := Run(env, r.body, g0, gas - 1).g;
    forall i, j | |g.log| <= i < j < |h.log| && h.log[i] == Checked(KeyOf(r, g), true) ensures h.log[j].Checked? {
      assert h.log[i] == h.log[|g.log|..][i - |g.log|] && h.log[j] == h.log[|g.log|..][j - |g.log|];
    }
    assert g0.callbacks[|g.callbacks|] == Timer(r.id);
    assert HasTimer(g0, KeyOf(r, g));
  }

  // A timer keeps time: whenever it is asked, it answers that it has expired exactly if the clock, read then, is its
  // duration or more past what it was when the timer was started.
  lemma TimerKeepsTime(env: Env, r: Rule, g: Game, gas: nat)
    requires TimedStart(env, r, g) && r.AtMost? && Run(env, r, g, gas).Done?
    ensures var h := Run(env, r, g, gas).g;
            forall j :: |g.log| <= j < |h.log| && h.log[j].Checked? && h.log[j].key == Key(r.id, g.world) ==>
              ClockSays(env, env.now(g.ticks) + r.duration, g.ticks + 1, h.ticks, h.log[j].expired)
  {
    var g0, k := Armed(env, r, g), KeyOf(r, g);
    ArmedStart(env, r, g);
    TimedRun(env, r.body, g0, gas - 1);
    assert g0.callbacks[|g.callbacks|] == Timer(k.id);
    assert HasTimer(g0, k);
  }

  // However a timed rule ends, the callbacks and the rule states are those on entry.
  lemma TimedLeavesNothing(env: Env, r: Rule, g: Game, gas: nat)
    requires TimedStart(env, r, g) && Absent(Ids(r), g) && Run(env, r, g, gas).Done?
    ensures Run(env, r, g, gas).g.callbacks == g.callbacks && Run(env, r, g, gas).g.states == g.states
  {
    TimedRun(env, r, g, gas);
    var h := Run(env, r, g, gas).g;
    forall k ensures SameAt(k, h, g) {
      assert Owned(Ids(r), g.world, k) || SameAt(k, g, h);
    }
    SameStates(h, g);
  }

  lemma {:induction false} ListSettles(env: Env, r: Rule, h: Game, at: nat, gas: nat)
    requires Monotone(env) && OnlyTimers(Ids(r), h) && r.RuleList?
    requires KeyOf(r, h) in h.states && h.states[KeyOf(r, h)] == ListAt(at)
    ensures var k, v := KeyOf(r, h), Check(env, h, r);
            && v.Verdict? && (SomeLate(env, h) ==> v.stop) && (v.stop ==> SomeLate(env, v.g))
            && Settle(env, r, h, gas) ==
               if v.stop then Done(Drop(Put(v.g, k, ListAt(at + 1)), k), gas)
                   else Run(env, r, Put(v.g, k, ListAt(at + 1)), gas)
  {
    CheckTimers(env, Ids(r), h, |h.callbacks|, r);
    var v := Check(env, h, r);
    RungThenLate(env, Ids(r), h, v.g);
    assert HasSpot(r, v.g) && Advance(r, v.g) == Put(v.g, KeyOf(r, h), ListAt(at + 1));
  }

  // What a list does after one of its rules, a timer that has expired or any other: it goes on with the
  // next, unless a timer around the list has expired by then.
  lemma {:induction false} RestStillRuns(env: Env, r: Rule, g: Game, gas: nat)
    requires TimedStart(env, r, g) && r.RuleList? && gas > 0
    requires KeyOf(r, g) in g.states && g.states[KeyOf(r, g)].ListAt? && g.states[KeyOf(r, g)].next < |r.rules|
    ensures var k, at := KeyOf(r, g), g.states[KeyOf(r, g)].next;
            var o := Run(env, r.rules[at], g, gas - 1);
            if o.Stuck? then Run(env, r, g, gas) == Stuck
            else
              var v := Check(env, o.g, r);
              && v.Verdict? && (SomeLate(env, o.g) ==> v.stop) && (v.stop ==> SomeLate(env, v.g))
              && Run(env, r, g, gas) ==
                 if v.stop then Done(Drop(Put(v.g, k, ListAt(at + 1)), k), o.gas)
                     else Run(env, r, Put(v.g, k, ListAt(at + 1)), o.gas)
  {
    var k, at := KeyOf(r, g), g.states[KeyOf(r, g)].next;
    var child := r.rules[at];
    assert Run(env, r, g, gas) == Sub(env, r, child, g, gas - 1);
    ChildTimed(env, r, child, g, gas - 1);
    var o := Run(env, child, g, gas - 1);
    if o.Done? {
      ListSettles(env, r, o.g, at, o.gas);
    }
  }

  // A sub-rule leaves its list's state and the timers around it.
  lemma ChildTimed(env: Env, r: Rule, child: Rule, g: Game, gas: nat)
    requires TimedStart(env, r, g) && child in Children(r)
    ensures var o := Run(env, child, g, gas);
            o.Done? ==> o.g.world == g.world && SameAt(KeyOf(r, g), g, o.g) && OnlyTimers(Ids(r), o.g)
  {
    TimedRun(env, child, g, gas);
    var o := Run(env, child, g, gas);
    if o.Done? {
      assert !Owned(Ids(child), g.world, KeyOf(r, g));
      OnlyTimersKept(Ids(r), g, o.g);
    }
  }

  // Inside a branch of a parallel rule a timer does not do this: its run returns when the branch
  // is merely suspended, and takes the timer away. Here the third leaf is run long after time.
  ghost function Ticking(): Env {
    Env((k, log) => false, (k, log) => 0, (k, log) => 0, (k, log) => 0, n => n)
  }

  ghost function ThreeLeaves(): Rule { RuleList(2, [Leaf(3), Leaf(4), Leaf(5)]) }

  ghost function InBranch(): Game { Game([Parallel(9)], map[Key(9, 0) := Branches([])], 0, [], 0) }

  // A list going from its at-th leaf to the next, under timers that have not expired.
  lemma ListStep(env: Env, r: Rule, g: Game, at: nat, gas: nat, v: Verdict)
    requires r.RuleList? && at < |r.rules| && r.rules[at].Leaf? && gas > 1
    requires (if KeyOf(r, g) in g.states then g.states[KeyOf(r, g)] else ListAt(0)) == ListAt(at)
    requires v == Check(env, Emit(Put(g, KeyOf(r, g), ListAt(at)), Ran(KeyOf(r.rules[at], g))), r)
    requires v.Verdict? && v.g.world == g.world && KeyOf(r, g) in v.g.states && v.g.states[KeyOf(r, g)] == ListAt(at)
    ensures var h := Put(v.g, KeyOf(r, g), ListAt(at + 1));
            Run(env, r, g, gas) == if !v.stop then Run(env, r, h, gas - 2) else if v.resumed then Done(h, gas - 2)
                else Done(Drop(h, KeyOf(r, g)), gas - 2)
  {
    var g0 := Put(g, KeyOf(r, g), ListAt(at));
    assert (if KeyOf(r, g) in g.states then g else Put(g, KeyOf(r, g), ListAt(0))) == g0;
    assert Run(env, r, g, gas) == Sub(env, r, r.rules[at], g0, gas - 1);
    var g1 := Emit(g0, Ran(KeyOf(r.rules[at], g)));
    assert Run(env, r.rules[at], g0, gas - 1) == Done(g1, gas - 2);
    assert Run(env, r, g, gas) == Settle(env, r, g1, gas - 2);
    assert Advance(r, v.g) == Put(v.g, KeyOf(r, g), ListAt(at + 1));
  }

  // Alone: two leaves, then the timer stops the list.
  ghost function AloneAfter(n: nat, log: Log): Game {
    Game([Timer(1)], map[Key(9, 0) := Branches([]), Key(1, 0) := Deadline(2), Key(2, 0) := ListAt(n)], 0, log, 1 + n)
  }

  lemma FirstLeafAlone(a0: Game)
    requires a0 == Game([Timer(1)], map[Key(9, 0) := Branches([]), Key(1, 0) := Deadline(2)], 0, [], 1)
    ensures Run(Ticking(), ThreeLeaves(), a0, 8) == Run(Ticking(), ThreeLeaves(),
        AloneAfter(1, [Ran(Key(3, 0)), Checked(Key(1, 0), false)]), 6)
  {
    var env, body, k := Ticking(), ThreeLeaves(), Key(2, 0);
    var g1 := Emit(Put(a0, k, ListAt(0)), Ran(Key(3, 0)));
    var c1 := Emit(g1.(ticks := 2), Checked(Key(1, 0), false));
    assert CheckFrom(env, g1, 1, body) == Verdict(c1, false, false) by {
      assert g1.states[Key(1, 0)] == Deadline(2);
      assert CheckFrom(env, c1, 0, body) == Verdict(c1, false, false);
    }
    ListStep(env, body, a0, 0, 8, Verdict(c1, false, false));
    assert Put(c1, k, ListAt(1)) == AloneAfter(1, [Ran(Key(3, 0)), Checked(Key(1, 0), false)]);
  }

  lemma SecondLeafAlone(log: Log)
    ensures var o := Run(Ticking(), ThreeLeaves(), AloneAfter(1, log), 6);
            o.Done? && o.g.log == log + [Ran(Key(4, 0))] + [Checked(Key(1, 0), true)]
  {
    var env, body, k, a1 := Ticking(), ThreeLeaves(), Key(2, 0), AloneAfter(1, log);
    var g2 := Emit(Put(a1, k, ListAt(1)), Ran(Key(4, 0)));
    var c2 := Emit(g2.(ticks := 3), Checked(Key(1, 0), true));
    assert CheckFrom(env, g2, 1, body) == Verdict(c2, true, false) by {
      assert g2.states[Key(1, 0)] == Deadline(2);
    }
    ListStep(env, body, a1, 1, 6, Verdict(c2, true, false));
  }

  lemma BodyAlone()
    ensures var o := Run(Ticking(), ThreeLeaves(), Armed(Ticking(), AtMost(1, 2, ThreeLeaves()), Alone(InBranch())), 8);
            o.Done? && Ran(Key(5, 0)) !in o.g.log
  {
    FirstLeafAlone(Armed(Ticking(), AtMost(1, 2, ThreeLeaves()), Alone(InBranch())));
    SecondLeafAlone([Ran(Key(3, 0)), Checked(Key(1, 0), false)]);
  }

  // Run alone, the timer keeps its third leaf from being run.
  lemma StoppedAlone()
    ensures var o := Run(Ticking(), AtMost(1, 2, ThreeLeaves()), Alone(InBranch()), 9);
            o.Done? && Ran(Key(5, 0)) !in o.g.log
  {
    BodyAlone();
  }

  // A branch: one leaf, then the list is noted, ...
  lemma SuspendedList(a0: Game)
    requires a0 == Armed(Ticking(), AtMost(1, 2, ThreeLeaves()), InBranch())
    ensures var o := Run(Ticking(), ThreeLeaves(), a0, 8);
            && o.Done? && o.gas == 6 && o.g.callbacks == [Parallel(9), Timer(1)] && o.g.world == 0
            && o.g.states == map[Key(9, 0) := Branches([ThreeLeaves()]), Key(1, 0) := Deadline(2), Key(2, 0) :=
                ListAt(1)]
  {
    var env, body, k := Ticking(), ThreeLeaves(), Key(2, 0);
    var g1 := Emit(Put(a0, k, ListAt(0)), Ran(Key(3, 0)));
    var c1 := Emit(g1.(ticks := 2), Checked(Key(1, 0), false));
    var v := Verdict(Put(c1, Key(9, 0), Branches([body])), true, true);
    assert CheckFrom(env, g1, 2, body) == v by {
      assert g1.states[Key(1, 0)] == Deadline(2);
      assert CallbackKey(c1.callbacks[0], 0) == Key(9, 0);
      assert c1.states[Key(9, 0)].lastRun + [body] == [body];
      assert CheckFrom(env, c1, 1, body) == v;
    }
    ListStep(env, body, a0, 0, 8, v);
    var h := Put(v.g, k, ListAt(1));
    assert h.states == map[Key(9, 0) := Branches([body]), Key(1, 0) := Deadline(2), k := ListAt(1)];
  }

  // ... and the timer is gone.
  lemma SuspendedInBranch()
    ensures var turn := Run(Ticking(), AtMost(1, 2, ThreeLeaves()), InBranch(), 9);
            && turn.Done? && turn.gas == 6 && turn.g.callbacks == [Parallel(9)]
            && turn.g.states == map[Key(9, 0) := Branches([ThreeLeaves()]), Key(2, 0) := ListAt(1)]
            && turn.g.world == 0
  {
    var h := Run(Ticking(), ThreeLeaves(), Armed(Ticking(), AtMost(1, 2, ThreeLeaves()), InBranch()), 8);
    SuspendedList(Armed(Ticking(), AtMost(1, 2, ThreeLeaves()), InBranch()));
    DeregisterLast([Parallel(9)], Timer(1));
    assert [Parallel(9)] + [Timer(1)] == [Parallel(9), Timer(1)];
    assert h.g.states - {Key(1, 0)} == map[Key(9, 0) := Branches([ThreeLeaves()]), Key(2, 0) := ListAt(1)];
  }

  // The rest of the branch, with no timer about, runs to the end of the list.
  lemma LastTwoLeaves(b1: Game)
    requires b1.callbacks == [] && b1.world == 0 && Key(2, 0) in b1.states && b1.states[Key(2, 0)] == ListAt(1)
    ensures var o := Run(Ticking(), ThreeLeaves(), b1, 6); o.Done? && Ran(Key(5, 0)) in o.g.log
  {
    var env, body, k := Ticking(), ThreeLeaves(), Key(2, 0);
    var g2 := Emit(Put(b1, k, ListAt(1)), Ran(Key(4, 0)));
    ListStep(env, body, b1, 1, 6, Verdict(g2, false, false));
    var b2 := Put(g2, k, ListAt(2));
    var g3 := Emit(Put(b2, k, ListAt(2)), Ran(Key(5, 0)));
    ListStep(env, body, b2, 2, 4, Verdict(g3, false, false));
    var b3 := Put(g3, k, ListAt(3));
    assert Run(env, body, b3, 2) == Done(Drop(b3, k), 1);
    assert g3.log[|g3.log| - 1] == Ran(Key(5, 0));
  }

  // In a branch, the third leaf is run.
  lemma {:induction false} TimerLostInBranch()
    ensures var turn := Run(Ticking(), AtMost(1, 2, ThreeLeaves()), InBranch(), 9);
            && turn.Done? && turn.g.callbacks == [Parallel(9)] && Key(9, 0) in turn.g.states
            && turn.g.states[Key(9, 0)] == Branches([ThreeLeaves()])
            && var rest := RunStack(Ticking(), [ThreeLeaves()], Alone(Cleared(turn.g)), turn.gas);
               rest.Done? && Ran(Key(5, 0)) in rest.g.log
  {
    SuspendedInBranch();
    var turn := Run(Ticking(), AtMost(1, 2, ThreeLeaves()), InBranch(), 9);
    var b1 := Alone(Cleared(turn.g));
    assert b1.states == map[Key(9, 0) := Branches([]), Key(2, 0) := ListAt(1)];
    LastTwoLeaves(b1);
    assert [ThreeLeaves()][..0] == [];
  }
}
