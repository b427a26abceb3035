// An at-most timer in a branch of a parallel rule lasts for one turn of the branch: what it stops in that turn,
// and that it stops nothing after it.
module BranchTimers {
  import opened Rules
  import opened Isolation
  import opened Coroutine

  // The game without its innermost callback.
  ghost function Front(g: Game): Game
    requires g.callbacks != []
  {
    g.(callbacks := g.callbacks[..|g.callbacks| - 1])
  }

  // The timer filed at kt is the innermost callback, a parallel rule the next.
  ghost predicate UnderTimer(own: set<RuleId>, kt: Key, at: int, g: Game) {
    && g.callbacks != [] && g.callbacks[|g.callbacks| - 1] == Timer(kt.id)
    && kt.world == g.world && kt.id !in own && kt in g.states && g.states[kt] == Deadline(at)
    && UnderParallel(own, Front(g)) && Top(Front(g)) != kt
  }

  // h is g as it would be without the timer, but for the states in mine.
  ghost predicate Beside(own: set<RuleId>, kt: Key, at: int, mine: set<RuleId>, g: Game, h: Game) {
    && UnderTimer(own, kt, at, g) && UnderParallel(own, h)
    && h.callbacks == Front(g).callbacks && h.world == g.world
    && forall k :: k != kt && k != Top(h) && !Owned(mine, g.world, k) ==> SameAt(k, g, h)
  }

  // Before any rule has been noted: nothing but the timer makes a difference.
  ghost predicate Twin(own: set<RuleId>, kt: Key, at: int, g: Game, h: Game) {
    && Beside(own, kt, at, {}, g, h) && h.log == g.log && g.ticks == h.ticks + 1
    && LastRun(Front(g)) == [] && LastRun(h) == []
  }

  // The answers of the timer to n questions, the first of which reads the clock for the t-th time, ...
  ghost function Answers(env: Env, kt: Key, at: int, t: nat, n: nat): Log {
    if n == 0 then [] else Answers(env, kt, at, t, n - 1) + [Checked(kt, !(env.now(t + n - 1) < at))]
  }

  // ... and how many of them say that the time is up.
  ghost function Rings(env: Env, at: int, t: nat, n: nat): nat {
    if n == 0 then 0 else Rings(env, at, t, n - 1) + if env.now(t + n - 1) < at then 0 else 1
  }

  // Each rule that unwound has asked the timer once, and is noted unless the timer rang for it.
  ghost predicate Unwound(env: Env, own: set<RuleId>, kt: Key, at: int, mine: set<RuleId>, g: Game, h: Game) {
    && Beside(own, kt, at, mine, g, h)
    && g.log == h.log + Answers(env, kt, at, h.ticks + 1, |LastRun(h)|) && g.ticks == h.ticks + 1 + |LastRun(h)|
    && AllResumable(own, LastRun(Front(g)))
    && |LastRun(Front(g))| + Rings(env, at, h.ticks + 1, |LastRun(h)|) == |LastRun(h)|
    && (|LastRun(Front(g))| == |LastRun(h)| ==>
          LastRun(Front(g)) == LastRun(h) && forall k :: k != kt && k != Top(h) ==> SameAt(k, g, h))
  }

  ghost predicate BothUnwound(env: Env, own: set<RuleId>, kt: Key, at: int, mine: set<RuleId>, o: Outcome, p: Outcome) {
    match (o, p)
    case (Stuck, Stuck) => true
    case (Done(g, m), Done(h, n)) => m == n && Unwound(env, own, kt, at, mine, g, h)
    case _ => false
  }

  lemma TwinUnwound(env: Env, own: set<RuleId>, kt: Key, at: int, mine: set<RuleId>, g: Game, h: Game)
    requires Twin(own, kt, at, g, h)
    ensures Unwound(env, own, kt, at, mine, g, h)
  {
    assert g.log == h.log + [];
  }

  lemma UnwoundWiden(env: Env, own: set<RuleId>, kt: Key, at: int, mine: set<RuleId>, more: set<RuleId>, g: Game,
      h: Game)
    requires Unwound(env, own, kt, at, mine, g, h) && mine <= more
    ensures Unwound(env, own, kt, at, more, g, h)
  {
    forall k | k != kt && k != Top(h) && !Owned(more, g.world, k) ensures SameAt(k, g, h) {
      assert !Owned(mine, g.world, k);
    }
  }

  ghost function AfterAsking(env: Env, kt: Key, at: int, g: Game): Game {
    Emit(g.(ticks := g.ticks + 1), Checked(kt, !(env.now(g.ticks) < at)))
  }

  // The timer answers first; the parallel rule hears of the caller only if the time is not up.
  lemma CheckUnderTimer(env: Env, own: set<RuleId>, kt: Key, at: int, g: Game, who: Rule)
    requires UnderTimer(own, kt, at, g)
    ensures var a := AfterAsking(env, kt, at, g);
            Check(env, g, who) ==
              if !(env.now(g.ticks) < at) then Verdict(a, true, false)
              else Verdict(Put(a, Top(Front(g)), Branches(LastRun(Front(g)) + [who])), true, true)
  {
    var n := |g.callbacks|;
    assert CallbackKey(g.callbacks[n - 1], g.world) == kt;
    var a, t := AfterAsking(env, kt, at, g), Top(Front(g));
    assert Front(g).callbacks[n - 2] == g.callbacks[n - 2] == a.callbacks[n - 2];
    assert CallbackKey(a.callbacks[n - 2], a.world) == t && a.states[t] == g.states[t];
    assert CheckFrom(env, a, n - 1, who) == Verdict(Put(a, t, Branches(LastRun(Front(g)) + [who])), true, true);
  }

  // The game with the caller noted by the innermost parallel rule.
  ghost function Noted(g: Game, who: Rule): Game
    requires g.callbacks != [] && Top(g) in g.states && g.states[Top(g)].Branches?
  {
    Put(g, Top(g), Branches(LastRun(g) + [who]))
  }

  // The timer has answered that the time is not up, and the parallel rule has noted the caller.
  ghost function AskedBoth(env: Env, own: set<RuleId>, kt: Key, at: int, g: Game, who: Rule): Game
    requires UnderTimer(own, kt, at, g)
  {
    Put(AfterAsking(env, kt, at, g), Top(Front(g)), Branches(LastRun(Front(g)) + [who]))
  }

  lemma UnwoundNoted(env: Env, own: set<RuleId>, kt: Key, at: int, mine: set<RuleId>, r: Rule, g: Game, h: Game)
    requires Unwound(env, own, kt, at, mine, g, h) && Resumable(own, r) && env.now(g.ticks) < at
    ensures Unwound(env, own, kt, at, mine, AskedBoth(env, own, kt, at, g, r), Noted(h, r))
  {
    var c, h1, n := AskedBoth(env, own, kt, at, g, r), Noted(h, r), |LastRun(h)|;
    assert LastRun(Front(c)) == LastRun(Front(g)) + [r] && LastRun(h1) == LastRun(h) + [r];
    assert c.log == h.log + (Answers(env, kt, at, h.ticks + 1, n) + [Checked(kt, false)]);
    forall q | q != kt && q != Top(h1) && SameAt(q, g, h) ensures SameAt(q, c, h1) {}
  }

  lemma UnwoundRung(env: Env, own: set<RuleId>, kt: Key, at: int, mine: set<RuleId>, r: Rule, g: Game, h: Game)
    requires Unwound(env, own, kt, at, mine, g, h) && !(env.now(g.ticks) < at)
    ensures Unwound(env, own, kt, at, mine, AfterAsking(env, kt, at, g), Noted(h, r))
    ensures LastRun(Front(AfterAsking(env, kt, at, g))) == LastRun(Front(g))
        && |LastRun(Front(g))| < |LastRun(Noted(h, r))|
  {
    var c, h1, n := AfterAsking(env, kt, at, g), Noted(h, r), |LastRun(h)|;
    assert LastRun(Front(c)) == LastRun(Front(g)) && LastRun(h1) == LastRun(h) + [r];
    assert c.log == h.log + (Answers(env, kt, at, h.ticks + 1, n) + [Checked(kt, true)]);
    forall q | q != kt && q != Top(h1) && SameAt(q, g, h) ensures SameAt(q, c, h1) {}
  }

  // Both change a state of their own alike.
  lemma UnwoundPut(env: Env, own: set<RuleId>, kt: Key, at: int, mine: set<RuleId>, g: Game, h: Game, k: Key,
      s: RuleState)
    requires Unwound(env, own, kt, at, mine, g, h) && Owned(own, g.world, k)
    ensures Unwound(env, own, kt, at, mine, Put(g, k, s), Put(h, k, s))
  {
    var g2, h2 := Put(g, k, s), Put(h, k, s);
    assert Front(g2) == Put(Front(g), k, s);
    forall q | q != kt && q != Top(h2) && SameAt(q, g, h) ensures SameAt(q, g2, h2) {}
  }

  // A rule that the timer has stopped loses its state.
  lemma UnwoundDrop(env: Env, own: set<RuleId>, kt: Key, at: int, mine: set<RuleId>, g: Game, h: Game, k: Key)
    requires Unwound(env, own, kt, at, mine, g, h) && Owned(own, g.world, k) && Owned(mine, g.world, k)
        && |LastRun(Front(g))| < |LastRun(h)|
    ensures Unwound(env, own, kt, at, mine, Drop(g, k), h)
  {
    var g2 := Drop(g, k);
    assert Front(g2) == Drop(Front(g), k);
    forall q | !Owned(mine, g.world, q) && SameAt(q, g, h) ensures SameAt(q, g2, h) {}
  }

  // Both step on.
  lemma UnwoundAdvance(env: Env, own: set<RuleId>, kt: Key, at: int, mine: set<RuleId>, r: Rule, g: Game, h: Game)
    requires Unwound(env, own, kt, at, mine, g, h) && r.id in own && HasSpot(r, h) && SameAt(KeyOf(r, h), g, h)
    ensures HasSpot(r, g) && Unwound(env, own, kt, at, mine, Advance(r, g), Advance(r, h))
    ensures Advance(r, g).log == g.log && Advance(r, h).log == h.log && Advance(r, g).world == g.world
  {
    var k := KeyOf(r, h);
    assert Owned(own, g.world, k);
    AdvanceLike(r, h, g);
    if Advance(r, h) != h {
      UnwoundPut(env, own, kt, at, mine, g, h, k, Advance(r, h).states[k]);
    }
  }

  // Noting the rule before it steps on makes no difference.
  lemma SettleNoted(env: Env, own: set<RuleId>, r: Rule, h: Game, gas: nat)
    requires UnderParallel(own, h) && r.id in own
    ensures HasSpot(r, Noted(h, r)) <==> HasSpot(r, h)
    ensures HasSpot(r, h) ==> Settle(env, r, h, gas) == Done(Advance(r, Noted(h, r)), gas)
    ensures !HasSpot(r, h) ==> Settle(env, r, h, gas) == Stuck
  {
    var k := KeyOf(r, h);
    CheckParallel(env, own, h, r);
    assert Owned(own, h.world, k) && SameAt(k, h, Noted(h, r));
    if HasSpot(r, h) {
      AdvanceLike(r, h, Noted(h, r));
    } else if HasSpot(r, Noted(h, r)) {
      AdvanceLike(r, Noted(h, r), h);
    }
  }

  // One rule more unwinds.
  lemma SettleUnwound(env: Env, own: set<RuleId>, kt: Key, at: int, mine: set<RuleId>, r: Rule, g: Game, h: Game,
      gas: nat)
    requires Unwound(env, own, kt, at, mine, g, h) && Resumable(own, r) && r.id !in mine && mine <= Ids(r)
    ensures BothUnwound(env, own, kt, at, Ids(r), Settle(env, r, g, gas), Settle(env, r, h, gas))
  {
    var k, h1 := KeyOf(r, g), Noted(h, r);
    assert Owned(own, g.world, k) && !Owned(mine, g.world, k) && SameAt(k, g, h);
    SettleNoted(env, own, r, h, gas);
    CheckUnderTimer(env, own, kt, at, g, r);
    UnwoundWiden(env, own, kt, at, mine, Ids(r), g, h);
    if env.now(g.ticks) < at {
      UnwoundNoted(env, own, kt, at, Ids(r), r, g, h);
      SettleNext(env, own, kt, at, r, g, h1, AskedBoth(env, own, kt, at, g, r), gas);
    } else {
      UnwoundRung(env, own, kt, at, Ids(r), r, g, h);
      SettleNext(env, own, kt, at, r, g, h1, AfterAsking(env, kt, at, g), gas);
    }
  }

  // What the rule does after the answer c.
  lemma SettleNext(env: Env, own: set<RuleId>, kt: Key, at: int, r: Rule, g: Game, h1: Game, c: Game, gas: nat)
    requires Unwound(env, own, kt, at, Ids(r), c, h1) && Resumable(own, r) && SameAt(KeyOf(r, h1), c, h1)
        && g.world == h1.world
    requires Check(env, g, r) == Verdict(c, true, true) ||
             (Check(env, g, r) == Verdict(c, true, false) && |LastRun(Front(c))| < |LastRun(h1)|)
    ensures BothUnwound(env, own, kt, at, Ids(r), Settle(env, r, g, gas), if HasSpot(r, h1)
        then Done(Advance(r, h1), gas) else Stuck)
  {
    if HasSpot(r, h1) {
      UnwoundAdvance(env, own, kt, at, Ids(r), r, c, h1);
      if Settle(env, r, g, gas) != Done(Advance(r, c), gas) {
        UnwoundDrop(env, own, kt, at, Ids(r), Advance(r, c), Advance(r, h1), KeyOf(r, g));
      }
    } else if HasSpot(r, c) {
      AdvanceLike(r, c, h1);
    }
  }

  ghost predicate TwinStart(own: set<RuleId>, kt: Key, at: int, b: Start, c: Start) {
    match (b, c)
    case (Broken, Broken) => true
    case (Over(g), Over(h)) => Twin(own, kt, at, g, h)
    case (Polls(g), Polls(h)) => Twin(own, kt, at, g, h)
    case (Works(x, g), Works(y, h)) => x == y && Twin(own, kt, at, g, h)
    case (Hands(x, g), Hands(y, h)) => x == y && Twin(own, kt, at, g, h)
    case _ => false
  }

  lemma TwinPut(own: set<RuleId>, kt: Key, at: int, g: Game, h: Game, k: Key, s: RuleState)
    requires Twin(own, kt, at, g, h) && Owned(own, g.world, k)
    ensures Twin(own, kt, at, Put(g, k, s), Put(h, k, s))
  {
    var g2, h2 := Put(g, k, s), Put(h, k, s);
    forall q | q != kt && q != Top(h2) ensures SameAt(q, g2, h2) {
      assert SameAt(q, g, h);
    }
  }

  lemma TwinDrop(own: set<RuleId>, kt: Key, at: int, g: Game, h: Game, k: Key)
    requires Twin(own, kt, at, g, h) && Owned(own, g.world, k)
    ensures Twin(own, kt, at, Drop(g, k), Drop(h, k))
  {
    var g2, h2 := Drop(g, k), Drop(h, k);
    forall q | q != kt && q != Top(h2) ensures SameAt(q, g2, h2) {
      assert SameAt(q, g, h);
    }
  }

  lemma TwinEmit(own: set<RuleId>, kt: Key, at: int, g: Game, h: Game, e: Event)
    requires Twin(own, kt, at, g, h)
    ensures Twin(own, kt, at, Emit(g, e), Emit(h, e))
  {
    var g2, h2 := Emit(g, e), Emit(h, e);
    forall q | q != kt && q != Top(h2) ensures SameAt(q, g2, h2) {
      assert SameAt(q, g, h);
    }
  }

  // The first steps of a call do not see the timer.
  lemma BeginTwin(env: Env, own: set<RuleId>, kt: Key, at: int, r: Rule, g: Game, h: Game)
    requires Resumable(own, r) && Twin(own, kt, at, g, h)
    ensures TwinStart(own, kt, at, Begin(env, r, g), Begin(env, r, h))
  {
    var k := KeyOf(r, g);
    assert Owned(own, g.world, k) && SameAt(k, g, h);
    match r
    case Leaf(_) => TwinEmit(own, kt, at, g, h, Ran(k));
    case Input(_) => BeginInputTwin(env, own, kt, at, r, g, h);
    case RuleList(_, _) =>
      TwinPut(own, kt, at, g, h, k, ListAt(0));
      var g0, h0 := if k in g.states then g else Put(g, k, ListAt(0)),
          if k in h.states then h else Put(h, k, ListAt(0));
      TwinDrop(own, kt, at, g0, h0, k);
    case ForEach(_, _) =>
      var s := ForEachAt(env.count(k, g.log), 0);
      TwinPut(own, kt, at, g, h, k, s);
      var g0, h0 := if k in g.states then g else Put(g, k, s), if k in h.states then h else Put(h, k, s);
      TwinDrop(own, kt, at, g0, h0, k);
      if g0.states[k].ForEachAt? {
        TwinEmit(own, kt, at, g0, h0, Bound(k, g0.states[k].next));
      }
    case Loop(_, _, _) =>
    case Cases(_, _) =>
  }

  lemma BeginInputTwin(env: Env, own: set<RuleId>, kt: Key, at: int, r: Rule, g: Game, h: Game)
    requires r.Input? && Resumable(own, r) && Twin(own, kt, at, g, h)
    ensures TwinStart(own, kt, at, Begin(env, r, g), Begin(env, r, h))
  {
    var k := KeyOf(r, g);
    assert Owned(own, g.world, k) && SameAt(k, g, h);
    var s := Waiting(env.polls(k, g.log));
    TwinPut(own, kt, at, g, h, k, s);
    TwinEmit(own, kt, at, Put(g, k, s), Put(h, k, s), Asked(k));
    var g0, h0 := if k in g.states then g else Emit(Put(g, k, s), Asked(k)),
        if k in h.states then h else Emit(Put(h, k, s), Asked(k));
    TwinEmit(own, kt, at, g0, h0, Answered(k));
    TwinDrop(own, kt, at, Emit(g0, Answered(k)), Emit(h0, Answered(k)), k);
  }

  lemma BeginBoth(env: Env, own: set<RuleId>, kt: Key, at: int, r: Rule, g: Game, h: Game)
    requires Resumable(own, r) && Twin(own, kt, at, g, h)
    ensures !r.AtMost? && TwinStart(own, kt, at, Begin(env, r, g), Begin(env, r, h))
        && BegunKept(r, true, own, h, Begin(env, r, h))
  {
    BeginTwin(env, own, kt, at, r, g, h);
    BeginKept(env, r, true, own, h);
  }

  lemma RunBegins(env: Env, r: Rule, g: Game, gas: nat)
    requires !r.AtMost? && gas > 0
    ensures Run(env, r, g, gas) == Continue(env, r, Begin(env, r, g), gas - 1)
  {}

  // A turn of a rule under a timer and the same turn without it: the same rules unwind, and those for which
  // the timer rings are not noted.
  lemma {:induction false} RunBoth(env: Env, own: set<RuleId>, kt: Key, at: int, r: Rule, g: Game, h: Game, gas: nat)
    requires Resumable(own, r) && Twin(own, kt, at, g, h)
    ensures BothUnwound(env, own, kt, at, Ids(r), Run(env, r, g, gas), Run(env, r, h, gas))
    decreases gas, 0
  {
    if gas > 0 {
      BeginBoth(env, own, kt, at, r, g, h);
      RunBegins(env, r, g, gas);
      RunBegins(env, r, h, gas);
      ContinueBoth(env, own, kt, at, r, Begin(env, r, g), Begin(env, r, h), h, gas - 1);
    }
  }

  lemma {:induction false} ContinueBoth(env: Env, own: set<RuleId>, kt: Key, at: int, r: Rule, b: Start, c: Start,
      h: Game, gas: nat)
    requires Resumable(own, r) && TwinStart(own, kt, at, b, c) && BegunKept(r, true, own, h, c)
    ensures BothUnwound(env, own, kt, at, Ids(r), Continue(env, r, b, gas), Continue(env, r, c, gas))
    decreases gas, 3
  {
    match b
    case Broken =>
    case Over(_) => TwinUnwound(env, own, kt, at, Ids(r), b.g, c.g);
    case Polls(_) =>
      TwinUnwound(env, own, kt, at, {}, b.g, c.g);
      SettleUnwound(env, own, kt, at, {}, r, b.g, c.g, gas);
    case Works(child, _) => SubBoth(env, own, kt, at, r, child, b.g, c.g, gas);
    case Hands(child, _) =>
      RunBoth(env, own, kt, at, child, b.g, c.g, gas);
      BothWiden(env, own, kt, at, Ids(child), Ids(r), Run(env, child, b.g, gas), Run(env, child, c.g, gas));
  }

  lemma BothWiden(env: Env, own: set<RuleId>, kt: Key, at: int, mine: set<RuleId>, more: set<RuleId>, o: Outcome,
      p: Outcome)
    requires BothUnwound(env, own, kt, at, mine, o, p) && mine <= more
    ensures BothUnwound(env, own, kt, at, more, o, p)
  {
    if o.Done? {
      UnwoundWiden(env, own, kt, at, mine, more, o.g, p.g);
    }
  }

  lemma {:induction false} SubBoth(env: Env, own: set<RuleId>, kt: Key, at: int, r: Rule, child: Rule, g: Game, h: Game,
      gas: nat)
    requires Resumable(own, r) && child in Children(r) && Twin(own, kt, at, g, h)
    ensures BothUnwound(env, own, kt, at, Ids(r), Sub(env, r, child, g, gas), Sub(env, r, child, h, gas))
    decreases gas, 2
  {
    RunBoth(env, own, kt, at, child, g, h, gas);
    var o, p := Run(env, child, g, gas), Run(env, child, h, gas);
    if o.Done? {
      SettleUnwound(env, own, kt, at, Ids(child), r, o.g, p.g, o.gas);
    }
  }

  // A timer about to be run in a branch that has noted nothing in this turn.
  ghost predicate InBranch(r: Rule, own: set<RuleId>, g: Game) {
    && r.AtMost? && WellFormed(r) && Plain(r.body) && Ids(r) <= own
    && UnderParallel(own, g) && LastRun(g) == [] && Timer(r.id) !in g.callbacks
  }

  // When the time of the timer is up.
  ghost function DueAt(env: Env, r: Rule, g: Game): int
    requires r.AtMost?
  {
    env.now(g.ticks) + r.duration
  }

  // What a turn of a timer comes to, next to the turn of its body alone.
  ghost predicate OneTurn(env: Env, r: Rule, g: Game, turn: Game, bare: Game)
    requires r.AtMost?
  {
    && turn.callbacks == bare.callbacks == g.callbacks && turn.world == bare.world == g.world
    && KeyOf(r, g) !in turn.states
    && UnderParallel(Ids(r.body), turn) && UnderParallel(Ids(r.body), bare)
    && AllResumable(Ids(r.body), LastRun(turn))
    && (forall k :: !Owned(Ids(r), g.world, k) && k != Top(g) ==> SameAt(k, g, turn))
    && var n := |LastRun(bare)|;
       && turn.log == bare.log + Answers(env, KeyOf(r, g), DueAt(env, r, g), g.ticks + 1, n)
       && |LastRun(turn)| + Rings(env, DueAt(env, r, g), g.ticks + 1, n) == n
       && (|LastRun(turn)| == n ==> LastRun(turn) == LastRun(bare) && turn.states == bare.states - {KeyOf(r, g)})
  }

  lemma ArmedTwin(env: Env, r: Rule, own: set<RuleId>, g: Game)
    requires InBranch(r, own, g)
    ensures Twin(Ids(r.body), KeyOf(r, g), DueAt(env, r, g), Armed(env, r, g), g)
    ensures Resumable(Ids(r.body), r.body) && UnderParallel(Ids(r.body), g)
  {
    var g0 := Armed(env, r, g);
    assert Front(g0).callbacks == g.callbacks;
    assert !Owned(own, g.world, Top(g)) && Ids(r.body) <= Ids(r);
  }

  // A timer in a branch lasts for one turn. The turn is that of its body, but that every rule that unwinds asks the
  // timer once and is noted to be resumed only if the time is not up; then the timer is gone.
  lemma TimerTurn(env: Env, r: Rule, own: set<RuleId>, g: Game, gas: nat)
    requires InBranch(r, own, g) && gas > 0
    ensures var o, p := Run(env, r, g, gas), Run(env, r.body, g, gas - 1);
            && (o.Done? <==> p.Done?)
            && (o.Done? ==> o.gas == p.gas && OneTurn(env, r, g, o.g, p.g))
  {
    BodyTurn(env, r, own, g, gas - 1);
    RunArmed(env, r, g, gas);
    var o1, p := Run(env, r.body, Armed(env, r, g), gas - 1), Run(env, r.body, g, gas - 1);
    if o1.Done? {
      Disarmed(env, r, own, g, o1.g, p.g);
    }
  }

  lemma BodyTurn(env: Env, r: Rule, own: set<RuleId>, g: Game, gas: nat)
    requires InBranch(r, own, g)
    ensures var o1, p := Run(env, r.body, Armed(env, r, g), gas), Run(env, r.body, g, gas);
            && UnderParallel(Ids(r.body), g) && (p.Done? ==> Kept(true, Ids(r.body), g, p.g))
            && BothUnwound(env, Ids(r.body), KeyOf(r, g), DueAt(env, r, g), Ids(r.body), o1, p)
  {
    ArmedTwin(env, r, own, g);
    RunBoth(env, Ids(r.body), KeyOf(r, g), DueAt(env, r, g), r.body, Armed(env, r, g), g, gas);
    RunKept(env, r.body, true, Ids(r.body), g, gas);
  }

  lemma RunArmed(env: Env, r: Rule, g: Game, gas: nat)
    requires r.AtMost? && gas > 0
    ensures var o1 := Run(env, r.body, Armed(env, r, g), gas - 1);
            Run(env, r, g, gas) ==
              if o1.Stuck? then Stuck
              else Done(Drop(o1.g.(callbacks := Deregister(o1.g.callbacks, Timer(r.id))), KeyOf(r, o1.g)), o1.gas)
  {}

  // The timer is taken away.
  lemma Disarmed(env: Env, r: Rule, own: set<RuleId>, g: Game, g1: Game, bare: Game)
    requires InBranch(r, own, g) && UnderParallel(Ids(r.body), g) && Kept(true, Ids(r.body), g, bare)
    requires Unwound(env, Ids(r.body), KeyOf(r, g), DueAt(env, r, g), Ids(r.body), g1, bare)
    ensures OneTurn(env, r, g, Drop(g1.(callbacks := Deregister(g1.callbacks, Timer(r.id))), KeyOf(r, g1)), bare)
  {
    var mine, kt := Ids(r.body), KeyOf(r, g);
    assert g1.callbacks == g.callbacks + [Timer(r.id)] by {
      assert Front(g1).callbacks == g.callbacks && g1.callbacks[|g1.callbacks| - 1] == Timer(r.id);
    }
    DeregisterLast(g.callbacks, Timer(r.id));
    var turn := Drop(g1.(callbacks := g.callbacks), kt);
    assert turn.states == g1.states - {kt} && Top(turn) == Top(g) == Top(bare)
        && turn.states[Top(g)] == g1.states[Top(g)];
    if |LastRun(turn)| == |LastRun(bare)| {
      SameButTimer(kt, turn, g1, bare);
    }
    forall k | !Owned(Ids(r), g.world, k) && k != Top(g) ensures SameAt(k, g, turn) {
      assert !Owned(mine, g.world, k) && k != kt && SameAt(k, g, bare) && SameAt(k, g1, bare);
    }
  }

  lemma SameButTimer(kt: Key, turn: Game, g1: Game, bare: Game)
    requires turn.states == g1.states - {kt} && bare.callbacks != [] && Top(bare) != kt && SameAt(Top(bare), g1, bare)
    requires forall k :: k != kt && k != Top(bare) ==> SameAt(k, g1, bare)
    ensures turn.states == bare.states - {kt}
  {
    forall k ensures SameAt(k, turn, Drop(bare, kt)) {
      assert k != kt ==> SameAt(k, g1, bare);
    }
    SameStates(turn, Drop(bare, kt));
  }

  // The time is up when the i-th rule asks.
  ghost predicate LateAt(env: Env, r: Rule, g: Game, i: nat)
    requires r.AtMost?
  {
    DueAt(env, r, g) <= env.now(g.ticks + 1 + i)
  }

  ghost predicate LateFor(env: Env, r: Rule, g: Game, n: nat)
    requires r.AtMost?
  {
    exists i: nat :: i < n && LateAt(env, r, g, i)
  }

  lemma {:induction false} RingsLate(env: Env, r: Rule, g: Game, n: nat)
    requires r.AtMost?
    ensures Rings(env, DueAt(env, r, g), g.ticks + 1, n) > 0 <==> LateFor(env, r, g, n)
    decreases n
  {
    if n > 0 {
      RingsLate(env, r, g, n - 1);
      var last: nat := n - 1;
      if LateAt(env, r, g, last) {
        assert LateFor(env, r, g, n);
      } else {
        forall i: nat | i < n && LateAt(env, r, g, i) ensures i < n - 1 {
          assert i != last;
        }
        assert LateFor(env, r, g, n) <==> LateFor(env, r, g, n - 1);
      }
    }
  }

  // The timer makes a difference to what is left of the branch exactly if it is late for one of the rules that
  // unwind in its one turn.
  lemma StopsIffLate(env: Env, r: Rule, own: set<RuleId>, g: Game, gas: nat)
    requires InBranch(r, own, g) && gas > 0 && Run(env, r, g, gas).Done?
    ensures var o, p := Run(env, r, g, gas), Run(env, r.body, g, gas - 1);
            && p.Done? && OneTurn(env, r, g, o.g, p.g)
            && (LastRun(o.g) != LastRun(p.g) <==> LateFor(env, r, g, |LastRun(p.g)|))
  {
    TimerTurn(env, r, own, g, gas);
    RingsLate(env, r, g, |LastRun(Run(env, r.body, g, gas - 1).g)|);
  }

  lemma {:induction false} StackAgree(env: Env, stack: seq<Rule>, own: set<RuleId>, vis: Key -> bool, g: Game, h: Game,
      gas: nat)
    requires AllResumable(own, stack) && g.callbacks == [] && h.callbacks == []
    requires Agree(false, own, vis, g, h) && Local(env, vis) && Covers(vis, own, g.world)
    ensures SameOutcome(false, own, vis, RunStack(env, stack, g, gas), RunStack(env, stack, h, gas))
    decreases |stack|
  {
    if stack != [] {
      var r := stack[|stack| - 1];
      assert Resumable(own, r);
      RunAgree(env, r, false, own, vis, g, h, gas);
      var o, p := Run(env, r, g, gas), Run(env, r, h, gas);
      if o.Done? {
        RunKept(env, r, false, own, g, gas);
        StackAgree(env, stack[..|stack| - 1], own, vis, o.g, p.g, o.gas);
      }
    }
  }

  lemma {:induction false} AnswersUnseen(env: Env, kt: Key, at: int, t: nat, n: nat, vis: Key -> bool)
    requires !vis(kt)
    ensures Seen(vis, Answers(env, kt, at, t, n)) == []
    decreases n
  {
    if n > 0 {
      AnswersUnseen(env, kt, at, t, n - 1, vis);
      var a := Answers(env, kt, at, t, n - 1);
      assert Answers(env, kt, at, t, n)[..|a|] == a;
    }
  }

  // The turn's game and that of its body alone look the same to the body.
  lemma TurnAgrees(env: Env, r: Rule, own: set<RuleId>, vis: Key -> bool, g: Game, turn: Game, bare: Game)
    requires InBranch(r, own, g) && OneTurn(env, r, g, turn, bare) && LastRun(turn) == LastRun(bare)
        && !vis(KeyOf(r, g))
    ensures Agree(false, Ids(r.body), vis, Alone(Cleared(turn)), Alone(Cleared(bare)))
  {
    var n, kt := |LastRun(bare)|, KeyOf(r, g);
    var answers := Answers(env, kt, DueAt(env, r, g), g.ticks + 1, n);
    SeenAppend(vis, bare.log, answers);
    AnswersUnseen(env, kt, DueAt(env, r, g), g.ticks + 1, n, vis);
    forall k | Owned(Ids(r.body), g.world, k) ensures SameAt(k, Alone(Cleared(turn)), Alone(Cleared(bare))) {
      assert k != kt && (k in turn.states <==> k in bare.states);
    }
  }

  // Not late in its turn, the timer is as good as absent: the turn and then what it noted do what the body does
  // alone, but for the timer's own answers. However late it gets after the turn, it stops nothing.
  lemma NotLateNotThere(env: Env, r: Rule, own: set<RuleId>, vis: Key -> bool, g: Game, gas: nat)
    requires InBranch(r, own, g) && gas > 0 && Run(env, r, g, gas).Done?
    requires Local(env, vis) && Isolation.Covers(vis, Ids(r.body), g.world) && !vis(KeyOf(r, g))
    ensures var o, p := Run(env, r, g, gas), Run(env, r.body, g, gas - 1);
            && UnderParallel(Ids(r.body), o.g) && p.Done? && UnderParallel(Ids(r.body), p.g)
            && (!LateFor(env, r, g, |LastRun(p.g)|) ==>
                  SameOutcome(false, Ids(r.body), vis,
                    RunStack(env, Reverse(LastRun(o.g)), Alone(Cleared(o.g)), o.gas),
                    Run(env, r.body, Alone(g), gas - 1)))
  {
    StopsIffLate(env, r, own, g, gas);
    TimerTurn(env, r, own, g, gas);
    var o, p := Run(env, r, g, gas), Run(env, r.body, g, gas - 1);
    if !LateFor(env, r, g, |LastRun(p.g)|) {
      RestOfTurn(env, r, own, vis, g, o, gas - 1);
    }
  }

  lemma RestOfTurn(env: Env, r: Rule, own: set<RuleId>, vis: Key -> bool, g: Game, o: Outcome, gas: nat)
    requires InBranch(r, own, g) && Local(env, vis) && Isolation.Covers(vis, Ids(r.body), g.world) && !vis(KeyOf(r, g))
    requires o.Done? && Run(env, r.body, g, gas).Done? && OneTurn(env, r, g, o.g, Run(env, r.body, g, gas).g)
    requires o.gas == Run(env, r.body, g, gas).gas && LastRun(o.g) == LastRun(Run(env, r.body, g, gas).g)
    ensures SameOutcome(false, Ids(r.body), vis,
              RunStack(env, Reverse(LastRun(o.g)), Alone(Cleared(o.g)), o.gas), Run(env, r.body, Alone(g), gas))
  {
    var mine := Ids(r.body);
    ArmedTwin(env, r, own, g);
    Suspend(env, r.body, mine, g, gas);
    var p := Run(env, r.body, g, gas);
    TurnAgrees(env, r, own, vis, g, o.g, p.g);
    ReverseResumable(mine, LastRun(o.g));
    StackAgree(env, Reverse(LastRun(o.g)), mine, vis, Alone(Cleared(o.g)), Alone(Cleared(p.g)), o.gas);
  }

  // No rule that the turn noted asks the timer again.
  lemma NeverAskedAgain(env: Env, r: Rule, own: set<RuleId>, g: Game, gas: nat, q: Rule, h: Game, n: nat)
    requires InBranch(r, own, g) && gas > 0 && Run(env, r, g, gas).Done?
    requires UnderParallel(Ids(r.body), h) && h.world == g.world
    ensures UnderParallel(Ids(r.body), Run(env, r, g, gas).g)
    ensures var o := Run(env, q, h, n);
            q in LastRun(Run(env, r, g, gas).g) && o.Done? ==>
              h.log <= o.g.log && forall j :: |h.log| <= j < |o.g.log| ==> o.g.log[j].key != KeyOf(r, g)
  {
    TimerTurn(env, r, own, g, gas);
    NotedAsksOthers(env, r, LastRun(Run(env, r, g, gas).g), q, h, n);
  }

  lemma NotedAsksOthers(env: Env, r: Rule, noted: seq<Rule>, q: Rule, h: Game, n: nat)
    requires r.AtMost? && r.id !in Ids(r.body) && AllResumable(Ids(r.body), noted) && UnderParallel(Ids(r.body), h)
    ensures var o := Run(env, q, h, n);
            q in noted && o.Done? ==>
              h.log <= o.g.log && forall j :: |h.log| <= j < |o.g.log| ==> o.g.log[j].key != KeyOf(r, h)
  {
    var o := Run(env, q, h, n);
    if q in noted && o.Done? {
      var i :| 0 <= i < |noted| && noted[i] == q;
      assert Resumable(Ids(r.body), noted[i]);
      RunKept(env, q, true, Ids(r.body), h, n);
      forall j | |h.log| <= j < |o.g.log| ensures o.g.log[j].key != KeyOf(r, h) {
        assert o.g.log[j] == o.g.log[|h.log|..][j - |h.log|];
      }
    }
  }
}
