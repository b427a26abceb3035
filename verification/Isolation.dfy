// What a rule can touch and what it can depend on: its own keys and its own history.
module Isolation {
  import opened Rules

  ghost predicate Owned(own: set<RuleId>, world: nat, k: Key) {
    k.world == world && k.id in own
  }

  ghost function Top(g: Game): Key
    requires g.callbacks != []
  {
    CallbackKey(g.callbacks[|g.callbacks| - 1], g.world)
  }

  // The innermost callback is a parallel rule, which keeps its record outside the owned keys.
  ghost predicate UnderParallel(own: set<RuleId>, g: Game) {
    && g.callbacks != []
    && !g.callbacks[|g.callbacks| - 1].Timer?
    && !Owned(own, g.world, Top(g))
    && Top(g) in g.states && g.states[Top(g)].Branches?
  }

  // The two surroundings a branch is compared in: no callbacks at all, or a parallel rule.
  ghost predicate Mode(parallel: bool, own: set<RuleId>, g: Game) {
    if parallel then UnderParallel(own, g) else g.callbacks == []
  }

  ghost function LastRun(g: Game): seq<Rule>
    requires g.callbacks != [] && Top(g) in g.states && g.states[Top(g)].Branches?
  {
    g.states[Top(g)].lastRun
  }

  ghost predicate SameAt(k: Key, g: Game, h: Game) {
    (k in g.states <==> k in h.states) && (k in g.states ==> g.states[k] == h.states[k])
  }

  ghost predicate OwnEvents(own: set<RuleId>, world: nat, log: Log) {
    forall i :: 0 <= i < |log| ==> Owned(own, world, log[i].key)
  }

  // A rule that the parallel rule may be asked to resume for a branch with these ids.
  ghost predicate Resumable(own: set<RuleId>, r: Rule) {
    WellFormed(r) && Plain(r) && Ids(r) <= own
  }

  ghost predicate AllResumable(own: set<RuleId>, rs: seq<Rule>) {
    forall i :: 0 <= i < |rs| ==> Resumable(own, rs[i])
  }

  // From g to h only owned states and, under a parallel rule, its record have changed, and only
  // owned events have happened.
  ghost predicate Kept(parallel: bool, own: set<RuleId>, g: Game, h: Game) {
    && h.callbacks == g.callbacks && h.world == g.world && h.ticks == g.ticks
    && g.log <= h.log && OwnEvents(own, g.world, h.log[|g.log|..])
    && (forall k :: !Owned(own, g.world, k) && !(parallel && g.callbacks != [] && k == Top(g)) ==> SameAt(k, g, h))
    && (parallel && UnderParallel(own, g) ==>
          && UnderParallel(own, h)
          && LastRun(g) <= LastRun(h)
          && AllResumable(own, LastRun(h)[|LastRun(g)|..]))
  }

  lemma KeptTrans(parallel: bool, own: set<RuleId>, g: Game, h: Game, i: Game)
    requires Kept(parallel, own, g, h) && Kept(parallel, own, h, i)
    requires parallel ==> UnderParallel(own, g)
    ensures Kept(parallel, own, g, i)
  {
    assert i.log[|g.log|..] == h.log[|g.log|..] + i.log[|h.log|..];
    if parallel {
      assert LastRun(i)[|LastRun(g)|..] == LastRun(h)[|LastRun(g)|..] + LastRun(i)[|LastRun(h)|..];
    }
  }

  lemma CheckAlone(env: Env, g: Game, who: Rule)
    requires g.callbacks == []
    ensures Check(env, g, who) == Verdict(g, false, false)
  {}

  // The parallel rule answers first: it notes the caller, who stops and will be resumed.
  lemma CheckParallel(env: Env, own: set<RuleId>, g: Game, who: Rule)
    requires UnderParallel(own, g)
    ensures Check(env, g, who) == Verdict(Put(g, Top(g), Branches(LastRun(g) + [who])), true, true)
  {}

  // Stepping on reads and writes nothing but the rule's own program counter.
  lemma AdvanceLike(r: Rule, g: Game, h: Game)
    requires HasSpot(r, g) && g.world == h.world && SameAt(KeyOf(r, g), g, h)
    ensures HasSpot(r, h)
    ensures (Advance(r, g) == g && Advance(r, h) == h) ||
            (KeyOf(r, g) in Advance(r, g).states &&
             var s := Advance(r, g).states[KeyOf(r, g)];
             Advance(r, g) == Put(g, KeyOf(r, g), s) && Advance(r, h) == Put(h, KeyOf(r, g), s))
  {}

  // Under a parallel rule a rule always stops after one step, noted and stepped on.
  lemma SettleParallel(env: Env, own: set<RuleId>, r: Rule, g: Game, gas: nat)
    requires UnderParallel(own, g) && r.id in own
    ensures !HasSpot(r, g) ==> Settle(env, r, g, gas) == Stuck
    ensures HasSpot(r, g) ==>
            && Settle(env, r, g, gas) == Done(Put(Advance(r, g), Top(g), Branches(LastRun(g) + [r])), gas)
            && UnderParallel(own, Settle(env, r, g, gas).g)
            && LastRun(Settle(env, r, g, gas).g) == LastRun(g) + [r]
            && Top(Settle(env, r, g, gas).g) == Top(g)
  {
    CheckParallel(env, own, g, r);
    var g1 := Put(g, Top(g), Branches(LastRun(g) + [r]));
    assert Owned(own, g.world, KeyOf(r, g)) && SameAt(KeyOf(r, g), g, g1);
    if HasSpot(r, g) {
      AdvanceLike(r, g, g1);
    } else if HasSpot(r, g1) {
      AdvanceLike(r, g1, g);
    }
  }

  // What the first steps of a call can do.
  ghost predicate BegunKept(r: Rule, parallel: bool, own: set<RuleId>, g: Game, b: Start) {
    !b.Broken? ==>
      && Kept(parallel, own, g, b.g) && Mode(parallel, own, b.g)
      && (parallel ==> UnderParallel(own, g) && Top(b.g) == Top(g) && LastRun(b.g) == LastRun(g))
      && (b.Works? || b.Hands? ==> b.child in Children(r))
      && (b.Polls? || b.Works? ==> HasSpot(r, b.g) && !r.Cases?)
  }

  // Nothing but the state at k has changed, and only events of k have happened.
  ghost predicate Touches(k: Key, g: Game, h: Game) {
    && h.callbacks == g.callbacks && h.world == g.world && h.ticks == g.ticks && g.log <= h.log
    && (forall i :: |g.log| <= i < |h.log| ==> h.log[i].key == k && !h.log[i].Checked?)
    && (forall q :: q != k ==> SameAt(q, g, h))
  }

  lemma BeginTouches(env: Env, r: Rule, g: Game)
    requires !r.AtMost?
    ensures var b := Begin(env, r, g);
            !b.Broken? ==>
              && Touches(KeyOf(r, g), g, b.g)
              && (b.Works? || b.Hands? ==> b.child in Children(r))
              && (b.Polls? || b.Works? ==> HasSpot(r, b.g) && !r.Cases?)
  {}

  lemma TouchesKept(parallel: bool, own: set<RuleId>, k: Key, g: Game, h: Game)
    requires Mode(parallel, own, g) && Owned(own, g.world, k) && Touches(k, g, h)
    ensures Kept(parallel, own, g, h) && Mode(parallel, own, h)
    ensures parallel ==> Top(h) == Top(g) && LastRun(h) == LastRun(g)
  {
    if parallel {
      assert SameAt(Top(g), g, h);
    }
  }

  lemma BeginKept(env: Env, r: Rule, parallel: bool, own: set<RuleId>, g: Game)
    requires Resumable(own, r) && Mode(parallel, own, g)
    ensures BegunKept(r, parallel, own, g, Begin(env, r, g))
  {
    BeginTouches(env, r, g);
    if !Begin(env, r, g).Broken? {
      TouchesKept(parallel, own, KeyOf(r, g), g, Begin(env, r, g).g);
    }
  }

  // A call of run keeps everything but the rule's own keys and events.
  lemma {:induction false} RunKept(env: Env, r: Rule, parallel: bool, own: set<RuleId>, g: Game, gas: nat)
    requires Resumable(own, r) && Mode(parallel, own, g)
    ensures var o := Run(env, r, g, gas); o.Done? ==> Kept(parallel, own, g, o.g)
    decreases gas, 0
  {
    if gas > 0 {
      BeginKept(env, r, parallel, own, g);
      ContinueKept(env, r, parallel, own, g, Begin(env, r, g), gas - 1);
    }
  }

  lemma {:induction false} ContinueKept(env: Env, r: Rule, parallel: bool, own: set<RuleId>, g: Game, b: Start,
      gas: nat)
    requires Resumable(own, r) && Mode(parallel, own, g) && BegunKept(r, parallel, own, g, b)
    ensures var o := Continue(env, r, b, gas); o.Done? ==> Kept(parallel, own, g, o.g)
    decreases gas, 3
  {
    match b
    case Broken =>
    case Over(_) =>
    case Polls(_) => SettledKept(env, r, parallel, own, b.g, gas);
    case Works(child, _) => SubKept(env, r, child, parallel, own, b.g, gas);
    case Hands(child, _) => RunKept(env, child, parallel, own, b.g, gas);
    var o := Continue(env, r, b, gas);
    if o.Done? {
      KeptTrans(parallel, own, g, b.g, o.g);
    }
  }

  lemma {:induction false} SubKept(env: Env, r: Rule, child: Rule, parallel: bool, own: set<RuleId>, g: Game, gas: nat)
    requires Resumable(own, r) && child in Children(r) && Mode(parallel, own, g)
    ensures var o := Sub(env, r, child, g, gas); o.Done? ==> Kept(parallel, own, g, o.g)
    decreases gas, 2
  {
    RunKept(env, child, parallel, own, g, gas);
    var o := Run(env, child, g, gas);
    if o.Done? && Sub(env, r, child, g, gas).Done? {
      SettledKept(env, r, parallel, own, o.g, o.gas);
      KeptTrans(parallel, own, g, o.g, Sub(env, r, child, g, gas).g);
    }
  }

  lemma {:induction false} SettledKept(env: Env, r: Rule, parallel: bool, own: set<RuleId>, g: Game, gas: nat)
    requires Resumable(own, r) && Mode(parallel, own, g)
    ensures var o := Settle(env, r, g, gas); o.Done? ==> Kept(parallel, own, g, o.g)
    decreases gas, 1
  {
    if parallel {
      CheckParallel(env, own, g, r);
    } else {
      CheckAlone(env, g, r);
      if HasSpot(r, g) {
        RunKept(env, r, parallel, own, Advance(r, g), gas);
        if Settle(env, r, g, gas).Done? {
          KeptTrans(parallel, own, g, Advance(r, g), Settle(env, r, g, gas).g);
        }
      }
    }
  }

  lemma {:induction false} DeregisterAbsent(cs: seq<Callback>, c: Callback)
    requires forall i :: 0 <= i < |cs| ==> cs[i] != c
    ensures Deregister(cs, c) == cs
    decreases |cs|
  {
    if cs != [] {
      DeregisterAbsent(cs[..|cs| - 1], c);
    }
  }

  // Every entry of the callback goes, and none of any other.
  lemma {:induction false} DeregisterAll(cs: seq<Callback>, c: Callback)
    ensures c !in Deregister(cs, c)
    ensures forall x :: x != c ==> multiset(Deregister(cs, c))[x] == multiset(cs)[x]
    decreases |cs|
  {
    if cs != [] {
      DeregisterAll(cs[..|cs| - 1], c);
      assert cs == cs[..|cs| - 1] + [cs[|cs| - 1]];
    }
  }

  lemma DeregisterLast(cs: seq<Callback>, c: Callback)
    requires c !in cs
    ensures Deregister(cs + [c], c) == cs
  {
    forall i | 0 <= i < |cs| ensures cs[i] != c {
      assert cs[i] in cs;
    }
    DeregisterAbsent(cs, c);
    assert (cs + [c])[..|cs|] == cs;
  }

  // The part of the history that can be seen from the keys of vis.
  ghost function Seen(vis: Key -> bool, log: Log): Log {
    if log == [] then []
    else Seen(vis, log[..|log| - 1]) + if vis(log[|log| - 1].key) then [log[|log| - 1]] else []
  }

  lemma {:induction false} SeenAppend(vis: Key -> bool, a: Log, b: Log)
    ensures Seen(vis, a + b) == Seen(vis, a) + Seen(vis, b)
    decreases |b|
  {
    if b == [] {
      assert a + b == a;
    } else {
      SeenAppend(vis, a, b[..|b| - 1]);
      assert (a + b)[..|a + b| - 1] == a + b[..|b| - 1];
    }
  }

  ghost predicate SameAnswers(env: Env, k: Key, a: Log, b: Log) {
    && env.cond(k, a) == env.cond(k, b)
    && env.count(k, a) == env.count(k, b)
    && env.arm(k, a) == env.arm(k, b)
    && env.polls(k, a) == env.polls(k, b)
  }

  // What the rules of vis read depends only on what the rules of vis have done.
  ghost predicate Local(env: Env, vis: Key -> bool) {
    forall k, a, b {:trigger SameAnswers(env, k, a, b)} ::
      vis(k) && Seen(vis, a) == Seen(vis, b) ==> SameAnswers(env, k, a, b)
  }

  ghost predicate Covers(vis: Key -> bool, own: set<RuleId>, world: nat) {
    forall k :: Owned(own, world, k) ==> vis(k)
  }

  // The rules in own cannot tell g from h.
  ghost predicate Agree(parallel: bool, own: set<RuleId>, vis: Key -> bool, g: Game, h: Game) {
    && g.world == h.world
    && (forall k :: Owned(own, g.world, k) ==> SameAt(k, g, h))
    && Seen(vis, g.log) == Seen(vis, h.log)
    && (parallel && UnderParallel(own, g) && UnderParallel(own, h) ==> LastRun(g) == LastRun(h))
  }

  ghost predicate SameOutcome(parallel: bool, own: set<RuleId>, vis: Key -> bool, o: Outcome, p: Outcome) {
    match (o, p)
    case (Stuck, Stuck) => true
    case (Done(g, m), Done(h, n)) => m == n && Agree(parallel, own, vis, g, h) && Mode(parallel, own, g)
        && Mode(parallel, own, h)
    case _ => false
  }

  lemma AgreeEmit(parallel: bool, own: set<RuleId>, vis: Key -> bool, g: Game, h: Game, e: Event)
    requires Agree(parallel, own, vis, g, h) && Mode(parallel, own, g) && Mode(parallel, own, h)
    ensures Agree(parallel, own, vis, Emit(g, e), Emit(h, e)) && Mode(parallel, own, Emit(g, e))
        && Mode(parallel, own, Emit(h, e))
  {
    SeenAppend(vis, g.log, [e]);
    SeenAppend(vis, h.log, [e]);
  }

  lemma AgreePut(parallel: bool, own: set<RuleId>, vis: Key -> bool, g: Game, h: Game, k: Key, s: RuleState)
    requires Agree(parallel, own, vis, g, h) && Mode(parallel, own, g) && Mode(parallel, own, h)
        && Owned(own, g.world, k)
    ensures Agree(parallel, own, vis, Put(g, k, s), Put(h, k, s)) && Mode(parallel, own, Put(g, k, s))
        && Mode(parallel, own, Put(h, k, s))
  {}

  lemma AgreeDrop(parallel: bool, own: set<RuleId>, vis: Key -> bool, g: Game, h: Game, k: Key)
    requires Agree(parallel, own, vis, g, h) && Mode(parallel, own, g) && Mode(parallel, own, h)
        && Owned(own, g.world, k)
    ensures Agree(parallel, own, vis, Drop(g, k), Drop(h, k)) && Mode(parallel, own, Drop(g, k))
        && Mode(parallel, own, Drop(h, k))
  {}

  // The facts a comparison of two runs starts from.
  ghost predicate Comparable(env: Env, r: Rule, parallel: bool, own: set<RuleId>, vis: Key -> bool, g: Game, h: Game) {
    && Resumable(own, r) && Mode(parallel, own, g) && Mode(parallel, own, h)
    && Agree(parallel, own, vis, g, h)
    && Local(env, vis) && Covers(vis, own, g.world)
  }

  ghost predicate SameStart(parallel: bool, own: set<RuleId>, vis: Key -> bool, b: Start, c: Start) {
    && (b.Broken? <==> c.Broken?) && (b.Over? <==> c.Over?) && (b.Polls? <==> c.Polls?)
    && (b.Works? <==> c.Works?) && (b.Works? || b.Hands? ==> b.child == c.child)
    && (!b.Broken? ==> Agree(parallel, own, vis, b.g, c.g) && Mode(parallel, own, b.g) && Mode(parallel, own, c.g))
  }

  lemma BeginAgree(env: Env, r: Rule, parallel: bool, own: set<RuleId>, vis: Key -> bool, g: Game, h: Game)
    requires Comparable(env, r, parallel, own, vis, g, h)
    ensures SameStart(parallel, own, vis, Begin(env, r, g), Begin(env, r, h))
  {
    var k := KeyOf(r, g);
    assert Owned(own, g.world, k) && SameAt(k, g, h) && SameAnswers(env, k, g.log, h.log);
    match r
    case Leaf(_) => AgreeEmit(parallel, own, vis, g, h, Ran(k));
    case Input(_) => BeginInputAgree(env, r, parallel, own, vis, g, h);
    case RuleList(_, _) =>
      AgreePut(parallel, own, vis, g, h, k, ListAt(0));
      var g0, h0 := if k in g.states then g else Put(g, k, ListAt(0)),
          if k in h.states then h else Put(h, k, ListAt(0));
      AgreeDrop(parallel, own, vis, g0, h0, k);
    case ForEach(_, _) =>
      var s := ForEachAt(env.count(k, g.log), 0);
      AgreePut(parallel, own, vis, g, h, k, s);
      var g0, h0 := if k in g.states then g else Put(g, k, s), if k in h.states then h else Put(h, k, s);
      AgreeDrop(parallel, own, vis, g0, h0, k);
      if g0.states[k].ForEachAt? {
        AgreeEmit(parallel, own, vis, g0, h0, Bound(k, g0.states[k].next));
      }
    case Loop(_, _, _) =>
    case Cases(_, _) =>
  }

  lemma BeginInputAgree(env: Env, r: Rule, parallel: bool, own: set<RuleId>, vis: Key -> bool, g: Game, h: Game)
    requires r.Input? && Comparable(env, r, parallel, own, vis, g, h)
    ensures SameStart(parallel, own, vis, Begin(env, r, g), Begin(env, r, h))
  {
    var k := KeyOf(r, g);
    assert Owned(own, g.world, k) && SameAt(k, g, h) && SameAnswers(env, k, g.log, h.log);
    if k in g.states {
      PollAgree(env, r, parallel, own, vis, g, h);
    } else {
      var s := Waiting(env.polls(k, g.log));
      AgreePut(parallel, own, vis, g, h, k, s);
      AgreeEmit(parallel, own, vis, Put(g, k, s), Put(h, k, s), Asked(k));
      var g0, h0 := Emit(Put(g, k, s), Asked(k)), Emit(Put(h, k, s), Asked(k));
      PollAgree(env, r, parallel, own, vis, g0, h0);
      PromptFirst(env, r, g);
      PromptFirst(env, r, h);
    }
  }

  lemma PromptFirst(env: Env, r: Rule, g: Game)
    requires r.Input? && KeyOf(r, g) !in g.states
    ensures var k := KeyOf(r, g);
            Begin(env, r, g) == Begin(env, r, Emit(Put(g, k, Waiting(env.polls(k, g.log))), Asked(k)))
  {}

  lemma PollAgree(env: Env, r: Rule, parallel: bool, own: set<RuleId>, vis: Key -> bool, g: Game, h: Game)
    requires r.Input? && Comparable(env, r, parallel, own, vis, g, h) && KeyOf(r, g) in g.states
    ensures SameStart(parallel, own, vis, Begin(env, r, g), Begin(env, r, h))
  {
    var k := KeyOf(r, g);
    assert Owned(own, g.world, k) && SameAt(k, g, h);
    AgreeEmit(parallel, own, vis, g, h, Answered(k));
    AgreeDrop(parallel, own, vis, Emit(g, Answered(k)), Emit(h, Answered(k)), k);
  }

  // Two games that agree on a rule's own keys and visible history give the same run of it.
  lemma {:induction false} RunAgree(env: Env, r: Rule, parallel: bool, own: set<RuleId>, vis: Key -> bool, g: Game,
      h: Game, gas: nat)
    requires Comparable(env, r, parallel, own, vis, g, h)
    ensures SameOutcome(parallel, own, vis, Run(env, r, g, gas), Run(env, r, h, gas))
    decreases gas, 0
  {
    if gas > 0 {
      BeginAgree(env, r, parallel, own, vis, g, h);
      BeginKept(env, r, parallel, own, g);
      ContinueAgree(env, r, parallel, own, vis, Begin(env, r, g), Begin(env, r, h), g, h, gas - 1);
    }
  }

  lemma {:induction false} ContinueAgree(env: Env, r: Rule, parallel: bool, own: set<RuleId>, vis: Key -> bool,
      b: Start, c: Start, g: Game, h: Game, gas: nat)
    requires Comparable(env, r, parallel, own, vis, g, h) && BegunKept(r, parallel, own, g, b)
        && SameStart(parallel, own, vis, b, c)
    ensures SameOutcome(parallel, own, vis, Continue(env, r, b, gas), Continue(env, r, c, gas))
    decreases gas, 3
  {
    match b
    case Broken =>
    case Over(_) =>
    case Polls(_) => SettleAgree(env, r, parallel, own, vis, b.g, c.g, gas);
    case Works(child, _) => SubAgree(env, r, child, parallel, own, vis, b.g, c.g, gas);
    case Hands(child, _) => RunAgree(env, child, parallel, own, vis, b.g, c.g, gas);
  }

  lemma {:induction false} SubAgree(env: Env, r: Rule, child: Rule, parallel: bool, own: set<RuleId>, vis: Key -> bool,
      g: Game, h: Game, gas: nat)
    requires Comparable(env, r, parallel, own, vis, g, h) && child in Children(r)
    ensures SameOutcome(parallel, own, vis, Sub(env, r, child, g, gas), Sub(env, r, child, h, gas))
    decreases gas, 2
  {
    RunAgree(env, child, parallel, own, vis, g, h, gas);
    RunKept(env, child, parallel, own, g, gas);
    var o, p := Run(env, child, g, gas), Run(env, child, h, gas);
    if o.Done? {
      SettleAgree(env, r, parallel, own, vis, o.g, p.g, o.gas);
    }
  }

  lemma {:induction false} SettleAgree(env: Env, r: Rule, parallel: bool, own: set<RuleId>, vis: Key -> bool, g: Game,
      h: Game, gas: nat)
    requires Comparable(env, r, parallel, own, vis, g, h)
    ensures SameOutcome(parallel, own, vis, Settle(env, r, g, gas), Settle(env, r, h, gas))
    decreases gas, 1
  {
    assert Owned(own, g.world, KeyOf(r, g)) && SameAt(KeyOf(r, g), g, h);
    if HasSpot(r, g) {
      AdvanceLike(r, g, h);
      AdvanceAgree(r, parallel, own, vis, g, h);
    } else if HasSpot(r, h) {
      AdvanceLike(r, h, g);
    }
    if parallel {
      SettleParallelAgree(env, r, own, vis, g, h, gas);
    } else {
      CheckAlone(env, g, r);
      CheckAlone(env, h, r);
      if HasSpot(r, g) {
        RunAgree(env, r, parallel, own, vis, Advance(r, g), Advance(r, h), gas);
      }
    }
  }

  lemma SettleParallelAgree(env: Env, r: Rule, own: set<RuleId>, vis: Key -> bool, g: Game, h: Game, gas: nat)
    requires UnderParallel(own, g) && UnderParallel(own, h) && r.id in own && Agree(true, own, vis, g, h)
    requires HasSpot(r, g) <==> HasSpot(r, h)
    requires HasSpot(r, g) ==> Agree(true, own, vis, Advance(r, g), Advance(r, h))
    ensures SameOutcome(true, own, vis, Settle(env, r, g, gas), Settle(env, r, h, gas))
  {
    SettleParallel(env, own, r, g, gas);
    SettleParallel(env, own, r, h, gas);
  }

  lemma AdvanceAgree(r: Rule, parallel: bool, own: set<RuleId>, vis: Key -> bool, g: Game, h: Game)
    requires Agree(parallel, own, vis, g, h) && Mode(parallel, own, g) && Mode(parallel, own, h) && r.id in own
    requires HasSpot(r, g) && HasSpot(r, h)
    ensures Agree(parallel, own, vis, Advance(r, g), Advance(r, h))
    ensures Mode(parallel, own, Advance(r, g)) && Mode(parallel, own, Advance(r, h))
  {
    var k := KeyOf(r, g);
    assert Owned(own, g.world, k) && SameAt(k, g, h);
    AdvanceLike(r, g, h);
    if Advance(r, g) != g {
      AgreePut(parallel, own, vis, g, h, k, Advance(r, g).states[k]);
    }
  }
}
