// Suspension loses nothing: the rules a parallel rule notes while a branch unwinds are exactly
// what is left to run of that branch.
module Coroutine {
  import opened Rules
  import opened Isolation

  function Alone(g: Game): Game { g.(callbacks := []) }

  function Reverse(rs: seq<Rule>): (r: seq<Rule>)
    ensures |r| == |rs|
  {
    if rs == [] then [] else [rs[|rs| - 1]] + Reverse(rs[..|rs| - 1])
  }

  lemma {:induction false} ReverseAt(rs: seq<Rule>, i: nat)
    requires i < |rs|
    ensures Reverse(rs)[i] == rs[|rs| - 1 - i]
    decreases |rs|
  {
    if i > 0 {
      ReverseAt(rs[..|rs| - 1], i - 1);
    }
  }

  lemma ReverseResumable(own: set<RuleId>, rs: seq<Rule>)
    requires AllResumable(own, rs)
    ensures AllResumable(own, Reverse(rs))
  {
    forall i | 0 <= i < |rs| ensures Resumable(own, Reverse(rs)[i]) {
      ReverseAt(rs, i);
    }
  }

  // Runs a stack of rules to the end, the last one first.
  function RunStack(env: Env, stack: seq<Rule>, g: Game, gas: nat): Outcome
    decreases |stack|
  {
    if stack == [] then Done(g, gas)
    else
      match Run(env, stack[|stack| - 1], g, gas)
      case Stuck => Stuck
      case Done(g1, gas1) => RunStack(env, stack[..|stack| - 1], g1, gas1)
  }

  lemma {:induction false} StackAppend(env: Env, a: seq<Rule>, b: seq<Rule>, g: Game, gas: nat)
    ensures RunStack(env, a + b, g, gas) ==
            match RunStack(env, b, g, gas)
            case Stuck => Stuck
            case Done(g1, gas1) => RunStack(env, a, g1, gas1)
    decreases |b|
  {
    if b == [] {
      assert a + b == a;
    } else {
      assert (a + b)[..|a + b| - 1] == a + b[..|b| - 1];
      match Run(env, b[|b| - 1], g, gas)
      case Stuck =>
      case Done(g1, gas1) => StackAppend(env, a, b[..|b| - 1], g1, gas1);
    }
  }

  predicate AllKeys(k: Key) { true }

  lemma {:induction false} SeenAll(log: Log)
    ensures Seen(AllKeys, log) == log
    decreases |log|
  {
    if log != [] {
      SeenAll(log[..|log| - 1]);
    }
  }

  lemma AllLocal(env: Env)
    ensures Local(env, AllKeys)
  {
    forall k, a, b | AllKeys(k) && Seen(AllKeys, a) == Seen(AllKeys, b) ensures SameAnswers(env, k, a, b) {
      SeenAll(a);
      SeenAll(b);
    }
  }

  function PutIn(o: Outcome, k: Key, s: RuleState): Outcome {
    match o
    case Stuck => Stuck
    case Done(g, gas) => Done(Put(g, k, s), gas)
  }

  // A foreign state may be set before or after a run.
  lemma RunPut(env: Env, r: Rule, own: set<RuleId>, g: Game, k: Key, s: RuleState, gas: nat)
    requires Resumable(own, r) && g.callbacks == [] && !Owned(own, g.world, k)
    ensures Run(env, r, Put(g, k, s), gas) == PutIn(Run(env, r, g, gas), k, s)
  {
    var h := Put(g, k, s);
    AllLocal(env);
    RunAgree(env, r, false, own, AllKeys, g, h, gas);
    var o, p := Run(env, r, g, gas), Run(env, r, h, gas);
    if o.Done? {
      RunKept(env, r, false, own, g, gas);
      RunKept(env, r, false, own, h, gas);
      PutAfter(own, g, k, s, o.g, p.g);
    }
  }

  lemma PutAfter(own: set<RuleId>, g: Game, k: Key, s: RuleState, g': Game, h': Game)
    requires !Owned(own, g.world, k) && Kept(false, own, g, g') && Kept(false, own, Put(g, k, s), h')
    requires Agree(false, own, AllKeys, g', h')
    ensures h' == Put(g', k, s)
  {
    SeenAll(g'.log);
    SeenAll(h'.log);
    forall q ensures SameAt(q, h', Put(g', k, s)) {
      if Owned(own, g.world, q) {
        assert SameAt(q, g', h');
      } else {
        assert SameAt(q, g, g') && SameAt(q, Put(g, k, s), h');
      }
    }
    SameStates(h', Put(g', k, s));
  }

  lemma SameStates(g: Game, h: Game)
    requires forall q :: SameAt(q, g, h)
    ensures g.states == h.states
  {
    forall q ensures q in g.states <==> q in h.states { assert SameAt(q, g, h); }
    forall q | q in g.states ensures g.states[q] == h.states[q] { assert SameAt(q, g, h); }
  }

  lemma {:induction false} StackKept(env: Env, stack: seq<Rule>, own: set<RuleId>, g: Game, gas: nat)
    requires AllResumable(own, stack) && g.callbacks == []
    ensures var o := RunStack(env, stack, g, gas); o.Done? ==> Kept(false, own, g, o.g)
    decreases |stack|
  {
    if stack != [] {
      var r := stack[|stack| - 1];
      assert Resumable(own, r);
      RunKept(env, r, false, own, g, gas);
      match Run(env, r, g, gas)
      case Stuck =>
      case Done(g1, gas1) =>
        StackKept(env, stack[..|stack| - 1], own, g1, gas1);
        if RunStack(env, stack, g, gas).Done? {
          KeptTrans(false, own, g, g1, RunStack(env, stack, g, gas).g);
        }
    }
  }

  lemma {:induction false} StackPut(env: Env, stack: seq<Rule>, own: set<RuleId>, g: Game, k: Key, s: RuleState,
      gas: nat)
    requires AllResumable(own, stack) && g.callbacks == [] && !Owned(own, g.world, k)
    ensures RunStack(env, stack, Put(g, k, s), gas) == PutIn(RunStack(env, stack, g, gas), k, s)
    decreases |stack|
  {
    if stack != [] {
      var r := stack[|stack| - 1];
      assert Resumable(own, r);
      RunPut(env, r, own, g, k, s, gas);
      RunKept(env, r, false, own, g, gas);
      match Run(env, r, g, gas)
      case Stuck =>
      case Done(g1, gas1) => StackPut(env, stack[..|stack| - 1], own, g1, k, s, gas1);
    }
  }

  // What is left of a branch after a turn: the noted rules, and the game without the note.
  ghost function Cleared(g: Game): Game
    requires g.callbacks != []
  {
    Put(g, Top(g), Branches([]))
  }

  ghost function Rest(env: Env, own: set<RuleId>, o: Outcome): Outcome
    requires o.Done? ==> UnderParallel(own, o.g)
  {
    match o
    case Stuck => Stuck
    case Done(g, gas) => RunStack(env, Reverse(LastRun(g)), Alone(Cleared(g)), gas)
  }

  ghost predicate Starts(own: set<RuleId>, r: Rule, g: Game) {
    Resumable(own, r) && UnderParallel(own, g) && LastRun(g) == []
  }

  lemma StackOfOne(env: Env, r: Rule, g: Game, gas: nat)
    ensures RunStack(env, Reverse([r]), g, gas) == Run(env, r, g, gas)
  {
    assert Reverse([r]) == [r];
    assert [r][..0] == [];
  }

  // The first steps of a call do not depend on the callbacks.
  lemma BeginAlone(env: Env, r: Rule, g: Game)
    requires !r.AtMost?
    ensures Begin(env, r, Alone(g)) == AloneStart(Begin(env, r, g))
  {}

  // One turn under a parallel rule followed by running what it noted, alone, is the same as
  // running the rule alone: same events, same states, same work.
  lemma {:induction false} Suspend(env: Env, r: Rule, own: set<RuleId>, g: Game, gas: nat)
    requires Starts(own, r, g)
    ensures Run(env, r, g, gas).Done? ==> UnderParallel(own, Run(env, r, g, gas).g)
    ensures Run(env, r, Alone(g), gas) == Rest(env, own, Run(env, r, g, gas))
    decreases gas, 0
  {
    if gas > 0 {
      BeginAlone(env, r, g);
      BeginKept(env, r, true, own, g);
      SuspendStart(env, r, own, g, Begin(env, r, g), gas - 1);
    }
  }

  function AloneStart(b: Start): Start {
    match b
    case Broken => Broken
    case Over(h) => Over(Alone(h))
    case Polls(h) => Polls(Alone(h))
    case Works(child, h) => Works(child, Alone(h))
    case Hands(child, h) => Hands(child, Alone(h))
  }

  lemma {:induction false} SuspendStart(env: Env, r: Rule, own: set<RuleId>, g: Game, b: Start, gas: nat)
    requires Starts(own, r, g) && BegunKept(r, true, own, g, b)
    ensures Continue(env, r, b, gas).Done? ==> UnderParallel(own, Continue(env, r, b, gas).g)
    ensures Continue(env, r, AloneStart(b), gas) == Rest(env, own, Continue(env, r, b, gas))
    decreases gas, 3
  {
    match b
    case Broken =>
    case Over(h) => assert Alone(Cleared(h)) == Alone(h);
    case Polls(h) => SuspendPoll(env, r, own, h, gas);
    case Works(child, h) => SuspendSub(env, r, child, own, h, gas);
    case Hands(child, h) => Suspend(env, child, own, h, gas);
  }

  lemma SuspendPoll(env: Env, r: Rule, own: set<RuleId>, g: Game, gas: nat)
    requires Starts(own, r, g) && HasSpot(r, g)
    ensures Settle(env, r, g, gas).Done? && UnderParallel(own, Settle(env, r, g, gas).g)
    ensures Settle(env, r, Alone(g), gas) == Rest(env, own, Settle(env, r, g, gas))
  {
    assert Owned(own, g.world, KeyOf(r, g));
    SettleParallel(env, own, r, g, gas);
    CheckAlone(env, Alone(g), r);
    AdvanceLike(r, g, Alone(g));
    var h := Settle(env, r, g, gas).g;
    assert Alone(Cleared(h)) == Advance(r, Alone(g));
    StackOfOne(env, r, Alone(Cleared(h)), gas);
  }

  // Stepping the parent on before or after its sub-rule's remaining work makes no difference.
  lemma StackAdvance(env: Env, stack: seq<Rule>, own: set<RuleId>, r: Rule, g: Game, gas: nat)
    requires AllResumable(own, stack) && g.callbacks == [] && r.id !in own && HasSpot(r, g)
    ensures var o := RunStack(env, stack, g, gas);
            if o.Stuck? then RunStack(env, stack, Advance(r, g), gas) == Stuck
            else HasSpot(r, o.g) && RunStack(env, stack, Advance(r, g), gas) == Done(Advance(r, o.g), o.gas)
  {
    var k := KeyOf(r, g);
    assert !Owned(own, g.world, k);
    StackKept(env, stack, own, g, gas);
    var o := RunStack(env, stack, g, gas);
    if Advance(r, g) != g {
      AdvanceLike(r, g, g);
      StackPut(env, stack, own, g, k, Advance(r, g).states[k], gas);
    }
    if o.Done? {
      assert SameAt(k, g, o.g);
      AdvanceLike(r, g, o.g);
    }
  }

  lemma {:induction false} SuspendSub(env: Env, r: Rule, child: Rule, own: set<RuleId>, g: Game, gas: nat)
    requires Starts(own, r, g) && child in Children(r) && HasSpot(r, g) && !r.Cases?
    ensures Sub(env, r, child, g, gas).Done? ==> UnderParallel(own, Sub(env, r, child, g, gas).g)
    ensures Sub(env, r, child, Alone(g), gas) == Rest(env, own, Sub(env, r, child, g, gas))
    decreases gas, 2
  {
    SubKept(env, r, child, true, own, g, gas);
    var mine := Ids(child);
    Suspend(env, child, mine, g, gas);
    RunKept(env, child, true, mine, g, gas);
    match Run(env, child, g, gas)
    case Stuck =>
    case Done(g1, gas1) => SettleSuspended(env, r, mine, own, g, g1, gas1);
  }

  lemma StackThen(env: Env, r: Rule, stack: seq<Rule>, mine: set<RuleId>, g: Game, gas: nat)
    requires AllResumable(mine, stack) && g.callbacks == [] && r.id !in mine && HasSpot(r, g)
    ensures var o := RunStack(env, stack, g, gas);
            o.Done? ==> HasSpot(r, o.g) && Settle(env, r, o.g, o.gas) == RunStack(env, [r], Advance(r, o.g), o.gas)
  {
    StackAdvance(env, stack, mine, r, g, gas);
    match RunStack(env, stack, g, gas)
    case Stuck =>
    case Done(h, n) =>
      StackKept(env, stack, mine, g, gas);
      CheckAlone(env, h, r);
      StackOfOne(env, r, Advance(r, h), n);
  }

  // The parent is noted behind its sub-rule and stepped on.
  lemma SettledNote(env: Env, r: Rule, mine: set<RuleId>, own: set<RuleId>, g: Game, g1: Game, gas1: nat)
    requires Starts(own, r, g) && HasSpot(r, g) && r.id !in mine && mine <= own
    requires Kept(true, mine, g, g1) && UnderParallel(mine, g)
    ensures HasSpot(r, Alone(Cleared(g1))) && AllResumable(mine, LastRun(g1))
    ensures var o := Settle(env, r, g1, gas1);
            && o.Done? && o.gas == gas1 && UnderParallel(own, o.g) && LastRun(o.g) == LastRun(g1) + [r]
            && Alone(Cleared(o.g)) == Advance(r, Alone(Cleared(g1)))
  {
    var k := KeyOf(r, g);
    assert !Owned(mine, g.world, k) && Owned(own, g.world, k) && SameAt(k, g, g1);
    AdvanceLike(r, g, g1);
    SettleParallel(env, own, r, g1, gas1);
    var rest := Alone(Cleared(g1));
    AdvanceLike(r, g, rest);
    AdvanceLike(r, g1, rest);
  }

  // What is left after the parent has been noted is what is left of the sub-rule, and then the parent.
  lemma StackNoted(env: Env, r: Rule, mine: set<RuleId>, noted: seq<Rule>, g: Game, gas: nat)
    requires AllResumable(mine, noted) && g.callbacks == [] && r.id !in mine && HasSpot(r, g)
    ensures RunStack(env, Reverse(noted + [r]), Advance(r, g), gas) ==
            match RunStack(env, Reverse(noted), g, gas)
            case Stuck => Stuck
            case Done(g2, gas2) => Settle(env, r, g2, gas2)
  {
    assert Reverse(noted + [r]) == [r] + Reverse(noted) by { assert (noted + [r])[..|noted|] == noted; }
    ReverseResumable(mine, noted);
    StackAdvance(env, Reverse(noted), mine, r, g, gas);
    StackAppend(env, [r], Reverse(noted), Advance(r, g), gas);
    StackThen(env, r, Reverse(noted), mine, g, gas);
  }

  // After the sub-rule has been suspended, its parent is suspended behind it.
  lemma SettleSuspended(env: Env, r: Rule, mine: set<RuleId>, own: set<RuleId>, g: Game, g1: Game, gas1: nat)
    requires Starts(own, r, g) && HasSpot(r, g) && r.id !in mine && mine <= own
    requires Kept(true, mine, g, g1) && UnderParallel(mine, g)
    ensures Settle(env, r, g1, gas1).Done? && UnderParallel(own, Settle(env, r, g1, gas1).g)
    ensures Rest(env, own, Settle(env, r, g1, gas1)) ==
            match RunStack(env, Reverse(LastRun(g1)), Alone(Cleared(g1)), gas1)
            case Stuck => Stuck
            case Done(g2, gas2) => Settle(env, r, g2, gas2)
  {
    SettledNote(env, r, mine, own, g, g1, gas1);
    StackNoted(env, r, mine, LastRun(g1), Alone(Cleared(g1)), gas1);
  }
}
