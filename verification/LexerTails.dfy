// Actions that are run where they stand in a token, and stand where no rule consumes anything more.
module LexerTails {
  import opened LexerAtn

  // What is left to do in a state of the tail stays in the tail and consumes nothing.
  predicate StaysIn(tail: set<nat>, t: Transition) {
    !Consuming(t) && t.target in tail && (t.Rule? ==> t.follow in tail)
  }

  // A set of states in which nothing is consumed any more, and that every action which depends on the position
  // leads into.
  ghost predicate Tail(a: Atn, tail: set<nat>) {
    && (forall s: nat, t :: s in tail && t in At(a, s).transitions ==> StaysIn(tail, t))
    && (forall s: nat, t :: t in At(a, s).transitions && t.Act? && Dependent(a, t.action) ==> t.target in tail)
  }

  // No rule consumes a character after an action that depends on the position.
  ghost predicate TailActions(a: Atn) { exists tail :: Tail(a, tail) }

  ghost function TailOf(a: Atn): (tail: set<nat>)
    ensures TailActions(a) ==> Tail(a, tail)
  {
    if TailActions(a) then var tail :| Tail(a, tail); tail else {}
  }

  // Without such actions the tail is empty.
  predicate PositionFree(a: Atn) { forall i :: 0 <= i < |a.actions| ==> !a.actions[i].positionDependent }

  lemma PositionFreeTail(a: Atn)
    requires PositionFree(a)
    ensures TailActions(a)
  {
    assert Tail(a, {});
  }

  // Nothing of the actions gathered waits for its offset.
  predicate Settled(a: Atn, steps: seq<Step>) {
    forall i :: 0 <= i < |steps| ==> !(Dependent(a, steps[i].action) && steps[i].offset == UNFIXED)
  }

  // A configuration whose actions wait for an offset is in the tail with all that it returns to.
  ghost predicate Waits(a: Atn, c: Config) {
    Settled(a, c.steps) || (c.state in TailOf(a) && forall s :: s in c.context ==> s in TailOf(a))
  }

  ghost predicate AllWait(a: Atn, cs: seq<Config>) { forall i :: 0 <= i < |cs| ==> Waits(a, cs[i]) }

  lemma FixedSame(a: Atn, steps: seq<Step>, offset: int)
    requires Settled(a, steps)
    ensures Fixed(a, steps, offset) == steps
  {}

  // A configuration that can consume a character has nothing waiting.
  lemma ConsumesSettled(a: Atn, c: Config, t: Transition, symbol: int)
    requires TailActions(a) && Waits(a, c) && t in At(a, c.state).transitions && Matches(t, symbol)
    ensures Settled(a, c.steps)
  {
    assert Consuming(t);
    assert c.state in TailOf(a) ==> StaysIn(TailOf(a), t);
  }

  lemma EpsilonWaits(a: Atn, o: Oracle, i: nat, c: Config, t: Transition, speculative: bool, eof: bool)
    requires TailActions(a) && Waits(a, c) && t in At(a, c.state).transitions
    ensures var next := EpsilonTarget(a, o, i, c, t, speculative, eof); next.Some? ==> Waits(a, next.value)
  {
    var next, tail := EpsilonTarget(a, o, i, c, t, speculative, eof), TailOf(a);
    if next.Some? && !Settled(a, next.value.steps) {
      if Settled(a, c.steps) {
        assert t.Act? && c.context == [];
        assert Dependent(a, t.action);
      } else {
        assert StaysIn(tail, t);
      }
    }
  }

  lemma {:induction false} ClosureWaits(a: Atn, o: Oracle, i: nat, c: Config, r: Closed, speculative: bool, eof: bool,
      depth: nat)
    requires TailActions(a) && Waits(a, c) && (r.Closed? ==> AllWait(a, r.configs))
    ensures var u := Closure(a, o, i, c, r, speculative, eof, depth); u.Closed? ==> AllWait(a, u.configs)
    decreases depth, 0
  {
    if r.Stuck? || depth == 0 {
    } else if At(a, c.state).stop {
      if c.context != [] {
        assert Waits(a, Popped(a, c));
        ClosureWaits(a, o, i, Popped(a, c), r, speculative, eof, depth - 1);
      }
    } else {
      var keep := !At(a, c.state).epsilonOnly && (!r.accepted || !c.nonGreedy);
      var first := if keep then Closed(Added(r.configs, c), r.accepted, r.asked) else r;
      ClosuresWait(a, o, i, c, At(a, c.state).transitions, first, speculative, eof, depth - 1);
    }
  }

  lemma {:induction false} ClosuresWait(a: Atn, o: Oracle, i: nat, c: Config, ts: seq<Transition>, r: Closed,
      speculative: bool, eof: bool, depth: nat)
    requires TailActions(a) && Waits(a, c) && (r.Closed? ==> AllWait(a, r.configs)) && ts <= At(a, c.state).transitions
    ensures var u := Closures(a, o, i, c, ts, r, speculative, eof, depth); u.Closed? ==> AllWait(a, u.configs)
    decreases depth, |ts| + 1
  {
    if !r.Stuck? && ts != [] {
      var n := |ts| - 1;
      ClosuresWait(a, o, i, c, ts[..n], r, speculative, eof, depth);
      var before := Closures(a, o, i, c, ts[..n], r, speculative, eof, depth);
      assert ts[n] == At(a, c.state).transitions[n];
      EpsilonWaits(a, o, i, c, ts[n], speculative, eof);
      var next := EpsilonTarget(a, o, i, c, ts[n], speculative, eof);
      if before.Closed? && next.Some? {
        ClosureWaits(a, o, i, next.value, Closed(before.configs, before.accepted, before.asked || ts[n].Predicate?),
            speculative, eof, depth);
      }
    }
  }

  lemma ReachStepWaits(a: Atn, o: Oracle, i: nat, m: int, c: Config, t: Transition, symbol: int, r: Reaching,
      done: bool, depth: nat)
    requires TailActions(a) && Waits(a, c) && t in At(a, c.state).transitions
        && (r.set_.Closed? ==> AllWait(a, r.set_.configs))
    ensures var u := ReachStep(a, o, i, m, c, t, symbol, r, done, depth).0.set_; u.Closed? ==> AllWait(a, u.configs)
  {
    if !(done || r.set_.Stuck? || !Matches(t, symbol)) {
      ConsumesSettled(a, c, t, symbol);
      FixedSame(a, c.steps, m);
      var next := Moved(a, Config(c.state, c.alt, c.context, Fixed(a, c.steps, m), c.nonGreedy), t.target);
      ClosureWaits(a, o, i, next, Closed(r.set_.configs, c.alt == r.skipAlt, r.set_.asked), true, symbol == EOF, depth);
    }
  }

  lemma {:induction false} ReachStepsWait(a: Atn, o: Oracle, i: nat, m: int, c: Config, ts: seq<Transition>,
      symbol: int, r: Reaching, depth: nat)
    requires TailActions(a) && Waits(a, c) && ts <= At(a, c.state).transitions
        && (r.set_.Closed? ==> AllWait(a, r.set_.configs))
    ensures var u := ReachSteps(a, o, i, m, c, ts, symbol, r, depth).0.set_; u.Closed? ==> AllWait(a, u.configs)
    decreases |ts|
  {
    if ts != [] {
      var n := |ts| - 1;
      ReachStepsWait(a, o, i, m, c, ts[..n], symbol, r, depth);
      var (before, done) := ReachSteps(a, o, i, m, c, ts[..n], symbol, r, depth);
      assert ts[n] == At(a, c.state).transitions[n];
      ReachStepWaits(a, o, i, m, c, ts[n], symbol, before, done, depth);
    }
  }

  // Configurations that wait for their offset stay in the tail.
  lemma {:induction false} ReachWaits(a: Atn, o: Oracle, i: nat, m: int, cs: seq<Config>, symbol: int, depth: nat)
    requires TailActions(a) && AllWait(a, cs)
    ensures var u := ReachAll(a, o, i, m, cs, symbol, depth).set_; u.Closed? ==> AllWait(a, u.configs)
    decreases |cs|
  {
    if cs != [] {
      var c := cs[|cs| - 1];
      ReachWaits(a, o, i, m, cs[..|cs| - 1], symbol, depth);
      ReachStepsWait(a, o, i, m, c, At(a, c.state).transitions, symbol,
          ReachAll(a, o, i, m, cs[..|cs| - 1], symbol, depth), depth);
    }
  }

  lemma {:induction false} StartsWait(a: Atn, o: Oracle, i: nat, ts: seq<Transition>, depth: nat)
    requires TailActions(a)
    ensures var u := Starts(a, o, i, ts, depth); u.Closed? ==> AllWait(a, u.configs)
    decreases |ts|
  {
    if ts != [] {
      StartsWait(a, o, i, ts[..|ts| - 1], depth);
      var before := Starts(a, o, i, ts[..|ts| - 1], depth);
      if before.Closed? {
        ClosureWaits(a, o, i, Config(ts[|ts| - 1].target, |ts|, [], [], false),
            Closed(before.configs, false, before.asked), false, false, depth);
      }
    }
  }
}
