// What stored edges cannot change, in any network: but for the offsets of its actions, a match gives what it gives
// with nothing stored.
module LexerErased {
  import opened LexerAtn
  import opened LexerRun
  import opened LexerTails
  import opened LexerCache
  import opened LexerSets

  // The network with no action that takes an offset.
  function Bare(a: Atn): Atn { Atn(a.states, [], a.ruleToTokenType, a.modeToStartState) }

  lemma BareTails(a: Atn, cs: seq<Config>)
    ensures TailActions(Bare(a)) && AllWait(Bare(a), cs)
  {
    PositionFreeTail(Bare(a));
  }

  // Configurations without their offsets; those that are then the same stand in the set once, where the first did.
  function Plain(steps: seq<Step>): (r: seq<Step>)
    ensures |r| == |steps|
  {
    seq(|steps|, i requires 0 <= i < |steps| => Step(steps[i].action, UNFIXED))
  }

  function PlainConfig(c: Config): Config { Config(c.state, c.alt, c.context, Plain(c.steps), c.nonGreedy) }

  function PlainSet(cs: seq<Config>): seq<Config> {
    if cs == [] then [] else Added(PlainSet(cs[..|cs| - 1]), PlainConfig(cs[|cs| - 1]))
  }

  function PlainClosed(r: Closed): Closed {
    match r
    case Stuck => Closed.Stuck
    case Closed(configs, accepted, asked) => Closed(PlainSet(configs), accepted, asked)
  }

  function PlainOption(c: Option<Config>): Option<Config> {
    match c
    case None => None
    case Some(value) => Some(PlainConfig(value))
  }

  function BareSetting(s: Setting): Setting { Setting(Bare(s.atn), s.oracle, s.index, s.speculative, s.eof) }

  lemma {:induction false} PlainMember(cs: seq<Config>, c: Config)
    requires c in cs
    ensures PlainConfig(c) in PlainSet(cs)
    decreases |cs|
  {
    if c != cs[|cs| - 1] {
      assert c in cs[..|cs| - 1];
      PlainMember(cs[..|cs| - 1], c);
    }
  }

  lemma PlainAdded(cs: seq<Config>, c: Config)
    ensures PlainSet(Added(cs, c)) == Added(PlainSet(cs), PlainConfig(c))
  {
    if c in cs {
      PlainMember(cs, c);
    } else {
      assert (cs + [c])[..|cs|] == cs;
    }
  }

  lemma {:induction false} PlainOrdered(cs: seq<Config>, m: nat)
    requires Ordered(cs, m)
    ensures Ordered(PlainSet(cs), m)
    ensures cs != [] ==> Ordered(PlainSet(cs), cs[|cs| - 1].alt)
    decreases |cs|
  {
    if cs != [] {
      PlainOrdered(cs[..|cs| - 1], cs[|cs| - 1].alt);
    }
  }

  lemma EpsilonPlain(s: Setting, c: Config, t: Transition)
    ensures EpsilonTarget(Bare(s.atn), s.oracle, s.index, PlainConfig(c), t, s.speculative, s.eof)
        == PlainOption(EpsilonTarget(s.atn, s.oracle, s.index, c, t, s.speculative, s.eof))
  {
    if t.Act? {
      assert Plain(c.steps + [Step(t.action, UNFIXED)]) == Plain(c.steps) + [Step(t.action, UNFIXED)];
    }
  }

  lemma PoppedPlain(a: Atn, c: Config)
    requires c.context != []
    ensures Popped(Bare(a), PlainConfig(c)) == PlainConfig(Popped(a, c))
  {}

  lemma KeptPlain(s: Setting, c: Config, r: Closed, keep: bool)
    requires r.Closed? && keep == (!At(s.atn, c.state).epsilonOnly && (!r.accepted || !c.nonGreedy))
    ensures PlainClosed(if keep then Closed(Added(r.configs, c), r.accepted, r.asked) else r)
        == if keep then Closed(Added(PlainSet(r.configs), PlainConfig(c)), r.accepted, r.asked) else PlainClosed(r)
  {
    PlainAdded(r.configs, c);
  }

  // A closure takes no notice of offsets.
  lemma {:induction false} ClosurePlain(s: Setting, c: Config, r: Closed, depth: nat)
    ensures ClosureIn(BareSetting(s), PlainConfig(c), PlainClosed(r), depth) == PlainClosed(ClosureIn(s, c, r, depth))
    decreases depth, 0
  {
    if r.Closed? && depth > 0 {
      if At(s.atn, c.state).stop {
        if c.context == [] {
          PlainAdded(r.configs, c);
        } else {
          PoppedPlain(s.atn, c);
          ClosurePlain(s, Popped(s.atn, c), r, depth - 1);
        }
      } else {
        var keep := !At(s.atn, c.state).epsilonOnly && (!r.accepted || !c.nonGreedy);
        var first := if keep then Closed(Added(r.configs, c), r.accepted, r.asked) else r;
        KeptPlain(s, c, r, keep);
        ClosuresPlain(s, c, At(s.atn, c.state).transitions, first, depth - 1);
      }
    }
  }

  lemma {:induction false} ClosuresPlain(s: Setting, c: Config, ts: seq<Transition>, r: Closed, depth: nat)
    ensures ClosuresIn(BareSetting(s), PlainConfig(c), ts, PlainClosed(r), depth)
        == PlainClosed(ClosuresIn(s, c, ts, r, depth))
    decreases depth, |ts| + 1
  {
    if !r.Stuck? && ts != [] {
      var before := ClosuresIn(s, c, ts[..|ts| - 1], r, depth);
      ClosuresPlain(s, c, ts[..|ts| - 1], r, depth);
      StepPlain(s, c, ts[|ts| - 1], before, depth);
    }
  }

  lemma {:induction false} StepPlain(s: Setting, c: Config, t: Transition, r: Closed, depth: nat)
    ensures StepIn(BareSetting(s), PlainConfig(c), t, PlainClosed(r), depth) == PlainClosed(StepIn(s, c, t, r, depth))
    decreases depth, 1
  {
    if !r.Stuck? {
      EpsilonPlain(s, c, t);
      var target := EpsilonTarget(s.atn, s.oracle, s.index, c, t, s.speculative, s.eof);
      if target.Some? {
        ClosurePlain(s, target.value, Closed(r.configs, r.accepted, r.asked || t.Predicate?), depth);
      }
    }
  }

  // A closure once more, on a set that holds all it added the first time and where its alternative was accepted if
  // it was then: nothing is new.
  lemma {:induction false} ClosureAgain(s: Setting, c: Config, r: Closed, q: Closed, depth: nat)
    requires Covers(ClosureIn(s, c, r, depth), q) && r.Closed? && (r.accepted ==> q.accepted)
    ensures Again(ClosureIn(s, c, r, depth), q, ClosureIn(s, c, q, depth))
    decreases depth, 0
  {
    if At(s.atn, c.state).stop {
      if c.context != [] {
        ClosureAgain(s, Popped(s.atn, c), r, q, depth - 1);
      }
    } else {
      var keep := !At(s.atn, c.state).epsilonOnly && (!r.accepted || !c.nonGreedy);
      var first := if keep then Closed(Added(r.configs, c), r.accepted, r.asked) else r;
      ClosuresGrow(s, c, At(s.atn, c.state).transitions, first, depth - 1);
      assert keep ==> c in first.configs;
      assert first.configs <= ClosureIn(s, c, r, depth).configs;
      ClosuresAgain(s, c, At(s.atn, c.state).transitions, first, q, depth - 1);
    }
  }

  // Everything of u is in q.
  ghost predicate Covers(u: Closed, q: Closed) {
    u.Closed? && q.Closed? && (forall d :: d in u.configs ==> d in q.configs) && (u.asked ==> q.asked)
  }

  // v is q again, and its alternative accepted if it was in u or q.
  ghost predicate Again(u: Closed, q: Closed, v: Closed)
    requires u.Closed? && q.Closed?
  {
    v == Closed(q.configs, u.accepted || q.accepted, q.asked)
  }

  lemma {:induction false} ClosuresAgain(s: Setting, c: Config, ts: seq<Transition>, r: Closed, q: Closed, depth: nat)
    requires Covers(ClosuresIn(s, c, ts, r, depth), q) && r.Closed? && (r.accepted ==> q.accepted)
    ensures Again(ClosuresIn(s, c, ts, r, depth), q, ClosuresIn(s, c, ts, q, depth))
    decreases depth, |ts| + 1
  {
    if ts != [] {
      var before, t := ClosuresIn(s, c, ts[..|ts| - 1], r, depth), ts[|ts| - 1];
      StepGrows(s, c, t, before, depth);
      StepKeeps(s, c, t, before, depth);
      ClosuresAgain(s, c, ts[..|ts| - 1], r, q, depth);
      StepAgain(s, c, t, before, ClosuresIn(s, c, ts[..|ts| - 1], q, depth), depth);
    }
  }

  lemma {:induction false} StepAgain(s: Setting, c: Config, t: Transition, r: Closed, q: Closed, depth: nat)
    requires Covers(StepIn(s, c, t, r, depth), q) && r.Closed? && (r.accepted ==> q.accepted)
    ensures Again(StepIn(s, c, t, r, depth), q, StepIn(s, c, t, q, depth))
    decreases depth, 1
  {
    var target := EpsilonTarget(s.atn, s.oracle, s.index, c, t, s.speculative, s.eof);
    var asked := Closed(r.configs, r.accepted, r.asked || t.Predicate?);
    if target.Some? {
      ClosureKeeps(s, target.value, asked, depth);
      ClosureAgain(s, target.value, asked, q, depth);
    }
  }

  // What was accepted or asked stays so.
  ghost predicate Keeps(r: Closed, u: Closed) {
    r.Closed? && u.Closed? ==> (r.accepted ==> u.accepted) && (r.asked ==> u.asked)
  }

  lemma {:induction false} ClosureKeeps(s: Setting, c: Config, r: Closed, depth: nat)
    ensures Keeps(r, ClosureIn(s, c, r, depth))
    decreases depth, 0
  {
    if r.Closed? && depth > 0 {
      if At(s.atn, c.state).stop {
        if c.context != [] {
          ClosureKeeps(s, Popped(s.atn, c), r, depth - 1);
        }
      } else {
        var keep := !At(s.atn, c.state).epsilonOnly && (!r.accepted || !c.nonGreedy);
        var first := if keep then Closed(Added(r.configs, c), r.accepted, r.asked) else r;
        ClosuresKeep(s, c, At(s.atn, c.state).transitions, first, depth - 1);
      }
    }
  }

  lemma {:induction false} ClosuresKeep(s: Setting, c: Config, ts: seq<Transition>, r: Closed, depth: nat)
    ensures Keeps(r, ClosuresIn(s, c, ts, r, depth))
    decreases depth, |ts| + 1
  {
    if !r.Stuck? && ts != [] {
      ClosuresKeep(s, c, ts[..|ts| - 1], r, depth);
      StepKeeps(s, c, ts[|ts| - 1], ClosuresIn(s, c, ts[..|ts| - 1], r, depth), depth);
    }
  }

  lemma {:induction false} StepKeeps(s: Setting, c: Config, t: Transition, r: Closed, depth: nat)
    ensures Keeps(r, StepIn(s, c, t, r, depth))
    decreases depth, 1
  {
    var target := EpsilonTarget(s.atn, s.oracle, s.index, c, t, s.speculative, s.eof);
    if r.Closed? && target.Some? {
      ClosureKeeps(s, target.value, Closed(r.configs, r.accepted, r.asked || t.Predicate?), depth);
    }
  }

  // Where and on what a set is left.
  datatype Place = Place(oracle: Oracle, index: nat, offset: int, symbol: int, depth: nat)

  function Around(a: Atn, p: Place): Setting { Setting(a, p.oracle, p.index, true, p.symbol == LexerAtn.EOF) }

  function Single(a: Atn, p: Place, c: Config, t: Transition, r: Reaching, done: bool): (Reaching, bool) {
    ReachStep(a, p.oracle, p.index, p.offset, c, t, p.symbol, r, done, p.depth)
  }

  function Several(a: Atn, p: Place, c: Config, ts: seq<Transition>, r: Reaching): (Reaching, bool) {
    ReachSteps(a, p.oracle, p.index, p.offset, c, ts, p.symbol, r, p.depth)
  }

  function All(a: Atn, p: Place, cs: seq<Config>): Reaching {
    ReachAll(a, p.oracle, p.index, p.offset, cs, p.symbol, p.depth)
  }

  // What one configuration of a set adds.
  function One(a: Atn, p: Place, c: Config, r: Reaching): Reaching {
    if c.alt == r.skipAlt && c.nonGreedy then r else Several(a, p, c, At(a, c.state).transitions, r).0
  }

  // The same set, whatever the last closure came to.
  predicate Near(r: Reaching, q: Reaching) {
    && r.skipAlt == q.skipAlt && (r.set_.Stuck? <==> q.set_.Stuck?)
    && (r.set_.Closed? ==> r.set_.configs == q.set_.configs && (r.set_.asked <==> q.set_.asked))
  }

  // One is reached after the other: nothing is taken away, and an alternative accepted stays so.
  ghost predicate Later(r: Reaching, u: Reaching, alt: nat) {
    u.set_.Closed? ==> Covers(r.set_, u.set_) && (r.skipAlt == alt ==> u.skipAlt == alt)
  }

  lemma SingleLater(a: Atn, p: Place, c: Config, t: Transition, r: Reaching, done: bool)
    ensures Later(r, Single(a, p, c, t, r, done).0, c.alt)
  {
    if !done && r.set_.Closed? && Matches(t, p.symbol) {
      var next, start := Taken(a, c, t, p.offset), Closed(r.set_.configs, c.alt == r.skipAlt, r.set_.asked);
      var u := ClosureIn(Around(a, p), next, start, p.depth);
      if u.Closed? {
        ClosureGrows(Around(a, p), next, start, p.depth);
        ClosureKeeps(Around(a, p), next, start, p.depth);
        assert start.configs <= u.configs;
      }
    }
  }

  lemma {:induction false} SeveralLater(a: Atn, p: Place, c: Config, ts: seq<Transition>, r: Reaching)
    ensures Later(r, Several(a, p, c, ts, r).0, c.alt)
    decreases |ts|
  {
    if ts != [] {
      var (before, done) := Several(a, p, c, ts[..|ts| - 1], r);
      SeveralLater(a, p, c, ts[..|ts| - 1], r);
      SingleLater(a, p, c, ts[|ts| - 1], before, done);
    }
  }

  lemma OneLater(a: Atn, p: Place, c: Config, r: Reaching)
    ensures Later(r, One(a, p, c, r), c.alt)
  {
    SeveralLater(a, p, c, At(a, c.state).transitions, r);
  }

  lemma {:induction false} AllLater(a: Atn, p: Place, cs: seq<Config>, k: nat, alt: nat)
    requires k <= |cs| && forall j :: k <= j < |cs| ==> cs[j].alt == alt
    ensures Later(All(a, p, cs[..k]), All(a, p, cs), alt)
    decreases |cs|
  {
    if k < |cs| {
      var n := |cs| - 1;
      assert cs[..n][..k] == cs[..k];
      AllLater(a, p, cs[..n], k, alt);
      OneLater(a, p, cs[n], All(a, p, cs[..n]));
      assert All(a, p, cs) == One(a, p, cs[n], All(a, p, cs[..n]));
    } else {
      assert cs[..k] == cs;
    }
  }

  // A configuration's transitions once more, on a set that came later: the same set again.
  lemma {:induction false} SeveralAgain(a: Atn, p: Place, c: Config, ts: seq<Transition>, r: Reaching, q: Reaching)
    requires r.set_.Closed? && q.set_.Closed? && (c.alt == r.skipAlt ==> c.alt == q.skipAlt)
    requires var u := Several(a, p, c, ts, r).0; Covers(u.set_, q.set_) && (c.alt == u.skipAlt ==> c.alt == q.skipAlt)
    ensures Near(Several(a, p, c, ts, q).0, q)
    ensures Several(a, p, c, ts, r).1 ==> Several(a, p, c, ts, q).1
    decreases |ts|
  {
    if ts != [] {
      var n := |ts| - 1;
      var (before, done) := Several(a, p, c, ts[..n], r);
      SingleLater(a, p, c, ts[n], before, done);
      SeveralLater(a, p, c, ts[..n], r);
      SeveralAgain(a, p, c, ts[..n], r, q);
      var (again, done2) := Several(a, p, c, ts[..n], q);
      if !done2 {
        SingleAgain(a, p, c, ts[n], before, again, q);
      }
    }
  }

  lemma SingleAgain(a: Atn, p: Place, c: Config, t: Transition, r: Reaching, q: Reaching, first: Reaching)
    requires r.set_.Closed? && q.set_.Closed? && Near(q, first) && (c.alt == r.skipAlt ==> c.alt == q.skipAlt)
    requires var u := Single(a, p, c, t, r, false).0;
             Covers(u.set_, q.set_) && (c.alt == u.skipAlt ==> c.alt == q.skipAlt)
    ensures Near(Single(a, p, c, t, q, false).0, first)
    ensures Single(a, p, c, t, r, false).1 ==> Single(a, p, c, t, q, false).1
  {
    if Matches(t, p.symbol) {
      var next := Taken(a, c, t, p.offset);
      var start := Closed(r.set_.configs, c.alt == r.skipAlt, r.set_.asked);
      var start2 := Closed(q.set_.configs, c.alt == q.skipAlt, q.set_.asked);
      ClosureKeeps(Around(a, p), next, start, p.depth);
      ClosureAgain(Around(a, p), next, start, start2, p.depth);
    }
  }

  // A configuration that stands in the set already, among those of the last alternative, adds nothing.
  lemma OneAgain(a: Atn, p: Place, cs: seq<Config>, k: nat)
    requires k < |cs| && (forall j :: k <= j < |cs| ==> cs[j].alt == cs[k].alt)
    ensures Near(One(a, p, cs[k], All(a, p, cs)), All(a, p, cs))
  {
    var c, before, all := cs[k], All(a, p, cs[..k]), All(a, p, cs);
    if all.set_.Stuck? {
      SeveralStuck(a, p, c, At(a, c.state).transitions, all);
    } else {
      assert cs[..k + 1][..k] == cs[..k];
      assert All(a, p, cs[..k + 1]) == One(a, p, c, before);
      AllLater(a, p, cs, k, c.alt);
      AllLater(a, p, cs, k + 1, c.alt);
      if !(c.alt == before.skipAlt && c.nonGreedy) {
        SeveralAgain(a, p, c, At(a, c.state).transitions, before, all);
      }
    }
  }

  lemma {:induction false} SeveralStuck(a: Atn, p: Place, c: Config, ts: seq<Transition>, r: Reaching)
    requires r.set_.Stuck?
    ensures Several(a, p, c, ts, r) == (r, false)
    decreases |ts|
  {
    if ts != [] {
      SeveralStuck(a, p, c, ts[..|ts| - 1], r);
    }
  }

  function PlainReaching(r: Reaching): Reaching { Reaching(PlainClosed(r.set_), r.skipAlt) }

  lemma TakenPlain(a: Atn, c: Config, t: Transition, offset: int)
    ensures Taken(Bare(a), PlainConfig(c), t, offset) == PlainConfig(Taken(a, c, t, offset))
  {
    assert Fixed(Bare(a), Plain(c.steps), offset) == Plain(c.steps);
    assert Plain(Fixed(a, c.steps, offset)) == Plain(c.steps);
  }

  lemma SingleTakes(a: Atn, p: Place, c: Config, t: Transition, next: Config, r: Reaching)
    requires r.set_.Closed? && Matches(t, p.symbol) && next == Taken(a, c, t, p.offset)
    ensures var u := ClosureIn(Around(a, p), next, Closed(r.set_.configs, c.alt == r.skipAlt, r.set_.asked), p.depth);
            Single(a, p, c, t, r, false) == if u.Closed? && u.accepted then (Reaching(u, c.alt), true)
            else (Reaching(u, r.skipAlt), false)
  {}

  // Reach sets without their offsets are those of the network without.
  lemma SinglePlain(a: Atn, p: Place, c: Config, t: Transition, r: Reaching, q: Reaching, done: bool)
    requires Near(PlainReaching(r), q)
    ensures var (u, v) := (Single(a, p, c, t, r, done), Single(Bare(a), p, PlainConfig(c), t, q, done));
            Near(PlainReaching(u.0), v.0) && (u.1 <==> v.1)
  {
    if !done && r.set_.Closed? && Matches(t, p.symbol) {
      var next := Taken(a, c, t, p.offset);
      TakenPlain(a, c, t, p.offset);
      SingleTakes(a, p, c, t, next, r);
      SingleTakes(Bare(a), p, PlainConfig(c), t, PlainConfig(next), q);
      ClosurePlain(Around(a, p), next, Closed(r.set_.configs, c.alt == r.skipAlt, r.set_.asked), p.depth);
    }
  }

  lemma {:induction false} SeveralPlain(a: Atn, p: Place, c: Config, ts: seq<Transition>, r: Reaching, q: Reaching)
    requires Near(PlainReaching(r), q)
    ensures var (u, v) := (Several(a, p, c, ts, r), Several(Bare(a), p, PlainConfig(c), ts, q));
            Near(PlainReaching(u.0), v.0) && (u.1 <==> v.1)
    decreases |ts|
  {
    if ts != [] {
      var n := |ts| - 1;
      SeveralPlain(a, p, c, ts[..n], r, q);
      var (before, done) := Several(a, p, c, ts[..n], r);
      SinglePlain(a, p, c, ts[n], before, Several(Bare(a), p, PlainConfig(c), ts[..n], q).0, done);
    }
  }

  lemma OnePlain(a: Atn, p: Place, c: Config, r: Reaching, q: Reaching)
    requires Near(PlainReaching(r), q)
    ensures Near(PlainReaching(One(a, p, c, r)), One(Bare(a), p, PlainConfig(c), q))
  {
    SeveralPlain(a, p, c, At(a, c.state).transitions, r, q);
  }

  // Whether or not a configuration is in the set already, adding it adds what it leads to.
  lemma AddedAll(a: Atn, p: Place, cs: seq<Config>, c: Config)
    requires Ordered(cs, c.alt)
    ensures Near(One(a, p, c, All(a, p, cs)), All(a, p, Added(cs, c)))
  {
    if c in cs {
      var k :| 0 <= k < |cs| && cs[k] == c;
      OneAgain(a, p, cs, k);
    } else {
      assert (cs + [c])[..|cs|] == cs;
    }
  }

  lemma {:induction false} AllPlain(a: Atn, p: Place, cs: seq<Config>, m: nat)
    requires Ordered(cs, m)
    ensures Near(PlainReaching(All(a, p, cs)), All(Bare(a), p, PlainSet(cs)))
    decreases |cs|
  {
    if cs != [] {
      var n := |cs| - 1;
      AllPlain(a, p, cs[..n], m);
      OnePlain(a, p, cs[n], All(a, p, cs[..n]), All(Bare(a), p, PlainSet(cs[..n])));
      PlainOrdered(cs[..n], cs[n].alt);
      AddedAll(Bare(a), p, PlainSet(cs[..n]), PlainConfig(cs[n]));
      assert All(a, p, cs) == One(a, p, cs[n], All(a, p, cs[..n]));
    }
  }

  // The first configuration at the end of a rule is the first one without its offsets too.
  lemma {:induction false} StopPlain(a: Atn, cs: seq<Config>)
    ensures Accepts(a, cs) <==> Accepts(a, PlainSet(cs))
    ensures Accepts(a, cs) ==> PlainSet(cs)[FirstStop(a, PlainSet(cs))] == PlainConfig(cs[FirstStop(a, cs)])
    decreases |cs|
  {
    if cs != [] {
      var n := |cs| - 1;
      var front, c := PlainSet(cs[..n]), PlainConfig(cs[n]);
      StopPlain(a, cs[..n]);
      if c !in front {
        assert (front + [c])[..|front|] == front;
      } else {
        var k :| 0 <= k < |front| && front[k] == c;
      }
    }
  }

  // Sets that are the same without their offsets decide for the same rule and the same actions.
  lemma SameStop(a: Atn, cs: seq<Config>, ds: seq<Config>)
    requires PlainSet(cs) == PlainSet(ds)
    ensures Accepts(a, cs) <==> Accepts(a, ds)
    ensures Accepts(a, cs) ==>
              Prediction(a, cs) == Prediction(a, ds) && Plain(Executor(a, cs)) == Plain(Executor(a, ds))
  {
    StopPlain(a, cs);
    StopPlain(a, ds);
  }

  // An outcome without the offsets of its actions.
  function PlainOutcome(o: Outcome): Outcome {
    match o
    case Token(kind, steps, at) => Token(kind, Plain(steps), at)
    case _ => o
  }

  ghost predicate InOrder(cs: seq<Config>) { exists m :: Ordered(cs, m) }

  // Without offsets, the edge is what is reached at any place without asking a predicate.
  ghost predicate EdgeHolds(a: Atn, depth: nat, s: seq<Config>, symbol: int, t: Target) {
    && Unasked(Reach(Bare(a), Yes(), 0, 0, PlainSet(s), symbol, depth))
    && Reach(Bare(a), Yes(), 0, 0, PlainSet(s), symbol, depth).configs == PlainSet(Configs(t))
    && (t.To? ==> t.configs != [] && InOrder(t.configs))
  }

  ghost predicate DfaHolds(a: Atn, depth: nat, mode: nat, d: Dfa) {
    && (forall s, symbol :: (s, symbol) in d.edges ==> EdgeHolds(a, depth, s, symbol, d.edges[(s, symbol)]))
    && (d.s0.Some? ==>
        Unasked(StartState(a, Yes(), 0, mode, depth)) && StartState(a, Yes(), 0, mode, depth).configs == d.s0.value)
  }

  function PlaceOf(job: Job, at: Cursor): Place {
    Place(job.oracle, at.index, at.index - job.start, LA(job.input, at.index), job.depth)
  }

  lemma NextPlain(job: Job, at: Cursor, cs: seq<Config>)
    requires InOrder(cs)
    ensures var r, q := Next(job, cs, at), All(Bare(job.atn), PlaceOf(job, at), PlainSet(cs)).set_;
            && (r.Stuck? <==> q.Stuck?)
            && (r.Closed? ==> q.configs == PlainSet(r.configs) && (q.asked <==> r.asked) && InOrder(r.configs))
  {
    var m :| Ordered(cs, m);
    AllPlain(job.atn, PlaceOf(job, at), cs, m);
    if Next(job, cs, at).Closed? {
      AllAtOrdered(job, at, cs, m);
      assert AllAt(job, at, cs).set_ == Next(job, cs, at);
    }
  }

  // Without offsets, what is reached without asking a predicate is the same everywhere.
  lemma Everywhere(a: Atn, p: Place, q: Place, cs: seq<Config>)
    requires Unasked(All(Bare(a), p, cs).set_) && p.symbol == q.symbol && p.depth == q.depth
    ensures All(Bare(a), q, cs).set_ == All(Bare(a), p, cs).set_
  {
    BareTails(a, cs);
    ReachSame(Bare(a), p.oracle, p.index, p.offset, q.oracle, q.index, q.offset, cs, p.symbol, p.depth);
  }

  lemma NextHoldsPlain(job: Job, d: Dfa, mode: nat, s: seq<Config>, cs: seq<Config>, at: Cursor)
    requires InOrder(s) && InOrder(cs) && PlainSet(s) == PlainSet(cs) && DfaHolds(job.atn, job.depth, mode, d)
    ensures var (target, d') := CachedNext(job, d, s, at);
            && DfaHolds(job.atn, job.depth, mode, d')
            && (target.None? <==> Next(job, cs, at).Stuck?)
            && (target.Some? ==>
                && PlainSet(Next(job, cs, at).configs) == PlainSet(Configs(target.value))
                && (target.value.To? ==> target.value.configs != [] && InOrder(target.value.configs)))
  {
    var t := LA(job.input, at.index);
    var here, there := PlaceOf(job, at), Place(Yes(), 0, 0, t, job.depth);
    NextPlain(job, at, cs);
    NextPlain(job, at, s);
    if Stored(d, s, t).Some? {
      Everywhere(job.atn, there, here, PlainSet(s));
    } else if Unasked(Next(job, s, at)) {
      Everywhere(job.atn, here, there, PlainSet(s));
    }
  }

  ghost predicate MarksAlike(last: Option<Accepted>, last2: Option<Accepted>) {
    && (last.Some? <==> last2.Some?)
    && (last.Some? ==>
        last.value.at == last2.value.at && PlainSet(last.value.configs) == PlainSet(last2.value.configs))
  }

  lemma PlainEmpty(cs: seq<Config>)
    ensures PlainSet(cs) == [] <==> cs == []
  {}

  // Where the loop ends on this target, its outcome.
  function Ended(job: Job, target: Option<Target>, at: Cursor, last: Option<Accepted>): Option<Outcome>
    requires Sound(job, last)
  {
    match target
    case None => Some(Outcome.Stuck)
    case Some(Error) => Some(FailOrAccept(job, last, LA(job.input, at.index), at))
    case Some(To(configs)) =>
      if Accepts(job.atn, configs) && LA(job.input, at.index) == LexerAtn.EOF
        then Some(TokenOf(job, Accepted(at, configs)))
      else None
  }

  function TargetOf(r: Closed): Option<Target> {
    match r
    case Stuck => None
    case Closed(configs, _, _) => Some(if configs == [] then Error else To(configs))
  }

  // Targets that are the same without their offsets.
  ghost predicate Alike(target: Option<Target>, target2: Option<Target>) {
    && (target.None? <==> target2.None?)
    && (target.Some? ==>
        && (target.value.To? <==> target2.value.To?)
        && PlainSet(Configs(target.value)) == PlainSet(Configs(target2.value)))
  }

  lemma EndedPlain(job: Job, target: Option<Target>, target2: Option<Target>, at: Cursor, last: Option<Accepted>,
      last2: Option<Accepted>)
    requires Sound(job, last) && Sound(job, last2) && MarksAlike(last, last2) && Alike(target, target2)
    ensures var (o, o2) := (Ended(job, target, at, last), Ended(job, target2, at, last2));
            (o.Some? <==> o2.Some?) && (o.Some? ==> PlainOutcome(o.value) == PlainOutcome(o2.value))
  {
    if last.Some? {
      SameStop(job.atn, last.value.configs, last2.value.configs);
    }
    if target.Some? {
      SameStop(job.atn, Configs(target.value), Configs(target2.value));
    }
  }

  lemma MarkedPlain(job: Job, last: Option<Accepted>, last2: Option<Accepted>, s: seq<Config>, cs: seq<Config>,
      at: Cursor)
    requires MarksAlike(last, last2) && PlainSet(s) == PlainSet(cs)
    ensures MarksAlike(Marked(job, last, s, at), Marked(job, last2, cs, at))
  {
    SameStop(job.atn, s, cs);
  }

  lemma ExecUnfolds(job: Job, cs: seq<Config>, at: Cursor, last: Option<Accepted>, gas: nat)
    requires Sound(job, last) && gas > 0
    ensures var target, there := TargetOf(Next(job, cs, at)), LexerRun.Moved(job, at);
            Exec(job, cs, at, last, gas) ==
            match Ended(job, target, at, last)
            case Some(o) => o
            case None =>
              Exec(job, Configs(target.value), there, Marked(job, last, Configs(target.value), there), gas - 1)
  {}

  lemma CachedExecUnfolds(job: Job, d: Dfa, s: seq<Config>, at: Cursor, last: Option<Accepted>, gas: nat)
    requires Sound(job, last) && gas > 0
    ensures var (target, d') := CachedNext(job, d, s, at);
            var there := LexerRun.Moved(job, at);
            CachedExec(job, d, s, at, last, gas) ==
            match Ended(job, target, at, last)
            case Some(o) => (o, d')
            case None =>
              CachedExec(job, d', Configs(target.value), there, Marked(job, last, Configs(target.value), there),
                  gas - 1)
  {}

  lemma TargetsAlike(job: Job, d: Dfa, mode: nat, s: seq<Config>, cs: seq<Config>, at: Cursor)
    requires InOrder(s) && InOrder(cs) && PlainSet(s) == PlainSet(cs) && DfaHolds(job.atn, job.depth, mode, d)
    ensures var ((target, d'), target2) := (CachedNext(job, d, s, at), TargetOf(Next(job, cs, at)));
            && DfaHolds(job.atn, job.depth, mode, d') && Alike(target, target2)
            && (target.Some? ==> InOrder(Configs(target.value)) && InOrder(Configs(target2.value)))
  {
    NextHoldsPlain(job, d, mode, s, cs, at);
    NextPlain(job, at, cs);
    var target, next := CachedNext(job, d, s, at).0, Next(job, cs, at);
    if target.Some? {
      PlainEmpty(Configs(target.value));
      PlainEmpty(next.configs);
      assert Ordered([], 0);
    }
  }

  // The outcomes are the same without offsets, and what is stored holds.
  ghost predicate Agree(job: Job, mode: nat, r: (Outcome, Dfa), o: Outcome) {
    PlainOutcome(r.0) == PlainOutcome(o) && DfaHolds(job.atn, job.depth, mode, r.1)
  }

  // One turn of the loop, with and without stored edges: both end, or both go on.
  lemma TurnPlain(job: Job, d: Dfa, mode: nat, s: seq<Config>, cs: seq<Config>, at: Cursor, last: Option<Accepted>,
      last2: Option<Accepted>, gas: nat, r: (Outcome, Dfa), o: Outcome)
      returns (on: bool, d': Dfa, t: seq<Config>, u: seq<Config>, mark: Option<Accepted>, mark2: Option<Accepted>)
    requires InOrder(s) && InOrder(cs) && PlainSet(s) == PlainSet(cs) && DfaHolds(job.atn, job.depth, mode, d)
    requires Sound(job, last) && Sound(job, last2) && MarksAlike(last, last2) && gas > 0
    requires r == CachedExec(job, d, s, at, last, gas) && o == Exec(job, cs, at, last2, gas)
    ensures !on ==> Agree(job, mode, r, o)
    ensures on ==>
              && InOrder(t) && InOrder(u) && PlainSet(t) == PlainSet(u) && DfaHolds(job.atn, job.depth, mode, d')
              && Sound(job, mark) && Sound(job, mark2) && MarksAlike(mark, mark2)
              && r == CachedExec(job, d', t, LexerRun.Moved(job, at), mark, gas - 1)
              && o == Exec(job, u, LexerRun.Moved(job, at), mark2, gas - 1)
  {
    TargetsAlike(job, d, mode, s, cs, at);
    ExecUnfolds(job, cs, at, last2, gas);
    CachedExecUnfolds(job, d, s, at, last, gas);
    var target, target2, there := CachedNext(job, d, s, at).0, TargetOf(Next(job, cs, at)), LexerRun.Moved(job, at);
    d' := CachedNext(job, d, s, at).1;
    EndedPlain(job, target, target2, at, last, last2);
    on, t, u, mark, mark2 := Ended(job, target, at, last).None?, [], [], None, None;
    if on {
      t, u := Configs(target.value), Configs(target2.value);
      mark, mark2 := Marked(job, last, t, there), Marked(job, last2, u, there);
      MarkedPlain(job, last, last2, t, u, there);
    }
  }

  lemma {:induction false} ExecPlain(job: Job, d: Dfa, mode: nat, s: seq<Config>, cs: seq<Config>, at: Cursor,
      last: Option<Accepted>, last2: Option<Accepted>, gas: nat, r: (Outcome, Dfa), o: Outcome)
    requires InOrder(s) && InOrder(cs) && PlainSet(s) == PlainSet(cs) && DfaHolds(job.atn, job.depth, mode, d)
    requires Sound(job, last) && Sound(job, last2) && MarksAlike(last, last2)
    requires r == CachedExec(job, d, s, at, last, gas) && o == Exec(job, cs, at, last2, gas)
    ensures Agree(job, mode, r, o)
    decreases gas
  {
    if gas == 0 {
      assert r == (Outcome.Stuck, d) && o == Outcome.Stuck;
    } else {
      var on, d', t, u, mark, mark2 := TurnPlain(job, d, mode, s, cs, at, last, last2, gas, r, o);
      if on {
        ExecPlain(job, d', mode, t, u, LexerRun.Moved(job, at), mark, mark2, gas - 1, r, o);
      }
    }
  }

  lemma {:induction false} StartsInOrder(a: Atn, o: Oracle, i: nat, ts: seq<Transition>, depth: nat)
    requires Starts(a, o, i, ts, depth).Closed?
    ensures Ordered(Starts(a, o, i, ts, depth).configs, |ts|)
    decreases |ts|
  {
    if ts != [] {
      var n := |ts| - 1;
      var before := Starts(a, o, i, ts[..n], depth);
      StartsInOrder(a, o, i, ts[..n], depth);
      var r := Closed(before.configs, false, before.asked);
      ClosureGrows(Setting(a, o, i, false, false), Config(ts[n].target, |ts|, [], [], false), r, depth);
      GrowsOrdered(r, Starts(a, o, i, ts, depth), n, n + 1);
    }
  }

  // In every network, whatever earlier matches have stored: a match gives a token of the type, up to the place and
  // with the actions that it gives with nothing stored, or the error that it gives then. Offsets apart, what is
  // stored stays right.
  lemma MatchPlain(job: Job, d: Dfa, mode: nat, at: Cursor, gas: nat)
    requires DfaHolds(job.atn, job.depth, mode, d)
    ensures Agree(job, mode, CachedMatch(job, d, mode, at, gas), Match(job, mode, at, gas))
  {
    var a, ts := job.atn, At(job.atn, StartOf(job.atn, mode)).transitions;
    var start := StartState(a, job.oracle, at.index, mode, job.depth);
    if d.s0.Some? {
      StartsSame(a, Yes(), 0, job.oracle, at.index, ts, job.depth);
    } else if start.Closed? && !start.asked {
      StartsSame(a, job.oracle, at.index, Yes(), 0, ts, job.depth);
    }
    if start.Closed? {
      StartsInOrder(a, job.oracle, at.index, ts, job.depth);
      var cs, d' := start.configs, if d.s0.Some? then d else WithStart(d, start);
      var mark := Marked(job, None, cs, at);
      ExecPlain(job, d', mode, cs, cs, at, mark, mark, gas, CachedMatch(job, d, mode, at, gas),
          Match(job, mode, at, gas));
    }
  }
}
