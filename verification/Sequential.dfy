// What a rule does, said without rule states: the plain recursion over its tree. A rule run alone
// does exactly this, and so does every branch of a parallel rule.
module Sequential {
  import opened Rules
  import opened Isolation
  import opened Interleaving
  import opened ParallelRules

  datatype Trace = Endless | Trace(log: Log, gas: nat)

  function Sequence(env: Env, r: Rule, world: nat, log: Log, gas: nat): (t: Trace)
    ensures t.Trace? ==> t.gas < gas
    decreases gas, 1
  {
    var k := Key(r.id, world);
    if gas == 0 then Endless
    else
      match r
      case Leaf(_) => Trace(log + [Ran(k)], gas - 1)
      case Input(_) => Polling(k, env.polls(k, log), log + [Asked(k)], gas)
      case RuleList(_, rules) => Items(env, rules, 0, world, log, gas)
      case ForEach(_, body) => Elements(env, body, k, env.count(k, log), 0, log, gas)
      case Loop(_, until, body) =>
        if until != env.cond(k, log) then Then(env, Sequence(env, body, world, log, gas - 1), r, world, gas - 1)
            else Trace(log, gas - 1)
      case Cases(_, arms) =>
        var a := env.arm(k, log);
        if a < |arms| then Sequence(env, arms[a], world, log, gas - 1) else Trace(log, gas - 1)
      case AtMost(_, _, _) => Endless
  }

  function Then(env: Env, t: Trace, r: Rule, world: nat, gas: nat): (u: Trace)
    requires t.Trace? ==> t.gas <= gas
    ensures u.Trace? ==> u.gas <= gas
    decreases gas, 2
  {
    if t.Trace? then Sequence(env, r, world, t.log, t.gas) else Endless
  }

  function Polling(k: Key, left: nat, log: Log, gas: nat): (t: Trace)
    ensures t.Trace? ==> t.gas < gas
    decreases gas, 0
  {
    if gas == 0 then Endless
    else if left == 0 then Trace(log + [Answered(k)], gas - 1)
    else Polling(k, left - 1, log, gas - 1)
  }

  function Items(env: Env, rules: seq<Rule>, i: nat, world: nat, log: Log, gas: nat): (t: Trace)
    ensures t.Trace? ==> t.gas < gas
    decreases gas, 0
  {
    if gas == 0 then Endless
    else if i >= |rules| then Trace(log, gas - 1)
    else
      match Sequence(env, rules[i], world, log, gas - 1)
      case Endless => Endless
      case Trace(log', gas') => Items(env, rules, i + 1, world, log', gas')
  }

  function Elements(env: Env, body: Rule, k: Key, size: nat, i: nat, log: Log, gas: nat): (t: Trace)
    ensures t.Trace? ==> t.gas < gas
    decreases gas, 0
  {
    if gas == 0 then Endless
    else if i >= size then Trace(log, gas - 1)
    else
      match Sequence(env, body, k.world, log + [Bound(k, i)], gas - 1)
      case Endless => Endless
      case Trace(log', gas') => Elements(env, body, k, size, i + 1, log', gas')
  }

  // The rule is called alone, and no part of it is in the middle of a run.
  ghost predicate Idle(r: Rule, g: Game) {
    Plain(r) && WellFormed(r) && g.callbacks == [] && Absent(Ids(r), g)
  }

  // The game after a trace: only the log has grown.
  function Ended(g: Game, t: Trace): Outcome {
    if t.Trace? then Done(g.(log := t.log), t.gas) else Stuck
  }

  // The game in the middle of a rule's run, with its program counter.
  function Within(g: Game, k: Key, s: RuleState, log: Log): Game {
    Put(g, k, s).(log := log)
  }

  lemma ChildIdle(r: Rule, child: Rule, g: Game, s: RuleState, log: Log)
    requires Idle(r, g) && child in Children(r)
    ensures Idle(child, Within(g, KeyOf(r, g), s, log)) && Idle(child, g.(log := log))
  {}

  lemma PutTwice(g: Game, k: Key, s: RuleState, t: RuleState, log: Log)
    ensures Put(Within(g, k, s, log), k, t) == Within(g, k, t, log)
    ensures k !in g.states ==> Drop(Within(g, k, s, log), k) == g.(log := log)
  {
    assert g.states[k := s][k := t] == g.states[k := t];
    if k !in g.states {
      assert g.states[k := s] - {k} == g.states;
    }
  }

  // Alone, a rule steps on after a sub-rule and goes on.
  lemma SettleAlone(env: Env, r: Rule, g: Game, s: RuleState, t: RuleState, log: Log, gas: nat)
    requires g.callbacks == [] && HasSpot(r, Within(g, KeyOf(r, g), s, log))
    requires Advance(r, Within(g, KeyOf(r, g), s, log)) == Within(g, KeyOf(r, g), t, log)
    ensures Settle(env, r, Within(g, KeyOf(r, g), s, log), gas) == Run(env, r, Within(g, KeyOf(r, g), t, log), gas)
  {
    CheckAlone(env, Within(g, KeyOf(r, g), s, log), r);
  }

  // A rule run alone does what the plain recursion does, and leaves the game otherwise as it was.
  lemma {:induction false} AloneIsSequence(env: Env, r: Rule, g: Game, gas: nat)
    requires Idle(r, g)
    ensures Run(env, r, g, gas) == Ended(g, Sequence(env, r, g.world, g.log, gas))
    decreases gas, 1
  {
    var k := KeyOf(r, g);
    if gas > 0 {
      match r
      case Leaf(_) =>
      case Input(_) =>
        PollingRun(env, r, g, env.polls(k, g.log), g.log + [Asked(k)], gas);
        InputEnters(env, r, g, gas);
      case RuleList(_, rules) =>
        ItemsRun(env, r, g, 0, g.log, gas);
        ListEnters(env, r, g, gas);
      case ForEach(_, body) =>
        ElementsRun(env, r, g, env.count(k, g.log), 0, g.log, gas);
        ForEachEnters(env, r, g, gas);
      case Loop(_, _, _) => LoopRun(env, r, g, gas);
      case Cases(_, arms) =>
        var a := env.arm(k, g.log);
        if a < |arms| {
          ChildIdle(r, arms[a], g, ListAt(0), g.log);
          AloneIsSequence(env, arms[a], g, gas - 1);
        }
    }
  }

  lemma InputEnters(env: Env, r: Rule, g: Game, gas: nat)
    requires Idle(r, g) && r.Input?
    ensures var k := KeyOf(r, g);
            Run(env, r, g, gas) == Run(env, r, Within(g, k, Waiting(env.polls(k, g.log)), g.log + [Asked(k)]), gas)
  {}

  lemma ListEnters(env: Env, r: Rule, g: Game, gas: nat)
    requires Idle(r, g) && r.RuleList?
    ensures Run(env, r, g, gas) == Run(env, r, Within(g, KeyOf(r, g), ListAt(0), g.log), gas)
  {}

  lemma ForEachEnters(env: Env, r: Rule, g: Game, gas: nat)
    requires Idle(r, g) && r.ForEach?
    ensures var k := KeyOf(r, g);
            Run(env, r, g, gas) == Run(env, r, Within(g, k, ForEachAt(env.count(k, g.log), 0), g.log), gas)
  {}

  lemma {:induction false} PollingRun(env: Env, r: Rule, g: Game, left: nat, log: Log, gas: nat)
    requires Idle(r, g) && r.Input?
    ensures var k := KeyOf(r, g);
        Run(env, r, Within(g, k, Waiting(left), log), gas) == Ended(g, Polling(k, left, log, gas))
    decreases gas, 0
  {
    var k := KeyOf(r, g);
    var h := Within(g, k, Waiting(left), log);
    if gas > 0 {
      if left == 0 {
        PutTwice(g, k, Waiting(0), Waiting(0), log + [Answered(k)]);
      } else {
        PutTwice(g, k, Waiting(left), Waiting(left - 1), log);
        SettleAlone(env, r, g, Waiting(left), Waiting(left - 1), log, gas - 1);
        assert Run(env, r, h, gas) == Settle(env, r, h, gas - 1);
        PollingRun(env, r, g, left - 1, log, gas - 1);
      }
    }
  }

  // One round of a list: its rule i, then on to the next.
  lemma ItemStep(env: Env, r: Rule, g: Game, i: nat, log: Log, gas: nat)
    requires g.callbacks == [] && r.RuleList? && i < |r.rules| && gas > 0
    requires var h := Within(g, KeyOf(r, g), ListAt(i), log);
             Run(env, r.rules[i], h, gas - 1) == Ended(h, Sequence(env, r.rules[i], g.world, log, gas - 1))
    ensures var k, t := KeyOf(r, g), Sequence(env, r.rules[i], g.world, log, gas - 1);
            Run(env, r, Within(g, k, ListAt(i), log), gas) ==
            if t.Trace? then Run(env, r, Within(g, k, ListAt(i + 1), t.log), t.gas) else Stuck
  {
    var k := KeyOf(r, g);
    var h := Within(g, k, ListAt(i), log);
    assert Run(env, r, h, gas) == Sub(env, r, r.rules[i], h, gas - 1);
    var t := Sequence(env, r.rules[i], g.world, log, gas - 1);
    if t.Trace? {
      PutTwice(g, k, ListAt(i), ListAt(i + 1), t.log);
      SettleAlone(env, r, g, ListAt(i), ListAt(i + 1), t.log, t.gas);
      assert h.(log := t.log) == Within(g, k, ListAt(i), t.log);
    }
  }

  lemma {:induction false} ItemsRun(env: Env, r: Rule, g: Game, i: nat, log: Log, gas: nat)
    requires Idle(r, g) && r.RuleList?
    ensures Run(env, r, Within(g, KeyOf(r, g), ListAt(i), log), gas)
        == Ended(g, Items(env, r.rules, i, g.world, log, gas))
    decreases gas, 0
  {
    var k := KeyOf(r, g);
    if gas > 0 {
      if i >= |r.rules| {
        PutTwice(g, k, ListAt(i), ListAt(i), log);
      } else {
        ChildIdle(r, r.rules[i], g, ListAt(i), log);
        AloneIsSequence(env, r.rules[i], Within(g, k, ListAt(i), log), gas - 1);
        ItemStep(env, r, g, i, log, gas);
        var t := Sequence(env, r.rules[i], g.world, log, gas - 1);
        if t.Trace? {
          ItemsRun(env, r, g, i + 1, t.log, t.gas);
        }
      }
    }
  }

  lemma {:induction false} ElementsRun(env: Env, r: Rule, g: Game, size: nat, i: nat, log: Log, gas: nat)
    requires Idle(r, g) && r.ForEach?
    ensures var k := KeyOf(r, g);
            Run(env, r, Within(g, k, ForEachAt(size, i), log), gas)
                == Ended(g, Elements(env, r.body, k, size, i, log, gas))
    decreases gas, 0
  {
    var k := KeyOf(r, g);
    if gas > 0 {
      if i >= size {
        PutTwice(g, k, ForEachAt(size, i), ForEachAt(size, i), log);
      } else {
        var bound := log + [Bound(k, i)];
        ChildIdle(r, r.body, g, ForEachAt(size, i), bound);
        AloneIsSequence(env, r.body, Within(g, k, ForEachAt(size, i), bound), gas - 1);
        var h := Within(g, k, ForEachAt(size, i), log);
        assert Emit(h, Bound(k, i)) == Within(g, k, ForEachAt(size, i), bound);
        assert Run(env, r, h, gas) == Sub(env, r, r.body, Within(g, k, ForEachAt(size, i), bound), gas - 1);
        var t := Sequence(env, r.body, g.world, bound, gas - 1);
        if t.Trace? {
          PutTwice(g, k, ForEachAt(size, i), ForEachAt(size, i + 1), t.log);
          SettleAlone(env, r, g, ForEachAt(size, i), ForEachAt(size, i + 1), t.log, t.gas);
          ElementsRun(env, r, g, size, i + 1, t.log, t.gas);
        }
      }
    }
  }

  lemma {:induction false} LoopRun(env: Env, r: Rule, g: Game, gas: nat)
    requires Idle(r, g) && r.Loop? && gas > 0
    ensures Run(env, r, g, gas) == Ended(g, Sequence(env, r, g.world, g.log, gas))
    decreases gas, 0
  {
    if r.until != env.cond(KeyOf(r, g), g.log) {
      ChildIdle(r, r.body, g, ListAt(0), g.log);
      AloneIsSequence(env, r.body, g, gas - 1);
      assert Run(env, r, g, gas) == Sub(env, r, r.body, g, gas - 1);
      var t := Sequence(env, r.body, g.world, g.log, gas - 1);
      if t.Trace? {
        var h := g.(log := t.log);
        CheckAlone(env, h, r);
        assert Settle(env, r, h, t.gas) == Run(env, r, h, t.gas);
        ChildIdle(r, r.body, g, ListAt(0), t.log);
        AloneIsSequence(env, r, h, t.gas);
      }
    }
  }

  // What a parallel rule comes to, branch by branch: of each branch with a place, the events are those
  // of the plain recursion over its tree, in that order and each once.
  lemma BranchIsSequence(p: Plan, gas: seq<nat>, w: nat, h: Game)
    requires Ready(p) && Fresh(p) && |gas| == |p.bs| && p.goals == GoalsFrom(p.env, p.bs, p.start, gas)
    requires w < |p.bs| && w < 0x1_0000 && Accomplished(p, h)
    ensures var b := p.bs[w];
            var t := Sequence(p.env, b.rule, b.world, Seen(Vis(b), p.start.log), gas[w]);
            t.Trace? && Seen(Vis(b), h.log) == t.log
  {
    var b := p.bs[w];
    var v := View(b, p.start);
    assert Eligible(p.env, b) && p.goals[w] == Run(p.env, b.rule, v, gas[w]);
    assert Absent(Ids(b.rule), v);
    AloneIsSequence(p.env, b.rule, v, gas[w]);
  }
}
