// The lexer's simulator: the loops that fill configuration sets in place, and the tables of stored edges that
// matches share.
module LexerSimulator {
  import opened LexerAtn
  import opened LexerRun
  import opened LexerTails
  import opened LexerCache
  import opened LexerEdges
  import opened LexerErased
  import LexerSets
  import LexerTrails

  class CharStream {
    const data: seq<int>
    var index: nat

    constructor (data: seq<int>)
      requires Input(data)
      ensures this.data == data && index == 0 && Valid()
    {
      this.data := data;
      index := 0;
    }

    ghost predicate Valid()
      reads this
    {
      Input(data) && index <= |data|
    }

    function Ahead(): int
      reads this
    {
      LA(data, index)
    }

    method Consume()
      requires Valid() && Ahead() != LexerAtn.EOF
      modifies this
      ensures Valid() && index == old(index) + 1
    {
      index := index + 1;
    }

    method Seek(i: nat)
      requires Valid() && i <= |data|
      modifies this
      ensures Valid() && index == i
    {
      index := i;
    }
  }

  // A set of configurations under construction.
  class ConfigSet {
    var configs: seq<Config>
    var hasSemanticContext: bool

    constructor ()
      ensures configs == [] && !hasSemanticContext
    {
      configs, hasSemanticContext := [], false;
    }

    method Add(c: Config)
      modifies this`configs
      ensures configs == Added(old(configs), c)
    {
      if c !in configs {
        configs := configs + [c];
      }
    }

    // What is built, if its last closure came to an accept state or not.
    function Built(accepted: bool): Closed
      reads this
    {
      Closed(configs, accepted, hasSemanticContext)
    }
  }

  // Once a computation is stuck, so is what follows.
  lemma {:induction false} ClosuresStuck(a: Atn, o: Oracle, i: nat, c: Config, ts: seq<Transition>, n: nat, r: Closed,
      speculative: bool, eof: bool, depth: nat)
    requires n <= |ts| && Closures(a, o, i, c, ts[..n], r, speculative, eof, depth).Stuck?
    ensures Closures(a, o, i, c, ts, r, speculative, eof, depth).Stuck?
    decreases |ts|
  {
    if n < |ts| {
      assert ts[..|ts| - 1][..n] == ts[..n];
      ClosuresStuck(a, o, i, c, ts[..|ts| - 1], n, r, speculative, eof, depth);
    } else {
      assert ts[..n] == ts;
    }
  }

  lemma {:induction false} ReachStepsEnds(a: Atn, o: Oracle, i: nat, m: int, c: Config, ts: seq<Transition>, n: nat,
      symbol: int, r: Reaching, depth: nat)
    requires n <= |ts|
    requires var (before, done) := ReachSteps(a, o, i, m, c, ts[..n], symbol, r, depth); done || before.set_.Stuck?
    ensures ReachSteps(a, o, i, m, c, ts, symbol, r, depth) == ReachSteps(a, o, i, m, c, ts[..n], symbol, r, depth)
    decreases |ts|
  {
    if n < |ts| {
      assert ts[..|ts| - 1][..n] == ts[..n];
      ReachStepsEnds(a, o, i, m, c, ts[..|ts| - 1], n, symbol, r, depth);
    } else {
      assert ts[..n] == ts;
    }
  }

  // The next transition, after which the loop may end.
  lemma ReachStepsNext(a: Atn, o: Oracle, i: nat, m: int, c: Config, ts: seq<Transition>, n: nat, symbol: int,
      first: Reaching, before: Reaching, depth: nat)
    requires n < |ts| && ReachSteps(a, o, i, m, c, ts[..n], symbol, first, depth) == (before, false)
    ensures var (r, done) := ReachStep(a, o, i, m, c, ts[n], symbol, before, false, depth);
            && ReachSteps(a, o, i, m, c, ts[..n + 1], symbol, first, depth) == (r, done)
            && (done || r.set_.Stuck? ==> ReachSteps(a, o, i, m, c, ts, symbol, first, depth) == (r, done))
  {
    assert ts[..n + 1][..n] == ts[..n];
    var (r, done) := ReachStep(a, o, i, m, c, ts[n], symbol, before, false, depth);
    if done || r.set_.Stuck? {
      ReachStepsEnds(a, o, i, m, c, ts, n + 1, symbol, first, depth);
    }
  }

  lemma {:induction false} ReachAllStuck(a: Atn, o: Oracle, i: nat, m: int, cs: seq<Config>, n: nat, symbol: int,
      depth: nat)
    requires n <= |cs| && ReachAll(a, o, i, m, cs[..n], symbol, depth).set_.Stuck?
    ensures ReachAll(a, o, i, m, cs, symbol, depth).set_.Stuck?
    decreases |cs|
  {
    if n < |cs| {
      assert cs[..|cs| - 1][..n] == cs[..n];
      ReachAllStuck(a, o, i, m, cs[..|cs| - 1], n, symbol, depth);
      var c, before := cs[|cs| - 1], ReachAll(a, o, i, m, cs[..|cs| - 1], symbol, depth);
      var ts := At(a, c.state).transitions;
      assert ts[..0] == [];
      ReachStepsEnds(a, o, i, m, c, ts, 0, symbol, before, depth);
    } else {
      assert cs[..n] == cs;
    }
  }

  lemma {:induction false} StartsStuck(a: Atn, o: Oracle, i: nat, ts: seq<Transition>, n: nat, depth: nat)
    requires n <= |ts| && Starts(a, o, i, ts[..n], depth).Stuck?
    ensures Starts(a, o, i, ts, depth).Stuck?
    decreases |ts|
  {
    if n < |ts| {
      assert ts[..|ts| - 1][..n] == ts[..n];
      StartsStuck(a, o, i, ts[..|ts| - 1], n, depth);
    } else {
      assert ts[..n] == ts;
    }
  }

  // The tables of all modes.
  ghost predicate Hold(a: Atn, depth: nat, ds: seq<Dfa>) { forall m :: 0 <= m < |ds| ==> DfaHolds(a, depth, m, ds[m]) }

  ghost predicate Right(a: Atn, depth: nat, ds: seq<Dfa>) { forall m :: 0 <= m < |ds| ==> DfaRight(a, depth, m, ds[m]) }

  lemma MatchHolds(job: Job, ds: seq<Dfa>, m: nat, at: Cursor, gas: nat, r: (Outcome, Dfa))
    requires m < |ds| && Hold(job.atn, job.depth, ds) && r == CachedMatch(job, ds[m], m, at, gas)
    ensures Hold(job.atn, job.depth, ds[m := r.1]) && PlainOutcome(r.0) == PlainOutcome(Match(job, m, at, gas))
  {
    MatchPlain(job, ds[m], m, at, gas);
  }

  // The lexer's law, offsets apart.
  ghost predicate Lawful(job: Job, mode: nat, at: Cursor, o: Outcome) {
    exists q :: PlainOutcome(o) == PlainOutcome(q) && LexerTrails.Lexes(job, mode, at, q)
  }

  lemma MatchLawful(job: Job, m: nat, at: Cursor, gas: nat, o: Outcome)
    requires LexerSets.OneWay(job.atn) && at.index == job.start && !o.Stuck?
    requires PlainOutcome(o) == PlainOutcome(Match(job, m, at, gas))
    ensures Lawful(job, m, at, o)
  {
    LexerTrails.LexesLanguage(job, m, at, gas);
  }

  lemma MatchRights(job: Job, ds: seq<Dfa>, m: nat, at: Cursor, gas: nat, r: (Outcome, Dfa))
    requires m < |ds| && Right(job.atn, job.depth, ds) && r == CachedMatch(job, ds[m], m, at, gas)
    requires at.index == job.start
    ensures Right(job.atn, job.depth, ds[m := r.1]) <==> MatchFree(job, m, at, gas)
    ensures MatchFree(job, m, at, gas) ==> r.0 == Match(job, m, at, gas)
  {
    MatchRight(job, ds[m], m, at, gas);
    assert ds[m := r.1][m] == r.1;
  }

  class LexerATNSimulator {
    const atn: Atn
    const depth: nat
    var decisionToDFA: seq<Dfa>
    var mode: nat
    var startIndex: nat
    var line: nat
    var charPositionInLine: nat
    var prevAccept: Option<Accepted>

    constructor (atn: Atn, depth: nat)
      requires 0 < |atn.modeToStartState|
      ensures Valid() && AllHold() && AllRight() && this.atn == atn && this.depth == depth
      ensures line == 1 && charPositionInLine == 0
    {
      this.atn, this.depth := atn, depth;
      decisionToDFA := seq(|atn.modeToStartState|, i => Dfa({}, map[], None));
      mode, startIndex, line, charPositionInLine, prevAccept := 0, 0, 1, 0, None;
    }

    ghost predicate Valid()
      reads this
    {
      |decisionToDFA| == |atn.modeToStartState| && mode < |decisionToDFA|
    }

    // Every edge left behind by earlier matches is right but for offsets.
    ghost predicate AllHold()
      reads this
    {
      Hold(atn, depth, decisionToDFA)
    }

    // Every such edge is right with its offsets, at every offset.
    ghost predicate AllRight()
      reads this
    {
      Right(atn, depth, decisionToDFA)
    }

    ghost function Table(): Dfa
      requires Valid()
      reads this
    {
      decisionToDFA[mode]
    }

    // The other modes' tables with d for the current mode.
    ghost function Tables(d: Dfa): seq<Dfa>
      requires Valid()
      reads this
    {
      decisionToDFA[mode := d]
    }

    function Here(input: CharStream): Cursor
      reads this, input
    {
      Cursor(input.index, line, charPositionInLine)
    }

    // Adds what c leads to; None if the recursion goes too deep.
    method ComputeClosure(oracle: Oracle, index: nat, c: Config, configs: ConfigSet, currentAltReachedAcceptState: bool,
        speculative: bool, eof: bool, gas: nat)
      returns (accepted: Option<bool>)
      modifies configs
      ensures var r := Closure(atn, oracle, index, c, old(configs.Built(currentAltReachedAcceptState)), speculative,
          eof, gas);
              if accepted.None? then r.Stuck? else r == configs.Built(accepted.value)
      decreases gas, 0, 0
    {
      if gas == 0 {
        return None;
      }
      var state := At(atn, c.state);
      if state.stop {
        if c.context == [] {
          configs.Add(c);
          return Some(true);
        }
        accepted := ComputeClosure(oracle, index, Popped(atn, c), configs, currentAltReachedAcceptState, speculative,
            eof, gas - 1);
        return;
      }
      if !state.epsilonOnly {
        if !currentAltReachedAcceptState || !c.nonGreedy {
          configs.Add(c);
        }
      }
      accepted := FollowEpsilons(oracle, index, c, configs, currentAltReachedAcceptState, speculative, eof, gas - 1);
    }

    // The epsilon transitions of a configuration, in order.
    method FollowEpsilons(oracle: Oracle, index: nat, c: Config, configs: ConfigSet, currentAltReachedAcceptState: bool,
        speculative: bool, eof: bool, gas: nat)
      returns (accepted: Option<bool>)
      modifies configs
      ensures var r := Closures(atn, oracle, index, c, At(atn, c.state).transitions,
          old(configs.Built(currentAltReachedAcceptState)), speculative, eof, gas);
              if accepted.None? then r.Stuck? else r == configs.Built(accepted.value)
      decreases gas, 1
    {
      ghost var first := configs.Built(currentAltReachedAcceptState);
      var reached := currentAltReachedAcceptState;
      var ts := At(atn, c.state).transitions;
      assert ts[..0] == [];
      for i := 0 to |ts|
        invariant Closures(atn, oracle, index, c, ts[..i], first, speculative, eof, gas) == configs.Built(reached)
      {
        assert ts[..i + 1][..i] == ts[..i];
        var r := FollowEpsilon(oracle, index, c, ts[i], configs, reached, speculative, eof, gas);
        if r.None? {
          ClosuresStuck(atn, oracle, index, c, ts, i + 1, first, speculative, eof, gas);
          return None;
        }
        reached := r.value;
      }
      assert ts[..|ts|] == ts;
      accepted := Some(reached);
    }

    // One transition; a predicate marks the set before it is asked.
    method FollowEpsilon(oracle: Oracle, index: nat, c: Config, t: Transition, configs: ConfigSet,
        currentAltReachedAcceptState: bool, speculative: bool, eof: bool, gas: nat)
      returns (accepted: Option<bool>)
      modifies configs
      ensures var r := ClosureStep(atn, oracle, index, c, t, old(configs.Built(currentAltReachedAcceptState)),
          speculative, eof, gas);
              if accepted.None? then r.Stuck? else r == configs.Built(accepted.value)
      decreases gas, 0, 1
    {
      if t.Predicate? {
        configs.hasSemanticContext := true;
      }
      accepted := Some(currentAltReachedAcceptState);
      var next := EpsilonTarget(atn, oracle, index, c, t, speculative, eof);
      if next.Some? {
        accepted := ComputeClosure(oracle, index, next.value, configs, currentAltReachedAcceptState, speculative, eof,
            gas);
      }
    }

    // The configurations reached on symbol t.
    method GetReachableConfigSet(oracle: Oracle, input: CharStream, cs: seq<Config>, t: int, reach: ConfigSet)
        returns (ended: bool)
      requires reach.configs == [] && !reach.hasSemanticContext
      modifies reach
      ensures var r := Reach(atn, oracle, input.index, input.index - startIndex, cs, t, depth);
              if !ended then r.Stuck? else exists accepted :: r == reach.Built(accepted)
    {
      ghost var index, offset := input.index, input.index - startIndex;
      var skipAlt: nat := 0;
      ghost var last := false;
      assert cs[..0] == [];
      for i := 0 to |cs|
        invariant ReachAll(atn, oracle, index, offset, cs[..i], t, depth) == Reaching(reach.Built(last), skipAlt)
      {
        assert cs[..i + 1][..i] == cs[..i];
        var c := cs[i];
        if !(c.alt == skipAlt && c.nonGreedy) {
          var skip: nat;
          ended, skip, last := ReachFrom(oracle, input, c, t, reach, skipAlt, last);
          if !ended {
            ReachAllStuck(atn, oracle, index, offset, cs, i + 1, t, depth);
            return;
          }
          skipAlt := skip;
        }
      }
      assert cs[..|cs|] == cs;
      ended := true;
    }

    // The transitions of one configuration, until its alternative comes to an accept state.
    method ReachFrom(oracle: Oracle, input: CharStream, c: Config, t: int, reach: ConfigSet, skipAlt: nat,
        ghost was: bool)
      returns (ended: bool, skip: nat, ghost last: bool)
      modifies reach
      ensures var r := ReachSteps(atn, oracle, input.index, input.index - startIndex, c, At(atn, c.state).transitions,
          t, Reaching(old(reach.Built(was)), skipAlt), depth).0;
              if !ended then r.set_.Stuck? else r == Reaching(reach.Built(last), skip)
    {
      ghost var index, offset, first := input.index, input.index - startIndex, Reaching(reach.Built(was), skipAlt);
      var ts := At(atn, c.state).transitions;
      skip, last := skipAlt, was;
      assert ts[..0] == [];
      for i := 0 to |ts|
        invariant ReachSteps(atn, oracle, index, offset, c, ts[..i], t, first, depth)
            == (Reaching(reach.Built(last), skip), false)
      {
        ReachStepsNext(atn, oracle, index, offset, c, ts, i, t, first, Reaching(reach.Built(last), skip), depth);
        if Matches(ts[i], t) {
          var steps := Fixed(atn, c.steps, input.index - startIndex);
          var next := LexerAtn.Moved(atn, Config(c.state, c.alt, c.context, steps, c.nonGreedy), ts[i].target);
          var accepted := ComputeClosure(oracle, input.index, next, reach, c.alt == skip, true, t == LexerAtn.EOF,
              depth);
          if accepted.None? {
            return false, skip, last;
          }
          last := accepted.value;
          if accepted.value {
            return true, c.alt, last;
          }
        }
      }
      assert ts[..|ts|] == ts;
      ended := true;
    }

    method ComputeStartState(oracle: Oracle, input: CharStream) returns (configs: ConfigSet, ended: bool)
      ensures fresh(configs)
      ensures var r := StartState(atn, oracle, input.index, mode, depth);
              if !ended then r.Stuck? else exists accepted :: r == configs.Built(accepted)
    {
      configs := new ConfigSet();
      var ts := At(atn, StartOf(atn, mode)).transitions;
      ghost var last := false;
      assert ts[..0] == [];
      for i := 0 to |ts|
        invariant Starts(atn, oracle, input.index, ts[..i], depth) == configs.Built(last)
      {
        assert ts[..i + 1][..i] == ts[..i];
        var accepted := ComputeClosure(oracle, input.index, Config(ts[i].target, i + 1, [], [], false), configs, false,
            false, false, depth);
        if accepted.None? {
          StartsStuck(atn, oracle, input.index, ts, i + 1, depth);
          return configs, false;
        }
        last := accepted.value;
      }
      assert ts[..|ts|] == ts;
      ended := true;
    }

    // A stored edge, for the symbols that have edges.
    method GetExistingTargetState(s: seq<Config>, t: int) returns (target: Option<Target>)
      requires Valid()
      ensures target == Stored(Table(), s, t)
    {
      if 0 <= t <= MAX_DFA_EDGE && (s, t) in decisionToDFA[mode].edges {
        return Some(decisionToDFA[mode].edges[(s, t)]);
      }
      target := None;
    }

    method AddDFAState(configs: seq<Config>)
      requires Valid()
      modifies this`decisionToDFA
      ensures Valid() && decisionToDFA == old(Tables(WithState(Table(), configs)))
    {
      var d := decisionToDFA[mode];
      decisionToDFA := decisionToDFA[mode := Dfa(d.states + {configs}, d.edges, d.s0)];
    }

    method AddDFAEdge(s: seq<Config>, t: int, target: Target)
      requires Valid()
      modifies this`decisionToDFA
      ensures Valid() && decisionToDFA == old(Tables(WithEdge(Table(), s, t, target)))
      ensures 0 <= t <= 127 ==> Stored(Table(), s, t) == Some(target)
      ensures forall r: seq<Config>, u :: (r, u) != (s, t) ==> Stored(Table(), r, u) == old(Stored(Table(), r, u))
    {
      if t < 0 || t > MAX_DFA_EDGE {
        return;
      }
      var d := decisionToDFA[mode];
      decisionToDFA := decisionToDFA[mode := Dfa(d.states, d.edges[(s, t) := target], d.s0)];
    }

    // The target on symbol t, computed; it is stored as an edge unless a predicate was asked.
    method ComputeTargetState(oracle: Oracle, input: CharStream, s: seq<Config>, t: int)
        returns (target: Option<Target>)
      requires Valid()
      modifies this`decisionToDFA
      ensures Valid()
      ensures var r := Reach(atn, oracle, input.index, input.index - startIndex, s, t, depth);
              if target.None? then r.Stuck? && decisionToDFA == old(decisionToDFA)
              else
                && r.Closed? && target.value == (if r.configs == [] then Error else To(r.configs))
                && decisionToDFA == old(Tables(WithTarget(Table(), s, t, r)))
    {
      var reach := new ConfigSet();
      var ended := GetReachableConfigSet(oracle, input, s, t, reach);
      if !ended {
        return None;
      }
      if reach.configs == [] {
        if !reach.hasSemanticContext {
          AddDFAEdge(s, t, Error);
        }
        return Some(Error);
      }
      AddDFAState(reach.configs);
      if !reach.hasSemanticContext {
        AddDFAEdge(s, t, To(reach.configs));
      }
      target := Some(To(reach.configs));
    }

    // The target on the symbol ahead, stored or computed.
    method TargetState(oracle: Oracle, input: CharStream, s: seq<Config>) returns (target: Option<Target>)
      requires Valid()
      modifies this`decisionToDFA
      ensures Valid()
      ensures var (next, d) := old(CachedNext(JobOf(oracle, input), Table(), s, Here(input)));
              target == next && decisionToDFA == old(Tables(d))
    {
      var t := input.Ahead();
      target := GetExistingTargetState(s, t);
      if target.None? {
        target := ComputeTargetState(oracle, input, s, t);
      }
    }

    method Consume(input: CharStream)
      requires input.Valid() && input.Ahead() != LexerAtn.EOF
      modifies this`line, this`charPositionInLine, input
      ensures input.Valid() && Here(input) == old(Consumed(input.data, Here(input)))
    {
      if input.Ahead() == '\n' as int {
        line := line + 1;
        charPositionInLine := 0;
      } else {
        charPositionInLine := charPositionInLine + 1;
      }
      input.Consume();
    }

    method ConsumeUnlessEof(oracle: Oracle, input: CharStream)
      requires input.Valid()
      modifies this`line, this`charPositionInLine, input
      ensures input.Valid() && Here(input) == old(LexerRun.Moved(JobOf(oracle, input), Here(input)))
    {
      if input.Ahead() != LexerAtn.EOF {
        Consume(input);
      }
    }

    method CaptureSimState(input: CharStream, s: seq<Config>)
      modifies this`prevAccept
      ensures prevAccept == Some(Accepted(Here(input), s))
    {
      prevAccept := Some(Accepted(Cursor(input.index, line, charPositionInLine), s));
    }

    // The current match, as the uncached run sees it.
    ghost function JobOf(oracle: Oracle, input: CharStream): Job
      reads this, input
    {
      Job(atn, input.data, startIndex, oracle, depth)
    }

    ghost predicate Captured(input: CharStream)
      reads this, input
    {
      prevAccept.Some? ==> Accepts(atn, prevAccept.value.configs) && prevAccept.value.at.index <= |input.data|
    }

    method FailOrAcceptToken(oracle: Oracle, input: CharStream, t: int) returns (o: Outcome)
      requires input.Valid() && Captured(input)
      modifies this`line, this`charPositionInLine, input
      ensures input.Valid() && o == old(FailOrAccept(JobOf(oracle, input), prevAccept, t, Here(input)))
      ensures o.Token? ==> Here(input) == o.at
      ensures !o.Token? ==> Here(input) == old(Here(input))
    {
      if prevAccept.Some? {
        var Accepted(at, cs) := prevAccept.value;
        input.Seek(at.index);
        line, charPositionInLine := at.line, at.column;
        return Token(Prediction(atn, cs), Executor(atn, cs), at);
      }
      if t == LexerAtn.EOF && input.index == startIndex {
        return EndOfFile;
      }
      o := NoViable(Cursor(input.index, line, charPositionInLine));
    }

    // The loop over the characters of the token: each step uses a stored edge or computes one.
    method ExecATN(oracle: Oracle, input: CharStream, ds0: seq<Config>, gas: nat) returns (o: Outcome)
      requires Valid() && input.Valid() && prevAccept.None? && startIndex == input.index
      modifies this`decisionToDFA, this`line, this`charPositionInLine, this`prevAccept, input
      ensures Valid() && input.Valid()
      ensures var job := JobOf(oracle, input);
              var (r, d) := old(CachedExec(JobOf(oracle, input), Table(), ds0, Here(input),
                  Marked(JobOf(oracle, input), None, ds0, Here(input)), gas));
              job == old(JobOf(oracle, input)) && o == r && decisionToDFA == old(Tables(d))
      ensures o.Token? || o.NoViable? ==> Here(input) == o.at
      ensures o.EndOfFile? ==> Here(input) == old(Here(input))
    {
      if Accepts(atn, ds0) {
        CaptureSimState(input, ds0);
      }
      ghost var job, start, mark, table := JobOf(oracle, input), Here(input), prevAccept, Table();
      var s := ds0;
      var left := gas;
      while left > 0
        invariant Valid() && input.Valid() && Captured(input)
        invariant job == JobOf(oracle, input) && start.index <= input.index
        invariant input.index == start.index ==> Here(input) == start
        invariant decisionToDFA == old(decisionToDFA)[mode := Table()]
        invariant CachedExec(job, table, ds0, start, mark, gas)
            == CachedExec(job, Table(), s, Here(input), prevAccept, left)
        decreases left
      {
        var ended, target := Turn(oracle, input, s, left);
        if ended.Some? {
          return ended.value;
        }
        s := target;
        left := left - 1;
      }
      o := Outcome.Stuck;
    }

    // One character: the outcome, or the next set.
    method Turn(oracle: Oracle, input: CharStream, s: seq<Config>, ghost gas: nat)
        returns (ended: Option<Outcome>, target: seq<Config>)
      requires Valid() && input.Valid() && Captured(input) && gas > 0
      modifies this`decisionToDFA, this`line, this`charPositionInLine, this`prevAccept, input
      ensures Valid() && input.Valid() && Captured(input) && decisionToDFA == old(decisionToDFA)[mode := Table()]
      ensures var r := old(CachedExec(JobOf(oracle, input), Table(), s, Here(input), prevAccept, gas));
              if ended.Some? then r == (ended.value, Table())
              else r == CachedExec(old(JobOf(oracle, input)), Table(), target, Here(input), prevAccept, gas - 1)
      ensures ended.None? ==> Here(input) == LexerRun.Moved(old(JobOf(oracle, input)), old(Here(input)))
      ensures ended.Some? && (ended.value.Token? || ended.value.NoViable?) ==> Here(input) == ended.value.at
      ensures ended.Some? && ended.value.EndOfFile? ==> Here(input) == old(Here(input)) && input.index == startIndex
    {
      var t := input.Ahead();
      target := [];
      var next := TargetState(oracle, input, s);
      if next.None? {
        return Some(Outcome.Stuck), [];
      }
      if next.value.Error? {
        var o := FailOrAcceptToken(oracle, input, t);
        return Some(o), [];
      }
      target := next.value.configs;
      ConsumeUnlessEof(oracle, input);
      if Accepts(atn, target) {
        CaptureSimState(input, target);
        if t == LexerAtn.EOF {
          var o := FailOrAcceptToken(oracle, input, t);
          return Some(o), [];
        }
      }
      ended := None;
    }

    // A match whose start state is not stored.
    method MatchATN(oracle: Oracle, input: CharStream, gas: nat) returns (o: Outcome)
      requires Valid() && input.Valid() && prevAccept.None? && startIndex == input.index && decisionToDFA[mode].s0.None?
      modifies this`decisionToDFA, this`line, this`charPositionInLine, this`prevAccept, input
      ensures Valid() && input.Valid()
      ensures var (r, d) := old(CachedMatch(JobOf(oracle, input), Table(), mode, Here(input), gas));
              o == r && decisionToDFA == old(Tables(d))
      ensures o.Token? || o.NoViable? ==> Here(input) == o.at
      ensures o.EndOfFile? ==> Here(input) == old(Here(input))
    {
      var s0Closure, ended := ComputeStartState(oracle, input);
      if !ended {
        return Outcome.Stuck;
      }
      var s0 := s0Closure.configs;
      AddDFAState(s0);
      if !s0Closure.hasSemanticContext {
        var d := decisionToDFA[mode];
        decisionToDFA := decisionToDFA[mode := Dfa(d.states, d.edges, Some(s0))];
      }
      o := ExecATN(oracle, input, s0, gas);
    }

    // A match from the tables of a mode.
    method FindToken(oracle: Oracle, input: CharStream, m: nat, gas: nat) returns (o: Outcome)
      requires Valid() && input.Valid() && m < |decisionToDFA|
      modifies this, input
      ensures Valid() && input.Valid()
      ensures var (r, d) :=
          old(CachedMatch(Job(atn, input.data, input.index, oracle, depth), decisionToDFA[m], m, Here(input), gas));
              o == r && decisionToDFA == old(decisionToDFA)[m := d]
      ensures o.Token? || o.NoViable? ==> Here(input) == o.at
      ensures o.EndOfFile? ==> Here(input) == old(Here(input))
    {
      mode := m;
      startIndex := input.index;
      prevAccept := None;
      var s0 := decisionToDFA[mode].s0;
      if s0.Some? {
        o := ExecATN(oracle, input, s0.value, gas);
      } else {
        o := MatchATN(oracle, input, gas);
      }
    }

    // A match is the cached match. Whatever earlier matches have stored, it gives what it gives with nothing stored:
    // but for offsets in every network, and with them where no rule consumes anything after an action that depends
    // on the position. What it stores is right with offsets exactly if the match is free.
    method MatchToken(oracle: Oracle, input: CharStream, m: nat, gas: nat) returns (o: Outcome)
      requires Valid() && input.Valid() && m < |decisionToDFA|
      modifies this, input
      ensures Valid() && input.Valid()
      ensures var (r, d) :=
          old(CachedMatch(Job(atn, input.data, input.index, oracle, depth), decisionToDFA[m], m, Here(input), gas));
              o == r && decisionToDFA == old(decisionToDFA)[m := d]
      ensures var job, here := Job(atn, input.data, old(input.index), oracle, depth), old(Here(input));
              old(AllHold()) ==>
                && AllHold() && PlainOutcome(o) == PlainOutcome(Match(job, m, here, gas))
                && (LexerSets.OneWay(atn) && !o.Stuck? ==> Lawful(job, m, here, o))
      ensures var job, here := Job(atn, input.data, old(input.index), oracle, depth), old(Here(input));
              old(AllRight()) ==>
                && (AllRight() <==> MatchFree(job, m, here, gas))
                && (MatchFree(job, m, here, gas) ==> o == Match(job, m, here, gas))
                && (TailActions(atn) ==> MatchFree(job, m, here, gas))
      ensures o.Token? || o.NoViable? ==> Here(input) == o.at
      ensures o.EndOfFile? ==> Here(input) == old(Here(input))
    {
      ghost var job, ds, at := Job(atn, input.data, input.index, oracle, depth), decisionToDFA, Here(input);
      ghost var r := CachedMatch(job, ds[m], m, at, gas);
      o := FindToken(oracle, input, m, gas);
      if Hold(atn, depth, ds) {
        MatchHolds(job, ds, m, at, gas, r);
        if LexerSets.OneWay(atn) && !o.Stuck? {
          MatchLawful(job, m, at, gas, o);
        }
      }
      if Right(atn, depth, ds) {
        MatchRights(job, ds, m, at, gas, r);
        if TailActions(atn) {
          TailsMatchFree(job, m, at, gas);
        }
      }
    }
  }
}
