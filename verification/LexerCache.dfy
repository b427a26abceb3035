// Caching the reach computation of a lexer: what asks no predicate is computed the same whatever the predicates
// answer by then; and a match with the edges that earlier matches have stored.
module LexerCache {
  import opened LexerAtn
  import opened LexerRun
  import opened LexerTails

  predicate Unasked(r: Closed) { r.Closed? && !r.asked }

  lemma {:induction false} ClosureSame(a: Atn, o: Oracle, i: nat, p: Oracle, j: nat, c: Config, r: Closed,
      speculative: bool, eof: bool, depth: nat)
    requires Unasked(Closure(a, o, i, c, r, speculative, eof, depth))
    ensures Closure(a, p, j, c, r, speculative, eof, depth) == Closure(a, o, i, c, r, speculative, eof, depth)
        && Unasked(r)
    decreases depth, 0
  {
    if At(a, c.state).stop {
      if c.context != [] {
        ClosureSame(a, o, i, p, j, Popped(a, c), r, speculative, eof, depth - 1);
      }
    } else {
      var keep := !At(a, c.state).epsilonOnly && (!r.accepted || !c.nonGreedy);
      var first := if keep then Closed(Added(r.configs, c), r.accepted, r.asked) else r;
      ClosuresSame(a, o, i, p, j, c, At(a, c.state).transitions, first, speculative, eof, depth - 1);
    }
  }

  lemma {:induction false} ClosuresSame(a: Atn, o: Oracle, i: nat, p: Oracle, j: nat, c: Config, ts: seq<Transition>,
      r: Closed, speculative: bool, eof: bool, depth: nat)
    requires Unasked(Closures(a, o, i, c, ts, r, speculative, eof, depth))
    ensures Closures(a, p, j, c, ts, r, speculative, eof, depth) == Closures(a, o, i, c, ts, r, speculative, eof, depth)
        && Unasked(r)
    decreases depth, |ts| + 1
  {
    if ts != [] {
      var before := Closures(a, o, i, c, ts[..|ts| - 1], r, speculative, eof, depth);
      ClosureStepSame(a, o, i, p, j, c, ts[|ts| - 1], before, speculative, eof, depth);
      ClosuresSame(a, o, i, p, j, c, ts[..|ts| - 1], r, speculative, eof, depth);
    }
  }

  lemma {:induction false} ClosureStepSame(a: Atn, o: Oracle, i: nat, p: Oracle, j: nat, c: Config, t: Transition,
      r: Closed, speculative: bool, eof: bool, depth: nat)
    requires Unasked(ClosureStep(a, o, i, c, t, r, speculative, eof, depth))
    ensures ClosureStep(a, p, j, c, t, r, speculative, eof, depth)
        == ClosureStep(a, o, i, c, t, r, speculative, eof, depth) && Unasked(r)
    decreases depth, 1
  {
    var asked := Closed(r.configs, r.accepted, r.asked || t.Predicate?);
    var target := EpsilonTarget(a, o, i, c, t, speculative, eof);
    if target.Some? {
      ClosureSame(a, o, i, p, j, target.value, asked, speculative, eof, depth);
    }
    assert !t.Predicate?;
  }

  lemma ReachStepSame(a: Atn, o: Oracle, i: nat, m: int, p: Oracle, j: nat, n: int, c: Config, t: Transition,
      symbol: int, r: Reaching, done: bool, depth: nat)
    requires m == n || (TailActions(a) && Waits(a, c) && t in At(a, c.state).transitions)
    requires Unasked(ReachStep(a, o, i, m, c, t, symbol, r, done, depth).0.set_)
    ensures ReachStep(a, p, j, n, c, t, symbol, r, done, depth) == ReachStep(a, o, i, m, c, t, symbol, r, done, depth)
        && Unasked(r.set_)
  {
    if !done && Matches(t, symbol) {
      if m != n {
        ConsumesSettled(a, c, t, symbol);
        FixedSame(a, c.steps, m);
        FixedSame(a, c.steps, n);
      }
      var next := LexerAtn.Moved(a, Config(c.state, c.alt, c.context, Fixed(a, c.steps, m), c.nonGreedy), t.target);
      ClosureSame(a, o, i, p, j, next, Closed(r.set_.configs, c.alt == r.skipAlt, r.set_.asked), true,
          symbol == LexerAtn.EOF, depth);
    }
  }

  lemma {:induction false} ReachStepsSame(a: Atn, o: Oracle, i: nat, m: int, p: Oracle, j: nat, n: int, c: Config,
      ts: seq<Transition>, symbol: int, r: Reaching, depth: nat)
    requires m == n || (TailActions(a) && Waits(a, c) && ts <= At(a, c.state).transitions)
    requires Unasked(ReachSteps(a, o, i, m, c, ts, symbol, r, depth).0.set_)
    ensures ReachSteps(a, p, j, n, c, ts, symbol, r, depth) == ReachSteps(a, o, i, m, c, ts, symbol, r, depth)
        && Unasked(r.set_)
    decreases |ts|
  {
    if ts != [] {
      var k := |ts| - 1;
      var (before, done) := ReachSteps(a, o, i, m, c, ts[..k], symbol, r, depth);
      assert m != n ==> ts[k] == At(a, c.state).transitions[k];
      ReachStepSame(a, o, i, m, p, j, n, c, ts[k], symbol, before, done, depth);
      ReachStepsSame(a, o, i, m, p, j, n, c, ts[..k], symbol, r, depth);
    }
  }

  lemma {:induction false} ReachAllSame(a: Atn, o: Oracle, i: nat, m: int, p: Oracle, j: nat, n: int, cs: seq<Config>,
      symbol: int, depth: nat)
    requires m == n || (TailActions(a) && AllWait(a, cs))
    requires Unasked(ReachAll(a, o, i, m, cs, symbol, depth).set_)
    ensures ReachAll(a, p, j, n, cs, symbol, depth) == ReachAll(a, o, i, m, cs, symbol, depth)
    decreases |cs|
  {
    if cs != [] {
      var c, before := cs[|cs| - 1], ReachAll(a, o, i, m, cs[..|cs| - 1], symbol, depth);
      if !(c.alt == before.skipAlt && c.nonGreedy) {
        ReachStepsSame(a, o, i, m, p, j, n, c, At(a, c.state).transitions, symbol, before, depth);
      }
      ReachAllSame(a, o, i, m, p, j, n, cs[..|cs| - 1], symbol, depth);
    }
  }

  // A reach computation that asked no predicate is the same for all predicates and positions; for all offsets, too,
  // where nothing that waits for one is consumed behind.
  lemma ReachSame(a: Atn, o: Oracle, i: nat, m: int, p: Oracle, j: nat, n: int, cs: seq<Config>, symbol: int,
      depth: nat)
    requires m == n || (TailActions(a) && AllWait(a, cs))
    requires Unasked(Reach(a, o, i, m, cs, symbol, depth))
    ensures Reach(a, p, j, n, cs, symbol, depth) == Reach(a, o, i, m, cs, symbol, depth)
  {
    ReachAllSame(a, o, i, m, p, j, n, cs, symbol, depth);
  }

  lemma {:induction false} StartsSame(a: Atn, o: Oracle, i: nat, p: Oracle, j: nat, ts: seq<Transition>, depth: nat)
    requires Unasked(Starts(a, o, i, ts, depth))
    ensures Starts(a, p, j, ts, depth) == Starts(a, o, i, ts, depth)
    decreases |ts|
  {
    if ts != [] {
      var before := Starts(a, o, i, ts[..|ts| - 1], depth);
      ClosureSame(a, o, i, p, j, Config(ts[|ts| - 1].target, |ts|, [], [], false),
          Closed(before.configs, false, before.asked), false, false, depth);
      StartsSame(a, o, i, p, j, ts[..|ts| - 1], depth);
    }
  }

  // The state an edge leads to; Error where no configuration is left.
  datatype Target = Error | To(configs: seq<Config>)

  datatype Dfa = Dfa(states: set<seq<Config>>, edges: map<(seq<Config>, int), Target>, s0: Option<seq<Config>>)

  const MAX_DFA_EDGE: int := 127

  function Configs(t: Target): seq<Config> { if t.Error? then [] else t.configs }

  function Yes(): Oracle { (rule: nat, pred: nat, index: nat, speculative: bool) => true }

  // The edge stored for a symbol, if any; only a small range of symbols has edges.
  function Stored(d: Dfa, s: seq<Config>, t: int): Option<Target> {
    if 0 <= t <= MAX_DFA_EDGE && (s, t) in d.edges then Some(d.edges[(s, t)]) else None
  }

  function WithEdge(d: Dfa, s: seq<Config>, t: int, target: Target): Dfa {
    if t < 0 || t > MAX_DFA_EDGE then d else Dfa(d.states, d.edges[(s, t) := target], d.s0)
  }

  function WithState(d: Dfa, configs: seq<Config>): Dfa { Dfa(d.states + {configs}, d.edges, d.s0) }

  // What is kept of a target computed: its edge too, unless a predicate was asked.
  function WithTarget(d: Dfa, s: seq<Config>, t: int, r: Closed): Dfa
    requires r.Closed?
  {
    if r.configs == [] then if r.asked then d else WithEdge(d, s, t, Error)
    else if r.asked then WithState(d, r.configs)
    else WithEdge(WithState(d, r.configs), s, t, To(r.configs))
  }

  // The target on the next symbol, stored or computed; None if the computation goes too deep.
  function CachedNext(job: Job, d: Dfa, s: seq<Config>, at: Cursor): (Option<Target>, Dfa) {
    var t := LA(job.input, at.index);
    match Stored(d, s, t)
    case Some(target) => (Some(target), d)
    case None =>
      match Next(job, s, at)
      case Stuck => (None, d)
      case Closed(configs, accepted, asked) =>
        (Some(if configs == [] then Error else To(configs)), WithTarget(d, s, t, Closed(configs, accepted, asked)))
  }

  // The loop of execATN with the edges of earlier matches, and the edges it leaves.
  function CachedExec(job: Job, d: Dfa, cs: seq<Config>, at: Cursor, last: Option<Accepted>, gas: nat): (Outcome, Dfa)
    requires Sound(job, last)
    decreases gas
  {
    if gas == 0 then (Outcome.Stuck, d)
    else
      var (target, d') := CachedNext(job, d, cs, at);
      var symbol := LA(job.input, at.index);
      match target
      case None => (Outcome.Stuck, d')
      case Some(Error) => (FailOrAccept(job, last, symbol, at), d')
      case Some(To(configs)) =>
        if Accepts(job.atn, configs) && symbol == LexerAtn.EOF then (TokenOf(job, Accepted(at, configs)), d')
        else
          var there := LexerRun.Moved(job, at);
          CachedExec(job, d', configs, there, Marked(job, last, configs, there), gas - 1)
  }

  function WithStart(d: Dfa, r: Closed): Dfa
    requires r.Closed?
  {
    var e := WithState(d, r.configs);
    if r.asked then e else Dfa(e.states, e.edges, Some(r.configs))
  }

  // A match with what earlier matches have stored.
  function CachedMatch(job: Job, d: Dfa, mode: nat, at: Cursor, gas: nat): (Outcome, Dfa) {
    match d.s0
    case Some(cs) => CachedExec(job, d, cs, at, Marked(job, None, cs, at), gas)
    case None =>
      match StartState(job.atn, job.oracle, at.index, mode, job.depth)
      case Stuck => (Outcome.Stuck, d)
      case Closed(cs, accepted, asked) =>
        CachedExec(job, WithStart(d, Closed(cs, accepted, asked)), cs, at, Marked(job, None, cs, at), gas)
  }
}
