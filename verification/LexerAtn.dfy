// The transition network of a lexer, and the closure and reach computations on its configurations.
module LexerAtn {
  const EOF: int := -1
  const MAX_CHAR: int := 0x10FFFF

  datatype Transition =
    | Epsilon(target: nat)
    | Rule(target: nat, follow: nat)
    | Predicate(target: nat, rule: nat, pred: nat)
    | Act(target: nat, action: nat)
    | Range(target: nat, low: int, high: int)
    | Chars(target: nat, chars: set<int>)
    | NotChars(target: nat, chars: set<int>)
    | Wildcard(target: nat)

  datatype State = State(transitions: seq<Transition>, stop: bool, rule: nat, epsilonOnly: bool, nonGreedy: bool)

  // An action of the grammar; one that depends on the position is run where it stands in the token.
  datatype Action = Action(positionDependent: bool)

  datatype Atn = Atn(states: seq<State>, actions: seq<Action>, ruleToTokenType: seq<int>, modeToStartState: seq<nat>)

  // An action to run for a token, with its offset in the token once that is fixed.
  datatype Step = Step(action: nat, offset: int)

  const UNFIXED: int := -1

  datatype Config = Config(state: nat, alt: nat, context: seq<nat>, steps: seq<Step>, nonGreedy: bool)

  // Answers of the recognizer to rule, predicate, input position, and whether the next character is
  // consumed before asking.
  type Oracle = (nat, nat, nat, bool) -> bool

  // The configurations of a set, in order, whether the alternative that was followed came to an
  // accept state, and whether a predicate was asked. Stuck when the recursion goes too deep.
  datatype Closed = Stuck | Closed(configs: seq<Config>, accepted: bool, asked: bool)

  function At(a: Atn, s: nat): State {
    if s < |a.states| then a.states[s] else State([], false, 0, false, false)
  }

  function TokenType(a: Atn, rule: nat): int {
    if rule < |a.ruleToTokenType| then a.ruleToTokenType[rule] else 0
  }

  predicate Dependent(a: Atn, action: nat) {
    action < |a.actions| && a.actions[action].positionDependent
  }

  predicate Consuming(t: Transition) { t.Range? || t.Chars? || t.NotChars? || t.Wildcard? }

  predicate Matches(t: Transition, symbol: int) {
    match t
    case Range(_, low, high) => low <= symbol <= high
    case Chars(_, chars) => symbol in chars
    case NotChars(_, chars) => 0 <= symbol <= MAX_CHAR && symbol !in chars
    case Wildcard(_) => 0 <= symbol <= MAX_CHAR
    case _ => false
  }

  function Moved(a: Atn, c: Config, target: nat): Config {
    Config(target, c.alt, c.context, c.steps, c.nonGreedy || At(a, target).nonGreedy)
  }

  function Added(configs: seq<Config>, c: Config): seq<Config> {
    if c in configs then configs else configs + [c]
  }

  function Popped(a: Atn, c: Config): Config
    requires c.context != []
  {
    var n := |c.context| - 1;
    Moved(a, Config(c.state, c.alt, c.context[..n], c.steps, c.nonGreedy), c.context[n])
  }

  datatype Option<T> = None | Some(value: T)

  // Where an epsilon step leads, if it may be taken.
  function EpsilonTarget(a: Atn, oracle: Oracle, index: nat, c: Config, t: Transition, speculative: bool,
      eof: bool): Option<Config> {
    match t
    case Epsilon(target) => Some(Moved(a, c, target))
    case Rule(target, follow) =>
      Some(Moved(a, Config(c.state, c.alt, c.context + [follow], c.steps, c.nonGreedy), target))
    case Predicate(target, rule, pred) => if oracle(rule, pred, index, speculative) then Some(Moved(a, c, target))
        else None
    case Act(target, action) =>
      // actions of referenced rules are ignored
      var steps := if c.context == [] then c.steps + [Step(action, UNFIXED)] else c.steps;
      Some(Moved(a, Config(c.state, c.alt, c.context, steps, c.nonGreedy), target))
    case Range(target, _, _) => if eof && Matches(t, EOF) then Some(Moved(a, c, target)) else None
    case Chars(target, _) => if eof && Matches(t, EOF) then Some(Moved(a, c, target)) else None
    case _ => None
  }

  // The configurations that c leads to without consuming a character, added to those of r.
  function Closure(a: Atn, oracle: Oracle, index: nat, c: Config, r: Closed, speculative: bool, eof: bool,
      depth: nat): Closed
    decreases depth, 0
  {
    if r.Stuck? || depth == 0 then Stuck
    else if At(a, c.state).stop then
      if c.context == [] then Closed(Added(r.configs, c), true, r.asked)
      else Closure(a, oracle, index, Popped(a, c), r, speculative, eof, depth - 1)
    else
      var keep := !At(a, c.state).epsilonOnly && (!r.accepted || !c.nonGreedy);
      var first := if keep then Closed(Added(r.configs, c), r.accepted, r.asked) else r;
      Closures(a, oracle, index, c, At(a, c.state).transitions, first, speculative, eof, depth - 1)
  }

  // ... by each of some transitions in turn.
  function Closures(a: Atn, oracle: Oracle, index: nat, c: Config, ts: seq<Transition>, r: Closed, speculative: bool,
      eof: bool, depth: nat): Closed
    decreases depth, |ts| + 1
  {
    if r.Stuck? || ts == [] then r
    else
      var before := Closures(a, oracle, index, c, ts[..|ts| - 1], r, speculative, eof, depth);
      ClosureStep(a, oracle, index, c, ts[|ts| - 1], before, speculative, eof, depth)
  }

  function ClosureStep(a: Atn, oracle: Oracle, index: nat, c: Config, t: Transition, r: Closed, speculative: bool,
      eof: bool, depth: nat): Closed
    decreases depth, 1
  {
    if r.Stuck? then r
    else
      var asked := Closed(r.configs, r.accepted, r.asked || t.Predicate?);
      match EpsilonTarget(a, oracle, index, c, t, speculative, eof)
      case None => asked
      case Some(next) => Closure(a, oracle, index, next, asked, speculative, eof, depth)
  }

  // An action that depends on the position gets its offset before the next character is consumed.
  function Fixed(a: Atn, steps: seq<Step>, offset: int): (r: seq<Step>)
    ensures |r| == |steps|
  {
    seq(|steps|, i requires 0 <= i < |steps| =>
      if Dependent(a, steps[i].action) && steps[i].offset == UNFIXED then Step(steps[i].action, offset) else steps[i])
  }

  // The state of the reach computation: the set so far and the alternative to skip; 0 is none.
  datatype Reaching = Reaching(set_: Closed, skipAlt: nat)

  // One transition of a configuration on symbol t. Once the alternative came to an accept state, the
  // other transitions of the configuration are not followed.
  function ReachStep(a: Atn, oracle: Oracle, index: nat, offset: int, c: Config, t: Transition, symbol: int,
      r: Reaching, done: bool, depth: nat): (Reaching, bool) {
    if done || r.set_.Stuck? || !Matches(t, symbol) then (r, done)
    else
      var next := Moved(a, Config(c.state, c.alt, c.context, Fixed(a, c.steps, offset), c.nonGreedy), t.target);
      var start := Closed(r.set_.configs, c.alt == r.skipAlt, r.set_.asked);
      var closed := Closure(a, oracle, index, next, start, true, symbol == EOF, depth);
      if closed.Closed? && closed.accepted then (Reaching(closed, c.alt), true)
          else (Reaching(closed, r.skipAlt), false)
  }

  function ReachSteps(a: Atn, oracle: Oracle, index: nat, offset: int, c: Config, ts: seq<Transition>, symbol: int,
      r: Reaching, depth: nat): (Reaching, bool)
    decreases |ts|
  {
    if ts == [] then (r, false)
    else
      var (before, done) := ReachSteps(a, oracle, index, offset, c, ts[..|ts| - 1], symbol, r, depth);
      ReachStep(a, oracle, index, offset, c, ts[|ts| - 1], symbol, before, done, depth)
  }

  // ... and of each configuration in turn; one that lost to an accepted one of its alternative is skipped.
  function ReachAll(a: Atn, oracle: Oracle, index: nat, offset: int, cs: seq<Config>, symbol: int, depth: nat): Reaching
    decreases |cs|
  {
    if cs == [] then Reaching(Closed([], false, false), 0)
    else
      var c := cs[|cs| - 1];
      var before := ReachAll(a, oracle, index, offset, cs[..|cs| - 1], symbol, depth);
      if c.alt == before.skipAlt && c.nonGreedy then before
      else ReachSteps(a, oracle, index, offset, c, At(a, c.state).transitions, symbol, before, depth).0
  }

  function Reach(a: Atn, oracle: Oracle, index: nat, offset: int, cs: seq<Config>, symbol: int, depth: nat): Closed {
    ReachAll(a, oracle, index, offset, cs, symbol, depth).set_
  }

  // The start state of a mode: the closures of its rules, numbered from 1.
  function Starts(a: Atn, oracle: Oracle, index: nat, ts: seq<Transition>, depth: nat): Closed
    decreases |ts|
  {
    if ts == [] then Closed([], false, false)
    else
      var before := Starts(a, oracle, index, ts[..|ts| - 1], depth);
      if before.Stuck? then before
      else Closure(a, oracle, index, Config(ts[|ts| - 1].target, |ts|, [], [], false),
          Closed(before.configs, false, before.asked), false, false, depth)
  }

  function StartOf(a: Atn, mode: nat): nat {
    if mode < |a.modeToStartState| then a.modeToStartState[mode] else 0
  }

  function StartState(a: Atn, oracle: Oracle, index: nat, mode: nat, depth: nat): Closed {
    Starts(a, oracle, index, At(a, StartOf(a, mode)).transitions, depth)
  }

  // The first configuration at the end of a rule, by position; the length if there is none.
  function FirstStop(a: Atn, cs: seq<Config>): (i: nat)
    ensures i <= |cs| && (i < |cs| ==> At(a, cs[i].state).stop)
    ensures forall k :: 0 <= k < i ==> !At(a, cs[k].state).stop
  {
    if cs == [] then 0
    else
      var i := FirstStop(a, cs[..|cs| - 1]);
      if i < |cs| - 1 || At(a, cs[|cs| - 1].state).stop then i else |cs|
  }

  predicate Accepts(a: Atn, cs: seq<Config>) { FirstStop(a, cs) < |cs| }

  function Prediction(a: Atn, cs: seq<Config>): int
    requires Accepts(a, cs)
  {
    TokenType(a, At(a, cs[FirstStop(a, cs)].state).rule)
  }

  function Executor(a: Atn, cs: seq<Config>): seq<Step>
    requires Accepts(a, cs)
  {
    cs[FirstStop(a, cs)].steps
  }
}
