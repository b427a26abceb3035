// The rule tree of a game, the game state the rules work on, and what one call of
// Rule::run does to that state.
module Rules {

  // The address of a rule object: each rule of a configuration has its own.
  type RuleId = nat

  // A rule state is filed under its rule and the parallel world it belongs to.
  datatype Key = Key(id: RuleId, world: nat)

  datatype Rule =
    | Leaf(id: RuleId)                                  // does its work at once
    | Input(id: RuleId)                                 // prompts a player, then polls for the answer
    | RuleList(id: RuleId, rules: seq<Rule>)
    | ForEach(id: RuleId, body: Rule)
    | Loop(id: RuleId, until: bool, body: Rule)
    | Cases(id: RuleId, arms: seq<Rule>)                // when and switch
    | AtMost(id: RuleId, duration: int, body: Rule)     // the at-most timer

  function Children(r: Rule): (cs: seq<Rule>)
    ensures forall c :: c in cs ==> c < r
  {
    match r
    case Leaf(_) => []
    case Input(_) => []
    case RuleList(_, rules) => rules
    case ForEach(_, body) => [body]
    case Loop(_, _, body) => [body]
    case Cases(_, arms) => arms
    case AtMost(_, _, body) => [body]
  }

  function Ids(r: Rule): set<RuleId>
    decreases r
  {
    {r.id} + set c, i | c in Children(r) && i in Ids(c) :: i
  }

  // Each rule object sits at one place of the tree (rules own their sub-rules by unique_ptr).
  ghost predicate WellFormed(r: Rule)
    decreases r
  {
    && (forall c :: c in Children(r) ==> r.id !in Ids(c) && WellFormed(c))
    && (forall i, j :: 0 <= i < j < |Children(r)| ==> Ids(Children(r)[i]) !! Ids(Children(r)[j]))
  }

  // No timer anywhere in the tree.
  ghost predicate Plain(r: Rule)
    decreases r
  {
    !r.AtMost? && forall c :: c in Children(r) ==> Plain(c)
  }

  // What the rules do that can be seen from outside, in order.
  datatype Event =
    | Ran(key: Key)                       // a leaf rule did its work
    | Bound(key: Key, element: nat)       // a for-each rule published an element
    | Asked(key: Key)                     // an input rule sent its prompt
    | Answered(key: Key)                  // an input rule stored its result
    | Checked(key: Key, expired: bool)    // a timer was asked whether it has expired

  type Log = seq<Event>

  // Everything the rules read that this model does not compute: the values conditions and
  // queries have once the events in the log have happened, and the clock.
  datatype Env = Env(
    cond: (Key, Log) -> bool,      // the condition of a loop
    count: (Key, Log) -> nat,      // the length of the list of a for-each rule
    arm: (Key, Log) -> nat,        // the first case whose condition holds, if any
    polls: (Key, Log) -> nat,      // how often an input rule polls in vain
    now: nat -> int)               // the n-th reading of the clock

  datatype RuleState =
    | ListAt(next: nat)
    | ForEachAt(size: nat, next: nat)
    | Waiting(left: nat)
    | Branches(lastRun: seq<Rule>)
    | Deadline(at: int)

  datatype Callback = Parallel(id: RuleId) | ParallelFor(id: RuleId) | Timer(id: RuleId)

  datatype Game = Game(
    callbacks: seq<Callback>,
    states: map<Key, RuleState>,
    world: nat,
    log: Log,
    ticks: nat)          // how often the clock has been read

  function KeyOf(r: Rule, g: Game): Key { Key(r.id, g.world) }

  // Where the state of a callback's rule is looked up: ParallelForRule::check ignores the world.
  function CallbackKey(c: Callback, world: nat): Key {
    match c
    case Parallel(id) => Key(id, world)
    case ParallelFor(id) => Key(id, 0)
    case Timer(id) => Key(id, world)
  }

  function Emit(g: Game, e: Event): Game { g.(log := g.log + [e]) }

  function Put(g: Game, k: Key, s: RuleState): Game { g.(states := g.states[k := s]) }

  function Drop(g: Game, k: Key): Game { g.(states := g.states - {k}) }

  function Deregister(cs: seq<Callback>, c: Callback): seq<Callback> {
    if cs == [] then []
    else Deregister(cs[..|cs| - 1], c) + if cs[|cs| - 1] == c then [] else [cs[|cs| - 1]]
  }

  // The answer of checkCallbacks; Crash stands for a null rule state.
  datatype Verdict = Crash | Verdict(g: Game, stop: bool, resumed: bool)

  // The callbacks below position n, asked from the latest to the first.
  function CheckFrom(env: Env, g: Game, n: nat, who: Rule): (v: Verdict)
    requires n <= |g.callbacks|
    decreases n
  {
    if n == 0 then Verdict(g, false, false)
    else
      var c := g.callbacks[n - 1];
      var k := CallbackKey(c, g.world);
      if k !in g.states then Crash
      else if c.Timer? then
        if !g.states[k].Deadline? then Crash
        else
          var expired := !(env.now(g.ticks) < g.states[k].at);
          var g' := Emit(g.(ticks := g.ticks + 1), Checked(k, expired));
          if expired then Verdict(g', true, false) else CheckFrom(env, g', n - 1, who)
      else
        if !g.states[k].Branches? then Crash
        else Verdict(Put(g, k, Branches(g.states[k].lastRun + [who])), true, true)
  }

  function Check(env: Env, g: Game, who: Rule): Verdict {
    CheckFrom(env, g, |g.callbacks|, who)
  }

  // The rule's own program counter is still there, and of its own kind.
  predicate HasSpot(r: Rule, g: Game) {
    var k := KeyOf(r, g);
    match r
    case Input(_) => k in g.states && g.states[k].Waiting? && g.states[k].left > 0
    case RuleList(_, _) => k in g.states && g.states[k].ListAt?
    case ForEach(_, _) => k in g.states && g.states[k].ForEachAt?
    case _ => true
  }

  function Advance(r: Rule, g: Game): Game
    requires HasSpot(r, g)
  {
    var k := KeyOf(r, g);
    match r
    case Input(_) => Put(g, k, Waiting(g.states[k].left - 1))
    case RuleList(_, _) => Put(g, k, ListAt(g.states[k].next + 1))
    case ForEach(_, _) => Put(g, k, ForEachAt(g.states[k].size, g.states[k].next + 1))
    case _ => g
  }

  // Stuck: the run uses up its gas (it may go on for ever) or meets a missing rule state.
  datatype Outcome = Stuck | Done(g: Game, gas: nat)

  // How a call of run begins: it is over at once, polls, runs a sub-rule and comes back after
  // it, or hands over to a sub-rule; Broken stands for a rule state of the wrong kind.
  datatype Start = Broken | Over(g: Game) | Polls(g: Game) | Works(child: Rule, g: Game) | Hands(child: Rule, g: Game)

  function Begin(env: Env, r: Rule, g: Game): Start
    requires !r.AtMost?
  {
    var k := KeyOf(r, g);
    match r
    case Leaf(_) => Over(Emit(g, Ran(k)))
    case Input(_) =>
      var g0 := if k in g.states then g else Emit(Put(g, k, Waiting(env.polls(k, g.log))), Asked(k));
      if !g0.states[k].Waiting? then Broken
      else if g0.states[k].left == 0 then Over(Drop(Emit(g0, Answered(k)), k))
      else Polls(g0)
    case RuleList(_, rules) =>
      var g0 := if k in g.states then g else Put(g, k, ListAt(0));
      if !g0.states[k].ListAt? then Broken
      else if g0.states[k].next >= |rules| then Over(Drop(g0, k))
      else Works(rules[g0.states[k].next], g0)
    case ForEach(_, body) =>
      var g0 := if k in g.states then g else Put(g, k, ForEachAt(env.count(k, g.log), 0));
      if !g0.states[k].ForEachAt? then Broken
      else if g0.states[k].next >= g0.states[k].size then Over(Drop(g0, k))
      else Works(body, Emit(g0, Bound(k, g0.states[k].next)))
    case Loop(_, until, body) =>
      if until != env.cond(k, g.log) then Works(body, g) else Over(g)
    case Cases(_, arms) =>
      var a := env.arm(k, g.log);
      if a < |arms| then Hands(arms[a], g) else Over(g)
  }

  // The game as an at-most timer hands it to its body.
  function Armed(env: Env, r: Rule, g: Game): Game
    requires r.AtMost?
  {
    Put(g, KeyOf(r, g), Deadline(env.now(g.ticks) + r.duration)).(ticks := g.ticks + 1, callbacks :=
        g.callbacks + [Timer(r.id)])
  }

  // One call of run. Gas counts the work: it bounds loops that need not end. A rule that goes
  // round its loop is described by running it again on the state it left: a call that finds the
  // rule's state continues where that state says.
  function Run(env: Env, r: Rule, g: Game, gas: nat): (o: Outcome)
    ensures o.Done? ==> o.gas < gas
    decreases gas, 0
  {
    if gas == 0 then Stuck
    else if r.AtMost? then
      match Run(env, r.body, Armed(env, r, g), gas - 1)
      case Stuck => Stuck
      case Done(g1, gas1) => Done(Drop(g1.(callbacks := Deregister(g1.callbacks, Timer(r.id))), KeyOf(r, g1)), gas1)
    else Continue(env, r, Begin(env, r, g), gas - 1)
  }

  // What the call goes on to do.
  function Continue(env: Env, r: Rule, b: Start, gas: nat): (o: Outcome)
    ensures o.Done? ==> o.gas <= gas
    decreases gas, 3
  {
    match b
    case Broken => Stuck
    case Over(g) => Done(g, gas)
    case Polls(g) => Settle(env, r, g, gas)
    case Works(child, g) => Sub(env, r, child, g, gas)
    case Hands(child, g) => Run(env, child, g, gas)
  }

  // Runs the sub-rule, then what r does after it.
  function Sub(env: Env, r: Rule, child: Rule, g: Game, gas: nat): (o: Outcome)
    ensures o.Done? ==> o.gas <= gas
    decreases gas, 2
  {
    match Run(env, child, g, gas)
    case Stuck => Stuck
    case Done(g1, gas1) => Settle(env, r, g1, gas1)
  }

  // After a sub-rule (or a poll) r asks the callbacks, steps on, and returns or goes on.
  function Settle(env: Env, r: Rule, g: Game, gas: nat): (o: Outcome)
    ensures o.Done? ==> o.gas <= gas
    decreases gas, 1
  {
    match Check(env, g, r)
    case Crash => Stuck
    case Verdict(g1, stop, resumed) =>
      if !HasSpot(r, g1) then Stuck
      else
        var g2 := Advance(r, g1);
        if !stop then Run(env, r, g2, gas)
        else if resumed || r.Loop? then Done(g2, gas)
        else Done(Drop(g2, KeyOf(r, g2)), gas)
  }
}
