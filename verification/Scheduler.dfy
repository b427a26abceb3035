// The game state and the run methods of the rules, as they change it in place.
module Scheduler {
  import opened Rules
  import opened Isolation
  import opened Coroutine
  import opened Interleaving
  import opened ParallelRules
  import opened Rounds
  import opened Schedule

  class GameState {
    var callbacks: seq<Callback>
    var ruleStates: map<Key, RuleState>
    var parallelWorldNumber: nat
    var log: Log
    var ticks: nat

    ghost function Abs(): Game
      reads this
    {
      Game(callbacks, ruleStates, parallelWorldNumber, log, ticks)
    }

    function StateKey(r: Rule): Key
      reads this
    {
      Key(r.id, parallelWorldNumber)
    }

    method RegisterCallback(c: Callback)
      modifies this`callbacks
      ensures callbacks == old(callbacks) + [c]
    {
      callbacks := callbacks + [c];
    }

    method DeregisterCallback(c: Callback)
      modifies this`callbacks
      ensures callbacks == Deregister(old(callbacks), c)
      ensures c !in callbacks && forall x :: x != c ==> multiset(callbacks)[x] == multiset(old(callbacks))[x]
    {
      DeregisterAll(callbacks, c);
      var kept, i := [], 0;
      while i < |callbacks|
        invariant i <= |callbacks|
        invariant kept == Deregister(callbacks[..i], c)
      {
        assert callbacks[..i + 1][..i] == callbacks[..i];
        if callbacks[i] != c {
          kept := kept + [callbacks[i]];
        }
        i := i + 1;
      }
      assert callbacks[..i] == callbacks;
      callbacks := kept;
    }

    // Asks the callbacks from the latest to the first; the first that stops the rule decides.
    method CheckCallbacks(env: Env, who: Rule) returns (stop: bool, resumed: bool)
      requires Check(env, Abs(), who).Verdict?
      modifies this`ruleStates, this`log, this`ticks
      ensures Check(env, old(Abs()), who) == Verdict(Abs(), stop, resumed)
    {
      var n: nat := |callbacks|;
      while n > 0
        invariant n <= |callbacks|
        invariant CheckFrom(env, Abs(), n, who) == Check(env, old(Abs()), who)
      {
        var key := CallbackKey(callbacks[n - 1], parallelWorldNumber);
        match callbacks[n - 1] {
          case Timer(_) =>
            var expired := !(env.now(ticks) < ruleStates[key].at);
            ticks := ticks + 1;
            log := log + [Checked(key, expired)];
            if expired {
              return true, false;
            }
          case _ =>
            ruleStates := ruleStates[key := Branches(ruleStates[key].lastRun + [who])];
            return true, true;
        }
        n := n - 1;
      }
      return false, false;
    }

    // Rule::run.
    method RunRule(env: Env, r: Rule, ghost gas: nat) returns (ghost left: nat)
      requires Run(env, r, Abs(), gas).Done?
      modifies this
      ensures Run(env, r, old(Abs()), gas) == Done(Abs(), left)
      decreases gas, 1
    {
      match r {
        case Leaf(_) =>
          log := log + [Ran(StateKey(r))];
          left := gas - 1;
        case Input(_) => left := RunInput(env, r, gas);
        case RuleList(_, _) => left := RunRuleList(env, r, gas);
        case ForEach(_, _) => left := RunForEach(env, r, gas);
        case Loop(_, _, _) => left := RunLoop(env, r, gas);
        case Cases(_, arms) =>
          var a := env.arm(StateKey(r), log);
          if a < |arms| {
            left := RunRule(env, arms[a], gas - 1);
          } else {
            left := gas - 1;
          }
        case AtMost(_, _, _) => left := RunAtMost(env, r, gas);
      }
    }

    method RunRuleList(env: Env, r: Rule, ghost gas: nat) returns (ghost left: nat)
      requires r.RuleList? && Run(env, r, Abs(), gas).Done?
      modifies this
      ensures Run(env, r, old(Abs()), gas) == Done(Abs(), left)
      decreases gas, 0
    {
      if StateKey(r) !in ruleStates {
        ruleStates := ruleStates[StateKey(r) := ListAt(0)];
      }
      left := gas;
      while ruleStates[StateKey(r)].next < |r.rules|
        invariant 0 < left <= gas
        invariant StateKey(r) in ruleStates && ruleStates[StateKey(r)].ListAt?
        invariant Run(env, r, Abs(), left) == Run(env, r, old(Abs()), gas)
        decreases left
      {
        assert Run(env, r, Abs(), left) == Sub(env, r, r.rules[ruleStates[StateKey(r)].next], Abs(), left - 1);
        left := RunRule(env, r.rules[ruleStates[StateKey(r)].next], left - 1);
        assert Run(env, r, old(Abs()), gas) == Settle(env, r, Abs(), left);
        var stop, resumed := CheckCallbacks(env, r);
        ruleStates := ruleStates[StateKey(r) := ListAt(ruleStates[StateKey(r)].next + 1)];
        if stop {
          if !resumed {
            ruleStates := ruleStates - {StateKey(r)};
          }
          return;
        }
      }
      ruleStates := ruleStates - {StateKey(r)};
      left := left - 1;
    }

    method RunForEach(env: Env, r: Rule, ghost gas: nat) returns (ghost left: nat)
      requires r.ForEach? && Run(env, r, Abs(), gas).Done?
      modifies this
      ensures Run(env, r, old(Abs()), gas) == Done(Abs(), left)
      decreases gas, 0
    {
      if StateKey(r) !in ruleStates {
        ruleStates := ruleStates[StateKey(r) := ForEachAt(env.count(StateKey(r), log), 0)];
      }
      left := gas;
      while ruleStates[StateKey(r)].next < ruleStates[StateKey(r)].size
        invariant 0 < left <= gas
        invariant StateKey(r) in ruleStates && ruleStates[StateKey(r)].ForEachAt?
        invariant Run(env, r, Abs(), left) == Run(env, r, old(Abs()), gas)
        decreases left
      {
        ghost var before := Abs();
        log := log + [Bound(StateKey(r), ruleStates[StateKey(r)].next)];
        assert Run(env, r, before, left) == Sub(env, r, r.body, Abs(), left - 1);
        left := RunRule(env, r.body, left - 1);
        assert Run(env, r, old(Abs()), gas) == Settle(env, r, Abs(), left);
        var stop := NextElement(env, r, left);
        if stop {
          return;
        }
      }
      ruleStates := ruleStates - {StateKey(r)};
      left := left - 1;
    }

    // After an element: ask the callbacks, and step on or stop.
    method NextElement(env: Env, r: Rule, ghost left: nat) returns (stop: bool)
      requires r.ForEach? && Settle(env, r, Abs(), left).Done?
      modifies this
      ensures old(Settle(env, r, Abs(), left)) == if stop then Done(Abs(), left) else Run(env, r, Abs(), left)
      ensures !stop ==> StateKey(r) in ruleStates && ruleStates[StateKey(r)].ForEachAt?
    {
      var resumed;
      stop, resumed := CheckCallbacks(env, r);
      var at := ruleStates[StateKey(r)];
      ruleStates := ruleStates[StateKey(r) := at.(next := at.next + 1)];
      if stop && !resumed {
        ruleStates := ruleStates - {StateKey(r)};
      }
    }

    method RunLoop(env: Env, r: Rule, ghost gas: nat) returns (ghost left: nat)
      requires r.Loop? && Run(env, r, Abs(), gas).Done?
      modifies this
      ensures Run(env, r, old(Abs()), gas) == Done(Abs(), left)
      decreases gas, 0
    {
      left := gas;
      while r.until != env.cond(StateKey(r), log)
        invariant 0 < left <= gas
        invariant Run(env, r, Abs(), left) == Run(env, r, old(Abs()), gas)
        decreases left
      {
        assert Run(env, r, Abs(), left) == Sub(env, r, r.body, Abs(), left - 1);
        left := RunRule(env, r.body, left - 1);
        assert Run(env, r, old(Abs()), gas) == Settle(env, r, Abs(), left);
        var stop, _ := CheckCallbacks(env, r);
        if stop {
          return;
        }
      }
      left := left - 1;
    }

    // InputChoiceRule::run and InputTextRule::run: prompt once, then poll until the answer is there.
    method RunInput(env: Env, r: Rule, ghost gas: nat) returns (ghost left: nat)
      requires r.Input? && Run(env, r, Abs(), gas).Done?
      modifies this
      ensures Run(env, r, old(Abs()), gas) == Done(Abs(), left)
      decreases gas, 0
    {
      if StateKey(r) !in ruleStates {
        ruleStates := ruleStates[StateKey(r) := Waiting(env.polls(StateKey(r), log))];
        log := log + [Asked(StateKey(r))];
      }
      left := gas;
      while ruleStates[StateKey(r)].left != 0
        invariant 0 < left <= gas
        invariant StateKey(r) in ruleStates && ruleStates[StateKey(r)].Waiting?
        invariant Run(env, r, Abs(), left) == Run(env, r, old(Abs()), gas)
        decreases left
      {
        assert Run(env, r, Abs(), left) == Settle(env, r, Abs(), left - 1);
        left := left - 1;
        var stop, resumed := CheckCallbacks(env, r);
        ruleStates := ruleStates[StateKey(r) := Waiting(ruleStates[StateKey(r)].left - 1)];
        if stop {
          if !resumed {
            ruleStates := ruleStates - {StateKey(r)};
          }
          return;
        }
      }
      log := log + [Answered(StateKey(r))];
      ruleStates := ruleStates - {StateKey(r)};
      left := left - 1;
    }

    method RunAtMost(env: Env, r: Rule, ghost gas: nat) returns (ghost left: nat)
      requires r.AtMost? && Run(env, r, Abs(), gas).Done?
      modifies this
      ensures Run(env, r, old(Abs()), gas) == Done(Abs(), left)
      decreases gas, 0
    {
      ruleStates := ruleStates[StateKey(r) := Deadline(env.now(ticks) + r.duration)];
      ticks := ticks + 1;
      RegisterCallback(Timer(r.id));
      left := RunRule(env, r.body, gas - 1);
      DeregisterCallback(Timer(r.id));
      ruleStates := ruleStates - {StateKey(r)};
    }

    ghost function Now(todo: map<nat, seq<Rule>>, left: seq<nat>): Point
      reads this
    {
      Point(todo, Abs(), left)
    }

    // One turn of the branch filed under w: run the rule on top of its stack, then push what the parallel rule
    // noted, the outermost first. A parallel for first publishes the branch's element and goes to its world.
    method BranchTurn(env: Env, c: Callback, todo: map<nat, seq<Rule>>, w: nat, ghost left: seq<nat>)
      returns (next: seq<Rule>, ghost left': seq<nat>)
      requires CanTurn(env, c, Now(todo, left), w)
      modifies this
      ensures next == old(NextOf(env, c, Now(todo, left), w))
      ensures Now(AfterTurn(todo, w, next), left') == old(TurnOf(env, c, Now(todo, left), w))
      ensures var g := old(if c.ParallelFor? then Game(callbacks, ruleStates, w, log + [Bound(Key(c.id, w), w)], ticks)
                           else Abs());
              var o := Run(env, todo[w][|todo[w]| - 1], g, left[w]);
              o.Done? && log == o.g.log && callbacks == o.g.callbacks && parallelWorldNumber == o.g.world
    {
      var own, unfinished := CallbackKey(c, parallelWorldNumber), todo[w];
      if c.ParallelFor? {
        log := log + [Bound(Key(c.id, w), w)];
        parallelWorldNumber := w;
      }
      var last := unfinished[|unfinished| - 1];
      ghost var l := RunRule(env, last, left[w]);
      next := PushBack(unfinished[..|unfinished| - 1], ruleStates[own].lastRun);
      ruleStates := ruleStates[own := Branches([])];
      left' := left[w := l];
    }

    // One pass of the inner loop of both parallel rules over the branches still in todo: a turn, then ++it or
    // it = todo.erase(it).
    method RunRound(env: Env, c: Callback, todo: map<nat, seq<Rule>>, live: seq<nat>, ghost order: seq<nat>,
        ghost left: seq<nat>)
      returns (todo': map<nat, seq<Rule>>, live': seq<nat>, ghost left': seq<nat>)
      requires Distinct(order) && Listed(order, todo.Keys, live) && Play(env, c, Now(todo, left), live).At?
      modifies this
      ensures Listed(order, todo'.Keys, live')
      ensures old(Play(env, c, Now(todo, left), live)) == At(Now(todo', left'))
    {
      todo', live', left' := todo, live, left;
      var it: nat := 0;
      ghost var result := Play(env, c, Now(todo, left), live);
      while it < |live'|
        invariant it <= |live'| && Listed(order, todo'.Keys, live')
        invariant Play(env, c, Now(todo', left'), live'[it..]) == result
        decreases |live'| - it
      {
        ghost var s, w := Now(todo', left'), live'[it];
        assert live'[it..][0] == w && live'[it..][1..] == live'[it + 1..];
        var next;
        next, left' := BranchTurn(env, c, todo', live'[it], left');
        EntryErased(order, todo'.Keys, live', it);
        todo' := AfterTurn(todo', live'[it], next);
        if next == [] {
          live' := Erase(live', it);
        } else {
          it := it + 1;
        }
      }
    }

    // The outer loop of both parallel rules: passes until every branch has finished.
    method RunBranches(env: Env, c: Callback, queue: map<nat, seq<Rule>>, order: seq<nat>, ghost gas: seq<nat>,
        ghost n: nat)
      returns (ghost left: seq<nat>)
      requires Distinct(order) && Listed(order, queue.Keys, order)
      requires PlayRounds(env, c, order, Now(queue, gas), n).At?
      requires PlayRounds(env, c, order, Now(queue, gas), n).s.todo == map[]
      modifies this
      ensures old(PlayRounds(env, c, order, Now(queue, gas), n)) == At(Now(map[], left))
    {
      left := gas;
      var todo, live := queue, order;
      ghost var m, result := n, PlayRounds(env, c, order, Now(queue, gas), n);
      while live != []
        invariant Listed(order, todo.Keys, live) && PlayRounds(env, c, order, Now(todo, left), m) == result
        decreases m
      {
        ListedRound(order, Now(todo, left), live);
        assert m > 0;
        todo, live, left := RunRound(env, c, todo, live, order, left);
        m := m - 1;
      }
      ListedRound(order, Now(todo, left), live);
      NoMorePasses(env, c, order, Now(todo, left), m);
    }

    // How both parallel rules begin: file the record, queue the branches, register.
    method OpenParallel(c: Callback, rules: seq<Rule>, ghost gas: seq<nat>) returns (todo: map<nat, seq<Rule>>)
      modifies this`ruleStates, this`callbacks
      ensures Now(todo, gas) == old(Opening(c, rules, Abs(), gas))
    {
      ruleStates := ruleStates[CallbackKey(c, parallelWorldNumber) := Branches([])];
      todo := Queue(rules);
      RegisterCallback(c);
      assert todo == old(Opening(c, rules, Abs(), gas)).todo;
    }

    // How they end: deregister, and delete the record; a parallel for goes back to world 0.
    method CloseParallel(c: Callback, ghost start: Game)
      requires callbacks == start.callbacks + [c] && c !in start.callbacks && !c.Timer?
      requires start.world == if c.ParallelFor? then 0 else parallelWorldNumber
      modifies this`ruleStates, this`callbacks, this`parallelWorldNumber
      ensures Abs() == old(Closing(c, start, Abs()))
    {
      if c.ParallelFor? {
        parallelWorldNumber := 0;
      }
      DeregisterLast(start.callbacks, c);
      DeregisterCallback(c);
      ruleStates := ruleStates - {CallbackKey(c, parallelWorldNumber)};
    }

    // InParallelRule::run, in a world where it is not running yet. The order is the iteration
    // order of the todo hash table, which the standard leaves open but keeps under erasure.
    method RunInParallel(env: Env, id: RuleId, rules: seq<Rule>, order: seq<nat>, ghost gas: seq<nat>)
      returns (ghost n: nat)
      requires Key(id, parallelWorldNumber) !in ruleStates && Parallel(id) !in callbacks
      requires |gas| == |rules| && Ready(InParallelPlan(env, id, rules, Abs(), gas)) && IsOrder(order, Places(|rules|))
      modifies this
      ensures callbacks == old(callbacks) && parallelWorldNumber == old(parallelWorldNumber) && ticks == old(ticks)
      ensures Interleaved(env, Parallel(id), order, rules, old(Abs()), gas, n, Abs())
      ensures Accomplished(InParallelPlan(env, id, rules, old(Abs()), gas), Abs())
      ensures forall w :: 0 <= w < |rules| && w < 0x1_0000 ==>
                DoneAlone(env, Branch(rules[w], parallelWorldNumber), old(Abs()), gas[w], Abs())
      ensures forall w :: 0x1_0000 <= w < |rules| ==>
                View(Branch(rules[w], parallelWorldNumber), Abs())
                  == View(Branch(rules[w], parallelWorldNumber), old(Abs()))
    {
      ghost var p := InParallelPlan(env, id, rules, Abs(), gas);
      n := OpeningEnds(p, rules, order, gas);
      OpeningListed(p.c, rules, p.start, gas, order);
      var todo := OpenParallel(Parallel(id), rules, gas);
      ghost var left := RunBranches(env, Parallel(id), todo, order, gas, n);
      ghost var last := Now(map[], left);
      CloseParallel(Parallel(id), p.start);
      OpeningCloses(p, rules, order, gas, n, last, Abs());
      SomeBranches(p, gas, Abs());
      assert forall w :: 0 <= w < |rules| ==> Branch(rules[w], parallelWorldNumber) == p.bs[w];
    }

    // ParallelForRule::run over a list of the given size, from world 0: its first sub-rule, once
    // for each element and each time in a world of its own.
    method RunParallelFor(env: Env, id: RuleId, first: Rule, size: nat, order: seq<nat>, ghost gas: seq<nat>)
      returns (ghost n: nat)
      requires parallelWorldNumber == 0 && Key(id, 0) !in ruleStates && ParallelFor(id) !in callbacks
      requires |gas| == size && Ready(ParallelForPlan(env, id, first, size, Abs(), gas)) && IsOrder(order, Places(size))
      modifies this
      ensures callbacks == old(callbacks) && parallelWorldNumber == 0 && ticks == old(ticks)
      ensures Interleaved(env, ParallelFor(id), order, seq(size, _ => first), old(Abs()), gas, n, Abs())
      ensures Accomplished(ParallelForPlan(env, id, first, size, old(Abs()), gas), Abs())
      ensures forall w :: 0 <= w < size && w < 0x1_0000 ==>
                DoneAlone(env, Branch(first, w), old(Abs()), gas[w], Abs())
      ensures forall w :: 0x1_0000 <= w < size ==>
                View(Branch(first, w), Abs()) == View(Branch(first, w), old(Abs()))
      ensures old(log) <= log && Published(id, size, log, |old(log)|)
      ensures forall w :: 0 <= w < size && w < 0x1_0000 ==> Bound(Key(id, w), w) in log[|old(log)|..]
    {
      ghost var p := ParallelForPlan(env, id, first, size, Abs(), gas);
      var rules := seq(size, _ => first);
      n := OpeningEnds(p, rules, order, gas);
      OpeningListed(p.c, rules, p.start, gas, order);
      var todo := OpenParallel(ParallelFor(id), rules, gas);
      ghost var left := RunBranches(env, ParallelFor(id), todo, order, gas, n);
      ghost var last := Now(map[], left);
      CloseParallel(ParallelFor(id), p.start);
      OpeningCloses(p, rules, order, gas, n, last, Abs());
      SomeBranches(p, gas, Abs());
      assert forall w :: 0 <= w < size ==> Branch(first, w) == p.bs[w];
      AllPublished(p, rules, order, gas, n, last);
    }

    // The todo map of a parallel rule: emplace leaves an existing entry as it is.
    static method Queue(rules: seq<Rule>) returns (todo: map<nat, seq<Rule>>)
      ensures forall w: nat :: w in todo <==> w < |rules| && w < 0x1_0000
      ensures forall w: nat :: w in todo ==> todo[w] == [rules[w]]
    {
      todo := map[];
      var worldNumber: nat := 0;
      for i := 0 to |rules|
        invariant worldNumber == i % WORLDS
        invariant forall w: nat :: w in todo <==> w < Places(i)
        invariant forall w: nat :: w in todo ==> todo[w] == [rules[w]]
      {
        if worldNumber !in todo {
          todo := todo[worldNumber := [rules[i]]];
        }
        worldNumber := (worldNumber + 1) % WORLDS;
      }
    }

    static method PushBack(stack: seq<Rule>, lastRun: seq<Rule>) returns (next: seq<Rule>)
      ensures next == stack + Reverse(lastRun)
    {
      next := stack;
      var i := |lastRun|;
      while i > 0
        invariant 0 <= i <= |lastRun|
        invariant next == stack + Reverse(lastRun[i..])
      {
        i := i - 1;
        assert lastRun[i..] == [lastRun[i]] + lastRun[i + 1..];
        ReverseCons(lastRun[i], lastRun[i + 1..]);
        next := next + [lastRun[i]];
      }
      assert lastRun[0..] == lastRun;
    }
  }

  lemma {:induction false} ReverseCons(r: Rule, rs: seq<Rule>)
    ensures Reverse([r] + rs) == Reverse(rs) + [r]
    decreases |rs|
  {
    if rs == [] {
      assert [r] + rs == [r];
      assert [r][..0] == [];
    } else {
      assert ([r] + rs)[..|rs|] == [r] + rs[..|rs| - 1];
      ReverseCons(r, rs[..|rs| - 1]);
    }
  }
}
