// The state of a parallel rule between the turns of its branches.
module ParallelRules {
  import opened Rules
  import opened Isolation
  import opened Coroutine
  import opened Interleaving

  // What is left on the branch's stack leads, run alone, to the goal.
  ghost predicate OnTrack(env: Env, b: Branch, stack: seq<Rule>, g: Game, left: nat, goal: Outcome) {
    AllResumable(Ids(b.rule), stack) && RunStack(env, stack, View(b, g), left) == goal
  }

  // A turn changes only what is the branch's own, the note apart.
  lemma TurnKept(env: Env, b: Branch, r: Rule, g: Game, gas: nat)
    requires Resumable(Ids(b.rule), r) && UnderParallel(Ids(b.rule), g)
    ensures var o := Run(env, r, g, gas);
            o.Done? ==>
              && UnderParallel(Ids(b.rule), o.g) && Top(o.g) == Top(g)
              && UnderParallel(Ids(b.rule), Cleared(o.g)) && LastRun(Cleared(o.g)) == []
              && (LastRun(g) == [] ==> Kept(true, Ids(b.rule), g, Cleared(o.g)))
  {
    RunKept(env, r, true, Ids(b.rule), g, gas);
    var o := Run(env, r, g, gas);
    if o.Done? {
      assert Cleared(o.g).log == o.g.log;
    }
  }

  // The state after a turn, with the note taken off the parallel rule's record. A turn of a branch that comes
  // to an end alone comes to an end.
  lemma TurnStep(env: Env, b: Branch, stack: seq<Rule>, g: Game, gas: nat, goal: Outcome)
    requires TurnReady(env, b, stack, g) && OnTrack(env, b, stack, g, gas, goal)
    ensures goal.Done? ==> Run(env, stack[|stack| - 1], g, gas).Done?
    ensures var o := Run(env, stack[|stack| - 1], g, gas);
            o.Done? ==>
              && UnderParallel(Ids(b.rule), o.g) && Top(o.g) == Top(g)
              && OnTrack(env, b, NextStack(stack, LastRun(o.g)), Cleared(o.g), o.gas, goal)
              && UnderParallel(Ids(b.rule), Cleared(o.g)) && LastRun(Cleared(o.g)) == []
              && Kept(true, Ids(b.rule), g, Cleared(o.g))
  {
    assert Resumable(Ids(b.rule), stack[|stack| - 1]);
    TurnKept(env, b, stack[|stack| - 1], g, gas);
    TurnKeepsMeaning(env, b, stack, g, gas);
  }

  // world_number is a uint16_t: a parallel rule has places for this many branches.
  const WORLDS: nat := 65536

  function Places(n: nat): nat { if n <= WORLDS then n else WORLDS }

  // One execution of the parallel rule c: its branches, the game it starts from, and what each
  // branch would come to if it were run alone from there.
  datatype Plan = Plan(env: Env, c: Callback, bs: seq<Branch>, start: Game, goals: seq<Outcome>)

  // What a parallel rule needs of its branches: no timers inside, no shared rule states, and what
  // they read is their own doing.
  ghost predicate Fit(p: Plan) {
    && |p.goals| == |p.bs| && !p.c.Timer?
    && (forall i :: 0 <= i < |p.bs| ==> Eligible(p.env, p.bs[i]) && p.c.id !in Ids(p.bs[i].rule))
    && (forall i, j :: 0 <= i < j < |p.bs| ==> Apart(p.bs[i], p.bs[j]))
    // in the present world, or one world each
    && (forall i :: 0 <= i < |p.bs| ==> p.bs[i].world == if p.c.Parallel? then p.start.world else i)
  }

  // ... and if it is to come to an end, that each of them would alone.
  ghost predicate Ready(p: Plan) {
    Fit(p) && forall i :: 0 <= i < |p.bs| ==> p.goals[i].Done?
  }

  ghost predicate AllOnTrack(p: Plan, todo: map<nat, seq<Rule>>, g: Game, left: seq<nat>) {
    && |p.goals| == |p.bs| == |left|
    && forall w: nat :: w in todo ==>
        w < Places(|p.bs|) && todo[w] != [] && OnTrack(p.env, p.bs[w], todo[w], g, left[w], p.goals[w])
  }

  ghost predicate AllFinished(p: Plan, todo: map<nat, seq<Rule>>, g: Game, left: seq<nat>) {
    && |p.goals| == |p.bs| == |left|
    && forall w: nat :: w < Places(|p.bs|) && w !in todo ==> p.goals[w] == Done(View(p.bs[w], g), left[w])
  }

  // Where the branches stand: those in todo are on track, the others have come to their goals.
  // Branches without a place never get into todo.
  ghost predicate Progress(p: Plan, todo: map<nat, seq<Rule>>, g: Game, left: seq<nat>) {
    && AllOnTrack(p, todo, g, left)
    && AllFinished(p, todo, g, left)
    && (forall w: nat :: Places(|p.bs|) <= w < |p.bs| ==> View(p.bs[w], g) == View(p.bs[w], p.start))
  }

  function AfterTurn(todo: map<nat, seq<Rule>>, w: nat, next: seq<Rule>): map<nat, seq<Rule>> {
    if next == [] then todo - {w} else todo[w := next]
  }

  lemma KeysAfterTurn(todo: map<nat, seq<Rule>>, w: nat, next: seq<Rule>)
    requires w in todo
    ensures AfterTurn(todo, w, next).Keys == if next == [] then todo.Keys - {w} else todo.Keys
  {}

  lemma ProgressUpdate(p: Plan, todo: map<nat, seq<Rule>>, g: Game, left: seq<nat>, w: nat, next: seq<Rule>, h: Game,
      l: nat)
    requires Progress(p, todo, g, left) && w in todo
    requires forall i :: 0 <= i < |p.bs| && i != w ==> View(p.bs[i], h) == View(p.bs[i], g)
    requires OnTrack(p.env, p.bs[w], next, h, l, p.goals[w])
    ensures Progress(p, AfterTurn(todo, w, next), h, left[w := l])
  {
    TrackUpdate(p, todo, g, left, w, next, h, l);
    FinishUpdate(p, todo, g, left, w, next, h, l);
  }

  lemma FinishUpdate(p: Plan, todo: map<nat, seq<Rule>>, g: Game, left: seq<nat>, w: nat, next: seq<Rule>, h: Game,
      l: nat)
    requires AllFinished(p, todo, g, left) && w in todo && w < |p.bs|
    requires forall i :: 0 <= i < |p.bs| && i != w ==> View(p.bs[i], h) == View(p.bs[i], g)
    requires RunStack(p.env, next, View(p.bs[w], h), l) == p.goals[w]
    ensures AllFinished(p, AfterTurn(todo, w, next), h, left[w := l])
  {
    if next == [] {
      assert RunStack(p.env, next, View(p.bs[w], h), l) == Done(View(p.bs[w], h), l);
    }
  }

  lemma TrackUpdate(p: Plan, todo: map<nat, seq<Rule>>, g: Game, left: seq<nat>, w: nat, next: seq<Rule>, h: Game,
      l: nat)
    requires AllOnTrack(p, todo, g, left) && w in todo
    requires forall i :: 0 <= i < |p.bs| && i != w ==> View(p.bs[i], h) == View(p.bs[i], g)
    requires OnTrack(p.env, p.bs[w], next, h, l, p.goals[w])
    ensures AllOnTrack(p, AfterTurn(todo, w, next), h, left[w := l])
  {
    var todo', left' := AfterTurn(todo, w, next), left[w := l];
    forall v: nat | v in todo'
      ensures v < Places(|p.bs|) && todo'[v] != [] && OnTrack(p.env, p.bs[v], todo'[v], h, left'[v], p.goals[v])
    {
      if v != w {
        assert View(p.bs[v], h) == View(p.bs[v], g);
      }
    }
  }

  // Events and states that belong to no branch do not show in any.
  lemma ElsewhereProgress(p: Plan, todo: map<nat, seq<Rule>>, g: Game, left: seq<nat>, h: Game)
    requires Progress(p, todo, g, left) && g.log <= h.log
    requires forall j :: |g.log| <= j < |h.log| ==> Elsewhere(p.bs, h.log[j].key)
    requires forall k :: !Elsewhere(p.bs, k) ==> SameAt(k, g, h)
    ensures Progress(p, todo, h, left)
  {
    forall i | 0 <= i < |p.bs| ensures View(p.bs[i], h) == View(p.bs[i], g) {
      UnseenElsewhere(p.bs, i, g, h);
    }
  }

  ghost predicate Elsewhere(bs: seq<Branch>, k: Key) {
    forall i :: 0 <= i < |bs| ==> !Mine(bs[i], k)
  }

  lemma UnseenElsewhere(bs: seq<Branch>, i: nat, g: Game, h: Game)
    requires i < |bs| && g.log <= h.log
    requires forall j :: |g.log| <= j < |h.log| ==> Elsewhere(bs, h.log[j].key)
    requires forall k :: !Elsewhere(bs, k) ==> SameAt(k, g, h)
    ensures View(bs[i], h) == View(bs[i], g)
  {
    var d := h.log[|g.log|..];
    assert h.log == g.log + d;
    SeenAppend(Vis(bs[i]), g.log, d);
    SeenNone(Vis(bs[i]), d);
    forall k ensures SameAt(k, View(bs[i], h), View(bs[i], g)) {
      assert Mine(bs[i], k) ==> SameAt(k, g, h);
    }
    SameStates(View(bs[i], h), View(bs[i], g));
  }

  // The events a parallel rule lets happen: those of its branches, and the elements it publishes.
  ghost predicate Allowed(c: Callback, bs: seq<Branch>, k: Key) {
    !Elsewhere(bs, k) || (c.ParallelFor? && k.id == c.id)
  }

  // Whatever happened between g and h, the branches did it to themselves.
  ghost predicate OnlyBranches(c: Callback, bs: seq<Branch>, g: Game, h: Game) {
    && g.log <= h.log
    && (forall j :: |g.log| <= j < |h.log| ==> Allowed(c, bs, h.log[j].key))
    && (forall k :: Elsewhere(bs, k) && k != CallbackKey(c, g.world) ==> SameAt(k, g, h))
  }

  // The surroundings the parallel rule keeps up for its branches.
  ghost predicate Stage(p: Plan, g: Game) {
    && !p.c.Timer? && g.callbacks == p.start.callbacks + [p.c] && g.ticks == p.start.ticks
    && (p.c.Parallel? ==> g.world == p.start.world)
    && CallbackKey(p.c, g.world) in g.states && g.states[CallbackKey(p.c, g.world)] == Branches([])
    && OnlyBranches(p.c, p.bs, p.start, g)
  }

  lemma StageReady(p: Plan, w: nat, g: Game)
    requires Fit(p) && Stage(p, g) && w < |p.bs|
    ensures UnderParallel(Ids(p.bs[w].rule), g) && LastRun(g) == [] && Top(g) == CallbackKey(p.c, g.world)
  {}

  // A turn of branch w keeps the surroundings, and the other branches where they are.
  lemma {:induction false} TurnStage(p: Plan, w: nat, g: Game, h: Game)
    requires Fit(p) && w < |p.bs| && Stage(p, g) && g.world == p.bs[w].world
    requires UnderParallel(Ids(p.bs[w].rule), h) && Kept(true, Ids(p.bs[w].rule), g, h) && LastRun(h) == []
    ensures Stage(p, h)
    ensures forall i :: 0 <= i < |p.bs| && i != w ==> View(p.bs[i], h) == View(p.bs[i], g)
  {
    StageReady(p, w, g);
    forall j | |p.start.log| <= j < |h.log| ensures Allowed(p.c, p.bs, h.log[j].key) {
      if j < |g.log| {
        assert h.log[j] == g.log[j];
      } else {
        assert h.log[j] == h.log[|g.log|..][j - |g.log|];
        assert Mine(p.bs[w], h.log[j].key);
      }
    }
    forall k | Elsewhere(p.bs, k) && k != CallbackKey(p.c, p.start.world) ensures SameAt(k, p.start, h) {
      assert !Mine(p.bs[w], k);
      assert SameAt(k, p.start, g) && SameAt(k, g, h);
    }
    forall i | 0 <= i < |p.bs| && i != w ensures View(p.bs[i], h) == View(p.bs[i], g) {
      assert Apart(p.bs[w], p.bs[i]);
      TurnUnseen(p.bs[w], p.bs[i], g, h);
    }
  }

  ghost function Entered(c: Callback, g: Game, w: nat): Game {
    Emit(g.(world := w), Bound(Key(c.id, w), w))
  }

  // Going to another world and publishing its element is seen by no branch.
  lemma EnteredSeen(p: Plan, g: Game, w: nat, v: nat)
    requires Fit(p) && v < |p.bs|
    ensures View(p.bs[v], Entered(p.c, g, w)) == View(p.bs[v], g)
  {
    var b, h := p.bs[v], Entered(p.c, g, w);
    assert h.log == g.log + [Bound(Key(p.c.id, w), w)];
    SeenAppend(Vis(b), g.log, [Bound(Key(p.c.id, w), w)]);
    SeenNone(Vis(b), [Bound(Key(p.c.id, w), w)]);
    forall k ensures SameAt(k, View(b, h), View(b, g)) {}
    SameStates(View(b, h), View(b, g));
  }

  lemma {:induction false} EnterWorld(p: Plan, todo: map<nat, seq<Rule>>, g: Game, left: seq<nat>, w: nat)
    requires Fit(p) && Stage(p, g) && p.c.ParallelFor? && Progress(p, todo, g, left)
    ensures Stage(p, Entered(p.c, g, w)) && Progress(p, todo, Entered(p.c, g, w), left)
  {
    ElsewhereProgress(p, todo, g, left, Entered(p.c, g, w));
  }

  ghost function GoalsFrom(env: Env, bs: seq<Branch>, g: Game, gas: seq<nat>): (goals: seq<Outcome>)
    requires |gas| == |bs|
    ensures |goals| == |bs|
  {
    seq(|bs|, i requires 0 <= i < |bs| => Run(env, bs[i].rule, View(bs[i], g), gas[i]))
  }

  // The parallel rule has filed its state, registered itself and queued its branches.
  lemma {:induction false} Opened(p: Plan, todo: map<nat, seq<Rule>>, gas: seq<nat>, g: Game)
    requires Fit(p) && |gas| == |p.bs| && p.goals == GoalsFrom(p.env, p.bs, p.start, gas)
    requires forall w: nat :: w in todo <==> w < Places(|p.bs|)
    requires forall w: nat :: w in todo ==> todo[w] == [p.bs[w].rule]
    requires p.c.ParallelFor? ==> p.start.world == 0
    requires g == Put(p.start, CallbackKey(p.c, p.start.world), Branches([])).(callbacks := p.start.callbacks + [p.c])
    ensures Stage(p, g) && Progress(p, todo, g, gas)
  {
    forall w: nat | w in todo ensures OnTrack(p.env, p.bs[w], todo[w], p.start, gas[w], p.goals[w]) {
      assert [p.bs[w].rule][..0] == [];
    }
    ElsewhereProgress(p, todo, p.start, gas, g);
  }

  // No branch is in the middle of a run.
  ghost predicate Fresh(p: Plan) {
    forall i :: 0 <= i < |p.bs| ==> Absent(Ids(p.bs[i].rule), p.start.(world := p.bs[i].world))
  }

  // Each branch is where it would be alone, with a place or without.
  ghost predicate AtGoals(p: Plan, h: Game) {
    && |p.goals| == |p.bs|
    && (forall w: nat :: w < Places(|p.bs|) ==> p.goals[w].Done? && View(p.bs[w], h) == p.goals[w].g)
    && (forall w: nat :: Places(|p.bs|) <= w < |p.bs| ==> View(p.bs[w], h) == View(p.bs[w], p.start))
  }

  // What the parallel rule promises: every branch with a place has done exactly what it does
  // alone and left exactly the states it leaves alone, nothing else has happened, and rule
  // states come and go in pairs.
  ghost predicate Accomplished(p: Plan, h: Game) {
    && OnlyBranches(p.c, p.bs, p.start, h)
    && AtGoals(p, h)
    && (Fresh(p) ==> h.states == p.start.states - {CallbackKey(p.c, p.start.world)})
  }

  lemma GoalsReached(p: Plan, h: Game, left: seq<nat>)
    requires Ready(p) && Progress(p, map[], h, left)
    ensures AtGoals(p, h)
  {
    forall w: nat | w < Places(|p.bs|) ensures p.goals[w].Done? && View(p.bs[w], h) == p.goals[w].g {
      assert p.goals[w] == Done(View(p.bs[w], h), left[w]);
    }
  }

  lemma CleanedUp(p: Plan, gas: seq<nat>, h: Game)
    requires Ready(p) && Fresh(p) && AtGoals(p, h) && |gas| == |p.bs| && p.goals == GoalsFrom(p.env, p.bs, p.start, gas)
    requires OnlyBranches(p.c, p.bs, p.start, h) && CallbackKey(p.c, p.start.world) !in h.states
    ensures h.states == p.start.states - {CallbackKey(p.c, p.start.world)}
  {
    forall i | 0 <= i < |p.bs| ensures Absent(Ids(p.bs[i].rule), h.(world := p.bs[i].world)) {
      NothingLeft(p, gas, i, h);
    }
    StatesRestored(p, h);
  }

  lemma ClosedOnly(p: Plan, g: Game, h: Game)
    requires Stage(p, g) && h.log == g.log && h.states == g.states - {CallbackKey(p.c, p.start.world)}
    ensures OnlyBranches(p.c, p.bs, p.start, h) && CallbackKey(p.c, p.start.world) !in h.states
  {}

  // Every branch has come to its goal; the parallel rule takes its state and callback away.
  lemma Closed(p: Plan, gas: seq<nat>, g: Game, left: seq<nat>, h: Game)
    requires Ready(p) && Stage(p, g) && Progress(p, map[], g, left)
    requires |gas| == |p.bs| && p.goals == GoalsFrom(p.env, p.bs, p.start, gas)
    requires h.log == g.log && h.states == g.states - {CallbackKey(p.c, p.start.world)}
    ensures Accomplished(p, h)
  {
    ElsewhereProgress(p, map[], g, left, h);
    GoalsReached(p, h, left);
    ClosedOnly(p, g, h);
    if Fresh(p) {
      CleanedUp(p, gas, h);
    }
  }

  // The branch has come to where it comes alone.
  ghost predicate DoneAlone(env: Env, b: Branch, g: Game, gas: nat, h: Game) {
    var o := Run(env, b.rule, View(b, g), gas); o.Done? && View(b, h) == o.g
  }

  // In numbers: the first 0x1_0000 branches come to where they come alone, and those beyond, whose numbers are
  // taken, do nothing.
  lemma SomeBranches(p: Plan, gas: seq<nat>, h: Game)
    requires Accomplished(p, h) && |gas| == |p.bs| && p.goals == GoalsFrom(p.env, p.bs, p.start, gas)
    ensures forall w :: 0 <= w < |p.bs| && w < 0x1_0000 ==> DoneAlone(p.env, p.bs[w], p.start, gas[w], h)
    ensures forall w :: 0x1_0000 <= w < |p.bs| ==> View(p.bs[w], h) == View(p.bs[w], p.start)
  {
    forall w | 0 <= w < |p.bs| && w < 0x1_0000 ensures DoneAlone(p.env, p.bs[w], p.start, gas[w], h) {
      assert p.goals[w] == Run(p.env, p.bs[w].rule, View(p.bs[w], p.start), gas[w]);
    }
  }

  lemma StatesRestored(p: Plan, h: Game)
    requires Fresh(p) && forall i :: 0 <= i < |p.bs| ==> Absent(Ids(p.bs[i].rule), h.(world := p.bs[i].world))
    requires OnlyBranches(p.c, p.bs, p.start, h) && CallbackKey(p.c, p.start.world) !in h.states
    ensures h.states == p.start.states - {CallbackKey(p.c, p.start.world)}
  {
    var s := p.start.(states := p.start.states - {CallbackKey(p.c, p.start.world)});
    forall k ensures SameAt(k, h, s) {
      if Elsewhere(p.bs, k) {
        assert k != CallbackKey(p.c, p.start.world) ==> SameAt(k, p.start, h);
      } else {
        var i :| 0 <= i < |p.bs| && Mine(p.bs[i], k);
        assert Absent(Ids(p.bs[i].rule), h.(world := p.bs[i].world))
            && Absent(Ids(p.bs[i].rule), p.start.(world := p.bs[i].world));
        assert k == Key(k.id, p.bs[i].world);
      }
    }
    SameStates(h, s);
  }

  lemma {:induction false} NothingLeft(p: Plan, gas: seq<nat>, i: nat, h: Game)
    requires Ready(p) && Fresh(p) && i < |p.bs|
    requires |gas| == |p.bs| && p.goals == GoalsFrom(p.env, p.bs, p.start, gas)
    requires View(p.bs[i], h) == if i < Places(|p.bs|) then p.goals[i].g else View(p.bs[i], p.start)
    ensures Absent(Ids(p.bs[i].rule), h.(world := p.bs[i].world))
  {
    var b := p.bs[i];
    var v := View(b, p.start);
    assert Absent(Ids(b.rule), v);
    AloneClean(p.env, b.rule, v, gas[i]);
    assert p.goals[i] == Run(p.env, b.rule, v, gas[i]);
    RunKept(p.env, b.rule, false, Ids(b.rule), v, gas[i]);
    forall j | j in Ids(b.rule) ensures Key(j, b.world) !in h.states {
      assert Mine(b, Key(j, b.world)) && Key(j, b.world) !in View(b, h).states;
    }
  }

  ghost function InParallelPlan(env: Env, id: RuleId, rules: seq<Rule>, g: Game, gas: seq<nat>): Plan
    requires |gas| == |rules|
  {
    var bs := BranchesIn(rules, g.world);
    Plan(env, Parallel(id), bs, g, GoalsFrom(env, bs, g, gas))
  }

  ghost function ParallelForPlan(env: Env, id: RuleId, first: Rule, size: nat, g: Game, gas: seq<nat>): Plan
    requires |gas| == size
  {
    var bs := BranchesOver(first, size);
    Plan(env, ParallelFor(id), bs, g, GoalsFrom(env, bs, g, gas))
  }

  ghost function Total(left: seq<nat>): nat {
    if left == [] then 0 else left[0] + Total(left[1..])
  }

  lemma {:induction false} TotalDrops(left: seq<nat>, w: nat, n: nat)
    requires w < |left| && n < left[w]
    ensures Total(left[w := n]) < Total(left)
    decreases |left|
  {
    if w > 0 {
      assert left[w := n][1..] == left[1..][w - 1 := n];
      TotalDrops(left[1..], w - 1, n);
    } else {
      assert left[w := n][1..] == left[1..];
    }
  }

  ghost function BranchesIn(rules: seq<Rule>, world: nat): (bs: seq<Branch>)
    ensures |bs| == |rules|
  {
    seq(|rules|, i requires 0 <= i < |rules| => Branch(rules[i], world))
  }

  ghost function BranchesOver(rule: Rule, n: nat): (bs: seq<Branch>)
    ensures |bs| == n
  {
    seq(n, i requires 0 <= i => Branch(rule, i))
  }
}
