// Branches of a parallel rule and what one turn of a branch means to itself and to the others.
module Interleaving {
  import opened Rules
  import opened Isolation
  import opened Coroutine

  // InParallelRule runs different rules in one world, ParallelForRule one rule in many worlds.
  datatype Branch = Branch(rule: Rule, world: nat)

  ghost predicate Mine(b: Branch, k: Key) { Owned(Ids(b.rule), b.world, k) }

  ghost function Vis(b: Branch): Key -> bool { (k: Key) => Mine(b, k) }

  // The branch's own part of the game: what it would find if it were the only one.
  ghost function View(b: Branch, g: Game): Game {
    Game([], map k | k in g.states && Mine(b, k) :: g.states[k], b.world, Seen(Vis(b), g.log), 0)
  }

  ghost function ViewOf(b: Branch, o: Outcome): Outcome {
    match o
    case Stuck => Stuck
    case Done(g, gas) => Done(View(b, g), gas)
  }

  ghost predicate Eligible(env: Env, b: Branch) {
    Resumable(Ids(b.rule), b.rule) && Local(env, Vis(b))
  }

  lemma {:induction false} SeenNone(vis: Key -> bool, log: Log)
    requires forall i :: 0 <= i < |log| ==> !vis(log[i].key)
    ensures Seen(vis, log) == []
    decreases |log|
  {
    if log != [] {
      SeenNone(vis, log[..|log| - 1]);
    }
  }

  lemma {:induction false} SeenTwice(vis: Key -> bool, log: Log)
    ensures Seen(vis, Seen(vis, log)) == Seen(vis, log)
    decreases |log|
  {
    if log != [] {
      var n := |log| - 1;
      SeenTwice(vis, log[..n]);
      SeenAppend(vis, Seen(vis, log[..n]), if vis(log[n].key) then [log[n]] else []);
      if vis(log[n].key) {
        assert [log[n]][..0] == [];
        assert Seen(vis, [log[n]]) == [log[n]];
      } else {
        assert Seen(vis, log) == Seen(vis, log[..n]);
      }
    }
  }

  lemma {:induction false} SeenOwn(vis: Key -> bool, log: Log)
    requires forall i :: 0 <= i < |log| ==> vis(log[i].key)
    ensures Seen(vis, log) == log
    decreases |log|
  {
    if log != [] {
      SeenOwn(vis, log[..|log| - 1]);
    }
  }

  lemma AgreeView(b: Branch, g: Game, p: Game)
    requires Agree(false, Ids(b.rule), Vis(b), g, p) && g.world == b.world
    requires OnlyMine(b, p)
    ensures p == View(b, g)
  {
    forall k ensures SameAt(k, p, View(b, g)) {
      assert Mine(b, k) ==> SameAt(k, g, p);
    }
    SameStates(p, View(b, g));
  }

  ghost predicate OnlyMine(b: Branch, g: Game) {
    && g.callbacks == [] && g.world == b.world && g.ticks == 0
    && Seen(Vis(b), g.log) == g.log
    && forall k :: k in g.states ==> Mine(b, k)
  }

  lemma StaysMine(b: Branch, g: Game, h: Game)
    requires OnlyMine(b, g) && Kept(false, Ids(b.rule), g, h)
    ensures OnlyMine(b, h)
  {
    var d := h.log[|g.log|..];
    assert h.log == g.log + d;
    SeenAppend(Vis(b), g.log, d);
    SeenOwn(Vis(b), d);
    forall k | k in h.states ensures Mine(b, k) {
      assert !Owned(Ids(b.rule), b.world, k) ==> SameAt(k, g, h);
    }
  }

  // Running a rule of the branch on the branch's view gives the view of running it.
  lemma RunView(env: Env, b: Branch, r: Rule, g: Game, gas: nat)
    requires Eligible(env, b) && Resumable(Ids(b.rule), r) && g.callbacks == [] && g.world == b.world
    ensures Run(env, r, View(b, g), gas) == ViewOf(b, Run(env, r, g, gas))
  {
    var v := View(b, g);
    SeenTwice(Vis(b), g.log);
    RunAgree(env, r, false, Ids(b.rule), Vis(b), g, v, gas);
    var o, p := Run(env, r, g, gas), Run(env, r, v, gas);
    if o.Done? {
      RunKept(env, r, false, Ids(b.rule), g, gas);
      RunKept(env, r, false, Ids(b.rule), v, gas);
      ViewAfter(b, g, o.g, p.g);
    }
  }

  lemma ViewAfter(b: Branch, g: Game, g': Game, p: Game)
    requires g.world == b.world && Kept(false, Ids(b.rule), g, g') && Kept(false, Ids(b.rule), View(b, g), p)
    requires Agree(false, Ids(b.rule), Vis(b), g', p)
    ensures p == View(b, g')
  {
    SeenTwice(Vis(b), g.log);
    StaysMine(b, View(b, g), p);
    AgreeView(b, g', p);
  }

  lemma {:induction false} StackView(env: Env, b: Branch, stack: seq<Rule>, g: Game, gas: nat)
    requires Eligible(env, b) && AllResumable(Ids(b.rule), stack) && g.callbacks == [] && g.world == b.world
    ensures RunStack(env, stack, View(b, g), gas) == ViewOf(b, RunStack(env, stack, g, gas))
    decreases |stack|
  {
    if stack != [] {
      var r := stack[|stack| - 1];
      assert Resumable(Ids(b.rule), r);
      RunView(env, b, r, g, gas);
      RunKept(env, r, false, Ids(b.rule), g, gas);
      match Run(env, r, g, gas)
      case Stuck =>
      case Done(g1, gas1) => StackView(env, b, stack[..|stack| - 1], g1, gas1);
    }
  }

  // The branch's stack after a turn: what is left below, and what the turn noted on top.
  function NextStack(stack: seq<Rule>, noted: seq<Rule>): seq<Rule>
    requires stack != []
  {
    stack[..|stack| - 1] + Reverse(noted)
  }

  ghost predicate TurnReady(env: Env, b: Branch, stack: seq<Rule>, g: Game) {
    && Eligible(env, b) && stack != [] && AllResumable(Ids(b.rule), stack)
    && g.world == b.world && UnderParallel(Ids(b.rule), g) && LastRun(g) == []
  }

  // A turn does a part of what the branch would do alone and leaves exactly the rest of it.
  lemma TurnKeepsMeaning(env: Env, b: Branch, stack: seq<Rule>, g: Game, gas: nat)
    requires TurnReady(env, b, stack, g)
    ensures var o := Run(env, stack[|stack| - 1], g, gas);
            if o.Stuck? then RunStack(env, stack, View(b, g), gas) == Stuck
            else
              && UnderParallel(Ids(b.rule), o.g)
              && AllResumable(Ids(b.rule), NextStack(stack, LastRun(o.g)))
              && RunStack(env, stack, View(b, g), gas)
                 == RunStack(env, NextStack(stack, LastRun(o.g)), View(b, Cleared(o.g)), o.gas)
  {
    var own, n := Ids(b.rule), |stack| - 1;
    var r := stack[n];
    assert Resumable(own, r);
    Suspend(env, r, own, g, gas);
    RunKept(env, r, true, own, g, gas);
    assert View(b, Alone(g)) == View(b, g);
    RunView(env, b, r, Alone(g), gas);
    match Run(env, r, g, gas)
    case Stuck =>
    case Done(g1, gas1) =>
      var rest := Reverse(LastRun(g1));
      assert LastRun(g1)[0..] == LastRun(g1);
      ReverseResumable(own, LastRun(g1));
      StackView(env, b, rest, Alone(Cleared(g1)), gas1);
      assert View(b, Alone(Cleared(g1))) == View(b, Cleared(g1));
      StackAppend(env, stack[..n], rest, View(b, Cleared(g1)), gas1);
  }

  ghost predicate Apart(b: Branch, c: Branch) {
    b.world != c.world || Ids(b.rule) !! Ids(c.rule)
  }

  // A turn of one branch is invisible to another.
  lemma TurnUnseen(b: Branch, c: Branch, g: Game, h: Game)
    requires Apart(b, c) && g.world == b.world
    requires UnderParallel(Ids(b.rule), g) && Kept(true, Ids(b.rule), g, h) && !Mine(c, Top(g))
    ensures View(c, h) == View(c, g)
  {
    forall k | Mine(c, k) ensures SameAt(k, g, h) {
      assert !Owned(Ids(b.rule), g.world, k);
    }
    var d := h.log[|g.log|..];
    assert h.log == g.log + d;
    forall i | 0 <= i < |d| ensures !Vis(c)(d[i].key) {
      assert Owned(Ids(b.rule), g.world, d[i].key);
    }
    SeenAppend(Vis(c), g.log, d);
    SeenNone(Vis(c), d);
    SameStates(View(c, h), View(c, g)) by {
      forall k ensures SameAt(k, View(c, h), View(c, g)) {
        if Mine(c, k) {
          assert SameAt(k, g, h);
        }
      }
    }
  }

  ghost predicate Absent(ids: set<RuleId>, g: Game) {
    forall i :: i in ids ==> Key(i, g.world) !in g.states
  }

  // The rules of the tree that must not be in the middle of a run when r is called.
  ghost function Below(r: Rule): set<RuleId> {
    if r.Input? || r.RuleList? || r.ForEach? || r.AtMost? then Ids(r) - {r.id} else Ids(r)
  }

  ghost predicate BegunClean(r: Rule, b: Start) {
    !b.Broken? ==> Absent(if b.Over? then Ids(r) else Below(r), b.g)
  }

  lemma BeginClean(env: Env, r: Rule, g: Game)
    requires !r.AtMost? && Absent(Below(r), g)
    ensures BegunClean(r, Begin(env, r, g))
    ensures Begin(env, r, g).Hands? ==> Absent(Ids(r), Begin(env, r, g).g)
  {}

  // A branch that finishes alone takes its rule states away with it.
  lemma {:induction false} AloneClean(env: Env, r: Rule, g: Game, gas: nat)
    requires Resumable(Ids(r), r) && g.callbacks == [] && Absent(Below(r), g)
    ensures var o := Run(env, r, g, gas); o.Done? ==> Absent(Ids(r), o.g)
    decreases gas, 0
  {
    if gas > 0 {
      BeginClean(env, r, g);
      BeginKept(env, r, false, Ids(r), g);
      var b := Begin(env, r, g);
      match b
      case Broken =>
      case Over(_) =>
      case Polls(_) => CleanSettle(env, r, b.g, gas - 1);
      case Works(child, _) => CleanSub(env, r, child, b.g, gas - 1);
      case Hands(child, _) => CleanHand(env, r, child, b.g, gas - 1);
    }
  }

  lemma {:induction false} CleanHand(env: Env, r: Rule, child: Rule, g: Game, gas: nat)
    requires Resumable(Ids(r), r) && g.callbacks == [] && Absent(Ids(r), g) && child in Children(r)
    ensures var o := Run(env, child, g, gas); o.Done? ==> Absent(Ids(r), o.g)
    decreases gas, 1
  {
    AloneClean(env, child, g, gas);
    RunKept(env, child, false, Ids(child), g, gas);
    var o := Run(env, child, g, gas);
    forall i | o.Done? && i in Ids(r) ensures Key(i, o.g.world) !in o.g.states {
      assert i in Ids(child) || SameAt(Key(i, g.world), g, o.g);
    }
  }

  lemma {:induction false} CleanSub(env: Env, r: Rule, child: Rule, g: Game, gas: nat)
    requires Resumable(Ids(r), r) && g.callbacks == [] && Absent(Below(r), g) && child in Children(r)
    ensures var o := Sub(env, r, child, g, gas); o.Done? ==> Absent(Ids(r), o.g)
    decreases gas, 2
  {
    AloneClean(env, child, g, gas);
    RunKept(env, child, false, Ids(child), g, gas);
    match Run(env, child, g, gas)
    case Stuck =>
    case Done(g1, gas1) =>
      forall i | i in Below(r) ensures Key(i, g1.world) !in g1.states {
        assert i in Ids(child) || SameAt(Key(i, g.world), g, g1);
      }
      CleanSettle(env, r, g1, gas1);
  }

  lemma {:induction false} CleanSettle(env: Env, r: Rule, g: Game, gas: nat)
    requires Resumable(Ids(r), r) && g.callbacks == [] && Absent(Below(r), g)
    ensures var o := Settle(env, r, g, gas); o.Done? ==> Absent(Ids(r), o.g)
    decreases gas, 1
  {
    CheckAlone(env, g, r);
    if HasSpot(r, g) {
      AdvanceLike(r, g, g);
      AloneClean(env, r, Advance(r, g), gas);
    }
  }

  // How many leaf rules have come to their end.
  ghost function Acts(log: Log): nat {
    if log == [] then 0
    else Acts(log[..|log| - 1]) + if log[|log| - 1].Ran? || log[|log| - 1].Answered? then 1 else 0
  }

  lemma ActsEmit(log: Log, e: Event)
    ensures Acts(log + [e]) == Acts(log) + if e.Ran? || e.Answered? then 1 else 0
  {
    assert (log + [e])[..|log|] == log;
  }

  ghost predicate BegunActs(log: Log, b: Start) {
    !b.Broken? ==> Acts(b.g.log) <= Acts(log) + if b.Over? then 1 else 0
  }

  lemma BeginActs(env: Env, r: Rule, g: Game)
    requires !r.AtMost?
    ensures BegunActs(g.log, Begin(env, r, g))
  {
    var k := KeyOf(r, g);
    ActsEmit(g.log, Ran(k));
    ActsEmit(g.log, Asked(k));
    ActsEmit(g.log, Answered(k));
    ActsEmit(g.log + [Asked(k)], Answered(k));
    if r.ForEach? && !Begin(env, r, g).Broken? {
      var g0 := if k in g.states then g else Put(g, k, ForEachAt(env.count(k, g.log), 0));
      ActsEmit(g.log, Bound(k, g0.states[k].next));
    }
  }

  // A turn executes at most one leaf rule.
  lemma {:induction false} OneLeafPerTurn(env: Env, r: Rule, own: set<RuleId>, g: Game, gas: nat)
    requires Resumable(own, r) && UnderParallel(own, g)
    ensures var o := Run(env, r, g, gas); o.Done? ==> Acts(o.g.log) <= Acts(g.log) + 1
    decreases gas, 0
  {
    if gas > 0 {
      BeginActs(env, r, g);
      BeginKept(env, r, true, own, g);
      OneLeafLater(env, r, own, g, Begin(env, r, g), gas - 1);
    }
  }

  lemma {:induction false} OneLeafLater(env: Env, r: Rule, own: set<RuleId>, g: Game, b: Start, gas: nat)
    requires Resumable(own, r) && UnderParallel(own, g) && BegunActs(g.log, b) && BegunKept(r, true, own, g, b)
    ensures var o := Continue(env, r, b, gas); o.Done? ==> Acts(o.g.log) <= Acts(g.log) + 1
    decreases gas, 3
  {
    match b
    case Broken =>
    case Over(_) =>
    case Polls(_) =>
      SettleParallel(env, own, r, b.g, gas);
      AdvanceLike(r, b.g, b.g);
    case Works(child, _) => OneLeafInSub(env, r, child, own, b.g, gas);
    case Hands(child, _) => OneLeafPerTurn(env, child, own, b.g, gas);
  }

  lemma {:induction false} OneLeafInSub(env: Env, r: Rule, child: Rule, own: set<RuleId>, g: Game, gas: nat)
    requires Resumable(own, r) && UnderParallel(own, g) && child in Children(r)
    ensures var o := Sub(env, r, child, g, gas); o.Done? ==> Acts(o.g.log) <= Acts(g.log) + 1
    decreases gas, 1
  {
    OneLeafPerTurn(env, child, own, g, gas);
    RunKept(env, child, true, own, g, gas);
    var o := Run(env, child, g, gas);
    if o.Done? {
      SettleParallel(env, own, r, o.g, o.gas);
      if HasSpot(r, o.g) {
        AdvanceLike(r, o.g, o.g);
      }
    }
  }
}
