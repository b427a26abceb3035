// What a closure and a reach set hold: the configurations that epsilon steps, and one character, lead
// to. Nothing else, nothing missing but behind non-greedy decisions, and in the order of the rules.
module LexerSets {
  import opened LexerAtn
  import opened LexerRun

  // Where and how epsilon steps are taken.
  datatype Setting = Setting(atn: Atn, oracle: Oracle, index: nat, speculative: bool, eof: bool)

  ghost predicate EpsStep(s: Setting, c: Config, d: Config) {
    if At(s.atn, c.state).stop then c.context != [] && d == Popped(s.atn, c)
    else exists t ::
        && t in At(s.atn, c.state).transitions
        && EpsilonTarget(s.atn, s.oracle, s.index, c, t, s.speculative, s.eof) == Some(d)
  }

  // n epsilon steps lead from c to d.
  ghost predicate Path(s: Setting, c: Config, d: Config, n: nat)
    decreases n
  {
    if n == 0 then c == d else exists e :: EpsStep(s, c, e) && Path(s, e, d, n - 1)
  }

  ghost predicate Leads(s: Setting, c: Config, d: Config) { exists n: nat :: Path(s, c, d, n) }

  // Configurations that wait for a character, or stand at the end of a token's rule.
  predicate Kept(a: Atn, d: Config) {
    if At(a, d.state).stop then d.context == [] else !At(a, d.state).epsilonOnly
  }

  lemma StepLeads(s: Setting, c: Config, e: Config, d: Config)
    requires EpsStep(s, c, e) && Leads(s, e, d)
    ensures Leads(s, c, d)
  {
    var n: nat :| Path(s, e, d, n);
    assert Path(s, c, d, n + 1);
  }

  function ClosureIn(s: Setting, c: Config, r: Closed, depth: nat): Closed {
    Closure(s.atn, s.oracle, s.index, c, r, s.speculative, s.eof, depth)
  }

  function ClosuresIn(s: Setting, c: Config, ts: seq<Transition>, r: Closed, depth: nat): Closed {
    Closures(s.atn, s.oracle, s.index, c, ts, r, s.speculative, s.eof, depth)
  }

  function StepIn(s: Setting, c: Config, t: Transition, r: Closed, depth: nat): Closed {
    ClosureStep(s.atn, s.oracle, s.index, c, t, r, s.speculative, s.eof, depth)
  }

  // Configurations are only added, at the end, and all of one alternative.
  ghost predicate Grows(r: Closed, out: Closed, alt: nat) {
    && r.Closed? && out.Closed? && r.configs <= out.configs
    && forall k :: |r.configs| <= k < |out.configs| ==> out.configs[k].alt == alt
  }

  lemma GrowsTrans(r: Closed, m: Closed, out: Closed, alt: nat)
    requires Grows(r, m, alt) && Grows(m, out, alt)
    ensures Grows(r, out, alt)
  {
    forall k | |r.configs| <= k < |out.configs| ensures out.configs[k].alt == alt {
      assert k < |m.configs| ==> out.configs[k] == m.configs[k];
    }
  }

  lemma {:induction false} ClosureGrows(s: Setting, c: Config, r: Closed, depth: nat)
    requires ClosureIn(s, c, r, depth).Closed?
    ensures Grows(r, ClosureIn(s, c, r, depth), c.alt)
    decreases depth, 0
  {
    if At(s.atn, c.state).stop {
      if c.context != [] {
        ClosureGrows(s, Popped(s.atn, c), r, depth - 1);
      }
    } else {
      var keep := !At(s.atn, c.state).epsilonOnly && (!r.accepted || !c.nonGreedy);
      var first := if keep then Closed(Added(r.configs, c), r.accepted, r.asked) else r;
      ClosuresGrow(s, c, At(s.atn, c.state).transitions, first, depth - 1);
      GrowsTrans(r, first, ClosureIn(s, c, r, depth), c.alt);
    }
  }

  lemma {:induction false} ClosuresGrow(s: Setting, c: Config, ts: seq<Transition>, r: Closed, depth: nat)
    requires ClosuresIn(s, c, ts, r, depth).Closed?
    ensures Grows(r, ClosuresIn(s, c, ts, r, depth), c.alt)
    decreases depth, |ts| + 1
  {
    if ts != [] {
      var before := ClosuresIn(s, c, ts[..|ts| - 1], r, depth);
      StepGrows(s, c, ts[|ts| - 1], before, depth);
      ClosuresGrow(s, c, ts[..|ts| - 1], r, depth);
      GrowsTrans(r, before, ClosuresIn(s, c, ts, r, depth), c.alt);
    }
  }

  lemma {:induction false} StepGrows(s: Setting, c: Config, t: Transition, r: Closed, depth: nat)
    requires StepIn(s, c, t, r, depth).Closed?
    ensures Grows(r, StepIn(s, c, t, r, depth), c.alt)
    decreases depth, 1
  {
    var target := EpsilonTarget(s.atn, s.oracle, s.index, c, t, s.speculative, s.eof);
    if target.Some? {
      ClosureGrows(s, target.value, Closed(r.configs, r.accepted, r.asked || t.Predicate?), depth);
    }
  }

  // What a closure adds is kept and has a path from where it starts.
  lemma {:induction false} ClosureSound(s: Setting, c: Config, r: Closed, depth: nat, d: Config)
    requires ClosureIn(s, c, r, depth).Closed? && d in ClosureIn(s, c, r, depth).configs && d !in r.configs
    ensures Kept(s.atn, d) && Leads(s, c, d)
    decreases depth, 0
  {
    assert Path(s, c, c, 0);
    if At(s.atn, c.state).stop {
      if c.context != [] {
        ClosureSound(s, Popped(s.atn, c), r, depth - 1, d);
        StepLeads(s, c, Popped(s.atn, c), d);
      }
    } else {
      var keep := !At(s.atn, c.state).epsilonOnly && (!r.accepted || !c.nonGreedy);
      var first := if keep then Closed(Added(r.configs, c), r.accepted, r.asked) else r;
      if d !in first.configs {
        ClosuresSound(s, c, At(s.atn, c.state).transitions, first, depth - 1, d);
      }
    }
  }

  lemma {:induction false} ClosuresSound(s: Setting, c: Config, ts: seq<Transition>, r: Closed, depth: nat, d: Config)
    requires ClosuresIn(s, c, ts, r, depth).Closed? && d in ClosuresIn(s, c, ts, r, depth).configs && d !in r.configs
    requires !At(s.atn, c.state).stop && forall t :: t in ts ==> t in At(s.atn, c.state).transitions
    ensures Kept(s.atn, d) && Leads(s, c, d)
    decreases depth, |ts| + 1
  {
    var t, before := ts[|ts| - 1], ClosuresIn(s, c, ts[..|ts| - 1], r, depth);
    StepGrows(s, c, t, before, depth);
    var target := EpsilonTarget(s.atn, s.oracle, s.index, c, t, s.speculative, s.eof);
    if d in before.configs {
      ClosuresSound(s, c, ts[..|ts| - 1], r, depth, d);
    } else if target.Some? {
      ClosureSound(s, target.value, Closed(before.configs, before.accepted, before.asked || t.Predicate?), depth, d);
      StepLeads(s, c, target.value, d);
    }
  }

  lemma StepNonGreedy(s: Setting, c: Config, d: Config)
    requires EpsStep(s, c, d) && c.nonGreedy
    ensures d.nonGreedy
  {}

  lemma {:induction false} PathNonGreedy(s: Setting, c: Config, d: Config, n: nat)
    requires Path(s, c, d, n) && c.nonGreedy
    ensures d.nonGreedy
    decreases n
  {
    if n > 0 {
      var e :| EpsStep(s, c, e) && Path(s, e, d, n - 1);
      StepNonGreedy(s, c, e);
      PathNonGreedy(s, e, d, n - 1);
    }
  }

  // A closure misses nothing that is kept, unless it passed a non-greedy decision.
  lemma {:induction false} ClosureComplete(s: Setting, c: Config, r: Closed, depth: nat, d: Config, n: nat)
    requires ClosureIn(s, c, r, depth).Closed? && Path(s, c, d, n) && Kept(s.atn, d) && !d.nonGreedy
    ensures d in ClosureIn(s, c, r, depth).configs
    decreases depth, 1
  {
    if !At(s.atn, c.state).stop {
      ClosureFollows(s, c, r, depth, d, n);
    } else if n > 0 {
      ClosureComplete(s, Popped(s.atn, c), r, depth - 1, d, n - 1);
    }
  }

  lemma {:induction false} ClosureFollows(s: Setting, c: Config, r: Closed, depth: nat, d: Config, n: nat)
    requires ClosureIn(s, c, r, depth).Closed? && Path(s, c, d, n) && Kept(s.atn, d) && !d.nonGreedy
        && !At(s.atn, c.state).stop
    ensures d in ClosureIn(s, c, r, depth).configs
    decreases depth, 0
  {
    var ts := At(s.atn, c.state).transitions;
    var keep := !At(s.atn, c.state).epsilonOnly && (!r.accepted || !c.nonGreedy);
    var first := if keep then Closed(Added(r.configs, c), r.accepted, r.asked) else r;
    if n == 0 {
      ClosuresGrow(s, c, ts, first, depth - 1);
      assert d in first.configs;
    } else {
      var e :| EpsStep(s, c, e) && Path(s, e, d, n - 1);
      var t :| t in ts && EpsilonTarget(s.atn, s.oracle, s.index, c, t, s.speculative, s.eof) == Some(e);
      ClosuresComplete(s, c, ts, first, depth - 1, t, e, d, n - 1);
    }
  }

  lemma {:induction false} ClosuresComplete(s: Setting, c: Config, ts: seq<Transition>, r: Closed, depth: nat,
      t: Transition, e: Config, d: Config, n: nat)
    requires ClosuresIn(s, c, ts, r, depth).Closed? && t in ts
    requires EpsilonTarget(s.atn, s.oracle, s.index, c, t, s.speculative, s.eof) == Some(e)
    requires Path(s, e, d, n) && Kept(s.atn, d) && !d.nonGreedy
    ensures d in ClosuresIn(s, c, ts, r, depth).configs
    decreases depth, |ts| + 1
  {
    var last, before := ts[|ts| - 1], ClosuresIn(s, c, ts[..|ts| - 1], r, depth);
    StepGrows(s, c, last, before, depth);
    if t == last {
      ClosureComplete(s, e, Closed(before.configs, before.accepted, before.asked || t.Predicate?), depth, d, n);
    } else {
      assert t in ts[..|ts| - 1];
      ClosuresComplete(s, c, ts[..|ts| - 1], r, depth, t, e, d, n);
    }
  }

  // One character: a configuration's transition on it, and then epsilon steps.
  function Taken(a: Atn, c: Config, t: Transition, offset: int): Config {
    LexerAtn.Moved(a, Config(c.state, c.alt, c.context, Fixed(a, c.steps, offset), c.nonGreedy), t.target)
  }

  ghost predicate Steps(s: Setting, offset: int, symbol: int, c: Config, d: Config) {
    Kept(s.atn, d) && exists t ::
        t in At(s.atn, c.state).transitions && Matches(t, symbol) && Leads(s, Taken(s.atn, c, t, offset), d)
  }

  // At most one transition of a state consumes characters, as in the networks built from grammars.
  predicate OneWay(a: Atn) {
    forall s, i, j :: 0 <= s < |a.states| && 0 <= i < j < |a.states[s].transitions| ==>
      !(Consuming(a.states[s].transitions[i]) && Consuming(a.states[s].transitions[j]))
  }

  // How characters are consumed at a place of the input.
  function Character(job: Job, at: Cursor): Setting {
    Setting(job.atn, job.oracle, at.index, true, LA(job.input, at.index) == LexerAtn.EOF)
  }

  function Symbol(job: Job, at: Cursor): int { LA(job.input, at.index) }

  function StepAt(job: Job, at: Cursor, c: Config, t: Transition, r: Reaching, done: bool): (Reaching, bool) {
    ReachStep(job.atn, job.oracle, at.index, at.index - job.start, c, t, Symbol(job, at), r, done, job.depth)
  }

  function StepsAt(job: Job, at: Cursor, c: Config, ts: seq<Transition>, r: Reaching): (Reaching, bool) {
    ReachSteps(job.atn, job.oracle, at.index, at.index - job.start, c, ts, Symbol(job, at), r, job.depth)
  }

  function AllAt(job: Job, at: Cursor, cs: seq<Config>): Reaching {
    ReachAll(job.atn, job.oracle, at.index, at.index - job.start, cs, Symbol(job, at), job.depth)
  }

  ghost predicate StepsTo(job: Job, at: Cursor, c: Config, d: Config) {
    Steps(Character(job, at), at.index - job.start, Symbol(job, at), c, d)
  }

  lemma StepAtGrows(job: Job, at: Cursor, c: Config, t: Transition, r: Reaching, done: bool)
    requires StepAt(job, at, c, t, r, done).0.set_.Closed?
    ensures Grows(r.set_, StepAt(job, at, c, t, r, done).0.set_, c.alt)
  {
    if !done && Matches(t, Symbol(job, at)) {
      ClosureGrows(Character(job, at), Taken(job.atn, c, t, at.index - job.start),
          Closed(r.set_.configs, c.alt == r.skipAlt, r.set_.asked), job.depth);
    }
  }

  lemma {:induction false} StepsAtGrow(job: Job, at: Cursor, c: Config, ts: seq<Transition>, r: Reaching)
    requires StepsAt(job, at, c, ts, r).0.set_.Closed?
    ensures Grows(r.set_, StepsAt(job, at, c, ts, r).0.set_, c.alt)
    decreases |ts|
  {
    if ts != [] {
      var (before, done) := StepsAt(job, at, c, ts[..|ts| - 1], r);
      StepAtGrows(job, at, c, ts[|ts| - 1], before, done);
      StepsAtGrow(job, at, c, ts[..|ts| - 1], r);
      GrowsTrans(r.set_, before.set_, StepsAt(job, at, c, ts, r).0.set_, c.alt);
    }
  }

  lemma {:induction false} StepsAtSound(job: Job, at: Cursor, c: Config, ts: seq<Transition>, r: Reaching, d: Config)
    requires StepsAt(job, at, c, ts, r).0.set_.Closed? && d in StepsAt(job, at, c, ts, r).0.set_.configs
    requires r.set_.Closed? && d !in r.set_.configs && forall t :: t in ts ==> t in At(job.atn, c.state).transitions
    ensures StepsTo(job, at, c, d)
    decreases |ts|
  {
    var t := ts[|ts| - 1];
    var (before, done) := StepsAt(job, at, c, ts[..|ts| - 1], r);
    StepAtGrows(job, at, c, t, before, done);
    if d in before.set_.configs {
      StepsAtSound(job, at, c, ts[..|ts| - 1], r, d);
    } else {
      ClosureSound(Character(job, at), Taken(job.atn, c, t, at.index - job.start),
          Closed(before.set_.configs, c.alt == before.skipAlt, before.set_.asked), job.depth, d);
    }
  }

  // Transitions that do not match change nothing.
  lemma {:induction false} NoneMatch(job: Job, at: Cursor, c: Config, ts: seq<Transition>, r: Reaching)
    requires forall t :: t in ts ==> !Matches(t, Symbol(job, at))
    ensures StepsAt(job, at, c, ts, r) == (r, false)
    decreases |ts|
  {
    if ts != [] {
      NoneMatch(job, at, c, ts[..|ts| - 1], r);
    }
  }

  lemma {:induction false} StepsAtComplete(job: Job, at: Cursor, c: Config, ts: seq<Transition>, k: nat, r: Reaching,
      d: Config)
    requires StepsAt(job, at, c, ts, r).0.set_.Closed? && k < |ts| && Matches(ts[k], Symbol(job, at))
    requires forall i :: 0 <= i < |ts| && i != k ==> !Matches(ts[i], Symbol(job, at))
    requires Leads(Character(job, at), Taken(job.atn, c, ts[k], at.index - job.start), d) && Kept(job.atn, d)
        && !d.nonGreedy
    ensures d in StepsAt(job, at, c, ts, r).0.set_.configs
    decreases |ts|
  {
    var n := |ts| - 1;
    var (before, done) := StepsAt(job, at, c, ts[..n], r);
    StepAtGrows(job, at, c, ts[n], before, done);
    if k == n {
      NoneMatch(job, at, c, ts[..n], r);
      var m: nat :| Path(Character(job, at), Taken(job.atn, c, ts[k], at.index - job.start), d, m);
      ClosureComplete(Character(job, at), Taken(job.atn, c, ts[k], at.index - job.start),
          Closed(r.set_.configs, c.alt == r.skipAlt, r.set_.asked), job.depth, d, m);
    } else {
      StepsAtComplete(job, at, c, ts[..n], k, r, d);
    }
  }

  // A set in the order of its alternatives, each of them at most m.
  ghost predicate Ordered(cs: seq<Config>, m: nat) {
    && (forall i :: 0 <= i < |cs| ==> cs[i].alt <= m)
    && forall i, j :: 0 <= i < j < |cs| ==> cs[i].alt <= cs[j].alt
  }

  lemma GrowsOrdered(r: Closed, out: Closed, m: nat, alt: nat)
    requires Grows(r, out, alt) && Ordered(r.configs, m) && m <= alt
    ensures Ordered(out.configs, alt)
  {
    forall i | 0 <= i < |out.configs| ensures out.configs[i].alt <= alt {
      assert i < |r.configs| ==> out.configs[i] == r.configs[i];
    }
    forall i, j | 0 <= i < j < |out.configs| ensures out.configs[i].alt <= out.configs[j].alt {
      assert i < |r.configs| ==> out.configs[i] == r.configs[i];
      assert j < |r.configs| ==> out.configs[j] == r.configs[j];
    }
  }

  // A reach set holds what the set's configurations step to, all of it that passed no non-greedy
  // decision, in the order of the alternatives.
  lemma {:induction false} AllAtOrdered(job: Job, at: Cursor, cs: seq<Config>, m: nat)
    requires AllAt(job, at, cs).set_.Closed? && Ordered(cs, m)
    ensures Ordered(AllAt(job, at, cs).set_.configs, m)
    ensures cs != [] ==> Ordered(AllAt(job, at, cs).set_.configs, cs[|cs| - 1].alt)
    decreases |cs|
  {
    if cs != [] {
      var c, before := cs[|cs| - 1], AllAt(job, at, cs[..|cs| - 1]);
      if !(c.alt == before.skipAlt && c.nonGreedy) {
        StepsAtGrow(job, at, c, At(job.atn, c.state).transitions, before);
        AllAtOrdered(job, at, cs[..|cs| - 1], c.alt);
        GrowsOrdered(before.set_, AllAt(job, at, cs).set_, c.alt, c.alt);
      } else {
        AllAtOrdered(job, at, cs[..|cs| - 1], c.alt);
      }
    }
  }

  lemma {:induction false} AllAtSound(job: Job, at: Cursor, cs: seq<Config>, d: Config)
    requires AllAt(job, at, cs).set_.Closed? && d in AllAt(job, at, cs).set_.configs
    ensures exists c :: c in cs && StepsTo(job, at, c, d)
    decreases |cs|
  {
    var c, before := cs[|cs| - 1], AllAt(job, at, cs[..|cs| - 1]);
    var ts := At(job.atn, c.state).transitions;
    if !(c.alt == before.skipAlt && c.nonGreedy) {
      StepsAtGrow(job, at, c, ts, before);
    }
    if d in before.set_.configs {
      AllAtSound(job, at, cs[..|cs| - 1], d);
      var b :| b in cs[..|cs| - 1] && StepsTo(job, at, b, d);
      assert b in cs;
    } else {
      StepsAtSound(job, at, c, ts, before, d);
    }
  }

  lemma StepsGreedy(job: Job, at: Cursor, c: Config, d: Config)
    requires StepsTo(job, at, c, d) && !d.nonGreedy
    ensures !c.nonGreedy
  {
    var t :| t in At(job.atn, c.state).transitions && Matches(t, Symbol(job, at))
        && Leads(Character(job, at), Taken(job.atn, c, t, at.index - job.start), d);
    var n: nat :| Path(Character(job, at), Taken(job.atn, c, t, at.index - job.start), d, n);
    if c.nonGreedy {
      PathNonGreedy(Character(job, at), Taken(job.atn, c, t, at.index - job.start), d, n);
    }
  }

  lemma OneMatches(a: Atn, s: nat, symbol: int, k: nat)
    requires OneWay(a) && k < |At(a, s).transitions| && Matches(At(a, s).transitions[k], symbol)
    ensures forall i :: 0 <= i < |At(a, s).transitions| && i != k ==> !Matches(At(a, s).transitions[i], symbol)
  {
    var ts := At(a, s).transitions;
    forall i | 0 <= i < |ts| && i != k ensures !Matches(ts[i], symbol) {
      assert Consuming(ts[k]);
      assert !Consuming(ts[i]);
    }
  }

  lemma {:induction false} AllAtComplete(job: Job, at: Cursor, cs: seq<Config>, c: Config, d: Config)
    requires OneWay(job.atn) && AllAt(job, at, cs).set_.Closed? && c in cs && StepsTo(job, at, c, d) && !d.nonGreedy
    ensures d in AllAt(job, at, cs).set_.configs
    decreases |cs|
  {
    var last, before := cs[|cs| - 1], AllAt(job, at, cs[..|cs| - 1]);
    var ts := At(job.atn, last.state).transitions;
    StepsGreedy(job, at, c, d);
    if c == last {
      var t :| t in ts && Matches(t, Symbol(job, at))
          && Leads(Character(job, at), Taken(job.atn, c, t, at.index - job.start), d);
      var k :| 0 <= k < |ts| && ts[k] == t;
      OneMatches(job.atn, last.state, Symbol(job, at), k);
      StepsAtComplete(job, at, last, ts, k, before, d);
    } else {
      assert c in cs[..|cs| - 1];
      if !(last.alt == before.skipAlt && last.nonGreedy) {
        StepsAtGrow(job, at, last, ts, before);
      }
      AllAtComplete(job, at, cs[..|cs| - 1], c, d);
    }
  }
}
