// What a non-greedy decision is for: once an alternative has come to the end of its rule, what it reaches through
// such a decision, and later in the order, counts no more.
module LexerGreed {
  import opened LexerAtn
  import opened LexerRun
  import opened LexerSets
  import opened LexerLanguage
  import opened LexerTrails

  ghost predicate StopOf(a: Atn, d: Config, alt: nat) { At(a, d.state).stop && d.alt == alt }

  // Some configuration of the alternative is at the end of its rule.
  ghost predicate Ended(a: Atn, cs: seq<Config>, alt: nat) {
    exists i :: 0 <= i < |cs| && StopOf(a, cs[i], alt)
  }

  // Behind a configuration at the end of a rule, one of the same alternative that has passed a non-greedy decision is
  // at the end of a rule itself.
  ghost predicate Settled(a: Atn, cs: seq<Config>) {
    forall i, j :: 0 <= i < j < |cs| && StopOf(a, cs[i], cs[j].alt) && cs[j].nonGreedy ==> At(a, cs[j].state).stop
  }

  // The set is settled, and the alternative counts as accepted once it has ended.
  ghost predicate Good(a: Atn, r: Closed, alt: nat) {
    r.Closed? && Settled(a, r.configs) && (Ended(a, r.configs, alt) ==> r.accepted)
  }

  lemma EndedMore(a: Atn, cs: seq<Config>, c: Config, alt: nat)
    ensures Ended(a, cs + [c], alt) <==> Ended(a, cs, alt) || StopOf(a, c, alt)
  {
    var more := cs + [c];
    if i :| 0 <= i < |cs| && StopOf(a, cs[i], alt) {
      assert StopOf(a, more[i], alt);
    }
    if StopOf(a, c, alt) {
      assert StopOf(a, more[|cs|], alt);
    }
    if i :| 0 <= i < |more| && StopOf(a, more[i], alt) && i < |cs| {
      assert StopOf(a, cs[i], alt);
    }
  }

  lemma SettledMore(a: Atn, cs: seq<Config>, c: Config)
    requires Settled(a, cs) && (c.nonGreedy && Ended(a, cs, c.alt) ==> At(a, c.state).stop)
    ensures Settled(a, Added(cs, c))
  {
    var more := Added(cs, c);
    forall i, j | 0 <= i < j < |more| && StopOf(a, more[i], more[j].alt) && more[j].nonGreedy
      ensures At(a, more[j].state).stop
    {
      if j < |cs| {
        assert more[i] == cs[i] && more[j] == cs[j];
      } else {
        assert more[i] == cs[i] && Ended(a, cs, c.alt);
      }
    }
  }

  // A configuration is added only if that leaves the set settled.
  lemma KeptGood(a: Atn, c: Config, r: Closed)
    requires Good(a, r, c.alt) && !At(a, c.state).stop && (!r.accepted || !c.nonGreedy)
    ensures Good(a, Closed(Added(r.configs, c), r.accepted, r.asked), c.alt)
  {
    SettledMore(a, r.configs, c);
    EndedMore(a, r.configs, c, c.alt);
  }

  lemma EndGood(a: Atn, c: Config, r: Closed)
    requires Good(a, r, c.alt) && At(a, c.state).stop
    ensures Good(a, Closed(Added(r.configs, c), true, r.asked), c.alt)
  {
    SettledMore(a, r.configs, c);
  }

  lemma {:induction false} ClosureGood(s: Setting, c: Config, r: Closed, depth: nat)
    requires Good(s.atn, r, c.alt) && ClosureIn(s, c, r, depth).Closed?
    ensures Good(s.atn, ClosureIn(s, c, r, depth), c.alt)
    decreases depth, 0
  {
    if At(s.atn, c.state).stop {
      if c.context == [] {
        EndGood(s.atn, c, r);
      } else {
        ClosureGood(s, Popped(s.atn, c), r, depth - 1);
      }
    } else {
      var keep := !At(s.atn, c.state).epsilonOnly && (!r.accepted || !c.nonGreedy);
      var first := if keep then Closed(Added(r.configs, c), r.accepted, r.asked) else r;
      if keep {
        KeptGood(s.atn, c, r);
      }
      ClosuresGood(s, c, At(s.atn, c.state).transitions, first, depth - 1);
    }
  }

  lemma {:induction false} ClosuresGood(s: Setting, c: Config, ts: seq<Transition>, r: Closed, depth: nat)
    requires Good(s.atn, r, c.alt) && ClosuresIn(s, c, ts, r, depth).Closed?
    ensures Good(s.atn, ClosuresIn(s, c, ts, r, depth), c.alt)
    decreases depth, |ts| + 1
  {
    if ts != [] {
      var before := ClosuresIn(s, c, ts[..|ts| - 1], r, depth);
      StepGrows(s, c, ts[|ts| - 1], before, depth);
      ClosuresGood(s, c, ts[..|ts| - 1], r, depth);
      StepGood(s, c, ts[|ts| - 1], before, depth);
    }
  }

  lemma {:induction false} StepGood(s: Setting, c: Config, t: Transition, r: Closed, depth: nat)
    requires Good(s.atn, r, c.alt) && StepIn(s, c, t, r, depth).Closed?
    ensures Good(s.atn, StepIn(s, c, t, r, depth), c.alt)
    decreases depth, 1
  {
    var target := EpsilonTarget(s.atn, s.oracle, s.index, c, t, s.speculative, s.eof);
    if target.Some? {
      ClosureGood(s, target.value, Closed(r.configs, r.accepted, r.asked || t.Predicate?), depth);
    }
  }

  // The set is settled, and an alternative that has ended in it is the one to skip.
  ghost predicate GoodReach(a: Atn, r: Reaching, alt: nat) {
    r.set_.Closed? && Settled(a, r.set_.configs) && (Ended(a, r.set_.configs, alt) ==> r.skipAlt == alt)
  }

  lemma StepAtGood(job: Job, at: Cursor, c: Config, t: Transition, r: Reaching, done: bool)
    requires GoodReach(job.atn, r, c.alt) && StepAt(job, at, c, t, r, done).0.set_.Closed?
    ensures GoodReach(job.atn, StepAt(job, at, c, t, r, done).0, c.alt)
  {
    if !done && Matches(t, Symbol(job, at)) {
      ClosureGood(Character(job, at), Taken(job.atn, c, t, at.index - job.start),
          Closed(r.set_.configs, c.alt == r.skipAlt, r.set_.asked), job.depth);
    }
  }

  lemma {:induction false} StepsAtGood(job: Job, at: Cursor, c: Config, ts: seq<Transition>, r: Reaching)
    requires GoodReach(job.atn, r, c.alt) && StepsAt(job, at, c, ts, r).0.set_.Closed?
    ensures GoodReach(job.atn, StepsAt(job, at, c, ts, r).0, c.alt)
    decreases |ts|
  {
    if ts != [] {
      var (before, done) := StepsAt(job, at, c, ts[..|ts| - 1], r);
      StepAtGrows(job, at, c, ts[|ts| - 1], before, done);
      StepsAtGood(job, at, c, ts[..|ts| - 1], r);
      StepAtGood(job, at, c, ts[|ts| - 1], before, done);
    }
  }

  // No alternative above m has ended in an ordered set.
  lemma NoneEnded(a: Atn, cs: seq<Config>, m: nat, alt: nat)
    requires Ordered(cs, m) && m < alt
    ensures !Ended(a, cs, alt)
  {}

  // Every reach set is settled.
  lemma {:induction false} AllAtGood(job: Job, at: Cursor, cs: seq<Config>, alt: nat)
    requires AllAt(job, at, cs).set_.Closed? && Ordered(cs, alt)
    ensures GoodReach(job.atn, AllAt(job, at, cs), alt)
    decreases |cs|
  {
    if cs != [] {
      var n := |cs| - 1;
      var c, before := cs[n], AllAt(job, at, cs[..n]);
      var ts := At(job.atn, c.state).transitions;
      var skipped := c.alt == before.skipAlt && c.nonGreedy;
      if !skipped {
        StepsAtGrow(job, at, c, ts, before);
      }
      AllAtGood(job, at, cs[..n], c.alt);
      if !skipped {
        StepsAtGood(job, at, c, ts, before);
      }
      if c.alt < alt {
        AllAtOrdered(job, at, cs, c.alt);
        NoneEnded(job.atn, AllAt(job, at, cs).set_.configs, c.alt, alt);
      }
    }
  }

  // Every start state is settled.
  lemma {:induction false} StartsGood(job: Job, at: Cursor, ts: seq<Transition>)
    requires StartsOf(job, at, ts).Closed?
    ensures Settled(job.atn, StartsOf(job, at, ts).configs)
    decreases |ts|
  {
    if ts != [] {
      var n := |ts| - 1;
      var before := StartsOf(job, at, ts[..n]);
      StartsGood(job, at, ts[..n]);
      StartsOrdered(job, at, ts[..n]);
      NoneEnded(job.atn, before.configs, n, n + 1);
      ClosureGood(Entry(job, at), StartConfig(ts, n), Closed(before.configs, false, before.asked), job.depth);
    }
  }

  // Once an alternative has come to the end of its rule in a reach set, no later configuration of that alternative
  // whose trail has entered a non-greedy decision contributes to the set.
  lemma NoLonger(job: Job, mode: nat, at: Cursor, k: nat, cs: seq<Config>, m: nat, j: nat, trail: seq<Point>)
    requires Ordered(cs, m) && j < |cs| && Follows(job, mode, at, trail, cs[j], k) && Enters(job.atn, trail)
    requires AllAt(job, Place(job, at, k), cs[..j]).set_.Closed?
    requires Ended(job.atn, AllAt(job, Place(job, at, k), cs[..j]).set_.configs, cs[j].alt)
    ensures AllAt(job, Place(job, at, k), cs[..j + 1]) == AllAt(job, Place(job, at, k), cs[..j])
  {
    AllAtGood(job, Place(job, at, k), cs[..j], cs[j].alt);
    assert cs[..j + 1][..j] == cs[..j];
  }

  // Nothing is read at the end of a rule, as in the networks built from grammars.
  predicate EndsReadNothing(a: Atn) {
    forall s, t :: 0 <= s < |a.states| && a.states[s].stop && t in a.states[s].transitions ==> !Consuming(t)
  }

  ghost predicate Without(cs: seq<Config>, alt: nat) { forall d :: d in cs ==> d.alt != alt }

  lemma StepAlt(s: Setting, c: Config, d: Config)
    requires EpsStep(s, c, d)
    ensures d.alt == c.alt
  {}

  lemma {:induction false} PathAlt(s: Setting, c: Config, d: Config, n: nat)
    requires Path(s, c, d, n)
    ensures d.alt == c.alt
    decreases n
  {
    if n > 0 {
      var e :| EpsStep(s, c, e) && Path(s, e, d, n - 1);
      StepAlt(s, c, e);
      PathAlt(s, e, d, n - 1);
    }
  }

  lemma StepsAlt(job: Job, at: Cursor, c: Config, d: Config)
    requires StepsTo(job, at, c, d)
    ensures d.alt == c.alt
    ensures exists t :: t in At(job.atn, c.state).transitions && Consuming(t)
  {
    var t :| t in At(job.atn, c.state).transitions && Matches(t, Symbol(job, at))
      && Leads(Character(job, at), Taken(job.atn, c, t, at.index - job.start), d);
    var n: nat :| Path(Character(job, at), Taken(job.atn, c, t, at.index - job.start), d, n);
    PathAlt(Character(job, at), Taken(job.atn, c, t, at.index - job.start), d, n);
    assert Consuming(t);
  }

  // The branch listed first, of those of the rule, has come to the rule's end.
  ghost predicate FirstEnds(a: Atn, cs: seq<Config>, alt: nat, i: nat) {
    i < |cs| && StopOf(a, cs[i], alt) && forall j :: 0 <= j < i ==> cs[j].alt != alt
  }

  // Every trail of the rule that may read on or end after k characters has entered a non-greedy decision.
  ghost predicate AllEnter(job: Job, mode: nat, at: Cursor, k: nat, alt: nat) {
    forall trail: seq<Point> ::
      Trail(job, mode, at, alt, trail) && Last(trail).read == k && Rests(job.atn, Last(trail)) ==>
        Enters(job.atn, trail)
  }

  // Then all of the rule's branches are at its end, ...
  lemma AllEnded(job: Job, mode: nat, at: Cursor, k: nat, cs: seq<Config>, alt: nat, i: nat, d: Config)
    requires Holds(job, mode, at, k, cs) && Settled(job.atn, cs) && AllEnter(job, mode, at, k, alt)
    requires FirstEnds(job.atn, cs, alt, i) && d in cs && d.alt == alt
    ensures At(job.atn, d.state).stop
  {
    DerivesIff(job, mode, at, k, d);
    var trail :| Follows(job, mode, at, trail, d, k);
    var j :| 0 <= j < |cs| && cs[j] == d;
    assert d.nonGreedy && StopOf(job.atn, cs[i], cs[j].alt);
  }

  // ... and the rule is over with the next character.
  lemma RuleOver(job: Job, mode: nat, at: Cursor, k: nat, cs: seq<Config>, alt: nat, i: nat)
    requires EndsReadNothing(job.atn) && Holds(job, mode, at, k, cs) && Settled(job.atn, cs)
    requires AllEnter(job, mode, at, k, alt) && FirstEnds(job.atn, cs, alt, i)
    requires LexerRun.Next(job, cs, Place(job, at, k)).Closed?
    ensures Without(LexerRun.Next(job, cs, Place(job, at, k)).configs, alt)
  {
    var there := Place(job, at, k);
    forall d | d in LexerRun.Next(job, cs, there).configs ensures d.alt != alt {
      assert AllAt(job, there, cs).set_ == LexerRun.Next(job, cs, there);
      AllAtSound(job, there, cs, d);
      var c :| c in cs && StepsTo(job, there, c, d);
      StepsAlt(job, there, c, d);
      if c.alt == alt {
        AllEnded(job, mode, at, k, cs, alt, i, c);
      }
    }
  }

  lemma StaysOver(job: Job, at: Cursor, cs: seq<Config>, alt: nat)
    requires Without(cs, alt) && LexerRun.Next(job, cs, at).Closed?
    ensures Without(LexerRun.Next(job, cs, at).configs, alt)
  {
    forall d | d in LexerRun.Next(job, cs, at).configs ensures d.alt != alt {
      assert AllAt(job, at, cs).set_ == LexerRun.Next(job, cs, at);
      AllAtSound(job, at, cs, d);
      var c :| c in cs && StepsTo(job, at, c, d);
      StepsAlt(job, at, c, d);
    }
  }

  lemma {:induction false} NeverAgain(job: Job, at: Cursor, cs: seq<Config>, alt: nat, n: nat)
    requires Without(cs, alt) && After(job, cs, at, n).Some?
    ensures Without(After(job, cs, at, n).value.configs, alt)
    decreases n
  {
    if n > 0 {
      StaysOver(job, at, cs, alt);
      NeverAgain(job, LexerRun.Moved(job, at), LexerRun.Next(job, cs, at).configs, alt, n - 1);
    }
  }

  // A rule that cannot do without a non-greedy decision ends where its first-listed branch first ends: no set behind
  // that place has it.
  lemma EndsThere(job: Job, mode: nat, at: Cursor, k: nat, cs: seq<Config>, alt: nat, i: nat, n: nat)
    requires EndsReadNothing(job.atn) && Holds(job, mode, at, k, cs) && Settled(job.atn, cs)
    requires AllEnter(job, mode, at, k, alt) && FirstEnds(job.atn, cs, alt, i)
    requires n > 0 && After(job, cs, Place(job, at, k), n).Some?
    ensures Without(After(job, cs, Place(job, at, k), n).value.configs, alt)
  {
    RuleOver(job, mode, at, k, cs, alt, i);
    var next := LexerRun.Next(job, cs, Place(job, at, k)).configs;
    NeverAgain(job, LexerRun.Moved(job, Place(job, at, k)), next, alt, n - 1);
  }

  // Every set of a match is settled.
  lemma NextSettled(job: Job, at: Cursor, cs: seq<Config>, m: nat)
    requires Ordered(cs, m) && LexerRun.Next(job, cs, at).Closed?
    ensures Settled(job.atn, LexerRun.Next(job, cs, at).configs)
  {
    AllAtGood(job, at, cs, m);
    assert AllAt(job, at, cs).set_ == LexerRun.Next(job, cs, at);
  }

  lemma {:induction false} AfterJoin(job: Job, cs: seq<Config>, at: Cursor, k: nat, n: nat, m: nat)
    requires m == k + n && After(job, cs, at, k).Some?
    ensures After(job, cs, at, m) ==
            After(job, After(job, cs, at, k).value.configs, After(job, cs, at, k).value.at, n)
    decreases k
  {
    if k > 0 {
      AfterJoin(job, LexerRun.Next(job, cs, at).configs, LexerRun.Moved(job, at), k - 1, n, m - 1);
    }
  }

  lemma {:induction false} AfterSettled(job: Job, cs: seq<Config>, at: Cursor, k: nat, m: nat)
    requires Ordered(cs, m) && Settled(job.atn, cs) && After(job, cs, at, k).Some?
    ensures Settled(job.atn, After(job, cs, at, k).value.configs)
    decreases k
  {
    if k > 0 {
      NextSettled(job, at, cs, m);
      AllAtOrdered(job, at, cs, m);
      assert AllAt(job, at, cs).set_ == LexerRun.Next(job, cs, at);
      AfterSettled(job, LexerRun.Next(job, cs, at).configs, LexerRun.Moved(job, at), k - 1, m);
    }
  }

  // The rule's first-listed branch ends with k characters, and the rule cannot do without a non-greedy decision.
  ghost predicate EndsWith(job: Job, mode: nat, at: Cursor, cs: seq<Config>, k: nat, alt: nat) {
    && After(job, cs, at, k).Some? && AllEnter(job, mode, at, k, alt)
    && exists i :: 0 <= i && FirstEnds(job.atn, After(job, cs, at, k).value.configs, alt, i)
  }

  // The set after k characters.
  lemma SetAt(job: Job, mode: nat, at: Cursor, cs: seq<Config>, k: nat)
    requires OneWay(job.atn) && Holds(job, mode, at, 0, cs) && Settled(job.atn, cs) && After(job, cs, at, k).Some?
    ensures var b := After(job, cs, at, k).value;
            b.at == Place(job, at, k) && Holds(job, mode, at, k, b.configs) && Settled(job.atn, b.configs)
  {
    var m :| Ordered(cs, m);
    AfterPlace(job, cs, at, 0, k, k);
    AfterHolds(job, mode, at, 0, cs, k, k);
    AfterSettled(job, cs, at, k, m);
  }

  lemma EndedBefore(job: Job, mode: nat, at: Cursor, cs: seq<Config>, k: nat, alt: nat, n: nat, l: nat)
    requires OneWay(job.atn) && EndsReadNothing(job.atn) && Holds(job, mode, at, 0, cs) && Settled(job.atn, cs)
    requires EndsWith(job, mode, at, cs, k, alt) && n > 0 && l == k + n && After(job, cs, at, l).Some?
    ensures Without(After(job, cs, at, l).value.configs, alt)
  {
    var b := After(job, cs, at, k).value;
    var i: nat :| FirstEnds(job.atn, b.configs, alt, i);
    SetAt(job, mode, at, cs, k);
    AfterJoin(job, cs, at, k, n, l);
    EndsThere(job, mode, at, k, b.configs, alt, i, n);
  }

  // The set that the token of a match is taken from.
  lemma TokenSet(job: Job, mode: nat, at: Cursor, gas: nat, cs: seq<Config>) returns (l: nat, b: Accepted)
    requires OneWay(job.atn) && at.index == job.start && Match(job, mode, at, gas).Token?
    requires StartState(job.atn, job.oracle, at.index, mode, job.depth).Closed?
    requires cs == StartState(job.atn, job.oracle, at.index, mode, job.depth).configs
    ensures Holds(job, mode, at, 0, cs) && Settled(job.atn, cs)
    ensures After(job, cs, at, l) == Some(b) && Accepts(job.atn, b.configs)
    ensures Match(job, mode, at, gas) == TokenOf(job, b)
  {
    MatchMunches(job, mode, at, gas);
    StartHolds(job, mode, at);
    StartsGood(job, at, At(job.atn, StartOf(job.atn, mode)).transitions);
    b :| Longest(job, cs, at, 0, b) && Match(job, mode, at, gas) == TokenOf(job, b);
    l :| l >= 0 && Lands(job, cs, at, l, b);
  }

  lemma TokenTrail(job: Job, mode: nat, at: Cursor, cs: seq<Config>, l: nat, b: Accepted)
      returns (alt: nat, trail: seq<Point>)
    requires OneWay(job.atn) && Holds(job, mode, at, 0, cs) && Settled(job.atn, cs)
    requires After(job, cs, at, l) == Some(b) && Accepts(job.atn, b.configs)
    ensures Gives(job, mode, at, alt, trail, TokenOf(job, b)) && Last(trail).read == l
    ensures !Without(b.configs, alt)
  {
    SetAt(job, mode, at, cs, l);
    FirstStopFirst(job, mode, at, l, b.configs);
    var d := b.configs[FirstStop(job.atn, b.configs)];
    alt := d.alt;
    trail := RecognizedEnds(job, mode, at, l, d);
    FirstRuleListed(job, mode, at, l, d, trail);
  }

  // A match: the token given is no longer than that, or it is another rule's.
  lemma MatchEndsThere(job: Job, mode: nat, at: Cursor, gas: nat, cs: seq<Config>, k: nat, alt: nat)
    requires OneWay(job.atn) && EndsReadNothing(job.atn) && at.index == job.start && Match(job, mode, at, gas).Token?
    requires StartState(job.atn, job.oracle, at.index, mode, job.depth).Closed?
    requires cs == StartState(job.atn, job.oracle, at.index, mode, job.depth).configs
    requires EndsWith(job, mode, at, cs, k, alt)
    ensures exists other, trail: seq<Point> ::
              Gives(job, mode, at, other, trail, Match(job, mode, at, gas)) && (Last(trail).read > k ==> other != alt)
  {
    var l, b := TokenSet(job, mode, at, gas, cs);
    var other, trail := TokenTrail(job, mode, at, cs, l, b);
    if l > k {
      EndedBefore(job, mode, at, cs, k, alt, l - k, l);
    }
  }
}
