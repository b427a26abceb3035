// When a stored edge is right at every place: exactly if no step in the set reached got its offset there.
module LexerEdges {
  import opened LexerAtn
  import opened LexerRun
  import opened LexerTails
  import opened LexerCache
  import opened LexerSets
  import opened LexerErased

  // An action of the configuration has the offset k.
  predicate Dated(c: Config, k: int) { exists j :: 0 <= j < |c.steps| && c.steps[j].offset == k }

  predicate DatedSet(cs: seq<Config>, k: int) { exists i :: 0 <= i < |cs| && Dated(cs[i], k) }

  function Restepped(c: Config, steps: seq<Step>): Config {
    Config(c.state, c.alt, c.context, steps, c.nonGreedy)
  }

  lemma FixedDated(a: Atn, c: Config, t: Transition, offset: int, k: int)
    requires k != UNFIXED && !Dated(c, k)
    ensures Dated(Taken(a, c, t, offset), k) ==> k == offset
    ensures !Dated(Taken(a, c, t, k), k) ==> Taken(a, c, t, offset) == Taken(a, c, t, k)
  {
    var before, after := Fixed(a, c.steps, offset), Fixed(a, c.steps, k);
    if !Dated(Taken(a, c, t, k), k) {
      forall i | 0 <= i < |c.steps| ensures before[i] == after[i] {
        assert after[i] == Taken(a, c, t, k).steps[i];
      }
    }
    if Dated(Taken(a, c, t, offset), k) {
      var i :| 0 <= i < |before| && before[i].offset == k;
      assert c.steps[i].offset != k;
    }
  }

  lemma EpsilonDated(s: Setting, c: Config, t: Transition, k: int)
    requires k != UNFIXED
    ensures var next := EpsilonTarget(s.atn, s.oracle, s.index, c, t, s.speculative, s.eof);
            next.Some? ==> (Dated(next.value, k) <==> Dated(c, k))
  {
    var next := EpsilonTarget(s.atn, s.oracle, s.index, c, t, s.speculative, s.eof);
    if next.Some? && Dated(c, k) {
      var j :| 0 <= j < |c.steps| && c.steps[j].offset == k;
      assert next.value.steps[j] == c.steps[j];
    }
  }

  lemma EpsilonRestepped(s: Setting, c: Config, steps: seq<Step>, t: Transition)
    ensures var next := EpsilonTarget(s.atn, s.oracle, s.index, c, t, s.speculative, s.eof);
            var other := EpsilonTarget(s.atn, s.oracle, s.index, Restepped(c, steps), t, s.speculative, s.eof);
            && (next.None? <==> other.None?)
            && (next.Some? ==> other.value == Restepped(next.value, other.value.steps))
  {}

  lemma DatedMore(cs: seq<Config>, ds: seq<Config>, k: int)
    requires cs <= ds
    ensures DatedSet(cs, k) ==> DatedSet(ds, k)
  {
    if DatedSet(cs, k) {
      var i :| 0 <= i < |cs| && Dated(cs[i], k);
      assert ds[i] == cs[i];
    }
  }

  lemma DatedAdded(cs: seq<Config>, c: Config, k: int)
    ensures DatedSet(Added(cs, c), k) <==> DatedSet(cs, k) || Dated(c, k)
  {
    DatedMore(cs, Added(cs, c), k);
    assert Added(cs, c)[if c in cs then 0 else |cs|] == c || c in cs;
  }

  // A closure dates nothing.
  lemma {:induction false} ClosureDated(s: Setting, c: Config, r: Closed, depth: nat, k: int)
    requires ClosureIn(s, c, r, depth).Closed? && k != UNFIXED && DatedSet(ClosureIn(s, c, r, depth).configs, k)
    ensures DatedSet(r.configs, k) || Dated(c, k)
    decreases depth, 0
  {
    DatedAdded(r.configs, c, k);
    if At(s.atn, c.state).stop {
      if c.context != [] {
        assert Dated(Popped(s.atn, c), k) <==> Dated(c, k);
        ClosureDated(s, Popped(s.atn, c), r, depth - 1, k);
      }
    } else {
      var keep := !At(s.atn, c.state).epsilonOnly && (!r.accepted || !c.nonGreedy);
      var first := if keep then Closed(Added(r.configs, c), r.accepted, r.asked) else r;
      ClosuresDated(s, c, At(s.atn, c.state).transitions, first, depth - 1, k);
    }
  }

  lemma {:induction false} ClosuresDated(s: Setting, c: Config, ts: seq<Transition>, r: Closed, depth: nat, k: int)
    requires ClosuresIn(s, c, ts, r, depth).Closed? && k != UNFIXED
    requires DatedSet(ClosuresIn(s, c, ts, r, depth).configs, k)
    ensures r.Closed? && (DatedSet(r.configs, k) || Dated(c, k))
    decreases depth, |ts| + 1
  {
    if ts != [] {
      var before, t := ClosuresIn(s, c, ts[..|ts| - 1], r, depth), ts[|ts| - 1];
      StepGrows(s, c, t, before, depth);
      ClosuresGrow(s, c, ts[..|ts| - 1], r, depth);
      EpsilonDated(s, c, t, k);
      var target := EpsilonTarget(s.atn, s.oracle, s.index, c, t, s.speculative, s.eof);
      if target.Some? {
        ClosureDated(s, target.value, Closed(before.configs, before.accepted, before.asked || t.Predicate?), depth, k);
      }
      if DatedSet(before.configs, k) {
        ClosuresDated(s, c, ts[..|ts| - 1], r, depth, k);
      }
    }
  }

  // Where a dated configuration leaves nothing behind, no other steps would.
  lemma {:induction false} ClosureBare(s: Setting, c: Config, steps: seq<Step>, r: Closed, depth: nat, k: int)
    requires ClosureIn(s, c, r, depth).Closed? && !DatedSet(ClosureIn(s, c, r, depth).configs, k)
    requires k != UNFIXED && Dated(c, k)
    ensures ClosureIn(s, Restepped(c, steps), r, depth) == ClosureIn(s, c, r, depth)
    decreases depth, 0
  {
    DatedAdded(r.configs, c, k);
    if At(s.atn, c.state).stop {
      assert c.context != [];
      assert Popped(s.atn, Restepped(c, steps)) == Restepped(Popped(s.atn, c), steps);
      assert Dated(Popped(s.atn, c), k);
      ClosureBare(s, Popped(s.atn, c), steps, r, depth - 1, k);
    } else {
      var keep := !At(s.atn, c.state).epsilonOnly && (!r.accepted || !c.nonGreedy);
      var first := if keep then Closed(Added(r.configs, c), r.accepted, r.asked) else r;
      ClosuresGrow(s, c, At(s.atn, c.state).transitions, first, depth - 1);
      DatedMore(first.configs, ClosureIn(s, c, r, depth).configs, k);
      assert !keep;
      ClosuresBare(s, c, steps, At(s.atn, c.state).transitions, r, depth - 1, k);
    }
  }

  lemma {:induction false} ClosuresBare(s: Setting, c: Config, steps: seq<Step>, ts: seq<Transition>, r: Closed,
      depth: nat, k: int)
    requires ClosuresIn(s, c, ts, r, depth).Closed? && !DatedSet(ClosuresIn(s, c, ts, r, depth).configs, k)
    requires k != UNFIXED && Dated(c, k)
    ensures ClosuresIn(s, Restepped(c, steps), ts, r, depth) == ClosuresIn(s, c, ts, r, depth)
    decreases depth, |ts| + 1
  {
    if ts != [] {
      var before, t := ClosuresIn(s, c, ts[..|ts| - 1], r, depth), ts[|ts| - 1];
      StepGrows(s, c, t, before, depth);
      DatedMore(before.configs, ClosuresIn(s, c, ts, r, depth).configs, k);
      ClosuresBare(s, c, steps, ts[..|ts| - 1], r, depth, k);
      StepBare(s, c, steps, t, before, depth, k);
    }
  }

  lemma {:induction false} StepBare(s: Setting, c: Config, steps: seq<Step>, t: Transition, r: Closed, depth: nat,
      k: int)
    requires StepIn(s, c, t, r, depth).Closed? && !DatedSet(StepIn(s, c, t, r, depth).configs, k)
    requires k != UNFIXED && Dated(c, k)
    ensures StepIn(s, Restepped(c, steps), t, r, depth) == StepIn(s, c, t, r, depth)
    decreases depth, 1
  {
    EpsilonDated(s, c, t, k);
    EpsilonRestepped(s, c, steps, t);
    var target := EpsilonTarget(s.atn, s.oracle, s.index, c, t, s.speculative, s.eof);
    if target.Some? {
      var other := EpsilonTarget(s.atn, s.oracle, s.index, Restepped(c, steps), t, s.speculative, s.eof);
      ClosureBare(s, target.value, other.value.steps, Closed(r.configs, r.accepted, r.asked || t.Predicate?), depth, k);
    }
  }

  function Shifted(p: Place, m: int): Place { Place(p.oracle, p.index, m, p.symbol, p.depth) }

  lemma SingleDated(a: Atn, p: Place, c: Config, t: Transition, r: Reaching, done: bool, k: int)
    requires k != UNFIXED && !Dated(c, k) && k != p.offset && Single(a, p, c, t, r, done).0.set_.Closed?
    requires DatedSet(Single(a, p, c, t, r, done).0.set_.configs, k)
    ensures r.set_.Closed? && DatedSet(r.set_.configs, k)
  {
    if !done && r.set_.Closed? && Matches(t, p.symbol) {
      var next, start := Taken(a, c, t, p.offset), Closed(r.set_.configs, c.alt == r.skipAlt, r.set_.asked);
      FixedDated(a, c, t, p.offset, k);
      SingleTakes(a, p, c, t, next, r);
      ClosureDated(Around(a, p), next, start, p.depth, k);
    }
  }

  lemma {:induction false} SeveralDated(a: Atn, p: Place, c: Config, ts: seq<Transition>, r: Reaching, k: int)
    requires k != UNFIXED && !Dated(c, k) && k != p.offset && Several(a, p, c, ts, r).0.set_.Closed?
    requires DatedSet(Several(a, p, c, ts, r).0.set_.configs, k)
    ensures r.set_.Closed? && DatedSet(r.set_.configs, k)
    decreases |ts|
  {
    if ts != [] {
      var (before, done) := Several(a, p, c, ts[..|ts| - 1], r);
      SingleDated(a, p, c, ts[|ts| - 1], before, done, k);
      SeveralDated(a, p, c, ts[..|ts| - 1], r, k);
    }
  }

  // At another offset than k a reach set has k only where the set it is reached from has.
  lemma {:induction false} AllDated(a: Atn, p: Place, cs: seq<Config>, k: int)
    requires k != UNFIXED && !DatedSet(cs, k) && k != p.offset && All(a, p, cs).set_.Closed?
    ensures !DatedSet(All(a, p, cs).set_.configs, k)
    decreases |cs|
  {
    if cs != [] {
      var n := |cs| - 1;
      DatedMore(cs[..n], cs, k);
      AllLater(a, p, cs, n, cs[n].alt);
      AllDated(a, p, cs[..n], k);
      assert !Dated(cs[n], k);
      if DatedSet(All(a, p, cs).set_.configs, k) {
        SeveralDated(a, p, cs[n], At(a, cs[n].state).transitions, All(a, p, cs[..n]), k);
      }
    }
  }

  // Where the set reached at offset k does not have k, it is reached at every other offset too.
  lemma SingleFree(a: Atn, p: Place, c: Config, t: Transition, r: Reaching, done: bool, m: int)
    requires p.offset != UNFIXED && !Dated(c, p.offset) && Single(a, p, c, t, r, done).0.set_.Closed?
    requires !DatedSet(Single(a, p, c, t, r, done).0.set_.configs, p.offset)
    ensures Single(a, Shifted(p, m), c, t, r, done) == Single(a, p, c, t, r, done)
  {
    if !done && r.set_.Closed? && Matches(t, p.symbol) {
      var k, q := p.offset, Shifted(p, m);
      var next, other := Taken(a, c, t, k), Taken(a, c, t, m);
      var start := Closed(r.set_.configs, c.alt == r.skipAlt, r.set_.asked);
      SingleTakes(a, p, c, t, next, r);
      SingleTakes(a, q, c, t, other, r);
      FixedDated(a, c, t, m, k);
      if Dated(next, k) {
        ClosureBare(Around(a, p), next, other.steps, start, p.depth, k);
        assert Restepped(next, other.steps) == other;
      }
    }
  }

  lemma {:induction false} SeveralFree(a: Atn, p: Place, c: Config, ts: seq<Transition>, r: Reaching, m: int)
    requires p.offset != UNFIXED && !Dated(c, p.offset) && Several(a, p, c, ts, r).0.set_.Closed?
    requires !DatedSet(Several(a, p, c, ts, r).0.set_.configs, p.offset)
    ensures Several(a, Shifted(p, m), c, ts, r) == Several(a, p, c, ts, r)
    decreases |ts|
  {
    if ts != [] {
      var n := |ts| - 1;
      var (before, done) := Several(a, p, c, ts[..n], r);
      SingleGrows(a, p, c, ts[n], before, done);
      SeveralFree(a, p, c, ts[..n], r, m);
      SingleFree(a, p, c, ts[n], before, done, m);
    }
  }

  lemma SingleGrows(a: Atn, p: Place, c: Config, t: Transition, r: Reaching, done: bool)
    requires Single(a, p, c, t, r, done).0.set_.Closed?
    ensures r.set_.Closed?
    ensures DatedSet(r.set_.configs, p.offset) ==> DatedSet(Single(a, p, c, t, r, done).0.set_.configs, p.offset)
  {
    if !done && r.set_.Closed? && Matches(t, p.symbol) {
      var next, start := Taken(a, c, t, p.offset), Closed(r.set_.configs, c.alt == r.skipAlt, r.set_.asked);
      SingleTakes(a, p, c, t, next, r);
      ClosureGrows(Around(a, p), next, start, p.depth);
      DatedMore(start.configs, ClosureIn(Around(a, p), next, start, p.depth).configs, p.offset);
    }
  }

  lemma {:induction false} SeveralGrows(a: Atn, p: Place, c: Config, ts: seq<Transition>, r: Reaching)
    requires Several(a, p, c, ts, r).0.set_.Closed?
    ensures r.set_.Closed?
    ensures DatedSet(r.set_.configs, p.offset) ==> DatedSet(Several(a, p, c, ts, r).0.set_.configs, p.offset)
    decreases |ts|
  {
    if ts != [] {
      var (before, done) := Several(a, p, c, ts[..|ts| - 1], r);
      SingleGrows(a, p, c, ts[|ts| - 1], before, done);
      SeveralGrows(a, p, c, ts[..|ts| - 1], r);
    }
  }

  lemma {:induction false} AllFree(a: Atn, p: Place, cs: seq<Config>, m: int)
    requires p.offset != UNFIXED && !DatedSet(cs, p.offset) && All(a, p, cs).set_.Closed?
    requires !DatedSet(All(a, p, cs).set_.configs, p.offset)
    ensures All(a, Shifted(p, m), cs) == All(a, p, cs)
    decreases |cs|
  {
    if cs != [] {
      var n := |cs| - 1;
      var c, before := cs[n], All(a, p, cs[..n]);
      DatedMore(cs[..n], cs, p.offset);
      AllLater(a, p, cs, n, c.alt);
      assert !Dated(c, p.offset);
      if !(c.alt == before.skipAlt && c.nonGreedy) {
        SeveralGrows(a, p, c, At(a, c.state).transitions, before);
        SeveralFree(a, p, c, At(a, c.state).transitions, before, m);
      }
      AllFree(a, p, cs[..n], m);
    }
  }

  // For offsets k and m that the set does not have yet: the same set is reached at every offset if what is reached at
  // k does not have k, and else another one at m already.
  lemma EdgeExact(a: Atn, p: Place, cs: seq<Config>, m: int)
    requires p.offset != UNFIXED && m != p.offset && !DatedSet(cs, p.offset) && All(a, p, cs).set_.Closed?
    ensures !DatedSet(All(a, p, cs).set_.configs, p.offset) ==> forall n :: All(a, Shifted(p, n), cs) == All(a, p, cs)
    ensures DatedSet(All(a, p, cs).set_.configs, p.offset) ==>
              var q := All(a, Shifted(p, m), cs).set_; q.Closed? ==> q.configs != All(a, p, cs).set_.configs
  {
    if !DatedSet(All(a, p, cs).set_.configs, p.offset) {
      forall n ensures All(a, Shifted(p, n), cs) == All(a, p, cs) {
        AllFree(a, p, cs, n);
      }
    } else if All(a, Shifted(p, m), cs).set_.Closed? {
      AllDated(a, Shifted(p, m), cs, p.offset);
    }
  }

  // The edge is right at an offset, and at all of them.
  ghost predicate RightAt(a: Atn, depth: nat, s: seq<Config>, symbol: int, t: Target, m: nat) {
    && Unasked(Reach(a, Yes(), 0, m, s, symbol, depth))
    && Reach(a, Yes(), 0, m, s, symbol, depth).configs == Configs(t)
  }

  ghost predicate EdgeRight(a: Atn, depth: nat, s: seq<Config>, symbol: int, t: Target) {
    (t.To? ==> t.configs != []) && forall m: nat :: RightAt(a, depth, s, symbol, t, m)
  }

  ghost predicate DfaRight(a: Atn, depth: nat, mode: nat, d: Dfa) {
    && (forall s, symbol :: (s, symbol) in d.edges ==> EdgeRight(a, depth, s, symbol, d.edges[(s, symbol)]))
    && (d.s0.Some? ==>
        Unasked(StartState(a, Yes(), 0, mode, depth)) && StartState(a, Yes(), 0, mode, depth).configs == d.s0.value)
  }

  // Offsets are fixed in order: all that a set has are behind the cursor.
  ghost predicate Below(cs: seq<Config>, n: int) { forall k :: k >= n ==> !DatedSet(cs, k) }

  // The step stores no edge, or one to a set without the offset of the step.
  predicate StepFree(job: Job, cs: seq<Config>, at: Cursor) {
    0 <= LA(job.input, at.index) <= MAX_DFA_EDGE && Unasked(Next(job, cs, at)) ==>
      !DatedSet(Next(job, cs, at).configs, at.index - job.start)
  }

  // ... all along a match with nothing stored.
  predicate RunFree(job: Job, cs: seq<Config>, at: Cursor, gas: nat)
    decreases gas
  {
    gas > 0 ==>
      && StepFree(job, cs, at)
      && match Next(job, cs, at)
         case Stuck => true
         case Closed(target, _, _) =>
           target == [] || (Accepts(job.atn, target) && LA(job.input, at.index) == LexerAtn.EOF)
           || RunFree(job, target, LexerRun.Moved(job, at), gas - 1)
  }

  // The edge to r is right exactly if r does not have the offset of the step.
  lemma StoredRight(job: Job, cs: seq<Config>, at: Cursor, r: Closed)
    requires job.start <= at.index && Below(cs, at.index - job.start) && r == Next(job, cs, at) && Unasked(r)
    ensures EdgeRight(job.atn, job.depth, cs, LA(job.input, at.index), if r.configs == [] then Error else To(r.configs))
        <==> !DatedSet(r.configs, at.index - job.start)
  {
    var a, p, k := job.atn, PlaceOf(job, at), at.index - job.start;
    var t := if r.configs == [] then Error else To(r.configs);
    EdgeExact(a, p, cs, k + 1);
    if !DatedSet(r.configs, k) {
      forall m: nat ensures RightAt(a, job.depth, cs, p.symbol, t, m) {
        assert All(a, Shifted(p, m), cs).set_ == r;
        ReachSame(a, job.oracle, at.index, m, Yes(), 0, m, cs, p.symbol, job.depth);
      }
    } else if EdgeRight(a, job.depth, cs, p.symbol, t) {
      assert RightAt(a, job.depth, cs, p.symbol, t, k + 1);
      ReachSame(a, Yes(), 0, k + 1, job.oracle, at.index, k + 1, cs, p.symbol, job.depth);
    }
  }

  lemma NextBelow(job: Job, cs: seq<Config>, at: Cursor)
    requires job.start <= at.index && Below(cs, at.index - job.start) && Next(job, cs, at).Closed?
    ensures Below(Next(job, cs, at).configs, at.index - job.start + 1)
  {
    forall k | k >= at.index - job.start + 1 ensures !DatedSet(Next(job, cs, at).configs, k) {
      AllDated(job.atn, PlaceOf(job, at), cs, k);
    }
  }

  // Where the next step may store an edge, nothing has its offset yet.
  ghost predicate InStep(job: Job, cs: seq<Config>, at: Cursor) {
    job.start <= at.index && (LA(job.input, at.index) == LexerAtn.EOF || Below(cs, at.index - job.start))
  }

  lemma MovesInStep(job: Job, cs: seq<Config>, at: Cursor)
    requires InStep(job, cs, at) && Next(job, cs, at).Closed?
    ensures InStep(job, Next(job, cs, at).configs, LexerRun.Moved(job, at))
  {
    if LA(job.input, at.index) != LexerAtn.EOF {
      NextBelow(job, cs, at);
    }
  }

  // With right edges a step is the step computed; it leaves the edges right exactly if it is free.
  lemma NextRight(job: Job, d: Dfa, mode: nat, cs: seq<Config>, at: Cursor)
    requires DfaRight(job.atn, job.depth, mode, d) && InStep(job, cs, at)
    ensures var (target, d') := CachedNext(job, d, cs, at);
            && target == TargetOf(Next(job, cs, at))
            && (DfaRight(job.atn, job.depth, mode, d') <==> StepFree(job, cs, at))
  {
    var t, r := LA(job.input, at.index), Next(job, cs, at);
    if Stored(d, cs, t).Some? {
      assert RightAt(job.atn, job.depth, cs, t, d.edges[(cs, t)], at.index - job.start);
      ReachSame(job.atn, Yes(), 0, at.index - job.start, job.oracle, at.index, at.index - job.start, cs, t, job.depth);
      StoredRight(job, cs, at, r);
    } else if 0 <= t <= MAX_DFA_EDGE && Unasked(r) {
      StoredRight(job, cs, at, r);
      OneEdge(job, d, mode, cs, t, if r.configs == [] then Error else To(r.configs), WithTarget(d, cs, t, r));
    }
  }

  lemma OneEdge(job: Job, d: Dfa, mode: nat, cs: seq<Config>, t: int, target: Target, d': Dfa)
    requires DfaRight(job.atn, job.depth, mode, d) && d'.edges == d.edges[(cs, t) := target] && d'.s0 == d.s0
    ensures DfaRight(job.atn, job.depth, mode, d') <==> EdgeRight(job.atn, job.depth, cs, t, target)
  {
    assert (cs, t) in d'.edges && d'.edges[(cs, t)] == target;
  }

  // No edge is taken back or changed.
  ghost predicate Extends(d: Dfa, d': Dfa) {
    (forall e :: e in d.edges ==> e in d'.edges && d'.edges[e] == d.edges[e]) && (d.s0.Some? ==> d'.s0 == d.s0)
  }

  lemma NextExtends(job: Job, d: Dfa, cs: seq<Config>, at: Cursor)
    ensures Extends(d, CachedNext(job, d, cs, at).1)
  {}

  lemma ExtendsMore(d: Dfa, d': Dfa, e: Dfa)
    requires Extends(d, d') && Extends(d', e)
    ensures Extends(d, e)
  {}

  lemma {:induction false} ExecExtends(job: Job, d: Dfa, cs: seq<Config>, at: Cursor, last: Option<Accepted>, gas: nat,
      e: Dfa)
    requires Sound(job, last) && e == CachedExec(job, d, cs, at, last, gas).1
    ensures Extends(d, e)
    decreases gas
  {
    if gas > 0 {
      NextExtends(job, d, cs, at);
      CachedExecUnfolds(job, d, cs, at, last, gas);
      var (target, d') := CachedNext(job, d, cs, at);
      if Ended(job, target, at, last).None? {
        var there, next := LexerRun.Moved(job, at), Configs(target.value);
        ExecExtends(job, d', next, there, Marked(job, last, next, there), gas - 1, e);
        ExtendsMore(d, d', e);
      }
    }
  }

  lemma WrongStays(a: Atn, depth: nat, mode: nat, d: Dfa, d': Dfa)
    requires Extends(d, d') && DfaRight(a, depth, mode, d')
    ensures DfaRight(a, depth, mode, d)
  {}

  // A match with right edges leaves right edges exactly if it is free all along with nothing stored, and then it
  // is that match.
  lemma {:induction false} ExecRight(job: Job, d: Dfa, mode: nat, cs: seq<Config>, at: Cursor, last: Option<Accepted>,
      gas: nat, r: (Outcome, Dfa), o: Outcome)
    requires DfaRight(job.atn, job.depth, mode, d) && InStep(job, cs, at) && Sound(job, last)
    requires r == CachedExec(job, d, cs, at, last, gas) && o == Exec(job, cs, at, last, gas)
    ensures DfaRight(job.atn, job.depth, mode, r.1) <==> RunFree(job, cs, at, gas)
    ensures RunFree(job, cs, at, gas) ==> r.0 == o
    decreases gas
  {
    if gas > 0 {
      var d' := CachedNext(job, d, cs, at).1;
      var target, there := TargetOf(Next(job, cs, at)), LexerRun.Moved(job, at);
      NextRight(job, d, mode, cs, at);
      ExecUnfolds(job, cs, at, last, gas);
      CachedExecUnfolds(job, d, cs, at, last, gas);
      if Ended(job, target, at, last).None? {
        var next := Configs(target.value);
        var mark := Marked(job, last, next, there);
        if StepFree(job, cs, at) {
          MovesInStep(job, cs, at);
          ExecRight(job, d', mode, next, there, mark, gas - 1, r, o);
        } else {
          ExecExtends(job, d', next, there, mark, gas - 1, r.1);
          if DfaRight(job.atn, job.depth, mode, r.1) {
            WrongStays(job.atn, job.depth, mode, d', r.1);
          }
        }
      }
    }
  }

  lemma {:induction false} StartsUndated(a: Atn, o: Oracle, i: nat, ts: seq<Transition>, depth: nat, k: int)
    requires Starts(a, o, i, ts, depth).Closed? && k != UNFIXED
    ensures !DatedSet(Starts(a, o, i, ts, depth).configs, k)
    decreases |ts|
  {
    if ts != [] {
      var n := |ts| - 1;
      var before := Starts(a, o, i, ts[..n], depth);
      StartsUndated(a, o, i, ts[..n], depth, k);
      if DatedSet(Starts(a, o, i, ts, depth).configs, k) {
        ClosureDated(Setting(a, o, i, false, false), Config(ts[n].target, |ts|, [], [], false),
            Closed(before.configs, false, before.asked), depth, k);
      }
    }
  }

  ghost predicate MatchFree(job: Job, mode: nat, at: Cursor, gas: nat) {
    match StartState(job.atn, job.oracle, at.index, mode, job.depth)
    case Stuck => true
    case Closed(cs, _, _) => RunFree(job, cs, at, gas)
  }

  // The exact condition under which what a match stores is right for all later ones: along the match with nothing
  // stored, no set that gets an edge has the offset of the step that leads to it.
  lemma MatchRight(job: Job, d: Dfa, mode: nat, at: Cursor, gas: nat)
    requires DfaRight(job.atn, job.depth, mode, d) && at.index == job.start
    ensures DfaRight(job.atn, job.depth, mode, CachedMatch(job, d, mode, at, gas).1) <==> MatchFree(job, mode, at, gas)
    ensures MatchFree(job, mode, at, gas) ==> CachedMatch(job, d, mode, at, gas).0 == Match(job, mode, at, gas)
  {
    var a, ts := job.atn, At(job.atn, StartOf(job.atn, mode)).transitions;
    var start := StartState(a, job.oracle, at.index, mode, job.depth);
    if d.s0.Some? {
      StartsSame(a, Yes(), 0, job.oracle, at.index, ts, job.depth);
    } else if start.Closed? && !start.asked {
      StartsSame(a, job.oracle, at.index, Yes(), 0, ts, job.depth);
    }
    if start.Closed? {
      forall k | k >= 0 ensures !DatedSet(start.configs, k) {
        StartsUndated(a, job.oracle, at.index, ts, job.depth, k);
      }
      var cs, d' := start.configs, if d.s0.Some? then d else WithStart(d, start);
      ExecRight(job, d', mode, cs, at, Marked(job, None, cs, at), gas, CachedMatch(job, d, mode, at, gas),
          Match(job, mode, at, gas));
    }
  }

  // Where no rule consumes anything after an action that depends on the position, every step is free.
  lemma TailsFree(job: Job, cs: seq<Config>, at: Cursor)
    requires TailActions(job.atn) && AllWait(job.atn, cs)
    requires job.start <= at.index && Below(cs, at.index - job.start)
    ensures StepFree(job, cs, at)
  {
    var a, k := job.atn, at.index - job.start;
    if Unasked(Next(job, cs, at)) {
      EdgeExact(a, PlaceOf(job, at), cs, k + 1);
      ReachSame(a, job.oracle, at.index, k, job.oracle, at.index, k + 1, cs, LA(job.input, at.index), job.depth);
    }
  }

  lemma {:induction false} TailsRunFree(job: Job, cs: seq<Config>, at: Cursor, gas: nat)
    requires TailActions(job.atn) && AllWait(job.atn, cs) && InStep(job, cs, at)
    ensures RunFree(job, cs, at, gas)
    decreases gas
  {
    if gas > 0 {
      if LA(job.input, at.index) != LexerAtn.EOF {
        TailsFree(job, cs, at);
      }
      var next := Next(job, cs, at);
      if next.Closed? {
        ReachWaits(job.atn, job.oracle, at.index, at.index - job.start, cs, LA(job.input, at.index), job.depth);
        MovesInStep(job, cs, at);
        TailsRunFree(job, next.configs, LexerRun.Moved(job, at), gas - 1);
      }
    }
  }

  // ... and so is every match.
  lemma TailsMatchFree(job: Job, mode: nat, at: Cursor, gas: nat)
    requires TailActions(job.atn) && at.index == job.start
    ensures MatchFree(job, mode, at, gas)
  {
    var a, ts := job.atn, At(job.atn, StartOf(job.atn, mode)).transitions;
    var start := StartState(a, job.oracle, at.index, mode, job.depth);
    if start.Closed? {
      forall k | k >= 0 ensures !DatedSet(start.configs, k) {
        StartsUndated(a, job.oracle, at.index, ts, job.depth, k);
      }
      StartsWait(a, job.oracle, at.index, ts, job.depth);
      TailsRunFree(job, start.configs, at, gas);
    }
  }

  // There, whatever earlier matches have stored, a match gives what it gives with nothing stored.
  lemma MatchSame(job: Job, d: Dfa, mode: nat, at: Cursor, gas: nat)
    requires TailActions(job.atn) && DfaRight(job.atn, job.depth, mode, d) && at.index == job.start
    ensures CachedMatch(job, d, mode, at, gas).0 == Match(job, mode, at, gas)
    ensures DfaRight(job.atn, job.depth, mode, CachedMatch(job, d, mode, at, gas).1)
  {
    TailsMatchFree(job, mode, at, gas);
    MatchRight(job, d, mode, at, gas);
  }
}
