// What the sets of a match stand for: derivations in the transition network. A match finds the longest
// text that has a derivation to the end of a rule, and of the rules that derive it the first.
module LexerLanguage {
  import opened LexerAtn
  import opened LexerRun
  import opened LexerSets

  // The cursor after k steps.
  function Place(job: Job, at: Cursor, k: nat): Cursor
    decreases k
  {
    if k == 0 then at else LexerRun.Moved(job, Place(job, at, k - 1))
  }

  function Entry(job: Job, at: Cursor): Setting { Setting(job.atn, job.oracle, at.index, false, false) }

  function StartConfig(ts: seq<Transition>, i: nat): Config
    requires i < |ts|
  {
    Config(ts[i].target, i + 1, [], [], false)
  }

  // The kth step of a derivation from the mode's start state comes to d.
  ghost predicate Derives(job: Job, mode: nat, at: Cursor, k: nat, d: Config)
    decreases k, 0
  {
    if k == 0 then Begins(job, At(job.atn, StartOf(job.atn, mode)).transitions, at, d)
        else Extends(job, mode, at, k - 1, d)
  }

  ghost predicate Begins(job: Job, ts: seq<Transition>, at: Cursor, d: Config) {
    Kept(job.atn, d) && exists i: nat :: i < |ts| && Leads(Entry(job, at), StartConfig(ts, i), d)
  }

  ghost predicate Extends(job: Job, mode: nat, at: Cursor, k: nat, d: Config)
    decreases k, 1
  {
    exists c :: Derives(job, mode, at, k, c) && StepsTo(job, Place(job, at, k), c, d)
  }

  // ... and d is at the end of a token's rule.
  ghost predicate Recognizes(job: Job, mode: nat, at: Cursor, k: nat, d: Config) {
    Derives(job, mode, at, k, d) && At(job.atn, d.state).stop
  }

  // The set holds what is derived in k steps, all of it that passed no non-greedy decision, in order.
  ghost predicate Holds(job: Job, mode: nat, at: Cursor, k: nat, cs: seq<Config>) {
    && (forall d :: d in cs ==> Derives(job, mode, at, k, d))
    && (forall d :: Derives(job, mode, at, k, d) && !d.nonGreedy ==> d in cs)
    && exists m :: Ordered(cs, m)
  }

  function StartsOf(job: Job, at: Cursor, ts: seq<Transition>): Closed {
    Starts(job.atn, job.oracle, at.index, ts, job.depth)
  }

  lemma {:induction false} StartsSound(job: Job, at: Cursor, ts: seq<Transition>, d: Config)
    requires StartsOf(job, at, ts).Closed? && d in StartsOf(job, at, ts).configs
    ensures Begins(job, ts, at, d)
    decreases |ts|
  {
    var n := |ts| - 1;
    var before := StartsOf(job, at, ts[..n]);
    if d in before.configs {
      StartsSound(job, at, ts[..n], d);
      var i: nat :| i < n && Leads(Entry(job, at), StartConfig(ts[..n], i), d);
      assert StartConfig(ts[..n], i) == StartConfig(ts, i);
    } else {
      ClosureSound(Entry(job, at), StartConfig(ts, n), Closed(before.configs, false, before.asked), job.depth, d);
    }
  }

  lemma {:induction false} StartsComplete(job: Job, at: Cursor, ts: seq<Transition>, i: nat, d: Config)
    requires StartsOf(job, at, ts).Closed? && i < |ts| && Kept(job.atn, d) && !d.nonGreedy
    requires Leads(Entry(job, at), StartConfig(ts, i), d)
    ensures d in StartsOf(job, at, ts).configs
    decreases |ts|
  {
    var n := |ts| - 1;
    var before := StartsOf(job, at, ts[..n]);
    var c, r := StartConfig(ts, n), Closed(before.configs, false, before.asked);
    if i == n {
      var m: nat :| Path(Entry(job, at), c, d, m);
      ClosureComplete(Entry(job, at), c, r, job.depth, d, m);
    } else {
      ClosureGrows(Entry(job, at), c, r, job.depth);
      StartsComplete(job, at, ts[..n], i, d);
    }
  }

  lemma {:induction false} StartsOrdered(job: Job, at: Cursor, ts: seq<Transition>)
    requires StartsOf(job, at, ts).Closed?
    ensures Ordered(StartsOf(job, at, ts).configs, |ts|)
    decreases |ts|
  {
    if ts != [] {
      var n := |ts| - 1;
      var before := StartsOf(job, at, ts[..n]);
      var c, r := StartConfig(ts, n), Closed(before.configs, false, before.asked);
      StartsOrdered(job, at, ts[..n]);
      ClosureGrows(Entry(job, at), c, r, job.depth);
      GrowsOrdered(r, StartsOf(job, at, ts), n, n + 1);
    }
  }

  lemma StartHolds(job: Job, mode: nat, at: Cursor)
    requires StartState(job.atn, job.oracle, at.index, mode, job.depth).Closed?
    ensures Holds(job, mode, at, 0, StartState(job.atn, job.oracle, at.index, mode, job.depth).configs)
  {
    var ts := At(job.atn, StartOf(job.atn, mode)).transitions;
    var cs := StartsOf(job, at, ts).configs;
    forall d | d in cs ensures Derives(job, mode, at, 0, d) {
      StartsSound(job, at, ts, d);
    }
    forall d | Derives(job, mode, at, 0, d) && !d.nonGreedy ensures d in cs {
      var i: nat :| i < |ts| && Leads(Entry(job, at), StartConfig(ts, i), d);
      StartsComplete(job, at, ts, i, d);
    }
    StartsOrdered(job, at, ts);
  }

  lemma NextHolds(job: Job, mode: nat, at: Cursor, k: nat, cs: seq<Config>)
    requires OneWay(job.atn) && Holds(job, mode, at, k, cs) && LexerRun.Next(job, cs, Place(job, at, k)).Closed?
    ensures Holds(job, mode, at, k + 1, LexerRun.Next(job, cs, Place(job, at, k)).configs)
  {
    var there := Place(job, at, k);
    var next := LexerRun.Next(job, cs, there).configs;
    assert next == AllAt(job, there, cs).set_.configs;
    forall d | d in next ensures Derives(job, mode, at, k + 1, d) {
      AllAtSound(job, there, cs, d);
      assert Extends(job, mode, at, k, d);
    }
    forall d | Derives(job, mode, at, k + 1, d) && !d.nonGreedy ensures d in next {
      assert Extends(job, mode, at, k, d);
      var c :| Derives(job, mode, at, k, c) && StepsTo(job, there, c, d);
      StepsGreedy(job, there, c, d);
      AllAtComplete(job, there, cs, c, d);
    }
    var m :| Ordered(cs, m);
    AllAtOrdered(job, there, cs, m);
  }

  lemma {:induction false} AfterPlace(job: Job, cs: seq<Config>, at: Cursor, k: nat, n: nat, m: nat)
    requires m == k + n && After(job, cs, Place(job, at, k), n).Some?
    ensures After(job, cs, Place(job, at, k), n).value.at == Place(job, at, m)
    decreases n
  {
    if n > 0 {
      AfterPlace(job, LexerRun.Next(job, cs, Place(job, at, k)).configs, at, k + 1, n - 1, m);
    }
  }

  // Every set a match goes through holds the derivations of its length.
  lemma {:induction false} AfterHolds(job: Job, mode: nat, at: Cursor, k: nat, cs: seq<Config>, n: nat, m: nat)
    requires OneWay(job.atn) && Holds(job, mode, at, k, cs) && After(job, cs, Place(job, at, k), n).Some? && m == k + n
    ensures Holds(job, mode, at, m, After(job, cs, Place(job, at, k), n).value.configs)
    decreases n
  {
    if n == 0 {
      assert m == k;
    } else {
      NextHolds(job, mode, at, k, cs);
      AfterHolds(job, mode, at, k + 1, LexerRun.Next(job, cs, Place(job, at, k)).configs, n - 1, m);
    }
  }

  // A derivation goes through derivations of all smaller lengths.
  lemma {:induction false} DerivesBack(job: Job, mode: nat, at: Cursor, k: nat, j: nat, d: Config) returns (c: Config)
    requires k <= j && Derives(job, mode, at, j, d) && !d.nonGreedy
    ensures Derives(job, mode, at, k, c) && !c.nonGreedy
    decreases j
  {
    if k == j {
      c := d;
    } else {
      var i: nat := j - 1;
      assert Extends(job, mode, at, i, d);
      var b :| Derives(job, mode, at, i, b) && StepsTo(job, Place(job, at, i), b, d);
      StepsGreedy(job, Place(job, at, i), b, d);
      c := DerivesBack(job, mode, at, k, i, b);
    }
  }

  lemma {:induction false} PlaceForward(job: Job, at: Cursor, k: nat, j: nat)
    requires k <= j
    ensures Place(job, at, k).index <= Place(job, at, j).index
    ensures Symbol(job, Place(job, at, k)) == LexerAtn.EOF ==> Place(job, at, j) == Place(job, at, k)
    decreases j
  {
    if k < j {
      PlaceForward(job, at, k, j - 1);
    }
  }

  // A mark already made is kept or bettered.
  lemma MarkKept(job: Job, cs: seq<Config>, at: Cursor, last: Option<Accepted>, gas: nat)
    requires Sound(job, last) && last.Some? && last.value.at.index <= at.index && !Exec(job, cs, at, last, gas).Stuck?
    ensures var o := Exec(job, cs, at, last, gas); o.Token? && last.value.at.index <= o.at.index
  {
    ExecDecides(job, cs, at, last, gas);
    var o := Exec(job, cs, at, last, gas);
    if a :| Longest(job, cs, at, 1, a) && o == TokenOf(job, a) {
      var k: nat :| k >= 1 && Lands(job, cs, at, k, a);
      AfterForward(job, cs, at, k);
    }
  }

  lemma AcceptsIf(a: Atn, cs: seq<Config>, d: Config)
    requires d in cs && At(a, d.state).stop
    ensures Accepts(a, cs)
  {
    var i :| 0 <= i < |cs| && cs[i] == d;
    assert FirstStop(a, cs) <= i;
  }

  // A longer derivation keeps the next set from being empty.
  lemma NextAlive(job: Job, mode: nat, at: Cursor, k: nat, cs: seq<Config>, j: nat, d: Config)
    requires OneWay(job.atn) && Holds(job, mode, at, k, cs) && LexerRun.Next(job, cs, Place(job, at, k)).Closed?
    requires k < j && Recognizes(job, mode, at, j, d) && !d.nonGreedy
    ensures var target := LexerRun.Next(job, cs, Place(job, at, k)).configs;
            Holds(job, mode, at, k + 1, target) && target != [] && (j == k + 1 ==> Accepts(job.atn, target))
  {
    NextHolds(job, mode, at, k, cs);
    var c := DerivesBack(job, mode, at, k + 1, j, d);
    var target := LexerRun.Next(job, cs, Place(job, at, k)).configs;
    assert c in target;
    if j == k + 1 {
      AcceptsIf(job.atn, target, d);
    }
  }

  // No derivation to the end of a rule is longer than the token that the loop decides for.
  lemma {:induction false} ExecLongest(job: Job, mode: nat, at: Cursor, k: nat, cs: seq<Config>, last: Option<Accepted>,
      gas: nat, j: nat, d: Config)
    requires OneWay(job.atn) && Holds(job, mode, at, k, cs) && Sound(job, last)
    requires !Exec(job, cs, Place(job, at, k), last, gas).Stuck?
    requires k < j && Recognizes(job, mode, at, j, d) && !d.nonGreedy
    ensures var o := Exec(job, cs, Place(job, at, k), last, gas); o.Token? && Place(job, at, j).index <= o.at.index
    decreases gas
  {
    var there := Place(job, at, k);
    var target := LexerRun.Next(job, cs, there).configs;
    NextAlive(job, mode, at, k, cs, j, d);
    PlaceForward(job, at, k, j);
    if !(Accepts(job.atn, target) && Symbol(job, there) == LexerAtn.EOF) {
      var mark := Marked(job, last, target, Place(job, at, k + 1));
      if j == k + 1 {
        MarkKept(job, target, Place(job, at, j), mark, gas - 1);
      } else {
        ExecLongest(job, mode, at, k + 1, target, mark, gas - 1, j, d);
      }
    }
  }

  // The text of k steps has a derivation to the end of a rule, and no rule listed before does.
  ghost predicate FirstRule(job: Job, mode: nat, at: Cursor, k: nat, d: Config) {
    && Recognizes(job, mode, at, k, d)
    && forall e :: Recognizes(job, mode, at, k, e) && !e.nonGreedy ==> d.alt <= e.alt
  }

  lemma FirstStopFirst(job: Job, mode: nat, at: Cursor, k: nat, cs: seq<Config>)
    requires Holds(job, mode, at, k, cs) && Accepts(job.atn, cs)
    ensures FirstRule(job, mode, at, k, cs[FirstStop(job.atn, cs)])
  {
    var f := FirstStop(job.atn, cs);
    assert cs[f] in cs;
    var m :| Ordered(cs, m);
    forall e | Recognizes(job, mode, at, k, e) && !e.nonGreedy ensures cs[f].alt <= e.alt {
      var i :| 0 <= i < |cs| && cs[i] == e;
      assert f <= i;
    }
  }

  lemma {:induction false} TokenDerived(job: Job, mode: nat, at: Cursor, gas: nat)
    requires OneWay(job.atn) && at.index == job.start && Match(job, mode, at, gas).Token?
    ensures var o := Match(job, mode, at, gas);
            exists k: nat, d :: FirstRule(job, mode, at, k, d)
                && o == Token(TokenType(job.atn, At(job.atn, d.state).rule), d.steps, Place(job, at, k))
  {
    MatchMunches(job, mode, at, gas);
    var cs, o := StartState(job.atn, job.oracle, at.index, mode, job.depth).configs, Match(job, mode, at, gas);
    StartHolds(job, mode, at);
    var a :| Longest(job, cs, at, 0, a) && o == TokenOf(job, a);
    var k: nat :| Lands(job, cs, at, k, a);
    AfterPlace(job, cs, at, 0, k, k);
    AfterHolds(job, mode, at, 0, cs, k, k);
    FirstStopFirst(job, mode, at, k, a.configs);
    assert FirstRule(job, mode, at, k, a.configs[FirstStop(job.atn, a.configs)]);
  }

  lemma LongestDerived(job: Job, mode: nat, at: Cursor, gas: nat, j: nat, d: Config)
    requires OneWay(job.atn) && at.index == job.start && !Match(job, mode, at, gas).Stuck?
    requires Recognizes(job, mode, at, j, d) && !d.nonGreedy
    ensures var o := Match(job, mode, at, gas); o.Token? && Place(job, at, j).index <= o.at.index
  {
    var cs := StartState(job.atn, job.oracle, at.index, mode, job.depth).configs;
    StartHolds(job, mode, at);
    var mark := Marked(job, None, cs, at);
    if j == 0 {
      AcceptsIf(job.atn, cs, d);
      MarkKept(job, cs, at, mark, gas);
    } else {
      ExecLongest(job, mode, at, 0, cs, mark, gas, j, d);
    }
  }
}
