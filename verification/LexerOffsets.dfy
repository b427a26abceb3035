// Why nothing may be consumed after an action that depends on the position: a lexer whose stored edge
// carries the offset of the match that stored it into the tokens of later matches.
module LexerOffsets {
  import opened LexerAtn
  import opened LexerCache
  import opened LexerRun
  import opened LexerTails

  // One rule: any number of a, then an action that depends on the position, then b.
  function Counting(): Atn {
    Atn([
      State([Epsilon(1)], false, 0, true, false),
      State([Epsilon(4), Act(2, 0)], false, 0, true, false),
      State([Range(3, 98, 98)], false, 0, false, false),
      State([], true, 0, false, false),
      State([Range(1, 97, 97)], false, 0, false, false)
    ], [Action(true)], [1], [0])
  }

  // The set before any number of a.
  function Looping(): seq<Config> {
    [Config(4, 1, [], [], false), Config(2, 1, [], [Step(0, UNFIXED)], false)]
  }

  lemma FromLoop(o: Oracle, i: nat, speculative: bool)
    ensures Closure(Counting(), o, i, Config(1, 1, [], [], false), Closed([], false, false), speculative, false, 3)
        == Closed(Looping(), false, false)
  {
    var a, c := Counting(), Config(1, 1, [], [], false);
    var r0 := Closed([], false, false);
    var ts := At(a, 1).transitions;
    assert ts[..1] == [Epsilon(4)] && ts[..1][..0] == [];
    var r1 := Closed([Config(4, 1, [], [], false)], false, false);
    ToMatch(o, i, Config(4, 1, [], [], false), r0, speculative);
    assert Added([], Config(4, 1, [], [], false)) == r1.configs;
    assert ClosureStep(a, o, i, c, Epsilon(4), r0, speculative, false, 2) == r1;
    assert Closures(a, o, i, c, ts[..1], r0, speculative, false, 2) == r1;
    ToMatch(o, i, Config(2, 1, [], [Step(0, UNFIXED)], false), r1, speculative);
    assert Added(r1.configs, Config(2, 1, [], [Step(0, UNFIXED)], false)) == Looping();
    assert [] + [Step(0, UNFIXED)] == [Step(0, UNFIXED)];
  }

  // A state that consumes a character is kept, and nothing follows from it before that.
  lemma ToMatch(o: Oracle, i: nat, c: Config, r: Closed, speculative: bool)
    requires c.state == 2 || c.state == 4
    requires r.Closed? && !r.accepted && !c.nonGreedy
    ensures Closure(Counting(), o, i, c, r, speculative, false, 2) == Closed(Added(r.configs, c), false, r.asked)
  {
    var ts := At(Counting(), c.state).transitions;
    assert ts[..0] == [];
  }

  // From the start and after each a the lexer is in the same set, and b leads from it to a set that
  // holds the offset: an edge stored at one offset is not the reach set at another.
  lemma StoredOffset(o: Oracle, i: nat, m: nat)
    ensures !TailActions(Counting())
    ensures StartState(Counting(), o, i, 0, 3) == Closed(Looping(), false, false)
    ensures Reach(Counting(), o, i, m, Looping(), 97, 3) == Closed(Looping(), false, false)
    ensures Reach(Counting(), o, i, m, Looping(), 98, 3) == Closed([Config(3, 1, [], [Step(0, m)], false)], true, false)
  {
    NoTail();
    StartLoops(o, i);
    LetterA(o, i, m);
    LetterB(o, i, m);
  }

  lemma StartLoops(o: Oracle, i: nat)
    ensures StartState(Counting(), o, i, 0, 3) == Closed(Looping(), false, false)
  {
    FromLoop(o, i, false);
    var a, ts := Counting(), [Epsilon(1)];
    assert StartOf(a, 0) == 0 && At(a, 0).transitions == ts;
    assert ts[..|ts| - 1] == [];
    assert Starts(a, o, i, [], 3) == Closed([], false, false);
    assert Starts(a, o, i, ts, 3) == Closed(Looping(), false, false);
  }

  lemma LetterA(o: Oracle, i: nat, m: nat)
    ensures Reach(Counting(), o, i, m, Looping(), 97, 3) == Closed(Looping(), false, false)
  {
    FromLoop(o, i, true);
    var a, cs := Counting(), Looping();
    assert cs[..1] == [cs[0]] && cs[..1][..0] == [];
    assert At(a, 4).transitions[..0] == [] && At(a, 2).transitions[..0] == [];
    assert Fixed(a, [], m) == [];
    assert ReachAll(a, o, i, m, cs[..1], 97, 3) == Reaching(Closed(Looping(), false, false), 0);
  }

  lemma LetterB(o: Oracle, i: nat, m: nat)
    ensures Reach(Counting(), o, i, m, Looping(), 98, 3) == Closed([Config(3, 1, [], [Step(0, m)], false)], true, false)
  {
    var a, cs := Counting(), Looping();
    assert cs[..1] == [cs[0]] && cs[..1][..0] == [];
    assert At(a, 4).transitions[..0] == [] && At(a, 2).transitions[..0] == [];
    assert ReachAll(a, o, i, m, cs[..1], 98, 3) == Reaching(Closed([], false, false), 0);
    assert Fixed(a, [Step(0, UNFIXED)], m) == [Step(0, m)];
    assert Added([], Config(3, 1, [], [Step(0, m)], false)) == [Config(3, 1, [], [Step(0, m)], false)];
  }

  lemma NoTail()
    ensures !TailActions(Counting())
  {
    var a, act, letter := Counting(), Act(2, 0), Range(3, 98, 98);
    assert At(a, 1).transitions[1] == act && At(a, 2).transitions[0] == letter && Dependent(a, 0);
    forall tail ensures !Tail(a, tail) {
      assert !StaysIn(tail, letter);
    }
  }

  // n times a, then b.
  function Word(n: nat): (w: seq<int>)
    ensures |w| == n + 1 && w[n] == 98 && forall i :: 0 <= i < n ==> w[i] == 97
  {
    seq(n, i => 97) + [98]
  }

  function Counted(n: nat, o: Oracle): Job { Job(Counting(), Word(n), 0, o, 3) }

  function Ending(m: nat): seq<Config> { [Config(3, 1, [], [Step(0, m)], false)] }

  // The token for a word of n times a and b, with its action at offset m.
  function TokenAt(n: nat, m: nat): Outcome { Token(1, [Step(0, m)], Cursor(n + 1, 1, n + 1)) }

  function Fresh(): Dfa { Dfa({}, map[], None) }

  lemma EndingAccepts(m: nat)
    ensures Accepts(Counting(), Ending(m)) && Prediction(Counting(), Ending(m)) == 1
        && Executor(Counting(), Ending(m)) == [Step(0, m)]
    ensures !Accepts(Counting(), Looping())
  {
    assert Ending(m)[..0] == [];
    assert FirstStop(Counting(), []) == 0;
    var cs := Looping();
    assert cs[..1] == [cs[0]] && cs[..1][..0] == [];
    assert FirstStop(Counting(), cs[..1]) == 1;
  }

  lemma EndOfWord(o: Oracle, i: nat, offset: int, m: nat)
    ensures Reach(Counting(), o, i, offset, Ending(m), LexerAtn.EOF, 3) == Closed([], false, false)
  {
    var a, cs := Counting(), Ending(m);
    assert cs[..|cs| - 1] == [] && At(a, cs[0].state).transitions == [];
    assert ReachAll(a, o, i, offset, [], LexerAtn.EOF, 3) == Reaching(Closed([], false, false), 0);
    assert ReachAll(a, o, i, offset, cs, LexerAtn.EOF, 3) == Reaching(Closed([], false, false), 0);
  }

  // What b leads to, and then the end of the input.
  lemma CountsLast(n: nat, o: Oracle, gas: nat)
    requires gas >= 2
    ensures Exec(Counted(n, o), Looping(), Cursor(n, 1, n), None, gas) == TokenAt(n, n)
  {
    var job, at, there := Counted(n, o), Cursor(n, 1, n), Cursor(n + 1, 1, n + 1);
    EndingAccepts(n);
    LetterB(o, n, n);
    EndOfWord(o, n + 1, n + 1, n);
    assert Next(job, Looping(), at) == Closed(Ending(n), true, false) && LexerRun.Moved(job, at) == there;
    var mark := Some(Accepted(there, Ending(n)));
    assert Exec(job, Ending(n), there, mark, gas - 1) == TokenAt(n, n) by {
      assert Next(job, Ending(n), there).configs == [];
    }
  }

  // The set loop is that before and after each of n times a.
  ghost predicate Loops(job: Job, n: nat, loop: seq<Config>) {
    && loop != [] && !Accepts(job.atn, loop) && n < |job.input|
    && (forall i :: 0 <= i < n ==> job.input[i] == 97)
    && forall i: nat :: i < n ==> Next(job, loop, Cursor(i, 1, i)) == Closed(loop, false, false)
  }

  lemma CountedLoops(n: nat, o: Oracle)
    ensures Loops(Counted(n, o), n, Looping())
  {
    EndingAccepts(n);
    forall i: nat | i < n ensures Next(Counted(n, o), Looping(), Cursor(i, 1, i)) == Closed(Looping(), false, false) {
      LetterA(o, i, i);
    }
  }

  // A match with nothing stored goes round n - i times.
  lemma {:induction false} ExecLoops(job: Job, n: nat, loop: seq<Config>, i: nat, gas: nat)
    requires Loops(job, n, loop) && i <= n && gas >= n - i
    ensures Exec(job, loop, Cursor(i, 1, i), None, gas) == Exec(job, loop, Cursor(n, 1, n), None, gas - (n - i))
    decreases n - i
  {
    if i < n {
      assert LexerRun.Moved(job, Cursor(i, 1, i)) == Cursor(i + 1, 1, i + 1);
      ExecLoops(job, n, loop, i + 1, gas - 1);
    }
  }

  // Where the letter a leads, if it is stored.
  predicate LoopStored(d: Dfa, loop: seq<Config>) {
    Stored(d, loop, 97).None? || Stored(d, loop, 97) == Some(To(loop))
  }

  // A match with edges stored goes round as often, and stores no more than that a leads round.
  lemma {:induction false} CachedLoops(job: Job, d: Dfa, n: nat, loop: seq<Config>, i: nat, gas: nat) returns (d': Dfa)
    requires Loops(job, n, loop) && i <= n && gas >= n - i && LoopStored(d, loop)
    ensures LoopStored(d', loop) && d'.s0 == d.s0 && Stored(d', loop, 98) == Stored(d, loop, 98)
    ensures CachedExec(job, d, loop, Cursor(i, 1, i), None, gas)
        == CachedExec(job, d', loop, Cursor(n, 1, n), None, gas - (n - i))
    decreases n - i
  {
    d' := d;
    if i < n {
      assert LexerRun.Moved(job, Cursor(i, 1, i)) == Cursor(i + 1, 1, i + 1);
      d' := CachedLoops(job, CachedNext(job, d, loop, Cursor(i, 1, i)).1, n, loop, i + 1, gas - 1);
    }
  }

  // A step on b to a set that accepts, and then the end of the input.
  lemma CachedLast(n: nat, m: nat, o: Oracle, d: Dfa, d': Dfa, gas: nat)
    requires gas >= 2 && CachedNext(Counted(n, o), d, Looping(), Cursor(n, 1, n)) == (Some(To(Ending(m))), d')
    ensures CachedExec(Counted(n, o), d, Looping(), Cursor(n, 1, n), None, gas) == (TokenAt(n, m), d')
  {
    var job, there := Counted(n, o), Cursor(n + 1, 1, n + 1);
    EndingAccepts(m);
    EndOfWord(o, n + 1, n + 1, m);
    assert LexerRun.Moved(job, Cursor(n, 1, n)) == there;
    assert CachedNext(job, d', Ending(m), there) == (Some(Error), d');
    assert CachedExec(job, d', Ending(m), there, Some(Accepted(there, Ending(m))), gas - 1) == (TokenAt(n, m), d');
  }

  // The first match stores the offset of its action, ...
  lemma LastStores(m: nat, o: Oracle, d: Dfa, gas: nat) returns (d': Dfa)
    requires gas >= 2 && LoopStored(d, Looping()) && Stored(d, Looping(), 98).None?
    ensures CachedExec(Counted(m, o), d, Looping(), Cursor(m, 1, m), None, gas) == (TokenAt(m, m), d')
    ensures LoopStored(d', Looping()) && d'.s0 == d.s0 && Stored(d', Looping(), 98) == Some(To(Ending(m)))
  {
    LetterB(o, m, m);
    d' := WithTarget(d, Looping(), 98, Closed(Ending(m), true, false));
    CachedLast(m, m, o, d, d', gas);
  }

  lemma FirstStores(m: nat, o: Oracle, gas: nat) returns (d: Dfa)
    requires gas >= m + 2
    ensures CachedMatch(Counted(m, o), Fresh(), 0, Cursor(0, 1, 0), gas) == (TokenAt(m, m), d)
    ensures d.s0 == Some(Looping()) && LoopStored(d, Looping()) && Stored(d, Looping(), 98) == Some(To(Ending(m)))
  {
    StartLoops(o, 0);
    CountedLoops(m, o);
    var d0 := WithStart(Fresh(), Closed(Looping(), false, false));
    d := CachedLoops(Counted(m, o), d0, m, Looping(), 0, gas);
    d := LastStores(m, o, d, gas - m);
  }

  // ... and a later one takes it from there.
  lemma LaterTakes(n: nat, m: nat, o: Oracle, d: Dfa, gas: nat)
    requires gas >= n + 2 && d.s0 == Some(Looping()) && LoopStored(d, Looping())
        && Stored(d, Looping(), 98) == Some(To(Ending(m)))
    ensures CachedMatch(Counted(n, o), d, 0, Cursor(0, 1, 0), gas).0 == TokenAt(n, m)
  {
    CountedLoops(n, o);
    var d' := CachedLoops(Counted(n, o), d, n, Looping(), 0, gas);
    CachedLast(n, m, o, d', d', gas - n);
  }

  lemma NothingStored(n: nat, o: Oracle, gas: nat)
    requires gas >= n + 2
    ensures Match(Counted(n, o), 0, Cursor(0, 1, 0), gas) == TokenAt(n, n)
  {
    StartLoops(o, 0);
    CountedLoops(n, o);
    ExecLoops(Counted(n, o), n, Looping(), 0, gas);
    CountsLast(n, o, gas - n);
  }

  // After a match of m times a and b, a match of n times a and b gives its action the offset m; with nothing
  // stored it gives it the offset n.
  lemma LaterMatch(m: nat, n: nat, o: Oracle, p: Oracle, gas: nat)
    requires gas >= m + 2 && gas >= n + 2
    ensures var start := Cursor(0, 1, 0);
            var (first, d) := CachedMatch(Counted(m, o), Fresh(), 0, start, gas);
            && first == Match(Counted(m, o), 0, start, gas) == TokenAt(m, m)
            && CachedMatch(Counted(n, p), d, 0, start, gas).0 == TokenAt(n, m)
            && Match(Counted(n, p), 0, start, gas) == TokenAt(n, n)
  {
    NothingStored(m, o, gas);
    NothingStored(n, p, gas);
    var d := FirstStores(m, o, gas);
    LaterTakes(n, m, p, d, gas);
  }
}
