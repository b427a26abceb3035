// Matching a token without any cache: every step computes its reach set. The token is the longest
// one that some rule accepts.
module LexerRun {
  import opened LexerAtn

  datatype Cursor = Cursor(index: nat, line: nat, column: nat)

  // A mark of the last accepting set, and where the input was then.
  datatype Accepted = Accepted(at: Cursor, configs: seq<Config>)

  // A token of a type, with the actions to run and the cursor behind it; the end of the input; a
  // character no rule can match; or a computation that does not end.
  datatype Outcome =
    | Token(kind: int, steps: seq<Step>, at: Cursor)
    | EndOfFile
    | NoViable(at: Cursor)
    | Stuck

  // One match: the network, the input and where it starts, and the predicates.
  datatype Job = Job(atn: Atn, input: seq<int>, start: nat, oracle: Oracle, depth: nat)

  predicate Input(input: seq<int>) { forall i :: 0 <= i < |input| ==> 0 <= input[i] <= MAX_CHAR }

  function LA(input: seq<int>, i: nat): int {
    if i < |input| then input[i] else EOF
  }

  function Consumed(input: seq<int>, at: Cursor): Cursor {
    if LA(input, at.index) == '\n' as int then Cursor(at.index + 1, at.line + 1, 0)
    else Cursor(at.index + 1, at.line, at.column + 1)
  }

  function Next(job: Job, cs: seq<Config>, at: Cursor): Closed {
    Reach(job.atn, job.oracle, at.index, at.index - job.start, cs, LA(job.input, at.index), job.depth)
  }

  // The end-of-file symbol is not consumed.
  function Moved(job: Job, at: Cursor): Cursor {
    if LA(job.input, at.index) == EOF then at else Consumed(job.input, at)
  }

  function Marked(job: Job, last: Option<Accepted>, cs: seq<Config>, at: Cursor): Option<Accepted> {
    if Accepts(job.atn, cs) then Some(Accepted(at, cs)) else last
  }

  predicate Sound(job: Job, last: Option<Accepted>) {
    last.Some? ==> Accepts(job.atn, last.value.configs)
  }

  function TokenOf(job: Job, a: Accepted): Outcome
    requires Accepts(job.atn, a.configs)
  {
    Token(Prediction(job.atn, a.configs), Executor(job.atn, a.configs), a.at)
  }

  function FailOrAccept(job: Job, last: Option<Accepted>, symbol: int, at: Cursor): Outcome
    requires Sound(job, last)
  {
    match last
    case Some(a) => TokenOf(job, a)
    case None => if symbol == EOF && at.index == job.start then EndOfFile else NoViable(at)
  }

  // The loop of execATN from the set cs on.
  function Exec(job: Job, cs: seq<Config>, at: Cursor, last: Option<Accepted>, gas: nat): Outcome
    requires Sound(job, last)
    decreases gas
  {
    if gas == 0 then Outcome.Stuck
    else
      var symbol := LA(job.input, at.index);
      match Next(job, cs, at)
      case Stuck => Outcome.Stuck
      case Closed(target, _, _) =>
        if target == [] then FailOrAccept(job, last, symbol, at)
        else if Accepts(job.atn, target) && symbol == EOF then TokenOf(job, Accepted(at, target))
        else Exec(job, target, Moved(job, at), Marked(job, last, target, Moved(job, at)), gas - 1)
  }

  // A match with nothing cached.
  function Match(job: Job, mode: nat, at: Cursor, gas: nat): Outcome {
    match StartState(job.atn, job.oracle, at.index, mode, job.depth)
    case Stuck => Outcome.Stuck
    case Closed(cs, _, _) => Exec(job, cs, at, Marked(job, None, cs, at), gas)
  }

  // Where k steps from the set cs lead; None when no configuration is left.
  function After(job: Job, cs: seq<Config>, at: Cursor, k: nat): Option<Accepted>
    decreases k
  {
    if k == 0 then Some(Accepted(at, cs))
    else
      match Next(job, cs, at)
      case Stuck => None
      case Closed(target, _, _) => if target == [] then None else After(job, target, Moved(job, at), k - 1)
  }

  ghost predicate Lands(job: Job, cs: seq<Config>, at: Cursor, k: nat, a: Accepted) {
    After(job, cs, at, k) == Some(a) && Accepts(job.atn, a.configs)
  }

  lemma {:induction false} AfterForward(job: Job, cs: seq<Config>, at: Cursor, k: nat)
    requires After(job, cs, at, k).Some?
    ensures at.index <= After(job, cs, at, k).value.at.index
    ensures LA(job.input, at.index) == EOF ==> After(job, cs, at, k).value.at == at
    decreases k
  {
    if k > 0 {
      AfterForward(job, Next(job, cs, at).configs, Moved(job, at), k - 1);
    }
  }

  // No accepting set is k steps on, for any k from 1.
  ghost predicate NoneLater(job: Job, cs: seq<Config>, at: Cursor) {
    forall k: nat, a :: k > 0 ==> !Lands(job, cs, at, k, a)
  }

  // The set a is at least `from` steps on and accepts, and none there that accepts has consumed more.
  ghost predicate Longest(job: Job, cs: seq<Config>, at: Cursor, from: nat, a: Accepted) {
    && Accepts(job.atn, a.configs)
    && (exists k: nat :: k >= from && Lands(job, cs, at, k, a))
    && forall j: nat, b :: j >= from && Lands(job, cs, at, j, b) ==> b.at.index <= a.at.index
  }

  // The loop stopped, on a symbol and at a cursor.
  ghost predicate Stopped(job: Job, at: Cursor, last: Option<Accepted>, symbol: int, end: Cursor, o: Outcome)
    requires Sound(job, last)
  {
    && o == FailOrAccept(job, last, symbol, end) && at.index <= end.index
    && (symbol == EOF && end.index == at.index <==> LA(job.input, at.index) == EOF)
  }

  ghost predicate Falls(job: Job, at: Cursor, last: Option<Accepted>, o: Outcome)
    requires Sound(job, last)
  {
    exists symbol: int, end: Cursor :: Stopped(job, at, last, symbol, end, o)
  }

  // The loop decides for the longest accepting run from its set, and if there is none, falls back on
  // the mark it was given.
  ghost predicate Decides(job: Job, cs: seq<Config>, at: Cursor, last: Option<Accepted>, o: Outcome)
    requires Sound(job, last)
  {
    || (NoneLater(job, cs, at) && Falls(job, at, last, o))
    || exists a :: Longest(job, cs, at, 1, a) && o == TokenOf(job, a)
  }

  lemma StepLands(job: Job, cs: seq<Config>, at: Cursor, k: nat, a: Accepted)
    requires k > 0 && Next(job, cs, at).Closed? && Next(job, cs, at).configs != []
    ensures Lands(job, cs, at, k, a) <==> Lands(job, Next(job, cs, at).configs, Moved(job, at), k - 1, a)
  {}

  // The next set accepts, and no later one has consumed more.
  lemma LongestHere(job: Job, cs: seq<Config>, at: Cursor)
    requires Next(job, cs, at).Closed? && Next(job, cs, at).configs != [] && Accepts(job.atn, Next(job, cs, at).configs)
    requires NoneLater(job, Next(job, cs, at).configs, Moved(job, at)) || LA(job.input, at.index) == EOF
    ensures Longest(job, cs, at, 1, Accepted(Moved(job, at), Next(job, cs, at).configs))
  {
    var target, there := Next(job, cs, at).configs, Moved(job, at);
    var a := Accepted(there, target);
    StepLands(job, cs, at, 1, a);
    assert Lands(job, target, there, 0, a);
    forall j: nat, b | j >= 1 && Lands(job, cs, at, j, b) ensures b.at.index <= a.at.index {
      StepLands(job, cs, at, j, b);
      AfterForward(job, target, there, j - 1);
    }
  }

  lemma LongestLater(job: Job, cs: seq<Config>, at: Cursor, a: Accepted)
    requires Next(job, cs, at).Closed? && Next(job, cs, at).configs != []
    requires Longest(job, Next(job, cs, at).configs, Moved(job, at), 1, a)
    ensures Longest(job, cs, at, 1, a)
  {
    var target, there := Next(job, cs, at).configs, Moved(job, at);
    var k: nat :| k >= 1 && Lands(job, target, there, k, a);
    StepLands(job, cs, at, k + 1, a);
    AfterForward(job, target, there, k);
    forall j: nat, b | j >= 1 && Lands(job, cs, at, j, b) ensures b.at.index <= a.at.index {
      StepLands(job, cs, at, j, b);
    }
  }

  lemma NoneBefore(job: Job, cs: seq<Config>, at: Cursor)
    requires Next(job, cs, at).Closed? && Next(job, cs, at).configs != []
        && !Accepts(job.atn, Next(job, cs, at).configs)
    requires NoneLater(job, Next(job, cs, at).configs, Moved(job, at))
    ensures NoneLater(job, cs, at)
  {
    forall k: nat, a | k > 0 ensures !Lands(job, cs, at, k, a) {
      StepLands(job, cs, at, k, a);
    }
  }

  lemma FallsBefore(job: Job, at: Cursor, last: Option<Accepted>, o: Outcome)
    requires Sound(job, last) && Falls(job, Moved(job, at), last, o)
    ensures Falls(job, at, last, o)
  {
    var symbol: int, end: Cursor :| Stopped(job, Moved(job, at), last, symbol, end, o);
    assert Stopped(job, at, last, symbol, end, o);
  }

  lemma {:induction false} ExecDecides(job: Job, cs: seq<Config>, at: Cursor, last: Option<Accepted>, gas: nat)
    requires Sound(job, last) && !Exec(job, cs, at, last, gas).Stuck?
    ensures Decides(job, cs, at, last, Exec(job, cs, at, last, gas))
    decreases gas
  {
    var o, symbol, target := Exec(job, cs, at, last, gas), LA(job.input, at.index), Next(job, cs, at).configs;
    if target == [] {
      assert Stopped(job, at, last, symbol, at, o);
      assert forall k: nat, a :: k > 0 ==> !Lands(job, cs, at, k, a);
    } else if Accepts(job.atn, target) && symbol == EOF {
      LongestHere(job, cs, at);
    } else {
      var there := Moved(job, at);
      var mark := Marked(job, last, target, there);
      ExecDecides(job, target, there, mark, gas - 1);
      if a :| Longest(job, target, there, 1, a) && o == TokenOf(job, a) {
        LongestLater(job, cs, at, a);
      } else if Accepts(job.atn, target) {
        LongestHere(job, cs, at);
      } else {
        NoneBefore(job, cs, at);
        FallsBefore(job, at, last, o);
      }
    }
  }

  // What a match gives: the longest token that a rule accepts; and if none accepts anything, the end
  // of the input exactly where there is no more input.
  ghost predicate Munches(job: Job, cs: seq<Config>, at: Cursor, o: Outcome) {
    if exists k: nat, a :: Lands(job, cs, at, k, a) then exists a :: Longest(job, cs, at, 0, a) && o == TokenOf(job, a)
    else if LA(job.input, at.index) == EOF then o == EndOfFile
    else o.NoViable?
  }

  lemma MatchMunches(job: Job, mode: nat, at: Cursor, gas: nat)
    requires at.index == job.start && !Match(job, mode, at, gas).Stuck?
    ensures StartState(job.atn, job.oracle, at.index, mode, job.depth).Closed?
    ensures Munches(job, StartState(job.atn, job.oracle, at.index, mode, job.depth).configs, at,
        Match(job, mode, at, gas))
  {
    var cs, o := StartState(job.atn, job.oracle, at.index, mode, job.depth).configs, Match(job, mode, at, gas);
    var mark := Marked(job, None, cs, at);
    ExecDecides(job, cs, at, mark, gas);
    assert forall a :: Lands(job, cs, at, 0, a) <==> Accepts(job.atn, cs) && a == Accepted(at, cs);
    if a :| Longest(job, cs, at, 1, a) && o == TokenOf(job, a) {
      LongestFromStart(job, cs, at, a);
    } else if Accepts(job.atn, cs) {
      var a := Accepted(at, cs);
      assert Lands(job, cs, at, 0, a);
      assert Longest(job, cs, at, 0, a);
    } else {
      assert forall k: nat, a :: Lands(job, cs, at, k, a) ==> k > 0;
    }
  }

  lemma LongestFromStart(job: Job, cs: seq<Config>, at: Cursor, a: Accepted)
    requires Longest(job, cs, at, 1, a)
    ensures Longest(job, cs, at, 0, a)
  {
    var k: nat :| k >= 1 && Lands(job, cs, at, k, a);
    AfterForward(job, cs, at, k);
    forall j: nat, b | j >= 0 && Lands(job, cs, at, j, b) ensures b.at.index <= a.at.index {
      assert j == 0 ==> b.at == at;
    }
  }
}
