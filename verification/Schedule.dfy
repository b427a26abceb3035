// The turns a parallel rule gives to its branches, one after the other: which branch is next is settled by the
// iteration order of its table and by which branches have not finished.
module Schedule {
  import opened Rules
  import opened Isolation
  import opened Coroutine
  import opened Interleaving
  import opened ParallelRules
  import opened Rounds

  // Between two turns: what is left to run of the branches in the table, the game, and the work left to each.
  datatype Point = Point(todo: map<nat, seq<Rule>>, g: Game, left: seq<nat>)

  datatype Reached = Nowhere | At(s: Point)

  // A parallel for goes to the world of the branch and publishes its element.
  ghost function Entering(c: Callback, g: Game, w: nat): Game {
    if c.ParallelFor? then Entered(c, g, w) else g
  }

  // One call of run, of the rule on top of the stack of branch w.
  ghost function Leg(env: Env, c: Callback, s: Point, w: nat): Outcome
    requires w in s.todo && s.todo[w] != [] && w < |s.left|
  {
    Run(env, s.todo[w][|s.todo[w]| - 1], Entering(c, s.g, w), s.left[w])
  }

  // The branch can take a turn: it is in the table, the call comes to an end, and leaves the record of the
  // parallel rule where it is.
  ghost predicate CanTurn(env: Env, c: Callback, s: Point, w: nat) {
    && w in s.todo && s.todo[w] != [] && w < |s.left| && Leg(env, c, s, w).Done?
    && var k := CallbackKey(c, s.g.world);
       k in Leg(env, c, s, w).g.states && Leg(env, c, s, w).g.states[k].Branches?
  }

  // ... and after it the rules noted are pushed, the record is cleared, and a branch with nothing left is erased.
  ghost function TurnOf(env: Env, c: Callback, s: Point, w: nat): (t: Point)
    requires CanTurn(env, c, s, w)
    ensures |t.left| == |s.left|
    ensures t.todo.Keys == if NextOf(env, c, s, w) == [] then s.todo.Keys - {w} else s.todo.Keys
    ensures forall v :: v in t.todo && v != w ==> t.todo[v] == s.todo[v]
    ensures forall v :: 0 <= v < |s.left| && v != w ==> t.left[v] == s.left[v]
  {
    var o := Leg(env, c, s, w);
    var next := NextOf(env, c, s, w);
    KeysAfterTurn(s.todo, w, next);
    Point(AfterTurn(s.todo, w, next), Put(o.g, CallbackKey(c, s.g.world), Branches([])), s.left[w := o.gas])
  }

  ghost function NextOf(env: Env, c: Callback, s: Point, w: nat): seq<Rule>
    requires CanTurn(env, c, s, w)
  {
    NextStack(s.todo[w], Leg(env, c, s, w).g.states[CallbackKey(c, s.g.world)].lastRun)
  }

  // A list of turns, exactly one for each entry.
  ghost function Play(env: Env, c: Callback, s: Point, sched: seq<nat>): Reached
    decreases |sched|
  {
    if sched == [] then At(s)
    else if !CanTurn(env, c, s, sched[0]) then Nowhere
    else Play(env, c, TurnOf(env, c, s, sched[0]), sched[1..])
  }

  // One pass over the table: the branches in it, in its order.
  ghost function Round(order: seq<nat>, s: Point): seq<nat> { Keep(order, (w: nat) => w in s.todo) }

  ghost function PlayRounds(env: Env, c: Callback, order: seq<nat>, s: Point, n: nat): Reached
    decreases n
  {
    if n == 0 then At(s)
    else
      match Play(env, c, s, Round(order, s))
      case Nowhere => Nowhere
      case At(t) => PlayRounds(env, c, order, t, n - 1)
  }

  // All turns of n passes.
  ghost function Turns(env: Env, c: Callback, order: seq<nat>, s: Point, n: nat): seq<nat>
    decreases n
  {
    if n == 0 then []
    else
      match Play(env, c, s, Round(order, s))
      case Nowhere => []
      case At(t) => Round(order, s) + Turns(env, c, order, t, n - 1)
  }

  lemma {:induction false} PlayJoin(env: Env, c: Callback, s: Point, a: seq<nat>, b: seq<nat>)
    ensures Play(env, c, s, a + b) ==
            match Play(env, c, s, a)
            case Nowhere => Nowhere
            case At(t) => Play(env, c, t, b)
    decreases |a|
  {
    if a == [] {
      assert a + b == b;
    } else if CanTurn(env, c, s, a[0]) {
      assert (a + b)[0] == a[0] && (a + b)[1..] == a[1..] + b;
      PlayJoin(env, c, TurnOf(env, c, s, a[0]), a[1..], b);
    }
  }

  // The passes are their turns.
  lemma {:induction false} RoundsAreTurns(env: Env, c: Callback, order: seq<nat>, s: Point, n: nat)
    requires PlayRounds(env, c, order, s, n).At?
    ensures Play(env, c, s, Turns(env, c, order, s, n)) == PlayRounds(env, c, order, s, n)
    decreases n
  {
    if n > 0 {
      var t := Play(env, c, s, Round(order, s)).s;
      RoundsAreTurns(env, c, order, t, n - 1);
      PlayJoin(env, c, s, Round(order, s), Turns(env, c, order, t, n - 1));
    }
  }

  // Only a branch's own turns change what it has left, and none brings a branch back.
  lemma {:induction false} OthersStay(env: Env, c: Callback, s: Point, sched: seq<nat>, v: nat)
    requires Play(env, c, s, sched).At?
    ensures var t := Play(env, c, s, sched).s;
            && |t.left| == |s.left| && (v in t.todo ==> v in s.todo)
            && (v !in sched ==> (v in t.todo <==> v in s.todo))
    decreases |sched|
  {
    if sched != [] {
      OthersStay(env, c, TurnOf(env, c, s, sched[0]), sched[1..], v);
    }
  }

  lemma {:induction false} TurnsInTodo(env: Env, c: Callback, s: Point, sched: seq<nat>, v: nat)
    requires Play(env, c, s, sched).At? && v in sched
    ensures v in s.todo
    decreases |sched|
  {
    if v != sched[0] {
      assert v in sched[1..];
      TurnsInTodo(env, c, TurnOf(env, c, s, sched[0]), sched[1..], v);
    }
  }

  // The facts about a run of n passes.
  ghost predicate Passes(env: Env, c: Callback, order: seq<nat>, s: Point, n: nat) {
    Distinct(order) && (forall w :: w in s.todo ==> w in order) && PlayRounds(env, c, order, s, n).At?
  }

  lemma PassOn(env: Env, c: Callback, order: seq<nat>, s: Point, n: nat)
    requires Passes(env, c, order, s, n) && n > 0
    ensures Play(env, c, s, Round(order, s)).At?
    ensures var t := Play(env, c, s, Round(order, s)).s;
            && Passes(env, c, order, t, n - 1)
            && Turns(env, c, order, s, n) == Round(order, s) + Turns(env, c, order, t, n - 1)
            && forall v :: v in t.todo ==> v in s.todo
  {
    var t := Play(env, c, s, Round(order, s)).s;
    forall v | v in t.todo ensures v in s.todo {
      OthersStay(env, c, s, Round(order, s), v);
    }
  }

  lemma RoundIs(order: seq<nat>, s: Point, v: nat)
    requires Distinct(order) && forall w :: w in s.todo ==> w in order
    ensures Distinct(Round(order, s)) && (v in Round(order, s) <==> v in s.todo)
  {
    KeepDistinct(order, (w: nat) => w in s.todo);
    KeepMember(order, (w: nat) => w in s.todo, v);
  }

  // What stands in two passes on the two sides of one branch.
  lemma TwoPasses(order: seq<nat>, s: Point, t: Point, i: nat, p: nat, v: nat)
    requires Distinct(order) && (forall w :: w in s.todo ==> w in order) && forall w :: w in t.todo ==> w in s.todo
    requires i < |Round(order, s)| && p < |Round(order, t)|
    requires Round(order, t)[p] == Round(order, s)[i] && v != Round(order, s)[i]
    ensures v in Round(order, s)[i + 1..] ==>
              v in s.todo && v !in Round(order, t)[..p] && v !in Round(order, s)[..i + 1]
    ensures v !in Round(order, s)[i + 1..] ==> (v in Round(order, t)[..p] <==> v in t.todo)
    ensures Distinct(Round(order, s)) && Distinct(Round(order, t))
  {
    var r0, w := Round(order, s), Round(order, s)[i];
    RoundIs(order, s, v);
    RoundIs(order, t, v);
    KeepSides(order, (x: nat) => x in s.todo, i, v);
    KeepSides(order, (x: nat) => x in t.todo, p, v);
    BeforeOnce(order, v, w);
    assert r0[..i + 1] == r0[..i] + [w];
  }

  // In the middle of a list of turns.
  lemma Midway(env: Env, c: Callback, s: Point, t: Point, r: seq<nat>, i: nat, v: nat)
    requires Play(env, c, s, r) == At(t) && i < |r|
    ensures Play(env, c, s, r[..i + 1]).At?
    ensures var u := Play(env, c, s, r[..i + 1]).s;
            && (v !in r[i + 1..] ==> (v in u.todo <==> v in t.todo))
            && (v !in r[..i + 1] ==> (v in u.todo <==> v in s.todo))
  {
    assert r == r[..i + 1] + r[i + 1..];
    PlayJoin(env, c, s, r[..i + 1], r[i + 1..]);
    OthersStay(env, c, Play(env, c, s, r[..i + 1]).s, r[i + 1..], v);
    OthersStay(env, c, s, r[..i + 1], v);
  }

  // How many turns come before a branch's next one in the pass it is in, and in the next pass.
  lemma AcrossPasses(env: Env, c: Callback, order: seq<nat>, s: Point, t: Point, a: seq<nat>, b: seq<nat>, i: nat,
      p: nat, v: nat)
    requires Distinct(order) && (forall w :: w in s.todo ==> w in order) && Play(env, c, s, a) == At(t)
    requires a == Round(order, s) && b == Round(order, t) && i < |a| && p < |b| && b[p] == a[i] && v != a[i]
    ensures Play(env, c, s, a[..i + 1]).At?
    ensures Count(a[i + 1..], v) + Count(b[..p], v) == if v in Play(env, c, s, a[..i + 1]).s.todo then 1 else 0
  {
    forall x | x in t.todo ensures x in s.todo {
      OthersStay(env, c, s, a, x);
    }
    TwoPasses(order, s, t, i, p, v);
    CountOnce(a[i + 1..], v);
    CountOnce(b[..p], v);
    Midway(env, c, s, t, a, i, v);
  }

  lemma InRound(env: Env, c: Callback, order: seq<nat>, t: Point, n: nat, w: nat) returns (p: nat)
    requires Passes(env, c, order, t, n) && w in Turns(env, c, order, t, n)
    ensures p < |Round(order, t)| && Round(order, t)[p] == w && Distinct(Round(order, t))
    ensures Round(order, t) <= Turns(env, c, order, t, n)
  {
    RoundsAreTurns(env, c, order, t, n);
    TurnsInTodo(env, c, t, Turns(env, c, order, t, n), w);
    RoundIs(order, t, w);
    PassOn(env, c, order, t, n);
    p :| 0 <= p < |Round(order, t)| && Round(order, t)[p] == w;
  }

  // A branch that is to take another turn has its place in the next pass.
  lemma NextPass(env: Env, c: Callback, order: seq<nat>, t: Point, n: nat, j: nat) returns (p: nat)
    requires Passes(env, c, order, t, n) && j < |Turns(env, c, order, t, n)|
    requires Turns(env, c, order, t, n)[j] !in Turns(env, c, order, t, n)[..j]
    ensures p < |Round(order, t)| && p == j && Round(order, t)[p] == Turns(env, c, order, t, n)[j]
    ensures Turns(env, c, order, t, n)[..j] == Round(order, t)[..p]
  {
    var turns := Turns(env, c, order, t, n);
    var w, r := turns[j], Round(order, t);
    p := InRound(env, c, order, t, n, w);
    forall q | 0 <= q < j ensures turns[q] != w {
      assert turns[..j][q] == turns[q];
    }
    assert turns[p] == w;
    assert turns[..j] == r[..p];
  }

  // Between the turns i and j of a schedule, branch v has exactly one turn if it has not finished by then, and
  // else none.
  ghost predicate Fair(env: Env, c: Callback, s: Point, turns: seq<nat>, i: nat, j: nat, v: nat)
    requires i < j < |turns|
  {
    && Play(env, c, s, turns[..i + 1]).At?
    && Count(turns[i + 1..j], v) == if v in Play(env, c, s, turns[..i + 1]).s.todo then 1 else 0
  }

  lemma SliceLater(a: seq<nat>, b: seq<nat>, i: nat, j: nat, k: nat, l: nat)
    requires k < l < |b| && i == |a| + k && j == |a| + l
    ensures (a + b)[i + 1..j] == b[k + 1..l] && (a + b)[..i + 1] == a + b[..k + 1]
  {}

  lemma SliceAcross(a: seq<nat>, b: seq<nat>, i: nat, j: nat, l: nat)
    requires i < |a| && l < |b| && j == |a| + l
    ensures (a + b)[i + 1..j] == a[i + 1..] + b[..l] && (a + b)[..i + 1] == a[..i + 1]
  {}

  lemma FairLater(env: Env, c: Callback, s: Point, t: Point, a: seq<nat>, b: seq<nat>, i: nat, j: nat, k: nat, l: nat,
      v: nat)
    requires Play(env, c, s, a) == At(t) && k < l < |b| && i == |a| + k && j == |a| + l && Fair(env, c, t, b, k, l, v)
    ensures Fair(env, c, s, a + b, i, j, v)
  {
    SliceLater(a, b, i, j, k, l);
    PlayJoin(env, c, s, a, b[..k + 1]);
  }

  // Two turns of a branch in a row are in passes in a row.
  lemma FairAcross(env: Env, c: Callback, order: seq<nat>, s: Point, t: Point, n: nat, a: seq<nat>, b: seq<nat>,
      i: nat, j: nat, l: nat, v: nat)
    requires Distinct(order) && (forall w :: w in s.todo ==> w in order) && Play(env, c, s, a) == At(t)
    requires Passes(env, c, order, t, n) && a == Round(order, s) && b == Turns(env, c, order, t, n)
    requires i < |a| && l < |b| && j == |a| + l && b[l] == a[i] && a[i] !in b[..l] && v != a[i]
    ensures Fair(env, c, s, a + b, i, j, v)
  {
    var p := NextPass(env, c, order, t, n, l);
    AcrossPasses(env, c, order, s, t, a, Round(order, t), i, p, v);
    CountJoin(a[i + 1..], b[..l], v);
    SliceAcross(a, b, i, j, l);
  }

  // The entries at i and j are the same, with no other between them.
  ghost predicate InARow(turns: seq<nat>, i: nat, j: nat) {
    i < j < |turns| && turns[i] == turns[j] && turns[i] !in turns[i + 1..j]
  }

  lemma RowLater(a: seq<nat>, b: seq<nat>, i: nat, j: nat, k: nat, l: nat)
    requires InARow(a + b, i, j) && i == |a| + k && j == |a| + l
    ensures InARow(b, k, l) && b[k] == (a + b)[i]
  {
    SliceLater(a, b, i, j, k, l);
  }

  lemma RowAcross(a: seq<nat>, b: seq<nat>, i: nat, j: nat) returns (l: nat)
    requires InARow(a + b, i, j) && i < |a| && Distinct(a)
    ensures l < |b| && j == |a| + l && b[l] == a[i] == (a + b)[i] && a[i] !in b[..l]
  {
    assert j >= |a|;
    l := j - |a|;
    SliceAcross(a, b, i, j, l);
  }

  // One pass more in front.
  lemma FairFront(env: Env, c: Callback, order: seq<nat>, s: Point, t: Point, n: nat, a: seq<nat>, b: seq<nat>,
      i: nat, j: nat, v: nat)
    requires Distinct(order) && (forall w :: w in s.todo ==> w in order) && Play(env, c, s, a) == At(t)
    requires Passes(env, c, order, t, n) && a == Round(order, s) && b == Turns(env, c, order, t, n)
    requires InARow(a + b, i, j) && i < |a| && v != a[i]
    ensures Fair(env, c, s, a + b, i, j, v)
  {
    RoundIs(order, s, v);
    var l := RowAcross(a, b, i, j);
    FairAcross(env, c, order, s, t, n, a, b, i, j, l, v);
  }

  // Round-robin: between two turns of a branch in a row, every other branch that is not finished then has
  // exactly one turn, and no finished one has any.
  lemma {:induction false} FairTurns(env: Env, c: Callback, order: seq<nat>, s: Point, n: nat, turns: seq<nat>,
      i: nat, j: nat, v: nat)
    requires Passes(env, c, order, s, n) && turns == Turns(env, c, order, s, n)
    requires InARow(turns, i, j) && v != turns[i]
    ensures Fair(env, c, s, turns, i, j, v)
    decreases n
  {
    var a, t, b := FirstPass(env, c, order, s, n, turns);
    if i < |a| {
      FairFront(env, c, order, s, t, n - 1, a, b, i, j, v);
    } else {
      var k, l := i - |a|, j - |a|;
      RowLater(a, b, i, j, k, l);
      FairTurns(env, c, order, t, n - 1, b, k, l, v);
      FairLater(env, c, s, t, a, b, i, j, k, l, v);
    }
  }

  lemma FirstPass(env: Env, c: Callback, order: seq<nat>, s: Point, n: nat, turns: seq<nat>)
    returns (a: seq<nat>, t: Point, b: seq<nat>)
    requires Passes(env, c, order, s, n) && turns == Turns(env, c, order, s, n) && turns != []
    ensures n > 0 && turns == a + b && a == Round(order, s) && Play(env, c, s, a) == At(t)
    ensures Passes(env, c, order, t, n - 1) && b == Turns(env, c, order, t, n - 1)
  {
    PassOn(env, c, order, s, n);
    a, t := Round(order, s), Play(env, c, s, Round(order, s)).s;
    b := Turns(env, c, order, t, n - 1);
  }

  lemma {:induction false} FewerPasses(env: Env, c: Callback, order: seq<nat>, s: Point, n: nat, j: nat)
    requires PlayRounds(env, c, order, s, n).At? && j <= n
    ensures PlayRounds(env, c, order, s, j).At?
    decreases j
  {
    if j > 0 {
      FewerPasses(env, c, order, Play(env, c, s, Round(order, s)).s, n - 1, j - 1);
    }
  }

  lemma NeverBack(env: Env, c: Callback, order: seq<nat>, t: Point, n: nat, v: nat)
    requires Passes(env, c, order, t, n) && v !in t.todo
    ensures Count(Turns(env, c, order, t, n), v) == 0
  {
    var turns := Turns(env, c, order, t, n);
    RoundsAreTurns(env, c, order, t, n);
    if v in turns {
      TurnsInTodo(env, c, t, turns, v);
    }
    CountNone(turns, v);
  }

  // A branch has one turn in the first pass, or none at all.
  lemma FirstCounts(env: Env, c: Callback, order: seq<nat>, s: Point, t: Point, n: nat, v: nat)
    requires Passes(env, c, order, s, n) && n > 0 && Play(env, c, s, Round(order, s)) == At(t)
    ensures var all, later := Count(Turns(env, c, order, s, n), v), Count(Turns(env, c, order, t, n - 1), v);
            all == if v in Round(order, s) then 1 + later else 0
  {
    PassOn(env, c, order, s, n);
    CountJoin(Round(order, s), Turns(env, c, order, t, n - 1), v);
    RoundIs(order, s, v);
    CountOnce(Round(order, s), v);
    if v !in s.todo {
      NeverBack(env, c, order, t, n - 1, v);
    }
  }

  // Pass j visits, in one fixed order, the branches that take more than j turns.
  lemma {:induction false} PassVisits(env: Env, c: Callback, order: seq<nat>, s: Point, n: nat, j: nat, v: nat)
    requires Passes(env, c, order, s, n) && j < n
    ensures PlayRounds(env, c, order, s, j).At?
    ensures v in Round(order, PlayRounds(env, c, order, s, j).s) <==> Count(Turns(env, c, order, s, n), v) > j
    decreases n
  {
    PassOn(env, c, order, s, n);
    FewerPasses(env, c, order, s, n, j);
    var t := Play(env, c, s, Round(order, s)).s;
    FirstCounts(env, c, order, s, t, n, v);
    if j > 0 {
      PassVisits(env, c, order, t, n - 1, j - 1, v);
      NotVisitedAgain(env, c, order, s, t, j, v);
    }
  }

  lemma NotVisitedAgain(env: Env, c: Callback, order: seq<nat>, s: Point, t: Point, j: nat, v: nat)
    requires Distinct(order) && (forall w :: w in s.todo ==> w in order) && Play(env, c, s, Round(order, s)) == At(t)
    requires j > 0 && PlayRounds(env, c, order, t, j - 1).At?
    ensures v in Round(order, PlayRounds(env, c, order, t, j - 1).s) ==> v in Round(order, s)
  {
    var u := PlayRounds(env, c, order, t, j - 1).s;
    RoundsAreTurns(env, c, order, t, j - 1);
    KeepMember(order, (w: nat) => w in u.todo, v);
    OthersStay(env, c, t, Turns(env, c, order, t, j - 1), v);
    OthersStay(env, c, s, Round(order, s), v);
    RoundIs(order, s, v);
  }

  // Where the branches of a plan stand between turns.
  ghost predicate Standing(p: Plan, s: Point) {
    Fit(p) && Stage(p, s.g) && Progress(p, s.todo, s.g, s.left)
  }

  lemma EnteringStage(p: Plan, s: Point, w: nat)
    requires Standing(p, s) && w in s.todo
    ensures var g := Entering(p.c, s.g, w);
            && w < |p.bs| && g.world == p.bs[w].world && Stage(p, g) && Progress(p, s.todo, g, s.left)
            && CallbackKey(p.c, g.world) == CallbackKey(p.c, s.g.world)
            && TurnReady(p.env, p.bs[w], s.todo[w], g) && Top(g) == CallbackKey(p.c, s.g.world)
            && OnTrack(p.env, p.bs[w], s.todo[w], g, s.left[w], p.goals[w])
  {
    if p.c.ParallelFor? {
      EnterWorld(p, s.todo, s.g, s.left, w);
    }
    StageReady(p, w, Entering(p.c, s.g, w));
  }

  // A turn of a branch that would end alone is possible.
  lemma TurnEnds(p: Plan, s: Point, w: nat)
    requires Standing(p, s) && Ready(p) && w in s.todo
    ensures CanTurn(p.env, p.c, s, w)
  {
    EnteringStage(p, s, w);
    TurnStep(p.env, p.bs[w], s.todo[w], Entering(p.c, s.g, w), s.left[w], p.goals[w]);
  }

  // Where the record of the parallel rule is on top, a turn is a leg with the note taken off.
  lemma TurnOfIs(env: Env, c: Callback, s: Point, w: nat)
    requires w in s.todo && s.todo[w] != [] && w < |s.left| && Leg(env, c, s, w).Done?
    requires var g := Leg(env, c, s, w).g;
             g.callbacks != [] && Top(g) == CallbackKey(c, s.g.world) && Top(g) in g.states
                 && g.states[Top(g)].Branches?
    ensures CanTurn(env, c, s, w) && TurnOf(env, c, s, w).g == Cleared(Leg(env, c, s, w).g)
    ensures NextOf(env, c, s, w) == NextStack(s.todo[w], LastRun(Leg(env, c, s, w).g))
  {}

  // Where a turn leads.
  ghost predicate Leads(env: Env, b: Branch, g: Game, goal: Outcome, next: seq<Rule>, h: Game, left: nat) {
    && OnTrack(env, b, next, h, left, goal)
    && UnderParallel(Ids(b.rule), h) && LastRun(h) == [] && Kept(true, Ids(b.rule), g, h)
  }

  lemma RunLeads(env: Env, b: Branch, stack: seq<Rule>, g: Game, gas: nat, goal: Outcome, o: Outcome,
      next: seq<Rule>, h: Game)
    requires TurnReady(env, b, stack, g) && OnTrack(env, b, stack, g, gas, goal)
    requires o == Run(env, stack[|stack| - 1], g, gas) && o.Done?
    requires o.g.callbacks != [] && Top(o.g) in o.g.states && o.g.states[Top(o.g)].Branches?
    requires next == NextStack(stack, LastRun(o.g)) && h == Cleared(o.g)
    ensures Leads(env, b, g, goal, next, h, o.gas)
  {
    TurnStep(env, b, stack, g, gas, goal);
  }

  lemma TurnLeads(p: Plan, s: Point, w: nat) returns (next: seq<Rule>, h: Game, left: nat)
    requires Standing(p, s) && CanTurn(p.env, p.c, s, w)
    ensures next == NextOf(p.env, p.c, s, w) && left == Leg(p.env, p.c, s, w).gas
    ensures TurnOf(p.env, p.c, s, w) == Point(AfterTurn(s.todo, w, next), h, s.left[w := left])
    ensures w < |p.bs| && Leads(p.env, p.bs[w], Entering(p.c, s.g, w), p.goals[w], next, h, left)
  {
    EnteringStage(p, s, w);
    var g, o := Entering(p.c, s.g, w), Leg(p.env, p.c, s, w);
    next, h, left := NextOf(p.env, p.c, s, w), TurnOf(p.env, p.c, s, w).g, o.gas;
    TurnKept(p.env, p.bs[w], s.todo[w][|s.todo[w]| - 1], g, s.left[w]);
    TurnOfIs(p.env, p.c, s, w);
    RunLeads(p.env, p.bs[w], s.todo[w], g, s.left[w], p.goals[w], o, next, h);
  }

  // Any turn keeps every branch on its way, and the others where they are.
  lemma TurnStands(p: Plan, s: Point, w: nat)
    requires Standing(p, s) && CanTurn(p.env, p.c, s, w)
    ensures var t := TurnOf(p.env, p.c, s, w);
            && Standing(p, t) && Total(t.left) < Total(s.left)
            && forall v :: 0 <= v < |p.bs| && v != w ==> View(p.bs[v], t.g) == View(p.bs[v], Entering(p.c, s.g, w))
  {
    EnteringStage(p, s, w);
    var g := Entering(p.c, s.g, w);
    var next, h, left := TurnLeads(p, s, w);
    TurnStage(p, w, g, h);
    ProgressUpdate(p, s.todo, g, s.left, w, next, h, left);
    TotalDrops(s.left, w, left);
  }

  // A turn executes at most one leaf rule.
  lemma TurnActs(p: Plan, s: Point, w: nat)
    requires Standing(p, s) && CanTurn(p.env, p.c, s, w)
    ensures Acts(TurnOf(p.env, p.c, s, w).g.log) <= Acts(s.g.log) + 1
  {
    EnteringStage(p, s, w);
    var g, n := Entering(p.c, s.g, w), |s.todo[w]| - 1;
    assert Resumable(Ids(p.bs[w].rule), s.todo[w][n]);
    OneLeafPerTurn(p.env, s.todo[w][n], Ids(p.bs[w].rule), g, s.left[w]);
    ActsEmit(s.g.log, Bound(Key(p.c.id, w), w));
  }

  lemma {:induction false} PlayStands(p: Plan, s: Point, sched: seq<nat>)
    requires Standing(p, s) && Play(p.env, p.c, s, sched).At?
    ensures Standing(p, Play(p.env, p.c, s, sched).s)
    decreases |sched|
  {
    if sched != [] {
      TurnStands(p, s, sched[0]);
      PlayStands(p, TurnOf(p.env, p.c, s, sched[0]), sched[1..]);
    }
  }

  // Each entry of a schedule is one turn.
  lemma TurnAt(env: Env, c: Callback, s: Point, sched: seq<nat>, i: nat)
    requires Play(env, c, s, sched).At? && i < |sched|
    ensures Play(env, c, s, sched[..i]).At? && CanTurn(env, c, Play(env, c, s, sched[..i]).s, sched[i])
    ensures Play(env, c, s, sched[..i + 1]) == At(TurnOf(env, c, Play(env, c, s, sched[..i]).s, sched[i]))
  {
    var a, w := sched[..i], sched[i];
    assert sched == a + sched[i..] && sched[..i + 1] == a + [w] && sched[i..][0] == w && [w][1..] == [];
    PlayJoin(env, c, s, a, sched[i..]);
    PlayJoin(env, c, s, a, [w]);
  }

  // The element published last before an event of a branch, counted from `from` on, is the one of its world.
  ghost predicate HasElement(id: RuleId, log: Log, from: nat, j: nat)
    requires j < |log|
  {
    exists i ::
      from <= i < j && log[i] == Bound(Key(id, log[j].key.world), log[j].key.world) && Unpublished(id, log, i, j)
  }

  // Nothing is published between i and j.
  ghost predicate Unpublished(id: RuleId, log: Log, i: nat, j: nat)
    requires j <= |log|
  {
    forall m :: i < m < j ==> log[m].key.id != id
  }

  // Every event of another rule has its element; and what is published are elements, each in its world.
  ghost predicate Published(id: RuleId, size: nat, log: Log, from: nat) {
    && (forall j :: from <= j < |log| && log[j].key.id != id ==> HasElement(id, log, from, j))
    && (forall j :: from <= j < |log| && log[j].key.id == id ==> IsElement(id, size, log[j]))
  }

  ghost predicate IsElement(id: RuleId, size: nat, e: Event) {
    e.key.world < size && e.key.world < 0x1_0000 && e == Bound(Key(id, e.key.world), e.key.world)
  }

  lemma KeptAdds(own: set<RuleId>, id: RuleId, g: Game, h: Game) returns (d: Log)
    requires Kept(true, own, g, h) && id !in own
    ensures h.log == g.log + d && forall j :: 0 <= j < |d| ==> d[j].key.id != id && d[j].key.world == g.world
  {
    d := h.log[|g.log|..];
  }

  lemma HasPlace(p: Plan, s: Point, w: nat)
    requires Standing(p, s) && w in s.todo
    ensures w < |p.bs| && w < 0x1_0000 && p.c.id !in Ids(p.bs[w].rule)
  {}

  // What a turn adds to the history: the branch's element, and events of the branch.
  lemma TurnPublishes(p: Plan, s: Point, w: nat) returns (d: Log)
    requires Standing(p, s) && CanTurn(p.env, p.c, s, w) && p.c.ParallelFor?
    ensures TurnOf(p.env, p.c, s, w).g.log == s.g.log + [Bound(Key(p.c.id, w), w)] + d && w < |p.bs| && w < 0x1_0000
    ensures forall j :: 0 <= j < |d| ==> d[j].key.id != p.c.id && d[j].key.world == w
  {
    HasPlace(p, s, w);
    var next, h, left := TurnLeads(p, s, w);
    d := KeptAdds(Ids(p.bs[w].rule), p.c.id, Entering(p.c, s.g, w), h);
  }

  lemma PublishedMore(id: RuleId, size: nat, log: Log, from: nat, w: nat, d: Log)
    requires Published(id, size, log, from) && from <= |log| && w < size && w < 0x1_0000
    requires forall j :: 0 <= j < |d| ==> d[j].key.id != id && d[j].key.world == w
    ensures Published(id, size, log + [Bound(Key(id, w), w)] + d, from)
  {
    var all := log + [Bound(Key(id, w), w)] + d;
    forall j | from <= j < |all| && all[j].key.id != id ensures HasElement(id, all, from, j) {
      if j < |log| {
        assert all[j] == log[j] && HasElement(id, log, from, j);
        var i :| from <= i < j && log[i] == Bound(Key(id, log[j].key.world), log[j].key.world)
          && Unpublished(id, log, i, j);
        assert all[i] == log[i] && Unpublished(id, all, i, j);
      } else {
        assert all[j] == d[j - |log| - 1];
        assert all[|log|] == Bound(Key(id, w), w) && Unpublished(id, all, |log|, j);
      }
    }
  }

  lemma TurnPublished(p: Plan, s: Point, w: nat, from: nat)
    requires Standing(p, s) && CanTurn(p.env, p.c, s, w) && p.c.ParallelFor?
    requires from <= |s.g.log| && Published(p.c.id, |p.bs|, s.g.log, from)
    ensures var u := TurnOf(p.env, p.c, s, w);
            && s.g.log < u.g.log && Published(p.c.id, |p.bs|, u.g.log, from)
            && u.g.log[|s.g.log|] == Bound(Key(p.c.id, w), w)
  {
    var d := TurnPublishes(p, s, w);
    PublishedMore(p.c.id, |p.bs|, s.g.log, from, w, d);
  }

  lemma InLater(a: Log, b: Log, c: Log, e: Event)
    requires a < b <= c && (e in c[|b|..] || e == b[|a|])
    ensures e in c[|a|..]
  {
    if e == b[|a|] {
      assert c[|a|..][0] == e;
    } else {
      assert c[|b|..] == c[|a|..][|b| - |a|..];
    }
  }

  // Every turn of a parallel for publishes the element of its branch.
  lemma {:induction false} PlayPublishes(p: Plan, s: Point, sched: seq<nat>, from: nat)
    requires Standing(p, s) && Play(p.env, p.c, s, sched).At? && p.c.ParallelFor? && from <= |s.g.log|
    requires Published(p.c.id, |p.bs|, s.g.log, from)
    ensures var t := Play(p.env, p.c, s, sched).s;
            && s.g.log <= t.g.log && Published(p.c.id, |p.bs|, t.g.log, from)
            && forall w :: w in sched ==> Bound(Key(p.c.id, w), w) in t.g.log[|s.g.log|..]
    decreases |sched|
  {
    if sched != [] {
      var w := sched[0];
      var u, t := TurnOf(p.env, p.c, s, w), Play(p.env, p.c, s, sched).s;
      TurnPublished(p, s, w, from);
      TurnStands(p, s, w);
      PlayPublishes(p, u, sched[1..], from);
      forall v | v in sched ensures Bound(Key(p.c.id, v), v) in t.g.log[|s.g.log|..] {
        assert v != w ==> v in sched[1..];
        InLater(s.g.log, u.g.log, t.g.log, Bound(Key(p.c.id, v), v));
      }
    }
  }

  // In every schedule each turn executes at most one leaf rule.
  lemma LeafPerTurn(p: Plan, s: Point, sched: seq<nat>, i: nat)
    requires Standing(p, s) && Play(p.env, p.c, s, sched).At? && i < |sched|
    ensures var a, b := Play(p.env, p.c, s, sched[..i]), Play(p.env, p.c, s, sched[..i + 1]);
            a.At? && b.At? && Acts(b.s.g.log) <= Acts(a.s.g.log) + 1
  {
    TurnAt(p.env, p.c, s, sched, i);
    PlayStands(p, s, sched[..i]);
    TurnActs(p, Play(p.env, p.c, s, sched[..i]).s, sched[i]);
  }

  ghost predicate Pass(s: Point, sched: seq<nat>) {
    Distinct(sched) && forall i :: 0 <= i < |sched| ==> sched[i] in s.todo
  }

  lemma RestOfPass(env: Env, c: Callback, s: Point, sched: seq<nat>)
    requires Pass(s, sched) && sched != [] && CanTurn(env, c, s, sched[0])
    ensures Pass(TurnOf(env, c, s, sched[0]), sched[1..])
  {
    var t := TurnOf(env, c, s, sched[0]);
    forall i | 0 <= i < |sched[1..]| ensures sched[1..][i] in t.todo {
      assert sched[1..][i] == sched[i + 1] != sched[0];
    }
  }

  lemma FirstOfPass(p: Plan, s: Point, sched: seq<nat>)
    requires Standing(p, s) && Ready(p) && Pass(s, sched) && sched != []
    ensures CanTurn(p.env, p.c, s, sched[0])
    ensures var t := TurnOf(p.env, p.c, s, sched[0]);
            Standing(p, t) && Pass(t, sched[1..]) && Total(t.left) < Total(s.left)
  {
    TurnEnds(p, s, sched[0]);
    TurnStands(p, s, sched[0]);
    RestOfPass(p.env, p.c, s, sched);
  }

  // A pass over branches that would end alone is possible, and does some work.
  lemma {:induction false} PassEnds(p: Plan, s: Point, sched: seq<nat>)
    requires Standing(p, s) && Ready(p) && Pass(s, sched)
    ensures Play(p.env, p.c, s, sched).At?
    ensures var t := Play(p.env, p.c, s, sched).s;
            Total(t.left) <= Total(s.left) && (sched != [] ==> Total(t.left) < Total(s.left))
    decreases |sched|
  {
    if sched != [] {
      FirstOfPass(p, s, sched);
      PassEnds(p, TurnOf(p.env, p.c, s, sched[0]), sched[1..]);
    }
  }

  lemma RoundIsPass(order: seq<nat>, s: Point)
    requires Distinct(order) && forall w :: w in s.todo ==> w in order
    ensures Pass(s, Round(order, s)) && (Round(order, s) == [] ==> s.todo == map[])
  {
    var r := Round(order, s);
    forall w ensures w in r <==> w in s.todo {
      RoundIs(order, s, w);
    }
    RoundIs(order, s, 0);
    forall i | 0 <= i < |r| ensures r[i] in s.todo {
      assert r[i] in r;
    }
  }

  lemma OrderStays(env: Env, c: Callback, order: seq<nat>, s: Point, sched: seq<nat>)
    requires Play(env, c, s, sched).At? && forall w :: w in s.todo ==> w in order
    ensures forall w :: w in Play(env, c, s, sched).s.todo ==> w in order
  {
    forall w | w in Play(env, c, s, sched).s.todo ensures w in order {
      OthersStay(env, c, s, sched, w);
    }
  }

  // So all branches come to their ends after some number of passes.
  lemma {:induction false} PassesEnd(p: Plan, order: seq<nat>, s: Point) returns (n: nat)
    requires Standing(p, s) && Ready(p) && Distinct(order) && forall w :: w in s.todo ==> w in order
    ensures PlayRounds(p.env, p.c, order, s, n).At? && PlayRounds(p.env, p.c, order, s, n).s.todo == map[]
    decreases Total(s.left)
  {
    n := 0;
    RoundIsPass(order, s);
    if Round(order, s) != [] {
      PassEnds(p, s, Round(order, s));
      PlayStands(p, s, Round(order, s));
      OrderStays(p.env, p.c, order, s, Round(order, s));
      n := PassesEnd(p, order, Play(p.env, p.c, s, Round(order, s)).s);
      n := n + 1;
    }
  }

  // What a branch has done so far is the beginning of what it does alone, if it comes to an end alone.
  lemma SoFar(p: Plan, s: Point, w: nat)
    requires Standing(p, s) && w < Places(|p.bs|) && p.goals[w].Done?
    ensures View(p.bs[w], s.g).log <= p.goals[w].g.log
  {
    if w in s.todo {
      StackKept(p.env, s.todo[w], Ids(p.bs[w].rule), View(p.bs[w], s.g), s.left[w]);
    }
  }

  // Branch w stands the same at two points.
  ghost predicate Alike(p: Plan, w: nat, s: Point, t: Point) {
    && w < |p.bs| && w < |s.left| && w < |t.left|
    && (w in s.todo <==> w in t.todo) && (w in s.todo ==> s.todo[w] == t.todo[w])
    && s.left[w] == t.left[w] && View(p.bs[w], s.g) == View(p.bs[w], t.g)
  }

  lemma EnteringSeen(p: Plan, s: Point, w: nat, v: nat)
    requires Standing(p, s) && v < |p.bs|
    ensures View(p.bs[v], Entering(p.c, s.g, w)) == View(p.bs[v], s.g)
  {
    if p.c.ParallelFor? {
      EnteredSeen(p, s.g, w, v);
    }
  }

  lemma ViewsAgree(b: Branch, g: Game, h: Game)
    requires View(b, g) == View(b, h) && g.world == h.world == b.world
    requires UnderParallel(Ids(b.rule), g) && UnderParallel(Ids(b.rule), h) && LastRun(g) == LastRun(h)
    ensures Agree(true, Ids(b.rule), Vis(b), g, h)
  {
    forall k | Owned(Ids(b.rule), b.world, k) ensures SameAt(k, g, h) {
      assert Mine(b, k);
      assert (k in View(b, g).states <==> k in g.states) && (k in View(b, h).states <==> k in h.states);
      assert k in g.states ==> View(b, g).states[k] == g.states[k] && View(b, h).states[k] == h.states[k];
    }
  }

  lemma AgreeingViews(b: Branch, g: Game, h: Game)
    requires Agree(true, Ids(b.rule), Vis(b), g, h) && g.world == b.world
    ensures View(b, g) == View(b, h)
  {
    forall k ensures SameAt(k, View(b, g), View(b, h)) {
      assert Mine(b, k) ==> SameAt(k, g, h);
    }
    SameStates(View(b, g), View(b, h));
  }

  // What a branch's turn starts from.
  ghost predicate Starting(p: Plan, s: Point, w: nat) {
    && w in s.todo && s.todo[w] != [] && w < |s.left| && w < |p.bs|
    && var b, g := p.bs[w], Entering(p.c, s.g, w);
       && Eligible(p.env, b) && Resumable(Ids(b.rule), s.todo[w][|s.todo[w]| - 1])
       && g.world == b.world && UnderParallel(Ids(b.rule), g) && LastRun(g) == []
       && View(b, g) == View(b, s.g)
  }

  lemma LegStarts(p: Plan, s: Point, w: nat)
    requires Standing(p, s) && w in s.todo
    ensures Starting(p, s, w)
  {
    EnteringStage(p, s, w);
    EnteringSeen(p, s, w, w);
  }

  lemma SameRun(env: Env, b: Branch, r: Rule, g: Game, h: Game, gas: nat, o: Outcome, q: Outcome)
    requires Eligible(env, b) && Resumable(Ids(b.rule), r) && g.world == h.world == b.world
    requires UnderParallel(Ids(b.rule), g) && UnderParallel(Ids(b.rule), h) && LastRun(g) == LastRun(h)
    requires View(b, g) == View(b, h) && o == Run(env, r, g, gas) && q == Run(env, r, h, gas)
    ensures SameOutcome(true, Ids(b.rule), Vis(b), o, q)
  {
    ViewsAgree(b, g, h);
    RunAgree(env, r, true, Ids(b.rule), Vis(b), g, h, gas);
  }

  // A turn of the branch, and what it sees, are the same at both points.
  lemma SameLeg(p: Plan, w: nat, s: Point, t: Point, o: Outcome, q: Outcome)
    requires Starting(p, s, w) && Starting(p, t, w) && Alike(p, w, s, t)
    requires o == Leg(p.env, p.c, s, w) && q == Leg(p.env, p.c, t, w)
    ensures SameOutcome(true, Ids(p.bs[w].rule), Vis(p.bs[w]), o, q)
  {
    SameRun(p.env, p.bs[w], s.todo[w][|s.todo[w]| - 1], Entering(p.c, s.g, w), Entering(p.c, t.g, w), s.left[w], o, q);
  }

  lemma SameTurn(p: Plan, w: nat, s: Point, t: Point)
    requires Standing(p, s) && Standing(p, t) && Alike(p, w, s, t) && CanTurn(p.env, p.c, s, w)
    ensures CanTurn(p.env, p.c, t, w) && Alike(p, w, TurnOf(p.env, p.c, s, w), TurnOf(p.env, p.c, t, w))
  {
    var o, q := Leg(p.env, p.c, s, w), Leg(p.env, p.c, t, w);
    LegStarts(p, s, w);
    LegStarts(p, t, w);
    SameLeg(p, w, s, t, o, q);
    LegEnds(p, s, w);
    LegEnds(p, t, w);
    SameView(p.bs[w], o, q);
    TurnsAlike(p, w, s, t);
  }

  lemma TurnsAlike(p: Plan, w: nat, s: Point, t: Point)
    requires Alike(p, w, s, t) && CanTurn(p.env, p.c, s, w) && CanTurn(p.env, p.c, t, w)
    requires NextOf(p.env, p.c, s, w) == NextOf(p.env, p.c, t, w)
    requires Leg(p.env, p.c, s, w).gas == Leg(p.env, p.c, t, w).gas
    requires View(p.bs[w], TurnOf(p.env, p.c, s, w).g) == View(p.bs[w], TurnOf(p.env, p.c, t, w).g)
    ensures Alike(p, w, TurnOf(p.env, p.c, s, w), TurnOf(p.env, p.c, t, w))
  {}

  lemma SameView(b: Branch, o: Outcome, q: Outcome)
    requires SameOutcome(true, Ids(b.rule), Vis(b), o, q)
    requires o.Done? ==> o.g.world == b.world && UnderParallel(Ids(b.rule), o.g)
    requires q.Done? ==> UnderParallel(Ids(b.rule), q.g)
    ensures o.Done? ==> q.Done? && q.gas == o.gas && LastRun(o.g) == LastRun(q.g)
    ensures o.Done? ==> View(b, Cleared(o.g)) == View(b, Cleared(q.g))
  {
    if o.Done? {
      AgreeingViews(b, o.g, q.g);
      RecordUnseen(b, o.g);
      RecordUnseen(b, q.g);
    }
  }

  lemma RecordUnseen(b: Branch, g: Game)
    requires UnderParallel(Ids(b.rule), g) && g.world == b.world
    ensures View(b, Cleared(g)) == View(b, g)
  {
    forall k ensures SameAt(k, View(b, Cleared(g)), View(b, g)) {}
    SameStates(View(b, Cleared(g)), View(b, g));
  }

  // Where a turn leaves the record of the parallel rule.
  lemma LegEnds(p: Plan, s: Point, w: nat)
    requires Standing(p, s) && w in s.todo
    ensures s.todo[w] != [] && w < |s.left|
    ensures var o := Leg(p.env, p.c, s, w);
            o.Done? ==>
              && UnderParallel(Ids(p.bs[w].rule), o.g) && o.g.world == p.bs[w].world
              && Top(o.g) == CallbackKey(p.c, s.g.world) && CanTurn(p.env, p.c, s, w)
              && TurnOf(p.env, p.c, s, w).g == Cleared(o.g)
              && NextOf(p.env, p.c, s, w) == NextStack(s.todo[w], LastRun(o.g))
  {
    EnteringStage(p, s, w);
    TurnStep(p.env, p.bs[w], s.todo[w], Entering(p.c, s.g, w), s.left[w], p.goals[w]);
  }

  lemma TurnNotSeen(p: Plan, s: Point, v: nat, w: nat)
    requires Standing(p, s) && v != w && w < |p.bs| && CanTurn(p.env, p.c, s, v)
    ensures View(p.bs[w], TurnOf(p.env, p.c, s, v).g) == View(p.bs[w], s.g)
  {
    TurnStands(p, s, v);
    EnteringSeen(p, s, v, w);
  }

  lemma OtherTurn(p: Plan, w: nat, v: nat, s: Point, t: Point)
    requires Alike(p, w, s, t) && v != w && CanTurn(p.env, p.c, s, v)
    requires View(p.bs[w], TurnOf(p.env, p.c, s, v).g) == View(p.bs[w], s.g)
    ensures Alike(p, w, TurnOf(p.env, p.c, s, v), t)
  {}

  ghost function Only(w: nat, n: nat): (s: seq<nat>)
    ensures n > 0 ==> s != [] && s[0] == w && s[1..] == Only(w, n - 1)
  {
    if n == 0 then [] else
    var s := [w] + Only(w, n - 1);
    assert s[1..] == Only(w, n - 1);
    s
  }

  lemma CountFront(s: seq<nat>, w: nat)
    requires s != []
    ensures Count(s, w) == Count(s[1..], w) + if s[0] == w then 1 else 0
  {
    assert s == [s[0]] + s[1..] && [s[0]][..0] == [];
    CountJoin([s[0]], s[1..], w);
  }

  // One turn of a schedule, seen by branch w.
  lemma OneTurn(p: Plan, w: nat, v: nat, s: Point, t: Point)
    requires Standing(p, s) && Standing(p, t) && Alike(p, w, s, t) && CanTurn(p.env, p.c, s, v)
    ensures Standing(p, TurnOf(p.env, p.c, s, v))
    ensures v == w ==> CanTurn(p.env, p.c, t, w) && Standing(p, TurnOf(p.env, p.c, t, w))
    ensures Alike(p, w, TurnOf(p.env, p.c, s, v), if v == w then TurnOf(p.env, p.c, t, w) else t)
  {
    TurnStands(p, s, v);
    if v == w {
      SameTurn(p, w, s, t);
      TurnStands(p, t, w);
    } else {
      TurnNotSeen(p, s, v, w);
      OtherTurn(p, w, v, s, t);
    }
  }

  ghost predicate BothAlike(p: Plan, w: nat, a: Reached, b: Reached) {
    a.At? && b.At? && Alike(p, w, a.s, b.s)
  }

  lemma PlayFront(env: Env, c: Callback, s: Point, sched: seq<nat>)
    requires sched != [] && CanTurn(env, c, s, sched[0])
    ensures Play(env, c, s, sched) == Play(env, c, TurnOf(env, c, s, sched[0]), sched[1..])
  {}

  // Safety, for branches that need not come to an end: whatever turns the others have had in between, a branch
  // has done in its turns what it does in as many turns with no other branch having any.
  lemma {:induction false} OwnTurnsOnly(p: Plan, w: nat, s: Point, t: Point, sched: seq<nat>)
    requires Standing(p, s) && Standing(p, t) && Alike(p, w, s, t) && Play(p.env, p.c, s, sched).At?
    ensures BothAlike(p, w, Play(p.env, p.c, s, sched), Play(p.env, p.c, t, Only(w, Count(sched, w))))
    decreases |sched|
  {
    if sched != [] {
      var v := sched[0];
      CountFront(sched, w);
      OneTurn(p, w, v, s, t);
      PlayFront(p.env, p.c, s, sched);
      if v == w {
        PlayFront(p.env, p.c, t, Only(w, Count(sched, w)));
        OwnTurnsOnly(p, w, TurnOf(p.env, p.c, s, v), TurnOf(p.env, p.c, t, w), sched[1..]);
      } else {
        OwnTurnsOnly(p, w, TurnOf(p.env, p.c, s, v), t, sched[1..]);
      }
    }
  }

  // A parallel rule has filed its record, registered itself and queued its branches, those that have a place, each
  // with one rule to run.
  ghost function Opening(c: Callback, rules: seq<Rule>, g: Game, gas: seq<nat>): Point {
    Point(
      map w: nat | w < Places(|rules|) :: [rules[w]],
      Put(g, CallbackKey(c, g.world), Branches([])).(callbacks := g.callbacks + [c]),
      gas)
  }

  // ... and has taken itself and its record away again, back in the world where it started.
  ghost function Closing(c: Callback, g: Game, last: Game): Game {
    last.(callbacks := g.callbacks, states := last.states - {CallbackKey(c, g.world)}, world := g.world)
  }

  // h is what a parallel rule over these rules makes of g in n passes.
  ghost predicate Interleaved(env: Env, c: Callback, order: seq<nat>, rules: seq<Rule>, g: Game, gas: seq<nat>, n: nat,
      h: Game) {
    && Passes(env, c, order, Opening(c, rules, g, gas), n)
    && var last := PlayRounds(env, c, order, Opening(c, rules, g, gas), n).s;
       last.todo == map[] && h == Closing(c, g, last.g)
  }

  lemma OpeningStands(p: Plan, rules: seq<Rule>, gas: seq<nat>)
    requires Fit(p) && |gas| == |rules| == |p.bs| && p.goals == GoalsFrom(p.env, p.bs, p.start, gas)
    requires (forall w :: 0 <= w < |rules| ==> p.bs[w].rule == rules[w]) && (p.c.ParallelFor? ==> p.start.world == 0)
    ensures Standing(p, Opening(p.c, rules, p.start, gas))
  {
    var s := Opening(p.c, rules, p.start, gas);
    Opened(p, s.todo, gas, s.g);
  }

  lemma OpeningListed(c: Callback, rules: seq<Rule>, g: Game, gas: seq<nat>, order: seq<nat>)
    requires IsOrder(order, Places(|rules|))
    ensures Listed(order, Opening(c, rules, g, gas).todo.Keys, order)
  {
    ListedFirst(order, Places(|rules|), Opening(c, rules, g, gas).todo.Keys);
  }

  // Nothing is left for further passes.
  lemma {:induction false} NoMorePasses(env: Env, c: Callback, order: seq<nat>, s: Point, n: nat)
    requires Distinct(order) && s.todo == map[]
    ensures PlayRounds(env, c, order, s, n) == At(s)
    decreases n
  {
    if n > 0 {
      KeepNone(order, (w: nat) => w in s.todo);
      NoMorePasses(env, c, order, s, n - 1);
    }
  }

  // The list of live entries is the next pass.
  lemma ListedRound(order: seq<nat>, s: Point, live: seq<nat>)
    requires Listed(order, s.todo.Keys, live)
    ensures live == Round(order, s) && (live == [] <==> s.todo == map[])
  {
    KeepSame(order, (w: nat) => w in s.todo.Keys, (w: nat) => w in s.todo);
    if live == [] {
      forall w ensures w !in s.todo {
        assert w !in live;
      }
    }
    if s.todo == map[] {
      KeepNone(order, (w: nat) => w in s.todo);
    }
  }

  // What the parallel rule comes to, once its last pass is over.
  lemma OpeningCloses(p: Plan, rules: seq<Rule>, order: seq<nat>, gas: seq<nat>, n: nat, last: Point, h: Game)
    requires Ready(p) && |gas| == |p.bs| && p.goals == GoalsFrom(p.env, p.bs, p.start, gas)
    requires Passes(p.env, p.c, order, Opening(p.c, rules, p.start, gas), n)
    requires PlayRounds(p.env, p.c, order, Opening(p.c, rules, p.start, gas), n) == At(last)
    requires last.todo == map[] && Stage(p, last.g) && Progress(p, map[], last.g, last.left)
    requires h == Closing(p.c, p.start, last.g)
    ensures Interleaved(p.env, p.c, order, rules, p.start, gas, n, h) && Accomplished(p, h)
    ensures h.ticks == p.start.ticks
  {
    Closed(p, gas, last.g, last.left, h);
  }

  // A parallel rule whose branches would all end alone comes to an end, with its surroundings kept.
  lemma OpeningEnds(p: Plan, rules: seq<Rule>, order: seq<nat>, gas: seq<nat>) returns (n: nat)
    requires Ready(p) && |gas| == |rules| == |p.bs| && p.goals == GoalsFrom(p.env, p.bs, p.start, gas)
    requires (forall w :: 0 <= w < |rules| ==> p.bs[w].rule == rules[w]) && (p.c.ParallelFor? ==> p.start.world == 0)
    requires IsOrder(order, Places(|rules|))
    ensures Passes(p.env, p.c, order, Opening(p.c, rules, p.start, gas), n)
    ensures var last := PlayRounds(p.env, p.c, order, Opening(p.c, rules, p.start, gas), n).s;
            last.todo == map[] && Stage(p, last.g) && Progress(p, map[], last.g, last.left)
  {
    var s := Opening(p.c, rules, p.start, gas);
    OpeningStands(p, rules, gas);
    n := PassesEnd(p, order, s);
    RoundsAreTurns(p.env, p.c, order, s, n);
    PlayStands(p, s, Turns(p.env, p.c, order, s, n));
  }

  // A branch that has left the table has had a turn.
  lemma HadTurn(env: Env, c: Callback, order: seq<nat>, s: Point, n: nat, w: nat)
    requires PlayRounds(env, c, order, s, n).At? && w in s.todo && w !in PlayRounds(env, c, order, s, n).s.todo
    ensures w in Turns(env, c, order, s, n)
  {
    RoundsAreTurns(env, c, order, s, n);
    OthersStay(env, c, s, Turns(env, c, order, s, n), w);
  }

  // What a parallel for has published when its table is empty: for every event of its branches the element of their
  // world just before, and every element that has a place.
  lemma AllPublished(p: Plan, rules: seq<Rule>, order: seq<nat>, gas: seq<nat>, n: nat, last: Point)
    requires Fit(p) && |gas| == |rules| == |p.bs| && p.goals == GoalsFrom(p.env, p.bs, p.start, gas)
    requires (forall w :: 0 <= w < |rules| ==> p.bs[w].rule == rules[w]) && p.c.ParallelFor? && p.start.world == 0
    requires PlayRounds(p.env, p.c, order, Opening(p.c, rules, p.start, gas), n) == At(last) && last.todo == map[]
    ensures p.start.log <= last.g.log && Published(p.c.id, |rules|, last.g.log, |p.start.log|)
    ensures forall w :: 0 <= w < |rules| && w < 0x1_0000 ==> Bound(Key(p.c.id, w), w) in last.g.log[|p.start.log|..]
  {
    var s := Opening(p.c, rules, p.start, gas);
    OpeningStands(p, rules, gas);
    RoundsAreTurns(p.env, p.c, order, s, n);
    PlayPublishes(p, s, Turns(p.env, p.c, order, s, n), |p.start.log|);
    forall w: nat | w < |rules| && w < 0x1_0000 ensures Bound(Key(p.c.id, w), w) in last.g.log[|p.start.log|..] {
      HadTurn(p.env, p.c, order, s, n, w);
    }
  }

  // Of a parallel rule whose branches need not come to an end, after any number of passes: each branch is on its
  // way, has done a beginning of what it does alone if that ends, and in any case what it does in as many turns
  // with no other branch having any.
  lemma AfterPasses(p: Plan, rules: seq<Rule>, order: seq<nat>, gas: seq<nat>, n: nat, w: nat)
    requires Fit(p) && |gas| == |rules| == |p.bs| && p.goals == GoalsFrom(p.env, p.bs, p.start, gas)
    requires (forall v :: 0 <= v < |rules| ==> p.bs[v].rule == rules[v]) && (p.c.ParallelFor? ==> p.start.world == 0)
    requires w < |rules| && w < 0x1_0000 && PlayRounds(p.env, p.c, order, Opening(p.c, rules, p.start, gas), n).At?
    ensures var s := Opening(p.c, rules, p.start, gas);
            var t := PlayRounds(p.env, p.c, order, s, n);
            && Standing(p, t.s)
            && (p.goals[w].Done? ==> View(p.bs[w], t.s.g).log <= p.goals[w].g.log)
            && BothAlike(p, w, t, Play(p.env, p.c, s, Only(w, Count(Turns(p.env, p.c, order, s, n), w))))
  {
    var s := Opening(p.c, rules, p.start, gas);
    OpeningStands(p, rules, gas);
    RoundsAreTurns(p.env, p.c, order, s, n);
    var turns := Turns(p.env, p.c, order, s, n);
    PlayStands(p, s, turns);
    OwnTurnsOnly(p, w, s, s, turns);
    if p.goals[w].Done? {
      SoFar(p, PlayRounds(p.env, p.c, order, s, n).s, w);
    }
  }
}
