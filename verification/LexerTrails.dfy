// Derivations said of the network alone: trails from state to state. What a match gives is a trail to the end of a
// rule, and no trail that enters no non-greedy decision is longer.
module LexerTrails {
  import opened LexerAtn
  import opened LexerRun
  import opened LexerSets
  import opened LexerLanguage

  // A point of a trail: the state, the states to return to, the actions met outside of any call, and how many
  // characters have been read.
  datatype Point = Point(state: nat, context: seq<nat>, steps: seq<Step>, read: nat)

  // The character ahead, -1 at the end of the input.
  function Ahead(job: Job, at: Cursor, k: nat): int {
    var i := Place(job, at, k).index; if i < |job.input| then job.input[i] else -1
  }

  predicate Takes(t: Transition, c: int) {
    match t
    case Range(_, low, high) => low <= c <= high
    case Chars(_, chars) => c in chars
    case NotChars(_, chars) => 0 <= c <= 0x10FFFF && c !in chars
    case Wildcard(_) => 0 <= c <= 0x10FFFF
    case _ => false
  }

  // A transition that reads nothing: a call pushes the state that follows it, a predicate must answer yes where the
  // input is, and at the end of the input a transition on that end is taken.
  predicate Goes(job: Job, at: Cursor, t: Transition, p: Point, q: Point) {
    && q.read == p.read
    && match t
       case Epsilon(target) => q == p.(state := target)
       case Rule(target, follow) => q == p.(state := target, context := p.context + [follow])
       case Predicate(target, rule, pred) =>
         && q == p.(state := target)
         && if p.read == 0 then job.oracle(rule, pred, at.index, false)
            else job.oracle(rule, pred, Place(job, at, p.read - 1).index, true)
       case Act(target, action) =>
         q == p.(state := target, steps := if p.context == [] then p.steps + [Step(action, -1)] else p.steps)
       case Range(target, _, _) => q == p.(state := target) && AtEnd(job, at, t, p)
       case Chars(target, _) => q == p.(state := target) && AtEnd(job, at, t, p)
       case _ => false
  }

  predicate AtEnd(job: Job, at: Cursor, t: Transition, p: Point) {
    p.read > 0 && Ahead(job, at, p.read - 1) == -1 && Takes(t, -1)
  }

  predicate Returns(p: Point, q: Point) {
    p.context != [] && var n := |p.context| - 1; q == p.(state := p.context[n], context := p.context[..n])
  }

  // Without reading: back from a call that has ended, or along a transition.
  ghost predicate Moves(job: Job, at: Cursor, p: Point, q: Point) {
    && p.state < |job.atn.states|
    && if job.atn.states[p.state].stop then Returns(p, q)
       else exists t :: t in job.atn.states[p.state].transitions && Goes(job, at, t, p, q)
  }

  // Where a character can be read, or a rule has ended with no call open.
  predicate Rests(a: Atn, p: Point) {
    if p.state < |a.states| && a.states[p.state].stop then p.context == []
    else p.state >= |a.states| || !a.states[p.state].epsilonOnly
  }

  // Actions that depend on the position get the one that is read.
  predicate Dated(a: Atn, before: seq<Step>, after: seq<Step>, offset: int) {
    && |after| == |before|
    && forall i :: 0 <= i < |before| ==>
         var waits := before[i].offset == -1 && before[i].action < |a.actions|
             && a.actions[before[i].action].positionDependent;
         after[i] == if waits then Step(before[i].action, offset) else before[i]
  }

  // A character is read.
  ghost predicate Reads(job: Job, at: Cursor, p: Point, q: Point) {
    && p.state < |job.atn.states| && Rests(job.atn, p) && q.read == p.read + 1 && q.context == p.context
    && Dated(job.atn, p.steps, q.steps, Place(job, at, p.read).index - job.start)
    && exists t :: t in job.atn.states[p.state].transitions && Takes(t, Ahead(job, at, p.read)) && q.state == t.target
  }

  ghost predicate Linked(job: Job, at: Cursor, p: Point, q: Point) { Moves(job, at, p, q) || Reads(job, at, p, q) }

  predicate SetsOut(a: Atn, start: nat, alt: nat, p: Point) {
    && start < |a.states| && 0 < alt <= |a.states[start].transitions|
    && p == Point(a.states[start].transitions[alt - 1].target, [], [], 0)
  }

  // A trail of the rule that a mode lists at a number, counted from 1.
  ghost predicate Trail(job: Job, mode: nat, at: Cursor, alt: nat, trail: seq<Point>) {
    && trail != []
    && SetsOut(job.atn, if mode < |job.atn.modeToStartState| then job.atn.modeToStartState[mode] else 0, alt, trail[0])
    && forall i :: 0 <= i < |trail| - 1 ==> Linked(job, at, trail[i], trail[i + 1])
  }

  // The trail has entered a non-greedy decision.
  predicate Enters(a: Atn, trail: seq<Point>) {
    exists i :: 0 < i < |trail| && NonGreedyAt(a, trail[i].state)
  }

  predicate NonGreedyAt(a: Atn, s: nat) { s < |a.states| && a.states[s].nonGreedy }

  function Last(trail: seq<Point>): Point
    requires trail != []
  {
    trail[|trail| - 1]
  }

  // A configuration is where a trail comes to, flagged exactly if the trail has entered a non-greedy decision.
  ghost predicate Follows(job: Job, mode: nat, at: Cursor, trail: seq<Point>, d: Config, k: nat) {
    && Trail(job, mode, at, d.alt, trail) && Last(trail) == Point(d.state, d.context, d.steps, k)
    && (d.nonGreedy <==> Enters(job.atn, trail))
  }

  function PointOf(c: Config, k: nat): Point { Point(c.state, c.context, c.steps, k) }

  // Where closures are taken after k characters.
  function SettingAt(job: Job, at: Cursor, k: nat): Setting {
    if k == 0 then Entry(job, at) else Character(job, Place(job, at, k - 1))
  }

  // One step of a configuration is one move.
  ghost predicate Flagged(a: Atn, c: Config, d: Config) {
    d.alt == c.alt && d.nonGreedy == (c.nonGreedy || NonGreedyAt(a, d.state))
  }

  // The step that an epsilon transition makes of c is d.
  ghost predicate StepsBy(s: Setting, c: Config, d: Config, t: Transition) {
    EpsilonTarget(s.atn, s.oracle, s.index, c, t, s.speculative, s.eof) == Some(d)
  }

  lemma GoesIff(job: Job, at: Cursor, c: Config, d: Config, t: Transition, k: nat)
    ensures StepsBy(SettingAt(job, at, k), c, d, t) <==>
              Goes(job, at, t, PointOf(c, k), PointOf(d, k)) && Flagged(job.atn, c, d)
  {}

  lemma MovesIff(job: Job, at: Cursor, c: Config, d: Config, k: nat)
    ensures EpsStep(SettingAt(job, at, k), c, d) <==>
              Moves(job, at, PointOf(c, k), PointOf(d, k)) && Flagged(job.atn, c, d)
  {
    var s := SettingAt(job, at, k);
    forall t ensures StepsBy(s, c, d, t) <==>
        Goes(job, at, t, PointOf(c, k), PointOf(d, k)) && Flagged(job.atn, c, d) {
      GoesIff(job, at, c, d, t, k);
    }
  }

  // What one character makes of c is d.
  ghost predicate TakesTo(job: Job, at: Cursor, k: nat, c: Config, d: Config, t: Transition) {
    var there := Place(job, at, k);
    && t in At(job.atn, c.state).transitions && Matches(t, Symbol(job, there))
    && d == Taken(job.atn, c, t, there.index - job.start)
  }

  lemma DatedIff(a: Atn, before: seq<Step>, after: seq<Step>, offset: int)
    ensures after == Fixed(a, before, offset) <==> Dated(a, before, after, offset)
  {
    var fixed := Fixed(a, before, offset);
    if Dated(a, before, after, offset) {
      forall i | 0 <= i < |before| ensures after[i] == fixed[i] {}
    }
  }

  lemma ReadsIff(job: Job, at: Cursor, k: nat, c: Config, d: Config)
    requires Kept(job.atn, c)
    ensures (exists t :: TakesTo(job, at, k, c, d, t)) <==>
              Reads(job, at, PointOf(c, k), PointOf(d, k + 1)) && Flagged(job.atn, c, d)
  {
    var p, q, offset := PointOf(c, k), PointOf(d, k + 1), Place(job, at, k).index - job.start;
    DatedIff(job.atn, c.steps, d.steps, offset);
    if t :| TakesTo(job, at, k, c, d, t) {
      assert Takes(t, Ahead(job, at, k));
    }
    if Reads(job, at, p, q) && Flagged(job.atn, c, d) {
      var t :| t in job.atn.states[c.state].transitions && Takes(t, Ahead(job, at, k)) && d.state == t.target;
      assert TakesTo(job, at, k, c, d, t);
    }
  }

  lemma TrailMore(job: Job, mode: nat, at: Cursor, trail: seq<Point>, c: Config, k: nat, d: Config, l: nat)
    requires Follows(job, mode, at, trail, c, k) && Flagged(job.atn, c, d)
    requires Linked(job, at, PointOf(c, k), PointOf(d, l))
    ensures Follows(job, mode, at, trail + [PointOf(d, l)], d, l)
  {
    var more := trail + [PointOf(d, l)];
    forall i | 0 <= i < |more| - 1 ensures Linked(job, at, more[i], more[i + 1]) {
      if i < |trail| - 1 {
        assert Linked(job, at, trail[i], trail[i + 1]);
      }
    }
    EntersMore(job.atn, trail, PointOf(d, l));
  }

  lemma EntersMore(a: Atn, trail: seq<Point>, p: Point)
    requires trail != []
    ensures Enters(a, trail + [p]) <==> Enters(a, trail) || NonGreedyAt(a, p.state)
  {
    var more := trail + [p];
    if i :| 0 < i < |trail| && NonGreedyAt(a, trail[i].state) {
      assert NonGreedyAt(a, more[i].state);
    }
    if NonGreedyAt(a, p.state) {
      assert NonGreedyAt(a, more[|trail|].state);
    }
    if i :| 0 < i < |more| && NonGreedyAt(a, more[i].state) && i < |trail| {
      assert NonGreedyAt(a, trail[i].state);
    }
  }

  lemma {:induction false} TrailAlong(job: Job, mode: nat, at: Cursor, trail: seq<Point>, c: Config, d: Config, k: nat,
      n: nat) returns (more: seq<Point>)
    requires Follows(job, mode, at, trail, c, k) && Path(SettingAt(job, at, k), c, d, n)
    ensures Follows(job, mode, at, more, d, k)
    decreases n
  {
    more := trail;
    if n > 0 {
      var e :| EpsStep(SettingAt(job, at, k), c, e) && Path(SettingAt(job, at, k), e, d, n - 1);
      MovesIff(job, at, c, e, k);
      TrailMore(job, mode, at, trail, c, k, e, k);
      more := TrailAlong(job, mode, at, trail + [PointOf(e, k)], e, d, k, n - 1);
    }
  }

  lemma DerivedKept(job: Job, mode: nat, at: Cursor, k: nat, d: Config)
    requires Derives(job, mode, at, k, d)
    ensures Kept(job.atn, d)
  {
    if k > 0 {
      assert Extends(job, mode, at, k - 1, d);
    }
  }

  // Every derivation is a trail.
  lemma {:induction false} TrailOf(job: Job, mode: nat, at: Cursor, k: nat, d: Config) returns (trail: seq<Point>)
    requires Derives(job, mode, at, k, d)
    ensures Follows(job, mode, at, trail, d, k)
    decreases k
  {
    if k == 0 {
      trail := FirstTrail(job, mode, at, d);
    } else {
      var c := Before(job, mode, at, k - 1, d);
      var front := TrailOf(job, mode, at, k - 1, c);
      trail := NextTrail(job, mode, at, k - 1, c, d, front);
    }
  }

  lemma FirstTrail(job: Job, mode: nat, at: Cursor, d: Config) returns (trail: seq<Point>)
    requires Derives(job, mode, at, 0, d)
    ensures Follows(job, mode, at, trail, d, 0)
  {
    var ts := At(job.atn, StartOf(job.atn, mode)).transitions;
    var i: nat :| i < |ts| && Leads(Entry(job, at), StartConfig(ts, i), d);
    var n: nat :| Path(Entry(job, at), StartConfig(ts, i), d, n);
    trail := TrailAlong(job, mode, at, [PointOf(StartConfig(ts, i), 0)], StartConfig(ts, i), d, 0, n);
  }

  lemma Before(job: Job, mode: nat, at: Cursor, k: nat, d: Config) returns (c: Config)
    requires Derives(job, mode, at, k + 1, d)
    ensures Derives(job, mode, at, k, c) && StepsTo(job, Place(job, at, k), c, d) && Kept(job.atn, c)
  {
    assert Extends(job, mode, at, k, d);
    c :| Derives(job, mode, at, k, c) && StepsTo(job, Place(job, at, k), c, d);
    DerivedKept(job, mode, at, k, c);
  }

  lemma ReadTrail(job: Job, mode: nat, at: Cursor, k: nat, c: Config, e: Config, t: Transition, front: seq<Point>)
    requires Follows(job, mode, at, front, c, k) && TakesTo(job, at, k, c, e, t) && Kept(job.atn, c)
    ensures Follows(job, mode, at, front + [PointOf(e, k + 1)], e, k + 1)
  {
    ReadsIff(job, at, k, c, e);
    TrailMore(job, mode, at, front, c, k, e, k + 1);
  }

  lemma NextTrail(job: Job, mode: nat, at: Cursor, k: nat, c: Config, d: Config, front: seq<Point>)
      returns (trail: seq<Point>)
    requires Follows(job, mode, at, front, c, k) && StepsTo(job, Place(job, at, k), c, d) && Kept(job.atn, c)
    ensures Follows(job, mode, at, trail, d, k + 1)
  {
    var there := Place(job, at, k);
    var t :| t in At(job.atn, c.state).transitions && Matches(t, Symbol(job, there))
      && Leads(Character(job, there), Taken(job.atn, c, t, there.index - job.start), d);
    var e := Taken(job.atn, c, t, there.index - job.start);
    ReadTrail(job, mode, at, k, c, e, t, front);
    var n: nat :| Path(Character(job, there), e, d, n);
    trail := TrailAlong(job, mode, at, front + [PointOf(e, k + 1)], e, d, k + 1, n);
  }

  // Before the first character, ...
  ghost predicate AtStart(job: Job, mode: nat, at: Cursor, d: Config) {
    var ts := At(job.atn, StartOf(job.atn, mode)).transitions;
    exists i: nat :: i < |ts| && Leads(Entry(job, at), StartConfig(ts, i), d)
  }

  // ... or after one, read from a configuration derived.
  ghost predicate AfterOne(job: Job, mode: nat, at: Cursor, k: nat, d: Config) {
    exists e :: ReadInto(job, mode, at, k, e) && Leads(Character(job, Place(job, at, k)), e, d)
  }

  ghost predicate ReadInto(job: Job, mode: nat, at: Cursor, k: nat, e: Config) {
    exists c, t :: Derives(job, mode, at, k, c) && TakesTo(job, at, k, c, e, t)
  }

  // Somewhere between two characters of a derivation.
  ghost predicate OnTheWay(job: Job, mode: nat, at: Cursor, k: nat, d: Config) {
    if k == 0 then AtStart(job, mode, at, d) else AfterOne(job, mode, at, k - 1, d)
  }

  lemma OnTheWayDerives(job: Job, mode: nat, at: Cursor, k: nat, d: Config)
    requires OnTheWay(job, mode, at, k, d) && Kept(job.atn, d)
    ensures Derives(job, mode, at, k, d)
  {
    if k > 0 {
      AfterOneExtends(job, mode, at, k - 1, d);
    }
  }

  lemma AfterOneExtends(job: Job, mode: nat, at: Cursor, k: nat, d: Config)
    requires AfterOne(job, mode, at, k, d) && Kept(job.atn, d)
    ensures Extends(job, mode, at, k, d)
  {
    var e :| ReadInto(job, mode, at, k, e) && Leads(Character(job, Place(job, at, k)), e, d);
    var c, t :| Derives(job, mode, at, k, c) && TakesTo(job, at, k, c, e, t);
    assert StepsTo(job, Place(job, at, k), c, d);
  }

  lemma {:induction false} LeadsOn(s: Setting, c: Config, e: Config, d: Config, n: nat)
    requires Path(s, c, e, n) && EpsStep(s, e, d)
    ensures Path(s, c, d, n + 1)
    decreases n
  {
    if n == 0 {
      assert Path(s, d, d, 0);
    } else {
      var b :| EpsStep(s, c, b) && Path(s, b, e, n - 1);
      LeadsOn(s, b, e, d, n - 1);
    }
  }

  lemma StepOn(s: Setting, c: Config, e: Config, d: Config)
    requires Leads(s, c, e) && EpsStep(s, e, d)
    ensures Leads(s, c, d)
  {
    var n: nat :| Path(s, c, e, n);
    LeadsOn(s, c, e, d, n);
  }

  lemma WayOn(job: Job, mode: nat, at: Cursor, k: nat, e: Config, d: Config)
    requires OnTheWay(job, mode, at, k, e) && EpsStep(SettingAt(job, at, k), e, d)
    ensures OnTheWay(job, mode, at, k, d)
  {
    if k == 0 {
      var ts := At(job.atn, StartOf(job.atn, mode)).transitions;
      var i: nat :| i < |ts| && Leads(Entry(job, at), StartConfig(ts, i), e);
      StepOn(Entry(job, at), StartConfig(ts, i), e, d);
    } else {
      var s := Character(job, Place(job, at, k - 1));
      var b :| ReadInto(job, mode, at, k - 1, b) && Leads(s, b, e);
      StepOn(s, b, e, d);
    }
  }

  function ConfigOf(a: Atn, alt: nat, trail: seq<Point>): Config
    requires trail != []
  {
    var p := Last(trail); Config(p.state, alt, p.context, p.steps, Enters(a, trail))
  }

  // Every trail is on the way of a derivation.
  lemma {:induction false} WayOf(job: Job, mode: nat, at: Cursor, alt: nat, trail: seq<Point>)
    requires Trail(job, mode, at, alt, trail)
    ensures OnTheWay(job, mode, at, Last(trail).read, ConfigOf(job.atn, alt, trail))
    decreases |trail|
  {
    var n := |trail| - 1;
    if n == 0 {
      var ts := At(job.atn, StartOf(job.atn, mode)).transitions;
      var c := StartConfig(ts, alt - 1);
      assert Path(Entry(job, at), c, c, 0);
      assert ConfigOf(job.atn, alt, trail) == c;
    } else {
      var front := trail[..n];
      WayOf(job, mode, at, alt, front);
      assert front + [trail[n]] == trail;
      EntersMore(job.atn, front, trail[n]);
      WayMore(job, mode, at, alt, front, trail[n]);
    }
  }

  lemma WayMore(job: Job, mode: nat, at: Cursor, alt: nat, front: seq<Point>, p: Point)
    requires front != [] && OnTheWay(job, mode, at, Last(front).read, ConfigOf(job.atn, alt, front))
    requires Linked(job, at, Last(front), p)
    ensures OnTheWay(job, mode, at, p.read, ConfigOf(job.atn, alt, front + [p]))
  {
    var a, k := job.atn, Last(front).read;
    var c, d := ConfigOf(a, alt, front), ConfigOf(a, alt, front + [p]);
    EntersMore(a, front, p);
    assert PointOf(c, k) == Last(front) && PointOf(d, p.read) == p && Flagged(a, c, d);
    if Moves(job, at, Last(front), p) {
      MovesIff(job, at, c, d, k);
      WayOn(job, mode, at, k, c, d);
    } else {
      WayRead(job, mode, at, k, c, d);
    }
  }

  lemma WayRead(job: Job, mode: nat, at: Cursor, k: nat, c: Config, d: Config)
    requires OnTheWay(job, mode, at, k, c) && Flagged(job.atn, c, d) && Reads(job, at, PointOf(c, k), PointOf(d, k + 1))
    ensures OnTheWay(job, mode, at, k + 1, d)
  {
    OnTheWayDerives(job, mode, at, k, c);
    ReadsIff(job, at, k, c, d);
    assert ReadInto(job, mode, at, k, d);
    assert Path(Character(job, Place(job, at, k)), d, d, 0);
    assert Leads(Character(job, Place(job, at, k)), d, d);
  }

  // Derivations are trails that rest, flagged exactly if they have entered a non-greedy decision.
  lemma DerivesIff(job: Job, mode: nat, at: Cursor, k: nat, d: Config)
    ensures Derives(job, mode, at, k, d) <==>
            Rests(job.atn, PointOf(d, k)) && exists trail :: Follows(job, mode, at, trail, d, k)
  {
    if Derives(job, mode, at, k, d) {
      DerivedKept(job, mode, at, k, d);
      var trail := TrailOf(job, mode, at, k, d);
    }
    if Rests(job.atn, PointOf(d, k)) {
      if trail :| Follows(job, mode, at, trail, d, k) {
        WayOf(job, mode, at, d.alt, trail);
        OnTheWayDerives(job, mode, at, k, d);
      }
    }
  }

  // The trail has come to the end of a rule, with no call open.
  ghost predicate Ends(job: Job, mode: nat, at: Cursor, alt: nat, trail: seq<Point>) {
    && Trail(job, mode, at, alt, trail)
    && var p := Last(trail); p.state < |job.atn.states| && job.atn.states[p.state].stop && p.context == []
  }

  // No rule listed before has a trail over the same text to its end that enters no non-greedy decision.
  ghost predicate FirstListed(job: Job, mode: nat, at: Cursor, alt: nat, trail: seq<Point>)
    requires trail != []
  {
    forall other, b: seq<Point> ::
      Ends(job, mode, at, other, b) && !Enters(job.atn, b) && Last(b).read == Last(trail).read ==> alt <= other
  }

  // The token of a trail: the type of its rule, the actions met, and the place where it has read to.
  function TokenAfter(job: Job, at: Cursor, p: Point): Outcome
    requires p.state < |job.atn.states|
  {
    var a, rule := job.atn, job.atn.states[p.state].rule;
    Token(if rule < |a.ruleToTokenType| then a.ruleToTokenType[rule] else 0, p.steps, Place(job, at, p.read))
  }

  ghost predicate Gives(job: Job, mode: nat, at: Cursor, alt: nat, trail: seq<Point>, o: Outcome) {
    && Ends(job, mode, at, alt, trail) && FirstListed(job, mode, at, alt, trail)
    && o == TokenAfter(job, at, Last(trail))
  }

  // Where a match fails: no trail that enters no non-greedy decision reads on or ends behind that place.
  ghost predicate Furthest(job: Job, mode: nat, at: Cursor, k: nat) {
    forall alt, trail: seq<Point> ::
      Trail(job, mode, at, alt, trail) && Rests(job.atn, Last(trail)) && !Enters(job.atn, trail) ==>
        Last(trail).read <= k
  }

  // ... and some trail comes there, if it is not the start.
  ghost predicate ComesTo(job: Job, mode: nat, at: Cursor, k: nat) {
    k > 0 ==> exists alt, trail: seq<Point> ::
      Trail(job, mode, at, alt, trail) && Rests(job.atn, Last(trail)) && Last(trail).read == k
  }

  ghost predicate Fails(job: Job, mode: nat, at: Cursor, there: Cursor, l: nat) {
    there == Place(job, at, l) && Furthest(job, mode, at, l) && ComesTo(job, mode, at, l)
  }

  // The lexer's law. A token is that of a trail to the end of a rule, and of the first rule listed that has one over
  // the same text. If there is a trail to the end of a rule that enters no non-greedy decision, there is a token, and
  // no such trail is longer. And the character that no rule can match is the first that no trail of that kind reads.
  ghost predicate Lexes(job: Job, mode: nat, at: Cursor, o: Outcome) {
    && (o.Token? ==> exists alt, trail: seq<Point> :: Gives(job, mode, at, alt, trail, o))
    && (o.NoViable? ==> exists l: nat :: Fails(job, mode, at, o.at, l))
    && (forall alt, trail: seq<Point> :: Ends(job, mode, at, alt, trail) && !Enters(job.atn, trail) ==>
          o.Token? && Place(job, at, Last(trail).read).index <= o.at.index)
  }

  lemma EndsRecognizes(job: Job, mode: nat, at: Cursor, alt: nat, trail: seq<Point>)
    requires Ends(job, mode, at, alt, trail)
    ensures Recognizes(job, mode, at, Last(trail).read, ConfigOf(job.atn, alt, trail))
  {
    var d, k := ConfigOf(job.atn, alt, trail), Last(trail).read;
    assert Follows(job, mode, at, trail, d, k);
    DerivesIff(job, mode, at, k, d);
  }

  lemma RecognizedEnds(job: Job, mode: nat, at: Cursor, k: nat, d: Config) returns (trail: seq<Point>)
    requires Recognizes(job, mode, at, k, d)
    ensures Follows(job, mode, at, trail, d, k) && Ends(job, mode, at, d.alt, trail)
  {
    DerivesIff(job, mode, at, k, d);
    trail :| Follows(job, mode, at, trail, d, k);
  }

  lemma FirstRuleListed(job: Job, mode: nat, at: Cursor, k: nat, d: Config, trail: seq<Point>)
    requires FirstRule(job, mode, at, k, d) && trail != [] && Last(trail).read == k
    ensures FirstListed(job, mode, at, d.alt, trail)
  {
    forall other, b: seq<Point> | Ends(job, mode, at, other, b) && !Enters(job.atn, b) && Last(b).read == k
      ensures d.alt <= other
    {
      EndsRecognizes(job, mode, at, other, b);
    }
  }

  lemma NoneBehind(job: Job, mode: nat, at: Cursor, k: nat, cs: seq<Config>)
    requires OneWay(job.atn) && Holds(job, mode, at, k, cs) && LexerRun.Next(job, cs, Place(job, at, k)).Closed?
    requires LexerRun.Next(job, cs, Place(job, at, k)).configs == []
    ensures Furthest(job, mode, at, k)
  {
    NextHolds(job, mode, at, k, cs);
    forall alt, trail: seq<Point> |
      Trail(job, mode, at, alt, trail) && Rests(job.atn, Last(trail)) && !Enters(job.atn, trail)
      ensures Last(trail).read <= k
    {
      var d, l := ConfigOf(job.atn, alt, trail), Last(trail).read;
      assert Follows(job, mode, at, trail, d, l);
      DerivesIff(job, mode, at, l, d);
      if l > k {
        var c := DerivesBack(job, mode, at, k + 1, l, d);
      }
    }
  }

  lemma SomeThere(job: Job, mode: nat, at: Cursor, k: nat, cs: seq<Config>)
    requires Holds(job, mode, at, k, cs) && cs != []
    ensures ComesTo(job, mode, at, k)
  {
    DerivesIff(job, mode, at, k, cs[0]);
    var trail :| Follows(job, mode, at, trail, cs[0], k);
  }

  lemma {:induction false} ExecFails(job: Job, mode: nat, at: Cursor, k: nat, cs: seq<Config>, last: Option<Accepted>,
      gas: nat, o: Outcome) returns (l: nat)
    requires OneWay(job.atn) && Holds(job, mode, at, k, cs) && ComesTo(job, mode, at, k) && Sound(job, last)
    requires o == Exec(job, cs, Place(job, at, k), last, gas) && o.NoViable?
    ensures Fails(job, mode, at, o.at, l)
    decreases gas
  {
    var there := Place(job, at, k);
    var target := LexerRun.Next(job, cs, there).configs;
    if target == [] {
      NoneBehind(job, mode, at, k, cs);
      l := k;
    } else {
      NextHolds(job, mode, at, k, cs);
      SomeThere(job, mode, at, k + 1, target);
      l := ExecFails(job, mode, at, k + 1, target, Marked(job, last, target, Place(job, at, k + 1)), gas - 1, o);
    }
  }

  // A match fails exactly where no rule can go on.
  lemma MatchFails(job: Job, mode: nat, at: Cursor, gas: nat) returns (l: nat)
    requires OneWay(job.atn) && at.index == job.start && Match(job, mode, at, gas).NoViable?
    ensures Fails(job, mode, at, Match(job, mode, at, gas).at, l)
  {
    var cs := StartState(job.atn, job.oracle, at.index, mode, job.depth).configs;
    StartHolds(job, mode, at);
    l := ExecFails(job, mode, at, 0, cs, Marked(job, None, cs, at), gas, Match(job, mode, at, gas));
  }

  lemma LexesLanguage(job: Job, mode: nat, at: Cursor, gas: nat)
    requires OneWay(job.atn) && at.index == job.start && !Match(job, mode, at, gas).Stuck?
    ensures Lexes(job, mode, at, Match(job, mode, at, gas))
  {
    var o := Match(job, mode, at, gas);
    if o.Token? {
      TokenDerived(job, mode, at, gas);
      var k: nat, d :| FirstRule(job, mode, at, k, d)
        && o == Token(TokenType(job.atn, At(job.atn, d.state).rule), d.steps, Place(job, at, k));
      var trail := RecognizedEnds(job, mode, at, k, d);
      FirstRuleListed(job, mode, at, k, d, trail);
      assert Gives(job, mode, at, d.alt, trail, o);
    }
    if o.NoViable? {
      var l := MatchFails(job, mode, at, gas);
    }
    forall alt, trail: seq<Point> | Ends(job, mode, at, alt, trail) && !Enters(job.atn, trail)
      ensures o.Token? && Place(job, at, Last(trail).read).index <= o.at.index
    {
      EndsRecognizes(job, mode, at, alt, trail);
      LongestDerived(job, mode, at, gas, Last(trail).read, ConfigOf(job.atn, alt, trail));
    }
  }

  // The column after a text: counted from its last newline, if it has one.
  ghost predicate ColumnAfter(text: seq<int>, from: nat, column: nat) {
    if 10 in text then exists j :: 0 <= j < |text| && text[j] == 10 && 10 !in text[j + 1..] && column == |text| - 1 - j
    else column == from + |text|
  }

  function Newlines(text: seq<int>): nat {
    if text == [] then 0 else Newlines(text[..|text| - 1]) + if text[|text| - 1] == 10 then 1 else 0
  }

  // Where k characters lead, or those that are left.
  ghost predicate Behind(job: Job, at: Cursor, k: nat, there: Cursor) {
    var end := if at.index + k < |job.input| then at.index + k else |job.input|;
    && at.index <= end && there.index == end
    && there.line == at.line + Newlines(job.input[at.index..end])
    && ColumnAfter(job.input[at.index..end], at.column, there.column)
  }

  lemma {:induction false} PlaceIs(job: Job, at: Cursor, k: nat)
    requires Input(job.input) && at.index <= |job.input|
    ensures Behind(job, at, k, Place(job, at, k))
    decreases k
  {
    if k > 0 {
      PlaceIs(job, at, k - 1);
      var here := Place(job, at, k - 1);
      if here.index < |job.input| {
        OneBehind(job, at, here);
      }
    }
  }

  lemma OneBehind(job: Job, at: Cursor, here: Cursor)
    requires Input(job.input) && at.index <= here.index < |job.input|
    requires Behind(job, at, here.index - at.index, here)
    ensures Behind(job, at, here.index - at.index + 1, LexerRun.Moved(job, here))
  {
    var text, c, there := job.input[at.index..here.index], job.input[here.index], LexerRun.Moved(job, here);
    var more := job.input[at.index..there.index];
    assert more == text + [c];
    NewlinesMore(text, c);
    ColumnMore(text, c, at.column, here.column);
  }

  lemma NewlinesMore(text: seq<int>, c: int)
    ensures Newlines(text + [c]) == Newlines(text) + if c == 10 then 1 else 0
  {
    assert (text + [c])[..|text|] == text;
  }

  lemma ColumnMore(text: seq<int>, c: int, from: nat, column: nat)
    requires ColumnAfter(text, from, column)
    ensures ColumnAfter(text + [c], from, if c == 10 then 0 else column + 1)
  {
    var more := text + [c];
    if c == 10 {
      assert more[|text|] == 10 && more[|text| + 1..] == [];
    } else if 10 in text {
      var j :| 0 <= j < |text| && text[j] == 10 && 10 !in text[j + 1..] && column == |text| - 1 - j;
      assert more[j] == 10 && more[j + 1..] == text[j + 1..] + [c];
    }
  }
}
