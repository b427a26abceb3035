// The text a reduced program gives: the walk over the token buffer, which jumps over replaced
// ranges, against what the document says of each token on its own.
module EditText {
  import opened Edits
  import opened EditMeaning
  import opened ReplaceWalk
  import opened InsertWalk
  import opened Tokens

  // What the walk emits, in order.
  datatype Piece = Original(index: nat) | New(text: string)

  function Spell(tokens: seq<Token>, piece: Piece): string {
    match piece
    case New(text) => text
    case Original(i) => if i < |tokens| && tokens[i].kind != EOF then tokens[i].text else ""
  }

  function Flatten(tokens: seq<Token>, ps: seq<Piece>): string {
    if ps == [] then "" else Spell(tokens, ps[0]) + Flatten(tokens, ps[1..])
  }

  // A map from token index to the operation there.
  predicate Indexed(m: map<nat, Op>) {
    forall k :: k in m ==> !m[k].Gone? && m[k].index == k && Ordered(m[k])
  }

  // What execute() appends at token i, and the token it goes on with.
  function Emitted(m: map<nat, Op>, i: nat): seq<Piece> {
    if i !in m || m[i].Gone? then [Original(i)]
    else if m[i].Insert? then [New(m[i].text), Original(i)]
    else [New(m[i].text)]
  }

  function Next(m: map<nat, Op>, i: nat): (k: nat)
    requires Indexed(m)
    ensures i < k
  {
    if i in m && m[i].Replace? then m[i].last + 1 else i + 1
  }

  function Walk(m: map<nat, Op>, i: nat, end: nat): seq<Piece>
    requires Indexed(m)
    decreases end - i
  {
    if end <= i then [] else Emitted(m, i) + Walk(m, Next(m, i), end)
  }

  // The operations the walk does not come to.
  function Left(m: map<nat, Op>, i: nat, end: nat): (l: set<nat>)
    requires Indexed(m)
    ensures l <= m.Keys
    decreases end - i
  {
    if end <= i then m.Keys else Left(m, Next(m, i), end) - {i}
  }

  ghost predicate Covered(d: Doc, i: nat) { exists s: nat :: Covers(d, s, i) }

  // Regions do not share a token.
  ghost predicate Apart(d: Doc) {
    && (forall s: nat :: s in d.regions ==> s <= d.regions[s].last)
    && (forall s: nat, t: nat, i: nat :: Covers(d, s, i) && Covers(d, t, i) ==> s == t)
  }

  // The document without the regions that start before a token.
  function From(d: Doc, start: nat): Doc {
    Doc(d.ins, map s | s in d.regions && start <= s :: d.regions[s])
  }

  // What the document says of token i.
  ghost function Cell(d: Doc, i: nat): seq<Piece> {
    if i in d.regions then [New(TextAt(d, i) + d.regions[i].text)]
    else if Covered(d, i) then []
    else if i in d.ins then [New(d.ins[i].text), Original(i)]
    else [Original(i)]
  }

  ghost function Cells(d: Doc, i: nat, end: nat): seq<Piece>
    decreases end - i
  {
    if end <= i then [] else Cell(d, i) + Cells(d, i + 1, end)
  }

  // No region reaches token i from before it.
  ghost predicate Entry(d: Doc, i: nat) { forall s: nat :: Covers(d, s, i) ==> s == i }

  lemma {:induction false} NothingInside(d: Doc, s: nat, i: nat, end: nat)
    requires Apart(d) && s in d.regions && s < i <= d.regions[s].last + 1
    ensures Cells(d, i, end) == Cells(d, d.regions[s].last + 1, end)
    decreases d.regions[s].last + 1 - i
  {
    if i <= d.regions[s].last {
      assert Covers(d, s, i);
      if i in d.regions {
        assert Covers(d, i, i);
      }
      NothingInside(d, s, i + 1, end);
    }
  }

  lemma OperationsIndexed(d: Doc)
    requires Apart(d)
    ensures Indexed(Operations(d))
  {}

  lemma FromApart(d: Doc, start: nat)
    requires Apart(d)
    ensures Apart(From(d, start))
  {
    var e := From(d, start);
    forall s: nat, t: nat, i: nat | Covers(e, s, i) && Covers(e, t, i) ensures s == t {
      assert Covers(d, s, i) && Covers(d, t, i);
    }
  }

  // The walk goes from one entry to the next.
  lemma EntryNext(d: Doc, start: nat, i: nat)
    requires Apart(d) && start <= i && Entry(From(d, start), i)
    ensures Indexed(Operations(d)) && Entry(From(d, start), Next(Operations(d), i))
  {
    OperationsIndexed(d);
    FromApart(d, start);
    var e, k := From(d, start), Next(Operations(d), i);
    forall s: nat | Covers(e, s, k) ensures s == k {
      if s < i {
        assert Covers(e, s, i);
      } else if s < k && i in d.regions {
        assert Covers(e, i, s) && Covers(e, s, s);
      }
    }
  }

  lemma CellsNext(d: Doc, start: nat, i: nat, end: nat)
    requires Apart(d) && Indexed(Operations(d)) && start <= i < end
    ensures Cells(From(d, start), i, end) == Cell(From(d, start), i)
        + Cells(From(d, start), Next(Operations(d), i), end)
  {
    var e, n := From(d, start), Next(Operations(d), i);
    assert Cells(e, i, end) == Cell(e, i) + Cells(e, i + 1, end);
    if i in d.regions {
      assert i in Operations(d) && n == d.regions[i].last + 1 == e.regions[i].last + 1;
      FromApart(d, start);
      NothingInside(e, i, i + 1, end);
    } else {
      assert n == i + 1;
    }
  }

  // A walk that starts anywhere emits, token by token, what the document without the regions
  // begun before says: a region is entered at its left end and left past its right end.
  lemma {:induction false} WalkIsCells(d: Doc, start: nat, i: nat, end: nat)
    requires Apart(d) && Indexed(Operations(d)) && start <= i && Entry(From(d, start), i)
    ensures Walk(Operations(d), i, end) == Cells(From(d, start), i, end)
    decreases end - i
  {
    if i < end {
      EntryNext(d, start, i);
      WalkIsCells(d, start, Next(Operations(d), i), end);
      EmittedIsCell(d, start, i);
      CellsNext(d, start, i, end);
    }
  }

  lemma EmittedIsCell(d: Doc, start: nat, i: nat)
    requires start <= i && Entry(From(d, start), i)
    ensures Emitted(Operations(d), i) == Cell(From(d, start), i)
  {
    var e := From(d, start);
    if i in d.regions {
      assert i in Operations(d);
    }
  }

  // The operations left over are those before, those at or past the end, and those inside a region.
  lemma {:induction false} LeftOver(d: Doc, start: nat, i: nat, end: nat, k: nat)
    requires Apart(d) && Indexed(Operations(d)) && start <= i && Entry(From(d, start), i) && k in Operations(d)
    ensures k in Left(Operations(d), i, end) <==> k < i || end <= k || !Entry(From(d, start), k)
    decreases end - i
  {
    if i < end {
      var e, n := From(d, start), Next(Operations(d), i);
      EntryNext(d, start, i);
      LeftOver(d, start, n, end, k);
      if i < k < n {
        assert i in d.regions && Covers(e, i, k);
      }
    }
  }

  // Some replacement asked for covers token i.
  ghost predicate Requested(p: seq<Op>, i: nat) {
    exists j :: 0 <= j < |p| && p[j].Replace? && InRange(i, p[j].index, p[j].last)
  }

  lemma StandsApart(p: seq<Op>, d: Doc)
    requires Stands(p, d)
    ensures Apart(d)
  {
    forall s: nat, t: nat, i: nat | Covers(d, s, i) && Covers(d, t, i) ensures s == t {
      OneCover(p, d, s, t, i);
    }
    forall s: nat | s in d.regions ensures s <= d.regions[s].last {
      var j :| IsRegion(p, j, s, d.regions[s]);
      assert Ordered(p[j]);
    }
  }

  lemma MeaningApart(p: seq<Op>)
    requires OrderedAll(p) && Meaning(p).Ok?
    ensures Apart(Meaning(p).value)
  {
    WalkMeans(p);
    StandsApart(WalkReplaces(p).value, Meaning(p).value);
  }

  // A replacement adds its range to what is covered, and no more.
  lemma CoverGrows(d: Doc, x: nat, y: nat, text: string, i: nat)
    requires Apart(d) && x <= y && Apply(d, Replace(x, y, text)).Ok?
    ensures Covered(Apply(d, Replace(x, y, text)).value, i) <==> Covered(d, i) || InRange(i, x, y)
  {
    var e, lo, hi := Apply(d, Replace(x, y, text)).value, LeftEnd(d, x), RightEnd(d, y);
    if Covered(d, i) || InRange(i, x, y) {
      CoverKept(d, x, y, text, i);
    }
    if Covered(e, i) && !InRange(i, x, y) {
      var s: nat :| Covers(e, s, i);
      if s != lo {
        assert Covers(d, s, i);
      } else if i < x {
        assert Covers(d, lo, x) && Covers(d, lo, i);
      } else {
        var t: nat :| Covers(d, t, y) && d.regions[t].last == hi;
        assert Covers(d, t, i);
      }
    }
  }

  lemma CoverKept(d: Doc, x: nat, y: nat, text: string, i: nat)
    requires Apart(d) && x <= y && Apply(d, Replace(x, y, text)).Ok? && (Covered(d, i) || InRange(i, x, y))
    ensures Covered(Apply(d, Replace(x, y, text)).value, i)
  {
    var e, lo, hi := Apply(d, Replace(x, y, text)).value, LeftEnd(d, x), RightEnd(d, y);
    if InRange(i, x, y) {
      assert Covers(e, lo, i);
    } else {
      var s: nat :| Covers(d, s, i);
      if Touches(d, s, x, y) {
        if i < x {
          assert Covers(d, s, x) && Covers(d, lo, x);
        } else {
          assert Covers(d, s, y);
        }
        assert Covers(e, lo, i);
      } else {
        KeptRegion(d, x, y, text, s);
        assert Covers(e, s, i);
      }
    }
  }

  lemma KeptRegion(d: Doc, x: nat, y: nat, text: string, s: nat)
    requires Apart(d) && x <= y && Apply(d, Replace(x, y, text)).Ok? && s in d.regions && !Touches(d, s, x, y)
    ensures var e := Apply(d, Replace(x, y, text)).value; s in e.regions && e.regions[s] == d.regions[s]
  {
    assert LeftEnd(d, x) == x || Covers(d, LeftEnd(d, x), x);
  }

  // Dropping contained replaces and merging overlapping deletes never changes which tokens go.
  lemma {:induction false} Coverage(p: seq<Op>, i: nat)
    requires OrderedAll(p) && Meaning(p).Ok?
    ensures Covered(Meaning(p).value, i) <==> Requested(p, i)
    decreases |p|
  {
    if p != [] {
      var pre, o := p[..|p| - 1], p[|p| - 1];
      Coverage(pre, i);
      RequestedLast(p, i);
      var d, e := Meaning(pre).value, Meaning(p).value;
      if o.Replace? {
        assert Ordered(p[|p| - 1]);
        MeaningApart(pre);
        CoverGrows(d, o.index, o.last, o.text, i);
      } else {
        assert forall s: nat :: Covers(e, s, i) <==> Covers(d, s, i);
      }
    }
  }

  lemma RequestedLast(p: seq<Op>, i: nat)
    requires p != []
    ensures Requested(p, i)
        <==> Requested(p[..|p| - 1], i) || (p[|p| - 1].Replace? && InRange(i, p[|p| - 1].index, p[|p| - 1].last))
  {
    var pre := p[..|p| - 1];
    if Requested(pre, i) {
      var j :| 0 <= j < |pre| && pre[j].Replace? && InRange(i, pre[j].index, pre[j].last);
      assert p[j] == pre[j];
    }
    if Requested(p, i) && !(p[|p| - 1].Replace? && InRange(i, p[|p| - 1].index, p[|p| - 1].last)) {
      var j :| 0 <= j < |p| && p[j].Replace? && InRange(i, p[j].index, p[j].last);
      assert pre[j] == p[j];
    }
  }

  // The replaces that survive the walk are disjoint and cover what was asked for.
  lemma SurvivorsCover(p: seq<Op>)
    requires OrderedAll(p) && WalkReplaces(p).Ok?
    ensures Separate(WalkReplaces(p).value)
    ensures forall i: nat :: Requested(WalkReplaces(p).value, i) <==> Requested(p, i)
  {
    WalkMeans(p);
    var q, d := WalkReplaces(p).value, Meaning(p).value;
    forall i: nat ensures Requested(q, i) <==> Requested(p, i) {
      Coverage(p, i);
      if Requested(q, i) {
        var j :| 0 <= j < |q| && q[j].Replace? && InRange(i, q[j].index, q[j].last);
        assert Covers(d, q[j].index, i);
      }
      if Covered(d, i) {
        var s: nat :| Covers(d, s, i);
        var j :| IsRegion(q, j, s, d.regions[s]);
        assert InRange(i, q[j].index, q[j].last);
      }
    }
  }

  // The tokens emitted, by index.
  function Originals(ps: seq<Piece>): seq<nat> {
    if ps == [] then [] else (if ps[0].Original? then [ps[0].index] else []) + Originals(ps[1..])
  }

  // The tokens no replacement asked for, in order.
  ghost function Untouched(p: seq<Op>, i: nat, end: nat): seq<nat>
    decreases end - i
  {
    if end <= i then [] else (if Requested(p, i) then [] else [i]) + Untouched(p, i + 1, end)
  }

  lemma {:induction false} OriginalsJoin(a: seq<Piece>, b: seq<Piece>)
    ensures Originals(a + b) == Originals(a) + Originals(b)
    decreases |a|
  {
    if a == [] {
      assert a + b == b;
    } else {
      OriginalsJoin(a[1..], b);
      assert (a + b)[0] == a[0] && (a + b)[1..] == a[1..] + b;
    }
  }

  lemma {:induction false} CellsUntouched(p: seq<Op>, i: nat, end: nat)
    requires OrderedAll(p) && Meaning(p).Ok?
    ensures Originals(Cells(Meaning(p).value, i, end)) == Untouched(p, i, end)
    decreases end - i
  {
    if i < end {
      var d := Meaning(p).value;
      CellsUntouched(p, i + 1, end);
      Coverage(p, i);
      OriginalsJoin(Cell(d, i), Cells(d, i + 1, end));
      if i in d.regions {
        MeaningApart(p);
        assert Covers(d, i, i);
      } else if i in d.ins && !Covered(d, i) {
        assert Cell(d, i)[1..] == [Original(i)];
      }
    }
  }

  // Reading a whole stream of tokens: what is emitted is what the document says of each token, and
  // of the stream's own tokens exactly those outside every range asked for, once and in order.
  lemma WholeWalk(p: seq<Op>, n: nat)
    requires OrderedAll(p) && Reduce(p).Ok?
    ensures Meaning(p).Ok? && Indexed(Reduce(p).value)
    ensures Walk(Reduce(p).value, 0, n) == Cells(Meaning(p).value, 0, n)
    ensures Originals(Walk(Reduce(p).value, 0, n)) == Untouched(p, 0, n)
  {
    ReduceMeans(p);
    var d := Meaning(p).value;
    MeaningApart(p);
    OperationsIndexed(d);
    WalkIsCells(d, 0, 0, n);
    assert From(d, 0) == d;
    CellsUntouched(p, 0, n);
  }

  // What is left over at the end of a whole stream: insertions past its last token, and one
  // before the last token if a deletion grew over both.
  lemma WholeLeft(p: seq<Op>, n: nat, k: nat)
    requires OrderedAll(p) && Reduce(p).Ok? && Indexed(Reduce(p).value) && k in Reduce(p).value
    ensures Meaning(p).Ok?
    ensures k in Left(Reduce(p).value, 0, n) <==> n <= k || !Entry(Meaning(p).value, k)
  {
    ReduceMeans(p);
    var d := Meaning(p).value;
    MeaningApart(p);
    LeftOver(d, 0, 0, n, k);
    assert From(d, 0) == d;
  }
}
