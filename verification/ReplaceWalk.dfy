// The replace walk reduces a program to the document it means.
module ReplaceWalk {
  import opened Edits
  import opened EditMeaning

  function HasInsert(p: seq<Op>, i: nat): bool {
    p != [] && ((p[|p| - 1].Insert? && p[|p| - 1].index == i) || HasInsert(p[..|p| - 1], i))
  }

  // No replacement of token i follows the last insertion before it.
  function Latest(p: seq<Op>, i: nat): bool {
    if p == [] then true
    else
      match p[|p| - 1]
      case Gone => Latest(p[..|p| - 1], i)
      case Insert(x, _) => x == i || Latest(p[..|p| - 1], i)
      case Replace(x, y, _) => !InRange(i, x, y) && Latest(p[..|p| - 1], i)
  }

  ghost predicate IsRegion(p: seq<Op>, j: int, s: nat, r: Region) {
    0 <= j < |p| && p[j] == Replace(s, r.last, r.text)
  }

  ghost predicate Separate(p: seq<Op>) {
    && OrderedAll(p)
    && forall i, j :: 0 <= i < j < |p| && p[i].Replace? && p[j].Replace? ==> Disjoint(p[i], p[j])
  }

  // The reduced program p stands for the document d.
  ghost predicate Stands(p: seq<Op>, d: Doc) {
    && Separate(p)
    && (forall i: nat :: i in d.ins <==> HasInsert(p, i))
    && (forall i: nat :: i in d.ins ==> d.ins[i] == Ins(Gathered(p, i), Latest(p, i)))
    && (forall j :: 0 <= j < |p| && p[j].Replace? ==>
        p[j].index in d.regions && d.regions[p[j].index] == Region(p[j].last, p[j].text))
    && (forall s: nat :: s in d.regions ==> exists j :: IsRegion(p, j, s, d.regions[s]))
  }

  predicate Meets(o: Op, x: nat, y: nat) {
    o.Replace? && o.index <= y && x <= o.last
  }

  function Dropped(p: seq<Op>, x: nat, y: nat): (q: seq<Op>)
    ensures |q| == |p|
    ensures forall j :: 0 <= j < |p| ==> q[j] == if Meets(p[j], x, y) then Gone else p[j]
  {
    seq(|p|, j requires 0 <= j < |p| => if Meets(p[j], x, y) then Gone else p[j])
  }

  function Lo(p: seq<Op>, x: nat, y: nat): nat {
    if p == [] then x
    else if Meets(p[|p| - 1], x, y) then Min(p[|p| - 1].index, Lo(p[..|p| - 1], x, y))
    else Lo(p[..|p| - 1], x, y)
  }

  function Hi(p: seq<Op>, x: nat, y: nat): nat {
    if p == [] then y
    else if Meets(p[|p| - 1], x, y) then Max(p[|p| - 1].last, Hi(p[..|p| - 1], x, y))
    else Hi(p[..|p| - 1], x, y)
  }

  // The ends of the grown range are those of the range or of replaces it meets.
  lemma {:induction false} Ends(p: seq<Op>, x: nat, y: nat)
    requires x <= y
    ensures Lo(p, x, y) <= x && y <= Hi(p, x, y)
    ensures Lo(p, x, y) == x || exists j :: 0 <= j < |p| && Meets(p[j], x, y) && p[j].index == Lo(p, x, y)
    ensures Hi(p, x, y) == y || exists j :: 0 <= j < |p| && Meets(p[j], x, y) && p[j].last == Hi(p, x, y)
    ensures forall j :: 0 <= j < |p| && Meets(p[j], x, y) ==> Lo(p, x, y) <= p[j].index && p[j].last <= Hi(p, x, y)
    decreases |p|
  {
    if p != [] {
      var n := |p| - 1;
      Ends(p[..n], x, y);
      if Lo(p[..n], x, y) != x {
        var j :| 0 <= j < n && Meets(p[..n][j], x, y) && p[..n][j].index == Lo(p[..n], x, y);
        assert p[j] == p[..n][j];
      }
      if Hi(p[..n], x, y) != y {
        var j :| 0 <= j < n && Meets(p[..n][j], x, y) && p[..n][j].last == Hi(p[..n], x, y);
        assert p[j] == p[..n][j];
      }
      forall j | 0 <= j < |p| && Meets(p[j], x, y) ensures Lo(p, x, y) <= p[j].index && p[j].last <= Hi(p, x, y) {
        if j < n {
          assert p[j] == p[..n][j];
        }
      }
    }
  }

  ghost predicate Blocks(o: Op, x: nat, y: nat, text: string) {
    Meets(o, x, y) && !(x <= o.index && o.last <= y) && !(o.text == "" && text == "")
  }

  ghost predicate Blocked(p: seq<Op>, x: nat, y: nat, text: string) {
    exists j :: 0 <= j < |p| && Blocks(p[j], x, y, text)
  }

  // An operation apart from the others meets the grown range exactly if it meets the range, and
  // then is within both or neither.
  lemma GrownMeets(p: seq<Op>, o: Op, x: nat, y: nat)
    requires x <= y && o.Replace? && Separate(p + [o])
    ensures Meets(o, Lo(p, x, y), Hi(p, x, y)) <==> Meets(o, x, y)
    ensures Meets(o, x, y) ==> ((Lo(p, x, y) <= o.index && o.last <= Hi(p, x, y)) <==> (x <= o.index && o.last <= y))
  {
    Ends(p, x, y);
    var q := p + [o];
    assert q[|p|] == o && Ordered(q[|p|]);
    if Lo(p, x, y) != x {
      var j :| 0 <= j < |p| && Meets(p[j], x, y) && p[j].index == Lo(p, x, y);
      assert q[j] == p[j] && Disjoint(q[j], q[|p|]);
    }
    if Hi(p, x, y) != y {
      var j :| 0 <= j < |p| && Meets(p[j], x, y) && p[j].last == Hi(p, x, y);
      assert q[j] == p[j] && Disjoint(q[j], q[|p|]);
    }
  }

  lemma BlockedLast(p: seq<Op>, x: nat, y: nat, text: string)
    requires p != []
    ensures Blocked(p, x, y, text) <==> Blocked(p[..|p| - 1], x, y, text) || Blocks(p[|p| - 1], x, y, text)
  {
    var pre := p[..|p| - 1];
    if Blocked(pre, x, y, text) {
      var j :| 0 <= j < |pre| && Blocks(pre[j], x, y, text);
      assert Blocks(p[j], x, y, text);
    }
    if Blocked(p, x, y, text) && !Blocks(p[|p| - 1], x, y, text) {
      var j :| 0 <= j < |p| && Blocks(p[j], x, y, text);
      assert Blocks(pre[j], x, y, text);
    }
  }

  lemma DroppedLast(p: seq<Op>, x: nat, y: nat)
    requires p != []
    ensures Dropped(p, x, y) == Dropped(p[..|p| - 1], x, y) + [if Meets(p[|p| - 1], x, y) then Gone else p[|p| - 1]]
  {}

  // One round of the second loop, by what the entry o is to the replacement r so far.
  lemma DropPriorNext(p: seq<Op>, rop: Op, q: seq<Op>, r: Op)
    requires p != [] && rop.Replace? && DropPrior(p[..|p| - 1], rop) == Ok((q, r)) && r.index <= r.last
        && Ordered(p[|p| - 1])
    ensures var o := p[|p| - 1];
            DropPrior(p, rop) ==
              if !Meets(o, r.index, r.last) then Ok((q + [o], r))
              else if r.index <= o.index && o.last <= r.last then Ok((q + [Gone], r))
              else if o.text == "" && r.text == "" then
                Ok((q + [Gone], Replace(Min(o.index, r.index), Max(o.last, r.last), r.text)))
              else Err(Overlap)
  {}

  // The second loop of the walk in closed form.
  lemma {:induction false} DropPriorIs(p: seq<Op>, x: nat, y: nat, text: string)
    requires Separate(p) && x <= y
    ensures DropPrior(p, Replace(x, y, text)) ==
            if Blocked(p, x, y, text) then Err(Overlap)
                else Ok((Dropped(p, x, y), Replace(Lo(p, x, y), Hi(p, x, y), text)))
    decreases |p|
  {
    if p != [] {
      var pre, o := p[..|p| - 1], p[|p| - 1];
      DropPriorIs(pre, x, y, text);
      BlockedLast(p, x, y, text);
      if !Blocked(pre, x, y, text) {
        DropPriorLast(p, x, y, text);
      }
    }
  }

  lemma DropPriorLast(p: seq<Op>, x: nat, y: nat, text: string)
    requires p != [] && Separate(p) && x <= y && !Blocked(p[..|p| - 1], x, y, text)
    requires var pre := p[..|p| - 1];
             DropPrior(pre, Replace(x, y, text))
                 == Ok((Dropped(pre, x, y), Replace(Lo(pre, x, y), Hi(pre, x, y), text)))
    ensures DropPrior(p, Replace(x, y, text)) ==
            if Blocks(p[|p| - 1], x, y, text) then Err(Overlap)
                else Ok((Dropped(p, x, y), Replace(Lo(p, x, y), Hi(p, x, y), text)))
  {
    var pre, o := p[..|p| - 1], p[|p| - 1];
    var r := Replace(Lo(pre, x, y), Hi(pre, x, y), text);
    Ends(pre, x, y);
    DropPriorNext(p, Replace(x, y, text), Dropped(pre, x, y), r);
    DroppedLast(p, x, y);
    if o.Replace? {
      assert p == pre + [o];
      GrownMeets(pre, o, x, y);
    }
  }

  lemma {:induction false} GatheredWiped(p: seq<Op>, lo: nat, hi: nat, i: nat)
    ensures HasInsert(Wiped(p, lo, hi), i) <==> HasInsert(p, i) && !InRange(i, lo, hi)
    ensures !InRange(i, lo, hi) ==>
        Gathered(Wiped(p, lo, hi), i) == Gathered(p, i) && Latest(Wiped(p, lo, hi), i) == Latest(p, i)
    decreases |p|
  {
    if p != [] {
      GatheredWiped(p[..|p| - 1], lo, hi, i);
      assert Wiped(p, lo, hi)[..|p| - 1] == Wiped(p[..|p| - 1], lo, hi);
    }
  }

  // Dropping replaces that do not cover token i is not seen at i.
  lemma {:induction false} GatheredDropped(p: seq<Op>, x: nat, y: nat, i: nat)
    ensures HasInsert(Dropped(p, x, y), i) == HasInsert(p, i)
    ensures Gathered(Dropped(p, x, y), i) == Gathered(p, i)
    ensures (forall j :: 0 <= j < |p| && Meets(p[j], x, y) ==> !InRange(i, p[j].index, p[j].last))
        ==> Latest(Dropped(p, x, y), i) == Latest(p, i)
    decreases |p|
  {
    if p != [] {
      var n := |p| - 1;
      GatheredDropped(p[..n], x, y, i);
      DroppedLast(p, x, y);
      assert Dropped(p, x, y)[..n] == Dropped(p[..n], x, y);
      if forall j :: 0 <= j < |p| && Meets(p[j], x, y) ==> !InRange(i, p[j].index, p[j].last) {
        forall j | 0 <= j < n && Meets(p[..n][j], x, y) ensures !InRange(i, p[..n][j].index, p[..n][j].last) {
          assert p[..n][j] == p[j];
        }
      }
    }
  }

  lemma {:induction false} NoneGathered(p: seq<Op>, i: nat)
    requires !HasInsert(p, i)
    ensures Gathered(p, i) == ""
    decreases |p|
  {
    if p != [] {
      NoneGathered(p[..|p| - 1], i);
    }
  }

  lemma TextStands(p: seq<Op>, d: Doc, i: nat)
    requires Stands(p, d)
    ensures TextAt(d, i) == Gathered(p, i)
  {
    if !HasInsert(p, i) {
      NoneGathered(p, i);
    }
  }

  // The document sees the same conflicts and the same grown range as the walk.
  lemma RangeStands(p: seq<Op>, d: Doc, x: nat, y: nat, text: string)
    requires Stands(p, d) && x <= y
    ensures Conflicts(d, x, y, text) <==> Blocked(p, x, y, text)
    ensures LeftEnd(d, x) == Lo(p, x, y) && RightEnd(d, y) == Hi(p, x, y)
  {
    if Blocked(p, x, y, text) {
      var j :| 0 <= j < |p| && Blocks(p[j], x, y, text);
      assert Touches(d, p[j].index, x, y);
    }
    if Conflicts(d, x, y, text) {
      var s: nat :| Touches(d, s, x, y) && !Inside(d, s, x, y) && !(d.regions[s].text == "" && text == "");
      var j :| IsRegion(p, j, s, d.regions[s]);
      assert Blocks(p[j], x, y, text);
    }
    EndStands(p, d, x, y);
  }

  lemma OneCover(p: seq<Op>, d: Doc, s: nat, t: nat, i: nat)
    requires Stands(p, d) && Covers(d, s, i) && Covers(d, t, i)
    ensures s == t
  {
    var j :| IsRegion(p, j, s, d.regions[s]);
    var k :| IsRegion(p, k, t, d.regions[t]);
    assert InRange(i, p[j].index, p[j].last) && InRange(i, p[k].index, p[k].last);
    assert j == k;
  }

  lemma EndStands(p: seq<Op>, d: Doc, x: nat, y: nat)
    requires Stands(p, d) && x <= y
    ensures LeftEnd(d, x) == Lo(p, x, y) && RightEnd(d, y) == Hi(p, x, y)
  {
    LeftStands(p, d, x, y);
    RightStands(p, d, x, y);
  }

  lemma LeftStands(p: seq<Op>, d: Doc, x: nat, y: nat)
    requires Stands(p, d) && x <= y
    ensures LeftEnd(d, x) == Lo(p, x, y)
  {
    Ends(p, x, y);
    if exists s: nat :: Covers(d, s, x) {
      var s: nat :| Covers(d, s, x) && s == LeftEnd(d, x);
      var j :| IsRegion(p, j, s, d.regions[s]);
      assert Meets(p[j], x, y);
    }
    if Lo(p, x, y) != x {
      var j :| 0 <= j < |p| && Meets(p[j], x, y) && p[j].index == Lo(p, x, y);
      assert Covers(d, p[j].index, x);
      OneCover(p, d, LeftEnd(d, x), p[j].index, x);
    }
  }

  lemma RightStands(p: seq<Op>, d: Doc, x: nat, y: nat)
    requires Stands(p, d) && x <= y
    ensures RightEnd(d, y) == Hi(p, x, y)
  {
    Ends(p, x, y);
    if exists s: nat :: Covers(d, s, y) {
      var s: nat :| Covers(d, s, y) && d.regions[s].last == RightEnd(d, y);
      var j :| IsRegion(p, j, s, d.regions[s]);
      assert Meets(p[j], x, y);
    }
    if Hi(p, x, y) != y {
      var j :| 0 <= j < |p| && Meets(p[j], x, y) && p[j].last == Hi(p, x, y);
      assert Covers(d, p[j].index, y);
      var s: nat :| Covers(d, s, y) && d.regions[s].last == RightEnd(d, y);
      OneCover(p, d, s, p[j].index, y);
    }
  }

  lemma InsertStands(p: seq<Op>, d: Doc, i: nat, text: string)
    requires Stands(p, d)
    ensures Apply(d, Insert(i, text)).Ok? && Stands(p + [Insert(i, text)], Apply(d, Insert(i, text)).value)
  {
    var q, e := p + [Insert(i, text)], Apply(d, Insert(i, text)).value;
    assert q[..|p|] == p;
    TextStands(p, d, i);
    forall s: nat | s in e.regions ensures exists j :: IsRegion(q, j, s, e.regions[s]) {
      var j :| IsRegion(p, j, s, d.regions[s]);
      assert IsRegion(q, j, s, e.regions[s]);
    }
  }

  // The program after a step with a replacement, and what has become of its parts.
  lemma ReplaceStands(p: seq<Op>, d: Doc, x: nat, y: nat, text: string)
    requires Stands(p, d) && x <= y
    ensures match Apply(d, Replace(x, y, text))
            case Err(e) => ReplaceStep(p, Replace(x, y, text)) == Err(e)
            case Ok(e) =>
                ReplaceStep(p, Replace(x, y, text)).Ok? && Stands(ReplaceStep(p, Replace(x, y, text)).value, e)
  {
    var w := Wiped(p, x, y);
    var t := Gathered(p, x) + text;
    TextStands(p, d, x);
    RangeStands(p, d, x, y, t);
    SameReplaces(p, w, x, y, t);
    DropPriorIs(w, x, y, t);
    if !Blocked(p, x, y, t) {
      GrownStands(p, d, x, y, text);
    }
  }

  lemma {:induction false} SameReplaces(p: seq<Op>, w: seq<Op>, x: nat, y: nat, text: string)
    requires |p| == |w| && forall j :: 0 <= j < |p| ==> if p[j].Insert? then !w[j].Replace? else w[j] == p[j]
    ensures Lo(w, x, y) == Lo(p, x, y) && Hi(w, x, y) == Hi(p, x, y)
        && (Blocked(w, x, y, text) <==> Blocked(p, x, y, text))
    ensures Separate(p) ==> Separate(w)
    decreases |p|
  {
    if p != [] {
      SameReplaces(p[..|p| - 1], w[..|p| - 1], x, y, text);
      BlockedLast(p, x, y, text);
      BlockedLast(w, x, y, text);
    }
  }

  lemma GrownStands(p: seq<Op>, d: Doc, x: nat, y: nat, text: string)
    requires Stands(p, d) && x <= y && Apply(d, Replace(x, y, text)).Ok?
    ensures Stands(Dropped(Wiped(p, x, y), x, y) + [Replace(Lo(p, x, y), Hi(p, x, y), Gathered(p, x) + text)],
        Apply(d, Replace(x, y, text)).value)
  {
    var w, r := Wiped(p, x, y), Replace(Lo(p, x, y), Hi(p, x, y), Gathered(p, x) + text);
    var q, e := Dropped(w, x, y) + [r], Apply(d, Replace(x, y, text)).value;
    Ends(p, x, y);
    TextStands(p, d, x);
    EndStands(p, d, x, y);
    GrownSeparate(p, x, y, r.text);
    forall i: nat ensures i in e.ins <==> HasInsert(q, i) {
      GrownInsert(p, x, y, r.text, i);
    }
    forall i: nat | i in e.ins ensures e.ins[i] == Ins(Gathered(q, i), Latest(q, i)) {
      GrownInsert(p, x, y, r.text, i);
    }
    GrownRegions(p, d, x, y, text);
    GrownFrom(p, d, x, y, text);
  }

  lemma GrownRegions(p: seq<Op>, d: Doc, x: nat, y: nat, text: string)
    requires Stands(p, d) && x <= y && Apply(d, Replace(x, y, text)).Ok?
    ensures var q, e := Grown(p, x, y, Gathered(p, x) + text), Apply(d, Replace(x, y, text)).value;
            forall j :: 0 <= j < |q| && q[j].Replace? ==>
                q[j].index in e.regions && e.regions[q[j].index] == Region(q[j].last, q[j].text)
  {
    var q, e := Grown(p, x, y, Gathered(p, x) + text), Apply(d, Replace(x, y, text)).value;
    TextStands(p, d, x);
    EndStands(p, d, x, y);
    GrownSeparate(p, x, y, Gathered(p, x) + text);
    forall j | 0 <= j < |q| && q[j].Replace? ensures q[j].index in e.regions
        && e.regions[q[j].index] == Region(q[j].last, q[j].text) {
      if j < |p| {
        assert q[j] == p[j] && !Meets(p[j], x, y);
        assert !Touches(d, p[j].index, x, y);
        assert Ordered(q[j]) && Ordered(q[|p|]) && Disjoint(q[j], q[|p|]);
      }
    }
  }

  lemma GrownFrom(p: seq<Op>, d: Doc, x: nat, y: nat, text: string)
    requires Stands(p, d) && x <= y && Apply(d, Replace(x, y, text)).Ok?
    ensures var q, e := Grown(p, x, y, Gathered(p, x) + text), Apply(d, Replace(x, y, text)).value;
            forall s: nat :: s in e.regions ==> exists j :: IsRegion(q, j, s, e.regions[s])
  {
    var q, e := Grown(p, x, y, Gathered(p, x) + text), Apply(d, Replace(x, y, text)).value;
    TextStands(p, d, x);
    EndStands(p, d, x, y);
    forall s: nat | s in e.regions ensures exists j :: IsRegion(q, j, s, e.regions[s]) {
      if s == Lo(p, x, y) {
        assert IsRegion(q, |p|, s, e.regions[s]);
      } else {
        var j :| IsRegion(p, j, s, d.regions[s]);
        assert IsRegion(q, j, s, e.regions[s]);
      }
    }
  }

  ghost function Grown(p: seq<Op>, x: nat, y: nat, text: string): seq<Op> {
    Dropped(Wiped(p, x, y), x, y) + [Replace(Lo(p, x, y), Hi(p, x, y), text)]
  }

  lemma GrownSeparate(p: seq<Op>, x: nat, y: nat, text: string)
    requires Separate(p) && x <= y
    ensures Separate(Grown(p, x, y, text))
  {
    var q, n := Grown(p, x, y, text), |p|;
    Ends(p, x, y);
    forall i | 0 <= i < n && q[i].Replace? ensures Disjoint(q[i], q[n]) {
      assert q[i] == p[i] && !Meets(p[i], x, y);
      if Lo(p, x, y) != x {
        var j :| 0 <= j < |p| && Meets(p[j], x, y) && p[j].index == Lo(p, x, y);
        assert (i < j ==> Disjoint(p[i], p[j])) && (j < i ==> Disjoint(p[j], p[i]));
      }
      if Hi(p, x, y) != y {
        var j :| 0 <= j < |p| && Meets(p[j], x, y) && p[j].last == Hi(p, x, y);
        assert (i < j ==> Disjoint(p[i], p[j])) && (j < i ==> Disjoint(p[j], p[i]));
      }
    }
    forall i, j | 0 <= i < j < |q| && q[i].Replace? && q[j].Replace? ensures Disjoint(q[i], q[j]) {
      if j < n {
        assert q[i] == p[i] && q[j] == p[j];
      }
    }
  }

  // The insertion before token i after the step.
  lemma GrownInsert(p: seq<Op>, x: nat, y: nat, text: string, i: nat)
    requires x <= y
    ensures var q := Grown(p, x, y, text);
            && (HasInsert(q, i) <==> HasInsert(p, i) && !InRange(i, x, y))
            && (!InRange(i, x, y) ==>
                && Gathered(q, i) == Gathered(p, i)
                && (Latest(q, i) <==> Latest(p, i) && !InRange(i, Lo(p, x, y), Hi(p, x, y))))
  {
    var w := Wiped(p, x, y);
    var q, n := Grown(p, x, y, text), |p|;
    assert q[..n] == Dropped(w, x, y);
    GatheredWiped(p, x, y, i);
    GatheredDropped(w, x, y, i);
    Ends(p, x, y);
    if !InRange(i, Lo(p, x, y), Hi(p, x, y)) {
      forall j | 0 <= j < |w| && Meets(w[j], x, y) ensures !InRange(i, w[j].index, w[j].last) {
        assert w[j] == p[j];
      }
    }
  }

  // The replace walk fails exactly when the program has no meaning, and else leaves a program
  // that stands for the document it means.
  lemma {:induction false} WalkMeans(p: seq<Op>)
    requires OrderedAll(p)
    ensures match Meaning(p)
            case Err(e) => WalkReplaces(p) == Err(e)
            case Ok(d) => WalkReplaces(p).Ok? && Stands(WalkReplaces(p).value, d)
    decreases |p|
  {
    if p != [] {
      var n := |p| - 1;
      WalkMeans(p[..n]);
      match Meaning(p[..n])
      case Err(_) =>
      case Ok(d) =>
        var q := WalkReplaces(p[..n]).value;
        match p[n]
        case Gone => GoneStands(q, d);
        case Insert(i, text) => InsertStands(q, d, i, text);
        case Replace(x, y, text) =>
          assert Ordered(p[n]);
          ReplaceStands(q, d, x, y, text);
    }
  }

  lemma GoneStands(p: seq<Op>, d: Doc)
    requires Stands(p, d)
    ensures Stands(p + [Gone], d)
  {
    var q := p + [Gone];
    assert q[..|p|] == p;
    forall s: nat | s in d.regions ensures exists j :: IsRegion(q, j, s, d.regions[s]) {
      var j :| IsRegion(p, j, s, d.regions[s]);
      assert IsRegion(q, j, s, d.regions[s]);
    }
  }
}
