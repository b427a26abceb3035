// The insert walk and the final map give the operations the document stands for.
module InsertWalk {
  import opened Edits
  import opened EditMeaning
  import opened ReplaceWalk

  ghost predicate StartsAt(q: seq<Op>, i: nat) {
    exists j :: 0 <= j < |q| && q[j].Replace? && q[j].index == i
  }

  ghost predicate CoversPast(o: Op, i: nat) {
    o.Replace? && InRange(i, o.index, o.last) && i != o.index
  }

  ghost predicate CoveredPast(q: seq<Op>, i: nat) {
    exists j :: 0 <= j < |q| && CoversPast(q[j], i)
  }

  ghost predicate Trespass(q: seq<Op>) {
    exists i: nat :: HasInsert(q, i) && Latest(q, i) && CoveredPast(q, i)
  }

  ghost predicate OneInsert(r: seq<Op>) {
    forall j, k :: 0 <= j < k < |r| && r[j].Insert? && r[k].Insert? ==> r[j].index != r[k].index
  }

  // The text a replacement at s takes over from the insertions after it.
  ghost function TakenOver(q: seq<Op>, s: nat): string {
    if HasInsert(q, s) && Latest(q, s) then Gathered(q, s) else ""
  }

  // Replacements keep their places and take over the insertions after them.
  ghost predicate SettledReplaces(q: seq<Op>, r: seq<Op>) {
    && |r| == |q|
    && (forall j :: 0 <= j < |q| ==> (q[j].Replace? <==> r[j].Replace?))
    && (forall j ::
        0 <= j < |q| && q[j].Replace? ==> r[j] == Replace(q[j].index, q[j].last, TakenOver(q, q[j].index) + q[j].text))
  }

  ghost predicate KeepsInsert(q: seq<Op>, i: nat) {
    HasInsert(q, i) && !(StartsAt(q, i) && Latest(q, i))
  }

  // The other insertions are joined, one for an index.
  ghost predicate SettledInserts(q: seq<Op>, r: seq<Op>) {
    && OneInsert(r)
    && forall i: nat :: (HasInsert(r, i) <==> KeepsInsert(q, i))
        && (HasInsert(r, i) ==> Gathered(r, i) == Gathered(q, i))
  }

  // r is what the insert walk makes of q.
  ghost predicate Settled(q: seq<Op>, r: seq<Op>) {
    SettledReplaces(q, r) && SettledInserts(q, r)
  }

  lemma {:induction false} InsertAt(r: seq<Op>, i: nat)
    ensures HasInsert(r, i) <==> exists j :: 0 <= j < |r| && r[j].Insert? && r[j].index == i
    decreases |r|
  {
    if r != [] {
      var n := |r| - 1;
      InsertAt(r[..n], i);
      if HasInsert(r[..n], i) {
        var j :| 0 <= j < n && r[..n][j].Insert? && r[..n][j].index == i;
        assert r[j] == r[..n][j];
      }
      if j :| 0 <= j < |r| && r[j].Insert? && r[j].index == i {
        assert j < n ==> r[..n][j] == r[j];
      }
    }
  }

  // With one insertion an index at most, the order of the texts does not matter.
  lemma {:induction false} PriorIsGathered(r: seq<Op>, i: nat)
    requires OneInsert(r)
    ensures PriorText(r, i) == Gathered(r, i)
    decreases |r|
  {
    if r != [] {
      var n := |r| - 1;
      PriorIsGathered(r[..n], i);
      if r[n].Insert? && r[n].index == i {
        InsertAt(r[..n], i);
        NoneGathered(r[..n], i);
      }
    }
  }

  function Attached(r: seq<Op>, i: nat, text: string): (s: seq<Op>)
    ensures |s| == |r|
    ensures forall j :: 0 <= j < |r| ==> s[j] == if r[j].Replace? && r[j].index == i
        then Replace(i, r[j].last, text + r[j].text) else r[j]
  {
    seq(|r|, j requires 0 <= j < |r| => if r[j].Replace? && r[j].index == i then Replace(i, r[j].last, text + r[j].text)
        else r[j])
  }

  // The second loop of the insert walk in closed form.
  lemma {:induction false} AttachPriorIs(r: seq<Op>, i: nat, text: string)
    ensures CoveredPast(r, i) ==> AttachPrior(r, Insert(i, text)) == Err(InsertInside)
    ensures !CoveredPast(r, i) ==> AttachPrior(r, Insert(i, text)) == Ok((Attached(r, i, text), StartsAt(r, i)))
    decreases |r|
  {
    if r != [] {
      var n := |r| - 1;
      var pre := r[..n];
      AttachPriorIs(pre, i, text);
      CoveredLast(r, i);
      StartsLast(r, i);
      assert Attached(r, i, text) == Attached(pre, i, text) + [if r[n].Replace?
          && r[n].index == i then Replace(i, r[n].last, text + r[n].text) else r[n]];
    }
  }

  lemma CoveredLast(r: seq<Op>, i: nat)
    requires r != []
    ensures CoveredPast(r, i) <==> CoveredPast(r[..|r| - 1], i) || CoversPast(r[|r| - 1], i)
  {
    var pre := r[..|r| - 1];
    if CoveredPast(pre, i) {
      var j :| 0 <= j < |pre| && CoversPast(pre[j], i);
      assert CoversPast(r[j], i);
    }
    if CoveredPast(r, i) && !CoversPast(r[|r| - 1], i) {
      var j :| 0 <= j < |r| && CoversPast(r[j], i);
      assert CoversPast(pre[j], i);
    }
  }

  lemma StartsLast(r: seq<Op>, i: nat)
    requires r != []
    ensures StartsAt(r, i) <==> StartsAt(r[..|r| - 1], i) || (r[|r| - 1].Replace? && r[|r| - 1].index == i)
  {
    var pre := r[..|r| - 1];
    if StartsAt(pre, i) {
      var j :| 0 <= j < |pre| && pre[j].Replace? && pre[j].index == i;
      assert r[j] == pre[j];
    }
    if StartsAt(r, i) && !(r[|r| - 1].Replace? && r[|r| - 1].index == i) {
      var j :| 0 <= j < |r| && r[j].Replace? && r[j].index == i;
      assert pre[j] == r[j];
    }
  }

  // Nothing in the front of q reaches into a replacement at its end.
  lemma ApartFromLast(q: seq<Op>, i: nat)
    requires q != [] && Separate(q) && q[|q| - 1].Replace? && InRange(i, q[|q| - 1].index, q[|q| - 1].last)
    ensures !StartsAt(q[..|q| - 1], i) && !CoveredPast(q[..|q| - 1], i)
  {
    var n := |q| - 1;
    forall j | 0 <= j < n && q[j].Replace? ensures !InRange(i, q[j].index, q[j].last) && q[j].index != i {
      assert Disjoint(q[j], q[n]) && Ordered(q[j]);
    }
    forall j | 0 <= j < n ensures !(q[..n][j].Replace? && q[..n][j].index == i) && !CoversPast(q[..n][j], i) {
      assert q[..n][j] == q[j];
    }
  }

  lemma OtherReplaces(q: seq<Op>, r: seq<Op>)
    requires q != [] && Separate(q) && SettledReplaces(q[..|q| - 1], r) && !q[|q| - 1].Insert?
    ensures SettledReplaces(q, r + [q[|q| - 1]])
  {
    var n := |q| - 1;
    var o, s := q[n], r + [q[n]];
    forall j | 0 <= j < |q|
      ensures (q[j].Replace? <==> s[j].Replace?) && (q[j].Replace?
          ==> s[j] == Replace(q[j].index, q[j].last, TakenOver(q, q[j].index) + q[j].text))
    {
      if j < n {
        assert q[..n][j] == q[j];
        if q[j].Replace? && o.Replace? {
          assert Disjoint(q[j], o) && Ordered(q[j]);
        }
        assert q[j].Replace? ==> TakenOver(q, q[j].index) == TakenOver(q[..n], q[j].index);
      } else {
        assert Ordered(q[n]);
      }
    }
  }

  lemma OtherInserts(q: seq<Op>, r: seq<Op>)
    requires q != [] && Separate(q) && SettledInserts(q[..|q| - 1], r) && !q[|q| - 1].Insert?
    ensures SettledInserts(q, r + [q[|q| - 1]])
  {
    var n := |q| - 1;
    var o, s := q[n], r + [q[n]];
    assert s[..|r|] == r;
    forall i: nat ensures (HasInsert(s, i) <==> KeepsInsert(q, i))
        && (HasInsert(s, i) ==> Gathered(s, i) == Gathered(q, i)) {
      StartsLast(q, i);
      if o.Replace? && InRange(i, o.index, o.last) {
        ApartFromLast(q, i);
      }
      assert HasInsert(r, i) <==> KeepsInsert(q[..n], i);
      assert o.Replace? ==> Ordered(q[n]);
    }
  }

  // The step with an insertion, as its two loops put it.
  ghost function Joined(r: seq<Op>, i: nat, text: string): seq<Op> {
    var t := text + Gathered(r, i);
    Attached(Wiped(r, i, i), i, t) + [if StartsAt(r, i) then Gone else Insert(i, t)]
  }

  lemma InsertStepIs(r: seq<Op>, i: nat, text: string)
    requires OneInsert(r)
    ensures InsertStep(r, Insert(i, text)) == if CoveredPast(r, i) then Err(InsertInside) else Ok(Joined(r, i, text))
  {
    PriorIsGathered(r, i);
    var w := Wiped(r, i, i);
    AttachPriorIs(w, i, text + Gathered(r, i));
    if CoveredPast(r, i) {
      var j :| 0 <= j < |r| && CoversPast(r[j], i);
      assert CoversPast(w[j], i);
    }
    if CoveredPast(w, i) {
      var j :| 0 <= j < |w| && CoversPast(w[j], i);
      assert CoversPast(r[j], i);
    }
    if StartsAt(r, i) {
      var j :| 0 <= j < |r| && r[j].Replace? && r[j].index == i;
      assert w[j] == r[j];
    }
    if StartsAt(w, i) {
      var j :| 0 <= j < |w| && w[j].Replace? && w[j].index == i;
      assert w[j] == r[j];
    }
  }

  // The replacement at i has what was joined before, and now this.
  lemma JoinedReplaces(q: seq<Op>, r: seq<Op>, i: nat, text: string)
    requires Settled(q, r)
    ensures SettledReplaces(q + [Insert(i, text)], Joined(r, i, text))
  {
    var p, s := q + [Insert(i, text)], Joined(r, i, text);
    forall j | 0 <= j < |p|
      ensures (p[j].Replace? <==> s[j].Replace?) && (p[j].Replace?
          ==> s[j] == Replace(p[j].index, p[j].last, TakenOver(p, p[j].index) + p[j].text))
    {
      if j < |q| && q[j].Replace? {
        TakenNext(q, r, j, i, text);
        assert p[j] == q[j];
      }
    }
  }

  // What the replacement at j has taken over after one insertion more.
  lemma TakenNext(q: seq<Op>, r: seq<Op>, j: nat, i: nat, text: string)
    requires Settled(q, r) && j < |q| && q[j].Replace?
    ensures |Joined(r, i, text)| == |q| + 1
    ensures Joined(r, i, text)[j] == Replace(q[j].index, q[j].last,
        TakenOver(q + [Insert(i, text)], q[j].index) + q[j].text)
  {
    var p := q + [Insert(i, text)];
    assert p[..|q|] == q;
    assert Joined(r, i, text)[j] == Attached(Wiped(r, i, i), i, text + Gathered(r, i))[j];
    if q[j].index == i {
      assert StartsAt(q, i);
      TakenHere(q, r, i, text);
      assert TakenOver(p, i) == text + Gathered(q, i);
      Regroup(text, Gathered(r, i), TakenOver(q, i), q[j].text);
    }
  }

  // What an insertion at a replacement finds is in the replacement already, or still before it.
  lemma TakenHere(q: seq<Op>, r: seq<Op>, i: nat, text: string)
    requires Settled(q, r) && StartsAt(q, i)
    ensures Gathered(r, i) + TakenOver(q, i) == Gathered(q, i)
  {
    assert HasInsert(r, i) <==> KeepsInsert(q, i);
    if !HasInsert(r, i) {
      NoneGathered(r, i);
    }
    if !HasInsert(q, i) {
      NoneGathered(q, i);
    }
  }

  lemma Regroup(a: string, b: string, c: string, d: string)
    ensures (a + b) + (c + d) == (a + (b + c)) + d
  {}

  lemma JoinedInserts(q: seq<Op>, r: seq<Op>, i: nat, text: string)
    requires Settled(q, r)
    ensures SettledInserts(q + [Insert(i, text)], Joined(r, i, text))
  {
    var p, s := q + [Insert(i, text)], Joined(r, i, text);
    forall k: nat ensures (HasInsert(s, k) <==> KeepsInsert(p, k))
        && (HasInsert(s, k) ==> Gathered(s, k) == Gathered(p, k)) {
      if k == i {
        JoinedHere(q, r, i, text);
      } else {
        JoinedElsewhere(q, r, i, text, k);
      }
    }
  }

  lemma JoinedHere(q: seq<Op>, r: seq<Op>, i: nat, text: string)
    requires Settled(q, r)
    ensures var p, s := q + [Insert(i, text)], Joined(r, i, text);
            (HasInsert(s, i) <==> KeepsInsert(p, i)) && (HasInsert(s, i) ==> Gathered(s, i) == Gathered(p, i))
  {
    var p := q + [Insert(i, text)];
    assert p[..|q|] == q;
    StartsSame(q, r, i);
    JoinedAt(r, i, text, i);
    StartsLast(p, i);
    assert HasInsert(r, i) <==> KeepsInsert(q, i);
    if !HasInsert(q, i) {
      NoneGathered(q, i);
    }
    if !HasInsert(r, i) {
      NoneGathered(r, i);
    }
  }

  lemma JoinedElsewhere(q: seq<Op>, r: seq<Op>, i: nat, text: string, k: nat)
    requires Settled(q, r) && k != i
    ensures var p, s := q + [Insert(i, text)], Joined(r, i, text);
            (HasInsert(s, k) <==> KeepsInsert(p, k)) && (HasInsert(s, k) ==> Gathered(s, k) == Gathered(p, k))
  {
    var p := q + [Insert(i, text)];
    assert p[..|q|] == q;
    JoinedAt(r, i, text, k);
    StartsLast(p, k);
    assert HasInsert(r, k) <==> KeepsInsert(q, k);
    assert "" + Gathered(q, k) == Gathered(q, k);
  }

  lemma StartsSame(q: seq<Op>, r: seq<Op>, i: nat)
    requires SettledReplaces(q, r)
    ensures StartsAt(r, i) <==> StartsAt(q, i)
  {
    if StartsAt(q, i) {
      var j :| 0 <= j < |q| && q[j].Replace? && q[j].index == i;
      assert r[j].Replace? && r[j].index == i;
    }
  }

  lemma {:induction false} AttachedAt(r: seq<Op>, i: nat, text: string, k: nat)
    ensures HasInsert(Attached(r, i, text), k) == HasInsert(r, k) && Gathered(Attached(r, i, text), k) == Gathered(r, k)
    decreases |r|
  {
    if r != [] {
      AttachedAt(r[..|r| - 1], i, text, k);
      assert Attached(r, i, text)[..|r| - 1] == Attached(r[..|r| - 1], i, text);
    }
  }

  lemma JoinedAt(r: seq<Op>, i: nat, text: string, k: nat)
    ensures var s := Joined(r, i, text);
            && (HasInsert(s, k) <==> if k == i then !StartsAt(r, i) else HasInsert(r, k))
            && (HasInsert(s, k) ==> Gathered(s, k) == if k == i then text + Gathered(r, i) else Gathered(r, k))
  {
    var t, w, s := text + Gathered(r, i), Wiped(r, i, i), Joined(r, i, text);
    assert s[..|r|] == Attached(w, i, t);
    AttachedAt(w, i, t, k);
    GatheredWiped(r, i, i, k);
    if k == i {
      NoneGathered(w, i);
      assert Gathered(s, i) == (if StartsAt(r, i) then "" else t) + "";
    }
  }

  lemma TrespassLast(q: seq<Op>)
    requires q != [] && Separate(q)
    ensures Trespass(q) <==>
        Trespass(q[..|q| - 1]) || (q[|q| - 1].Insert? && CoveredPast(q[..|q| - 1], q[|q| - 1].index))
  {
    var pre, o := q[..|q| - 1], q[|q| - 1];
    forall i: nat ensures HasInsert(q, i) && Latest(q, i) && CoveredPast(q, i) <==>
        (HasInsert(pre, i) && Latest(pre, i) && CoveredPast(pre, i))
            || (o.Insert? && o.index == i && CoveredPast(pre, i))
    {
      CoveredLast(q, i);
      if o.Replace? && InRange(i, o.index, o.last) {
        ApartFromLast(q, i);
      }
    }
  }

  lemma SameCovered(q: seq<Op>, r: seq<Op>, i: nat)
    requires SettledReplaces(q, r)
    ensures CoveredPast(q, i) <==> CoveredPast(r, i)
  {
    if CoveredPast(q, i) {
      var j :| 0 <= j < |q| && CoversPast(q[j], i);
      assert CoversPast(r[j], i);
    }
    if CoveredPast(r, i) {
      var j :| 0 <= j < |r| && CoversPast(r[j], i);
      assert CoversPast(q[j], i);
    }
  }

  // The step with one insertion more.
  lemma JoinedSettles(q: seq<Op>, r: seq<Op>, i: nat, text: string)
    requires Settled(q, r)
    ensures InsertStep(r, Insert(i, text)) == if CoveredPast(q, i) then Err(InsertInside) else Ok(Joined(r, i, text))
    ensures Settled(q + [Insert(i, text)], Joined(r, i, text))
  {
    InsertStepIs(r, i, text);
    SameCovered(q, r, i);
    JoinedReplaces(q, r, i, text);
    JoinedInserts(q, r, i, text);
  }

  // The insert walk fails exactly when an insertion came after a replacement that covers it past
  // its first token, and else joins insertions and gives them to replacements.
  lemma {:induction false} InsertWalkIs(q: seq<Op>)
    requires Separate(q)
    ensures if Trespass(q) then WalkInserts(q) == Err(InsertInside)
            else WalkInserts(q).Ok? && Settled(q, WalkInserts(q).value)
    decreases |q|
  {
    if q != [] {
      InsertWalkIs(q[..|q| - 1]);
      TrespassLast(q);
      if !Trespass(q[..|q| - 1]) {
        InsertWalkNext(q, WalkInserts(q[..|q| - 1]).value);
      }
    }
  }

  lemma InsertWalkNext(q: seq<Op>, r: seq<Op>)
    requires q != [] && Separate(q) && Settled(q[..|q| - 1], r)
    ensures var pre, o := q[..|q| - 1], q[|q| - 1];
            if o.Insert? && CoveredPast(pre, o.index) then InsertStep(r, o) == Err(InsertInside)
            else InsertStep(r, o).Ok? && Settled(q, InsertStep(r, o).value)
  {
    var pre, o := q[..|q| - 1], q[|q| - 1];
    if o.Insert? {
      JoinedSettles(pre, r, o.index, o.text);
      assert q == pre + [o];
    } else {
      OtherReplaces(q, r);
      OtherInserts(q, r);
    }
  }

  ghost predicate Clash(r: seq<Op>) {
    exists j, k :: 0 <= j < k < |r| && !r[j].Gone? && !r[k].Gone? && r[j].index == r[k].index
  }

  ghost predicate IsOp(r: seq<Op>, j: int, i: nat, o: Op) {
    0 <= j < |r| && r[j] == o && !o.Gone? && o.index == i
  }

  ghost predicate Maps(r: seq<Op>, m: map<nat, Op>) {
    && (forall j :: 0 <= j < |r| && !r[j].Gone? ==> r[j].index in m && m[r[j].index] == r[j])
    && (forall i: nat :: i in m ==> exists j :: IsOp(r, j, i, m[i]))
  }

  lemma {:induction false} CollectIs(r: seq<Op>)
    ensures if Clash(r) then Collect(r) == Err(TwoOps) else Collect(r).Ok? && Maps(r, Collect(r).value)
    decreases |r|
  {
    if r != [] {
      var n := |r| - 1;
      var pre, o := r[..n], r[n];
      CollectIs(pre);
      if Clash(pre) {
        var j, k :| 0 <= j < k < n && !pre[j].Gone? && !pre[k].Gone? && pre[j].index == pre[k].index;
        assert r[j] == pre[j] && r[k] == pre[k];
      } else {
        var m := Collect(pre).value;
        if !o.Gone? && o.index in m {
          var j :| IsOp(pre, j, o.index, m[o.index]);
          assert r[j] == pre[j];
        } else {
          CollectNext(r, m);
        }
      }
    }
  }

  lemma CollectNext(r: seq<Op>, m: map<nat, Op>)
    requires r != [] && !Clash(r[..|r| - 1]) && Maps(r[..|r| - 1], m)
    requires r[|r| - 1].Gone? || r[|r| - 1].index !in m
    ensures !Clash(r)
    ensures Maps(r, if r[|r| - 1].Gone? then m else m[r[|r| - 1].index := r[|r| - 1]])
  {
    var n := |r| - 1;
    var pre, o := r[..n], r[n];
    forall j, k | 0 <= j < k < |r| && !r[j].Gone? && !r[k].Gone? ensures r[j].index != r[k].index {
      assert pre[j] == r[j];
      assert k < n ==> pre[k] == r[k];
    }
    var m' := if o.Gone? then m else m[o.index := o];
    forall j | 0 <= j < |r| && !r[j].Gone? ensures r[j].index in m' && m'[r[j].index] == r[j] {
      assert j < n ==> pre[j] == r[j];
    }
    forall i: nat | i in m' ensures exists j :: IsOp(r, j, i, m'[i]) {
      if i in m && (o.Gone? || i != o.index) {
        var j :| IsOp(pre, j, i, m[i]);
        assert IsOp(r, j, i, m'[i]);
      } else {
        assert IsOp(r, n, i, m'[i]);
      }
    }
  }

  lemma StartStands(q: seq<Op>, d: Doc, i: nat)
    requires Stands(q, d)
    ensures StartsAt(q, i) <==> i in d.regions
    ensures CoveredPast(q, i) <==> exists s: nat :: Covers(d, s, i) && i != s
  {
    if i in d.regions {
      var j :| IsRegion(q, j, i, d.regions[i]);
      assert q[j].Replace? && q[j].index == i;
    }
    if CoveredPast(q, i) {
      var j :| 0 <= j < |q| && CoversPast(q[j], i);
      assert Covers(d, q[j].index, i);
    }
    if exists s: nat :: Covers(d, s, i) && i != s {
      var s: nat :| Covers(d, s, i) && i != s;
      var j :| IsRegion(q, j, s, d.regions[s]);
      assert CoversPast(q[j], i);
    }
  }

  lemma TrespassStands(q: seq<Op>, d: Doc)
    requires Stands(q, d)
    ensures Trespass(q) <==> InsertedInside(d)
  {
    if Trespass(q) {
      var i: nat :| HasInsert(q, i) && Latest(q, i) && CoveredPast(q, i);
      StartStands(q, d, i);
      var s: nat :| Covers(d, s, i) && i != s;
      assert i in d.ins && d.ins[i].latest;
    }
    if InsertedInside(d) {
      var i: nat, s: nat :| i in d.ins && d.ins[i].latest && Covers(d, s, i) && i != s;
      StartStands(q, d, i);
      assert HasInsert(q, i) && Latest(q, i) && CoveredPast(q, i);
    }
  }

  lemma DistinctReplaces(q: seq<Op>, r: seq<Op>)
    requires Separate(q) && SettledReplaces(q, r)
    ensures forall j, k :: 0 <= j < k < |r| && r[j].Replace? && r[k].Replace? ==> r[j].index != r[k].index
  {
    forall j, k | 0 <= j < k < |r| && r[j].Replace? && r[k].Replace? ensures r[j].index != r[k].index {
      assert q[j].Replace? && q[k].Replace? && Disjoint(q[j], q[k]) && Ordered(q[j]) && Ordered(q[k]);
    }
  }

  lemma ClashIsStale(q: seq<Op>, d: Doc, r: seq<Op>, j: nat, k: nat)
    requires Stands(q, d) && SettledReplaces(q, r) && SettledInserts(q, r)
    requires j < |r| && k < |r| && r[j].Insert? && r[k].Replace? && r[j].index == r[k].index
    ensures StaleAtStart(d)
  {
    var i := r[j].index;
    InsertAt(r, i);
    assert KeepsInsert(q, i);
    assert q[k].Replace? && q[k].index == i;
    assert StartsAt(q, i);
    StartStands(q, d, i);
    assert i in d.ins && !d.ins[i].latest;
  }

  lemma StaleIsClash(q: seq<Op>, d: Doc, r: seq<Op>, i: nat)
    requires Stands(q, d) && SettledReplaces(q, r) && SettledInserts(q, r)
    requires i in d.ins && !d.ins[i].latest && i in d.regions
    ensures Clash(r)
  {
    assert KeepsInsert(q, i);
    InsertAt(r, i);
    var j :| 0 <= j < |r| && r[j].Insert? && r[j].index == i;
    var k :| IsRegion(q, k, i, d.regions[i]);
    assert r[k].Replace? && r[k].index == i;
    ClashOf(r, j, k);
  }

  lemma ClashOf(r: seq<Op>, j: nat, k: nat)
    requires j < |r| && k < |r| && r[j].Insert? && r[k].Replace? && r[j].index == r[k].index
    ensures Clash(r)
  {
    if k < j {
      assert !r[k].Gone? && !r[j].Gone?;
    }
  }

  // Two operations share an index only where a stale insertion and a replacement do.
  lemma ClashStands(q: seq<Op>, d: Doc, r: seq<Op>)
    requires Stands(q, d) && Settled(q, r)
    ensures Clash(r) <==> StaleAtStart(d)
  {
    if Clash(r) {
      var j, k :| 0 <= j < k < |r| && !r[j].Gone? && !r[k].Gone? && r[j].index == r[k].index;
      DistinctReplaces(q, r);
      if r[j].Insert? {
        ClashIsStale(q, d, r, j, k);
      } else {
        ClashIsStale(q, d, r, k, j);
      }
    }
    if StaleAtStart(d) {
      var i: nat :| i in d.ins && !d.ins[i].latest && i in d.regions;
      StaleIsClash(q, d, r, i);
    }
  }

  lemma {:induction false} OneGathered(r: seq<Op>, j: nat)
    requires OneInsert(r) && j < |r| && r[j].Insert?
    ensures Gathered(r, r[j].index) == r[j].text
    decreases |r|
  {
    var n := |r| - 1;
    if j < n {
      OneGathered(r[..n], j);
    } else {
      InsertAt(r[..n], r[n].index);
      NoneGathered(r[..n], r[n].index);
      assert r[n].text + "" == r[n].text;
    }
  }

  // Without a clash, the map of the walks is that of the document.
  lemma OperationsStand(q: seq<Op>, d: Doc, r: seq<Op>, m: map<nat, Op>)
    requires Stands(q, d) && Settled(q, r) && Maps(r, m) && !StaleAtStart(d)
    ensures m == Operations(d)
  {
    var ops := Operations(d);
    forall i: nat | i in m ensures i in ops && ops[i] == m[i] {
      var j :| IsOp(r, j, i, m[i]);
      OperationAt(q, d, r, j);
    }
    forall i: nat | i in ops ensures i in m {
      OperationFound(q, d, r, i);
    }
  }

  lemma OperationFound(q: seq<Op>, d: Doc, r: seq<Op>, i: nat)
    requires Stands(q, d) && Settled(q, r) && i in Operations(d)
    ensures exists j :: 0 <= j < |r| && !r[j].Gone? && r[j].index == i
  {
    StartStands(q, d, i);
    if i in d.regions {
      var k :| IsRegion(q, k, i, d.regions[i]);
      assert r[k].Replace? && r[k].index == i;
    } else {
      assert KeepsInsert(q, i) && HasInsert(r, i);
      InsertAt(r, i);
    }
  }

  lemma OperationAt(q: seq<Op>, d: Doc, r: seq<Op>, j: nat)
    requires Stands(q, d) && Settled(q, r) && !StaleAtStart(d) && j < |r| && !r[j].Gone?
    ensures r[j].index in Operations(d) && Operations(d)[r[j].index] == r[j]
  {
    var i := r[j].index;
    StartStands(q, d, i);
    TextStands(q, d, i);
    if r[j].Replace? {
      assert q[j].Replace? && q[j].index == i;
      if !HasInsert(q, i) {
        NoneGathered(q, i);
      }
    } else {
      InsertAt(r, i);
      assert HasInsert(r, i) && KeepsInsert(q, i);
      OneGathered(r, j);
    }
  }

  // Reducing a program gives exactly the operations of the document it means, and fails with
  // the error that the meaning predicts.
  lemma {:induction false} ReduceMeans(p: seq<Op>)
    requires OrderedAll(p)
    ensures Reduce(p) ==
            match Meaning(p)
            case Err(e) => Err(e)
            case Ok(d) => Finish(d)
  {
    WalkMeans(p);
    if Meaning(p).Ok? {
      var q, d := WalkReplaces(p).value, Meaning(p).value;
      InsertWalkIs(q);
      TrespassStands(q, d);
      if !Trespass(q) {
        var r := WalkInserts(q).value;
        CollectIs(r);
        ClashStands(q, d, r);
        if !Clash(r) {
          OperationsStand(q, d, r, Collect(r).value);
        }
      }
    }
  }
}
