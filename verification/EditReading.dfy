// Reading the text reduces the program. What a second reading gives, and which later edits notice that
// there was a reading before them.
module EditReading {
  import opened Edits
  import opened EditMeaning
  import opened ReplaceWalk
  import opened InsertWalk
  import opened EditText
  import opened EditPrograms

  // What a reduction leaves when no insertion is stale.
  ghost predicate Tidy(r: seq<Op>) {
    && Separate(r)
    && !Clash(r)
    && forall j, k :: 0 <= j < |r| && 0 <= k < |r| && r[j].Insert? && r[k].Replace?
        ==> !InRange(r[j].index, r[k].index, r[k].last)
  }

  lemma SettledSeparate(q: seq<Op>, r: seq<Op>)
    requires Separate(q) && SettledReplaces(q, r)
    ensures Separate(r)
  {
    forall i, j | 0 <= i < j < |r| && r[i].Replace? && r[j].Replace? ensures Disjoint(r[i], r[j]) {
      assert Disjoint(q[i], q[j]);
    }
    forall i | 0 <= i < |r| ensures Ordered(r[i]) {
      assert Ordered(q[i]);
    }
  }

  lemma TidyFront(r: seq<Op>)
    requires Tidy(r) && r != []
    ensures Tidy(r[..|r| - 1])
  {
    var pre := r[..|r| - 1];
    forall j, k | 0 <= j < k < |pre| && !pre[j].Gone? && !pre[k].Gone? ensures pre[j].index != pre[k].index {
      assert r[j] == pre[j] && r[k] == pre[k];
    }
    forall j, k | 0 <= j < |pre| && 0 <= k < |pre| && pre[j].Insert? && pre[k].Replace?
        ensures !InRange(pre[j].index, pre[k].index, pre[k].last) {
      assert r[j] == pre[j] && r[k] == pre[k];
    }
  }

  // Nothing before the last operation of a tidy program is at its index, or in its range.
  lemma TidyLast(r: seq<Op>)
    requires Tidy(r) && r != [] && !r[|r| - 1].Gone?
    ensures !HasInsert(r[..|r| - 1], r[|r| - 1].index) && Gathered(r[..|r| - 1], r[|r| - 1].index) == ""
    ensures forall j :: 0 <= j < |r| - 1 && !r[j].Gone? ==> r[j].index != r[|r| - 1].index
  {
    var n := |r| - 1;
    var pre, o := r[..n], r[n];
    InsertAt(pre, o.index);
    forall j | 0 <= j < |pre| ensures !(pre[j].Insert? && pre[j].index == o.index) {
      assert r[j] == pre[j];
    }
    NoneGathered(pre, o.index);
  }

  lemma TidyApart(r: seq<Op>, j: nat)
    requires Tidy(r) && r != [] && r[|r| - 1].Replace? && j < |r| - 1
    ensures var o := r[|r| - 1];
        !Meets(r[j], o.index, o.last) && !(r[j].Insert? && InRange(r[j].index, o.index, o.last))
  {
    var n := |r| - 1;
    assert Ordered(r[n]);
    assert r[j].Replace? ==> Disjoint(r[j], r[n]) && Ordered(r[j]);
  }

  // A replacement that meets no other drops none.
  lemma {:induction false} DropsNone(p: seq<Op>, o: Op)
    requires OrderedAll(p) && o.Replace? && forall j :: 0 <= j < |p| ==> !Meets(p[j], o.index, o.last)
    ensures DropPrior(p, o) == Ok((p, o))
    decreases |p|
  {
    if p != [] {
      var n := |p| - 1;
      DropsNone(p[..n], o);
      assert Ordered(p[n]) && !Meets(p[n], o.index, o.last);
      assert p[..n] + [p[n]] == p;
    }
  }

  lemma TidyReplace(r: seq<Op>)
    requires Tidy(r) && r != [] && r[|r| - 1].Replace?
    ensures ReplaceStep(r[..|r| - 1], r[|r| - 1]) == Ok(r)
  {
    var n := |r| - 1;
    var pre, o := r[..n], r[n];
    TidyFront(r);
    TidyLast(r);
    forall j | 0 <= j < n ensures !Meets(pre[j], o.index, o.last)
        && !(pre[j].Insert? && InRange(pre[j].index, o.index, o.last)) {
      TidyApart(r, j);
      assert pre[j] == r[j];
    }
    assert Wiped(pre, o.index, o.last) == pre;
    DropsNone(pre, o);
    assert "" + o.text == o.text;
    assert pre + [o] == r;
  }

  lemma TidyInsert(r: seq<Op>)
    requires Tidy(r) && r != [] && r[|r| - 1].Insert?
    ensures InsertStep(r[..|r| - 1], r[|r| - 1]) == Ok(r)
  {
    var n := |r| - 1;
    var pre, o := r[..n], r[n];
    TidyFront(r);
    TidyLast(r);
    InsertStepIs(pre, o.index, o.text);
    forall j | 0 <= j < n ensures !CoversPast(pre[j], o.index) && !(pre[j].Replace? && pre[j].index == o.index) {
      assert pre[j] == r[j];
    }
    assert o.text + "" == o.text;
    assert Wiped(pre, o.index, o.index) == pre by {
      forall j | 0 <= j < n ensures Wiped(pre, o.index, o.index)[j] == pre[j] {
        assert pre[j] == r[j];
      }
    }
    assert Attached(pre, o.index, o.text) == pre;
    assert pre + [o] == r;
  }

  lemma {:induction false} TidyFixed(r: seq<Op>)
    requires Tidy(r)
    ensures WalkReplaces(r) == Ok(r) && WalkInserts(r) == Ok(r)
    decreases |r|
  {
    if r != [] {
      var n := |r| - 1;
      TidyFront(r);
      TidyFixed(r[..n]);
      assert r[..n] + [r[n]] == r;
      if r[n].Replace? {
        TidyReplace(r);
      } else if r[n].Insert? {
        TidyInsert(r);
      }
    }
  }

  // The insertion at j is followed by a replacement of its token.
  ghost predicate Overrun(r: seq<Op>, j: nat)
    requires j < |r| && r[j].Insert?
  {
    exists k :: j < k < |r| && r[k].Replace? && InRange(r[j].index, r[k].index, r[k].last)
  }

  // The replace walk on a reduced program: insertions that a later replacement covers go.
  function Swept(r: seq<Op>): (s: seq<Op>)
    ensures |s| == |r|
    ensures forall j :: 0 <= j < |r| && !r[j].Insert? ==> s[j] == r[j]
    ensures forall j :: 0 <= j < |r| && r[j].Insert? ==> s[j] == r[j] || s[j] == Gone
  {
    if r == [] then []
    else
      var pre, o := Swept(r[..|r| - 1]), r[|r| - 1];
      (if o.Replace? then Wiped(pre, o.index, o.last) else pre) + [o]
  }

  lemma {:induction false} SweptAt(r: seq<Op>, j: nat)
    requires j < |r| && r[j].Insert?
    ensures Swept(r)[j] == if Overrun(r, j) then Gone else r[j]
    decreases |r|
  {
    var n := |r| - 1;
    if j < n {
      SweptAt(r[..n], j);
      OverrunLast(r, j);
    }
  }

  lemma OverrunLast(r: seq<Op>, j: nat)
    requires j < |r| - 1 && r[j].Insert?
    ensures Overrun(r, j) <==>
      Overrun(r[..|r| - 1], j) || (r[|r| - 1].Replace? && InRange(r[j].index, r[|r| - 1].index, r[|r| - 1].last))
  {
    var n := |r| - 1;
    if Overrun(r[..n], j) {
      var k :| j < k < n && r[..n][k].Replace? && InRange(r[j].index, r[..n][k].index, r[..n][k].last);
      assert r[k] == r[..n][k];
    }
    if k :| j < k < n && r[k].Replace? && InRange(r[j].index, r[k].index, r[k].last) {
      assert r[..n][k] == r[k];
    }
  }

  // A sweep meets nothing but insertions.
  lemma SweepStep(r: seq<Op>)
    requires r != [] && Separate(r) && !Clash(r) && r[|r| - 1].Replace?
    ensures ReplaceStep(Swept(r[..|r| - 1]), r[|r| - 1]) == Ok(Swept(r))
  {
    var n := |r| - 1;
    var pre, o := Swept(r[..n]), r[n];
    SweptGathers(r);
    SweptApart(r);
    DropsNone(Wiped(pre, o.index, o.last), o);
    assert "" + o.text == o.text;
  }

  lemma SweptGathers(r: seq<Op>)
    requires r != [] && !Clash(r) && r[|r| - 1].Replace?
    ensures Gathered(Swept(r[..|r| - 1]), r[|r| - 1].index) == ""
  {
    var n := |r| - 1;
    var pre, i := Swept(r[..n]), r[n].index;
    forall j | 0 <= j < n ensures !(pre[j].Insert? && pre[j].index == i) {
      assert r[..n][j] == r[j];
    }
    InsertAt(pre, i);
    NoneGathered(pre, i);
  }

  lemma SweptApart(r: seq<Op>)
    requires r != [] && Separate(r) && r[|r| - 1].Replace?
    ensures var o := r[|r| - 1];
            var w := Wiped(Swept(r[..|r| - 1]), o.index, o.last);
            OrderedAll(w) && forall j :: 0 <= j < |w| ==> !Meets(w[j], o.index, o.last)
  {
    var n := |r| - 1;
    var o := r[n];
    var w := Wiped(Swept(r[..n]), o.index, o.last);
    forall j | 0 <= j < n ensures Ordered(w[j]) && !Meets(w[j], o.index, o.last) {
      assert r[..n][j] == r[j] && Ordered(r[j]) && Ordered(r[n]);
      assert r[j].Replace? ==> Disjoint(r[j], r[n]);
    }
  }

  lemma ClashFront(r: seq<Op>)
    requires r != [] && !Clash(r)
    ensures !Clash(r[..|r| - 1])
  {
    var pre := r[..|r| - 1];
    forall j, k | 0 <= j < k < |pre| && !pre[j].Gone? && !pre[k].Gone? ensures pre[j].index != pre[k].index {
      assert r[j] == pre[j] && r[k] == pre[k];
    }
  }

  lemma {:induction false} WalkSwept(r: seq<Op>)
    requires Separate(r) && !Clash(r)
    ensures WalkReplaces(r) == Ok(Swept(r))
    decreases |r|
  {
    if r != [] {
      ClashFront(r);
      WalkSwept(r[..|r| - 1]);
      if r[|r| - 1].Replace? {
        SweepStep(r);
      }
    }
  }

  // No insertion follows a replacement that covers it.
  ghost predicate NeverInside(r: seq<Op>) {
    forall k, j :: 0 <= k < j < |r| && r[k].Replace? && r[j].Insert? ==> !InRange(r[j].index, r[k].index, r[k].last)
  }

  lemma SweptSeparate(r: seq<Op>)
    requires Separate(r) && !Clash(r)
    ensures Separate(Swept(r)) && !Clash(Swept(r))
  {
    var s := Swept(r);
    forall i | 0 <= i < |s| ensures Ordered(s[i]) {
      assert Ordered(r[i]);
    }
    forall i, j | 0 <= i < j < |s| && s[i].Replace? && s[j].Replace? ensures Disjoint(s[i], s[j]) {
      assert s[i] == r[i] && s[j] == r[j];
    }
    forall j, k | 0 <= j < k < |s| && !s[j].Gone? && !s[k].Gone? ensures s[j].index != s[k].index {
      assert s[j] == r[j] && s[k] == r[k];
    }
  }

  lemma SweptOutside(r: seq<Op>, j: nat, k: nat)
    requires NeverInside(r) && !Clash(r) && j < |r| && k < |r| && Swept(r)[j].Insert? && Swept(r)[k].Replace?
    ensures !InRange(Swept(r)[j].index, Swept(r)[k].index, Swept(r)[k].last)
  {
    assert Swept(r)[j] == r[j] && Swept(r)[k] == r[k];
    SweptAt(r, j);
    InRangeOverruns(r, j, k);
  }

  lemma InRangeOverruns(r: seq<Op>, j: nat, k: nat)
    requires NeverInside(r) && j < |r| && k < |r| && r[j].Insert? && r[k].Replace? && !Overrun(r, j)
    ensures !InRange(r[j].index, r[k].index, r[k].last)
  {
    if j < k {
      assert Overrun(r, j) || !InRange(r[j].index, r[k].index, r[k].last);
    }
  }

  lemma SweptTidy(r: seq<Op>)
    requires Separate(r) && !Clash(r) && NeverInside(r)
    ensures Tidy(Swept(r))
  {
    SweptSeparate(r);
    var s := Swept(r);
    forall j, k | 0 <= j < |s| && 0 <= k < |s| && s[j].Insert? && s[k].Replace?
      ensures !InRange(s[j].index, s[k].index, s[k].last)
    {
      SweptOutside(r, j, k);
    }
  }

  lemma {:induction false} AttachedLatest(r: seq<Op>, i: nat, text: string, k: nat)
    ensures Latest(Attached(r, i, text), k) == Latest(r, k)
    decreases |r|
  {
    if r != [] {
      AttachedLatest(r[..|r| - 1], i, text, k);
      assert Attached(r, i, text)[..|r| - 1] == Attached(r[..|r| - 1], i, text);
    }
  }

  lemma JoinedLatest(r: seq<Op>, i: nat, text: string, k: nat)
    ensures HasInsert(Joined(r, i, text), k) ==> Latest(Joined(r, i, text), k) == (k == i || Latest(r, k))
  {
    var t, w, s := text + Gathered(r, i), Wiped(r, i, i), Joined(r, i, text);
    assert s[..|r|] == Attached(w, i, t);
    AttachedLatest(w, i, t, k);
    GatheredWiped(r, i, i, k);
    JoinedAt(r, i, text, k);
  }

  // The insert walk moves no insertion past a replacement.
  lemma {:induction false} LatestKept(q: seq<Op>, i: nat)
    requires Separate(q) && !Trespass(q) && WalkInserts(q).Ok? && HasInsert(WalkInserts(q).value, i)
    ensures Latest(WalkInserts(q).value, i) == Latest(q, i)
    decreases |q|
  {
    InsertWalkIs(q);
    if q != [] {
      var pre, o := q[..|q| - 1], q[|q| - 1];
      TrespassLast(q);
      InsertWalkIs(pre);
      var r := WalkInserts(pre).value;
      if o.Insert? {
        InsertStepIs(r, o.index, o.text);
        SameCovered(pre, r, o.index);
        JoinedLatest(r, o.index, o.text, i);
        JoinedAt(r, o.index, o.text, i);
        if i != o.index {
          LatestKept(pre, i);
        }
      } else {
        assert (r + [o])[..|r|] == r;
        LatestKept(pre, i);
      }
    }
  }

  // With one insertion at its index, it is the latest word there unless it is overrun.
  lemma {:induction false} LatestAt(r: seq<Op>, j: nat)
    requires OneInsert(r) && j < |r| && r[j].Insert?
    ensures Latest(r, r[j].index) <==> !Overrun(r, j)
    decreases |r|
  {
    var n := |r| - 1;
    if j < n {
      LatestAt(r[..n], j);
      OverrunLast(r, j);
    }
  }

  ghost predicate Stale(d: Doc, i: nat) { i in d.ins && !d.ins[i].latest }

  lemma ReducedOk(p: seq<Op>)
    requires OrderedAll(p) && Reduce(p).Ok?
    ensures Meaning(p).Ok? && Reduced(p).Ok?
    ensures Finish(Meaning(p).value).Ok? && Reduce(p).value == Operations(Meaning(p).value)
  {
    ReduceMeans(p);
  }

  // What a first reading leaves.
  lemma ReducedShape(p: seq<Op>)
    requires OrderedAll(p) && Reduce(p).Ok?
    ensures Meaning(p).Ok? && Reduced(p).Ok? && WalkReplaces(p).Ok?
    ensures !StaleAtStart(Meaning(p).value) && !InsertedInside(Meaning(p).value)
    ensures Stands(WalkReplaces(p).value, Meaning(p).value) && Settled(WalkReplaces(p).value, Reduced(p).value)
    ensures Separate(Reduced(p).value) && !Clash(Reduced(p).value) && Maps(Reduced(p).value, Reduce(p).value)
    ensures Reduce(p).value == Operations(Meaning(p).value)
  {
    WalkMeans(p);
    ReduceMeans(p);
    InsertWalkIs(WalkReplaces(p).value);
    CollectIs(Reduced(p).value);
    SettledSeparate(WalkReplaces(p).value, Reduced(p).value);
  }

  lemma InsertShape(p: seq<Op>, j: nat)
    requires OrderedAll(p) && Reduce(p).Ok? && Reduced(p).Ok? && j < |Reduced(p).value| && Reduced(p).value[j].Insert?
    ensures var i := Reduced(p).value[j].index;
            && Meaning(p).Ok? && i in Meaning(p).value.ins && KeepsInsert(WalkReplaces(p).value, i)
            && (Stale(Meaning(p).value, i) <==> Overrun(Reduced(p).value, j))
  {
    ReducedShape(p);
    var q, r := WalkReplaces(p).value, Reduced(p).value;
    InsertAt(r, r[j].index);
    InsertWalkIs(q);
    LatestKept(q, r[j].index);
    LatestAt(r, j);
  }

  lemma ReducedInside(p: seq<Op>)
    requires OrderedAll(p) && Reduce(p).Ok?
    ensures Reduced(p).Ok? && NeverInside(Reduced(p).value)
  {
    ReducedShape(p);
    var q, d, r := WalkReplaces(p).value, Meaning(p).value, Reduced(p).value;
    forall k, j | 0 <= k < j < |r| && r[k].Replace? && r[j].Insert?
        ensures !InRange(r[j].index, r[k].index, r[k].last) {
      var i := r[j].index;
      InsertShape(p, j);
      StartStands(q, d, i);
      assert q[k].Replace? && q[k].index == r[k].index && q[k].last == r[k].last;
      NotBetween(r, q, d, k, j);
    }
  }

  lemma NotBetween(r: seq<Op>, q: seq<Op>, d: Doc, k: nat, j: nat)
    requires k < j < |r| == |q| && r[j].Insert? && r[k].Replace? && q[k].Replace? && q[k].index == r[k].index
        && q[k].last == r[k].last
    requires Separate(r) && !Clash(r) && r[j].index in d.ins && (Stale(d, r[j].index) <==> Overrun(r, j))
    requires StartsAt(q, r[j].index) ==> r[j].index in d.regions
    requires CoveredPast(q, r[j].index) ==> exists s: nat :: Covers(d, s, r[j].index) && r[j].index != s
    requires !InsertedInside(d)
    ensures !InRange(r[j].index, r[k].index, r[k].last)
  {
    var i := r[j].index;
    assert r[k].index != i;
    assert CoversPast(q[k], i) <==> InRange(i, r[k].index, r[k].last);
    if Overrun(r, j) {
      var l :| j < l < |r| && r[l].Replace? && InRange(i, r[l].index, r[l].last);
      assert Disjoint(r[k], r[l]);
    }
    assert CoveredPast(q, i) ==> Stale(d, i);
  }

  // What a second reading gives, for all programs: the operations of the first, less the insertions that
  // a deletion has grown over. It leaves a program that no further reading changes.
  lemma SecondReading(p: seq<Op>)
    requires OrderedAll(p) && Reduce(p).Ok?
    ensures Reduced(p).Ok? && Meaning(p).Ok?
    ensures Reduced(Reduced(p).value) == Ok(Swept(Reduced(p).value)) && Tidy(Swept(Reduced(p).value))
    ensures Reduce(Reduced(p).value) ==
            Ok(map i | i in Reduce(p).value && !Stale(Meaning(p).value, i) :: Reduce(p).value[i])
  {
    ReducedShape(p);
    ReducedInside(p);
    var d, r, m := Meaning(p).value, Reduced(p).value, Reduce(p).value;
    var s := Swept(r);
    WalkSwept(r);
    SweptTidy(r);
    TidyFixed(s);
    CollectIs(s);
    SecondMap(p, Collect(s).value);
  }

  lemma SecondMap(p: seq<Op>, m2: map<nat, Op>)
    requires OrderedAll(p) && Reduce(p).Ok? && Reduced(p).Ok? && Meaning(p).Ok? && Maps(Swept(Reduced(p).value), m2)
    ensures m2 == map i | i in Reduce(p).value && !Stale(Meaning(p).value, i) :: Reduce(p).value[i]
  {
    ReducedShape(p);
    var d, r := Meaning(p).value, Reduced(p).value;
    forall j | 0 <= j < |r| && !r[j].Gone? ensures Swept(r)[j] == if Stale(d, r[j].index) then Gone else r[j] {
      StaleDropped(p, j);
    }
    MapLess(r, Swept(r), d, Reduce(p).value, m2);
  }

  lemma MapLess(r: seq<Op>, s: seq<Op>, d: Doc, m: map<nat, Op>, m2: map<nat, Op>)
    requires |s| == |r| && Maps(r, m) && Maps(s, m2)
    requires forall j :: 0 <= j < |r| ==> s[j] == if r[j].Gone? || Stale(d, r[j].index) then Gone else r[j]
    ensures m2 == map i | i in m && !Stale(d, i) :: m[i]
  {
    forall i: nat | i in m2 ensures i in m && !Stale(d, i) && m2[i] == m[i] {
      var j :| IsOp(s, j, i, m2[i]);
      assert r[j] == s[j];
    }
    forall i: nat | i in m && !Stale(d, i) ensures i in m2 {
      var j :| IsOp(r, j, i, m[i]);
      assert s[j] == r[j];
    }
  }

  lemma StaleDropped(p: seq<Op>, j: nat)
    requires OrderedAll(p) && Reduce(p).Ok? && Reduced(p).Ok? && Meaning(p).Ok?
    requires j < |Reduced(p).value| && !Reduced(p).value[j].Gone?
    ensures Swept(Reduced(p).value)[j] == if Stale(Meaning(p).value, Reduced(p).value[j].index) then Gone
        else Reduced(p).value[j]
  {
    ReducedShape(p);
    var q, d, r := WalkReplaces(p).value, Meaning(p).value, Reduced(p).value;
    if r[j].Insert? {
      InsertShape(p, j);
      SweptAt(r, j);
    } else {
      assert q[j].Replace? && q[j].index == r[j].index;
    }
  }

  lemma {:induction false} StaleCovered(p: seq<Op>, i: nat)
    requires OrderedAll(p) && Meaning(p).Ok? && Stale(Meaning(p).value, i)
    ensures Covered(Meaning(p).value, i)
    decreases |p|
  {
    var pre, o := p[..|p| - 1], p[|p| - 1];
    var d, e := Meaning(pre).value, Meaning(p).value;
    if o.Replace? {
      assert Ordered(p[|p| - 1]);
      MeaningApart(pre);
      var lo, hi := LeftEnd(d, o.index), RightEnd(d, o.last);
      if InRange(i, lo, hi) {
        assert Covers(e, lo, i);
      } else {
        StaleCovered(pre, i);
        CoverGrows(d, o.index, o.last, o.text, i);
      }
    } else {
      StaleCovered(pre, i);
      var s: nat :| Covers(d, s, i);
      assert Covers(e, s, i);
    }
  }

  // Reading twice in a row is reading once exactly where no insertion is stale.
  lemma ReduceAgain(p: seq<Op>)
    requires OrderedAll(p) && Reduce(p).Ok?
    ensures Reduced(p).Ok? && Meaning(p).Ok?
    ensures Reduce(Reduced(p).value) == Reduce(p) <==> AllLatest(Meaning(p).value)
    ensures Reduced(Reduced(p).value) == Reduced(p) <==> AllLatest(Meaning(p).value)
    ensures DeletesNest(p) ==> AllLatest(Meaning(p).value)
  {
    SecondReading(p);
    if AllLatest(Meaning(p).value) {
      AllLatestSwept(p);
    } else {
      StaleMissed(p);
    }
    if DeletesNest(p) {
      NoneStale(p);
    }
  }

  lemma StaleMissed(p: seq<Op>)
    requires OrderedAll(p) && Reduce(p).Ok? && Meaning(p).Ok? && !AllLatest(Meaning(p).value)
    ensures Reduced(p).Ok? && Reduce(Reduced(p).value) != Reduce(p)
  {
    SecondReading(p);
    ReducedOk(p);
    var d := Meaning(p).value;
    var i :| i in d.ins && !d.ins[i].latest;
    assert Stale(d, i) && i in Operations(d);
    assert i !in Reduce(Reduced(p).value).value;
  }

  lemma AllLatestSwept(p: seq<Op>)
    requires OrderedAll(p) && Reduce(p).Ok? && Reduced(p).Ok? && Meaning(p).Ok? && AllLatest(Meaning(p).value)
    ensures Swept(Reduced(p).value) == Reduced(p).value
  {
    var r := Reduced(p).value;
    forall j | 0 <= j < |r| ensures Swept(r)[j] == r[j] {
      if !r[j].Gone? {
        StaleDropped(p, j);
      }
    }
  }

  // The document of the program that a reading leaves: replacements have taken over what is inserted
  // before their first tokens.
  ghost function Read(d: Doc): Doc {
    Doc(
      map i | i in d.ins && i !in d.regions :: d.ins[i],
      map s | s in d.regions :: Region(d.regions[s].last, TextAt(d, s) + d.regions[s].text))
  }

  lemma ReadMeans(p: seq<Op>)
    requires OrderedAll(p) && Reduce(p).Ok? && Meaning(p).Ok? && AllLatest(Meaning(p).value)
    ensures Reduced(p).Ok? && OrderedAll(Reduced(p).value) && Meaning(Reduced(p).value) == Ok(Read(Meaning(p).value))
  {
    ReducedShape(p);
    SecondReading(p);
    AllLatestSwept(p);
    var q, d, r := WalkReplaces(p).value, Meaning(p).value, Reduced(p).value;
    TidyFixed(r);
    WalkMeans(r);
    ReadRegions(q, d, r, Meaning(r).value);
    ReadLatest(p);
    ReadInserts(q, d, r, Meaning(r).value);
  }

  lemma ReadLatest(p: seq<Op>)
    requires OrderedAll(p) && Reduce(p).Ok? && Meaning(p).Ok? && AllLatest(Meaning(p).value) && Reduced(p).Ok?
    ensures forall i: nat :: HasInsert(Reduced(p).value, i) ==> Latest(Reduced(p).value, i)
  {
    ReducedShape(p);
    var q, d, r := WalkReplaces(p).value, Meaning(p).value, Reduced(p).value;
    InsertWalkIs(q);
    forall i: nat | HasInsert(r, i) ensures Latest(r, i) {
      assert KeepsInsert(q, i);
      LatestKept(q, i);
    }
  }

  lemma ReadRegion(q: seq<Op>, d: Doc, r: seq<Op>, e: Doc, j: nat)
    requires Stands(q, d) && AllLatest(d) && SettledReplaces(q, r) && Stands(r, e) && j < |r| && r[j].Replace?
    ensures var s := r[j].index; s in d.regions && s in e.regions && e.regions[s] == Read(d).regions[s]
  {
    var s := r[j].index;
    TakenStands(q, d, s);
    assert q[j].Replace? && q[j].index == s && d.regions[s] == Region(q[j].last, q[j].text);
    assert e.regions[s] == Region(r[j].last, r[j].text);
  }

  lemma ReadRegions(q: seq<Op>, d: Doc, r: seq<Op>, e: Doc)
    requires Stands(q, d) && AllLatest(d) && SettledReplaces(q, r) && Stands(r, e)
    ensures e.regions == Read(d).regions
  {
    forall s: nat ensures s in e.regions <==> s in d.regions {
      SameStarts(q, d, r, e, s);
    }
    forall s: nat | s in e.regions ensures e.regions[s] == Read(d).regions[s] {
      var j :| IsRegion(r, j, s, e.regions[s]);
      ReadRegion(q, d, r, e, j);
    }
  }

  lemma SameStarts(q: seq<Op>, d: Doc, r: seq<Op>, e: Doc, s: nat)
    requires Stands(q, d) && SettledReplaces(q, r) && Stands(r, e)
    ensures s in e.regions <==> s in d.regions
  {
    StartStands(q, d, s);
    StartStands(r, e, s);
    StartsSame(q, r, s);
  }

  lemma TakenStands(q: seq<Op>, d: Doc, s: nat)
    requires Stands(q, d) && AllLatest(d)
    ensures TakenOver(q, s) == TextAt(d, s)
  {
    TextStands(q, d, s);
    if !HasInsert(q, s) {
      NoneGathered(q, s);
    }
  }

  lemma ReadInserts(q: seq<Op>, d: Doc, r: seq<Op>, e: Doc)
    requires Stands(q, d) && AllLatest(d) && SettledInserts(q, r) && Stands(r, e)
    requires forall i: nat :: HasInsert(r, i) ==> Latest(r, i)
    ensures e.ins == Read(d).ins
  {
    forall i: nat ensures i in e.ins <==> i in d.ins && i !in d.regions {
      StartStands(q, d, i);
      assert HasInsert(r, i) <==> KeepsInsert(q, i);
    }
    forall i: nat | i in e.ins ensures e.ins[i] == d.ins[i] {
      assert HasInsert(r, i);
    }
  }

  // An insertion of no text before a region that no deletion can make grow is not missed.
  ghost predicate Harmless(d: Doc, i: nat)
    requires i in d.ins
  {
    i in d.regions && d.ins[i] == Ins("", true) && (d.regions[i].last == i || d.regions[i].text != "")
  }

  // All insertions stand apart from the regions, but harmless ones.
  ghost predicate Quiet(d: Doc) {
    forall i: nat :: i in d.ins && Covered(d, i) ==> Harmless(d, i)
  }

  // e is d without some harmless insertions.
  ghost predicate Similar(d: Doc, e: Doc) {
    && e.regions == d.regions
    && (forall i :: i in e.ins ==> i in d.ins && d.ins[i] == e.ins[i])
    && (forall i :: i in d.ins && i !in e.ins ==> Harmless(d, i))
  }

  lemma SimilarEnds(d: Doc, e: Doc, x: nat, y: nat, text: string)
    requires Apart(d) && Similar(d, e)
    ensures Apart(e) && LeftEnd(e, x) == LeftEnd(d, x) && RightEnd(e, y) == RightEnd(d, y)
    ensures TextAt(e, x) == TextAt(d, x) && (Conflicts(e, x, y, text) <==> Conflicts(d, x, y, text))
  {
    assert forall s: nat, i: nat :: Covers(e, s, i) <==> Covers(d, s, i);
    assert forall s: nat :: Touches(e, s, x, y) <==> Touches(d, s, x, y);
    if Conflicts(d, x, y, text) {
      var s: nat :| Touches(d, s, x, y) && !Inside(d, s, x, y) && !(d.regions[s].text == "" && text == "");
      assert Touches(e, s, x, y) && !Inside(e, s, x, y);
    }
    if Conflicts(e, x, y, text) {
      var s: nat :| Touches(e, s, x, y) && !Inside(e, s, x, y) && !(e.regions[s].text == "" && text == "");
      assert Touches(d, s, x, y) && !Inside(d, s, x, y);
    }
  }

  // A harmless insertion outside a replaced range stays harmless: its region is not touched.
  lemma HarmlessKept(d: Doc, x: nat, y: nat, text: string, i: nat)
    requires Apart(d) && x <= y && Apply(d, Replace(x, y, text)).Ok?
    requires i in d.ins && Harmless(d, i) && !InRange(i, x, y)
    ensures var f := Apply(d, Replace(x, y, text)).value; i in f.ins && Harmless(f, i)
  {
    assert !Conflicts(d, x, y, TextAt(d, x) + text);
    assert d.regions[i].last == i || Inside(d, i, x, y) || !Touches(d, i, x, y);
    KeptRegion(d, x, y, text, i);
    NotGrownOver(d, x, y, i);
  }

  lemma NotGrownOver(d: Doc, x: nat, y: nat, i: nat)
    requires Apart(d) && x <= y && i in d.regions && !InRange(i, x, y) && !Touches(d, i, x, y)
    ensures !InRange(i, LeftEnd(d, x), RightEnd(d, y))
  {
    assert Covers(d, i, i);
    forall s: nat | Covers(d, s, x) ensures !Covers(d, s, i) {
      assert !Covers(d, i, x);
    }
    forall s: nat | Covers(d, s, y) ensures !Covers(d, s, i) {
      assert !Covers(d, i, y);
    }
  }

  lemma SimilarReplace(d: Doc, e: Doc, x: nat, y: nat, text: string)
    requires Apart(d) && Similar(d, e) && x <= y
    ensures var f, g := Apply(d, Replace(x, y, text)), Apply(e, Replace(x, y, text));
            if f.Err? then g == Err(f.error) else g.Ok? && Similar(f.value, g.value)
  {
    SimilarEnds(d, e, x, y, TextAt(d, x) + text);
    var f, g := Apply(d, Replace(x, y, text)), Apply(e, Replace(x, y, text));
    if f.Ok? {
      assert f.value.regions == g.value.regions by {
        assert forall s: nat :: Touches(e, s, x, y) <==> Touches(d, s, x, y);
      }
      forall i | i in f.value.ins && i !in g.value.ins ensures Harmless(f.value, i) {
        HarmlessKept(d, x, y, text, i);
      }
    }
  }

  lemma SimilarApply(d: Doc, e: Doc, o: Op)
    requires Apart(d) && Similar(d, e) && Ordered(o)
    ensures if Apply(d, o).Err? then Apply(e, o) == Err(Apply(d, o).error)
            else Apply(e, o).Ok? && Similar(Apply(d, o).value, Apply(e, o).value)
  {
    match o
    case Gone =>
    case Insert(i, text) =>
    case Replace(x, y, text) => SimilarReplace(d, e, x, y, text);
  }

  lemma SimilarFinish(d: Doc, e: Doc)
    requires Apart(d) && Similar(d, e)
    ensures Finish(d) == Finish(e)
  {
    assert forall s: nat, i: nat :: Covers(e, s, i) <==> Covers(d, s, i);
    if InsertedInside(d) {
      var i: nat, s: nat :| i in d.ins && d.ins[i].latest && Covers(d, s, i) && i != s;
      if i !in e.ins {
        assert Covers(d, i, i);
      }
      assert i in e.ins && Covers(e, s, i);
    }
    if InsertedInside(e) {
      var i: nat, s: nat :| i in e.ins && e.ins[i].latest && Covers(e, s, i) && i != s;
      assert i in d.ins && Covers(d, s, i);
    }
    assert StaleAtStart(d) <==> StaleAtStart(e);
    assert Operations(d) == Operations(e);
  }

  lemma {:induction false} SimilarPrograms(p: seq<Op>, r: seq<Op>, q: seq<Op>)
    requires OrderedAll(p) && OrderedAll(q) && Meaning(p).Ok? && Meaning(r).Ok?
        && Similar(Meaning(p).value, Meaning(r).value)
    ensures if Meaning(p + q).Err? then Meaning(r + q) == Err(Meaning(p + q).error)
            else Meaning(r + q).Ok? && Similar(Meaning(p + q).value, Meaning(r + q).value)
    decreases |q|
  {
    if q == [] {
      assert p + q == p && r + q == r;
    } else {
      var n := |q| - 1;
      SimilarPrograms(p, r, q[..n]);
      assert (p + q)[..|p + q| - 1] == p + q[..n] && (r + q)[..|r + q| - 1] == r + q[..n];
      if Meaning(p + q[..n]).Ok? {
        OrderedJoin(p, q[..n]);
        MeaningApart(p + q[..n]);
        assert Ordered(q[n]);
        SimilarApply(Meaning(p + q[..n]).value, Meaning(r + q[..n]).value, q[n]);
      }
    }
  }

  lemma OrderedJoin(p: seq<Op>, q: seq<Op>)
    requires OrderedAll(p) && OrderedAll(q)
    ensures OrderedAll(p + q)
  {
    forall i | 0 <= i < |p + q| ensures Ordered((p + q)[i]) {
      assert i >= |p| ==> (p + q)[i] == q[i - |p|] && Ordered(q[i - |p|]);
    }
  }

  // Later edits, whatever they are, mean the same whether or not the text was read before them.
  ghost predicate Transparent(p: seq<Op>)
    requires Reduced(p).Ok?
  {
    forall q :: OrderedAll(q) ==> Reduce(Reduced(p).value + q) == Reduce(p + q)
  }

  lemma QuietTransparent(p: seq<Op>)
    requires OrderedAll(p) && Reduce(p).Ok? && Reduced(p).Ok? && Meaning(p).Ok? && Quiet(Meaning(p).value)
    ensures Transparent(p)
  {
    var d, r := Meaning(p).value, Reduced(p).value;
    QuietLatest(p);
    ReadMeans(p);
    MeaningApart(p);
    ReadSimilar(d);
    forall q | OrderedAll(q) ensures Reduce(r + q) == Reduce(p + q) {
      SimilarPrograms(p, r, q);
      OrderedJoin(p, q);
      OrderedJoin(r, q);
      ReduceMeans(p + q);
      ReduceMeans(r + q);
      if Meaning(p + q).Ok? {
        MeaningApart(p + q);
        SimilarFinish(Meaning(p + q).value, Meaning(r + q).value);
      }
    }
  }

  lemma QuietLatest(p: seq<Op>)
    requires OrderedAll(p) && Meaning(p).Ok? && Quiet(Meaning(p).value)
    ensures AllLatest(Meaning(p).value)
  {
    var d := Meaning(p).value;
    forall i | i in d.ins ensures d.ins[i].latest {
      if Stale(d, i) {
        StaleCovered(p, i);
      }
    }
  }

  lemma ReadSimilar(d: Doc)
    requires Apart(d) && Quiet(d)
    ensures Similar(d, Read(d))
  {
    forall i: nat | i in d.ins && i in d.regions ensures Harmless(d, i) {
      assert Covers(d, i, i);
    }
    forall s: nat | s in d.regions ensures Read(d).regions[s] == d.regions[s] {
      assert TextAt(d, s) == "" && "" + d.regions[s].text == d.regions[s].text;
    }
    assert Read(d).regions == d.regions;
  }

  // In a document without trouble, replacing a region by a text keeps the insertion before it.
  lemma ReplaceRegion(d: Doc, s: nat, text: string)
    requires Apart(d) && AllLatest(d) && Finish(d).Ok? && s in d.regions
    ensures var f := Apply(d, Replace(s, d.regions[s].last, text));
            f.Ok? && Finish(f.value).Ok? && s in Finish(f.value).value
            && Finish(f.value).value[s] == Replace(s, d.regions[s].last, TextAt(d, s) + text)
  {
    var last := d.regions[s].last;
    RegionEnds(d, s, s);
    var f := Apply(d, Replace(s, last, text)).value;
    SameCover(d, f);
    assert "" + (TextAt(d, s) + text) == TextAt(d, s) + text;
  }

  // Whatever touches the tokens of a region from x on is the region.
  lemma RegionEnds(d: Doc, s: nat, x: nat)
    requires Apart(d) && s in d.regions && s <= x <= d.regions[s].last
    ensures LeftEnd(d, x) == s && RightEnd(d, d.regions[s].last) == d.regions[s].last
    ensures forall t: nat :: Touches(d, t, x, d.regions[s].last) <==> t == s
  {
    var last := d.regions[s].last;
    assert Covers(d, s, x) && Covers(d, s, last);
    forall t: nat | Touches(d, t, x, last) ensures t == s {
      var i := Max(t, x);
      assert Covers(d, t, i) && Covers(d, s, i);
    }
  }

  // With the same tokens covered and no new insertions, nothing new is inside or stale.
  lemma SameCover(d: Doc, f: Doc)
    requires Finish(d).Ok? && AllLatest(f) && f.regions.Keys == d.regions.Keys
    requires forall s :: s in d.regions ==> f.regions[s].last == d.regions[s].last
    requires forall i :: i in f.ins ==> i in d.ins && d.ins[i].latest
    ensures Finish(f) == Ok(Operations(f))
  {
    if InsertedInside(f) {
      var i: nat, s: nat :| i in f.ins && f.ins[i].latest && Covers(f, s, i) && i != s;
      assert Covers(d, s, i);
    }
  }

  // Deleting the rest of a deleted region makes the insertion before it stale.
  lemma DeleteRest(d: Doc, s: nat)
    requires Apart(d) && AllLatest(d) && Finish(d).Ok? && s in d.regions && d.regions[s].text == ""
        && s < d.regions[s].last
    ensures Apply(d, Replace(s + 1, d.regions[s].last, "")).Ok?
    ensures Finish(Apply(d, Replace(s + 1, d.regions[s].last, "")).value).Err? <==> s in d.ins
  {
    var last := d.regions[s].last;
    RegionEnds(d, s, s + 1);
    if s + 1 in d.ins {
      assert Covers(d, s, s + 1);
    }
    assert TextAt(d, s + 1) + "" == "";
    var f := Apply(d, Replace(s + 1, last, "")).value;
    if s in d.ins {
      assert s in f.ins && !f.ins[s].latest && s in f.regions;
    } else {
      SameCover(d, f);
    }
  }

  lemma TransparentQuiet(p: seq<Op>)
    requires OrderedAll(p) && Reduce(p).Ok? && Reduced(p).Ok? && Meaning(p).Ok? && Transparent(p)
    ensures Quiet(Meaning(p).value)
  {
    var d, r := Meaning(p).value, Reduced(p).value;
    assert p + [] == p && r + [] == r && OrderedAll([]);
    assert Reduce(r) == Reduce(p);
    ReduceAgain(p);
    ReducedOk(p);
    MeaningApart(p);
    forall i: nat | i in d.ins && Covered(d, i) ensures Harmless(d, i) {
      var s: nat :| Covers(d, s, i);
      assert s == i;
      LaterReplace(p, i);
      if d.regions[i].last > i && d.regions[i].text == "" {
        LaterDelete(p, i);
      }
    }
  }

  // What a replacement of the region at s means, read or not.
  lemma AfterReplace(p: seq<Op>, d: Doc, s: nat, last: nat)
    requires OrderedAll(p) && Meaning(p) == Ok(d) && AllLatest(d) && Finish(d).Ok?
    requires s in d.regions && last == d.regions[s].last
    ensures s <= last && Reduce(p + [Replace(s, last, "c")]).Ok? && s in Reduce(p + [Replace(s, last, "c")]).value
    ensures Reduce(p + [Replace(s, last, "c")]).value[s] == Replace(s, last, TextAt(d, s) + "c")
  {
    MeaningApart(p);
    ReplaceRegion(d, s, "c");
    NextMeans(p, Replace(s, last, "c"));
  }

  lemma LaterReplace(p: seq<Op>, s: nat)
    requires OrderedAll(p) && Reduce(p).Ok? && Reduced(p).Ok? && Meaning(p).Ok? && Transparent(p)
    requires AllLatest(Meaning(p).value) && s in Meaning(p).value.regions
    ensures TextAt(Meaning(p).value, s) == ""
  {
    var d, r := Meaning(p).value, Reduced(p).value;
    var last := d.regions[s].last;
    ReducedOk(p);
    ReadMeans(p);
    ReadFinish(p);
    var e := Read(d);
    assert s in e.regions && last == e.regions[s].last && TextAt(e, s) == "";
    AfterReplace(p, d, s, last);
    AfterReplace(r, e, s, last);
    assert OrderedAll([Replace(s, last, "c")]);
    LongerText(TextAt(d, s), TextAt(e, s));
  }

  lemma LongerText(a: string, b: string)
    ensures a + "c" == b + "c" ==> |a| == |b|
  {
    assert |a + "c"| == |a| + 1 && |b + "c"| == |b| + 1;
  }

  // What deleting the rest of a deleted region means, read or not.
  lemma AfterDelete(p: seq<Op>, d: Doc, s: nat, last: nat)
    requires OrderedAll(p) && Meaning(p) == Ok(d) && AllLatest(d) && Finish(d).Ok?
    requires s in d.regions && last == d.regions[s].last && d.regions[s].text == "" && s < last
    ensures Reduce(p + [Replace(s + 1, last, "")]).Err? <==> s in d.ins
  {
    MeaningApart(p);
    DeleteRest(d, s);
    NextMeans(p, Replace(s + 1, last, ""));
  }

  lemma LaterDelete(p: seq<Op>, s: nat)
    requires OrderedAll(p) && Reduce(p).Ok? && Reduced(p).Ok? && Meaning(p).Ok? && Transparent(p)
    requires AllLatest(Meaning(p).value) && s in Meaning(p).value.regions && TextAt(Meaning(p).value, s) == ""
    requires Meaning(p).value.regions[s].text == "" && s < Meaning(p).value.regions[s].last
    ensures s !in Meaning(p).value.ins
  {
    var d, r := Meaning(p).value, Reduced(p).value;
    var last := d.regions[s].last;
    ReducedOk(p);
    ReadMeans(p);
    ReadFinish(p);
    assert "" + "" == "";
    AfterDelete(p, d, s, last);
    AfterDelete(r, Read(d), s, last);
    assert OrderedAll([Replace(s + 1, last, "")]);
  }

  lemma ReadFinish(p: seq<Op>)
    requires OrderedAll(p) && Reduce(p).Ok? && Meaning(p).Ok? && AllLatest(Meaning(p).value)
    ensures Finish(Read(Meaning(p).value)).Ok? && AllLatest(Read(Meaning(p).value))
  {
    ReducedOk(p);
    SameCover(Meaning(p).value, Read(Meaning(p).value));
  }

  // One edit more.
  lemma NextMeans(p: seq<Op>, o: Op)
    requires OrderedAll(p) && Ordered(o) && Meaning(p).Ok? && Apply(Meaning(p).value, o).Ok?
    ensures Reduce(p + [o]) == Finish(Apply(Meaning(p).value, o).value)
  {
    assert (p + [o])[..|p|] == p;
    OrderedJoin(p, [o]);
    ReduceMeans(p + [o]);
  }

  // Reading the text is an observer exactly where insertions stand apart from what is replaced: none is
  // inside a region, and one before a region has no text and no deletion can make it stale.
  lemma ReadingObserves(p: seq<Op>)
    requires OrderedAll(p) && Reduce(p).Ok?
    ensures Reduced(p).Ok? && Meaning(p).Ok?
    ensures Transparent(p) <==> Quiet(Meaning(p).value)
  {
    ReducedOk(p);
    if Transparent(p) {
      TransparentQuiet(p);
    }
    if Quiet(Meaning(p).value) {
      QuietTransparent(p);
    }
  }

  // Where insertions have text, the condition is that no insertion is at a replaced token.
  lemma ReadingObservesText(p: seq<Op>)
    requires OrderedAll(p) && Reduce(p).Ok? && Meaning(p).Ok?
    requires forall i :: i in Meaning(p).value.ins ==> Meaning(p).value.ins[i].text != ""
    ensures Reduced(p).Ok?
    ensures Transparent(p) <==> forall i: nat :: i in Meaning(p).value.ins ==> !Requested(p, i)
  {
    ReadingObserves(p);
    forall i: nat ensures Covered(Meaning(p).value, i) <==> Requested(p, i) {
      Coverage(p, i);
    }
  }

  // An edit made after a reading does not mean what it means without the reading: the reading gave
  // the inserted text to a replacement, which the edit then drops with it.
  lemma ReadingMatters()
    ensures var p, o := [Replace(2, 3, "b"), Insert(2, "x")], Replace(2, 3, "c");
            && Reduced(p) == Ok([Replace(2, 3, "xb"), Gone])
            && Reduce(p + [o]) == Ok(map[2 := Replace(2, 3, "xc")])
            && Reduce([Replace(2, 3, "xb"), Gone] + [o]) == Ok(map[2 := Replace(2, 3, "c")])
  {
    ReadingGives();
    Replaced(Replace(2, 3, "b"), Insert(2, "x"), Replace(2, 3, "c"));
    Replaced(Replace(2, 3, "xb"), Gone, Replace(2, 3, "c"));
    assert "x" + "c" == "xc" && "" + "c" == "c";
  }

  lemma ReadingGives()
    ensures Reduced([Replace(2, 3, "b"), Insert(2, "x")]) == Ok([Replace(2, 3, "xb"), Gone])
  {
    var a, i := Replace(2, 3, "b"), Insert(2, "x");
    FirstReplace(a);
    NextReplaces([a], [a], i);
    assert [a] + [i] == [a, i];
    NextInserts([a], [a], i);
    InsertStepIs([a], 2, "x");
    assert !CoveredPast([a], 2) && StartsAt([a], 2) by { assert [a][0] == a; }
    assert Gathered([a], 2) == "" by { assert "" + "" == ""; }
    assert "x" + "" == "x" && "x" + a.text == "xb";
    assert Attached(Wiped([a], 2, 2), 2, "x") == [Replace(2, 3, "xb")];
    assert [Replace(2, 3, "xb")] + [Gone] == [Replace(2, 3, "xb"), Gone];
  }

  // A replacement of the same range takes over the insertion before it, and drops the rest.
  lemma Replaced(a: Op, i: Op, o: Op)
    requires a.Replace? && o.Replace? && o.index == a.index <= a.last == o.last
    requires i.Gone? || (i.Insert? && i.index == a.index)
    ensures Reduce([a, i] + [o])
        == Ok(map[o.index := Replace(o.index, o.last, (if i.Gone? then "" else i.text) + o.text)])
  {
    var text := if i.Gone? then "" else i.text;
    var r := Replace(o.index, o.last, text + o.text);
    FirstReplace(a);
    NextReplaces([a], [a], i);
    assert [a] + [i] == [a, i];
    NextReplaces([a, i], [a, i], o);
    ReplacedStep(a, i, o, r);
    var g: seq<Op> := seq(2, _ => Gone);
    assert g == [Gone, Gone];
    GoneFirst(2, r);
    AllGone(2);
    assert (g + [r])[..2] == g;
  }

  lemma ReplacedStep(a: Op, i: Op, o: Op, r: Op)
    requires a.Replace? && o.Replace? && o.index == a.index <= a.last == o.last
    requires i.Gone? || (i.Insert? && i.index == a.index)
    requires r == Replace(o.index, o.last, (if i.Gone? then "" else i.text) + o.text)
    ensures ReplaceStep([a, i], o) == Ok([Gone, Gone] + [r])
  {
    assert [a, i][..1] == [a] && [a][..0] == [];
    assert Gathered([a], o.index) == "" by { assert "" + "" == ""; }
    assert Gathered([a, i], o.index) == if i.Gone? then "" else i.text;
    assert Wiped([a, i], o.index, o.last) == [a, Gone];
    DropOne(a, r);
    assert [a, Gone][..1] == [a] && [Gone] + [Gone] == [Gone, Gone];
    assert DropPrior([a, Gone], r) == Ok(([Gone, Gone], r));
  }
}
