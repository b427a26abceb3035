// Programs of edits of special shapes: insertions only, and deletions that nest.
module EditPrograms {
  import opened Edits
  import opened EditMeaning
  import opened ReplaceWalk
  import opened InsertWalk
  import opened EditText
  import opened Tokens

  predicate InsertsOnly(p: seq<Op>) { forall j :: 0 <= j < |p| ==> p[j].Insert? }

  lemma {:induction false} InsertsMean(p: seq<Op>)
    requires InsertsOnly(p)
    ensures Meaning(p).Ok? && Meaning(p).value.regions == map[]
    ensures forall i: nat :: i in Meaning(p).value.ins <==> HasInsert(p, i)
    ensures forall i: nat :: i in Meaning(p).value.ins ==> Meaning(p).value.ins[i] == Ins(Gathered(p, i), true)
    decreases |p|
  {
    if p != [] {
      var pre, o := p[..|p| - 1], p[|p| - 1];
      InsertsMean(pre);
      if o.index !in Meaning(pre).value.ins {
        NoneGathered(pre, o.index);
      }
    }
  }

  // At each token the texts inserted there, the latest first, and then the token's own text.
  function Direct(tokens: seq<Token>, p: seq<Op>, i: nat): string
    decreases |tokens| - i
  {
    if |tokens| <= i then ""
    else Gathered(p, i) + (if tokens[i].kind == Tokens.EOF then "" else tokens[i].text) + Direct(tokens, p, i + 1)
  }

  lemma FlattenCell(tokens: seq<Token>, d: Doc, i: nat, rest: seq<Piece>)
    requires d.regions == map[]
    ensures Flatten(tokens, Cell(d, i) + rest) == TextAt(d, i) + Spell(tokens, Original(i)) + Flatten(tokens, rest)
  {
    assert !Covered(d, i);
    assert ([Original(i)] + rest)[1..] == rest;
    if i in d.ins {
      var n := New(d.ins[i].text);
      assert [n, Original(i)] + rest == [n] + ([Original(i)] + rest);
      assert ([n] + ([Original(i)] + rest))[1..] == [Original(i)] + rest;
    } else {
      assert "" + Spell(tokens, Original(i)) == Spell(tokens, Original(i));
    }
  }

  lemma {:induction false} DirectCells(tokens: seq<Token>, p: seq<Op>, i: nat)
    requires InsertsOnly(p) && Meaning(p).Ok?
    ensures Flatten(tokens, Cells(Meaning(p).value, i, |tokens|)) == Direct(tokens, p, i)
    decreases |tokens| - i
  {
    if i < |tokens| {
      var d := Meaning(p).value;
      InsertsMean(p);
      DirectCells(tokens, p, i + 1);
      FlattenCell(tokens, d, i, Cells(d, i + 1, |tokens|));
      if i !in d.ins {
        NoneGathered(p, i);
      }
    }
  }

  // Programs of insertions always reduce, and read as the insertions say.
  lemma InsertsRead(tokens: seq<Token>, p: seq<Op>)
    requires InsertsOnly(p)
    ensures Reduce(p).Ok? && Indexed(Reduce(p).value)
    ensures Flatten(tokens, Walk(Reduce(p).value, 0, |tokens|)) == Direct(tokens, p, 0)
    ensures forall k: nat :: k in Left(Reduce(p).value, 0, |tokens|) <==> HasInsert(p, k) && |tokens| <= k
    ensures forall k: nat :: HasInsert(p, k) ==> k in Reduce(p).value && Reduce(p).value[k] == Insert(k, Gathered(p, k))
  {
    InsertsMean(p);
    ReduceMeans(p);
    WholeWalk(p, |tokens|);
    DirectCells(tokens, p, 0);
    forall k: nat ensures k in Left(Reduce(p).value, 0, |tokens|) <==> HasInsert(p, k) && |tokens| <= k {
      if k in Reduce(p).value {
        WholeLeft(p, |tokens|, k);
      }
    }
  }

  // No deletion overlaps an earlier one without containing it.
  predicate DeletesNest(p: seq<Op>) {
    forall i, j :: 0 <= i < j < |p| && p[i].Replace? && p[j].Replace? && p[i].text == "" && p[j].text == "" ==>
      Disjoint(p[i], p[j]) || Within(p[i], p[j])
  }

  ghost predicate Asked(p: seq<Op>, j: int, s: nat, r: Region) {
    0 <= j < |p| && p[j].Replace? && p[j].index == s && p[j].last == r.last && (r.text == "" ==> p[j].text == "")
  }

  // Where deletions nest, a region is the range of one replacement.
  lemma {:induction false} RegionsAsked(p: seq<Op>, s: nat)
    requires OrderedAll(p) && DeletesNest(p) && Meaning(p).Ok? && s in Meaning(p).value.regions
    ensures exists j :: Asked(p, j, s, Meaning(p).value.regions[s])
    decreases |p|
  {
    var pre, o := p[..|p| - 1], p[|p| - 1];
    var d, e := Meaning(pre).value, Meaning(p).value;
    if o.Replace? {
      assert Ordered(p[|p| - 1]);
      RangeAsked(p);
    }
    if o.Replace? && s == o.index {
      assert Asked(p, |p| - 1, s, e.regions[s]);
    } else {
      RegionsAsked(pre, s);
      var j :| Asked(pre, j, s, d.regions[s]);
      assert Asked(p, j, s, e.regions[s]);
    }
  }

  lemma TouchedInside(p: seq<Op>, s: nat)
    requires OrderedAll(p) && DeletesNest(p) && Meaning(p).Ok? && p != [] && p[|p| - 1].Replace?
    requires Touches(Meaning(p[..|p| - 1]).value, s, p[|p| - 1].index, p[|p| - 1].last)
    ensures Inside(Meaning(p[..|p| - 1]).value, s, p[|p| - 1].index, p[|p| - 1].last)
    decreases |p|, 0
  {
    var n := |p| - 1;
    var pre, o := p[..n], p[n];
    var d := Meaning(pre).value;
    RegionsAsked(pre, s);
    var j :| Asked(pre, j, s, d.regions[s]);
    assert p[j] == pre[j];
    assert p[j].text == "" && p[n].text == "" ==> Disjoint(p[j], p[n]) || Within(p[j], p[n]);
    assert !Conflicts(d, o.index, o.last, TextAt(d, o.index) + o.text);
  }

  // Such a program never makes a range grow.
  lemma RangeAsked(p: seq<Op>)
    requires OrderedAll(p) && DeletesNest(p) && Meaning(p).Ok? && p != [] && p[|p| - 1].Replace?
    ensures LeftEnd(Meaning(p[..|p| - 1]).value, p[|p| - 1].index) == p[|p| - 1].index
    ensures RightEnd(Meaning(p[..|p| - 1]).value, p[|p| - 1].last) == p[|p| - 1].last
    decreases |p|, 1
  {
    var n := |p| - 1;
    var d, o := Meaning(p[..n]).value, p[n];
    assert Ordered(p[n]);
    if exists s: nat :: Covers(d, s, o.index) {
      var s: nat :| Covers(d, s, o.index) && s == LeftEnd(d, o.index);
      TouchedInside(p, s);
    }
    if exists s: nat :: Covers(d, s, o.last) {
      var s: nat :| Covers(d, s, o.last) && d.regions[s].last == RightEnd(d, o.last);
      TouchedInside(p, s);
    }
  }

  ghost predicate AllLatest(d: Doc) { forall i :: i in d.ins ==> d.ins[i].latest }

  lemma {:induction false} NoneStale(p: seq<Op>)
    requires OrderedAll(p) && DeletesNest(p) && Meaning(p).Ok?
    ensures AllLatest(Meaning(p).value)
    decreases |p|
  {
    if p != [] {
      NoneStale(p[..|p| - 1]);
      if p[|p| - 1].Replace? {
        RangeAsked(p);
      }
    }
  }

  // Where deletions nest, there is never more than one operation for an index.
  lemma OneOpPerIndex(p: seq<Op>)
    requires OrderedAll(p) && DeletesNest(p)
    ensures Reduce(p) != Err(TwoOps)
    ensures Reduced(p).Ok? ==> !Clash(Reduced(p).value)
  {
    ReduceMeans(p);
    if Meaning(p).Ok? {
      NoneStale(p);
    }
    NeverTwoOps(p);
    if Reduced(p).Ok? {
      CollectIs(Reduced(p).value);
    }
  }

  // A meaning fails for overlaps only.
  lemma {:induction false} NeverTwoOps(p: seq<Op>)
    ensures Meaning(p).Err? ==> Meaning(p).error == Overlap
    decreases |p|
  {
    if p != [] {
      NeverTwoOps(p[..|p| - 1]);
    }
  }

  lemma NextReplaces(p: seq<Op>, q: seq<Op>, o: Op)
    requires WalkReplaces(p) == Ok(q)
    ensures WalkReplaces(p + [o]) == ReplaceStep(q, o)
  {
    assert (p + [o])[..|p|] == p;
  }

  lemma NextInserts(p: seq<Op>, q: seq<Op>, o: Op)
    requires WalkInserts(p) == Ok(q)
    ensures WalkInserts(p + [o]) == InsertStep(q, o)
  {
    assert (p + [o])[..|p|] == p;
  }

  lemma FirstReplace(a: Op)
    requires a.Replace?
    ensures WalkReplaces([a]) == Ok([a]) && WalkInserts([a]) == Ok([a])
  {
    assert Wiped([], a.index, a.last) == [] && Gathered([], a.index) == "";
    assert "" + a.text == a.text;
    NextReplaces([], [], a);
    NextInserts([], [], a);
    assert [] + [a] == [a];
  }

  lemma GoneFirst(n: nat, o: Op)
    requires !o.Insert?
    ensures WalkInserts(seq(n, _ => Gone) + [o]) == Ok(seq(n, _ => Gone) + [o])
  {
    var g: seq<Op> := seq(n, _ => Gone);
    AllGone(n);
    NextInserts(g, g, o);
  }

  lemma {:induction false} AllGone(n: nat)
    ensures WalkInserts(seq(n, _ => Gone)) == Ok(seq(n, _ => Gone)) && Collect(seq(n, _ => Gone)) == Ok(map[])
  {
    if n > 0 {
      AllGone(n - 1);
      assert seq(n, _ => Gone)[..n - 1] == seq(n - 1, _ => Gone);
      assert seq(n - 1, _ => Gone) + [Gone] == seq(n, _ => Gone);
    }
  }

  lemma DropOne(o: Op, r: Op)
    requires o.Replace? && r.Replace? && r.index <= o.index && o.last <= r.last
    ensures DropPrior([o], r) == Ok(([Gone], r))
  {
    assert [o][..0] == [] && [] + [Gone] == [Gone];
  }

  // Two deletions that overlap, and an insertion between them where the merged one starts, end in
  // two operations for one index.
  lemma TwoOpsHappens()
    ensures Reduce([Replace(1, 3, ""), Insert(1, "x")] + [Replace(2, 5, "")]) == Err(TwoOps)
  {
    var d, i, e, r := Replace(1, 3, ""), Insert(1, "x"), Replace(2, 5, ""), Replace(1, 5, "");
    FirstReplace(d);
    NextReplaces([d], [d], i);
    assert [d] + [i] == [d, i];
    NextReplaces([d, i], [d, i], e);
    TwoOpsMerge(d, i, e, r);
    TwoOpsClash(i, r);
  }

  lemma TwoOpsMerge(d: Op, i: Op, e: Op, r: Op)
    requires d == Replace(1, 3, "") && i == Insert(1, "x") && e == Replace(2, 5, "") && r == Replace(1, 5, "")
    ensures ReplaceStep([d, i], e) == Ok([Gone, i] + [r])
  {
    assert [d, i][..1] == [d] && [d][..0] == [];
    assert Gathered([d], 2) == "" by { assert "" + "" == ""; }
    assert Gathered([d, i], 2) == "" by { assert "" + "" == ""; }
    assert "" + e.text == "";
    assert Wiped([d, i], 2, 5) == [d, i];
    assert DropPrior([d], e) == Ok(([Gone], r)) by { assert [] + [Gone] == [Gone]; }
    assert [Gone] + [i] == [Gone, i];
    assert DropPrior([d, i], e) == Ok(([Gone, i], r));
  }

  lemma TwoOpsClash(i: Op, r: Op)
    requires i == Insert(1, "x") && r == Replace(1, 5, "")
    ensures WalkInserts([Gone, i] + [r]).Ok? && Collect(WalkInserts([Gone, i] + [r]).value) == Err(TwoOps)
  {
    assert WalkInserts([Gone]) == Ok([Gone]) by { assert [Gone][..0] == []; assert [] + [Gone] == [Gone]; }
    NextInserts([Gone], [Gone], i);
    InsertStepIs([Gone], 1, "x");
    assert Wiped([Gone], 1, 1) == [Gone] && Attached([Gone], 1, "x") == [Gone];
    assert Gathered([Gone], 1) == "" by { assert "" + "" == ""; }
    assert "x" + "" == "x";
    assert [Gone] + [i] == [Gone, i];
    NextInserts([Gone, i], [Gone, i], r);
    var w := [Gone, i] + [r];
    assert w[1] == i && w[2] == r;
    CollectIs(w);
  }
}
