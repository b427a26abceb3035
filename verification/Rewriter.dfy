// The token stream rewriter as an object: edits are recorded in a vector, and reading the text
// reduces that vector in place.
module Rewriter {
  import opened Edits
  import opened EditMeaning
  import opened DocTexts
  import opened ReplaceWalk
  import opened InsertWalk
  import opened EditText
  import opened EditPrograms
  import opened EditReading
  import opened Tokens

  const INVALID_INDEX: nat := 0xFFFF_FFFF_FFFF_FFFF

  // What a filled token buffer holds: one end-of-file token, at its end.
  predicate Stream(tokens: seq<Token>) {
    Terminated(tokens) && |tokens| < INVALID_INDEX
  }

  ghost predicate Lists(order: seq<nat>, s: set<nat>) {
    && (forall k :: k in order <==> k in s)
    && (forall i, j :: 0 <= i < j < |order| ==> order[i] != order[j])
  }

  function Texts(m: map<nat, Op>, order: seq<nat>): string {
    if order == [] then ""
    else
      var k := order[|order| - 1];
      Texts(m, order[..|order| - 1]) + OwnText(m, k)
  }

  // The operations emitted after the last token of a stream of n.
  function Tail(m: map<nat, Op>, start: nat, n: nat): set<nat>
    requires Indexed(m) && 0 < n
  {
    set k | k in Left(m, start, n) && n - 1 <= k
  }

  // The operations emitted after reading up to token stop.
  function Trailing(m: map<nat, Op>, start: nat, stop: nat, n: nat): set<nat>
    requires Indexed(m) && 0 < n
  {
    if stop == n - 1 then Tail(m, start, n) else {}
  }

  // A text that getText may give; the order of what trails is that of a hash map.
  ghost predicate Reads(tokens: seq<Token>, m: map<nat, Op>, start: nat, stop: nat, text: string)
    requires Indexed(m) && 0 < |tokens|
  {
    exists order: seq<nat> :: Lists(order, Trailing(m, start, stop, |tokens|)) &&
      text == Flatten(tokens, Walk(m, start, stop + 1)) + Texts(m, order)
  }

  // What a document leaves for the end of its text.
  ghost function Rest(d: Doc, n: nat): set<nat> {
    set k | k in Operations(d) && n - 1 <= k && (n <= k || !Entry(d, k))
  }

  // A document's text, and then that of the operations past the last token, or before it and inside a region.
  ghost predicate MeansText(tokens: seq<Token>, p: seq<Op>, text: string)
    requires 0 < |tokens|
  {
    && Meaning(p).Ok?
    && var d := Meaning(p).value;
       exists order: seq<nat> ::
         && Lists(order, Rest(d, |tokens|))
         && text == DocText(tokens, d, 0, |tokens|) + Texts(Operations(d), order)
  }

  lemma TailIsRest(p: seq<Op>, n: nat)
    requires OrderedAll(p) && 0 < n && Reduce(p).Ok? && Indexed(Reduce(p).value)
    ensures Meaning(p).Ok? && Reduce(p).value == Operations(Meaning(p).value)
    ensures Tail(Reduce(p).value, 0, n) == Rest(Meaning(p).value, n)
  {
    ReduceMeans(p);
    var m := Reduce(p).value;
    forall k: nat ensures k in Tail(m, 0, n) <==> k in Rest(Meaning(p).value, n) {
      if k in m {
        WholeLeft(p, n, k);
      }
    }
  }

  lemma ReadsMean(tokens: seq<Token>, p: seq<Op>, text: string)
    requires OrderedAll(p) && 0 < |tokens| && Reduce(p).Ok? && Indexed(Reduce(p).value)
    requires Reads(tokens, Reduce(p).value, 0, |tokens| - 1, text)
    ensures MeansText(tokens, p, text)
  {
    var n, m := |tokens|, Reduce(p).value;
    TailIsRest(p, n);
    WholeWalk(p, n);
    var order: seq<nat> :|
      Lists(order, Trailing(m, 0, n - 1, n)) && text == Flatten(tokens, Walk(m, 0, n - 1 + 1)) + Texts(m, order);
    CellsSpell(tokens, Meaning(p).value, 0, n);
    assert Lists(order, Rest(Meaning(p).value, n));
  }

  lemma TwoListed(order: seq<nat>, s: set<nat>)
    requires Lists(order, s) && |order| > 1
    ensures exists a, b :: a in s && b in s && a != b
  {
    assert order[0] in order && order[1] in order && order[0] != order[1];
  }

  lemma OneListed(order: seq<nat>, s: set<nat>, k: nat)
    requires Lists(order, s) && s <= {k}
    ensures order == if k in s then [k] else []
  {
    if |order| > 1 {
      TwoListed(order, s);
    } else {
      assert |order| > 0 ==> order[0] in order;
      assert k in s ==> k in order;
    }
  }

  lemma {:induction false} InsertsMeanText(tokens: seq<Token>, p: seq<Op>, text: string)
    requires InsertsOnly(p) && 0 < |tokens| && MeansText(tokens, p, text)
    requires forall j :: 0 <= j < |p| ==> p[j].index <= |tokens|
    ensures text == Direct(tokens, p, 0) + Gathered(p, |tokens|)
  {
    var n, d := |tokens|, Meaning(p).value;
    InsertsMean(p);
    DirectCells(tokens, p, 0);
    var ops := Operations(d);
    var s := set k | k in ops && n - 1 <= k && (n <= k || !Entry(d, k));
    CellsSpell(tokens, d, 0, n);
    var order: seq<nat> :| Lists(order, s) && text == DocText(tokens, d, 0, n) + Texts(ops, order);
    forall k: nat | k in s ensures k == n {
      assert Entry(d, k);
      InsertAt(p, k);
    }
    OneListed(order, s, n);
    if n in d.ins {
      assert n in ops && n in s;
      assert [n][..0] == [];
      assert Texts(ops, [n]) == "" + Gathered(p, n) == Gathered(p, n);
    } else {
      NoneGathered(p, n);
    }
  }

  // A failure in the front of a program is a failure of the program.
  lemma {:induction false} DropPriorFails(p: seq<Op>, j: nat, rop: Op)
    requires j <= |p| && rop.Replace? && DropPrior(p[..j], rop).Err?
    ensures DropPrior(p, rop) == DropPrior(p[..j], rop)
    decreases |p|
  {
    if j < |p| {
      assert p[..|p| - 1][..j] == p[..j];
      DropPriorFails(p[..|p| - 1], j, rop);
    } else {
      assert p[..j] == p;
    }
  }

  lemma {:induction false} WalkReplacesFails(p: seq<Op>, j: nat)
    requires j <= |p| && WalkReplaces(p[..j]).Err?
    ensures WalkReplaces(p) == WalkReplaces(p[..j])
    decreases |p|
  {
    if j < |p| {
      assert p[..|p| - 1][..j] == p[..j];
      WalkReplacesFails(p[..|p| - 1], j);
    } else {
      assert p[..j] == p;
    }
  }

  lemma {:induction false} AttachPriorFails(p: seq<Op>, j: nat, iop: Op)
    requires j <= |p| && iop.Insert? && AttachPrior(p[..j], iop).Err?
    ensures AttachPrior(p, iop) == AttachPrior(p[..j], iop)
    decreases |p|
  {
    if j < |p| {
      assert p[..|p| - 1][..j] == p[..j];
      AttachPriorFails(p[..|p| - 1], j, iop);
    } else {
      assert p[..j] == p;
    }
  }

  lemma {:induction false} WalkInsertsFails(p: seq<Op>, j: nat)
    requires j <= |p| && WalkInserts(p[..j]).Err?
    ensures WalkInserts(p) == WalkInserts(p[..j])
    decreases |p|
  {
    if j < |p| {
      assert p[..|p| - 1][..j] == p[..j];
      WalkInsertsFails(p[..|p| - 1], j);
    } else {
      assert p[..j] == p;
    }
  }

  lemma {:induction false} CollectFails(p: seq<Op>, j: nat)
    requires j <= |p| && Collect(p[..j]).Err?
    ensures Collect(p) == Collect(p[..j])
    decreases |p|
  {
    if j < |p| {
      assert p[..|p| - 1][..j] == p[..j];
      CollectFails(p[..|p| - 1], j);
    } else {
      assert p[..j] == p;
    }
  }

  // The text a replacement has so far, with one more insertion in front.
  lemma TakenText(p: seq<Op>, j: nat, i: nat, text: string, t: string)
    requires j < |p| && p[j].Insert? && p[j].index == i && t == Gathered(p[..j], i) + text
    ensures p[j].text + (if t != "" then t else "") == Gathered(p[..j + 1], i) + text
  {
    assert p[..j + 1][..j] == p[..j];
    assert p[j].text + t == (p[j].text + Gathered(p[..j], i)) + text;
    assert t == "" ==> p[j].text + "" == p[j].text + t;
  }

  lemma SameText(p: seq<Op>, j: nat, i: nat)
    requires j < |p| && !(p[j].Insert? && p[j].index == i)
    ensures Gathered(p[..j + 1], i) == Gathered(p[..j], i)
  {
    assert p[..j + 1][..j] == p[..j];
    assert "" + Gathered(p[..j], i) == Gathered(p[..j], i);
  }

  lemma PriorNext(p: seq<Op>, j: nat, i: nat)
    requires j < |p|
    ensures PriorText(p[..j + 1], i) == if p[j].Insert? && p[j].index == i then PriorText(p[..j], i) + p[j].text
        else PriorText(p[..j], i)
  {
    assert p[..j + 1][..j] == p[..j];
    assert PriorText(p[..j], i) + "" == PriorText(p[..j], i);
  }

  lemma Front(done: seq<Op>, p: seq<Op>, i: nat)
    requires i == |done| < |p|
    ensures (done + p[i..])[..i] == done && (done + p[i..])[i] == p[i] && (done + p[i..])[i + 1..] == p[i + 1..]
    ensures p[..i + 1] == p[..i] + [p[i]] && done + p[i..] == done + [p[i]] + p[i + 1..]
  {}

  lemma Assembled(r: seq<Op>, w: seq<Op>, o: Op, was: seq<Op>)
    requires |r| == |was| && |w| < |was| && r[|w|] == o
    requires forall k :: 0 <= k < |w| ==> r[k] == w[k]
    requires forall k :: |w| < k < |was| ==> r[k] == was[k]
    ensures r == w + [o] + was[|w| + 1..]
  {}

  lemma ListsMore(order: seq<nat>, s: set<nat>, k: nat)
    requires Lists(order, s) && k !in s
    ensures Lists(order + [k], s + {k})
  {}

  // The tokens from one up to another, without the end of file.
  function Before(tokens: seq<Token>, start: nat, stop: nat): seq<Token>
    requires 0 < |tokens|
  {
    var end := if stop + 1 < |tokens| then stop + 1 else |tokens| - 1;
    if start < end then tokens[start..end] else []
  }

  lemma BeforeNext(tokens: seq<Token>, i: nat, stop: nat)
    requires i <= stop && i < |tokens| - 1
    ensures TextOf(Before(tokens, i, stop)) == tokens[i].text + TextOf(Before(tokens, i + 1, stop))
  {
    var end := if stop + 1 < |tokens| then stop + 1 else |tokens| - 1;
    assert tokens[i..end][1..] == tokens[i + 1..end];
    assert i + 1 == end ==> tokens[i + 1..end] == [];
  }

  lemma BlankWalk(tokens: seq<Token>, d: Doc, m: map<nat, Op>, start: nat, end: nat)
    requires d == Doc(map[], map[]) && m == map[] && end <= |tokens|
    ensures Indexed(m) && Flatten(tokens, Walk(m, start, end)) == DocText(tokens, d, start, end)
  {
    assert Apart(d) && Operations(d) == m;
    assert From(d, start) == d;
    WalkIsCells(d, start, start, end);
    CellsSpell(tokens, d, start, end);
  }

  // Without edits a text is that of the tokens.
  lemma PlainText(tokens: seq<Token>, start: nat, stop: nat)
    requires Stream(tokens) && stop < |tokens|
    ensures Indexed(map[]) && Flatten(tokens, Walk(map[], start, stop + 1)) == TextOf(Before(tokens, start, stop))
  {
    BlankWalk(tokens, Doc(map[], map[]), map[], start, stop + 1);
    PlainDoc(tokens, start, stop);
  }

  lemma PlainDoc(tokens: seq<Token>, start: nat, stop: nat)
    requires Stream(tokens) && stop < |tokens|
    ensures DocText(tokens, Doc(map[], map[]), start, stop + 1) == TextOf(Before(tokens, start, stop))
  {
    if stop < start {
      assert Before(tokens, start, stop) == [];
    } else if stop == |tokens| - 1 {
      assert Before(tokens, start, stop) == tokens[start..stop];
      ToTheEnd(tokens, Doc(map[], map[]), start);
      NoEdits(tokens, start, stop);
    } else {
      assert Before(tokens, start, stop) == tokens[start..stop + 1];
      NoEdits(tokens, start, stop + 1);
    }
  }

  lemma PlainReads(tokens: seq<Token>, start: nat, stop: nat)
    requires Stream(tokens) && stop < |tokens|
    ensures Indexed(map[]) && Reduce([]) == Ok(map[]) && Reduced([]) == Ok([])
    ensures Reads(tokens, map[], start, stop, TextOf(Before(tokens, start, stop)))
  {
    PlainText(tokens, start, stop);
    assert Trailing(map[], start, stop, |tokens|) == {};
    assert Lists([], {});
    assert Flatten(tokens, Walk(map[], start, stop + 1)) + "" == Flatten(tokens, Walk(map[], start, stop + 1));
    assert Texts(map[], []) == "";
  }

  // The text of an interval begins with what the document without the regions begun before the interval says of its
  // tokens, and that is all of it unless the interval comes to the end of the stream.
  ghost predicate SaysOf(tokens: seq<Token>, p: seq<Op>, start: nat, stop: nat, text: string)
    requires stop < |tokens|
  {
    && Meaning(p).Ok?
    && var said := DocText(tokens, From(Meaning(p).value, start), start, stop + 1);
       said <= text && (stop < |tokens| - 1 ==> text == said)
  }

  lemma ReadsSay(tokens: seq<Token>, p: seq<Op>, start: nat, stop: nat, text: string)
    requires OrderedAll(p) && stop < |tokens| && Reduce(p).Ok? && Indexed(Reduce(p).value)
    requires Reads(tokens, Reduce(p).value, start, stop, text)
    ensures SaysOf(tokens, p, start, stop, text)
  {
    WalkSpells(tokens, p, start, stop + 1);
    var m := Reduce(p).value;
    var order: seq<nat> :| Lists(order, Trailing(m, start, stop, |tokens|)) &&
      text == Flatten(tokens, Walk(m, start, stop + 1)) + Texts(m, order);
    if stop < |tokens| - 1 {
      OneListed(order, {}, 0);
      assert Texts(m, order) == "";
    }
  }

  // A program of deletions leaves nothing to trail.
  lemma DeletesMeanText(tokens: seq<Token>, p: seq<Op>, text: string)
    requires Stream(tokens) && DeletesOnly(p) && OrderedAll(p) && MeansText(tokens, p, text)
    ensures AllBelow(Untouched(p, 0, |tokens| - 1), |tokens|)
    ensures text == TextsAt(tokens, Untouched(p, 0, |tokens| - 1))
  {
    var d, n := Meaning(p).value, |tokens|;
    DeletesMeant(p);
    DeletesText(tokens, p, d, 0, n - 1);
    var order: seq<nat> :| Lists(order, Rest(d, n)) && text == DocText(tokens, d, 0, n) + Texts(Operations(d), order);
    NoTexts(Operations(d), order);
  }

  lemma {:induction false} NoTexts(m: map<nat, Op>, order: seq<nat>)
    requires forall k :: k in m ==> !m[k].Gone? && m[k].text == ""
    ensures Texts(m, order) == ""
    decreases |order|
  {
    if order != [] {
      NoTexts(m, order[..|order| - 1]);
    }
  }

  lemma {:induction false} CollectIndexed(p: seq<Op>)
    requires OrderedAll(p) && Collect(p).Ok?
    ensures Indexed(Collect(p).value)
    decreases |p|
  {
    if p != [] {
      CollectIndexed(p[..|p| - 1]);
      assert Ordered(p[|p| - 1]);
    }
  }

  lemma ReduceIndexed(p: seq<Op>)
    requires OrderedAll(p) && Reduce(p).Ok?
    ensures Indexed(Reduce(p).value) && OrderedAll(Reduced(p).value)
  {
    ReduceMeans(p);
    WalkMeans(p);
    MeaningApart(p);
    OperationsIndexed(Meaning(p).value);
    InsertWalkIs(WalkReplaces(p).value);
    SettledSeparate(WalkReplaces(p).value, Reduced(p).value);
  }

  class TokenStreamRewriter {
    const tokens: seq<Token>
    var rewrites: seq<Op>

    constructor (tokens: seq<Token>)
      requires Stream(tokens)
      ensures this.tokens == tokens && rewrites == [] && Valid()
    {
      this.tokens := tokens;
      rewrites := [];
    }

    ghost predicate Valid()
      reads this
    {
      Stream(tokens) && OrderedAll(rewrites)
    }

    method InsertBefore(index: nat, text: string)
      requires Valid()
      modifies this
      ensures Valid() && rewrites == old(rewrites) + [Insert(index, text)]
    {
      rewrites := rewrites + [Insert(index, text)];
    }

    // After the last index there is, that is before the first token.
    method InsertAfter(index: nat, text: string)
      requires Valid() && index <= INVALID_INDEX
      modifies this
      ensures Valid() && rewrites == old(rewrites) + [Insert(if index == INVALID_INDEX then 0 else index + 1, text)]
    {
      InsertBefore((index + 1) % (INVALID_INDEX + 1), text);
    }

    method ReplaceRange(from: nat, to: nat, text: string) returns (r: Result<()>)
      requires Valid()
      modifies this
      ensures Valid()
      ensures from > to || to >= |tokens| ==> r == Err(InvalidRange) && rewrites == old(rewrites)
      ensures from <= to < |tokens| ==> r == Ok(()) && rewrites == old(rewrites) + [Replace(from, to, text)]
    {
      if from > to || to >= |tokens| {
        return Err(InvalidRange);
      }
      rewrites := rewrites + [Replace(from, to, text)];
      r := Ok(());
    }

    method Delete(from: nat, to: nat) returns (r: Result<()>)
      requires Valid()
      modifies this
      ensures Valid()
      ensures from > to || to >= |tokens| ==> r == Err(InvalidRange) && rewrites == old(rewrites)
      ensures from <= to < |tokens| ==> r == Ok(()) && rewrites == old(rewrites) + [Replace(from, to, "")]
    {
      r := ReplaceRange(from, to, "");
    }

    // Wipe prior inserts within the range of the replacement at i.
    method WipePriorInserts(i: nat)
      requires i < |rewrites| && rewrites[i].Replace? && Ordered(rewrites[i])
      modifies this
      ensures var p, o := old(rewrites)[..i], old(rewrites)[i];
              rewrites == Wiped(p, o.index, o.last) + [Replace(o.index, o.last, Gathered(p, o.index) + o.text)]
                  + old(rewrites)[i + 1..]
    {
      ghost var was, rop := rewrites, rewrites[i];
      assert was[..0] == [] && "" + rop.text == rop.text;
      for j := 0 to i
        invariant |rewrites| == |was|
        invariant forall k :: 0 <= k < j ==> rewrites[k] == if was[k].Insert?
            && InRange(was[k].index, rop.index, rop.last) then Gone else was[k]
        invariant forall k :: j <= k < |was| && k != i ==> rewrites[k] == was[k]
        invariant rewrites[i] == Replace(rop.index, rop.last, Gathered(was[..j], rop.index) + rop.text)
      {
        var iop, r := rewrites[j], rewrites[i];
        if iop.Insert? && iop.index == rop.index {
          TakenText(was, j, rop.index, rop.text, r.text);
        } else {
          SameText(was, j, rop.index);
        }
        if iop.Insert? {
          if iop.index == r.index {
            rewrites := rewrites[j := Gone];
            rewrites := rewrites[i := Replace(r.index, r.last, iop.text + if r.text != "" then r.text else "")];
          } else if iop.index > r.index && iop.index <= r.last {
            rewrites := rewrites[j := Gone];
          }
        }
      }
      Assembled(rewrites, Wiped(was[..i], rop.index, rop.last), rewrites[i], was);
    }

    // Drop prior replaces within the replacement at i, and merge deletions into it.
    method DropPriorReplaces(i: nat) returns (ok: bool)
      requires i < |rewrites| && rewrites[i].Replace?
      modifies this
      ensures var o := DropPrior(old(rewrites)[..i], old(rewrites)[i]);
              (ok <==> o.Ok?) && (o.Err? ==> o.error == Overlap) &&
              (ok ==> rewrites == o.value.0 + [o.value.1] + old(rewrites)[i + 1..])
    {
      ghost var was, rop := rewrites, rewrites[i];
      ghost var p := was[..i];
      ok := true;
      assert p[..0] == [];
      for j := 0 to i
        invariant |rewrites| == |was| && ok
        invariant DropPrior(p[..j], rop) == Ok((rewrites[..j], rewrites[i]))
        invariant forall k :: j <= k < |was| && k != i ==> rewrites[k] == was[k]
      {
        var prev, r := rewrites[j], rewrites[i];
        ghost var done := rewrites[..j];
        assert p[..j + 1][..j] == p[..j] && p[..j + 1][j] == prev;
        if prev.Replace? {
          if prev.index >= r.index && prev.last <= r.last {
            rewrites := rewrites[j := Gone];
          } else {
            var disjoint := prev.last < r.index || prev.index > r.last;
            if prev.text == "" && r.text == "" && !disjoint {
              rewrites := rewrites[j := Gone];
              rewrites := rewrites[i := Replace(Min(prev.index, r.index), Max(prev.last, r.last), r.text)];
            } else if !disjoint {
              ok := false;
              assert DropPrior(p[..j + 1], rop) == Err(Overlap);
              DropPriorFails(p, j + 1, rop);
              return;
            }
          }
        }
        assert rewrites[..j + 1] == done + [rewrites[j]];
      }
      assert p[..i] == p;
      assert rewrites == rewrites[..i] + [rewrites[i]] + rewrites[i + 1..];
      assert rewrites[i + 1..] == was[i + 1..];
    }

    method SettleReplace(i: nat) returns (ok: bool)
      requires i < |rewrites| && rewrites[i].Replace? && Ordered(rewrites[i])
      modifies this
      ensures var o := ReplaceStep(old(rewrites)[..i], old(rewrites)[i]);
              (ok <==> o.Ok?) && (o.Err? ==> o.error == Overlap)
                  && (ok ==> rewrites == o.value + old(rewrites)[i + 1..])
    {
      ghost var p, o := rewrites[..i], rewrites[i];
      WipePriorInserts(i);
      assert rewrites[..i] == Wiped(p, o.index, o.last);
      assert rewrites[i + 1..] == old(rewrites)[i + 1..];
      ok := DropPriorReplaces(i);
    }

    // One entry of the walk: the entries before it have been walked, those behind it have not.
    method WalkReplaceAt(i: nat, ghost done: seq<Op>, ghost p: seq<Op>) returns (ok: bool)
      requires i == |done| < |p| && rewrites == done + p[i..] && Ordered(p[i])
      modifies this
      ensures var o := ReplaceStep(done, p[i]);
              (ok <==> o.Ok?) && (o.Err? ==> o.error == Overlap) && (ok ==> rewrites == o.value + p[i + 1..])
    {
      Front(done, p, i);
      ok := true;
      if rewrites[i].Replace? {
        ok := SettleReplace(i);
      }
    }

    // WALK REPLACES
    method WalkAllReplaces() returns (ok: bool)
      requires OrderedAll(rewrites)
      modifies this
      ensures ok <==> WalkReplaces(old(rewrites)).Ok?
      ensures ok ==> WalkReplaces(old(rewrites)) == Ok(rewrites)
      ensures !ok ==> WalkReplaces(old(rewrites)) == Err(Overlap)
    {
      ghost var p, done := rewrites, [];
      ok := true;
      for i := 0 to |rewrites|
        invariant |done| == i && |p| == |rewrites| && ok
        invariant rewrites == done + p[i..]
        invariant WalkReplaces(p[..i]) == Ok(done)
      {
        Front(done, p, i);
        assert Ordered(p[i]);
        NextReplaces(p[..i], done, p[i]);
        ok := WalkReplaceAt(i, done, p);
        if !ok {
          WalkReplacesFails(p, i + 1);
          return;
        }
        done := ReplaceStep(done, p[i]).value;
      }
      assert p[..|p|] == p && done + p[|p|..] == done;
    }

    // Combine the insert at i with prior ones at its index.
    method CombinePriorInserts(i: nat)
      requires i < |rewrites| && rewrites[i].Insert?
      modifies this
      ensures var p, o := old(rewrites)[..i], old(rewrites)[i];
              rewrites == Wiped(p, o.index, o.index) + [Insert(o.index, o.text + PriorText(p, o.index))]
                  + old(rewrites)[i + 1..]
    {
      ghost var was, iop := rewrites, rewrites[i];
      assert was[..0] == [] && iop.text + "" == iop.text;
      for j := 0 to i
        invariant |rewrites| == |was|
        invariant forall k :: 0 <= k < j ==> rewrites[k] == if was[k].Insert?
            && InRange(was[k].index, iop.index, iop.index) then Gone else was[k]
        invariant forall k :: j <= k < |was| && k != i ==> rewrites[k] == was[k]
        invariant rewrites[i] == Insert(iop.index, iop.text + PriorText(was[..j], iop.index))
      {
        var prev, r := rewrites[j], rewrites[i];
        PriorNext(was, j, iop.index);
        if prev.Insert? && prev.index == r.index {
          rewrites := rewrites[i := Insert(r.index, r.text + prev.text)];
          rewrites := rewrites[j := Gone];
          Append(iop.text, PriorText(was[..j], iop.index), prev.text);
        }
      }
      Assembled(rewrites, Wiped(was[..i], iop.index, iop.index), rewrites[i], was);
    }

    // Give the insert at i to a prior replacement that starts at its index.
    method AttachToPriorReplaces(i: nat) returns (ok: bool)
      requires i < |rewrites| && rewrites[i].Insert?
      modifies this
      ensures var o := AttachPrior(old(rewrites)[..i], old(rewrites)[i]);
              (ok <==> o.Ok?) && (o.Err? ==> o.error == InsertInside) &&
              (ok ==> rewrites == o.value.0 + [if o.value.1 then Gone else old(rewrites)[i]] + old(rewrites)[i + 1..])
    {
      ghost var was := rewrites;
      var iop := rewrites[i];
      ghost var p := was[..i];
      ghost var attached := false;
      ok := true;
      assert p[..0] == [];
      for j := 0 to i
        invariant |rewrites| == |was| && ok
        invariant AttachPrior(p[..j], iop) == Ok((rewrites[..j], attached))
        invariant rewrites[i] == if attached then Gone else iop
        invariant forall k :: j <= k < |was| && k != i ==> rewrites[k] == was[k]
      {
        var rop := rewrites[j];
        ghost var done := rewrites[..j];
        assert p[..j + 1][..j] == p[..j] && p[..j + 1][j] == rop;
        if rop.Replace? {
          if iop.index == rop.index {
            rewrites := rewrites[j := Replace(rop.index, rop.last, iop.text + rop.text)];
            rewrites := rewrites[i := Gone];
            attached := true;
          } else if iop.index >= rop.index && iop.index <= rop.last {
            ok := false;
            assert AttachPrior(p[..j + 1], iop) == Err(InsertInside);
            AttachPriorFails(p, j + 1, iop);
            return;
          }
        }
        assert rewrites[..j + 1] == done + [rewrites[j]];
      }
      assert p[..i] == p;
      assert rewrites == rewrites[..i] + [rewrites[i]] + rewrites[i + 1..];
      assert rewrites[i + 1..] == was[i + 1..];
    }

    method SettleInsert(i: nat) returns (ok: bool)
      requires i < |rewrites| && rewrites[i].Insert?
      modifies this
      ensures var o := InsertStep(old(rewrites)[..i], old(rewrites)[i]);
              (ok <==> o.Ok?) && (o.Err? ==> o.error == InsertInside)
                  && (ok ==> rewrites == o.value + old(rewrites)[i + 1..])
    {
      ghost var p, o := rewrites[..i], rewrites[i];
      CombinePriorInserts(i);
      assert rewrites[..i] == Wiped(p, o.index, o.index);
      assert rewrites[i + 1..] == old(rewrites)[i + 1..];
      ok := AttachToPriorReplaces(i);
    }

    // WALK INSERTS
    method WalkAllInserts() returns (ok: bool)
      modifies this
      ensures ok <==> WalkInserts(old(rewrites)).Ok?
      ensures ok ==> WalkInserts(old(rewrites)) == Ok(rewrites)
      ensures !ok ==> WalkInserts(old(rewrites)) == Err(InsertInside)
    {
      ghost var p, done := rewrites, [];
      ok := true;
      for i := 0 to |rewrites|
        invariant |done| == i && |p| == |rewrites| && ok
        invariant rewrites == done + p[i..]
        invariant WalkInserts(p[..i]) == Ok(done)
      {
        Front(done, p, i);
        NextInserts(p[..i], done, p[i]);
        if rewrites[i].Insert? {
          ok := SettleInsert(i);
          if !ok {
            WalkInsertsFails(p, i + 1);
            return;
          }
        }
        done := InsertStep(done, p[i]).value;
      }
      assert p[..|p|] == p && done + p[|p|..] == done;
    }

    // The rewrites vector by token index.
    method CollectAll() returns (r: Result<map<nat, Op>>)
      ensures r == Collect(rewrites)
    {
      var m: map<nat, Op> := map[];
      for i := 0 to |rewrites|
        invariant Collect(rewrites[..i]) == Ok(m)
      {
        var op := rewrites[i];
        assert rewrites[..i + 1][..i] == rewrites[..i];
        if !op.Gone? {
          if op.index in m {
            CollectFails(rewrites, i + 1);
            return Err(TwoOps);
          }
          m := m[op.index := op];
        }
      }
      assert rewrites[..|rewrites|] == rewrites;
      r := Ok(m);
    }

    method ReduceToSingleOperationPerIndex() returns (r: Result<map<nat, Op>>)
      requires Valid()
      modifies this
      ensures r == Reduce(old(rewrites))
      ensures r.Ok? ==> Reduced(old(rewrites)) == Ok(rewrites) && Valid()
    {
      var ok := WalkAllReplaces();
      if !ok {
        return Err(Overlap);
      }
      ok := WalkAllInserts();
      if !ok {
        return Err(InsertInside);
      }
      r := CollectAll();
      if r.Ok? {
        ReduceIndexed(old(rewrites));
      }
    }

    // The text of the token buffer itself, up to its end-of-file token.
    method BufferText(start: nat, stop: nat) returns (text: string)
      requires Valid()
      ensures text == if start == INVALID_INDEX || stop == INVALID_INDEX then ""
          else TextOf(Before(tokens, start, stop))
    {
      if start == INVALID_INDEX || stop == INVALID_INDEX {
        return "";
      }
      var end: nat := Min(stop, |tokens| - 1);
      text := "";
      var i: nat := start;
      while i <= end && tokens[i].kind != EOF
        invariant start <= i
        invariant text + TextOf(Before(tokens, i, stop)) == TextOf(Before(tokens, start, stop))
        decreases end - i
      {
        BeforeNext(tokens, i, stop);
        Append(text, tokens[i].text, TextOf(Before(tokens, i + 1, stop)));
        text := text + tokens[i].text;
        i := i + 1;
      }
      assert Before(tokens, i, stop) == [];
      assert text + "" == text;
    }

    // What was not executed and belongs after the last token, in any order.
    method TailText(ops: map<nat, Op>) returns (text: string)
      requires Valid() && Indexed(ops)
      ensures exists order: seq<nat> :: Lists(order, set k | k in ops && |tokens| - 1 <= k) && text == Texts(ops, order)
    {
      text := "";
      ghost var order: seq<nat> := [];
      var rest: map<nat, Op> := ops;
      ghost var done: set<nat> := {};
      while rest.Keys != {}
        invariant forall k :: k in rest ==> k in ops && rest[k] == ops[k]
        invariant done == Executed(ops, rest)
        invariant Lists(order, done)
        invariant text == Texts(ops, order)
        decreases |rest.Keys|
      {
        var k: nat :| k in rest.Keys;
        if rest[k].index >= |tokens| - 1 {
          text := text + rest[k].text;
          ListsMore(order, done, k);
          assert (order + [k])[..|order|] == order;
          order, done := order + [k], done + {k};
        }
        ExecutedMore(ops, rest, k);
        rest := rest - {k};
      }
      assert done == set k | k in ops && |tokens| - 1 <= k;
    }

    // The trailing operations that are no longer in rest.
    ghost function Executed(ops: map<nat, Op>, rest: map<nat, Op>): set<nat> {
      set k | k in ops && k !in rest && |tokens| - 1 <= k
    }

    lemma ExecutedMore(ops: map<nat, Op>, rest: map<nat, Op>, k: nat)
      requires k in rest && k in ops
      ensures Executed(ops, rest - {k}) == Executed(ops, rest) + if |tokens| - 1 <= k then {k} else {}
    {}

    // The text of a range of tokens as edited. Reading reduces the program.
    method GetText(from: nat, to: nat) returns (r: Result<string>)
      requires Valid()
      modifies this
      ensures old(rewrites) == [] ==> rewrites == []
      ensures old(rewrites) == [] && (from == INVALID_INDEX || to == INVALID_INDEX) ==> r == Ok("")
      ensures old(rewrites) != [] || (from != INVALID_INDEX && to != INVALID_INDEX) ==>
        var stop, start := if to < |tokens| then to else |tokens| - 1, if from == INVALID_INDEX then 0 else from;
        var reduced := Reduce(old(rewrites));
        if reduced.Err? then r == Err(reduced.error)
        else
          && Reduced(old(rewrites)) == Ok(rewrites) && Valid()
          && Indexed(reduced.value) && r.Ok? && Reads(tokens, reduced.value, start, stop, r.value)
          && SaysOf(tokens, old(rewrites), start, stop, r.value)
      ensures old(rewrites) == [] && from != INVALID_INDEX && to != INVALID_INDEX ==>
                r == Ok(TextOf(Before(tokens, from, to)))
    {
      var stop, start := Min(to, |tokens| - 1), if from == INVALID_INDEX then 0 else from;
      if rewrites == [] {
        var text := BufferText(from, to);
        if from != INVALID_INDEX && to != INVALID_INDEX {
          assert Before(tokens, from, to) == Before(tokens, start, stop);
          PlainReads(tokens, start, stop);
          ReadsSay(tokens, [], start, stop, text);
        }
        return Ok(text);
      }
      ReducedIndexed();
      ghost var p := rewrites;
      var reduced := ReduceToSingleOperationPerIndex();
      if reduced.Err? {
        return Err(reduced.error);
      }
      var text := Execute(reduced.value, start, stop);
      ReadsSay(tokens, p, start, stop, text);
      r := Ok(text);
    }

    // The text of the whole stream: what the edits mean for each token, then what they put past the
    // last one.
    method GetWholeText() returns (r: Result<string>)
      requires Valid()
      modifies this
      ensures Reduce(old(rewrites)).Err? ==> r == Err(Reduce(old(rewrites)).error)
      ensures Reduce(old(rewrites)).Ok? ==> r.Ok? && Valid() && Reduced(old(rewrites)) == Ok(rewrites)
      ensures Reduce(old(rewrites)).Ok? ==> MeansText(tokens, old(rewrites), r.value)
      ensures InsertsOnly(old(rewrites)) && (forall j ::
          0 <= j < |old(rewrites)| ==> old(rewrites)[j].index <= |tokens|) ==>
        r == Ok(Direct(tokens, old(rewrites), 0) + Gathered(old(rewrites), |tokens|))
      ensures old(rewrites) == [] ==> r == Ok(TextOf(tokens[..|tokens| - 1]))
      ensures DeletesOnly(old(rewrites)) ==>
                AllBelow(Untouched(old(rewrites), 0, |tokens| - 1), |tokens|)
                && r == Ok(TextsAt(tokens, Untouched(old(rewrites), 0, |tokens| - 1)))
    {
      ghost var p := rewrites;
      r := GetText(0, |tokens| - 1);
      if r.Ok? {
        ReadsMean(tokens, p, r.value);
      }
      if InsertsOnly(p) && forall j :: 0 <= j < |p| ==> p[j].index <= |tokens| {
        InsertsRead(tokens, p);
        InsertsMeanText(tokens, p, r.value);
      }
      if DeletesOnly(p) {
        DeletesReduce(p);
        DeletesMeanText(tokens, p, r.value);
      }
      assert 0 < |tokens| - 1 ==> tokens[0..|tokens| - 1] == tokens[..|tokens| - 1];
    }

    lemma ReducedIndexed()
      requires Valid()
      ensures Reduce(rewrites).Ok? ==> Indexed(Reduce(rewrites).value)
    {
      if Reduce(rewrites).Ok? {
        ReduceIndexed(rewrites);
      }
    }

    // Execute the operation at token i, if any; the result says what it appends and where to go on.
    method ExecuteAt(m: map<nat, Op>, i: nat) returns (text: string, next: nat)
      requires Valid() && Indexed(m) && i < |tokens|
      ensures text == OwnText(m, i) + if i in m && m[i].Replace? then "" else TokenText(i)
      ensures next == Next(m, i)
    {
      if i !in m {
        text := TokenText(i);
        next := i + 1;
        assert text == "" + text;
      } else if m[i].Insert? {
        text := m[i].text;
        text := text + TokenText(i);
        next := i + 1;
      } else {
        text := m[i].text;
        next := m[i].last + 1;
        assert text == text + "";
      }
    }

    // Walk the buffer, executing operations and emitting tokens; those executed are erased.
    method ExecuteAll(m: map<nat, Op>, start: nat, stop: nat) returns (text: string, ops: map<nat, Op>)
      requires Valid() && Indexed(m) && stop < |tokens|
      ensures Indexed(ops) && (forall k :: k in ops ==> k in m && ops[k] == m[k])
      ensures ops.Keys == Left(m, start, stop + 1)
      ensures text == Flatten(tokens, Walk(m, start, stop + 1))
    {
      ops, text := m, "";
      var i: nat := start;
      while i <= stop
        invariant start <= i && Walked(m, ops, text, start, i, stop + 1)
        decreases stop + 1 - i
      {
        var emitted, next := ExecuteAt(ops, i);
        WalkedOn(m, ops, text, start, i, stop + 1, emitted);
        text := text + emitted;
        ops := ops - {i};
        i := next;
      }
      assert text + "" == text;
    }

    // What the walk has come to at token i: the text so far, and the operations executed erased.
    ghost predicate Walked(m: map<nat, Op>, ops: map<nat, Op>, text: string, start: nat, i: nat, end: nat)
      requires Indexed(m)
      reads this
    {
      && Unvisited(m, ops, i)
      && text + Flatten(tokens, Walk(m, i, end)) == Flatten(tokens, Walk(m, start, end))
      && Left(m, start, end) == ops.Keys * Left(m, i, end)
    }

    lemma WalkedOn(m: map<nat, Op>, ops: map<nat, Op>, text: string, start: nat, i: nat, end: nat, emitted: string)
      requires Valid() && Indexed(m) && start <= i < end <= |tokens| && Walked(m, ops, text, start, i, end)
      requires emitted == OwnText(ops, i) + if i in ops && ops[i].Replace? then "" else TokenText(i)
      ensures Indexed(ops) && Next(ops, i) == Next(m, i)
      ensures Walked(m, ops - {i}, text + emitted, start, Next(m, i), end)
    {
      SameAt(m, ops, i);
      EmitsAfter(m, i, end, text, emitted);
      LeftNext(m, ops, i, end);
    }

    lemma EmitsAfter(m: map<nat, Op>, i: nat, end: nat, text: string, emitted: string)
      requires Valid() && Indexed(m) && i < end <= |tokens|
      requires emitted == OwnText(m, i) + if i in m && m[i].Replace? then "" else TokenText(i)
      ensures text + Flatten(tokens, Walk(m, i, end)) ==
              (text + emitted) + Flatten(tokens, Walk(m, Next(m, i), end))
    {
      Emits(m, i, end);
      Append(text, emitted, Flatten(tokens, Walk(m, Next(m, i), end)));
    }

    // Erased are operations before token i only.
    ghost predicate Unvisited(m: map<nat, Op>, ops: map<nat, Op>, i: nat) {
      && (forall k :: k in ops ==> k in m && ops[k] == m[k])
      && (forall k :: i <= k && k in m ==> k in ops)
    }

    lemma SameAt(m: map<nat, Op>, ops: map<nat, Op>, i: nat)
      requires Indexed(m) && Unvisited(m, ops, i)
      ensures Indexed(ops) && OwnText(ops, i) == OwnText(m, i) && Next(ops, i) == Next(m, i)
      ensures (i in ops && ops[i].Replace?) == (i in m && m[i].Replace?)
      ensures Unvisited(m, ops - {i}, Next(m, i))
    {}

    lemma LeftNext(m: map<nat, Op>, ops: map<nat, Op>, i: nat, end: nat)
      requires Indexed(m) && i < end && Unvisited(m, ops, i)
      ensures (ops - {i}).Keys * Left(m, Next(m, i), end) == ops.Keys * Left(m, i, end)
    {}

    function TokenText(i: nat): string
      requires i < |tokens|
    {
      if tokens[i].kind == EOF then "" else tokens[i].text
    }

    method Execute(m: map<nat, Op>, start: nat, stop: nat) returns (text: string)
      requires Valid() && Indexed(m) && stop < |tokens|
      ensures Reads(tokens, m, start, stop, text)
    {
      var walked, ops := ExecuteAll(m, start, stop);
      var tail := "";
      ghost var order: seq<nat> := [];
      if stop == |tokens| - 1 {
        tail := TailText(ops);
        order :| Lists(order, set k | k in ops && |tokens| - 1 <= k) && tail == Texts(ops, order);
        TextsSame(ops, m, order);
      }
      text := walked + tail;
      assert Lists(order, Trailing(m, start, stop, |tokens|));
    }

    lemma Emits(m: map<nat, Op>, i: nat, end: nat)
      requires Valid() && Indexed(m) && i < end <= |tokens|
      ensures Flatten(tokens, Walk(m, i, end)) ==
              OwnText(m, i) + (if i in m && m[i].Replace? then ""
                  else TokenText(i)) + Flatten(tokens, Walk(m, Next(m, i), end))
    {
      FlattenJoin(tokens, Emitted(m, i), Walk(m, Next(m, i), end));
      FlattenShort(tokens, Emitted(m, i));
      assert Spell(tokens, Original(i)) == TokenText(i);
    }
  }

  function OwnText(m: map<nat, Op>, i: nat): string {
    if i in m && !m[i].Gone? then m[i].text else ""
  }

  lemma FlattenShort(tokens: seq<Token>, ps: seq<Piece>)
    requires 1 <= |ps| <= 2
    ensures Flatten(tokens, ps) == Spell(tokens, ps[0]) + if |ps| == 1 then "" else Spell(tokens, ps[1])
    ensures |ps| == 1 ==> Flatten(tokens, ps) == "" + Spell(tokens, ps[0]) == Spell(tokens, ps[0])
  {
    var rest := ps[1..];
    if |ps| == 2 {
      assert rest[1..] == [];
      assert Flatten(tokens, rest) == Spell(tokens, ps[1]) + "";
    }
  }

  lemma Append(t: string, a: string, rest: string)
    ensures t + (a + rest) == (t + a) + rest
  {}

  lemma {:induction false} TextsSame(ops: map<nat, Op>, m: map<nat, Op>, order: seq<nat>)
    requires forall k :: k in order ==> k in ops && k in m && ops[k] == m[k]
    ensures Texts(ops, order) == Texts(m, order)
    decreases |order|
  {
    if order != [] {
      TextsSame(ops, m, order[..|order| - 1]);
    }
  }

  lemma {:induction false} FlattenJoin(tokens: seq<Token>, a: seq<Piece>, b: seq<Piece>)
    ensures Flatten(tokens, a + b) == Flatten(tokens, a) + Flatten(tokens, b)
    decreases |a|
  {
    if a == [] {
      assert a + b == b && "" + Flatten(tokens, b) == Flatten(tokens, b);
    } else {
      FlattenJoin(tokens, a[1..], b);
      Append(Spell(tokens, a[0]), Flatten(tokens, a[1..]), Flatten(tokens, b));
      assert (a + b)[0] == a[0] && (a + b)[1..] == a[1..] + b;
    }
  }
}
