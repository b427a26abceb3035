// The text of a document, token by token, said of the tokens themselves.
module DocTexts {
  import opened Edits
  import opened EditMeaning
  import opened InsertWalk
  import opened EditText
  import opened Tokens

  // From token i to before end: a region gives its text where it starts and nothing for its other tokens; any other
  // token gives what is inserted before it and then its own text, which the end of file does not have.
  ghost function DocText(tokens: seq<Token>, d: Doc, i: nat, end: nat): string
    requires end <= |tokens|
    decreases end - i
  {
    if end <= i then ""
    else
      var here :=
        if i in d.regions then TextAt(d, i) + d.regions[i].text
        else if exists s: nat :: s in d.regions && s <= i <= d.regions[s].last then ""
        else TextAt(d, i) + if tokens[i].kind == Tokens.EOF then "" else tokens[i].text;
      here + DocText(tokens, d, i + 1, end)
  }

  // The texts of some tokens in a row, ...
  function TextOf(ts: seq<Token>): string { if ts == [] then "" else ts[0].text + TextOf(ts[1..]) }

  // ... and of those at some positions.
  predicate AllBelow(at: seq<nat>, n: nat) { forall k :: 0 <= k < |at| ==> at[k] < n }

  function TextsAt(tokens: seq<Token>, at: seq<nat>): string
    requires AllBelow(at, |tokens|)
  {
    if at == [] then "" else tokens[at[0]].text + TextsAt(tokens, at[1..])
  }

  lemma FlattenOne(tokens: seq<Token>, d: Doc, i: nat, rest: seq<Piece>)
    requires i < |tokens|
    ensures Flatten(tokens, Cell(d, i) + rest) ==
            (if i in d.regions then TextAt(d, i) + d.regions[i].text
             else if exists s: nat :: s in d.regions && s <= i <= d.regions[s].last then ""
             else TextAt(d, i) + if tokens[i].kind == Tokens.EOF then "" else tokens[i].text) + Flatten(tokens, rest)
  {
    assert Covered(d, i) <==> exists s: nat :: s in d.regions && s <= i <= d.regions[s].last by {
      assert forall s: nat :: Covers(d, s, i) <==> s in d.regions && s <= i <= d.regions[s].last;
    }
    if i in d.regions {
      FlattenNew(tokens, TextAt(d, i) + d.regions[i].text, rest);
    } else if Covered(d, i) {
      assert [] + rest == rest && "" + Flatten(tokens, rest) == Flatten(tokens, rest);
    } else {
      FlattenOriginal(tokens, i, rest);
      if i in d.ins {
        assert [New(d.ins[i].text), Original(i)] + rest == [New(d.ins[i].text)] + ([Original(i)] + rest);
        FlattenNew(tokens, d.ins[i].text, [Original(i)] + rest);
      }
    }
  }

  lemma FlattenNew(tokens: seq<Token>, text: string, rest: seq<Piece>)
    ensures Flatten(tokens, [New(text)] + rest) == text + Flatten(tokens, rest)
  {
    assert ([New(text)] + rest)[1..] == rest;
  }

  lemma FlattenOriginal(tokens: seq<Token>, i: nat, rest: seq<Piece>)
    requires i < |tokens|
    ensures Flatten(tokens, [Original(i)] + rest)
        == (if tokens[i].kind == Tokens.EOF then "" else tokens[i].text) + Flatten(tokens, rest)
  {
    assert ([Original(i)] + rest)[1..] == rest;
  }

  // The cells of a document spell its text.
  lemma {:induction false} CellsSpell(tokens: seq<Token>, d: Doc, i: nat, end: nat)
    requires end <= |tokens|
    ensures Flatten(tokens, Cells(d, i, end)) == DocText(tokens, d, i, end)
    decreases end - i
  {
    if i < end {
      CellsSpell(tokens, d, i + 1, end);
      FlattenOne(tokens, d, i, Cells(d, i + 1, end));
    }
  }

  // Reading from any token to before end, operations that trail apart: the document without the regions begun before.
  lemma WalkSpells(tokens: seq<Token>, p: seq<Op>, start: nat, end: nat)
    requires OrderedAll(p) && Reduce(p).Ok? && end <= |tokens|
    ensures Meaning(p).Ok? && Indexed(Reduce(p).value)
    ensures Flatten(tokens, Walk(Reduce(p).value, start, end))
        == DocText(tokens, From(Meaning(p).value, start), start, end)
  {
    ReduceMeans(p);
    var d := Meaning(p).value;
    MeaningApart(p);
    OperationsIndexed(d);
    WalkIsCells(d, start, start, end);
    CellsSpell(tokens, From(d, start), start, end);
  }

  lemma WholeSpells(tokens: seq<Token>, p: seq<Op>)
    requires OrderedAll(p) && Meaning(p).Ok?
    ensures Flatten(tokens, Cells(Meaning(p).value, 0, |tokens|)) == DocText(tokens, Meaning(p).value, 0, |tokens|)
  {
    CellsSpell(tokens, Meaning(p).value, 0, |tokens|);
  }

  // Without edits: the texts of the tokens before the end of file.
  lemma {:induction false} NoEdits(tokens: seq<Token>, i: nat, end: nat)
    requires Terminated(tokens) && i <= end < |tokens|
    ensures DocText(tokens, Doc(map[], map[]), i, end) == TextOf(tokens[i..end])
    decreases end - i
  {
    if i < end {
      NoEdits(tokens, i + 1, end);
      assert tokens[i..end][1..] == tokens[i + 1..end];
      assert "" + tokens[i].text == tokens[i].text;
    }
  }

  // The end-of-file token adds nothing to a document with nothing at it.
  lemma {:induction false} ToTheEnd(tokens: seq<Token>, d: Doc, i: nat)
    requires Terminated(tokens) && i < |tokens| && |tokens| - 1 !in d.ins && |tokens| - 1 !in d.regions
    ensures DocText(tokens, d, i, |tokens|) == DocText(tokens, d, i, |tokens| - 1)
    decreases |tokens| - i
  {
    var n := |tokens| - 1;
    if i < n {
      ToTheEnd(tokens, d, i + 1);
    } else {
      assert DocText(tokens, d, n + 1, n + 1) == "";
    }
  }

  predicate DeletesOnly(p: seq<Op>) { forall j :: 0 <= j < |p| ==> p[j].Replace? && p[j].text == "" }

  // Deletions alone never fail, and leave no text anywhere.
  lemma {:induction false} DeletesMean(p: seq<Op>)
    requires DeletesOnly(p) && OrderedAll(p)
    ensures Meaning(p).Ok? && Meaning(p).value.ins == map[]
    ensures forall s :: s in Meaning(p).value.regions ==> Meaning(p).value.regions[s].text == ""
    decreases |p|
  {
    if p != [] {
      var pre, o := p[..|p| - 1], p[|p| - 1];
      DeletesMean(pre);
      assert TextAt(Meaning(pre).value, o.index) + o.text == "";
      assert !Conflicts(Meaning(pre).value, o.index, o.last, "");
    }
  }

  lemma DeletesReduce(p: seq<Op>)
    requires DeletesOnly(p) && OrderedAll(p)
    ensures Reduce(p).Ok? && Meaning(p).Ok?
  {
    DeletesMean(p);
    ReduceMeans(p);
  }

  lemma {:induction false} UntouchedBelow(p: seq<Op>, i: nat, end: nat)
    ensures AllBelow(Untouched(p, i, end), end)
    decreases end - i
  {
    if i < end {
      UntouchedBelow(p, i + 1, end);
    }
  }

  // A document of deletions: no texts, and gone are exactly the tokens that a program asked for.
  ghost predicate Deletes(d: Doc, p: seq<Op>) {
    && d.ins == map[] && (forall s :: s in d.regions ==> d.regions[s].text == "" && s <= d.regions[s].last)
    && forall i: nat :: Covered(d, i) <==> Requested(p, i)
  }

  lemma DeletesMeant(p: seq<Op>)
    requires DeletesOnly(p) && OrderedAll(p)
    ensures Meaning(p).Ok? && Deletes(Meaning(p).value, p)
  {
    DeletesMean(p);
    MeaningApart(p);
    forall i: nat ensures Covered(Meaning(p).value, i) <==> Requested(p, i) {
      Coverage(p, i);
    }
  }

  // A token that deletions leave, and one that they do not.
  lemma DeletedAt(tokens: seq<Token>, p: seq<Op>, d: Doc, i: nat)
    requires Deletes(d, p) && i < |tokens|
    ensures DocText(tokens, d, i, |tokens|)
        == (if Requested(p, i) || tokens[i].kind == Tokens.EOF then "" else tokens[i].text)
            + DocText(tokens, d, i + 1, |tokens|)
  {
    assert Covered(d, i) <==> exists s: nat :: s in d.regions && s <= i <= d.regions[s].last by {
      assert forall s: nat :: Covers(d, s, i) <==> s in d.regions && s <= i <= d.regions[s].last;
    }
    assert i in d.regions ==> Covers(d, i, i);
    assert "" + tokens[i].text == tokens[i].text;
  }

  lemma TextsNext(tokens: seq<Token>, i: nat, rest: seq<nat>, gone: bool)
    requires i < |tokens| && AllBelow(rest, |tokens|)
    ensures var at := (if gone then [] else [i]) + rest;
            && AllBelow(at, |tokens|)
            && TextsAt(tokens, at) == (if gone then "" else tokens[i].text) + TextsAt(tokens, rest)
  {
    if gone {
      assert [] + rest == rest;
    } else {
      assert ([i] + rest)[1..] == rest;
    }
  }

  // What deletions leave: the tokens that none of them asked for.
  lemma {:induction false} DeletesText(tokens: seq<Token>, p: seq<Op>, d: Doc, i: nat, n: nat)
    requires Deletes(d, p) && Terminated(tokens) && n == |tokens| - 1 && i <= n
    ensures AllBelow(Untouched(p, i, n), |tokens|)
    ensures DocText(tokens, d, i, n + 1) == TextsAt(tokens, Untouched(p, i, n))
    decreases n - i
  {
    UntouchedBelow(p, i, n);
    DeletedAt(tokens, p, d, i);
    if i < n {
      DeletesText(tokens, p, d, i + 1, n);
      TextsNext(tokens, i, Untouched(p, i + 1, n), Requested(p, i));
    } else {
      assert DocText(tokens, d, n + 1, n + 1) == "";
    }
  }
}
