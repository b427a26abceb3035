// Reading a stream twice in a row: when the second text is that of the first.
module ReadTwice {
  import opened Edits
  import opened EditMeaning
  import opened InsertWalk
  import opened EditText
  import opened EditReading
  import opened Rewriter
  import opened Tokens

  // The operations of a document without those of its stale insertions.
  ghost function FreshOperations(d: Doc): map<nat, Op> {
    map i | i in Operations(d) && !Stale(d, i) :: Operations(d)[i]
  }

  // No stale insertion stands at the start of a region.
  ghost predicate StaleFree(d: Doc) { forall i :: Stale(d, i) ==> i !in d.regions }

  lemma StaleIsFree(p: seq<Op>)
    requires OrderedAll(p) && Reduce(p).Ok? && Meaning(p).Ok?
    ensures StaleFree(Meaning(p).value) && Apart(Meaning(p).value)
  {
    ReducedOk(p);
    MeaningApart(p);
  }

  // A walk from start comes to token k and finds there a stale insertion with text.
  ghost predicate Shows(d: Doc, start: nat, i: nat, end: nat, k: nat) {
    i <= k < end && Entry(From(d, start), k) && Stale(d, k) && d.ins[k].text != ""
  }

  // Both maps send a walk the same way.
  lemma SameNext(d: Doc, i: nat)
    requires Apart(d) && StaleFree(d)
    ensures Indexed(Operations(d)) && Indexed(FreshOperations(d))
    ensures Next(FreshOperations(d), i) == Next(Operations(d), i)
    ensures Emitted(FreshOperations(d), i) == if Stale(d, i) then [Original(i)] else Emitted(Operations(d), i)
    ensures Stale(d, i) ==> Emitted(Operations(d), i) == [New(d.ins[i].text), Original(i)]
  {
    OperationsIndexed(d);
  }

  lemma ShowsNext(d: Doc, start: nat, i: nat, end: nat)
    requires Apart(d) && Indexed(Operations(d)) && start <= i < end && Entry(From(d, start), i)
    ensures forall k: nat :: Shows(d, start, i, end, k) <==>
              Shows(d, start, Next(Operations(d), i), end, k) || (k == i && Stale(d, i) && d.ins[i].text != "")
  {
    forall k: nat | i < k < Next(Operations(d), i) ensures !Entry(From(d, start), k) {
      assert Covers(From(d, start), i, k);
    }
  }

  lemma EmitsLess(tokens: seq<Token>, i: nat, text: string)
    ensures var a, b := Flatten(tokens, [New(text), Original(i)]), Flatten(tokens, [Original(i)]);
            if text == "" then a == b else |b| < |a|
  {
    assert [New(text), Original(i)][1..] == [Original(i)];
    assert text == "" ==> text + Flatten(tokens, [Original(i)]) == Flatten(tokens, [Original(i)]);
  }

  // A walk without the stale insertions gives less text by those that it shows, and leaves what the walk with them
  // leaves, but for the stale insertions.
  lemma {:induction false} WalkFresh(tokens: seq<Token>, d: Doc, start: nat, i: nat, end: nat)
    requires Apart(d) && StaleFree(d) && start <= i && Entry(From(d, start), i)
    ensures Indexed(Operations(d)) && Indexed(FreshOperations(d))
    ensures var a, b := Flatten(tokens, Walk(Operations(d), i, end)), Flatten(tokens, Walk(FreshOperations(d), i, end));
            if exists k: nat :: Shows(d, start, i, end, k) then |b| < |a| else b == a
    ensures Left(FreshOperations(d), i, end) == Left(Operations(d), i, end) * FreshOperations(d).Keys
    decreases end - i
  {
    SameNext(d, i);
    if i < end {
      var m, m2 := Operations(d), FreshOperations(d);
      var next := Next(m, i);
      EntryNext(d, start, i);
      WalkFresh(tokens, d, start, next, end);
      ShowsNext(d, start, i, end);
      FlattenJoin(tokens, Emitted(m, i), Walk(m, next, end));
      FlattenJoin(tokens, Emitted(m2, i), Walk(m2, next, end));
      if Stale(d, i) {
        var text := d.ins[i].text;
        EmitsLess(tokens, i, text);
        assert text != "" <==> Shows(d, start, i, end, i);
        assert (exists k: nat :: Shows(d, start, i, end, k)) <==>
          text != "" || exists k: nat :: Shows(d, start, next, end, k);
      }
    }
  }

  function Length(m: map<nat, Op>, k: nat): nat {
    if k in m && !m[k].Gone? then |m[k].text| else 0
  }

  ghost function Total(m: map<nat, Op>, s: set<nat>): nat {
    if s == {} then 0 else var k :| k in s; Length(m, k) + Total(m, s - {k})
  }

  lemma {:induction false} TotalLess(m: map<nat, Op>, s: set<nat>, k: nat)
    requires k in s
    ensures Total(m, s) == Length(m, k) + Total(m, s - {k})
    decreases |s|
  {
    var first :| first in s && Total(m, s) == Length(m, first) + Total(m, s - {first});
    if first != k {
      TotalLess(m, s - {first}, k);
      TotalLess(m, s - {k}, first);
      assert s - {first} - {k} == s - {k} - {first};
    }
  }

  lemma {:induction false} TotalPart(m: map<nat, Op>, s: set<nat>, t: set<nat>)
    requires t <= s
    ensures Total(m, t) <= Total(m, s)
    decreases |s|
  {
    if k :| k in s && k !in t {
      TotalLess(m, s, k);
      TotalPart(m, s - {k}, t);
    } else {
      assert s == t;
    }
  }

  lemma ListsFront(order: seq<nat>, s: set<nat>)
    requires Lists(order, s) && order != []
    ensures order[|order| - 1] in s && Lists(order[..|order| - 1], s - {order[|order| - 1]})
  {
    var n := |order| - 1;
    var k := order[n];
    forall x ensures x in order[..n] <==> x in s - {k} {
      if x in order[..n] {
        var i :| 0 <= i < n && order[i] == x;
        assert order[i] != order[n];
      }
      if x in s - {k} {
        assert x in order;
      }
    }
  }

  // Whatever the order, the texts come to the same length.
  lemma {:induction false} TextsTotal(m: map<nat, Op>, order: seq<nat>, s: set<nat>)
    requires Lists(order, s)
    ensures |Texts(m, order)| == Total(m, s)
    decreases |order|
  {
    if order == [] {
      assert forall k :: k in s ==> k in order;
      assert s == {};
    } else {
      var k := order[|order| - 1];
      ListsFront(order, s);
      TextsTotal(m, order[..|order| - 1], s - {k});
      TotalLess(m, s, k);
    }
  }

  // Entries without text may be left out of an order, ...
  lemma {:induction false} LeaveOut(m: map<nat, Op>, order: seq<nat>, s: set<nat>, t: set<nat>) returns (rest: seq<nat>)
    requires Lists(order, s) && t <= s && forall k :: k in s && k !in t ==> Length(m, k) == 0
    ensures Lists(rest, t) && Texts(m, rest) == Texts(m, order)
    decreases |order|
  {
    if order == [] {
      assert forall k :: k in s ==> k in order;
      rest := [];
    } else {
      var k := order[|order| - 1];
      ListsFront(order, s);
      rest := LeaveOut(m, order[..|order| - 1], s - {k}, t - {k});
      if k in t {
        rest := ListsNext(m, rest, t - {k}, k);
        assert t - {k} + {k} == t;
      } else {
        assert t - {k} == t;
        NoText(Texts(m, order[..|order| - 1]), OwnText(m, k));
      }
    }
  }

  lemma ListsNext(m: map<nat, Op>, order: seq<nat>, s: set<nat>, k: nat) returns (more: seq<nat>)
    requires Lists(order, s) && k !in s
    ensures Lists(more, s + {k}) && Texts(m, more) == Texts(m, order) + OwnText(m, k)
  {
    more := order + [k];
    assert more[..|order|] == order;
  }

  lemma NoText(a: string, b: string)
    requires |b| == 0
    ensures a + b == a
  {}

  // ... and put in.
  lemma {:induction false} PutIn(m: map<nat, Op>, order: seq<nat>, t: set<nat>, s: set<nat>) returns (full: seq<nat>)
    requires Lists(order, t) && t <= s && forall k :: k in s && k !in t ==> Length(m, k) == 0
    ensures Lists(full, s) && Texts(m, full) == Texts(m, order)
    decreases |s - t|
  {
    if k :| k in s && k !in t {
      var more := ListsNext(m, order, t, k);
      NoText(Texts(m, order), OwnText(m, k));
      assert s - (t + {k}) < s - t;
      full := PutIn(m, more, t + {k}, s);
    } else {
      assert s == t;
      full := order;
    }
  }

  // The texts of some trailing operations, in any order.
  ghost predicate Tails(m: map<nat, Op>, s: set<nat>, text: string) {
    exists order: seq<nat> :: Lists(order, s) && text == Texts(m, order)
  }

  lemma TailsSame(m: map<nat, Op>, s: set<nat>, t: set<nat>, text: string)
    requires t <= s && forall k :: k in s && k !in t ==> Length(m, k) == 0
    ensures Tails(m, s, text) <==> Tails(m, t, text)
  {
    if Tails(m, s, text) {
      var order: seq<nat> :| Lists(order, s) && text == Texts(m, order);
      var rest := LeaveOut(m, order, s, t);
    }
    if Tails(m, t, text) {
      var order: seq<nat> :| Lists(order, t) && text == Texts(m, order);
      var full := PutIn(m, order, t, s);
    }
  }

  lemma TailsDiffer(m: map<nat, Op>, s: set<nat>, t: set<nat>, k: nat, a: string, b: string)
    requires t <= s && k in s && k !in t && Length(m, k) > 0 && Tails(m, s, a) && Tails(m, t, b)
    ensures |a| > |b|
  {
    var order: seq<nat> :| Lists(order, s) && a == Texts(m, order);
    var rest: seq<nat> :| Lists(rest, t) && b == Texts(m, rest);
    TextsTotal(m, order, s);
    TextsTotal(m, rest, t);
    TotalLess(m, s, k);
    TotalPart(m, s - {k}, t);
  }

  lemma TailsPart(m: map<nat, Op>, s: set<nat>, t: set<nat>, a: string, b: string)
    requires t <= s && Tails(m, s, a) && Tails(m, t, b)
    ensures |b| <= |a|
  {
    var order: seq<nat> :| Lists(order, s) && a == Texts(m, order);
    var rest: seq<nat> :| Lists(rest, t) && b == Texts(m, rest);
    TextsTotal(m, order, s);
    TextsTotal(m, rest, t);
    TotalPart(m, s, t);
  }

  // A part of a map trails like the map.
  lemma TailsOf(m: map<nat, Op>, m2: map<nat, Op>, t: set<nat>, text: string)
    requires t <= m.Keys && t <= m2.Keys && forall k :: k in t ==> m2[k] == m[k]
    ensures Tails(m2, t, text) <==> Tails(m, t, text)
  {
    forall order: seq<nat> | Lists(order, t) ensures Texts(m2, order) == Texts(m, order) {
      TextsSame(m2, m, order);
    }
  }

  lemma ReadsTails(tokens: seq<Token>, m: map<nat, Op>, start: nat, stop: nat, text: string)
    requires Indexed(m) && 0 < |tokens|
    ensures Reads(tokens, m, start, stop, text) <==>
            exists tail :: Tails(m, Trailing(m, start, stop, |tokens|), tail)
              && text == Flatten(tokens, Walk(m, start, stop + 1)) + tail
  {
    if Reads(tokens, m, start, stop, text) {
      var order: seq<nat> :| Lists(order, Trailing(m, start, stop, |tokens|))
        && text == Flatten(tokens, Walk(m, start, stop + 1)) + Texts(m, order);
      assert Tails(m, Trailing(m, start, stop, |tokens|), Texts(m, order));
    }
  }

  // An insertion with text that a deletion grew over and that reading from start to stop shows all the same: the
  // reading starts behind the start of the region, or the insertion is at the end of file or past it.
  ghost predicate StaleShows(d: Doc, start: nat, stop: nat, n: nat, i: nat) {
    && Stale(d, i) && d.ins[i].text != ""
    && ((start <= i <= stop && Entry(From(d, start), i)) || (stop == n - 1 && n - 1 <= i))
  }

  // Two readings in a row may give the same texts, ...
  ghost predicate SameReadings(tokens: seq<Token>, m: map<nat, Op>, m2: map<nat, Op>, start: nat, stop: nat)
    requires Indexed(m) && Indexed(m2) && 0 < |tokens|
  {
    forall text :: Reads(tokens, m, start, stop, text) <==> Reads(tokens, m2, start, stop, text)
  }

  // ... or none in common.
  ghost predicate OtherReadings(tokens: seq<Token>, m: map<nat, Op>, m2: map<nat, Op>, start: nat, stop: nat)
    requires Indexed(m) && Indexed(m2) && 0 < |tokens|
  {
    forall text :: Reads(tokens, m, start, stop, text) ==> !Reads(tokens, m2, start, stop, text)
  }

  // What trails in a document, and in the document without its stale insertions.
  lemma TrailingFresh(tokens: seq<Token>, d: Doc, start: nat, stop: nat, end: nat)
    requires Apart(d) && StaleFree(d) && 0 < |tokens| && end == stop + 1
    ensures Indexed(Operations(d)) && Indexed(FreshOperations(d))
    ensures var m, m2, n := Operations(d), FreshOperations(d), |tokens|;
            && Trailing(m2, start, stop, n) == Trailing(m, start, stop, n) * m2.Keys
            && var a, b := Flatten(tokens, Walk(m, start, end)), Flatten(tokens, Walk(m2, start, end));
               if exists k: nat :: Shows(d, start, start, end, k) then |b| < |a| else b == a
  {
    assert Entry(From(d, start), start);
    WalkFresh(tokens, d, start, start, end);
  }

  // What is not shown on the way trails.
  lemma StaleTrails(d: Doc, start: nat, n: nat, i: nat)
    requires Apart(d) && 0 < n && Stale(d, i) && n - 1 <= i && !(start <= i <= n - 1 && Entry(From(d, start), i))
    ensures Indexed(Operations(d)) && i in Trailing(Operations(d), start, n - 1, n)
  {
    OperationsIndexed(d);
    assert Entry(From(d, start), start) && i in Operations(d);
    LeftOver(d, start, start, n, i);
  }

  lemma TrailingParts(d: Doc, s: set<nat>, t: set<nat>, text: string)
    requires Apart(d) && Indexed(Operations(d)) && s <= Operations(d).Keys && t == s * FreshOperations(d).Keys
    ensures Tails(FreshOperations(d), t, text) <==> Tails(Operations(d), t, text)
  {
    TailsOf(Operations(d), FreshOperations(d), t, text);
  }

  lemma SameWhere(tokens: seq<Token>, d: Doc, start: nat, stop: nat)
    requires Apart(d) && StaleFree(d) && 0 < |tokens| && forall i :: !StaleShows(d, start, stop, |tokens|, i)
    ensures Indexed(Operations(d)) && Indexed(FreshOperations(d))
    ensures SameReadings(tokens, Operations(d), FreshOperations(d), start, stop)
  {
    var end: nat := stop + 1;
    TrailingFresh(tokens, d, start, stop, end);
    var n, m, m2 := |tokens|, Operations(d), FreshOperations(d);
    var s, t := Trailing(m, start, stop, n), Trailing(m2, start, stop, n);
    forall k: nat ensures !Shows(d, start, start, end, k) {
      assert !StaleShows(d, start, stop, n, k);
    }
    forall k | k in s && k !in t ensures Length(m, k) == 0 {
      assert Stale(d, k) && !StaleShows(d, start, stop, n, k);
    }
    forall tail ensures Tails(m2, t, tail) <==> Tails(m, s, tail) {
      TrailingParts(d, s, t, tail);
      TailsSame(m, s, t, tail);
    }
    forall text ensures Reads(tokens, m, start, stop, text) <==> Reads(tokens, m2, start, stop, text) {
      ReadsTails(tokens, m, start, stop, text);
      ReadsTails(tokens, m2, start, stop, text);
    }
  }

  // The texts that trail come to no more without the stale insertions, and to less without one that trails.
  lemma TailsLess(d: Doc, s: set<nat>, t: set<nat>, i: nat, a: string, b: string)
    requires Apart(d) && StaleFree(d) && Indexed(Operations(d))
    requires s <= Operations(d).Keys && t == s * FreshOperations(d).Keys
    requires Tails(Operations(d), s, a) && Tails(FreshOperations(d), t, b)
    ensures |b| <= |a|
    ensures i in s && Stale(d, i) && d.ins[i].text != "" ==> |b| < |a|
  {
    var m := Operations(d);
    TrailingParts(d, s, t, b);
    if i in s && Stale(d, i) && d.ins[i].text != "" {
      TailsDiffer(m, s, t, i, a, b);
    } else {
      TailsPart(m, s, t, a, b);
    }
  }

  // Readings of different length have no text in common.
  lemma OtherLengths(tokens: seq<Token>, m: map<nat, Op>, m2: map<nat, Op>, start: nat, stop: nat, v: string,
                     w: string, s: set<nat>, t: set<nat>)
    requires Indexed(m) && Indexed(m2) && 0 < |tokens|
    requires v == Flatten(tokens, Walk(m, start, stop + 1)) && w == Flatten(tokens, Walk(m2, start, stop + 1))
    requires s == Trailing(m, start, stop, |tokens|) && t == Trailing(m2, start, stop, |tokens|)
    requires forall a, b :: Tails(m, s, a) && Tails(m2, t, b) ==> |w| + |b| < |v| + |a|
    ensures OtherReadings(tokens, m, m2, start, stop)
  {
    forall text | Reads(tokens, m, start, stop, text) ensures !Reads(tokens, m2, start, stop, text) {
      ReadsTails(tokens, m, start, stop, text);
      ReadsTails(tokens, m2, start, stop, text);
      var a :| Tails(m, s, a) && text == v + a;
      forall b | Tails(m2, t, b) ensures text != w + b {
        assert |v + a| == |v| + |a| && |w + b| == |w| + |b|;
      }
    }
  }

  lemma ShowsOrTrails(d: Doc, start: nat, stop: nat, end: nat, n: nat, i: nat)
    requires Apart(d) && 0 < n && end == stop + 1 && StaleShows(d, start, stop, n, i)
    ensures Indexed(Operations(d))
    ensures Shows(d, start, start, end, i) || i in Trailing(Operations(d), start, stop, n)
  {
    OperationsIndexed(d);
    if !(start <= i <= stop && Entry(From(d, start), i)) {
      StaleTrails(d, start, n, i);
    }
  }

  lemma AllLess(d: Doc, s: set<nat>, t: set<nat>, i: nat, v: string, w: string)
    requires Apart(d) && StaleFree(d) && Indexed(Operations(d)) && Stale(d, i) && d.ins[i].text != ""
    requires s <= Operations(d).Keys && t == s * FreshOperations(d).Keys && |w| <= |v| && (|w| < |v| || i in s)
    ensures forall a, b :: Tails(Operations(d), s, a) && Tails(FreshOperations(d), t, b) ==> |w| + |b| < |v| + |a|
  {
    forall a, b | Tails(Operations(d), s, a) && Tails(FreshOperations(d), t, b) ensures |w| + |b| < |v| + |a| {
      TailsLess(d, s, t, i, a, b);
    }
  }

  lemma OtherWhere(tokens: seq<Token>, d: Doc, start: nat, stop: nat, i: nat)
    requires Apart(d) && StaleFree(d) && 0 < |tokens| && StaleShows(d, start, stop, |tokens|, i)
    ensures Indexed(Operations(d)) && Indexed(FreshOperations(d))
    ensures OtherReadings(tokens, Operations(d), FreshOperations(d), start, stop)
  {
    var end: nat := stop + 1;
    TrailingFresh(tokens, d, start, stop, end);
    ShowsOrTrails(d, start, stop, end, |tokens|, i);
    var m, m2 := Operations(d), FreshOperations(d);
    var s, t := Trailing(m, start, stop, |tokens|), Trailing(m2, start, stop, |tokens|);
    var v, w := Flatten(tokens, Walk(m, start, end)), Flatten(tokens, Walk(m2, start, end));
    assert |w| <= |v| && (|w| < |v| || i in s);
    AllLess(d, s, t, i, v, w);
    OtherLengths(tokens, m, m2, start, stop, v, w, s, t);
  }

  // The second of two readings in a row of the tokens from start to stop may give the texts that the first may
  // give, exactly where no stale insertion shows; otherwise the second text is never that of the first.
  lemma TextsAgain(tokens: seq<Token>, p: seq<Op>, start: nat, stop: nat)
    requires OrderedAll(p) && Reduce(p).Ok? && 0 < |tokens|
    ensures Meaning(p).Ok? && Reduced(p).Ok? && Reduce(Reduced(p).value).Ok?
    ensures var m, m2, n := Reduce(p).value, Reduce(Reduced(p).value).value, |tokens|;
            && Indexed(m) && Indexed(m2)
            && (SameReadings(tokens, m, m2, start, stop) <==>
                  forall i :: !StaleShows(Meaning(p).value, start, stop, n, i))
            && (SameReadings(tokens, m, m2, start, stop) || OtherReadings(tokens, m, m2, start, stop))
  {
    SecondReading(p);
    ReducedOk(p);
    StaleIsFree(p);
    var d := Meaning(p).value;
    var m, m2 := Operations(d), FreshOperations(d);
    assert Reduce(Reduced(p).value) == Ok(m2);
    if i :| StaleShows(d, start, stop, |tokens|, i) {
      OtherWhere(tokens, d, start, stop, i);
      ReadsSome(tokens, m, start, stop);
    } else {
      SameWhere(tokens, d, start, stop);
    }
  }

  // Where a whole stream is read, a stale insertion shows exactly if it is at the end of file or past it.
  lemma WholeShows(p: seq<Op>, n: nat, i: nat)
    requires OrderedAll(p) && Reduce(p).Ok? && Meaning(p).Ok? && 0 < n
    ensures StaleShows(Meaning(p).value, 0, n - 1, n, i) <==>
            Stale(Meaning(p).value, i) && Meaning(p).value.ins[i].text != "" && n - 1 <= i
  {
    var d := Meaning(p).value;
    StaleIsFree(p);
    assert From(d, 0) == d;
    if Stale(d, i) {
      StaleCovered(p, i);
    }
  }

  lemma ReadsSome(tokens: seq<Token>, m: map<nat, Op>, start: nat, stop: nat)
    requires Indexed(m) && 0 < |tokens|
    ensures exists text :: Reads(tokens, m, start, stop, text)
  {
    var none: seq<nat> := [];
    var order := Listing(m, none, {}, Trailing(m, start, stop, |tokens|));
    assert Reads(tokens, m, start, stop, Flatten(tokens, Walk(m, start, stop + 1)) + Texts(m, order));
  }

  lemma {:induction false} Listing(m: map<nat, Op>, order: seq<nat>, t: set<nat>, s: set<nat>) returns (full: seq<nat>)
    requires Lists(order, t) && t <= s
    ensures Lists(full, s)
    decreases |s - t|
  {
    if k :| k in s && k !in t {
      var more := ListsNext(m, order, t, k);
      assert s - (t + {k}) < s - t;
      full := Listing(m, more, t + {k}, s);
    } else {
      assert s == t;
      full := order;
    }
  }

  // The deletion of tokens 1 and 2 grows over the insertion before token 4, which the first of two readings in a
  // row of a stream of five tokens still gives and the second does not.
  lemma GoneTheSecondTime(tokens: seq<Token>, text: string)
    requires |tokens| == 5
    ensures var p := [Replace(0, 4, ""), Insert(4, "x"), Replace(1, 2, "")];
            && Reduce(p).Ok? && Indexed(Reduce(p).value)
            && (Reads(tokens, Reduce(p).value, 0, 4, text) <==> text == "x")
            && Reduced(p).Ok? && Reduce(Reduced(p).value).Ok? && Indexed(Reduce(Reduced(p).value).value)
            && (Reads(tokens, Reduce(Reduced(p).value).value, 0, 4, text) <==> text == "")
  {
    BothReadings();
    var p := [Replace(0, 4, ""), Insert(4, "x"), Replace(1, 2, "")];
    StillGives(tokens, Reduce(p).value, text);
    NoLongerGives(tokens, Reduce(Reduced(p).value).value, text);
  }

  lemma StillGives(tokens: seq<Token>, m: map<nat, Op>, text: string)
    requires |tokens| == 5 && m == map[0 := Replace(0, 4, ""), 4 := Insert(4, "x")]
    ensures Indexed(m) && (Reads(tokens, m, 0, 4, text) <==> text == "x")
  {
    assert m.Keys == {0, 4};
    DeletedReads(tokens, m, text);
  }

  lemma NoLongerGives(tokens: seq<Token>, m: map<nat, Op>, text: string)
    requires |tokens| == 5 && m == map[0 := Replace(0, 4, "")]
    ensures Indexed(m) && (Reads(tokens, m, 0, 4, text) <==> text == "")
  {
    assert m.Keys == {0};
    DeletedReads(tokens, m, text);
  }

  lemma BothReadings()
    ensures var p := [Replace(0, 4, ""), Insert(4, "x"), Replace(1, 2, "")];
            && Reduce(p) == Ok(map[0 := Replace(0, 4, ""), 4 := Insert(4, "x")])
            && Reduced(p).Ok? && Reduce(Reduced(p).value) == Ok(map[0 := Replace(0, 4, "")])
  {
    var p := [Replace(0, 4, ""), Insert(4, "x"), Replace(1, 2, "")];
    GrownOver();
    ReduceMeans(p);
    FinishGrown();
    SecondReading(p);
    OneLeft(Meaning(p).value, Reduce(p).value);
  }

  lemma OneLeft(d: Doc, m: map<nat, Op>)
    requires d == Doc(map[4 := Ins("x", false)], map[0 := Region(4, "")])
    requires m == map[0 := Replace(0, 4, ""), 4 := Insert(4, "x")]
    ensures (map i | i in m && !Stale(d, i) :: m[i]) == map[0 := Replace(0, 4, "")]
  {
    assert Stale(d, 4) && !Stale(d, 0);
  }

  lemma FinishGrown()
    ensures Finish(Doc(map[4 := Ins("x", false)], map[0 := Region(4, "")])) ==
            Ok(map[0 := Replace(0, 4, ""), 4 := Insert(4, "x")])
  {
    var d := Doc(map[4 := Ins("x", false)], map[0 := Region(4, "")]);
    assert TextAt(d, 0) + "" == "";
    assert Operations(d) == map[0 := Replace(0, 4, ""), 4 := Insert(4, "x")];
  }

  lemma AndThen(p: seq<Op>, d: Doc, o: Op)
    requires Meaning(p) == Ok(d)
    ensures Meaning(p + [o]) == Apply(d, o)
  {
    assert (p + [o])[..|p|] == p;
  }

  lemma GrownOver()
    ensures Meaning([Replace(0, 4, ""), Insert(4, "x"), Replace(1, 2, "")]) ==
            Ok(Doc(map[4 := Ins("x", false)], map[0 := Region(4, "")]))
  {
    var a, i, e := Replace(0, 4, ""), Insert(4, "x"), Replace(1, 2, "");
    var first := Doc(map[], map[0 := Region(4, "")]);
    var second := Doc(map[4 := Ins("x", true)], map[0 := Region(4, "")]);
    FirstDeleted();
    AndThen([], Doc(map[], map[]), a);
    assert [] + [a] == [a] && [a] + [i] == [a, i] && [a, i] + [e] == [a, i, e];
    assert "x" + TextAt(first, 4) == "x";
    AndThen([a], first, i);
    GrowOver(second);
    AndThen([a, i], second, e);
  }

  lemma FirstDeleted()
    ensures Apply(Doc(map[], map[]), Replace(0, 4, "")) == Ok(Doc(map[], map[0 := Region(4, "")]))
  {
    var none: Doc := Doc(map[], map[]);
    assert TextAt(none, 0) + "" == "";
    assert !Conflicts(none, 0, 4, "") && LeftEnd(none, 0) == 0 && RightEnd(none, 4) == 4;
  }

  lemma GrowOver(d: Doc)
    requires d == Doc(map[4 := Ins("x", true)], map[0 := Region(4, "")])
    ensures Apply(d, Replace(1, 2, "")) == Ok(Doc(map[4 := Ins("x", false)], map[0 := Region(4, "")]))
  {
    assert TextAt(d, 1) + "" == "";
    assert !Conflicts(d, 1, 2, "");
    assert Covers(d, 0, 1) && Covers(d, 0, 2);
    assert LeftEnd(d, 1) == 0 && RightEnd(d, 2) == 4;
    assert Touches(d, 0, 1, 2);
    var f := Apply(d, Replace(1, 2, ""));
    assert f.value.regions == map[0 := Region(4, "")];
    assert f.value.ins == map[4 := Ins("x", false)];
  }

  // A stream of five tokens, all deleted: what is left is an insertion at its end, if there is one.
  lemma DeletedReads(tokens: seq<Token>, m: map<nat, Op>, text: string)
    requires |tokens| == 5 && Indexed(m) && m.Keys <= {0, 4} && 0 in m && m[0] == Replace(0, 4, "")
        && (4 in m ==> m[4].Insert?)
    ensures Reads(tokens, m, 0, 4, text) <==> text == OwnText(m, 4)
  {
    assert Walk(m, 5, 5) == [] && Walk(m, 0, 5) == [New("")];
    assert [New("")][1..] == [];
    assert Flatten(tokens, Walk(m, 0, 5)) == "" + "" == "";
    assert Left(m, 5, 5) == m.Keys && Left(m, 0, 5) == m.Keys - {0};
    var s := Tail(m, 0, 5);
    assert s == if 4 in m then {4} else {};
    var order: seq<nat> := if 4 in m then [4] else [];
    assert Lists(order, s);
    assert 4 in m ==> [4][..0] == [] && Texts(m, [4]) == "" + m[4].text == m[4].text;
    forall other: seq<nat> | Lists(other, s) ensures other == order {
      OneListed(other, s, 4);
    }
    assert Tails(m, s, OwnText(m, 4));
    ReadsTails(tokens, m, 0, 4, text);
    forall tail | Tails(m, s, tail) ensures "" + tail == tail == OwnText(m, 4) {}
    assert "" + OwnText(m, 4) == OwnText(m, 4);
  }
}
