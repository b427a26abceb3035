// The buffered token stream, filled as far as it is looked at, and seen through a channel.
module ChannelStream {
  import opened Tokens

  // Positions are of type size_t, and wrap.
  const SIZE: int := 0x1_0000_0000_0000_0000

  function Wrapped(i: int): (r: nat)
    requires -SIZE <= i < 2 * SIZE
    ensures r < SIZE && (r == i || r == i + SIZE || r == i - SIZE)
  {
    if i < 0 then i + SIZE else if i < SIZE then i else i - SIZE
  }

  datatype Error = ConsumeEof

  datatype Result<T> = Ok(value: T) | Err(error: Error)

  function Min(a: nat, b: nat): nat { if b < a then b else a }

  // The end-of-file token is on every channel.
  predicate Good(src: seq<Token>, channel: nat, i: nat)
    requires i < |src|
  {
    src[i].channel == channel || src[i].kind == EOF
  }

  // The positions from i to before end whose tokens are on the channel.
  function OnChannel(src: seq<Token>, channel: nat, i: nat, end: nat): (s: seq<nat>)
    requires end <= |src|
    ensures forall k :: 0 <= k < |s| ==> i <= s[k] < end && Good(src, channel, s[k])
    decreases end - i
  {
    if end <= i then [] else (if Good(src, channel, i) then [i] else []) + OnChannel(src, channel, i + 1, end)
  }

  // The first position from i on whose token is on the channel, or the last.
  function NextOn(src: seq<Token>, channel: nat, i: nat): (j: nat)
    requires Terminated(src)
    ensures j < |src| && Good(src, channel, j) && (i < |src| ==> i <= j)
    decreases |src| - i
  {
    if |src| <= i then |src| - 1
    else if Good(src, channel, i) then i
    else NextOn(src, channel, i + 1)
  }

  // The last position up to i whose token is on the channel, or -1.
  function PrevOn(src: seq<Token>, channel: nat, i: int): (j: int)
    requires -1 <= i < |src|
    ensures -1 <= j <= i
  {
    if i == -1 then -1 else if Good(src, channel, i) then i else PrevOn(src, channel, i - 1)
  }

  // How many tokens from i to before end are of the channel.
  function CountOn(src: seq<Token>, channel: nat, i: nat, end: nat): nat
    requires end <= |src|
    decreases end - i
  {
    if end <= i then 0 else (if src[i].channel == channel then 1 else 0) + CountOn(src, channel, i + 1, end)
  }

  // Before the end of file the positions listed are those of the channel.
  lemma {:induction false} ListedAreCounted(src: seq<Token>, channel: nat, i: nat, end: nat)
    requires Terminated(src) && end < |src|
    ensures |OnChannel(src, channel, i, end)| == CountOn(src, channel, i, end)
    decreases end - i
  {
    if i < end {
      ListedAreCounted(src, channel, i + 1, end);
    }
  }

  // The first token of the channel from i on, or else the end of file.
  ghost predicate FirstFrom(src: seq<Token>, channel: nat, i: nat, j: nat)
    requires i < |src|
  {
    i <= j < |src| && (src[j].channel == channel || src[j].kind == Tokens.EOF) && CountOn(src, channel, i, j) == 0
  }

  lemma {:induction false} NextFirst(src: seq<Token>, channel: nat, i: nat)
    requires Terminated(src) && i < |src|
    ensures FirstFrom(src, channel, i, NextOn(src, channel, i))
    decreases |src| - i
  {
    if !Good(src, channel, i) {
      NextFirst(src, channel, i + 1);
    }
  }

  // The last token of the channel up to i, the end of file counting as one.
  ghost predicate LastUpTo(src: seq<Token>, channel: nat, i: nat, j: int)
    requires i < |src|
  {
    && -1 <= j <= i && CountOn(src, channel, j + 1, i + 1) == 0
    && (j >= 0 ==> src[j].channel == channel || src[j].kind == Tokens.EOF)
  }

  lemma {:induction false} CountLast(src: seq<Token>, channel: nat, i: nat, end: nat)
    requires i <= end < |src|
    ensures CountOn(src, channel, i, end + 1)
        == CountOn(src, channel, i, end) + if src[end].channel == channel then 1 else 0
    decreases end - i
  {
    if i < end {
      CountLast(src, channel, i + 1, end);
    }
  }

  lemma {:induction false} PrevLast(src: seq<Token>, channel: nat, i: nat)
    requires i < |src|
    ensures LastUpTo(src, channel, i, PrevOn(src, channel, i))
    decreases i
  {
    if !Good(src, channel, i) {
      if i > 0 {
        PrevLast(src, channel, i - 1);
      }
      CountLast(src, channel, PrevOn(src, channel, i - 1) + 1, i);
    }
  }

  // The kth token of the channel from position i on, or the end of file if there are fewer.
  ghost predicate KthFrom(src: seq<Token>, channel: nat, i: nat, k: nat, t: Option<Token>) {
    && t.Some? && TokenAt(src, t, t.value.index) && i <= t.value.index
    && if t.value.kind == Tokens.EOF then t.value.index == |src| - 1 && CountOn(src, channel, i, |src| - 1) < k
       else t.value.channel == channel && CountOn(src, channel, i, t.value.index) == k - 1
  }

  // The kth token of the channel before position i.
  ghost predicate KthBefore(src: seq<Token>, channel: nat, i: nat, k: nat, t: Option<Token>)
    requires i <= |src|
  {
    && t.Some? && TokenAt(src, t, t.value.index) && t.value.index < i
    && t.value.channel == channel && CountOn(src, channel, t.value.index, i) == k
  }

  // The positions listed are the first, the second, and so on.
  lemma {:induction false} ListedFrom(src: seq<Token>, channel: nat, i: nat, end: nat, x: nat)
    requires Terminated(src) && i <= end <= |src| && x < |OnChannel(src, channel, i, end)|
    ensures CountOn(src, channel, i, OnChannel(src, channel, i, end)[x]) == x
    decreases end - i
  {
    if Good(src, channel, i) {
      if x > 0 {
        ListedFrom(src, channel, i + 1, end, x - 1);
      }
    } else {
      ListedFrom(src, channel, i + 1, end, x);
    }
  }

  lemma {:induction false} CountJoin(src: seq<Token>, channel: nat, i: nat, j: nat, end: nat)
    requires i <= j <= end <= |src|
    ensures CountOn(src, channel, i, end) == CountOn(src, channel, i, j) + CountOn(src, channel, j, end)
    decreases j - i
  {
    if i < j {
      CountJoin(src, channel, i + 1, j, end);
    }
  }

  lemma KthListed(src: seq<Token>, channel: nat, i: nat, k: nat)
    requires Terminated(src) && i < |src| && 0 < k && OnChannel(src, channel, i, |src|) != []
    ensures var s := OnChannel(src, channel, i, |src|);
            KthFrom(src, channel, i, k, Some(Placed(src, s[Min(k, |s|) - 1])))
  {
    var s, n := OnChannel(src, channel, i, |src|), |src| - 1;
    ListedFrom(src, channel, i, |src|, Min(k, |s|) - 1);
    OnChannelSplit(src, channel, i, n, |src|);
    assert OnChannel(src, channel, n, |src|) == [n];
    ListedAreCounted(src, channel, i, n);
    assert s[|s| - 1] == n;
    assert Min(k, |s|) - 1 < |s| - 1 ==> s[Min(k, |s|) - 1] == OnChannel(src, channel, i, n)[Min(k, |s|) - 1];
  }

  lemma KthListedBefore(src: seq<Token>, channel: nat, i: nat, k: nat)
    requires Terminated(src) && i < |src| && 0 < k <= |OnChannel(src, channel, 0, i)|
    ensures var s := OnChannel(src, channel, 0, i); KthBefore(src, channel, i, k, Some(Placed(src, s[|s| - k])))
  {
    var s := OnChannel(src, channel, 0, i);
    ListedFrom(src, channel, 0, i, |s| - k);
    ListedAreCounted(src, channel, 0, i);
    CountJoin(src, channel, 0, s[|s| - k], i);
  }

  lemma {:induction false} OnChannelSplit(src: seq<Token>, channel: nat, i: nat, j: nat, end: nat)
    requires i <= j <= end <= |src|
    ensures OnChannel(src, channel, i, end) == OnChannel(src, channel, i, j) + OnChannel(src, channel, j, end)
    decreases j - i
  {
    if i < j {
      OnChannelSplit(src, channel, i + 1, j, end);
    }
  }

  lemma {:induction false} NextIsFirst(src: seq<Token>, channel: nat, i: nat)
    requires Terminated(src) && i < |src|
    ensures OnChannel(src, channel, i, |src|) == OnChannel(src, channel, NextOn(src, channel, i), |src|)
    decreases |src| - i
  {
    if !Good(src, channel, i) {
      NextIsFirst(src, channel, i + 1);
    }
  }

  lemma OnChannelLast(src: seq<Token>, channel: nat, i: nat)
    requires i < |src|
    ensures OnChannel(src, channel, 0, i + 1) == OnChannel(src, channel, 0, i) + if Good(src, channel, i) then [i]
        else []
  {
    OnChannelSplit(src, channel, 0, i, i + 1);
    assert OnChannel(src, channel, i + 1, i + 1) == [];
  }

  lemma {:induction false} PrevIsLast(src: seq<Token>, channel: nat, i: int)
    requires -1 <= i < |src|
    ensures var j := PrevOn(src, channel, i);
            OnChannel(src, channel, 0, i + 1) == if j == -1 then [] else OnChannel(src, channel, 0, j) + [j]
  {
    if i >= 0 {
      OnChannelLast(src, channel, i);
      if !Good(src, channel, i) {
        PrevIsLast(src, channel, i - 1);
        assert OnChannel(src, channel, 0, i + 1) == OnChannel(src, channel, 0, i);
      }
    }
  }

  // The positions before one on the channel.
  lemma {:induction false} OnChannelUpTo(src: seq<Token>, channel: nat, end: nat, x: nat)
    requires end <= |src| && x < |OnChannel(src, channel, 0, end)|
    ensures OnChannel(src, channel, 0, OnChannel(src, channel, 0, end)[x]) == OnChannel(src, channel, 0, end)[..x]
    decreases end
  {
    var s, j := OnChannel(src, channel, 0, end), PrevOn(src, channel, end - 1);
    PrevIsLast(src, channel, end - 1);
    assert s == OnChannel(src, channel, 0, j) + [j];
    if x < |s| - 1 {
      OnChannelUpTo(src, channel, j, x);
    }
  }

  // The positions a walk back goes round once it has left the start of a buffer of size n: if the first token is
  // off the channel it stops at -1 on its way.
  function Round(src: seq<Token>, channel: nat, n: nat): (r: seq<int>)
    requires 0 < n <= |src|
    ensures |r| > 0
  {
    (if Good(src, channel, 0) then [] else [-1]) + OnChannel(src, channel, 0, n - 1) + [n - 1]
  }

  // Where it is m steps after it has left.
  function RoundAt(src: seq<Token>, channel: nat, n: nat, m: nat): int
    requires 0 < n <= |src|
  {
    var r := Round(src, channel, n);
    r[((if Good(src, channel, 0) then |r| - 1 else 0) - m) % |r|]
  }

  // One step of the walk: from the first position and from before it to an end.
  function StepBack(src: seq<Token>, channel: nat, n: nat, i: int): int
    requires 0 < n <= |src| && -1 <= i < |src|
  {
    if i == 0 then n - 1 else if i == -1 then |src| - 1 else PrevOn(src, channel, i - 1)
  }

  // Back from the end of the buffer, ...
  lemma EndBack(src: seq<Token>, channel: nat, n: nat)
    requires 1 < n <= |src|
    ensures var r := Round(src, channel, n); |r| > 1 && r[|r| - 1] == n - 1 && PrevOn(src, channel, n - 2) == r[|r| - 2]
  {
    PrevIsLast(src, channel, n - 2);
    if Good(src, channel, 0) {
      OnChannelSplit(src, channel, 0, 1, n - 1);
    }
  }

  // ... and from a position on the channel.
  lemma MiddleBack(src: seq<Token>, channel: nat, end: nat, x: nat)
    requires end <= |src| && x < |OnChannel(src, channel, 0, end)| && OnChannel(src, channel, 0, end)[x] > 0
    ensures var l := OnChannel(src, channel, 0, end);
            PrevOn(src, channel, l[x] - 1) == if x == 0 then -1 else l[x - 1]
  {
    var l := OnChannel(src, channel, 0, end);
    OnChannelUpTo(src, channel, end, x);
    var before := l[..x];
    assert OnChannel(src, channel, 0, l[x]) == before;
    PrevIsLast(src, channel, l[x] - 1);
    if x > 0 {
      assert before[x - 1] == l[x - 1];
    }
  }

  lemma MiddleStart(src: seq<Token>, channel: nat, end: nat, x: nat)
    requires end <= |src| && x < |OnChannel(src, channel, 0, end)|
    ensures OnChannel(src, channel, 0, end)[x] == 0 <==> x == 0 && Good(src, channel, 0)
  {
    OnChannelUpTo(src, channel, end, x);
  }

  lemma RoundBack(src: seq<Token>, channel: nat, n: nat, e: nat)
    requires 1 < n <= |src| && (Good(src, channel, 0) || n == |src|) && e < |Round(src, channel, n)|
    ensures var r := Round(src, channel, n);
            -1 <= r[e] < n && StepBack(src, channel, n, r[e]) == r[if e == 0 then |r| - 1 else e - 1]
  {
    var r, l := Round(src, channel, n), OnChannel(src, channel, 0, n - 1);
    var front := if Good(src, channel, 0) then 0 else 1;
    EndBack(src, channel, n);
    if front <= e < |r| - 1 {
      assert r[e] == l[e - front];
      MiddleStart(src, channel, n - 1, e - front);
      if r[e] > 0 {
        MiddleBack(src, channel, n - 1, e - front);
      }
    }
  }

  lemma ModDown(a: int, c: nat)
    requires c > 0
    ensures (a - 1) % c == if a % c == 0 then c - 1 else a % c - 1
  {
    var q, m := a / c, a % c;
    assert a == q * c + m;
    if m == 0 {
      assert a - 1 == (q - 1) * c + (c - 1);
      ModIs(a - 1, q - 1, c - 1, c);
    } else {
      ModIs(a - 1, q, m - 1, c);
    }
  }

  lemma AtLeastOnce(d: int, c: int)
    requires c > 0
    ensures d >= 1 ==> d * c >= c
    ensures d <= -1 ==> d * c <= -c
  {
    if d >= 1 {
      assert (d - 1) * c >= 0;
    }
    if d <= -1 {
      assert (-1 - d) * c >= 0;
    }
  }

  lemma ModIs(a: int, q: int, m: int, c: nat)
    requires c > 0 && a == q * c + m && 0 <= m < c
    ensures a % c == m
  {
    var d := a / c - q;
    AtLeastOnce(d, c);
    assert m - a % c == d * c by {
      assert a == (a / c) * c + a % c;
      assert d * c == (a / c) * c - q * c;
    }
  }

  // A step of the walk goes on to the next position of the round; the size of the buffer matters at its start.
  lemma RoundNext(src: seq<Token>, channel: nat, n: nat, m: nat, now: nat)
    requires 1 < n <= |src| && 0 < now <= |src| && if Good(src, channel, 0) then now == n else n == |src|
    ensures -1 <= RoundAt(src, channel, n, m) < n
    ensures RoundAt(src, channel, n, m + 1) == StepBack(src, channel, now, RoundAt(src, channel, n, m))
  {
    var r := Round(src, channel, n);
    var start := if Good(src, channel, 0) then |r| - 1 else 0;
    var e := (start - m) % |r|;
    ModDown(start - m, |r|);
    RoundBack(src, channel, n, e);
    if !Good(src, channel, 0) && 1 <= e < |r| - 1 {
      MiddleStart(src, channel, n - 1, e - 1);
    }
  }

  lemma RoundFirst(src: seq<Token>, channel: nat, n: nat)
    requires 0 < n <= |src|
    ensures RoundAt(src, channel, n, 0) == if Good(src, channel, 0) then n - 1 else -1
  {
    var r := Round(src, channel, n);
    ModIs(|r| - 1, 0, |r| - 1, |r|);
    ModIs(0, 0, 0, |r|);
  }

  // Where a walk back from p is before its nth step: behind p, or once that is over on its round.
  ghost predicate BackAt(src: seq<Token>, channel: nat, behind: seq<nat>, p: nat, size: nat, i: int, n: nat) {
    && 1 <= n && -1 <= i < |src| && 0 < size <= |src|
    && (n == 1 ==> i == p)
    && (1 < n <= |behind| + 1 ==> i == behind[|behind| + 1 - n])
    && (n <= |behind| + 1 ==> 0 <= i && OnChannel(src, channel, 0, i) == behind[..|behind| + 1 - n])
    && (n > |behind| + 1 ==> i == RoundAt(src, channel, size, n - |behind| - 2))
  }

  lemma BackNext(src: seq<Token>, channel: nat, behind: seq<nat>, p: nat, size: nat, i: int, n: nat, now: nat)
    requires BackAt(src, channel, behind, p, size, i, n) && 0 < p <= |src| && behind == OnChannel(src, channel, 0, p)
    requires 1 < size && 0 < now <= |src|
    requires if Good(src, channel, 0) then now == size else size == |src|
    ensures BackAt(src, channel, behind, p, size, StepBack(src, channel, now, i), n + 1)
  {
    if n > |behind| + 1 {
      RoundNext(src, channel, size, n - |behind| - 2, now);
    } else if n == |behind| + 1 {
      BackEnds(src, channel, i, now);
      RoundFirst(src, channel, size);
    } else {
      BackOne(src, channel, behind, i, n, now);
    }
  }

  // No position on the channel is left behind.
  lemma BackEnds(src: seq<Token>, channel: nat, i: nat, now: nat)
    requires i < |src| && 0 < now <= |src| && OnChannel(src, channel, 0, i) == []
    ensures StepBack(src, channel, now, i) == if i == 0 then now - 1 else -1
    ensures i > 0 ==> !Good(src, channel, 0)
  {
    if i > 0 {
      PrevIsLast(src, channel, i - 1);
    }
  }

  lemma BackOne(src: seq<Token>, channel: nat, behind: seq<nat>, i: nat, n: nat, now: nat)
    requires i < |src| && 0 < now <= |src| && 1 <= n <= |behind|
        && OnChannel(src, channel, 0, i) == behind[..|behind| + 1 - n]
    ensures var j := StepBack(src, channel, now, i);
            j == behind[|behind| - n] && OnChannel(src, channel, 0, j) == behind[..|behind| - n]
  {
    PrevIsLast(src, channel, i - 1);
    var j := PrevOn(src, channel, i - 1);
    assert behind[..|behind| + 1 - n] == behind[..|behind| - n] + [behind[|behind| - n]];
  }

  // From a position on the channel the positions ahead begin with it.
  lemma StartsHere(src: seq<Token>, channel: nat, i: nat)
    requires Terminated(src) && i < |src| && Good(src, channel, i)
    ensures OnChannel(src, channel, i, |src|) == [i] + OnChannel(src, channel, i + 1, |src|)
    ensures OnChannel(src, channel, i + 1, |src|) == [] <==> i == |src| - 1
  {
    if i < |src| - 1 {
      NextIsFirst(src, channel, i + 1);
      var j := NextOn(src, channel, i + 1);
      assert OnChannel(src, channel, j, |src|)[0] == j;
    }
  }

  // Where a walk along the positions ahead is before its nth step.
  ghost predicate AheadAt(src: seq<Token>, channel: nat, ahead: seq<nat>, i: nat, n: nat) {
    && 0 < |ahead| && 1 <= n && i < |src| && Good(src, channel, i)
    && OnChannel(src, channel, i, |src|) == ahead[Min(n, |ahead|) - 1..]
  }

  lemma AheadFirst(src: seq<Token>, channel: nat, i: nat)
    requires Terminated(src) && i < |src| && Good(src, channel, i)
    ensures AheadAt(src, channel, OnChannel(src, channel, i, |src|), i, 1)
  {
    StartsHere(src, channel, i);
  }

  lemma AheadHere(src: seq<Token>, channel: nat, ahead: seq<nat>, i: nat, n: nat)
    requires Terminated(src) && AheadAt(src, channel, ahead, i, n)
    ensures 0 < |ahead| && ahead[Min(n, |ahead|) - 1] == i
  {
    StartsHere(src, channel, i);
    assert ahead[Min(n, |ahead|) - 1..][0] == i;
  }

  // One step ahead, or none at the end of file.
  lemma AheadNext(src: seq<Token>, channel: nat, ahead: seq<nat>, i: nat, j: nat, n: nat)
    requires Terminated(src) && AheadAt(src, channel, ahead, i, n)
    requires j == if i == |src| - 1 then i else NextOn(src, channel, i + 1)
    ensures AheadAt(src, channel, ahead, j, n + 1)
  {
    StartsHere(src, channel, i);
    if i < |src| - 1 {
      NextIsFirst(src, channel, i + 1);
      TailNext(ahead, Min(n, |ahead|) - 1, i, OnChannel(src, channel, i + 1, |src|));
    } else {
      TailNext(ahead, Min(n, |ahead|) - 1, i, []);
    }
  }

  lemma TailNext(ahead: seq<nat>, m: nat, i: nat, rest: seq<nat>)
    requires m < |ahead| && ahead[m..] == [i] + rest
    ensures ahead[m + 1..] == rest && |ahead| == m + 1 + |rest|
  {
    assert ahead[m..][1..] == ahead[m + 1..];
    assert |ahead[m..]| == |ahead| - m;
  }

  class CommonTokenStream {
    const source: TokenSource
    const channel: nat
    var tokens: seq<Token>
    var p: nat
    var fetchedEOF: bool
    var needSetup: bool

    // The buffer is a prefix of the source.
    ghost predicate Buffer()
      reads this, source
    {
      && source.Valid() && |source.src| < SIZE / 2
      && |tokens| == source.pos
      && (forall i :: 0 <= i < |tokens| ==> tokens[i] == Placed(source.src, i))
      && (fetchedEOF <==> source.pos == |source.src|)
    }

    ghost predicate Valid()
      reads this, source
    {
      && Buffer()
      && if needSetup then tokens == [] else p < |tokens| && Good(source.src, channel, p)
    }

    // The current position, which the stream may not have looked for yet.
    ghost function Position(): (i: nat)
      requires Valid()
      reads this, source
      ensures i < |source.src| && Good(source.src, channel, i)
    {
      if needSetup then NextOn(source.src, channel, 0) else p
    }

    ghost function Ahead(): seq<nat>
      requires Valid()
      reads this, source
    {
      OnChannel(source.src, channel, Position(), |source.src|)
    }

    ghost function Behind(): seq<nat>
      requires Valid()
      reads this, source
    {
      OnChannel(source.src, channel, 0, Position())
    }

    constructor (source: TokenSource, channel: nat)
      requires source.Valid() && source.pos == 0 && |source.src| < 0x8000_0000_0000_0000
      ensures Valid() && this.source == source && this.channel == channel
      ensures Position() == NextOn(source.src, channel, 0) && FirstFrom(source.src, channel, 0, Position())
    {
      this.source, this.channel := source, channel;
      tokens, p, fetchedEOF, needSetup := [], 0, false, true;
      new;
      NextFirst(source.src, channel, 0);
    }

    // Adds n tokens to the buffer, or those left.
    method Fetch(n: nat) returns (fetched: nat)
      requires Buffer()
      modifies this`tokens, this`fetchedEOF, source
      ensures Buffer() && old(tokens) <= tokens
      ensures |tokens| == Min(old(|tokens|) + n, |source.src|) && fetched == |tokens| - old(|tokens|)
      ensures forall i :: 0 <= i < |tokens| ==> TokenAt(source.src, Some(tokens[i]), i)
    {
      fetched := 0;
      if fetchedEOF {
        return;
      }
      while fetched < n
        invariant Buffer() && old(tokens) <= tokens && !fetchedEOF
        invariant fetched <= n && |tokens| == old(|tokens|) + fetched
        decreases n - fetched
      {
        var t := source.NextToken();
        tokens := tokens + [Token(t.kind, t.channel, t.text, |tokens|)];
        fetched := fetched + 1;
        if tokens[|tokens| - 1].kind == EOF {
          fetchedEOF := true;
          break;
        }
      }
    }

    // Makes sure that position i is in the buffer; the position -1 is taken to be there.
    method Sync(i: nat) returns (there: bool)
      requires Buffer() && i < SIZE
      modifies this`tokens, this`fetchedEOF, source
      ensures Buffer() && old(tokens) <= tokens
      ensures i < SIZE - 1 ==> |tokens| == (if old(|tokens|) < i + 1 then Min(i + 1, |source.src|) else old(|tokens|))
      ensures i < SIZE - 1 ==> (there <==> i < |source.src|)
      ensures i == SIZE - 1 ==> tokens == old(tokens) && there
    {
      if Wrapped(i + 1) < |tokens| {
        return true;
      }
      var n := Wrapped(i - |tokens| + 1);
      if n > 0 {
        var fetched := Fetch(n);
        return fetched >= n;
      }
      there := true;
    }

    // The first position from i on whose token is on the channel, or that of the end of file.
    method NextTokenOnChannel(i: nat) returns (j: nat)
      requires Buffer() && i < SIZE - 1
      modifies this`tokens, this`fetchedEOF, source
      ensures Buffer() && old(tokens) <= tokens && j == NextOn(source.src, channel, i) < |tokens|
      ensures if i < |source.src| then FirstFrom(source.src, channel, i, j) else j == |source.src| - 1
    {
      if i < |source.src| {
        NextFirst(source.src, channel, i);
      }
      var there := Sync(i);
      if i >= |tokens| {
        return |tokens| - 1;
      }
      j := i;
      while tokens[j].channel != channel
        invariant Buffer() && old(tokens) <= tokens && j < |tokens|
        invariant NextOn(source.src, channel, j) == NextOn(source.src, channel, i)
        decreases |source.src| - j
      {
        assert tokens[j] == Placed(source.src, j);
        if tokens[j].kind == EOF {
          return;
        }
        j := j + 1;
        there := Sync(j);
      }
      assert tokens[j] == Placed(source.src, j);
    }

    // The last position up to i whose token is on the channel, or -1; past the buffer, its end.
    method PreviousTokenOnChannel(i: nat) returns (j: int)
      requires Buffer() && i < SIZE && tokens != []
      modifies this`tokens, this`fetchedEOF, source
      ensures Buffer() && old(tokens) <= tokens && -1 <= j < |tokens|
      ensures i < old(|tokens|) ==> tokens == old(tokens) && j == PrevOn(source.src, channel, i)
      ensures old(|tokens|) <= i < |source.src| ==> |tokens| == i + 1 && j == PrevOn(source.src, channel, i)
      ensures |source.src| <= i < SIZE - 1 ==> |tokens| == |source.src| && j == |source.src| - 1
      ensures i == SIZE - 1 ==> tokens == old(tokens) && j == |tokens| - 1
      ensures i < |source.src| ==> LastUpTo(source.src, channel, i, j)
    {
      if i < |source.src| {
        PrevLast(source.src, channel, i);
      }
      var there := Sync(i);
      if i >= |tokens| {
        return |tokens| - 1;
      }
      j := i;
      while true
        invariant 0 <= j < |tokens| && PrevOn(source.src, channel, i) == PrevOn(source.src, channel, j)
        decreases j
      {
        assert tokens[j] == Placed(source.src, j);
        if tokens[j].kind == EOF || tokens[j].channel == channel {
          return;
        }
        if j == 0 {
          return -1;
        }
        j := j - 1;
      }
    }

    method LazyInit()
      requires Valid()
      modifies this`tokens, this`fetchedEOF, this`p, this`needSetup, source
      ensures Valid() && !needSetup && p == old(Position()) && old(tokens) <= tokens
    {
      if needSetup {
        needSetup := false;
        var there := Sync(0);
        p := NextTokenOnChannel(0);
      }
    }

    // Moves to the first position from index on whose token is on the channel, or to the end.
    method Seek(index: nat)
      requires Valid() && index < SIZE - 1
      modifies this`tokens, this`fetchedEOF, this`p, this`needSetup, source
      ensures Valid() && Position() == NextOn(source.src, channel, index)
      ensures if index < |source.src| then FirstFrom(source.src, channel, index, Position())
              else Position() == |source.src| - 1
    {
      LazyInit();
      p := NextTokenOnChannel(index);
    }

    // The kth token behind on the channel. The walk has no guard at the start of the buffer: with one
    // token too few it ends before the start only if the first token is off the channel, and else
    // wraps to the end of the buffer; with more it goes round.
    method LB(k: nat) returns (t: Option<Token>)
      requires Valid() && !needSetup
      modifies this`tokens, this`fetchedEOF, source
      ensures Valid() && old(tokens) <= tokens && Position() == old(Position())
      ensures k == 0 || k > p ==> t == None
      ensures 0 < k <= |Behind()| ==> t == Some(Placed(source.src, Behind()[|Behind()| - k])) && tokens == old(tokens)
      ensures 0 < k <= CountOn(source.src, channel, 0, p) ==> KthBefore(source.src, channel, p, k, t)
      ensures k == |Behind()| + 1 <= p ==>
        if source.src[0].channel == channel || source.src[0].kind == Tokens.EOF
          then TokenAt(source.src, t, old(|tokens|) - 1) else t == None
      ensures |Behind()| < k <= p ==> t == Shown(RoundAt(source.src, channel, old(Turning()), k - |Behind()| - 1))
    {
      BehindBound(p);
      if k == 0 || k > p {
        CountedBehind();
        return None;
      }
      t := TokenBehind(k);
      CountedBehind();
      if k <= |Behind()| {
        KthListedBefore(source.src, channel, p, k);
      }
    }

    // What the walk back comes to.
    method TokenBehind(k: nat) returns (t: Option<Token>)
      requires Valid() && !needSetup && 0 < k <= p
      modifies this`tokens, this`fetchedEOF, source
      ensures Valid() && p == old(p) && old(tokens) <= tokens
      ensures k <= |Behind()| ==> t == Some(Placed(source.src, Behind()[|Behind()| - k])) && tokens == old(tokens)
      ensures |Behind()| < k ==> t == Shown(RoundAt(source.src, channel, old(Turning()), k - |Behind()| - 1))
      ensures k == |Behind()| + 1 ==>
        if source.src[0].channel == channel || source.src[0].kind == Tokens.EOF
          then TokenAt(source.src, t, old(|tokens|) - 1) else t == None
    {
      RoundFirst(source.src, channel, Turning());
      var i := WalkBack(k);
      if i < 0 {
        return None;
      }
      assert tokens[i] == Placed(source.src, i);
      t := Some(tokens[i]);
    }

    lemma CountedBehind()
      requires Valid() && !needSetup
      ensures |Behind()| == CountOn(source.src, channel, 0, p)
    {
      ListedAreCounted(source.src, channel, 0, p);
    }

    // The size of the buffer that a walk back goes round: passing -1 fills it.
    ghost function Turning(): (n: nat)
      requires Valid() && !needSetup
      reads this, source
      ensures 0 < n <= |source.src|
    {
      if Good(source.src, channel, 0) then |tokens| else |source.src|
    }

    ghost function Shown(i: int): Option<Token>
      requires -1 <= i < |source.src|
    {
      if i == -1 then None else Some(Placed(source.src, i))
    }

    // The position before the first one, and the one before it, wrap.
    method OneBack(i: int) returns (j: int)
      requires Buffer() && tokens != [] && -1 <= i < |tokens|
      modifies this`tokens, this`fetchedEOF, source
      ensures Buffer() && old(tokens) <= tokens && -1 <= j < |tokens|
      ensures j == StepBack(source.src, channel, old(|tokens|), i)
      ensures i >= 0 ==> tokens == old(tokens)
    {
      j := PreviousTokenOnChannel(Wrapped(i - 1));
    }

    method WalkBack(k: nat) returns (i: int)
      requires Valid() && !needSetup && 0 < k <= p
      modifies this`tokens, this`fetchedEOF, source
      ensures Valid() && p == old(p) && old(tokens) <= tokens && i < |tokens|
      ensures BackAt(source.src, channel, Behind(), p, old(Turning()), i, k + 1)
      ensures k <= |Behind()| || Good(source.src, channel, 0) ==> tokens == old(tokens)
    {
      ghost var behind, size := Behind(), Turning();
      i := p;
      var n: nat := 1;
      while n <= k
        invariant Valid() && p == old(p) && old(tokens) <= tokens && 1 <= n <= k + 1 && i < |tokens|
        invariant BackAt(source.src, channel, behind, p, size, i, n)
        invariant n <= |behind| + 1 || Good(source.src, channel, 0) ==> tokens == old(tokens)
        decreases k + 1 - n
      {
        BackNext(source.src, channel, behind, p, size, i, n, |tokens|);
        i := OneBack(i);
        n := n + 1;
      }
    }

    lemma BehindBound(i: nat)
      requires Buffer() && i <= |source.src|
      ensures |OnChannel(source.src, channel, 0, i)| <= i
    {
      OnChannelBound(source.src, channel, 0, i);
    }

    // The kth token ahead on the channel, or the end-of-file token; behind, the tokens of LB.
    method LT(k: int) returns (t: Option<Token>)
      requires Valid()
      modifies this`tokens, this`fetchedEOF, this`p, this`needSetup, source
      ensures Valid() && !needSetup && Position() == old(Position()) && old(tokens) <= tokens
      ensures k == 0 ==> t == None
      ensures k > 0 ==> |Ahead()| > 0 && t == Some(Placed(source.src, Ahead()[Min(k, |Ahead()|) - 1]))
      ensures 0 < -k <= |Behind()| ==> t == Some(Placed(source.src, Behind()[|Behind()| + k]))
      ensures -k > Position() ==> t == None
      ensures k > 0 ==> KthFrom(source.src, channel, Position(), k, t)
      ensures 0 < -k <= CountOn(source.src, channel, 0, Position()) ==>
                KthBefore(source.src, channel, Position(), -k, t)
    {
      LazyInit();
      if k == 0 {
        return None;
      }
      if k < 0 {
        ListedAreCounted(source.src, channel, 0, p);
        t := LB(-k);
        return;
      }
      t := WalkAhead(k);
      KthListed(source.src, channel, p, k);
    }

    method WalkAhead(k: nat) returns (t: Option<Token>)
      requires Valid() && !needSetup && 0 < k
      modifies this`tokens, this`fetchedEOF, source
      ensures Valid() && Position() == old(Position()) && old(tokens) <= tokens
      ensures |Ahead()| > 0 && t == Some(Placed(source.src, Ahead()[Min(k, |Ahead()|) - 1]))
    {
      ghost var ahead := Ahead();
      AheadFirst(source.src, channel, p);
      var i: nat := p;
      var n: nat := 1;
      while n < k
        invariant Valid() && old(tokens) <= tokens && 1 <= n <= k && i < |tokens|
        invariant AheadAt(source.src, channel, ahead, i, n)
        decreases k - n
      {
        var j := StepAhead(i);
        AheadNext(source.src, channel, ahead, i, j, n);
        i, n := j, n + 1;
      }
      AheadHere(source.src, channel, ahead, i, n);
      t := Some(tokens[i]);
    }

    // The next position on the channel, but none past the end of file.
    method StepAhead(i: nat) returns (j: nat)
      requires Buffer() && i < |tokens|
      modifies this`tokens, this`fetchedEOF, source
      ensures Buffer() && old(tokens) <= tokens
      ensures j == (if i == |source.src| - 1 then i else NextOn(source.src, channel, i + 1)) < |tokens|
    {
      j := i;
      var there := Sync(i + 1);
      if there {
        j := NextTokenOnChannel(i + 1);
      }
    }

    // Fails exactly on the end-of-file token, and else moves to the next token on the channel.
    method Consume() returns (r: Result<()>)
      requires Valid()
      modifies this`tokens, this`fetchedEOF, this`p, this`needSetup, source
      ensures Valid() && old(tokens) <= tokens
      ensures r.Err? <==> old(Position()) == |source.src| - 1
      ensures r.Err? ==> Position() == old(Position())
      ensures r.Ok? ==> old(Position()) < Position() && old(Ahead()) == [old(Position())] + Ahead()
      ensures r.Ok? ==> Behind() == old(Behind()) + [old(Position())]
      ensures r.Ok? ==> FirstFrom(source.src, channel, old(Position()) + 1, Position())
      ensures r.Ok? ==> KthBefore(source.src, channel, Position(), 1, Some(Placed(source.src, old(Position()))))
    {
      ghost var here := Position();
      var skipEofCheck := false;
      if !needSetup {
        if fetchedEOF {
          skipEofCheck := p < |tokens| - 1;
        } else {
          skipEofCheck := p < |tokens|;
        }
      }
      StartsHere(source.src, channel, here);
      if !skipEofCheck {
        var t := LT(1);
        if t.value.kind == EOF {
          return Err(ConsumeEof);
        }
      }
      p := StepAhead(p);
      Passed(here);
      NextFirst(source.src, channel, here + 1);
      KthListedBefore(source.src, channel, p, 1);
      r := Ok(());
    }

    lemma Passed(here: nat)
      requires Buffer() && here < |source.src| - 1 && Good(source.src, channel, here)
      ensures var next := NextOn(source.src, channel, here + 1);
        && OnChannel(source.src, channel, here, |source.src|)
            == [here] + OnChannel(source.src, channel, next, |source.src|)
        && OnChannel(source.src, channel, 0, next) == OnChannel(source.src, channel, 0, here) + [here]
    {
      var next := NextOn(source.src, channel, here + 1);
      StartsHere(source.src, channel, here);
      NextIsFirst(source.src, channel, here + 1);
      OnChannelSplit(source.src, channel, 0, here, next);
      NoneSkipped(source.src, channel, here + 1);
    }

    // The whole source is buffered, in blocks.
    method Fill()
      requires Valid()
      modifies this`tokens, this`fetchedEOF, this`p, this`needSetup, source
      ensures Valid() && Position() == old(Position()) && |tokens| == |source.src|
    {
      LazyInit();
      ghost var here := p;
      while true
        invariant Valid() && !needSetup && p == here
        decreases |source.src| - |tokens|
      {
        var fetched := Fetch(1000);
        if fetched < 1000 {
          return;
        }
      }
    }

    // What LT(1) gives is what LT(-1) gives after it is consumed.
    method ConsumeSeen() returns (r: Result<()>, before: Option<Token>, after: Option<Token>)
      requires Valid()
      modifies this`tokens, this`fetchedEOF, this`p, this`needSetup, source
      ensures Valid() && (r.Ok? ==> after == before && TokenAt(source.src, before, old(Position())))
    {
      before := LT(1);
      StartsHere(source.src, channel, p);
      r := Consume();
      after := LT(-1);
    }
  }

  lemma {:induction false} OnChannelBound(src: seq<Token>, channel: nat, i: nat, end: nat)
    requires i <= end <= |src|
    ensures |OnChannel(src, channel, i, end)| <= end - i
    decreases end - i
  {
    if i < end {
      OnChannelBound(src, channel, i + 1, end);
    }
  }

  lemma {:induction false} NoneSkipped(src: seq<Token>, channel: nat, i: nat)
    requires Terminated(src) && i < |src|
    ensures OnChannel(src, channel, i, NextOn(src, channel, i)) == []
    decreases |src| - i
  {
    if !Good(src, channel, i) {
      NoneSkipped(src, channel, i + 1);
    }
  }
}
