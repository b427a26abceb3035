// The unbuffered token stream: a sliding window over a token source, with nested marks.
module UnbufferedStream {
  import opened Tokens

  datatype Error = NegativeIndex | ConsumeEof | InvalidMarker

  datatype Result<T> = Ok(value: T) | Err(error: Error)

  function Min(a: int, b: int): int { if b < a then b else a }

  // The token before position i, which is what LT(-1) is to give there.
  function Before(src: seq<Token>, i: nat): Option<Token>
    requires i <= |src|
  {
    if i == 0 then None else Some(Placed(src, i - 1))
  }

  // The token i ahead of a position, the one there being the first; past the end it is the last.
  function Ahead(src: seq<Token>, position: nat, i: nat): Token
    requires 0 < |src| && 0 < i
  {
    Placed(src, Min(position + i - 1, |src| - 1))
  }

  class UnbufferedTokenStream {
    const source: TokenSource
    var tokens: seq<Token>
    var p: nat
    var numMarkers: nat
    var lastToken: Option<Token>
    var lastTokenBufferStart: Option<Token>
    var currentTokenIndex: nat

    // Where the marks not yet released were made.
    ghost var marks: seq<nat>

    function BufferStart(): nat
      requires p <= currentTokenIndex
      reads this
    {
      currentTokenIndex - p
    }

    // The window is a slice of the source, up to what was asked of it.
    ghost predicate Window()
      reads this, source
    {
      && source.Valid()
      && p <= currentTokenIndex
      && BufferStart() + |tokens| == source.pos
      && (forall i :: 0 <= i < |tokens| ==> tokens[i] == Placed(source.src, BufferStart() + i))
      && currentTokenIndex < |source.src|
      && lastToken == Before(source.src, currentTokenIndex)
    }

    // Nothing after the outermost mark is given up, and LT(-1) is known there.
    ghost predicate Marked()
      requires Window()
      reads this, source
    {
      && numMarkers == |marks|
      && (forall k :: 0 <= k < |marks| ==> BufferStart() <= marks[k] < source.pos)
      && lastTokenBufferStart == Before(source.src, if marks == [] then BufferStart() else marks[0])
      && (currentTokenIndex == BufferStart() ==> Home(BufferStart()))
      && (forall k :: 0 <= k < |marks| ==> Home(marks[k]))
    }

    // Before the outermost mark, the start of the buffer is out of bounds: LT(-1) is not known there.
    ghost predicate Home(index: nat)
      requires p <= currentTokenIndex
      reads this
    {
      index != BufferStart() || marks == [] || marks[0] == BufferStart()
    }

    ghost predicate Valid()
      reads this, source
    {
      Window() && Marked() && p < |tokens|
    }

    constructor (source: TokenSource)
      requires source.Valid() && source.pos == 0
      modifies source
      ensures Valid() && this.source == source && currentTokenIndex == 0 && marks == [] && lastToken == None
    {
      this.source := source;
      tokens, p, numMarkers, lastToken, lastTokenBufferStart, currentTokenIndex, marks := [], 0, 0, None, None, 0, [];
      new;
      Fill(1);
    }

    // Asks the source for n more tokens, but for none after its end-of-file token.
    method Fill(n: nat)
      requires Window() && Marked()
      modifies this`tokens, source
      ensures Window() && Marked()
      ensures old(tokens) <= tokens
      ensures source.pos == if old(source.pos) + n < |source.src| then old(source.pos) + n else |source.src|
      ensures forall i :: 0 <= i < |tokens| ==> TokenAt(source.src, Some(tokens[i]), BufferStart() + i)
    {
      for i := 0 to n
        invariant Window() && Marked() && old(tokens) <= tokens
        invariant source.pos == Min(old(source.pos) + i, |source.src|)
      {
        Ended();
        if |tokens| > 0 && tokens[|tokens| - 1].kind == EOF {
          return;
        }
        Add();
      }
    }

    // Appends the next token of the source, at its place in the stream.
    method Add()
      requires Window() && Marked() && source.pos < |source.src|
      modifies this`tokens, source
      ensures Window() && Marked()
      ensures old(tokens) <= tokens && |tokens| == |old(tokens)| + 1 && source.pos == old(source.pos) + 1
      ensures TokenAt(source.src, Some(tokens[|tokens| - 1]), old(source.pos))
    {
      var t := source.NextToken();
      tokens := tokens + [Token(t.kind, t.channel, t.text, BufferStart() + |tokens|)];
    }

    // The window shows the end-of-file token exactly when the source has given it.
    lemma Ended()
      requires Window()
      ensures (|tokens| > 0 && tokens[|tokens| - 1].kind == EOF) <==> source.pos == |source.src|
    {
      if |tokens| > 0 {
        assert tokens[|tokens| - 1] == Placed(source.src, source.pos - 1);
      }
    }

    // Buffers enough for LT(want).
    method Sync(want: int)
      requires Window() && Marked()
      modifies this`tokens, source
      ensures Window() && Marked()
      ensures old(tokens) <= tokens
      ensures source.pos == if old(source.pos) < currentTokenIndex + want
          then Min(currentTokenIndex + want, |source.src|) else old(source.pos)
    {
      var need := p + want - 1 - |tokens| + 1;
      if need > 0 {
        Fill(need);
      }
    }

    // For i > 0 the token i ahead, or the last one; for i = -1 the token consumed last. LT(0) and
    // LT(i) below -1 look back in the window, by one token more than the offset says.
    method LT(i: int) returns (r: Result<Option<Token>>)
      requires Valid()
      modifies this`tokens, source
      ensures Valid() && old(tokens) <= tokens
      ensures i > 0 ==> r == Ok(Some(Ahead(source.src, currentTokenIndex, i)))
      ensures i == -1 ==> r == Ok(Before(source.src, currentTokenIndex))
      ensures i == 0 || i < -1 ==> r == if p + i < 1 then Err(NegativeIndex)
          else Ok(Some(Placed(source.src, currentTokenIndex + i - 1)))
      ensures i > 0 ==> r.Ok? && var last, at := |source.src| - 1, currentTokenIndex + i - 1;
                TokenAt(source.src, r.value, if at < last then at else last)
      ensures i == -1 ==> r.Ok? && if currentTokenIndex == 0 then r.value == None
                else TokenAt(source.src, r.value, currentTokenIndex - 1)
      ensures (i == 0 || i < -1) && p + i >= 1 ==> r.Ok? && TokenAt(source.src, r.value, currentTokenIndex + i - 1)
    {
      if i == -1 {
        return Ok(lastToken);
      }
      Sync(i);
      var index := p + i - 1;
      if index < 0 {
        return Err(NegativeIndex);
      }
      if index >= |tokens| {
        assert source.pos == |source.src|;
        return Ok(Some(tokens[|tokens| - 1]));
      }
      r := Ok(Some(tokens[index]));
    }

    // Fails on the end-of-file token, and else moves one token on.
    method Consume() returns (r: Result<()>)
      requires Valid()
      modifies this, source
      ensures Valid() && marks == old(marks)
      ensures r.Err? <==> old(currentTokenIndex) == |source.src| - 1
      ensures r.Err? ==> r.error == ConsumeEof && currentTokenIndex == old(currentTokenIndex)
      ensures r.Ok? ==> currentTokenIndex == old(currentTokenIndex) + 1
      ensures marks != [] ==> BufferStart() == old(BufferStart()) && old(tokens) <= tokens
    {
      var next := LT(1);
      assert Placed(source.src, currentTokenIndex).kind == source.src[currentTokenIndex].kind;
      if next.value.value.kind == EOF {
        return Err(ConsumeEof);
      }
      Advance();
      Sync(1);
      r := Ok(());
    }

    // The window is emptied when its last token goes and no mark needs it.
    method Advance()
      requires Valid() && currentTokenIndex < |source.src| - 1
      modifies this
      ensures Window() && Marked() && marks == old(marks) && currentTokenIndex == old(currentTokenIndex) + 1
      ensures marks != [] ==> BufferStart() == old(BufferStart()) && tokens == old(tokens)
    {
      lastToken := Some(tokens[p]);
      if p == |tokens| - 1 && numMarkers == 0 {
        tokens := [];
        p := 0;
        lastTokenBufferStart := lastToken;
      } else {
        p := p + 1;
      }
      currentTokenIndex := currentTokenIndex + 1;
    }

    // The marker of the nth mark is -n.
    method Mark() returns (marker: int)
      requires Valid()
      modifies this`numMarkers, this`lastTokenBufferStart, this`marks
      ensures Valid() && marker == -|marks| && marks == old(marks) + [currentTokenIndex]
    {
      if numMarkers == 0 {
        lastTokenBufferStart := lastToken;
      }
      marker := -1 - numMarkers;
      numMarkers := numMarkers + 1;
      marks := marks + [currentTokenIndex];
    }

    // Only the mark made last can be released; with the last one goes what was consumed.
    method Release(marker: int) returns (r: Result<()>)
      requires Valid() && (marks != [] || marker != 0)
      modifies this
      ensures Valid() && currentTokenIndex == old(currentTokenIndex)
      ensures r == if marker == -|old(marks)| then Ok(()) else Err(InvalidMarker)
      ensures r.Err? ==> marks == old(marks)
      ensures r.Ok? ==> marks == old(marks)[..|old(marks)| - 1]
      ensures r.Ok? ==> BufferStart() == if marks == [] then currentTokenIndex else old(BufferStart())
      ensures r.Err? || marks != [] ==> tokens == old(tokens) && BufferStart() == old(BufferStart())
    {
      if marker != 0 - numMarkers {
        return Err(InvalidMarker);
      }
      numMarkers := numMarkers - 1;
      marks := marks[..|marks| - 1];
      if numMarkers == 0 {
        if p > 0 {
          tokens := tokens[p..];
          p := 0;
        }
        lastTokenBufferStart := lastToken;
      }
      r := Ok(());
    }

    // Where a seek lands. Backward it is the index asked for; forward it is that index only if its
    // token is in the window already or if it is past the end of the source, and else one less.
    ghost function Landing(index: nat): nat
      requires Valid()
      reads this, source
    {
      if index < BufferStart() + |tokens| then index else Min(index - 1, |source.src| - 1)
    }

    // Fails before the window, and else moves to where it lands.
    method Seek(index: nat) returns (r: Result<()>)
      requires Valid() && Home(index)
      modifies this`tokens, this`p, this`currentTokenIndex, this`lastToken, source
      ensures Valid()
      ensures r.Err? <==> index < old(BufferStart())
      ensures r.Err? ==> r.error == NegativeIndex && currentTokenIndex == old(currentTokenIndex)
      ensures r.Ok? ==> currentTokenIndex == old(Landing(index))
      ensures BufferStart() == old(BufferStart()) && old(tokens) <= tokens
    {
      if index == currentTokenIndex {
        return Ok(());
      }
      var target := index;
      if index > currentTokenIndex {
        Sync(index - currentTokenIndex);
        target := Min(index, BufferStart() + |tokens| - 1);
      }
      if BufferStart() > target {
        return Err(NegativeIndex);
      }
      MoveTo(target);
      r := Ok(());
    }

    method MoveTo(target: nat)
      requires Valid() && BufferStart() <= target < BufferStart() + |tokens| && Home(target)
      modifies this`p, this`currentTokenIndex, this`lastToken
      ensures Valid() && currentTokenIndex == target && BufferStart() == old(BufferStart())
    {
      var i := target - BufferStart();
      p := i;
      currentTokenIndex := target;
      if p == 0 {
        lastToken := lastTokenBufferStart;
      } else {
        lastToken := Some(tokens[p - 1]);
      }
    }

    // Any work between a mark and its release: a failed step leaves the stream where it was.
    method Run(script: Script, base: nat)
      requires Valid() && marks != [] && marks[0] <= base <= currentTokenIndex
      modifies this, source
      ensures base <= currentTokenIndex
      ensures Valid() && marks == old(marks) && BufferStart() == old(BufferStart()) && old(tokens) <= tokens
      decreases script, 0
    {
      match script
      case Done =>
      case Look(i, rest) =>
        var seen := LT(i);
        Run(rest, base);
      case Next(rest) =>
        var consumed := Consume();
        Run(rest, base);
      case Go(index, rest) =>
        if base <= index {
          var sought := Seek(index);
        }
        Run(rest, base);
      case Speculate(inner, rest) =>
        RunMarked(inner);
        Run(rest, base);
      case Hold(inner, rest) =>
        RunHeld(inner, base);
        Run(rest, base);
    }

    // A mark inside a marked range, released in place.
    method RunHeld(script: Script, base: nat)
      requires Valid() && marks != [] && marks[0] <= base <= currentTokenIndex
      modifies this, source
      ensures base <= currentTokenIndex
      ensures Valid() && marks == old(marks) && BufferStart() == old(BufferStart()) && old(tokens) <= tokens
      decreases script, 1
    {
      var marker := Mark();
      Run(script, base);
      var released := Release(marker);
      assert released.Ok?;
    }

    // Mark, work, seek back and release: LT(-1) and every token ahead are as they were, and no mark
    // is left, although the tokens consumed before the mark may be gone.
    method RunMarked(script: Script)
      requires Valid() && (marks == [] || marks[0] <= currentTokenIndex)
      modifies this, source
      ensures Valid() && marks == old(marks)
      ensures currentTokenIndex == old(currentTokenIndex) && lastToken == old(lastToken)
      ensures BufferStart() == if marks == [] then currentTokenIndex else old(BufferStart())
      ensures marks != [] ==> old(tokens) <= tokens
      decreases script, 1
    {
      var marker := Mark();
      ghost var made := marks;
      var index := currentTokenIndex;
      Run(script, index);
      assert Home(made[|made| - 1]);
      var sought := Seek(index);
      var released := Release(marker);
      assert sought.Ok? && released.Ok?;
    }
  }

  // What may be done to a stream in a marked range: look ahead, consume, seek, and mark again, going back to
  // the mark before its release or not.
  datatype Script =
    | Done
    | Look(i: int, rest: Script)
    | Next(rest: Script)
    | Go(index: nat, rest: Script)
    | Speculate(inner: Script, rest: Script)
    | Hold(inner: Script, rest: Script)
}
