// Tokens, and the source that hands them out one at a time.
module Tokens {
  const EOF: int := -1

  datatype Token = Token(kind: int, channel: nat, text: string, index: nat)

  datatype Option<T> = None | Some(value: T)

  // A source ends with its only end-of-file token.
  predicate Terminated(src: seq<Token>) {
    && 0 < |src|
    && forall i :: 0 <= i < |src| ==> (src[i].kind == EOF <==> i == |src| - 1)
  }

  // The token of a source as a stream buffers it, with its position written into it.
  function Placed(src: seq<Token>, i: nat): (t: Token)
    requires i < |src|
  {
    Token(src[i].kind, src[i].channel, src[i].text, i)
  }

  // The token is that of position at of the source, with its position written into it.
  predicate TokenAt(src: seq<Token>, t: Option<Token>, at: int) {
    && 0 <= at < |src| && t.Some? && t.value.index == at && t.value.text == src[at].text
    && t.value.kind == src[at].kind && t.value.channel == src[at].channel
  }

  class TokenSource {
    const src: seq<Token>
    var pos: nat

    constructor (src: seq<Token>)
      requires Terminated(src)
      ensures this.src == src && pos == 0 && Valid()
    {
      this.src := src;
      pos := 0;
    }

    ghost predicate Valid()
      reads this
    {
      Terminated(src) && pos <= |src|
    }

    // A source must not be asked again once it gave its end-of-file token.
    method NextToken() returns (t: Token)
      requires Valid() && pos < |src|
      modifies this
      ensures Valid() && pos == old(pos) + 1 && t == src[old(pos)]
    {
      t := src[pos];
      pos := pos + 1;
    }
  }
}
