// The tokenizer of dotted queries: dots separate tokens, except inside the brackets of a call.
module QueryTokens {
  datatype Error = EmptyToken | Unclosed | NoSeparator

  datatype Result<T> = Ok(value: T) | Err(error: Error)

  // The position of the first closing bracket from pos on, or the length.
  function Closing(s: string, pos: nat): (c: nat)
    requires pos <= |s|
    ensures pos <= c <= |s| && (forall k :: pos <= k < c ==> s[k] != ')') && (c < |s| ==> s[c] == ')')
    decreases |s| - pos
  {
    if pos == |s| || s[pos] == ')' then pos else Closing(s, pos + 1)
  }

  // The position at which the first token of s ends, looking from pos on.
  function Separator(s: string, pos: nat): (r: Result<nat>)
    requires pos <= |s|
    ensures r.Ok? ==> pos <= r.value <= |s|
    decreases |s| - pos
  {
    if pos == |s| || s[pos] == '.' then Ok(pos)
    else if s[pos] == '(' then
      var close := Closing(s, pos + 1);
      if close == |s| then Err(Unclosed)
      else if close + 1 == |s| || s[close + 1] == '.' then Ok(close + 1)
      else Err(NoSeparator)
    else Separator(s, pos + 1)
  }

  // The first token of s, and what follows its separator.
  function Split(s: string): (r: Result<(string, string)>)
    ensures r.Ok? ==> |r.value.1| < |s|
  {
    match Separator(s, 0)
    case Err(e) => Err(e)
    case Ok(n) => if n == 0 then Err(EmptyToken) else Ok((s[..n], if n == |s| then "" else s[n + 1..]))
  }

  function After(tokens: seq<string>, r: Result<seq<string>>): Result<seq<string>> {
    if r.Ok? then Ok(tokens + r.value) else r
  }

  function Tokenize(s: string): Result<seq<string>>
    decreases |s|
  {
    if s == "" then Ok([])
    else
      match Split(s)
      case Err(e) => Err(e)
      case Ok((token, rest)) => After([token], Tokenize(rest))
  }

  predicate Name(s: string) { forall k :: 0 <= k < |s| ==> s[k] != '.' && s[k] != '(' }

  predicate Argument(s: string) { forall k :: 0 <= k < |s| ==> s[k] != ')' }

  // A name followed by one bracketed argument.
  ghost predicate Call(s: string, name: string, argument: string) {
    s == name + "(" + argument + ")" && Name(name) && Argument(argument)
  }

  ghost predicate WellFormed(s: string) {
    s != "" && (Name(s) || exists name, argument :: Call(s, name, argument))
  }

  ghost predicate AllWellFormed(ts: seq<string>) { forall k :: 0 <= k < |ts| ==> WellFormed(ts[k]) }

  function Join(ts: seq<string>): string {
    if ts == [] then "" else if |ts| == 1 then ts[0] else ts[0] + "." + Join(ts[1..])
  }

  // What may follow a token.
  predicate Ends(rest: string) { rest == "" || rest[0] == '.' }

  lemma {:induction false} NameScanned(s: string, pos: nat, n: nat)
    requires pos <= n <= |s| && Name(s[pos..n])
    ensures Separator(s, pos) == Separator(s, n)
    decreases n - pos
  {
    if pos < n {
      assert s[pos] == s[pos..n][0];
      assert s[pos + 1..n] == s[pos..n][1..];
      NameScanned(s, pos + 1, n);
    }
  }

  lemma {:induction false} ArgumentScanned(s: string, pos: nat, n: nat)
    requires pos <= n < |s| && Argument(s[pos..n]) && s[n] == ')'
    ensures Closing(s, pos) == n
    decreases n - pos
  {
    if pos < n {
      assert s[pos] == s[pos..n][0];
      assert s[pos + 1..n] == s[pos..n][1..];
      ArgumentScanned(s, pos + 1, n);
    }
  }

  // A well-formed token is scanned to its end, whatever follows.
  lemma TokenScanned(t: string, rest: string)
    requires WellFormed(t) && Ends(rest)
    ensures Separator(t + rest, 0) == Ok(|t|)
  {
    var s := t + rest;
    if Name(t) {
      assert s[0..|t|] == t;
      NameScanned(s, 0, |t|);
    } else {
      var name, argument :| Call(t, name, argument);
      CallScanned(t, rest, name, argument);
    }
  }

  lemma CallScanned(t: string, rest: string, name: string, argument: string)
    requires Call(t, name, argument) && Ends(rest)
    ensures Separator(t + rest, 0) == Ok(|t|)
  {
    var s, n, c := t + rest, |name|, |name| + 1 + |argument|;
    assert s[0..n] == name;
    NameScanned(s, 0, n);
    assert s[n] == t[n] == '(' && s[c] == t[c] == ')';
    assert s[n + 1..c] == argument;
    ArgumentScanned(s, n + 1, c);
  }

  lemma EndsAt(s: string, n: nat)
    requires n == |s| || (n < |s| && s[n] == '.')
    ensures Ends(s[n..])
  {}

  // Conversely, what is scanned is well formed.
  lemma {:induction false} ScannedName(s: string, pos: nat)
    requires pos <= |s| && Separator(s, pos).Ok? && Name(s[..pos])
    ensures var n := Separator(s, pos).value; Ends(s[n..]) && (n > 0 ==> WellFormed(s[..n]))
    decreases |s| - pos
  {
    if pos == |s| || s[pos] == '.' {
      EndsAt(s, pos);
    } else if s[pos] == '(' {
      var close := Closing(s, pos + 1);
      var argument := s[pos + 1..close];
      EndsAt(s, close + 1);
      assert s[..close + 1] == s[..pos] + "(" + argument + ")";
      assert Call(s[..close + 1], s[..pos], argument);
    } else {
      assert s[..pos + 1] == s[..pos] + [s[pos]];
      ScannedName(s, pos + 1);
    }
  }

  // A query is the join of some tokens, up to one dot at the end.
  ghost predicate Joins(s: string, ts: seq<string>) {
    s == Join(ts) || (ts != [] && s == Join(ts) + ".")
  }

  lemma SplitToken(t: string, rest: string)
    requires WellFormed(t) && Ends(rest)
    ensures Split(t + rest) == Ok((t, if rest == "" then "" else rest[1..]))
  {
    TokenScanned(t, rest);
    var s := t + rest;
    assert s[..|t|] == t;
    if rest != "" {
      assert s[|t| + 1..] == rest[1..];
    }
  }

  // What a joined query has after its first token.
  function AfterFirst(ts: seq<string>, dot: bool): (rest: string)
    requires ts != []
    ensures Ends(rest)
  {
    if |ts| > 1 then "." + (Join(ts[1..]) + if dot then "." else "") else if dot then "." else ""
  }

  lemma JoinFirst(ts: seq<string>, dot: bool)
    requires ts != []
    ensures Join(ts) + (if dot then "." else "") == ts[0] + AfterFirst(ts, dot)
  {}

  // What is left of a joined query after its first token is the join of the others.
  lemma JoinRest(ts: seq<string>, s: string) returns (rest: string)
    requires ts != [] && Joins(s, ts)
    ensures s == ts[0] + rest && Ends(rest)
    ensures Joins(if rest == "" then "" else rest[1..], ts[1..])
  {
    var dot := s != Join(ts);
    rest := AfterFirst(ts, dot);
    JoinFirst(ts, dot);
    assert Join(ts) + "" == Join(ts);
    if |ts| > 1 {
      var later := Join(ts[1..]) + if dot then "." else "";
      assert Join(ts[1..]) + "" == Join(ts[1..]);
      assert rest[1..] == later;
    }
  }

  lemma {:induction false} TokenizeJoin(ts: seq<string>, s: string)
    requires AllWellFormed(ts) && Joins(s, ts)
    ensures Tokenize(s) == Ok(ts)
    decreases |ts|
  {
    if ts != [] {
      var rest := JoinRest(ts, s);
      assert WellFormed(ts[0]);
      SplitToken(ts[0], rest);
      TokenizeJoin(ts[1..], if rest == "" then "" else rest[1..]);
      assert [ts[0]] + ts[1..] == ts;
    }
  }

  lemma {:induction false} TokenizeJoined(s: string)
    requires Tokenize(s).Ok?
    ensures AllWellFormed(Tokenize(s).value) && Joins(s, Tokenize(s).value)
    decreases |s|
  {
    if s != "" {
      var (t, rest) := Split(s).value;
      var n := |t|;
      assert Name(s[..0]);
      ScannedName(s, 0);
      TokenizeJoined(rest);
      var ts := Tokenize(rest).value;
      assert ([t] + ts)[1..] == ts;
      if n == |s| {
        assert s == t && ts == [];
      } else {
        assert s[n..][0] == '.';
        assert s == t + "." + rest;
      }
    }
  }

  // Tokenizing gives a list back exactly if its tokens are well formed and the query joins them with
  // dots, up to one dot at the end.
  lemma TokenizeIff(s: string, ts: seq<string>)
    ensures Tokenize(s) == Ok(ts) <==> AllWellFormed(ts) && Joins(s, ts)
  {
    if Tokenize(s).Ok? {
      TokenizeJoined(s);
    }
    if AllWellFormed(ts) && Joins(s, ts) {
      TokenizeJoin(ts, s);
    }
  }

  // A call whose bracket is not closed, ...
  ghost predicate Open(s: string, name: string, argument: string) {
    s == name + "(" + argument && Name(name) && Argument(argument)
  }

  // ... and one that is followed by something other than a dot.
  ghost predicate Trailed(s: string, name: string, argument: string, rest: string) {
    s == name + "(" + argument + ")" + rest && Name(name) && Argument(argument) && rest != "" && rest[0] != '.'
  }

  // No token can be taken off the front of s, and why.
  ghost predicate BadStart(s: string, e: Error) {
    match e
    case EmptyToken => s != "" && s[0] == '.'
    case Unclosed => exists name, argument :: Open(s, name, argument)
    case NoSeparator => exists name, argument, rest :: Trailed(s, name, argument, rest)
  }

  lemma {:induction false} NeverClosed(s: string, pos: nat)
    requires pos <= |s| && Argument(s[pos..])
    ensures Closing(s, pos) == |s|
    decreases |s| - pos
  {
    if pos < |s| {
      assert s[pos] == s[pos..][0];
      assert s[pos + 1..] == s[pos..][1..];
      NeverClosed(s, pos + 1);
    }
  }

  lemma OpenFails(s: string, name: string, argument: string)
    requires Open(s, name, argument)
    ensures Separator(s, 0) == Err(Unclosed)
  {
    var n := |name|;
    assert s[0..n] == name && s[n] == '(' && s[n + 1..] == argument;
    NameScanned(s, 0, n);
    NeverClosed(s, n + 1);
  }

  lemma TrailedFails(s: string, name: string, argument: string, rest: string)
    requires Trailed(s, name, argument, rest)
    ensures Separator(s, 0) == Err(NoSeparator)
  {
    var n, c := |name|, |name| + 1 + |argument|;
    assert s[0..n] == name && s[n] == '(' && s[n + 1..c] == argument && s[c] == ')' && s[c + 1] == rest[0];
    NameScanned(s, 0, n);
    ArgumentScanned(s, n + 1, c);
  }

  lemma {:induction false} ScanFails(s: string, pos: nat)
    requires pos <= |s| && Separator(s, pos).Err? && Name(s[..pos])
    ensures !Separator(s, pos).error.EmptyToken? && BadStart(s, Separator(s, pos).error)
    decreases |s| - pos
  {
    if s[pos] == '(' {
      var close := Closing(s, pos + 1);
      var name, argument := s[..pos], s[pos + 1..close];
      if close == |s| {
        assert Open(s, name, argument);
      } else {
        assert s == name + "(" + argument + ")" + s[close + 1..];
        assert Trailed(s, name, argument, s[close + 1..]);
      }
    } else {
      assert s[..pos + 1] == s[..pos] + [s[pos]];
      ScanFails(s, pos + 1);
    }
  }

  lemma SplitFails(s: string, e: Error)
    requires s != ""
    ensures Split(s) == Err(e) <==> BadStart(s, e)
  {
    assert Name(s[..0]);
    if Separator(s, 0).Err? {
      ScanFails(s, 0);
    } else if Separator(s, 0).value == 0 {
      assert s[0] == '.' || Separator(s, 1).Ok?;
      ScannedName(s, 0);
      assert s[0..] == s;
    }
    match e
    case EmptyToken =>
    case Unclosed =>
      if name, argument :| Open(s, name, argument) {
        OpenFails(s, name, argument);
      }
    case NoSeparator =>
      if name, argument, rest :| Trailed(s, name, argument, rest) {
        TrailedFails(s, name, argument, rest);
      }
  }

  // Tokens, each with its dot.
  function Dotted(ts: seq<string>): string { if ts == [] then "" else ts[0] + "." + Dotted(ts[1..]) }

  lemma {:induction false} DottedFails(ts: seq<string>, bad: string, e: Error)
    requires AllWellFormed(ts) && BadStart(bad, e) && bad != ""
    ensures Tokenize(Dotted(ts) + bad) == Err(e)
    decreases |ts|
  {
    if ts == [] {
      assert Dotted(ts) + bad == bad;
      SplitFails(bad, e);
    } else {
      var later := Dotted(ts[1..]) + bad;
      assert Dotted(ts) + bad == ts[0] + ("." + later);
      assert WellFormed(ts[0]);
      SplitToken(ts[0], "." + later);
      assert ("." + later)[1..] == later;
      DottedFails(ts[1..], bad, e);
    }
  }

  lemma BadIsSome(bad: string, e: Error)
    requires BadStart(bad, e)
    ensures bad != ""
  {}

  lemma {:induction false} FailsDotted(s: string) returns (ts: seq<string>, bad: string)
    requires Tokenize(s).Err?
    ensures AllWellFormed(ts) && s == Dotted(ts) + bad && BadStart(bad, Tokenize(s).error)
    decreases |s|
  {
    if Split(s).Err? {
      SplitFails(s, Split(s).error);
      ts, bad := [], s;
      assert "" + s == s;
    } else {
      var (t, rest) := Split(s).value;
      assert Name(s[..0]);
      ScannedName(s, 0);
      var later;
      later, bad := FailsDotted(rest);
      ts := [t] + later;
      assert ts[1..] == later;
      assert s[|t|..][0] == '.';
      assert s == t + "." + rest;
    }
  }

  // Well-formed tokens, each with its dot, and then something that no token can be taken off the front of.
  ghost predicate Fails(s: string, e: Error) {
    exists ts, bad :: AllWellFormed(ts) && s == Dotted(ts) + bad && BadStart(bad, e)
  }

  // On such queries and no others tokenizing fails, and the error says why.
  lemma TokenizeFails(s: string, e: Error)
    ensures Tokenize(s) == Err(e) <==> Fails(s, e)
  {
    if Tokenize(s) == Err(e) {
      var ts, bad := FailsDotted(s);
    }
    if ts, bad :| AllWellFormed(ts) && s == Dotted(ts) + bad && BadStart(bad, e) {
      BadIsSome(bad, e);
      DottedFails(ts, bad, e);
    }
  }

  class QueryTokensIterator {
    const query: string
    var lastPos: nat

    constructor (query: string)
      ensures this.query == query && lastPos == 0 && Rest() == query
    {
      this.query := query;
      lastPos := 0;
      new;
      assert query[0..] == query;
    }

    // What is left of the query.
    function Rest(): string
      reads this
    {
      if lastPos <= |query| then query[lastPos..] else ""
    }

    method HasNext() returns (b: bool)
      ensures b <==> Rest() != ""
    {
      b := lastPos < |query|;
    }

    method ProduceToken(separator: nat) returns (r: Result<string>)
      requires separator <= |query|
      modifies this
      ensures r.Err? <==> separator <= old(lastPos)
      ensures r.Err? ==> r.error == EmptyToken && lastPos == old(lastPos)
      ensures r.Ok? ==> r.value == query[old(lastPos)..separator] && lastPos == separator + 1
    {
      if separator <= lastPos {
        return Err(EmptyToken);
      }
      var token := query[lastPos..separator];
      lastPos := separator + 1;
      r := Ok(token);
    }

    // Moves to the next closing bracket, or to the end.
    method FindClosing(from: nat) returns (pos: nat)
      requires lastPos <= from <= |query|
      ensures pos == lastPos + Closing(query[lastPos..], from - lastPos) <= |query|
    {
      ghost var s := query[lastPos..];
      pos := from;
      while pos < |query| && query[pos] != ')'
        invariant from <= pos <= |query| && Closing(s, pos - lastPos) == Closing(s, from - lastPos)
        decreases |query| - pos
      {
        assert query[pos] == s[pos - lastPos];
        pos := pos + 1;
      }
      assert pos < |query| ==> query[pos] == s[pos - lastPos];
    }

    // Where the next token ends.
    method FindSeparator() returns (r: Result<nat>)
      requires lastPos <= |query|
      ensures match Separator(query[lastPos..], 0) case Err(e) => r == Err(e) case Ok(n) => r == Ok(lastPos + n)
    {
      ghost var s := query[lastPos..];
      var pos := lastPos;
      while pos < |query|
        invariant lastPos <= pos <= |query| && Separator(s, pos - lastPos) == Separator(s, 0)
        decreases |query| - pos
      {
        assert query[pos] == s[pos - lastPos];
        if query[pos] == '.' {
          return Ok(pos);
        }
        if query[pos] == '(' {
          pos := FindClosing(pos + 1);
          if pos == |query| {
            return Err(Unclosed);
          }
          pos := pos + 1;
          assert pos < |query| ==> query[pos] == s[pos - lastPos];
          return if pos == |query| || query[pos] == '.' then Ok(pos) else Err(NoSeparator);
        }
        pos := pos + 1;
      }
      r := Ok(|query|);
    }

    // The next token, if the query has one there.
    method GetNext() returns (r: Result<string>)
      requires lastPos <= |query| + 1
      modifies this
      ensures lastPos <= |query| + 1
      ensures match Split(old(Rest()))
              case Err(e) => r == Err(e) && lastPos == old(lastPos)
              case Ok((token, rest)) => r == Ok(token) && Rest() == rest && lastPos > old(lastPos)
    {
      if lastPos > |query| {
        r := ProduceToken(|query|);
        return;
      }
      var separator := FindSeparator();
      if separator.Err? {
        return Err(separator.error);
      }
      ghost var s, n := Rest(), separator.value - lastPos;
      assert n < |s| ==> s[n + 1..] == query[separator.value + 1..];
      assert n > 0 ==> s[..n] == query[lastPos..separator.value];
      r := ProduceToken(separator.value);
    }

    // The tokens of the rest of the query.
    method GetAll() returns (r: Result<seq<string>>)
      requires lastPos <= |query| + 1
      modifies this
      ensures r == Tokenize(old(Rest()))
      ensures r.Ok? ==> AllWellFormed(r.value) && Joins(old(Rest()), r.value) && Rest() == ""
      ensures r.Err? ==> Fails(old(Rest()), r.error)
    {
      ghost var s := Rest();
      var tokens: seq<string> := [];
      var more := HasNext();
      assert Tokenize(s).Ok? ==> tokens + Tokenize(s).value == Tokenize(s).value;
      while more
        invariant lastPos <= |query| + 1 && (more <==> Rest() != "")
        invariant Tokenize(s) == After(tokens, Tokenize(Rest()))
        decreases |query| + 1 - lastPos
      {
        ghost var rest := Rest();
        var next := GetNext();
        if next.Err? {
          TokenizeFails(s, next.error);
          return Err(next.error);
        }
        AfterMore(tokens, next.value, Tokenize(Rest()));
        tokens := tokens + [next.value];
        more := HasNext();
      }
      r := Ok(tokens);
      assert tokens + [] == tokens;
      TokenizeJoined(s);
    }
  }

  lemma AfterMore(tokens: seq<string>, t: string, r: Result<seq<string>>)
    ensures After(tokens, After([t], r)) == After(tokens + [t], r)
  {
    if r.Ok? {
      assert tokens + ([t] + r.value) == (tokens + [t]) + r.value;
    }
  }
}
