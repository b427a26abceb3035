// The parser of boolean expressions: precedence climbing over one token of lookahead.
module BooleanParser {
  import opened Tokens

  const AND: int := 1
  const OR: int := 2
  const NOT: int := 3
  const TRUE: int := 4
  const FALSE: int := 5
  const GT: int := 6
  const EQ: int := 10
  const LPAREN: int := 11
  const RPAREN: int := 12
  const DECIMAL: int := 13
  const IDENTIFIER: int := 14

  datatype Tree =
    | Paren(open: Token, inner: Tree, close: Token)
    | Not(bang: Token, operand: Tree)
    | Leaf(token: Token)
    | Comparison(left: Tree, op: Token, right: Tree)
    | Binary(left: Tree, op: Token, right: Tree)

  datatype Error = NoViableAlternative(at: nat) | Mismatch(at: nat)

  datatype Result<T> = Ok(value: T) | Err(error: Error)

  // GT, GE, LT, LE and EQ are numbered in this order.
  predicate IsComparator(kind: int) { GT <= kind <= EQ }

  predicate IsBinary(kind: int) { kind == AND || kind == OR }

  predicate IsLeaf(kind: int) { kind == TRUE || kind == FALSE || kind == IDENTIFIER || kind == DECIMAL }

  function Kind(ts: seq<Token>, i: nat): int {
    if i < |ts| then ts[i].kind else EOF
  }

  // The precedence the loop asks for before it takes an operator; -1 for other tokens.
  function Strength(kind: int): int {
    if IsComparator(kind) then 5 else if IsBinary(kind) then 4 else -1
  }

  function Joined(left: Tree, op: Token, right: Tree): Tree {
    if IsComparator(op.kind) then Comparison(left, op, right) else Binary(left, op, right)
  }

  // The tree that expression(precedence) gives at token i, and where it stops.
  function Expression(ts: seq<Token>, i: nat, precedence: nat): (r: Result<(Tree, nat)>)
    requires i <= |ts|
    ensures r.Ok? ==> i < r.value.1 <= |ts|
    decreases |ts| - i, 2
  {
    match Primary(ts, i)
    case Err(e) => Err(e)
    case Ok((left, j)) => Operators(ts, left, j, precedence)
  }

  function Primary(ts: seq<Token>, i: nat): (r: Result<(Tree, nat)>)
    requires i <= |ts|
    ensures r.Ok? ==> i < r.value.1 <= |ts|
    decreases |ts| - i, 1
  {
    if i == |ts| then Err(NoViableAlternative(i))
    else if ts[i].kind == LPAREN then
      match Expression(ts, i + 1, 0)
      case Err(e) => Err(e)
      case Ok((inner, j)) => if j < |ts| && ts[j].kind == RPAREN then Ok((Paren(ts[i], inner, ts[j]), j + 1))
          else Err(Mismatch(j))
    else if ts[i].kind == NOT then
      match Expression(ts, i + 1, 6)
      case Err(e) => Err(e)
      case Ok((operand, j)) => Ok((Not(ts[i], operand), j))
    else if IsLeaf(ts[i].kind) then Ok((Leaf(ts[i]), i + 1))
    else Err(NoViableAlternative(i))
  }

  // The loop: left operand so far, and the operators that precedence lets it take.
  function Operators(ts: seq<Token>, left: Tree, i: nat, precedence: nat): (r: Result<(Tree, nat)>)
    requires i <= |ts|
    ensures r.Ok? ==> i <= r.value.1 <= |ts|
    decreases |ts| - i, 0
  {
    if i < |ts| && Strength(ts[i].kind) >= precedence then
      match Expression(ts, i + 1, Strength(ts[i].kind) + 1)
      case Err(e) => Err(e)
      case Ok((right, j)) => Operators(ts, Joined(left, ts[i], right), j, precedence)
    else Ok((left, i))
  }

  function Parse(ts: seq<Token>): Result<Tree> {
    match Expression(ts, 0, 0)
    case Err(e) => Err(e)
    case Ok((t, j)) => if Kind(ts, j) == EOF then Ok(t) else Err(Mismatch(j))
  }

  function Yield(t: Tree): (ts: seq<Token>)
    ensures ts != []
  {
    match t
    case Paren(open, inner, close) => [open] + Yield(inner) + [close]
    case Not(bang, operand) => [bang] + Yield(operand)
    case Leaf(token) => [token]
    case Comparison(left, op, right) => Yield(left) + [op] + Yield(right)
    case Binary(left, op, right) => Yield(left) + [op] + Yield(right)
  }

  // How tightly the root of a tree binds.
  function Level(t: Tree): nat {
    match t
    case Comparison(_, _, _) => 5
    case Binary(_, _, _) => 4
    case _ => 6
  }

  // The precedence shape: no bare && or || left of a comparator, no bare operator right of one or
  // under !, and no bare && or || right of && or ||. In the numbers of the grammar, 1 is &&, 2 is ||, 3 is !, 4 and 5
  // are true and false, 6 to 10 are the comparators, 11 and 12 the brackets, 13 is a decimal and 14 an identifier.
  predicate Shaped(t: Tree) {
    match t
    case Paren(open, inner, close) => open.kind == 11 && close.kind == 12 && Shaped(inner)
    case Not(bang, operand) => bang.kind == 3 && Shaped(operand) && Level(operand) >= 6
    case Leaf(token) => token.kind in {4, 5, 13, 14}
    case Comparison(left, op, right) => 6 <= op.kind <= 10 && Shaped(left) && Shaped(right) && Level(left) >= 5
        && Level(right) >= 6
    case Binary(left, op, right) => 1 <= op.kind <= 2 && Shaped(left) && Shaped(right) && Level(right) >= 5
  }

  // No operator follows that an expression of a precedence would take.
  predicate Stops(ts: seq<Token>, i: nat, precedence: nat) {
    Strength(Kind(ts, i)) < precedence
  }

  // After && or || and its right operand comes no comparator.
  predicate Settled(ts: seq<Token>, t: Tree, i: nat) {
    Level(t) == 4 ==> Stops(ts, i, 5)
  }

  ghost predicate Parsed(ts: seq<Token>, i: nat, t: Tree, j: nat) {
    i <= j <= |ts| && Shaped(t) && Yield(t) == ts[i..j]
  }

  // What is parsed is a tree of the right shape, its yield the tokens consumed, and it stops only
  // where no operator of the precedence follows.
  lemma {:induction false} ExpressionSound(ts: seq<Token>, i: nat, precedence: nat)
    requires i <= |ts| && Expression(ts, i, precedence).Ok? && precedence <= 6
    ensures var (t, j) := Expression(ts, i, precedence).value;
      Parsed(ts, i, t, j) && Level(t) >= precedence && Stops(ts, j, precedence) && Settled(ts, t, j)
    decreases |ts| - i, 2
  {
    PrimarySound(ts, i);
    var (left, k) := Primary(ts, i).value;
    OperatorsSound(ts, left, i, k, precedence);
  }

  lemma Bracketed(ts: seq<Token>, i: nat, j: nat)
    requires i + 1 < j <= |ts|
    ensures ts[i..j] == [ts[i]] + ts[i + 1..j - 1] + [ts[j - 1]]
  {}

  lemma {:induction false} PrimarySound(ts: seq<Token>, i: nat)
    requires i <= |ts| && Primary(ts, i).Ok?
    ensures var (t, j) := Primary(ts, i).value; Parsed(ts, i, t, j) && Level(t) == 6
    decreases |ts| - i, 1
  {
    var j := Primary(ts, i).value.1;
    if ts[i].kind == LPAREN {
      ExpressionSound(ts, i + 1, 0);
      Bracketed(ts, i, j);
    } else if ts[i].kind == NOT {
      ExpressionSound(ts, i + 1, 6);
      assert ts[i..j] == [ts[i]] + ts[i + 1..j];
    }
  }

  lemma {:induction false} OperatorsSound(ts: seq<Token>, left: Tree, i: nat, k: nat, precedence: nat)
    requires k <= |ts| && Operators(ts, left, k, precedence).Ok? && precedence <= 6
    requires Parsed(ts, i, left, k) && Level(left) >= precedence && Settled(ts, left, k)
    ensures var (t, j) := Operators(ts, left, k, precedence).value;
      Parsed(ts, i, t, j) && Level(t) >= precedence && Stops(ts, j, precedence) && Settled(ts, t, j)
    decreases |ts| - k, 0
  {
    if k < |ts| && Strength(ts[k].kind) >= precedence {
      var op := ts[k];
      ExpressionSound(ts, k + 1, Strength(op.kind) + 1);
      var (right, j) := Expression(ts, k + 1, Strength(op.kind) + 1).value;
      JoinedSound(ts, i, left, k, right, j);
      OperatorsSound(ts, Joined(left, op, right), i, j, precedence);
    }
  }

  lemma JoinedSound(ts: seq<Token>, i: nat, left: Tree, k: nat, right: Tree, j: nat)
    requires k < j <= |ts| && Parsed(ts, i, left, k) && Parsed(ts, k + 1, right, j)
    requires 0 < Strength(ts[k].kind) < Level(right) && Settled(ts, left, k) && Stops(ts, j, Strength(ts[k].kind) + 1)
    ensures var t := Joined(left, ts[k], right);
        Parsed(ts, i, t, j) && Level(t) == Strength(ts[k].kind) && Settled(ts, t, j)
  {
    assert ts[i..j] == ts[i..k] + [ts[k]] + ts[k + 1..j];
  }

  // The tokens y stand in a list at i.
  predicate Has(ts: seq<Token>, i: nat, y: seq<Token>) {
    i + |y| <= |ts| && forall k :: 0 <= k < |y| ==> ts[i + k] == y[k]
  }

  ghost predicate Stands(ts: seq<Token>, i: nat, t: Tree) {
    Has(ts, i, Yield(t))
  }

  lemma HasParts(ts: seq<Token>, i: nat, a: seq<Token>, b: seq<Token>)
    requires Has(ts, i, a + b)
    ensures Has(ts, i, a) && Has(ts, i + |a|, b)
  {
    var y := a + b;
    forall k | 0 <= k < |a| ensures ts[i + k] == a[k] {
      assert y[k] == a[k];
    }
    forall k | 0 <= k < |b| ensures ts[i + |a| + k] == b[k] {
      assert y[|a| + k] == b[k];
      assert ts[i + (|a| + k)] == y[|a| + k];
    }
  }

  lemma HasOperands(ts: seq<Token>, i: nat, y: seq<Token>, a: seq<Token>, op: Token, b: seq<Token>)
    requires Has(ts, i, y) && y == a + [op] + b
    ensures Has(ts, i, a) && i + |a| < |ts| && ts[i + |a|] == op && Has(ts, i + |a| + 1, b)
    ensures |y| == |a| + 1 + |b|
  {
    HasParts(ts, i, a + [op], b);
    HasParts(ts, i, a, [op]);
    assert ts[i + |a| + 0] == [op][0];
  }

  // One turn of the loop.
  lemma Turn(ts: seq<Token>, i: nat, left: Tree, k: nat, right: Tree, j: nat, precedence: nat)
    requires i <= k < |ts| && k < j <= |ts| && precedence <= Strength(ts[k].kind)
    requires Expression(ts, i, precedence) == Operators(ts, left, k, precedence)
    requires Expression(ts, k + 1, Strength(ts[k].kind) + 1) == Ok((right, j))
    ensures Expression(ts, i, precedence) == Operators(ts, Joined(left, ts[k], right), j, precedence)
  {}

  // A tree that stands at token i becomes the left operand of the loop there.
  lemma {:induction false} Climb(ts: seq<Token>, i: nat, t: Tree, precedence: nat)
    requires Shaped(t) && Stands(ts, i, t) && Settled(ts, t, i + |Yield(t)|) && precedence <= Level(t)
    ensures Expression(ts, i, precedence) == Operators(ts, t, i + |Yield(t)|, precedence)
    decreases t, 2
  {
    match t
    case Leaf(token) =>
      assert ts[i + 0] == Yield(t)[0];
    case Not(bang, operand) => ClimbNot(ts, i, t);
    case Paren(open, inner, close) => ClimbParen(ts, i, t);
    case Comparison(left, op, right) => ClimbOperator(ts, i, t, left, op, right, precedence);
    case Binary(left, op, right) => ClimbOperator(ts, i, t, left, op, right, precedence);
  }

  lemma ClimbOperator(ts: seq<Token>, i: nat, t: Tree, left: Tree, op: Token, right: Tree, precedence: nat)
    requires Shaped(t) && Stands(ts, i, t) && Settled(ts, t, i + |Yield(t)|) && precedence <= Level(t)
    requires t == Comparison(left, op, right) || t == Binary(left, op, right)
    ensures Expression(ts, i, precedence) == Operators(ts, t, i + |Yield(t)|, precedence)
    decreases t, 1
  {
    OperatorPoised(ts, i, t, left, op, right, precedence);
    ClimbTurn(ts, i, t, left, i + |Yield(left)|, right, i + |Yield(t)|, precedence);
  }

  // The operands stand in the list around the operator at k, ready for a turn of the loop.
  ghost predicate Poised(ts: seq<Token>, i: nat, t: Tree, left: Tree, k: nat, right: Tree, j: nat, precedence: nat) {
    && left < t && right < t && precedence <= Level(left)
    && Shaped(left) && Stands(ts, i, left) && Settled(ts, left, k) && k == i + |Yield(left)| < |ts|
    && Shaped(right) && Stands(ts, k + 1, right) && j == k + 1 + |Yield(right)|
    && precedence <= Strength(ts[k].kind) < Level(right) && Stops(ts, j, Strength(ts[k].kind) + 1)
  }

  lemma OperatorPoised(ts: seq<Token>, i: nat, t: Tree, left: Tree, op: Token, right: Tree, precedence: nat)
    requires Shaped(t) && Stands(ts, i, t) && Settled(ts, t, i + |Yield(t)|) && precedence <= Level(t)
    requires t == Comparison(left, op, right) || t == Binary(left, op, right)
    ensures Poised(ts, i, t, left, i + |Yield(left)|, right, i + |Yield(t)|, precedence)
    ensures t == Joined(left, ts[i + |Yield(left)|], right)
  {
    OperatorStands(ts, i, t, left, op, right);
    OperatorShape(ts, t, left, op, right, i + |Yield(left)|, i + |Yield(t)|);
  }

  lemma ClimbTurn(ts: seq<Token>, i: nat, t: Tree, left: Tree, k: nat, right: Tree, j: nat, precedence: nat)
    requires Poised(ts, i, t, left, k, right, j, precedence)
    ensures Expression(ts, i, precedence) == Operators(ts, Joined(left, ts[k], right), j, precedence)
    decreases t, 0
  {
    Climb(ts, i, left, precedence);
    Whole(ts, k + 1, right, Strength(ts[k].kind) + 1);
    Turn(ts, i, left, k, right, j, precedence);
  }

  // What the shape of a tree says of its operands, with its operator at k and its end at j.
  lemma OperatorShape(ts: seq<Token>, t: Tree, left: Tree, op: Token, right: Tree, k: nat, j: nat)
    requires Shaped(t) && Settled(ts, t, j) && Kind(ts, k) == op.kind
    requires t == Comparison(left, op, right) || t == Binary(left, op, right)
    ensures Shaped(left) && Shaped(right) && t == Joined(left, op, right) && Strength(op.kind) == Level(t)
    ensures Level(t) <= Level(left) && Level(t) < Level(right) && Settled(ts, left, k) && Stops(ts, j, Level(t) + 1)
  {}

  lemma OperatorStands(ts: seq<Token>, i: nat, t: Tree, left: Tree, op: Token, right: Tree)
    requires Stands(ts, i, t) && (t == Comparison(left, op, right) || t == Binary(left, op, right))
    ensures var k := i + |Yield(left)|;
      Stands(ts, i, left) && k < |ts| && ts[k] == op && Stands(ts, k + 1, right)
          && i + |Yield(t)| == k + 1 + |Yield(right)|
  {
    YieldOperator(t, left, op, right);
    HasOperands(ts, i, Yield(t), Yield(left), op, Yield(right));
  }

  lemma YieldOperator(t: Tree, left: Tree, op: Token, right: Tree)
    requires t == Comparison(left, op, right) || t == Binary(left, op, right)
    ensures Yield(t) == Yield(left) + [op] + Yield(right)
  {}

  lemma ClimbNot(ts: seq<Token>, i: nat, t: Tree)
    requires Shaped(t) && Stands(ts, i, t) && t.Not?
    ensures Primary(ts, i) == Ok((t, i + |Yield(t)|))
    decreases t, 0
  {
    HasParts(ts, i, [t.bang], Yield(t.operand));
    assert ts[i + 0] == [t.bang][0];
    Whole(ts, i + 1, t.operand, 6);
  }

  lemma ClimbParen(ts: seq<Token>, i: nat, t: Tree)
    requires Shaped(t) && Stands(ts, i, t) && t.Paren?
    ensures Primary(ts, i) == Ok((t, i + |Yield(t)|))
    decreases t, 0
  {
    var rest := Yield(t.inner) + [t.close];
    assert Yield(t) == [t.open] + rest && rest == Yield(t.inner) + [t.close] + [];
    HasParts(ts, i, [t.open], rest);
    HasOperands(ts, i + 1, rest, Yield(t.inner), t.close, []);
    assert ts[i + 0] == Yield(t)[0];
    Whole(ts, i + 1, t.inner, 0);
  }

  // Where no operator follows that it would take, the expression is the tree that stands there.
  lemma {:induction false} Whole(ts: seq<Token>, i: nat, t: Tree, precedence: nat)
    requires Shaped(t) && Stands(ts, i, t) && precedence <= Level(t) && Stops(ts, i + |Yield(t)|, precedence)
    ensures Expression(ts, i, precedence) == Ok((t, i + |Yield(t)|))
    decreases t, 3
  {
    Climb(ts, i, t, precedence);
  }

  // Parsing and the yield of trees undo each other.
  lemma ParseIff(ts: seq<Token>, eof: Token, t: Tree)
    requires eof.kind == EOF && forall k :: 0 <= k < |ts| ==> ts[k].kind != EOF
    ensures Parse(ts + [eof]) == Ok(t) <==> Shaped(t) && Yield(t) == ts
  {
    var all := ts + [eof];
    if Parse(all) == Ok(t) {
      ExpressionSound(all, 0, 0);
      var j := Expression(all, 0, 0).value.1;
      assert j > |ts| ==> all[0..j][|ts|] == eof;
      LeavesEof(t);
      assert j == |ts|;
      assert all[0..|ts|] == ts;
    }
    if Shaped(t) && Yield(t) == ts {
      Whole(all, 0, t, 0);
    }
  }

  // No end-of-file token is part of a tree.
  lemma {:induction false} LeavesEof(t: Tree)
    requires Shaped(t)
    ensures forall k :: 0 <= k < |Yield(t)| ==> Yield(t)[k].kind != EOF
    decreases t
  {
    match t
    case Leaf(token) =>
    case Not(bang, operand) => LeavesEof(operand);
    case Paren(open, inner, close) => LeavesEof(inner);
    case Comparison(left, op, right) =>
      LeavesEof(left);
      LeavesEof(right);
    case Binary(left, op, right) =>
      LeavesEof(left);
      LeavesEof(right);
  }

  function Place(e: Error): nat { e.at }

  // Where a parse fails nothing behind the token it fails at has been looked at.
  ghost predicate Alike(ts: seq<Token>, us: seq<Token>, k: nat) {
    k < |ts| && k < |us| && ts[..k + 1] == us[..k + 1]
  }

  lemma AlikeAt(ts: seq<Token>, us: seq<Token>, k: nat, i: nat)
    requires Alike(ts, us, k) && i <= k
    ensures ts[i] == us[i]
  {
    assert ts[..k + 1][i] == us[..k + 1][i];
  }

  lemma {:induction false} ExpressionAlike(ts: seq<Token>, us: seq<Token>, i: nat, precedence: nat, k: nat)
    requires i <= |ts| && Alike(ts, us, k) && i <= |us|
    requires match Expression(ts, i, precedence) case Err(e) => Place(e) == k case Ok((_, j)) => j <= k
    ensures Expression(us, i, precedence) == Expression(ts, i, precedence)
    ensures i <= k
    decreases |ts| - i, 2
  {
    var primary := Primary(ts, i);
    if primary.Ok? {
      var (left, j) := primary.value;
      OperatorsForward(ts, left, j, precedence);
    }
    PrimaryAlike(ts, us, i, k);
    if primary.Ok? {
      var (left, j) := primary.value;
      OperatorsAlike(ts, us, left, j, precedence, k);
    }
  }

  // Errors are not behind where the parse started.
  lemma {:induction false} OperatorsForward(ts: seq<Token>, left: Tree, i: nat, precedence: nat)
    requires i <= |ts|
    ensures match Operators(ts, left, i, precedence) case Err(e) => i <= Place(e) case Ok((_, j)) => i <= j
    decreases |ts| - i, 0
  {
    if i < |ts| && Strength(ts[i].kind) >= precedence {
      ExpressionForward(ts, i + 1, Strength(ts[i].kind) + 1);
      match Expression(ts, i + 1, Strength(ts[i].kind) + 1)
      case Err(_) =>
      case Ok((right, j)) => OperatorsForward(ts, Joined(left, ts[i], right), j, precedence);
    }
  }

  lemma {:induction false} ExpressionForward(ts: seq<Token>, i: nat, precedence: nat)
    requires i <= |ts|
    ensures Expression(ts, i, precedence).Err? ==> i <= Place(Expression(ts, i, precedence).error)
    decreases |ts| - i, 2
  {
    PrimaryForward(ts, i);
    match Primary(ts, i)
    case Err(_) =>
    case Ok((left, j)) => OperatorsForward(ts, left, j, precedence);
  }

  lemma {:induction false} PrimaryForward(ts: seq<Token>, i: nat)
    requires i <= |ts|
    ensures Primary(ts, i).Err? ==> i <= Place(Primary(ts, i).error)
    decreases |ts| - i, 1
  {
    if i < |ts| && ts[i].kind == LPAREN {
      ExpressionForward(ts, i + 1, 0);
    } else if i < |ts| && ts[i].kind == NOT {
      ExpressionForward(ts, i + 1, 6);
    }
  }

  lemma {:induction false} PrimaryAlike(ts: seq<Token>, us: seq<Token>, i: nat, k: nat)
    requires i <= |ts| && Alike(ts, us, k) && i <= |us|
    requires match Primary(ts, i) case Err(e) => Place(e) == k case Ok((_, j)) => j <= k
    ensures i <= k && Primary(us, i) == Primary(ts, i)
    decreases |ts| - i, 1
  {
    PrimaryForward(ts, i);
    AlikeAt(ts, us, k, i);
    if ts[i].kind == LPAREN {
      ExpressionAlike(ts, us, i + 1, 0, k);
      if Expression(ts, i + 1, 0).Ok? {
        var j := Expression(ts, i + 1, 0).value.1;
        AlikeAt(ts, us, k, j);
      }
    } else if ts[i].kind == NOT {
      ExpressionAlike(ts, us, i + 1, 6, k);
    }
  }

  lemma {:induction false} OperatorsAlike(ts: seq<Token>, us: seq<Token>, left: Tree, i: nat, precedence: nat, k: nat)
    requires i <= k && Alike(ts, us, k)
    requires match Operators(ts, left, i, precedence) case Err(e) => Place(e) == k case Ok((_, j)) => j <= k
    ensures Operators(us, left, i, precedence) == Operators(ts, left, i, precedence)
    decreases |ts| - i, 0
  {
    AlikeAt(ts, us, k, i);
    if Strength(ts[i].kind) >= precedence {
      var strength := Strength(ts[i].kind) + 1;
      if Expression(ts, i + 1, strength).Ok? {
        var (right, j) := Expression(ts, i + 1, strength).value;
        OperatorsForward(ts, Joined(left, ts[i], right), j, precedence);
        ExpressionAlike(ts, us, i + 1, strength, k);
        OperatorsAlike(ts, us, Joined(left, ts[i], right), j, precedence, k);
      } else {
        ExpressionAlike(ts, us, i + 1, strength, k);
      }
    }
  }

  // No two trees of the shape have the same tokens.
  lemma Unambiguous(s: Tree, t: Tree)
    requires Shaped(s) && Shaped(t) && Yield(s) == Yield(t)
    ensures s == t
  {
    var eof := Token(EOF, 0, "", 0);
    LeavesEof(s);
    ParseIff(Yield(s), eof, s);
    ParseIff(Yield(s), eof, t);
  }

  // The parser fails exactly on tokens that no tree of the shape has.
  lemma RejectsIff(ts: seq<Token>, eof: Token)
    requires eof.kind == EOF && forall k :: 0 <= k < |ts| ==> ts[k].kind != EOF
    ensures Parse(ts + [eof]).Err? <==> forall t :: !(Shaped(t) && Yield(t) == ts)
  {
    if Parse(ts + [eof]).Ok? {
      ParseIff(ts, eof, Parse(ts + [eof]).value);
    }
    forall t | Shaped(t) && Yield(t) == ts ensures Parse(ts + [eof]).Ok? {
      ParseIff(ts, eof, t);
    }
  }

  // The tokens before an error are the beginning of an expression.
  ghost predicate Begins(ts: seq<Token>, i: nat, k: nat, t: Tree, precedence: nat) {
    i <= k <= |ts| && Shaped(t) && Level(t) >= precedence && ts[i..k] <= Yield(t)
  }

  lemma {:induction false} ExpressionViable(ts: seq<Token>, i: nat, precedence: nat, k: nat) returns (t: Tree)
    requires i <= |ts| && precedence <= 6
    requires Expression(ts, i, precedence).Err? && Place(Expression(ts, i, precedence).error) == k
    ensures Begins(ts, i, k, t, precedence)
    decreases |ts| - i, 2
  {
    if Primary(ts, i).Err? {
      t := PrimaryViable(ts, i, k);
    } else {
      var (left, j) := Primary(ts, i).value;
      PrimarySound(ts, i);
      t := OperatorsViable(ts, left, i, j, precedence, k);
    }
  }

  lemma {:induction false} PrimaryViable(ts: seq<Token>, i: nat, k: nat) returns (t: Tree)
    requires i <= |ts| && Primary(ts, i).Err? && Place(Primary(ts, i).error) == k
    ensures Begins(ts, i, k, t, 6)
    decreases |ts| - i, 1
  {
    if i < |ts| && ts[i].kind == LPAREN {
      var inner, close := Leaf(Token(TRUE, 0, "", 0)), Token(RPAREN, 0, "", 0);
      if Expression(ts, i + 1, 0).Err? {
        inner := ExpressionViable(ts, i + 1, 0, k);
      } else {
        ExpressionSound(ts, i + 1, 0);
        inner := Expression(ts, i + 1, 0).value.0;
      }
      t := Paren(ts[i], inner, close);
      assert ts[i..k] == [ts[i]] + ts[i + 1..k];
      assert ts[i..k] <= [ts[i]] + Yield(inner);
    } else if i < |ts| && ts[i].kind == NOT {
      var operand := ExpressionViable(ts, i + 1, 6, k);
      t := Not(ts[i], operand);
      assert ts[i..k] == [ts[i]] + ts[i + 1..k];
    } else {
      t := Leaf(Token(TRUE, 0, "", 0));
    }
  }

  lemma {:induction false} OperatorsViable(ts: seq<Token>, left: Tree, i: nat, j: nat, precedence: nat, k: nat)
      returns (t: Tree)
    requires j <= |ts| && precedence <= 6 && Parsed(ts, i, left, j) && Level(left) >= precedence && Settled(ts, left, j)
    requires Operators(ts, left, j, precedence).Err? && Place(Operators(ts, left, j, precedence).error) == k
    ensures Begins(ts, i, k, t, precedence)
    decreases |ts| - j, 0
  {
    var strength := Strength(ts[j].kind);
    if Expression(ts, j + 1, strength + 1).Err? {
      var right := ExpressionViable(ts, j + 1, strength + 1, k);
      t := Joined(left, ts[j], right);
      JoinedBegins(ts, i, left, j, right, k);
    } else {
      ExpressionSound(ts, j + 1, strength + 1);
      var (right, l) := Expression(ts, j + 1, strength + 1).value;
      JoinedSound(ts, i, left, j, right, l);
      t := OperatorsViable(ts, Joined(left, ts[j], right), i, l, precedence, k);
    }
  }

  lemma JoinedBegins(ts: seq<Token>, i: nat, left: Tree, j: nat, right: Tree, k: nat)
    requires j < |ts| && Parsed(ts, i, left, j) && 0 < Strength(ts[j].kind) && Settled(ts, left, j)
    requires Begins(ts, j + 1, k, right, Strength(ts[j].kind) + 1)
    ensures Begins(ts, i, k, Joined(left, ts[j], right), Strength(ts[j].kind))
  {
    assert ts[i..k] == ts[i..j] + [ts[j]] + ts[j + 1..k];
    YieldOperator(Joined(left, ts[j], right), left, ts[j], right);
    assert Yield(Joined(left, ts[j], right)) == Yield(left) + [ts[j]] + Yield(right);
  }

  lemma ErrorViable(all: seq<Token>, k: nat) returns (t: Tree)
    requires Terminated(all) && Parse(all).Err? && Place(Parse(all).error) == k
    ensures k <= |all| && Shaped(t) && all[..k] <= Yield(t)
  {
    if Expression(all, 0, 0).Err? {
      t := ExpressionViable(all, 0, 0, k);
    } else {
      ExpressionSound(all, 0, 0);
      t := Expression(all, 0, 0).value.0;
    }
    assert all[0..k] == all[..k];
  }

  lemma ShortOfEnd(all: seq<Token>, k: nat, t: Tree)
    requires Terminated(all) && k <= |all| && Shaped(t) && all[..k] <= Yield(t)
    ensures k < |all|
  {
    LeavesEof(t);
    assert k > 0 ==> Yield(t)[k - 1] == all[..k][k - 1] == all[k - 1];
  }

  // After these an expression is complete, ...
  predicate Completes(kind: int) { kind in {4, 5, 12, 13, 14} }

  // ... and where an operand is missing, the token before is none of them.
  ghost predicate Complains(ts: seq<Token>, i: nat, e: Error) {
    && i <= Place(e) <= |ts|
    && if e.NoViableAlternative? then Place(e) == i || !Completes(ts[Place(e) - 1].kind)
       else Place(e) > i && Completes(ts[Place(e) - 1].kind)
  }

  lemma {:induction false} ExpressionEnds(ts: seq<Token>, i: nat, precedence: nat)
    requires i <= |ts|
    ensures match Expression(ts, i, precedence)
            case Err(e) => Complains(ts, i, e)
            case Ok((_, j)) => Completes(ts[j - 1].kind)
    decreases |ts| - i, 2
  {
    PrimaryEnds(ts, i);
    if Primary(ts, i).Ok? {
      var (left, j) := Primary(ts, i).value;
      OperatorsEnd(ts, left, j, precedence);
    }
  }

  lemma {:induction false} PrimaryEnds(ts: seq<Token>, i: nat)
    requires i <= |ts|
    ensures match Primary(ts, i) case Err(e) => Complains(ts, i, e) case Ok((_, j)) => Completes(ts[j - 1].kind)
    decreases |ts| - i, 1
  {
    if i < |ts| && ts[i].kind == LPAREN {
      ExpressionEnds(ts, i + 1, 0);
    } else if i < |ts| && ts[i].kind == NOT {
      ExpressionEnds(ts, i + 1, 6);
    }
  }

  lemma {:induction false} OperatorsEnd(ts: seq<Token>, left: Tree, i: nat, precedence: nat)
    requires 0 < i <= |ts| && Completes(ts[i - 1].kind)
    ensures match Operators(ts, left, i, precedence)
            case Err(e) => Complains(ts, i, e) && Place(e) > i
            case Ok((_, j)) => Completes(ts[j - 1].kind)
    decreases |ts| - i, 0
  {
    if i < |ts| && Strength(ts[i].kind) >= precedence {
      var strength := Strength(ts[i].kind) + 1;
      ExpressionEnds(ts, i + 1, strength);
      if Expression(ts, i + 1, strength).Ok? {
        var (right, j) := Expression(ts, i + 1, strength).value;
        OperatorsEnd(ts, Joined(left, ts[i], right), j, precedence);
      }
    }
  }

  // Where the parser fails: the tokens before that place begin an expression, and with the token there, or the end of
  // the input, they begin none.
  lemma ErrorPlace(ts: seq<Token>, eof: Token)
    requires eof.kind == EOF && (forall k :: 0 <= k < |ts| ==> ts[k].kind != EOF) && Parse(ts + [eof]).Err?
    ensures var k := Place(Parse(ts + [eof]).error);
            && k <= |ts| && (exists t :: Shaped(t) && ts[..k] <= Yield(t))
            && forall t :: Shaped(t) ==> !((ts + [eof])[..k + 1] <= Yield(t) + [eof])
  {
    var all := ts + [eof];
    var k := Place(Parse(all).error);
    var t := ErrorViable(all, k);
    ShortOfEnd(all, k, t);
    assert all[..k] == ts[..k];
    forall u | Shaped(u) ensures !(all[..k + 1] <= Yield(u) + [eof]) {
      var us := Yield(u) + [eof];
      LeavesEof(u);
      ParseIff(Yield(u), eof, u);
      if all[..k + 1] <= us {
        assert us[..k + 1] == all[..k + 1];
        ExpressionAlike(all, us, 0, 0, k);
        if Expression(all, 0, 0).Ok? {
          AlikeAt(all, us, k, k);
        }
      }
    }
  }

  // Which error it is: an operand is missing at the start and after what does not complete an expression.
  lemma ErrorKind(ts: seq<Token>, eof: Token)
    requires eof.kind == EOF && (forall k :: 0 <= k < |ts| ==> ts[k].kind != EOF) && Parse(ts + [eof]).Err?
    ensures var e := Parse(ts + [eof]).error;
            && Place(e) <= |ts|
            && (e.NoViableAlternative? <==> Place(e) == 0 || !Completes(ts[Place(e) - 1].kind))
  {
    ErrorPlace(ts, eof);
    ExpressionEnds(ts + [eof], 0, 0);
  }

  // The tokens before the error begin an expression, those up to it begin none, and the error is that an operand is
  // missing at the start and after what completes no expression.
  ghost predicate FailsAt(tokens: seq<Token>, e: Error) {
    var k := Place(e);
    && k < |tokens| && (exists t :: Shaped(t) && tokens[..k] <= Yield(t))
    && (forall t :: Shaped(t) ==> !(tokens[..k + 1] <= Yield(t) + [tokens[|tokens| - 1]]))
    && (e.NoViableAlternative? <==> k == 0 || !Completes(tokens[k - 1].kind))
  }

  // Of a whole input, with its end of file.
  lemma ParsesIff(tokens: seq<Token>)
    requires Terminated(tokens)
    ensures forall t :: Parse(tokens) == Ok(t) <==> Shaped(t) && Yield(t) == tokens[..|tokens| - 1]
    ensures Parse(tokens).Err? ==> FailsAt(tokens, Parse(tokens).error)
  {
    var ts, eof := tokens[..|tokens| - 1], tokens[|tokens| - 1];
    assert ts + [eof] == tokens;
    forall t ensures Parse(tokens) == Ok(t) <==> Shaped(t) && Yield(t) == ts {
      ParseIff(ts, eof, t);
    }
    if Parse(tokens).Err? {
      ErrorPlace(ts, eof);
      ErrorKind(ts, eof);
      assert ts[..Place(Parse(tokens).error)] == tokens[..Place(Parse(tokens).error)];
    }
  }

  class SimpleBooleanParser {
    const tokens: seq<Token>
    var index: nat

    constructor (tokens: seq<Token>)
      requires Terminated(tokens)
      ensures this.tokens == tokens && index == 0 && Valid()
    {
      this.tokens := tokens;
      index := 0;
    }

    ghost predicate Valid()
      reads this
    {
      Terminated(tokens) && index < |tokens|
    }

    function LA(): int
      reads this
    {
      Kind(tokens, index)
    }

    method Consume() returns (t: Token)
      requires Valid() && LA() != EOF
      modifies this
      ensures Valid() && index == old(index) + 1 && t == tokens[old(index)]
    {
      t := tokens[index];
      index := index + 1;
    }

    // The expression at the current token, whose operators bind at least as tightly as precedence.
    method ParseExpression(precedence: nat) returns (r: Result<Tree>)
      requires Valid()
      modifies this
      ensures Valid()
      ensures match Expression(tokens, old(index), precedence)
              case Err(e) => r == Err(e)
              case Ok((t, j)) => r == Ok(t) && index == j
      decreases |tokens| - index, 2
    {
      ghost var start := index;
      var primary := ParsePrimary();
      if primary.Err? {
        return primary;
      }
      var left := primary.value;
      while Strength(LA()) >= precedence
        invariant Valid() && start < index
        invariant Expression(tokens, start, precedence) == Operators(tokens, left, index, precedence)
        decreases |tokens| - index
      {
        var op := Consume();
        var right := ParseExpression(Strength(op.kind) + 1);
        if right.Err? {
          return right;
        }
        left := Joined(left, op, right.value);
      }
      r := Ok(left);
    }

    method ParsePrimary() returns (r: Result<Tree>)
      requires Valid()
      modifies this
      ensures Valid()
      ensures match Primary(tokens, old(index))
              case Err(e) => r == Err(e)
              case Ok((t, j)) => r == Ok(t) && index == j > old(index)
      decreases |tokens| - index, 1
    {
      if LA() == LPAREN {
        var open := Consume();
        var inner := ParseExpression(0);
        if inner.Err? {
          return inner;
        }
        if LA() != RPAREN {
          return Err(Mismatch(index));
        }
        var close := Consume();
        r := Ok(Paren(open, inner.value, close));
      } else if LA() == NOT {
        var bang := Consume();
        var operand := ParseExpression(6);
        if operand.Err? {
          return operand;
        }
        r := Ok(Not(bang, operand.value));
      } else if IsLeaf(LA()) {
        var token := Consume();
        r := Ok(Leaf(token));
      } else {
        r := Err(NoViableAlternative(index));
      }
    }

    // The tree of the whole input, or the first error.
    method ParseAll() returns (r: Result<Tree>)
      requires Valid() && index == 0
      modifies this
      ensures r == Parse(tokens)
      ensures forall t :: r == Ok(t) <==> Shaped(t) && Yield(t) == tokens[..|tokens| - 1]
      ensures r.Err? ==> FailsAt(tokens, r.error)
    {
      r := ParseExpression(0);
      if r.Ok? && LA() != EOF {
        r := Err(Mismatch(index));
      }
      ParsesIff(tokens);
    }
  }
}
