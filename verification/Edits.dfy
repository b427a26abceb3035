// The edit operations of a token rewriter and the two walks that reduce a program of them to at
// most one operation per token index.
module Edits {

  // An entry of the rewrites vector; Gone is a deleted one (nullptr).
  datatype Op =
    | Gone
    | Insert(index: nat, text: string)
    | Replace(index: nat, last: nat, text: string)

  datatype Error = Overlap | InsertInside | TwoOps | InvalidRange

  datatype Result<T> = Ok(value: T) | Err(error: Error)

  // What replace() lets into a program.
  predicate Ordered(o: Op) { o.Replace? ==> o.index <= o.last }

  predicate OrderedAll(p: seq<Op>) { forall i :: 0 <= i < |p| ==> Ordered(p[i]) }

  predicate InRange(i: nat, lo: nat, hi: nat) { lo <= i <= hi }

  // The texts inserted before token i, the latest first.
  function Gathered(p: seq<Op>, i: nat): string {
    if p == [] then ""
    else (if p[|p| - 1].Insert? && p[|p| - 1].index == i then p[|p| - 1].text else "") + Gathered(p[..|p| - 1], i)
  }

  // WALK REPLACES, first loop: prior inserts in the range of rop are deleted...
  function Wiped(p: seq<Op>, lo: nat, hi: nat): (q: seq<Op>)
    ensures |q| == |p|
    ensures forall j :: 0 <= j < |p| ==> q[j] == if p[j].Insert? && InRange(p[j].index, lo, hi) then Gone else p[j]
  {
    if p == [] then []
    else
      var o := p[|p| - 1];
      Wiped(p[..|p| - 1], lo, hi) + [if o.Insert? && InRange(o.index, lo, hi) then Gone else o]
  }

  predicate Disjoint(a: Op, b: Op)
    requires a.Replace? && b.Replace?
  {
    a.last < b.index || b.last < a.index
  }

  predicate Within(a: Op, b: Op)
    requires a.Replace? && b.Replace?
  {
    b.index <= a.index && a.last <= b.last
  }

  function Min(a: nat, b: nat): nat { if b < a then b else a }

  function Max(a: nat, b: nat): nat { if a < b then b else a }

  // ... second loop: prior replaces within rop are dropped, overlapping deletes merged into it.
  function DropPrior(p: seq<Op>, rop: Op): (r: Result<(seq<Op>, Op)>)
    requires rop.Replace?
    ensures r.Ok? ==> |r.value.0| == |p| && r.value.1.Replace?
  {
    if p == [] then Ok(([], rop))
    else
      var o := p[|p| - 1];
      match DropPrior(p[..|p| - 1], rop)
      case Err(e) => Err(e)
      case Ok((q, r)) =>
        if !o.Replace? then Ok((q + [o], r))
        else if Within(o, r) then Ok((q + [Gone], r))
        else if o.text == "" && r.text == "" && !Disjoint(o, r) then
          Ok((q + [Gone], Replace(Min(o.index, r.index), Max(o.last, r.last), r.text)))
        else if !Disjoint(o, r) then Err(Overlap)
        else Ok((q + [o], r))
  }

  // WALK REPLACES for one more operation.
  function ReplaceStep(p: seq<Op>, o: Op): (r: Result<seq<Op>>)
    ensures r.Ok? ==> |r.value| == |p| + 1
  {
    if !o.Replace? then Ok(p + [o])
    else
      match DropPrior(Wiped(p, o.index, o.last), Replace(o.index, o.last, Gathered(p, o.index) + o.text))
      case Err(e) => Err(e)
      case Ok((q, r)) => Ok(q + [r])
  }

  function WalkReplaces(p: seq<Op>): (r: Result<seq<Op>>)
    ensures r.Ok? ==> |r.value| == |p|
  {
    if p == [] then Ok([])
    else
      match WalkReplaces(p[..|p| - 1])
      case Err(e) => Err(e)
      case Ok(q) => ReplaceStep(q, p[|p| - 1])
  }

  // WALK INSERTS, first loop: the texts of prior inserts at the same index, appended in order.
  function PriorText(p: seq<Op>, i: nat): string {
    if p == [] then ""
    else PriorText(p[..|p| - 1], i) + if p[|p| - 1].Insert? && p[|p| - 1].index == i then p[|p| - 1].text else ""
  }

  // ... second loop: a prior replace that starts at the insert takes its text over.
  function AttachPrior(p: seq<Op>, iop: Op): (r: Result<(seq<Op>, bool)>)
    requires iop.Insert?
    ensures r.Ok? ==> |r.value.0| == |p|
  {
    if p == [] then Ok(([], false))
    else
      var o := p[|p| - 1];
      match AttachPrior(p[..|p| - 1], iop)
      case Err(e) => Err(e)
      case Ok((q, attached)) =>
        if !o.Replace? then Ok((q + [o], attached))
        else if o.index == iop.index then Ok((q + [Replace(o.index, o.last, iop.text + o.text)], true))
        else if InRange(iop.index, o.index, o.last) then Err(InsertInside)
        else Ok((q + [o], attached))
  }

  // WALK INSERTS for one more operation.
  function InsertStep(p: seq<Op>, o: Op): (r: Result<seq<Op>>)
    ensures r.Ok? ==> |r.value| == |p| + 1
  {
    if !o.Insert? then Ok(p + [o])
    else
      var iop := Insert(o.index, o.text + PriorText(p, o.index));
      match AttachPrior(Wiped(p, o.index, o.index), iop)
      case Err(e) => Err(e)
      case Ok((q, attached)) => Ok(q + [if attached then Gone else iop])
  }

  function WalkInserts(p: seq<Op>): (r: Result<seq<Op>>)
    ensures r.Ok? ==> |r.value| == |p|
  {
    if p == [] then Ok([])
    else
      match WalkInserts(p[..|p| - 1])
      case Err(e) => Err(e)
      case Ok(q) => InsertStep(q, p[|p| - 1])
  }

  // The map from token index to operation.
  function Collect(p: seq<Op>): Result<map<nat, Op>> {
    if p == [] then Ok(map[])
    else
      var o := p[|p| - 1];
      match Collect(p[..|p| - 1])
      case Err(e) => Err(e)
      case Ok(m) =>
        if o.Gone? then Ok(m)
        else if o.index in m then Err(TwoOps)
        else Ok(m[o.index := o])
  }

  // The rewrites vector after both walks: reducing edits the program itself.
  function Reduced(p: seq<Op>): Result<seq<Op>> {
    match WalkReplaces(p)
    case Err(e) => Err(e)
    case Ok(q) => WalkInserts(q)
  }

  function Reduce(p: seq<Op>): Result<map<nat, Op>> {
    match Reduced(p)
    case Err(e) => Err(e)
    case Ok(q) => Collect(q)
  }
}
