// What a program of edits means: the operations applied one after the other to a document of
// pending insertions and replaced regions.
module EditMeaning {
  import opened Edits

  // The text inserted before a token. It is the latest word on the
  // token as long as no replacement of the token came after the last insertion.
  datatype Ins = Ins(text: string, latest: bool)

  datatype Region = Region(last: nat, text: string)

  // Regions are kept by the index they start at.
  datatype Doc = Doc(ins: map<nat, Ins>, regions: map<nat, Region>)

  predicate Covers(d: Doc, s: nat, i: nat) {
    s in d.regions && InRange(i, s, d.regions[s].last)
  }

  predicate Touches(d: Doc, s: nat, lo: nat, hi: nat) {
    s in d.regions && s <= hi && lo <= d.regions[s].last
  }

  predicate Inside(d: Doc, s: nat, lo: nat, hi: nat)
    requires s in d.regions
  {
    lo <= s && d.regions[s].last <= hi
  }

  // The ends of the region that the range lo..hi grows to.
  ghost function LeftEnd(d: Doc, i: nat): (lo: nat)
    ensures lo <= i
  {
    if exists s: nat :: Covers(d, s, i) then var s: nat :| Covers(d, s, i); s else i
  }

  ghost function RightEnd(d: Doc, i: nat): (hi: nat)
    ensures i <= hi
  {
    if exists s: nat :: Covers(d, s, i) then var s: nat :| Covers(d, s, i); d.regions[s].last else i
  }

  function TextAt(d: Doc, i: nat): string {
    if i in d.ins then d.ins[i].text else ""
  }

  // A replacement must contain every earlier one it touches, unless all of them are deletions.
  ghost predicate Conflicts(d: Doc, lo: nat, hi: nat, text: string) {
    exists s: nat :: Touches(d, s, lo, hi) && !Inside(d, s, lo, hi) && !(d.regions[s].text == "" && text == "")
  }

  ghost function Apply(d: Doc, o: Op): Result<Doc> {
    match o
    case Gone => Ok(d)
    case Insert(i, t) => Ok(d.(ins := d.ins[i := Ins(t + TextAt(d, i), true)]))
    case Replace(x, y, t) =>
      // the replacement takes over what is inserted before its first token
      var text := TextAt(d, x) + t;
      if Conflicts(d, x, y, text) then Err(Overlap)
      else
        var lo, hi := LeftEnd(d, x), RightEnd(d, y);
        Ok(Doc(
          map i | i in d.ins && !InRange(i, x, y) :: Ins(d.ins[i].text, d.ins[i].latest && !InRange(i, lo, hi)),
          (map s | s in d.regions && !Touches(d, s, x, y) :: d.regions[s])[lo := Region(hi, text)]))
  }

  ghost function Meaning(p: seq<Op>): Result<Doc> {
    if p == [] then Ok(Doc(map[], map[]))
    else
      match Meaning(p[..|p| - 1])
      case Err(e) => Err(e)
      case Ok(d) => Apply(d, p[|p| - 1])
  }

  // An insertion inside a region, after it was made, is an error ...
  ghost predicate InsertedInside(d: Doc) {
    exists i: nat, s: nat :: i in d.ins && d.ins[i].latest && Covers(d, s, i) && i != s
  }

  // ... and so is a region that grew to the left up to an earlier insertion.
  ghost predicate StaleAtStart(d: Doc) {
    exists i :: i in d.ins && !d.ins[i].latest && i in d.regions
  }

  // The single operation at each index that a document stands for.
  ghost function Operations(d: Doc): map<nat, Op> {
    map i | i in d.ins.Keys + d.regions.Keys ::
      if i in d.regions then Replace(i, d.regions[i].last, TextAt(d, i) + d.regions[i].text)
          else Insert(i, d.ins[i].text)
  }

  ghost function Finish(d: Doc): Result<map<nat, Op>> {
    if InsertedInside(d) then Err(InsertInside)
    else if StaleAtStart(d) then Err(TwoOps)
    else Ok(Operations(d))
  }
}
