/** Offsets of the original source in the edited text. A delta tree is a bag of (key, change) pairs; a query
  * sums the changes at keys strictly below it. An insertion at offset o has key 2*o, a replacement 2*o + 1.
  */
module DeltaTrees {

  datatype Delta = Delta(key: nat, change: int)

  function DeltaAt(ds: seq<Delta>, key: nat): int {
    if ds == [] then 0
    else DeltaAt(ds[..|ds| - 1], key) + (if ds[|ds| - 1].key < key then ds[|ds| - 1].change else 0)
  }

  /** getMappedOffset */
  function Mapped(ds: seq<Delta>, offset: nat, after: bool): int {
    DeltaAt(ds, 2 * offset + (if after then 1 else 0)) + offset
  }

  /** The size of a token range that starts at `start` and whose last token starts at `last`. */
  function RangeSize(ds: seq<Delta>, start: nat, last: nat, tokenLength: nat): int {
    Mapped(ds, last, true) + tokenLength - Mapped(ds, start, false)
  }

  // ----- the class -----

  class DeltaTreeSet {
    var trees: map<nat, seq<Delta>>

    constructor ()
      ensures trees == map[]
    {
      trees := map[];
    }

    function Tree(fid: nat): seq<Delta>
      reads this
    {
      if fid in trees then trees[fid] else []
    }

    /** Creates the tree of a file that has none. */
    method GetTree(fid: nat) returns (t: seq<Delta>)
      modifies this
      ensures fid in trees && t == trees[fid] == old(Tree(fid))
      ensures forall f :: Tree(f) == old(Tree(f))
    {
      if fid !in trees {
        trees := trees[fid := []];
      }
      return trees[fid];
    }

    method Insert(fid: nat, offset: nat, size: nat, insertAfter: bool)
      modifies this
      ensures Tree(fid) == old(Tree(fid)) + [Delta(2 * offset, size)]
      ensures forall f :: f != fid ==> Tree(f) == old(Tree(f))
    {
      var t := GetTree(fid);
      trees := trees[fid := t + [Delta(2 * offset, size)]];
    }

    method Remove(fid: nat, offset: nat, size: nat)
      modifies this
      ensures Tree(fid) == old(Tree(fid)) + [Delta(2 * offset + 1, -(size as int))]
      ensures forall f :: f != fid ==> Tree(f) == old(Tree(f))
    {
      var t := GetTree(fid);
      trees := trees[fid := t + [Delta(2 * offset + 1, -(size as int))]];
    }

    method Replace(fid: nat, offset: nat, oldSize: nat, newSize: nat)
      modifies this
      ensures Tree(fid) == old(Tree(fid))
              + (if oldSize == newSize then [] else [Delta(2 * offset + 1, newSize - oldSize)])
      ensures forall f :: f != fid ==> Tree(f) == old(Tree(f))
    {
      var t := GetTree(fid);
      if oldSize != newSize {
        trees := trees[fid := t + [Delta(2 * offset + 1, newSize - oldSize)]];
      }
    }

    /** The query on a set that must not change; an unknown file has no edits. */
    method GetNewOffset(fid: nat, offset: nat, afterInserts: bool) returns (r: int)
      ensures r == Mapped(Tree(fid), offset, afterInserts)
    {
      if fid !in trees {
        NoDeltas(2 * offset + (if afterInserts then 1 else 0));
        return offset;
      }
      return Mapped(trees[fid], offset, afterInserts);
    }

    method GetRangeSize(startFile: nat, start: nat, endFile: nat, last: nat, tokenLength: nat) returns (r: int)
      ensures r == if startFile != endFile then -1 else RangeSize(Tree(startFile), start, last, tokenLength)
    {
      if startFile != endFile {
        return -1;
      }
      var endOff, startOff := last as int, start as int;
      if startFile in trees {
        endOff := Mapped(trees[startFile], last, true);
        startOff := Mapped(trees[startFile], start, false);
      } else {
        NoDeltas(2 * last + 1);
        NoDeltas(2 * start);
      }
      endOff := endOff + tokenLength;
      return endOff - startOff;
    }
  }

  lemma {:induction false} NoDeltas(key: nat)
    ensures DeltaAt([], key) == 0
  {
  }

  lemma {:induction false} DeltaSnoc(ds: seq<Delta>, d: Delta, key: nat)
    ensures DeltaAt(ds + [d], key) == DeltaAt(ds, key) + (if d.key < key then d.change else 0)
  {
    assert (ds + [d])[..|ds|] == ds;
  }

  // ----- edits, and the text they produce -----

  /** A character of the edited text: the one at an offset of the original, or a new one. */
  datatype Ch = Original(offset: nat) | New(code: int)

  datatype Edit = Insert(at: nat, text: seq<Ch>, after: bool) | Remove(at: nat, size: nat)
                | Replace(at: nat, size: nat, text: seq<Ch>)

  function Record(ds: seq<Delta>, e: Edit): seq<Delta> {
    match e
    case Insert(at, text, _) => ds + [Delta(2 * at, |text|)]
    case Remove(at, size) => ds + [Delta(2 * at + 1, -(size as int))]
    case Replace(at, size, text) => if size == |text| then ds else ds + [Delta(2 * at + 1, |text| - size)]
  }

  function Splice(text: seq<Ch>, at: int, erased: nat, inserted: seq<Ch>): seq<Ch> {
    if 0 <= at && at + erased <= |text| then text[..at] + inserted + text[at + erased..] else text
  }

  /** The text buffer under one edit: the place is looked up with the same map. */
  function EditText(text: seq<Ch>, ds: seq<Delta>, e: Edit): seq<Ch> {
    match e
    case Insert(at, added, after) => Splice(text, Mapped(ds, at, after), 0, added)
    case Remove(at, size) => Splice(text, Mapped(ds, at, true), size, [])
    case Replace(at, size, added) => Splice(text, Mapped(ds, at, true), size, added)
  }

  function Pristine(n: nat): seq<Ch> {
    seq(n, o requires 0 <= o < n => Original(o))
  }

  function RunDeltas(es: seq<Edit>): seq<Delta> {
    if es == [] then [] else Record(RunDeltas(es[..|es| - 1]), es[|es| - 1])
  }

  function RunText(n: nat, es: seq<Edit>): seq<Ch> {
    if es == [] then Pristine(n)
    else EditText(RunText(n, es[..|es| - 1]), RunDeltas(es[..|es| - 1]), es[|es| - 1])
  }

  // ----- the simple form: one cell for each original offset -----

  /** What stands before an original offset, what stands in its place, and whether it lies inside a removed range. */
  datatype Cell = Cell(ins: seq<Ch>, body: seq<Ch>, covered: bool)

  function Flat(cs: seq<Cell>): seq<Ch> {
    if cs == [] then [] else Flat(cs[..|cs| - 1]) + (cs[|cs| - 1].ins + cs[|cs| - 1].body)
  }

  /** One cell for each of the n offsets and one for the end of the file. */
  function Fresh(n: nat): seq<Cell> {
    seq(n + 1, o requires 0 <= o < n + 1 => Cell([], if o < n then [Original(o)] else [], false))
  }

  function Overwrite(cs: seq<Cell>, at: nat, size: nat, text: seq<Ch>): seq<Cell>
    requires at < |cs|
  {
    if size == 0 then cs[at := cs[at].(body := text + cs[at].body)]
    else seq(|cs|, o requires 0 <= o < |cs| =>
               if o == at then cs[o].(body := text) else if at < o < at + size then Cell([], [], true) else cs[o])
  }

  function EditCells(cs: seq<Cell>, e: Edit): (r: seq<Cell>)
    ensures |r| == |cs|
  {
    if e.at >= |cs| then cs
    else
      match e
      case Insert(at, text, after) => cs[at := cs[at].(ins := if after then cs[at].ins + text else text + cs[at].ins)]
      case Remove(at, size) => Overwrite(cs, at, size, [])
      case Replace(at, size, text) => Overwrite(cs, at, size, text)
  }

  function RunCells(n: nat, es: seq<Edit>): (r: seq<Cell>)
    ensures |r| == n + 1
  {
    if es == [] then Fresh(n) else EditCells(RunCells(n, es[..|es| - 1]), es[|es| - 1])
  }

  function Erased(e: Edit): nat {
    if e.Insert? then 0 else e.size
  }

  function Text(e: Edit): seq<Ch> {
    if e.Remove? then [] else e.text
  }

  predicate Untouched(c: Cell, o: nat) {
    c.body == [Original(o)] && !c.covered
  }

  predicate AllNew(text: seq<Ch>) {
    forall k :: 0 <= k < |text| ==> text[k].New?
  }

  /** Edits that do not overlap: nothing lands inside a removed range, and a removed range holds
    * only untouched characters with nothing inserted between them. */
  predicate EditOk(cs: seq<Cell>, e: Edit) {
    e.at + Erased(e) < |cs| && !cs[e.at].covered
    && AllNew(Text(e))
    && forall o :: e.at <= o < e.at + Erased(e) ==> UntouchedAt(cs, o, e.at)
  }

  /** The character at o stands, and nothing is inserted in front of it unless it is the first of the range. */
  predicate UntouchedAt(cs: seq<Cell>, o: nat, first: nat) {
    o < |cs| && Untouched(cs[o], o) && (o > first ==> cs[o].ins == [])
  }

  predicate RunOk(n: nat, es: seq<Edit>) {
    es == [] || (RunOk(n, es[..|es| - 1]) && EditOk(RunCells(n, es[..|es| - 1]), es[|es| - 1]))
  }

  // ----- flattening -----

  lemma {:induction false} FlatConcat(a: seq<Cell>, b: seq<Cell>)
    ensures Flat(a + b) == Flat(a) + Flat(b)
  {
    if b == [] {
      assert a + b == a;
    } else {
      assert (a + b)[..|a + b| - 1] == a + b[..|b| - 1];
      FlatConcat(a, b[..|b| - 1]);
    }
  }

  lemma {:induction false} FlatOne(c: Cell)
    ensures Flat([c]) == c.ins + c.body
  {
    assert [c][..0] == [];
  }

  lemma {:induction false} FlatParts(a: seq<Cell>, c: Cell, m: seq<Cell>, b: seq<Cell>)
    ensures Flat(a + ([c] + (m + b))) == Flat(a) + (c.ins + (c.body + (Flat(m) + Flat(b))))
  {
    FlatConcat(a, [c] + (m + b));
    FlatConcat([c], m + b);
    FlatConcat(m, b);
    FlatOne(c);
    Nest(Flat(a), c.ins, c.body, Flat(m) + Flat(b));
  }

  lemma {:induction false} Nest(a: seq<Ch>, i: seq<Ch>, y: seq<Ch>, r: seq<Ch>)
    ensures a + ((i + y) + r) == a + (i + (y + r))
  {
  }

  /** The text in five parts around the range at .. stop-1. */
  lemma {:induction false} FlatAround(cs: seq<Cell>, at: nat, stop: nat)
    requires at < stop <= |cs|
    ensures Flat(cs) == Flat(cs[..at]) + (cs[at].ins + (cs[at].body + (Flat(cs[at + 1..stop]) + Flat(cs[stop..]))))
  {
    assert cs == cs[..at] + ([cs[at]] + (cs[at + 1..stop] + cs[stop..]));
    FlatParts(cs[..at], cs[at], cs[at + 1..stop], cs[stop..]);
  }

  lemma {:induction false} FlatAt(cs: seq<Cell>, at: nat)
    requires at < |cs|
    ensures Flat(cs) == Flat(cs[..at]) + (cs[at].ins + (cs[at].body + Flat(cs[at + 1..])))
  {
    FlatAround(cs, at, at + 1);
    assert Flat(cs[at + 1..at + 1]) == [];
    assert [] + Flat(cs[at + 1..]) == Flat(cs[at + 1..]);
  }

  lemma {:induction false} UntouchedLength(cs: seq<Cell>, first: nat, i: nat, j: nat)
    requires first < i <= j <= |cs| && forall o :: i <= o < j ==> UntouchedAt(cs, o, first)
    ensures |Flat(cs[i..j])| == j - i
    decreases j
  {
    if i < j {
      assert cs[i..j][..j - 1 - i] == cs[i..j - 1];
      assert UntouchedAt(cs, j - 1, first);
      UntouchedLength(cs, first, i, j - 1);
    }
  }

  lemma {:induction false} CoveredIsEmpty(cs: seq<Cell>)
    requires forall o :: 0 <= o < |cs| ==> cs[o] == Cell([], [], true)
    ensures Flat(cs) == []
  {
    if cs != [] { CoveredIsEmpty(cs[..|cs| - 1]); }
  }

  // ----- the map agrees with the cells -----

  /** Offset o maps to where its insertions begin, and after them to where its cell's body begins. */
  predicate AgreeAt(cs: seq<Cell>, ds: seq<Delta>, o: nat)
    requires o < |cs|
  {
    Mapped(ds, o, false) == |Flat(cs[..o])| && Mapped(ds, o, true) == |Flat(cs[..o])| + |cs[o].ins|
  }

  predicate Agree(cs: seq<Cell>, ds: seq<Delta>) {
    forall o :: 0 <= o < |cs| && !cs[o].covered ==> AgreeAt(cs, ds, o)
  }

  lemma {:induction false} PrefixUnchanged(cs: seq<Cell>, e: Edit, o: nat)
    requires o <= e.at && EditOk(cs, e)
    ensures EditCells(cs, e)[..o] == cs[..o]
  {
  }

  /** The length of the text of the cells that an edit touches. */
  lemma {:induction false} TouchedLength(cs: seq<Cell>, at: nat, stop: nat, o: nat)
    requires at < stop <= o <= |cs|
    ensures |Flat(cs[..o])|
            == |Flat(cs[..at])| + |cs[at].ins| + |cs[at].body| + |Flat(cs[at + 1..stop])| + |Flat(cs[stop..o])|
  {
    FlatAround(cs[..o], at, stop);
    assert cs[..o][..at] == cs[..at];
    assert cs[..o][at + 1..stop] == cs[at + 1..stop];
    assert cs[..o][stop..] == cs[stop..o];
  }

  lemma {:induction false} EditedCell(cs: seq<Cell>, e: Edit)
    requires EditOk(cs, e)
    ensures var c, d := cs[e.at], EditCells(cs, e)[e.at];
            |d.ins| + |d.body| == |c.ins| + |c.body| + |Text(e)| - (if Erased(e) == 0 then 0 else 1)
            && (!e.Insert? ==> d.ins == c.ins && d.body == if Erased(e) == 0 then Text(e) + c.body else Text(e))
            && (Erased(e) > 0 ==> |c.body| == 1)
  {
    if Erased(e) > 0 { assert UntouchedAt(cs, e.at, e.at); }
  }

  function StopOf(e: Edit): nat {
    if Erased(e) == 0 then e.at + 1 else e.at + Erased(e)
  }

  /** Cells before and after those an edit touches stay. */
  predicate SameOutside(cs: seq<Cell>, ds: seq<Cell>, at: nat, stop: nat) {
    at < stop <= |cs| == |ds| && ds[..at] == cs[..at] && ds[stop..] == cs[stop..]
  }

  lemma {:induction false} EditIsLocal(cs: seq<Cell>, e: Edit)
    requires EditOk(cs, e)
    ensures SameOutside(cs, EditCells(cs, e), e.at, StopOf(e))
  {
  }

  lemma {:induction false} EditCovers(cs: seq<Cell>, e: Edit)
    requires EditOk(cs, e)
    ensures Flat(EditCells(cs, e)[e.at + 1..StopOf(e)]) == []
  {
    var inner := EditCells(cs, e)[e.at + 1..StopOf(e)];
    assert forall k :: 0 <= k < |inner| ==> inner[k] == Cell([], [], true);
    CoveredIsEmpty(inner);
  }

  lemma {:induction false} EditErasesInner(cs: seq<Cell>, e: Edit)
    requires EditOk(cs, e)
    ensures |Flat(cs[e.at + 1..StopOf(e)])| == StopOf(e) - e.at - 1
  {
    UntouchedLength(cs, e.at, e.at + 1, StopOf(e));
  }

  lemma {:induction false} LengthChange(cs: seq<Cell>, ds: seq<Cell>, at: nat, stop: nat, o: nat)
    requires SameOutside(cs, ds, at, stop) && stop <= o <= |cs|
    ensures |Flat(ds[..o])| - |Flat(cs[..o])|
            == |ds[at].ins| + |ds[at].body| + |Flat(ds[at + 1..stop])|
               - |cs[at].ins| - |cs[at].body| - |Flat(cs[at + 1..stop])|
  {
    TouchedLength(cs, at, stop, o);
    TouchedLength(ds, at, stop, o);
    assert ds[stop..o] == ds[stop..][..o - stop] == cs[stop..][..o - stop] == cs[stop..o];
  }

  /** How an edit changes the length of the text before a later anchor. */
  lemma {:induction false} PrefixGrows(cs: seq<Cell>, e: Edit, o: nat)
    requires EditOk(cs, e) && StopOf(e) <= o <= |cs|
    ensures |Flat(EditCells(cs, e)[..o])| == |Flat(cs[..o])| + |Text(e)| - Erased(e)
  {
    EditIsLocal(cs, e);
    EditCovers(cs, e);
    EditErasesInner(cs, e);
    EditedCell(cs, e);
    LengthChange(cs, EditCells(cs, e), e.at, StopOf(e), o);
  }

  function KeyOf(e: Edit): nat {
    if e.Insert? then 2 * e.at else 2 * e.at + 1
  }

  lemma {:induction false} RecordedDelta(ds: seq<Delta>, e: Edit, key: nat)
    ensures DeltaAt(Record(ds, e), key) == DeltaAt(ds, key) + (if KeyOf(e) < key then |Text(e)| - Erased(e) else 0)
  {
    DeltaSnoc(ds, Delta(KeyOf(e), |Text(e)| - Erased(e)), key);
  }

  lemma {:induction false} EditKeepsAgree(cs: seq<Cell>, ds: seq<Delta>, e: Edit)
    requires Agree(cs, ds) && EditOk(cs, e)
    ensures Agree(EditCells(cs, e), Record(ds, e))
  {
    var cs' := EditCells(cs, e);
    forall o | 0 <= o < |cs| && !cs'[o].covered ensures AgreeAt(cs', Record(ds, e), o) {
      AnchorsStay(cs, e, o);
      AnchorAgrees(cs, ds, e, o);
    }
  }

  /** An anchor of the new cells was one before, and does not lie inside the range that the edit touched. */
  lemma {:induction false} AnchorsStay(cs: seq<Cell>, e: Edit, o: nat)
    requires EditOk(cs, e) && o < |cs| && !EditCells(cs, e)[o].covered
    ensures !cs[o].covered && (o <= e.at || StopOf(e) <= o)
    ensures |EditCells(cs, e)[o].ins| == |cs[o].ins| + (if e.Insert? && o == e.at then |e.text| else 0)
  {
  }

  lemma {:induction false} AnchorAgrees(cs: seq<Cell>, ds: seq<Delta>, e: Edit, o: nat)
    requires EditOk(cs, e) && o < |cs| && AgreeAt(cs, ds, o) && (o <= e.at || StopOf(e) <= o)
    requires |EditCells(cs, e)[o].ins| == |cs[o].ins| + (if e.Insert? && o == e.at then |e.text| else 0)
    ensures AgreeAt(EditCells(cs, e), Record(ds, e), o)
  {
    RecordedDelta(ds, e, 2 * o);
    RecordedDelta(ds, e, 2 * o + 1);
    if o <= e.at { PrefixUnchanged(cs, e, o); } else { PrefixGrows(cs, e, o); }
  }

  // ----- the text agrees with the cells -----

  lemma {:induction false} SpliceParts(a: seq<Ch>, cut: seq<Ch>, b: seq<Ch>, added: seq<Ch>)
    ensures Splice(a + (cut + b), |a|, |cut|, added) == a + (added + b)
  {
    assert (a + (cut + b))[..|a|] == a;
    assert (a + (cut + b))[|a| + |cut|..] == b;
    assert a + added + b == a + (added + b);
  }

  lemma {:induction false} Regroup(a: seq<Ch>, b: seq<Ch>, c: seq<Ch>, d: seq<Ch>)
    ensures a + (b + (c + d)) == (a + b) + (c + d) == a + ((b + c) + d)
    ensures [] + d == d
  {
  }

  lemma {:induction false} InsertedCells(cs: seq<Cell>, e: Edit)
    requires e.Insert? && EditOk(cs, e)
    ensures var a, i, rest := Flat(cs[..e.at]), cs[e.at].ins, cs[e.at].body + Flat(cs[e.at + 1..]);
            && Flat(cs) == a + (i + rest)
            && Flat(EditCells(cs, e)) == a + ((if e.after then i + e.text else e.text + i) + rest)
  {
    var ds := EditCells(cs, e);
    FlatAt(cs, e.at);
    FlatAt(ds, e.at);
    assert ds[..e.at] == cs[..e.at] && ds[e.at + 1..] == cs[e.at + 1..];
  }

  lemma {:induction false} SpliceIn(cs: seq<Cell>, e: Edit)
    requires e.Insert? && EditOk(cs, e)
    ensures Splice(Flat(cs), |Flat(cs[..e.at])| + (if e.after then |cs[e.at].ins| else 0), 0, e.text)
            == Flat(EditCells(cs, e))
  {
    InsertedCells(cs, e);
    SpliceEither(Flat(cs), Flat(EditCells(cs, e)), Flat(cs[..e.at]), cs[e.at].ins, cs[e.at].body + Flat(cs[e.at + 1..]),
                 e.text, e.after);
  }

  lemma {:induction false} SpliceEither(f: seq<Ch>, g: seq<Ch>, a: seq<Ch>, i: seq<Ch>, rest: seq<Ch>, text: seq<Ch>,
                                        after: bool)
    requires f == a + (i + rest) && g == a + ((if after then i + text else text + i) + rest)
    ensures Splice(f, |a| + (if after then |i| else 0), 0, text) == g
  {
    if after { SpliceBehind(a, i, rest, text); } else { SpliceBefore(a, i, rest, text); }
  }

  lemma {:induction false} InsertIsSplice(text: seq<Ch>, ds: seq<Delta>, e: Edit)
    requires e.Insert?
    ensures EditText(text, ds, e) == Splice(text, Mapped(ds, e.at, e.after), 0, e.text)
  {
  }

  lemma {:induction false} InsertedText(cs: seq<Cell>, ds: seq<Delta>, e: Edit)
    requires e.Insert? && EditOk(cs, e) && AgreeAt(cs, ds, e.at)
    ensures EditText(Flat(cs), ds, e) == Flat(EditCells(cs, e))
  {
    assert Mapped(ds, e.at, e.after) == |Flat(cs[..e.at])| + (if e.after then |cs[e.at].ins| else 0);
    InsertIsSplice(Flat(cs), ds, e);
    SpliceIn(cs, e);
  }

  lemma {:induction false} SpliceBehind(a: seq<Ch>, i: seq<Ch>, rest: seq<Ch>, text: seq<Ch>)
    ensures Splice(a + (i + rest), |a| + |i|, 0, text) == a + ((i + text) + rest)
  {
    SpliceParts(a + i, [], rest, text);
    Regroup(a, i, [], rest);
    Regroup(a, i, text, rest);
  }

  lemma {:induction false} SpliceBefore(a: seq<Ch>, i: seq<Ch>, rest: seq<Ch>, text: seq<Ch>)
    ensures Splice(a + (i + rest), |a|, 0, text) == a + ((text + i) + rest)
  {
    SpliceParts(a, [], i + rest, text);
    Regroup(a, [], i, rest);
    Regroup(a, text, i, rest);
    Regroup(a, i, text, i + rest);
  }

  /** Splicing in the place of a cell's body, and of what follows it in the removed range. */
  lemma {:induction false} SpliceBody(a: seq<Ch>, i: seq<Ch>, y: seq<Ch>, m: seq<Ch>, rest: seq<Ch>, text: seq<Ch>)
    ensures Splice(a + (i + (y + (m + rest))), |a| + |i|, |y| + |m|, text) == a + (i + (text + ([] + rest)))
  {
    Regroup(a, i, y, m + rest);
    Regroup(a + i, y, m, rest);
    SpliceParts(a + i, y + m, rest, text);
    Regroup(a, i, text, rest);
  }

  lemma {:induction false} SpliceFront(a: seq<Ch>, i: seq<Ch>, y: seq<Ch>, rest: seq<Ch>, text: seq<Ch>)
    ensures Splice(a + (i + (y + rest)), |a| + |i|, 0, text) == a + (i + ((text + y) + rest))
  {
    SpliceBehind(a, i, y + rest, text);
    Regroup(i, text, y, rest);
    Regroup(a, i, text, y + rest);
  }

  lemma {:induction false} EditIsSplice(text: seq<Ch>, ds: seq<Delta>, e: Edit)
    requires !e.Insert?
    ensures EditText(text, ds, e) == Splice(text, Mapped(ds, e.at, true), Erased(e), Text(e))
  {
  }

  lemma {:induction false} SpliceFlat(f: seq<Ch>, g: seq<Ch>, a: seq<Ch>, i: seq<Ch>, y: seq<Ch>, m: seq<Ch>,
                                      rest: seq<Ch>, text: seq<Ch>)
    requires f == a + (i + (y + (m + rest))) && g == a + (i + (text + ([] + rest)))
    ensures Splice(f, |a| + |i|, |y| + |m|, text) == g
  {
    SpliceBody(a, i, y, m, rest, text);
  }

  lemma {:induction false} FlatReplaced(cs: seq<Cell>, ds: seq<Cell>, at: nat, stop: nat, text: seq<Ch>)
    requires SameOutside(cs, ds, at, stop) && ds[at].ins == cs[at].ins && ds[at].body == text
             && Flat(ds[at + 1..stop]) == []
    ensures Flat(ds) == Flat(cs[..at]) + (cs[at].ins + (text + ([] + Flat(cs[stop..]))))
  {
    FlatAround(ds, at, stop);
  }

  lemma {:induction false} BodyReplaced(cs: seq<Cell>, ds: seq<Cell>, at: nat, stop: nat, text: seq<Ch>)
    requires SameOutside(cs, ds, at, stop) && ds[at].ins == cs[at].ins && ds[at].body == text
             && Flat(ds[at + 1..stop]) == []
    ensures Splice(Flat(cs), |Flat(cs[..at])| + |cs[at].ins|, |cs[at].body| + |Flat(cs[at + 1..stop])|, text)
            == Flat(ds)
  {
    FlatAround(cs, at, stop);
    FlatReplaced(cs, ds, at, stop, text);
    SpliceFlat(Flat(cs), Flat(ds), Flat(cs[..at]), cs[at].ins, cs[at].body, Flat(cs[at + 1..stop]),
               Flat(cs[stop..]), text);
  }

  lemma {:induction false} BodyPrefixed(cs: seq<Cell>, ds: seq<Cell>, at: nat, text: seq<Ch>)
    requires SameOutside(cs, ds, at, at + 1) && ds[at].ins == cs[at].ins && ds[at].body == text + cs[at].body
    ensures Splice(Flat(cs), |Flat(cs[..at])| + |cs[at].ins|, 0, text) == Flat(ds)
  {
    FlatAt(cs, at);
    FlatAt(ds, at);
    SpliceFront(Flat(cs[..at]), cs[at].ins, cs[at].body, Flat(cs[at + 1..]), text);
  }

  lemma {:induction false} WedgedCells(cs: seq<Cell>, e: Edit)
    requires !e.Insert? && EditOk(cs, e) && Erased(e) == 0
    ensures Splice(Flat(cs), |Flat(cs[..e.at])| + |cs[e.at].ins|, 0, Text(e)) == Flat(EditCells(cs, e))
  {
    EditIsLocal(cs, e);
    EditedCell(cs, e);
    BodyPrefixed(cs, EditCells(cs, e), e.at, Text(e));
  }

  /** What an edit that erases does to the cells, as far as lengths and text go. */
  lemma {:induction false} ErasingFacts(cs: seq<Cell>, e: Edit) returns (ds: seq<Cell>)
    requires !e.Insert? && EditOk(cs, e) && Erased(e) > 0
    ensures ds == EditCells(cs, e) && SameOutside(cs, ds, e.at, StopOf(e)) && ds[e.at].ins == cs[e.at].ins
    ensures ds[e.at].body == Text(e) && Flat(ds[e.at + 1..StopOf(e)]) == []
    ensures |cs[e.at].body| + |Flat(cs[e.at + 1..StopOf(e)])| == Erased(e)
  {
    ds := EditCells(cs, e);
    EditIsLocal(cs, e);
    EditedCell(cs, e);
    EditCovers(cs, e);
    EditErasesInner(cs, e);
  }

  lemma {:induction false} ErasedCells(cs: seq<Cell>, e: Edit)
    requires !e.Insert? && EditOk(cs, e) && Erased(e) > 0
    ensures Splice(Flat(cs), |Flat(cs[..e.at])| + |cs[e.at].ins|, Erased(e), Text(e)) == Flat(EditCells(cs, e))
  {
    var at, stop, text, n, f := e.at, StopOf(e), Text(e), Erased(e), Flat(EditCells(cs, e));
    assert Splice(Flat(cs), |Flat(cs[..at])| + |cs[at].ins|, n, text) == f by {
      var ds := ErasingFacts(cs, e);
      assert |cs[at].body| + |Flat(cs[at + 1..stop])| == n && Flat(ds) == f;
      BodyReplaced(cs, ds, at, stop, text);
    }
  }

  lemma {:induction false} OverwrittenCells(cs: seq<Cell>, e: Edit)
    requires !e.Insert? && EditOk(cs, e)
    ensures Splice(Flat(cs), |Flat(cs[..e.at])| + |cs[e.at].ins|, Erased(e), Text(e)) == Flat(EditCells(cs, e))
  {
    if Erased(e) == 0 { WedgedCells(cs, e); } else { ErasedCells(cs, e); }
  }

  lemma {:induction false} OverwrittenText(cs: seq<Cell>, ds: seq<Delta>, e: Edit)
    requires !e.Insert? && EditOk(cs, e) && AgreeAt(cs, ds, e.at)
    ensures EditText(Flat(cs), ds, e) == Flat(EditCells(cs, e))
  {
    OverwrittenCells(cs, e);
    EditIsSplice(Flat(cs), ds, e);
  }

  // ----- whole runs -----

  lemma {:induction false} FreshText(n: nat, k: nat)
    requires k <= n
    ensures Flat(Fresh(n)[..k]) == Pristine(k)
  {
    if k > 0 {
      assert Fresh(n)[..k][..k - 1] == Fresh(n)[..k - 1];
      FreshText(n, k - 1);
    }
  }

  lemma {:induction false} FreshAgrees(n: nat)
    ensures Agree(Fresh(n), []) && Flat(Fresh(n)) == Pristine(n)
  {
    forall o | 0 <= o <= n ensures AgreeAt(Fresh(n), [], o) { FreshText(n, o); }
    FreshText(n, n);
    assert Fresh(n)[..|Fresh(n)| - 1] == Fresh(n)[..n];
  }

  /** After any run of non-overlapping edits the buffer is the text of the cells and the map agrees with them. */
  lemma {:induction false} RunAgrees(n: nat, es: seq<Edit>)
    requires RunOk(n, es)
    ensures RunText(n, es) == Flat(RunCells(n, es)) && Agree(RunCells(n, es), RunDeltas(es))
  {
    if es == [] {
      FreshAgrees(n);
    } else {
      var before, e := es[..|es| - 1], es[|es| - 1];
      RunAgrees(n, before);
      var cs, ds := RunCells(n, before), RunDeltas(before);
      assert AgreeAt(cs, ds, e.at);
      if e.Insert? { InsertedText(cs, ds, e); } else { OverwrittenText(cs, ds, e); }
      EditKeepsAgree(cs, ds, e);
    }
  }

  /** No edit removes or replaces the character at o. */
  predicate Survives(es: seq<Edit>, o: nat) {
    es == [] || (Survives(es[..|es| - 1], o) && !(es[|es| - 1].at <= o < es[|es| - 1].at + Erased(es[|es| - 1])))
  }

  /** The text that replacements of width zero put at o. */
  function Wedged(es: seq<Edit>, o: nat): seq<Ch> {
    if es == [] then []
    else
      var e := es[|es| - 1];
      (if e.Replace? && e.size == 0 && e.at == o then e.text else []) + Wedged(es[..|es| - 1], o)
  }

  lemma {:induction false} SurvivorStep(cs: seq<Cell>, e: Edit, wedged: seq<Ch>, o: nat)
    requires EditOk(cs, e) && o < |cs| && !(e.at <= o < e.at + Erased(e))
    requires !cs[o].covered && cs[o].body == wedged + [Original(o)] && AllNew(wedged)
    ensures var w := (if e.Replace? && e.size == 0 && e.at == o then e.text else []) + wedged;
            !EditCells(cs, e)[o].covered && EditCells(cs, e)[o].body == w + [Original(o)] && AllNew(w)
  {
    if !e.Insert? && e.at == o { assert Text(e) + (wedged + [Original(o)]) == (Text(e) + wedged) + [Original(o)]; }
  }

  lemma {:induction false} SurvivorCell(n: nat, es: seq<Edit>, o: nat)
    requires RunOk(n, es) && o < n && Survives(es, o)
    ensures !RunCells(n, es)[o].covered && RunCells(n, es)[o].body == Wedged(es, o) + [Original(o)]
    ensures AllNew(Wedged(es, o))
  {
    if es != [] {
      SurvivorCell(n, es[..|es| - 1], o);
      SurvivorStep(RunCells(n, es[..|es| - 1]), es[|es| - 1], Wedged(es[..|es| - 1], o), o);
    }
  }

  lemma {:induction false} PrefixLonger(cs: seq<Cell>, o: nat, q: nat)
    requires o < q <= |cs|
    ensures |Flat(cs[..o])| + |cs[o].ins| + |cs[o].body| <= |Flat(cs[..q])|
  {
    assert cs[..q][..o] == cs[..o];
    FlatAt(cs[..q], o);
  }

  /** A surviving character stands behind the text wedged in at its offset; so it stands where the map
    * sends it exactly when no replacement of width zero put text there. */
  lemma {:induction false} SurvivorsAreMapped(n: nat, es: seq<Edit>, o: nat)
    requires RunOk(n, es) && o < n && Survives(es, o)
    ensures var p := Mapped(RunDeltas(es), o, true);
            0 <= p && p + |Wedged(es, o)| < |RunText(n, es)|
            && RunText(n, es)[p + |Wedged(es, o)|] == Original(o)
            && (RunText(n, es)[p] == Original(o) <==> Wedged(es, o) == [])
  {
    var cs := RunCells(n, es);
    RunAgrees(n, es);
    SurvivorCell(n, es, o);
    assert AgreeAt(cs, RunDeltas(es), o);
    FlatAt(cs, o);
    InTheMiddle(Flat(cs[..o]), cs[o].ins, Wedged(es, o), Original(o), Flat(cs[o + 1..]));
  }

  lemma {:induction false} InTheMiddle(a: seq<Ch>, i: seq<Ch>, w: seq<Ch>, c: Ch, b: seq<Ch>)
    ensures var t := a + (i + ((w + [c]) + b));
            |t| > |a| + |i| + |w| && t[|a| + |i| + |w|] == c && (w != [] ==> t[|a| + |i|] == w[0])
  {
    var r := (w + [c]) + b;
    assert r[|w|] == c && (w != [] ==> r[0] == w[0]);
    assert forall k :: 0 <= k < |r| ==> (a + (i + r))[|a| + |i| + k] == r[k];
  }

  /** One replacement of width zero in front of the second of two characters: the map still sends that character to
    * place 1, where the new text now stands. */
  lemma {:induction false} WedgeShifts()
    ensures var es := [Replace(1, 0, [New(7)])];
            && RunOk(2, es) && Survives(es, 1)
            && RunText(2, es) == [Original(0), New(7), Original(1)] && Mapped(RunDeltas(es), 0, true) == 0
            && Mapped(RunDeltas(es), 1, true) == 1
  {
    var e := Replace(1, 0, [New(7)]);
    var es := [e];
    assert es[..0] == [];
    assert RunDeltas(es) == Record([], e) == [Delta(3, 1)];
    OneDelta(3, 1, 1);
    OneDelta(3, 1, 3);
    WedgeText(e);
    assert Survives([], 1) && RunOk(2, []);
  }

  lemma {:induction false} OneDelta(key: nat, change: int, below: nat)
    ensures DeltaAt([Delta(key, change)], below) == if key < below then change else 0
  {
    assert [Delta(key, change)][..0] == [];
  }

  lemma {:induction false} WedgeText(e: Edit)
    requires e == Replace(1, 0, [New(7)])
    ensures EditText(Pristine(2), [], e) == [Original(0), New(7), Original(1)]
  {
    assert Pristine(2) == [Original(0), Original(1)];
  }

  /** The map is strictly increasing on survivors, whatever the edits. */
  lemma {:induction false} MapIncreases(n: nat, es: seq<Edit>, o: nat, q: nat)
    requires RunOk(n, es) && o < q < n && Survives(es, o) && Survives(es, q)
    ensures Mapped(RunDeltas(es), o, true) < Mapped(RunDeltas(es), q, true)
  {
    var cs := RunCells(n, es);
    RunAgrees(n, es);
    SurvivorCell(n, es, o);
    SurvivorCell(n, es, q);
    assert AgreeAt(cs, RunDeltas(es), o) && AgreeAt(cs, RunDeltas(es), q);
    PrefixLonger(cs, o, q);
  }

  /** The size of a range is its edited length, with what was inserted before its first token, exactly when
    * the edits behind the first character of the last token and inside it cancel out. */
  lemma {:induction false} RangeSizeIsEditedLength(n: nat, es: seq<Edit>, start: nat, last: nat, tokenLength: nat)
    requires RunOk(n, es) && start <= last && last + tokenLength <= n
    requires var cs := RunCells(n, es); !cs[start].covered && !cs[last + tokenLength].covered
    ensures var ds := RunDeltas(es);
            RangeSize(ds, start, last, tokenLength) == |Flat(RunCells(n, es)[start..last + tokenLength])|
            <==> DeltaAt(ds, 2 * (last + tokenLength)) == DeltaAt(ds, 2 * last + 1)
  {
    RunAgrees(n, es);
    var cs, ds := RunCells(n, es), RunDeltas(es);
    assert AgreeAt(cs, ds, start) && AgreeAt(cs, ds, last + tokenLength);
    AnchoredRange(cs, ds, start, last, tokenLength);
  }

  lemma {:induction false} AnchoredRange(cs: seq<Cell>, ds: seq<Delta>, start: nat, last: nat, tokenLength: nat)
    requires start <= last && last + tokenLength < |cs| && AgreeAt(cs, ds, start) && AgreeAt(cs, ds, last + tokenLength)
    ensures RangeSize(ds, start, last, tokenLength) == |Flat(cs[start..last + tokenLength])|
            <==> DeltaAt(ds, 2 * (last + tokenLength)) == DeltaAt(ds, 2 * last + 1)
  {
    RangeLength(cs, start, last + tokenLength);
  }

  lemma {:induction false} RangeLength(cs: seq<Cell>, start: nat, stop: nat)
    requires start <= stop <= |cs|
    ensures |Flat(cs[start..stop])| == |Flat(cs[..stop])| - |Flat(cs[..start])|
  {
    assert cs[..stop] == cs[..start] + cs[start..stop];
    FlatConcat(cs[..start], cs[start..stop]);
  }

  /** In particular when no edit has a key inside the last token. */
  lemma {:induction false} UneditedLastToken(ds: seq<Delta>, last: nat, tokenLength: nat)
    requires forall k :: 0 <= k < |ds| ==> !(2 * last < ds[k].key < 2 * (last + tokenLength))
    requires tokenLength > 0
    ensures DeltaAt(ds, 2 * (last + tokenLength)) == DeltaAt(ds, 2 * last + 1)
  {
    if ds != [] { UneditedLastToken(ds[..|ds| - 1], last, tokenLength); }
  }

  /** Inserting behind a token is recorded at the token's first character: the map is then wrong by the inserted
    * length exactly on the characters of the token. */
  lemma {:induction false} InsertAfterTokenShiftsToken(cs: seq<Cell>, ds: seq<Delta>, at: nat, tokenLength: nat,
                                                       text: seq<Ch>, o: nat)
    requires Agree(cs, ds) && EditOk(cs, Insert(at + tokenLength, text, true)) && o < |cs| && !cs[o].covered
             && text != []
    ensures var cs' := EditCells(cs, Insert(at + tokenLength, text, true));
            Mapped(ds + [Delta(2 * at, |text|)], o, true) == |Flat(cs'[..o])| + |cs'[o].ins|
            <==> !(at <= o < at + tokenLength)
  {
    var e := Insert(at + tokenLength, text, true);
    EditKeepsAgree(cs, ds, e);
    assert AgreeAt(EditCells(cs, e), Record(ds, e), o);
    RecordedDelta(ds, e, 2 * o + 1);
    DeltaSnoc(ds, Delta(2 * at, |text|), 2 * o + 1);
  }

  // ----- insertions that indent new lines -----

  const NEW_LINE := New(10)

  /** The text that is really inserted when new lines are indented. */
  function Indented(text: seq<Ch>, indent: seq<Ch>): seq<Ch> {
    if text == [] then [] else [text[0]] + (if text[0] == NEW_LINE then indent else []) + Indented(text[1..], indent)
  }

  function Breaks(text: seq<Ch>): nat {
    if text == [] then 0 else (if text[0] == NEW_LINE then 1 else 0) + Breaks(text[1..])
  }

  lemma {:induction false} IndentedLength(text: seq<Ch>, indent: seq<Ch>)
    ensures |Indented(text, indent)| == |text| + Breaks(text) * |indent|
  {
    if text != [] {
      IndentedLength(text[1..], indent);
      OneMoreBreak(if text[0] == NEW_LINE then 1 else 0, Breaks(text[1..]), |indent|);
    }
  }

  lemma {:induction false} OneMoreBreak(a: nat, b: nat, n: nat)
    ensures (a + b) * n == a * n + b * n && 0 * n == 0 && 1 * n == n
  {
  }

  lemma {:induction false} NoLonger(b: nat, n: nat)
    ensures b * n == 0 <==> b == 0 || n == 0
  {
    if b > 0 && n > 0 { assert b * n == (b - 1) * n + n; }
  }

  /** The size recorded is that of the text before indentation: the map is then right exactly in front of the insertion,
    * or when the text has no new line or the line no indentation. */
  lemma {:induction false} IndentedInsertShifts(cs: seq<Cell>, ds: seq<Delta>, at: nat, text: seq<Ch>, indent: seq<Ch>,
                                                after: bool, o: nat)
    requires Agree(cs, ds) && EditOk(cs, Insert(at, Indented(text, indent), after)) && o < |cs| && !cs[o].covered
    ensures var cs' := EditCells(cs, Insert(at, Indented(text, indent), after));
            Mapped(ds + [Delta(2 * at, |text|)], o, true) == |Flat(cs'[..o])| + |cs'[o].ins|
            <==> o < at || Breaks(text) == 0 || indent == []
  {
    var e := Insert(at, Indented(text, indent), after);
    EditKeepsAgree(cs, ds, e);
    assert AgreeAt(EditCells(cs, e), Record(ds, e), o);
    RecordedDelta(ds, e, 2 * o + 1);
    DeltaSnoc(ds, Delta(2 * at, |text|), 2 * o + 1);
    IndentedLength(text, indent);
    NoLonger(Breaks(text), |indent|);
  }
}
