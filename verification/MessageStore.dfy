/** The append-only table that pairs each relayed message with its mirror, read in both directions. */
module MessageStore {
  import opened Common

  /** A message of a chat.  Message id 0 stands for "id unknown". */
  datatype Coord = Coord(chat: int, msg: int)

  datatype Direction = MerchantToSupport | SupportToMerchant

  datatype Mapping = Mapping(
    pairKey: string, source: Coord, target: Coord, direction: Direction, group: Option<string>, phone: string)

  datatype Lookup = Row(row: Mapping) | NoRow | LookupFailed

  datatype SaveResult = Saved | Duplicate | SaveFailed

  /** A storage error on saving may strike before or after the row is written. */
  datatype SaveFault = NoFault | LostBefore | LostAfter

  function FindSource(rows: seq<Mapping>, c: Coord): (r: Option<Mapping>)
    ensures r.Some? ==> r.value in rows && r.value.source == c
    ensures r.None? ==> forall m :: m in rows ==> m.source != c
  {
    if rows == [] then None
    else if rows[0].source == c then Some(rows[0])
    else FindSource(rows[1..], c)
  }

  function FindTarget(rows: seq<Mapping>, c: Coord): (r: Option<Mapping>)
    ensures r.Some? ==> r.value in rows && r.value.target == c
    ensures r.None? ==> forall m :: m in rows ==> m.target != c
  {
    if rows == [] then None
    else if rows[0].target == c then Some(rows[0])
    else FindTarget(rows[1..], c)
  }

  function ToLookup(r: Option<Mapping>, fails: bool): Lookup {
    if fails then LookupFailed else if r.Some? then Row(r.value) else NoRow
  }

  function SaveRow(rows: seq<Mapping>, m: Mapping, fault: SaveFault): (seq<Mapping>, SaveResult) {
    if fault.LostBefore? then (rows, SaveFailed)
    else if FindSource(rows, m.source).Some? then (rows, Duplicate)
    else (rows + [m], if fault.LostAfter? then SaveFailed else Saved)
  }

  /** A row is added if and only if the source is new and nothing strikes before; the save is reported as
      failed if a fault strikes before, or after a row was added, and as a duplicate if the source was there. */
  lemma SaveFacts(rows: seq<Mapping>, m: Mapping, fault: SaveFault)
    ensures var (after, r) := SaveRow(rows, m, fault);
      && after == (if !fault.LostBefore? && m.source !in Sources(rows) then rows + [m] else rows)
      && (r.SaveFailed? <==> fault.LostBefore? || (fault.LostAfter? && m.source !in Sources(rows)))
      && (r.Duplicate? <==> !fault.LostBefore? && m.source in Sources(rows))
  {
    if FindSource(rows, m.source).Some? { assert FindSource(rows, m.source).value.source in Sources(rows); }
  }

  ghost function Sources(rows: seq<Mapping>): set<Coord> {
    set a | a in rows :: a.source
  }

  class Store {
    var rows: seq<Mapping>

    constructor ()
      ensures rows == []
    {
      rows := [];
    }

    /** Inserts unless a row with the same source exists. */
    method SaveMapping(m: Mapping, fault: SaveFault) returns (r: SaveResult)
      modifies this
      ensures (rows, r) == SaveRow(old(rows), m, fault)
    {
      if fault.LostBefore? { return SaveFailed; }
      if FindSource(rows, m.source).Some? { return Duplicate; }
      rows := rows + [m];
      return if fault.LostAfter? then SaveFailed else Saved;
    }

    method FindBySource(c: Coord, fails: bool) returns (r: Lookup)
      ensures r == ToLookup(FindSource(rows, c), fails)
    {
      if fails { return LookupFailed; }
      for i := 0 to |rows|
        invariant FindSource(rows, c) == FindSource(rows[i..], c)
      {
        if rows[i].source == c { return Row(rows[i]); }
      }
      return NoRow;
    }

    method FindByTarget(c: Coord, fails: bool) returns (r: Lookup)
      ensures r == ToLookup(FindTarget(rows, c), fails)
    {
      if fails { return LookupFailed; }
      for i := 0 to |rows|
        invariant FindTarget(rows, c) == FindTarget(rows[i..], c)
      {
        if rows[i].target == c { return Row(rows[i]); }
      }
      return NoRow;
    }
  }

  /** Two rows do not interfere: different sources, different known targets, and no known target of
      one is the source of the other. */
  predicate Apart(a: Mapping, b: Mapping) {
    && a.source != b.source
    && (a.target.msg != 0 ==> a.target != b.target && a.target != b.source)
    && (b.target.msg != 0 ==> b.target != a.source)
  }

  predicate NotOwnMirror(a: Mapping) {
    a.target.msg != 0 ==> a.target != a.source
  }

  /** Sources are unique, known targets are unique, and no known coordinate is both. */
  ghost predicate Clean(rows: seq<Mapping>) {
    && (forall i {:trigger NotOwnMirror(rows[i])} :: 0 <= i < |rows| ==> NotOwnMirror(rows[i]))
    && (forall i, j {:trigger Apart(rows[i], rows[j])} :: 0 <= i < j < |rows| ==> Apart(rows[i], rows[j]))
  }

  lemma CleanApart(rows: seq<Mapping>, a: Mapping, b: Mapping)
    requires Clean(rows) && a in rows && b in rows
    ensures NotOwnMirror(a) && (a == b || (Apart(a, b) && Apart(b, a)))
  {
    var i :| 0 <= i < |rows| && rows[i] == a;
    var j :| 0 <= j < |rows| && rows[j] == b;
    assert NotOwnMirror(rows[i]);
    if i < j { assert Apart(rows[i], rows[j]); }
    if j < i { assert Apart(rows[j], rows[i]); }
  }

  lemma CleanGrows(rows: seq<Mapping>, m: Mapping)
    requires Clean(rows) && NotOwnMirror(m)
    requires forall a :: a in rows ==> Apart(a, m)
    ensures Clean(rows + [m])
  {
    var after := rows + [m];
    forall i | 0 <= i < |after| ensures NotOwnMirror(after[i]) {
      if i < |rows| { assert NotOwnMirror(rows[i]); }
    }
    forall i, j | 0 <= i < j < |after| ensures Apart(after[i], after[j]) {
      if j < |rows| { assert Apart(rows[i], rows[j]); } else { assert rows[i] in rows; }
    }
  }

  /** The other side of a message, looked up as a mirror first (the order used for replies). */
  function Opposite(rows: seq<Mapping>, c: Coord): Option<Coord> {
    match FindTarget(rows, c)
    case Some(m) => Some(m.source)
    case None =>
      match FindSource(rows, c)
      case Some(m) => Some(m.target)
      case None => None
  }

  /** The other side of a message, looked up as a source first (the order used for reactions). */
  function Mirror(rows: seq<Mapping>, c: Coord): Option<Coord> {
    match FindSource(rows, c)
    case Some(m) => Some(m.target)
    case None =>
      match FindTarget(rows, c)
      case Some(m) => Some(m.source)
      case None => None
  }

  /** A row is the only one that can answer a lookup by either of its known coordinates. */
  lemma {:induction false} LookupsUnique(rows: seq<Mapping>, m: Mapping)
    requires Clean(rows) && m in rows
    ensures FindSource(rows, m.source) == Some(m)
    ensures m.target.msg != 0 ==> FindTarget(rows, m.target) == Some(m) && FindSource(rows, m.target).None?
    ensures m.source.msg != 0 ==> FindTarget(rows, m.source).None?
  {
    CleanApart(rows, m, FindSource(rows, m.source).value);
    if FindTarget(rows, m.target).Some? { CleanApart(rows, m, FindTarget(rows, m.target).value); }
    if FindSource(rows, m.target).Some? { CleanApart(rows, m, FindSource(rows, m.target).value); }
    if FindTarget(rows, m.source).Some? { CleanApart(rows, m, FindTarget(rows, m.source).value); }
  }

  /** Both lookup orders find the same other side. */
  lemma LookupOrdersAgree(rows: seq<Mapping>, c: Coord)
    requires Clean(rows) && c.msg != 0
    ensures Opposite(rows, c) == Mirror(rows, c)
  {
    if FindSource(rows, c).Some? { LookupsUnique(rows, FindSource(rows, c).value); }
  }

  /** The other side of the other side is the message itself. */
  lemma OppositeTwice(rows: seq<Mapping>, c: Coord)
    requires Clean(rows) && c.msg != 0
    requires Opposite(rows, c).Some? && Opposite(rows, c).value.msg != 0
    ensures Opposite(rows, Opposite(rows, c).value) == Some(c)
  {
    if FindTarget(rows, c).Some? {
      LookupsUnique(rows, FindTarget(rows, c).value);
    } else {
      LookupsUnique(rows, FindSource(rows, c).value);
    }
  }

  /** Two different messages never have the same other side. */
  lemma OppositeInjective(rows: seq<Mapping>, c: Coord, d: Coord)
    requires Clean(rows) && c.msg != 0 && d.msg != 0
    requires Opposite(rows, c).Some? && Opposite(rows, c) == Opposite(rows, d)
    requires Opposite(rows, c).value.msg != 0
    ensures c == d
  {
    OppositeTwice(rows, c);
    OppositeTwice(rows, d);
  }

  /** A recorded other side never changes again, whatever rows are added. */
  lemma OppositeStable(rows: seq<Mapping>, m: Mapping, c: Coord)
    requires Clean(rows) && Clean(rows + [m]) && c.msg != 0 && Opposite(rows, c).Some?
    ensures Opposite(rows + [m], c) == Opposite(rows, c)
  {
    var after := rows + [m];
    if FindTarget(rows, c).Some? {
      assert FindTarget(rows, c).value in after;
      LookupsUnique(after, FindTarget(rows, c).value);
    } else {
      assert FindSource(rows, c).value in after;
      LookupsUnique(after, FindSource(rows, c).value);
    }
  }
}
