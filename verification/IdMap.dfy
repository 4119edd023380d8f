/** User-namespace ID maps: two sorted indexes over one set of extents, and
    their construction through a parent map (crates/cred/src/idmap.rs). */
module IdMaps {
  import opened Wrappers

  const INVALID_ID: nat := 0xFFFF_FFFF
  const ID_MAP_MAX_EXTENTS: nat := 340

  datatype CredError = InvalidInput | NotPermitted

  /** One row: `count` IDs from `first` here stand for `count` IDs from `lowerFirst` below. */
  datatype Extent = Extent(first: nat, lowerFirst: nat, count: nat)

  datatype Side = Upper | Lower

  datatype IdMap = IdMap(forward: seq<Extent>, reverse: seq<Extent>)

  function Start(e: Extent, side: Side): nat {
    if side == Upper then e.first else e.lowerFirst
  }

  function End(e: Extent, side: Side): nat {
    Start(e, side) + e.count
  }

  /** The exclusive end of a range, or nothing if it is empty or leaves the 32-bit ID space. */
  function ValidRangeEnd(first: nat, count: nat): Option<nat> {
    if count == 0 || first == INVALID_ID || first + count > U32_MAX then None else Some(first + count)
  }

  predicate RangesValid(e: Extent) {
    ValidRangeEnd(e.first, e.count).Some? && ValidRangeEnd(e.lowerFirst, e.count).Some?
  }

  predicate Covers(e: Extent, id: nat, side: Side) {
    Start(e, side) <= id < End(e, side)
  }

  predicate Apart(a: Extent, b: Extent, side: Side) {
    End(a, side) <= Start(b, side) || End(b, side) <= Start(a, side)
  }

  /** Every row is apart from every later row. */
  predicate AllApart(s: seq<Extent>, side: Side) {
    s == [] || ((forall y | y in s[1..] :: Apart(s[0], y, side)) && AllApart(s[1..], side))
  }

  /** What a map may be made of. */
  predicate WellFormed(rows: seq<Extent>) {
    && 0 < |rows| <= ID_MAP_MAX_EXTENTS
    && (forall e | e in rows :: RangesValid(e))
    && AllApart(rows, Upper)
    && AllApart(rows, Lower)
  }

  /** The covering row found by looking at every row in turn. */
  function Scan(rows: seq<Extent>, id: nat, side: Side): (r: Option<Extent>)
    ensures r.Some? ==> r.value in rows && Covers(r.value, id, side)
    ensures r.None? ==> forall e | e in rows :: !Covers(e, id, side)
  {
    if rows == [] then None else if Covers(rows[0], id, side) then Some(rows[0]) else Scan(rows[1..], id, side)
  }

  function Opposite(side: Side): Side {
    if side == Upper then Lower else Upper
  }

  /** The partial injection that rows stand for, read from `side` to the other one. */
  function Translate(rows: seq<Extent>, id: nat, side: Side): Option<nat> {
    match Scan(rows, id, side)
    case None => None
    case Some(e) => Some(Start(e, Opposite(side)) + (id - Start(e, side)))
  }

  // ---------- Sorting ----------

  function Insert(x: Extent, s: seq<Extent>, side: Side): seq<Extent> {
    if s == [] || Start(x, side) <= Start(s[0], side) then [x] + s else [s[0]] + Insert(x, s[1..], side)
  }

  function Sort(s: seq<Extent>, side: Side): seq<Extent> {
    if s == [] then [] else Insert(s[0], Sort(s[1..], side), side)
  }

  ghost predicate Sorted(s: seq<Extent>, side: Side) {
    forall i, j | 0 <= i < j < |s| :: Start(s[i], side) <= Start(s[j], side)
  }

  lemma {:induction false} InsertFacts(x: Extent, s: seq<Extent>, side: Side)
    ensures |Insert(x, s, side)| == |s| + 1
    ensures forall y :: y in Insert(x, s, side) <==> y == x || y in s
    ensures Sorted(s, side) ==> Sorted(Insert(x, s, side), side)
  {
    if s != [] && Start(x, side) > Start(s[0], side) {
      InsertFacts(x, s[1..], side);
      var r := Insert(x, s[1..], side);
      assert Insert(x, s, side) == [s[0]] + r;
      if Sorted(s, side) {
        assert Sorted(s[1..], side);
        forall i | 0 <= i < |r|
          ensures Start(s[0], side) <= Start(r[i], side)
        {
          assert r[i] in r;
        }
      }
    }
  }

  lemma {:induction false} SortFacts(s: seq<Extent>, side: Side)
    ensures |Sort(s, side)| == |s|
    ensures forall y :: y in Sort(s, side) <==> y in s
    ensures Sorted(Sort(s, side), side)
  {
    if s != [] {
      SortFacts(s[1..], side);
      InsertFacts(s[0], Sort(s[1..], side), side);
      assert s == [s[0]] + s[1..];
    }
  }

  lemma ApartEitherWay(x: Extent, y: Extent, side: Side)
    ensures Apart(x, y, side) <==> Apart(y, x, side)
  {
  }

  lemma {:induction false} InsertApart(x: Extent, s: seq<Extent>, side: Side, key: Side)
    ensures AllApart(Insert(x, s, key), side) <==> (forall y | y in s :: Apart(x, y, side)) && AllApart(s, side)
  {
    hide Apart, Start, Sorted;
    if s != [] && Start(x, key) > Start(s[0], key) {
      InsertApart(x, s[1..], side, key);
      InsertFacts(x, s[1..], key);
      var r := Insert(x, s[1..], key);
      ApartEitherWay(x, s[0], side);
      assert ([s[0]] + r)[1..] == r;
      assert (forall y | y in r :: Apart(s[0], y, side)) <==>
             Apart(s[0], x, side) && forall y | y in s[1..] :: Apart(s[0], y, side);
      assert (forall y | y in s :: Apart(x, y, side)) <==>
             Apart(x, s[0], side) && forall y | y in s[1..] :: Apart(x, y, side);
    } else {
      assert ([x] + s)[1..] == s;
    }
  }

  /** Sorting changes nothing about which rows overlap. */
  lemma {:induction false} SortApart(s: seq<Extent>, side: Side, key: Side)
    ensures AllApart(Sort(s, key), side) <==> AllApart(s, side)
  {
    if s != [] {
      SortApart(s[1..], side, key);
      SortFacts(s[1..], key);
      InsertApart(s[0], Sort(s[1..], key), side, key);
    }
  }

  /** Row `i` starts after its predecessor ended. */
  predicate InOrder(s: seq<Extent>, side: Side, i: nat) {
    0 < i < |s| && End(s[i - 1], side) <= Start(s[i], side)
  }

  lemma {:induction false} InOrderIsApart(s: seq<Extent>, side: Side)
    requires Sorted(s, side) && forall i | 0 < i < |s| :: InOrder(s, side, i)
    ensures AllApart(s, side)
  {
    if s != [] {
      var t := s[1..];
      forall i | 0 < i < |t|
        ensures InOrder(t, side, i)
      {
        assert InOrder(s, side, i + 1);
      }
      InOrderIsApart(t, side);
      forall y | y in t
        ensures Apart(s[0], y, side)
      {
        var k :| 0 <= k < |t| && t[k] == y;
        assert InOrder(s, side, 1) && Start(s[1], side) <= Start(s[k + 1], side);
      }
    }
  }

  /** Rows sorted by their start are all apart iff neighbours are. */
  lemma NeighboursSuffice(s: seq<Extent>, side: Side)
    requires Sorted(s, side) && forall e | e in s :: e.count > 0
    ensures AllApart(s, side) <==> forall i | 0 < i < |s| :: InOrder(s, side, i)
  {
    if AllApart(s, side) {
      forall i | 0 < i < |s|
        ensures InOrder(s, side, i)
      {
        ApartAt(s, side, i - 1, i);
        assert s[i] in s;
      }
    } else if forall i | 0 < i < |s| :: InOrder(s, side, i) {
      InOrderIsApart(s, side);
    }
  }

  // ---------- Lookup ----------

  lemma {:induction false} ApartAt(s: seq<Extent>, side: Side, i: nat, j: nat)
    requires AllApart(s, side) && i < j < |s|
    ensures Apart(s[i], s[j], side)
  {
    if i == 0 {
      assert s[j] == s[1..][j - 1];
    } else {
      ApartAt(s[1..], side, i - 1, j - 1);
    }
  }

  /** At most one row covers an ID, so a scan finds whichever does. */
  lemma {:induction false} ScanFinds(s: seq<Extent>, side: Side, e: Extent, id: nat)
    requires AllApart(s, side) && e in s && Covers(e, id, side)
    ensures Scan(s, id, side) == Some(e)
  {
    if s[0] != e {
      assert e in s[1..];
      ScanFinds(s[1..], side, e, id);
    }
  }

  /** The order of the rows does not matter to a scan. */
  lemma ScanIgnoresOrder(s: seq<Extent>, t: seq<Extent>, side: Side, id: nat)
    requires AllApart(t, side) && forall e :: e in s <==> e in t
    ensures Scan(s, id, side) == Scan(t, id, side)
  {
    var found := Scan(s, id, side);
    if found.Some? {
      ScanFinds(t, side, found.value, id);
    }
  }

  /** An index that binary search can use. */
  ghost predicate Searchable(s: seq<Extent>, side: Side) {
    Sorted(s, side) && AllApart(s, side) && forall e | e in s :: RangesValid(e)
  }

  /** Binary search over a sorted index finds what a scan of all rows finds. */
  method FindExtent(extents: seq<Extent>, id: nat, side: Side) returns (r: Option<Extent>)
    requires Searchable(extents, side)
    ensures r == Scan(extents, id, side)
  {
    var left, right := 0, |extents|;
    while left < right
      invariant left <= right <= |extents|
      invariant forall i | 0 <= i < left :: Start(extents[i], side) <= id
      invariant forall i | right <= i < |extents| :: Start(extents[i], side) > id
    {
      var middle := left + (right - left) / 2;
      if Start(extents[middle], side) <= id {
        left := middle + 1;
      } else {
        right := middle;
      }
    }
    if left == 0 {
      return None;
    }
    var candidate := extents[left - 1];
    if id < End(candidate, side) {
      ScanFinds(extents, side, candidate, id);
      return Some(candidate);
    }
    forall i | 0 <= i < |extents|
      ensures !Covers(extents[i], id, side)
    {
      if i < left - 1 {
        ApartAt(extents, side, i, left - 1);
        assert candidate in extents;
      }
    }
    return None;
  }

  /** A complete map: both indexes hold the same rows, each sorted its own way. */
  ghost predicate ValidMap(m: IdMap) {
    && Searchable(m.forward, Upper) && AllApart(m.forward, Lower)
    && Searchable(m.reverse, Lower)
    && forall e :: e in m.forward <==> e in m.reverse
  }

  method MapIdToKernel(m: IdMap, id: nat) returns (r: Option<nat>)
    requires ValidMap(m)
    ensures r == Translate(m.forward, id, Upper)
  {
    var extent := FindExtent(m.forward, id, Upper);
    if extent.None? {
      return None;
    }
    var k := extent.value.lowerFirst + (id - extent.value.first);
    if k > U32_MAX {
      assert false;
    }
    return Some(k);
  }

  method MapIdFromKernel(m: IdMap, id: nat) returns (r: Option<nat>)
    requires ValidMap(m)
    ensures r == Translate(m.reverse, id, Lower)
  {
    var extent := FindExtent(m.reverse, id, Lower);
    if extent.None? {
      return None;
    }
    var k := extent.value.first + (id - extent.value.lowerFirst);
    if k > U32_MAX {
      assert false;
    }
    return Some(k);
  }

  /** A lookup finds exactly the offset into the one row that covers the ID. */
  lemma TranslateMeans(rows: seq<Extent>, id: nat, k: nat)
    requires AllApart(rows, Upper) || AllApart(rows, Lower)
    ensures AllApart(rows, Upper) ==>
      (Translate(rows, id, Upper) == Some(k) <==>
       exists e :: e in rows && e.first <= id < e.first + e.count && k == e.lowerFirst + (id - e.first))
    ensures AllApart(rows, Lower) ==>
      (Translate(rows, k, Lower) == Some(id) <==>
       exists e :: e in rows && e.lowerFirst <= k < e.lowerFirst + e.count && id == e.first + (k - e.lowerFirst))
  {
    hide AllApart, Scan;
    if AllApart(rows, Upper) {
      forall e | e in rows && Covers(e, id, Upper)
        ensures Scan(rows, id, Upper) == Some(e)
      {
        ScanFinds(rows, Upper, e, id);
      }
    }
    if AllApart(rows, Lower) {
      forall e | e in rows && Covers(e, k, Lower)
        ensures Scan(rows, k, Lower) == Some(e)
      {
        ScanFinds(rows, Lower, e, k);
      }
    }
  }

  /** No ID is covered by two rows. */
  lemma {:induction false} AllApartMeans(s: seq<Extent>, side: Side)
    requires forall e | e in s :: e.count > 0
    ensures AllApart(s, side) <==> forall i, j, id: nat | 0 <= i < j < |s| && Covers(s[i], id, side) :: !Covers(s[j], id, side)
  {
    if AllApart(s, side) {
      forall i, j, id: nat | 0 <= i < j < |s| && Covers(s[i], id, side)
        ensures !Covers(s[j], id, side)
      {
        ApartAt(s, side, i, j);
      }
    }
    if forall i, j, id: nat | 0 <= i < j < |s| && Covers(s[i], id, side) :: !Covers(s[j], id, side) {
      NoSharedIdIsApart(s, side);
    }
  }

  lemma {:induction false} NoSharedIdIsApart(s: seq<Extent>, side: Side)
    requires forall e | e in s :: e.count > 0
    requires forall i, j, id: nat | 0 <= i < j < |s| && Covers(s[i], id, side) :: !Covers(s[j], id, side)
    ensures AllApart(s, side)
  {
    if s != [] {
      var t := s[1..];
      forall i, j, id: nat | 0 <= i < j < |t| && Covers(t[i], id, side)
        ensures !Covers(t[j], id, side)
      {
        assert t[i] == s[i + 1] && t[j] == s[j + 1];
      }
      NoSharedIdIsApart(t, side);
      forall y | y in t
        ensures Apart(s[0], y, side)
      {
        var k :| 0 <= k < |t| && t[k] == y;
        assert y == s[k + 1];
        var a, b := Start(s[0], side), Start(y, side);
        assert Covers(s[0], a, side) && Covers(y, b, side);
        assert !Covers(y, a, side);
      }
    }
  }

  /** What input is accepted, in terms of IDs: between 1 and 340 rows, none empty or past the last valid
      ID on either side, and no ID named twice on either side. */
  lemma WellFormedMeans(rows: seq<Extent>)
    ensures WellFormed(rows) <==>
      && 1 <= |rows| <= 340
      && (forall e | e in rows :: e.count > 0 && e.first + e.count <= 0xFFFF_FFFF && e.lowerFirst + e.count <= 0xFFFF_FFFF)
      && (forall i, j, id: nat | 0 <= i < j < |rows| && Covers(rows[i], id, Upper) :: !Covers(rows[j], id, Upper))
      && (forall i, j, id: nat | 0 <= i < j < |rows| && Covers(rows[i], id, Lower) :: !Covers(rows[j], id, Lower))
  {
    hide AllApart;
    if forall e | e in rows :: e.count > 0 {
      AllApartMeans(rows, Upper);
      AllApartMeans(rows, Lower);
    }
  }

  /** The two lookups are inverse partial injections, and neither yields the all-ones ID. */
  lemma LookupsAreInverse(m: IdMap, id: nat, k: nat)
    requires ValidMap(m)
    ensures Translate(m.forward, id, Upper) == Some(k) <==> Translate(m.reverse, k, Lower) == Some(id)
    ensures Translate(m.forward, id, Upper) == Some(k) ==> id < INVALID_ID && k < INVALID_ID
  {
    if Translate(m.forward, id, Upper) == Some(k) {
      ScanFinds(m.reverse, Lower, Scan(m.forward, id, Upper).value, k);
    }
    if Translate(m.reverse, k, Lower) == Some(id) {
      ScanFinds(m.forward, Upper, Scan(m.reverse, k, Lower).value, id);
    }
  }

  // ---------- Ranges ----------

  /** Where a whole range goes when one row holds all of it. */
  function RangeTarget(rows: seq<Extent>, first: nat, count: nat): Option<nat> {
    match Scan(rows, first, Upper)
    case None => None
    case Some(e) => if first + count <= End(e, Upper) then Translate(rows, first, Upper) else None
  }

  /** A range has a target iff it lies inside one row. */
  lemma TargetMeansInsideOneRow(m: IdMap, first: nat, count: nat)
    requires ValidMap(m) && count > 0
    ensures RangeTarget(m.forward, first, count).Some? <==>
            exists e :: e in m.forward && e.first <= first && first + count <= e.first + e.count
  {
    if e :| e in m.forward && e.first <= first && first + count <= e.first + e.count {
      ScanFinds(m.forward, Upper, e, first);
    }
  }

  method MapRangeToKernel(m: IdMap, first: nat, count: nat) returns (r: Option<nat>)
    requires ValidMap(m)
    ensures r == if ValidRangeEnd(first, count).None? then None else RangeTarget(m.forward, first, count)
  {
    var end := ValidRangeEnd(first, count);
    if end.None? {
      return None;
    }
    var extent := FindExtent(m.forward, first, Upper);
    if extent.None? || end.value > End(extent.value, Upper) {
      return None;
    }
    var k := extent.value.lowerFirst + (first - extent.value.first);
    if k > U32_MAX {
      assert false;
    }
    return Some(k);
  }

  // ---------- Construction ----------

  /** Sorts and compares neighbours, on one side. */
  method CheckApart(rows: seq<Extent>, side: Side) returns (ok: bool)
    requires forall e | e in rows :: e.count > 0
    ensures ok <==> AllApart(rows, side)
  {
    hide Sort, AllApart, Sorted;
    var ordered := Sort(rows, side);
    SortFacts(rows, side);
    SortApart(rows, side, side);
    NeighboursSuffice(ordered, side);
    var i := 1;
    while i < |ordered|
      invariant 1 <= i
      invariant forall j | 0 < j < i && j < |ordered| :: InOrder(ordered, side, j)
    {
      if End(ordered[i - 1], side) > Start(ordered[i], side) {
        assert !InOrder(ordered, side, i);
        return false;
      }
      i := i + 1;
    }
    return true;
  }

  /** Accepts exactly the well-formed row lists. */
  method ValidateInput(input: seq<Extent>) returns (r: Result<(), CredError>)
    ensures r == if WellFormed(input) then Ok(()) else Err(InvalidInput)
  {
    if input == [] || |input| > ID_MAP_MAX_EXTENTS {
      return Err(InvalidInput);
    }
    for i := 0 to |input|
      invariant forall j | 0 <= j < i :: RangesValid(input[j])
    {
      if ValidRangeEnd(input[i].first, input[i].count).None? || ValidRangeEnd(input[i].lowerFirst, input[i].count).None? {
        assert input[i] in input;
        return Err(InvalidInput);
      }
    }
    var upper := CheckApart(input, Upper);
    if !upper {
      return Err(InvalidInput);
    }
    var lower := CheckApart(input, Lower);
    return if lower then Ok(()) else Err(InvalidInput);
  }

  method TryFromKernelExtents(rows: seq<Extent>) returns (r: Result<IdMap, CredError>)
    ensures r.Ok? <==> WellFormed(rows)
    ensures r.Err? ==> r.error == InvalidInput
    ensures r.Ok? ==> ValidMap(r.value) && r.value.forward == Sort(rows, Upper)
  {
    var checked := ValidateInput(rows);
    if checked.Err? {
      return Err(InvalidInput);
    }
    var forward := Sort(rows, Upper);
    var reverse := Sort(forward, Lower);
    SortFacts(rows, Upper);
    SortFacts(forward, Lower);
    SortApart(rows, Upper, Upper);
    SortApart(rows, Lower, Upper);
    SortApart(forward, Lower, Lower);
    return Ok(IdMap(forward, reverse));
  }

  /** The initial namespace maps every valid ID to itself. */
  method TryIdentity() returns (r: Result<IdMap, CredError>)
    ensures r.Ok? && ValidMap(r.value)
    ensures forall id: nat :: Translate(r.value.forward, id, Upper) == if id < INVALID_ID then Some(id) else None
  {
    hide ValidMap, Sort, Translate, WellFormed;
    var all := [Extent(0, 0, INVALID_ID)];
    OneRow(all[0]);
    r := TryFromKernelExtents(all);
  }

  lemma OneRow(e: Extent)
    requires RangesValid(e)
    ensures WellFormed([e]) && Sort([e], Upper) == [e]
    ensures forall id: nat :: Translate([e], id, Upper) == if Covers(e, id, Upper) then Some(e.lowerFirst + (id - e.first)) else None
  {
  }

  // ---------- Composition through the parent ----------

  /** `x` is the row `r` with its parent-visible range resolved through `parent`. */
  predicate Resolves(parent: seq<Extent>, r: Extent, x: Extent) {
    x.first == r.first && x.count == r.count && RangeTarget(parent, r.lowerFirst, r.count) == Some(x.lowerFirst)
  }

  predicate AllResolve(parent: seq<Extent>, rows: seq<Extent>, xs: seq<Extent>) {
    |rows| == |xs| && forall i | 0 <= i < |rows| :: Resolves(parent, rows[i], xs[i])
  }

  /** Some row does not fit inside one parent extent. */
  predicate SomeOutside(parent: seq<Extent>, rows: seq<Extent>) {
    exists r | r in rows :: RangeTarget(parent, r.lowerFirst, r.count).None?
  }

  /** Two rows with different parent ranges resolve to different kernel ranges. */
  lemma ResolvedStayApart(parent: IdMap, r: Extent, s: Extent, x: Extent, y: Extent)
    requires ValidMap(parent) && Resolves(parent.forward, r, x) && Resolves(parent.forward, s, y)
    requires RangesValid(r) && RangesValid(s) && Apart(r, s, Lower)
    ensures RangesValid(x) && RangesValid(y) && Apart(x, y, Lower)
  {
    var p := ParentRow(parent, r, x);
    var q := ParentRow(parent, s, y);
    hide ValidMap, Resolves;
    if p != q {
      RowsApart(parent, p, q);
    }
  }

  /** A resolved row lies at the same offset in one parent row. */
  lemma ParentRow(parent: IdMap, r: Extent, x: Extent) returns (p: Extent)
    requires ValidMap(parent) && Resolves(parent.forward, r, x) && RangesValid(r)
    ensures p in parent.forward && RangesValid(p) && RangesValid(x) && x.count == r.count
    ensures p.first <= r.lowerFirst && r.lowerFirst + r.count <= p.first + p.count
    ensures x.lowerFirst == p.lowerFirst + (r.lowerFirst - p.first)
  {
    hide AllApart;
    p := Scan(parent.forward, r.lowerFirst, Upper).value;
  }

  lemma RowsApart(parent: IdMap, p: Extent, q: Extent)
    requires ValidMap(parent) && p in parent.forward && q in parent.forward && p != q
    ensures Apart(p, q, Lower)
  {
    hide AllApart;
    var i :| 0 <= i < |parent.forward| && parent.forward[i] == p;
    var j :| 0 <= j < |parent.forward| && parent.forward[j] == q;
    ApartAt(parent.forward, Lower, if i < j then i else j, if i < j then j else i);
  }

  /** Resolved rows never fail re-validation. */
  lemma {:induction false} ResolvedApart(parent: IdMap, rows: seq<Extent>, xs: seq<Extent>, side: Side)
    requires ValidMap(parent) && AllResolve(parent.forward, rows, xs)
    requires (forall e | e in rows :: RangesValid(e)) && AllApart(rows, side)
    ensures (forall e | e in xs :: RangesValid(e)) && AllApart(xs, side)
  {
    hide ValidMap, RangeTarget, RangesValid;
    if rows != [] {
      assert Resolves(parent.forward, rows[0], xs[0]);
      assert forall i | 0 <= i < |rows[1..]| :: rows[1..][i] == rows[i + 1] && xs[1..][i] == xs[i + 1];
      ResolvedApart(parent, rows[1..], xs[1..], side);
      ResolvedStaysValid(parent, rows[0], xs[0]);
      forall y | y in xs[1..]
        ensures Apart(xs[0], y, side)
      {
        var k :| 0 <= k < |xs[1..]| && xs[1..][k] == y;
        assert rows[k + 1] in rows[1..];
        assert Resolves(parent.forward, rows[k + 1], xs[k + 1]);
        if side == Lower {
          ResolvedStayApart(parent, rows[0], rows[k + 1], xs[0], y);
        }
      }
      assert xs == [xs[0]] + xs[1..];
    }
  }

  lemma ResolvedStaysValid(parent: IdMap, r: Extent, x: Extent)
    requires ValidMap(parent) && Resolves(parent.forward, r, x) && RangesValid(r)
    ensures RangesValid(x)
  {
  }

  /** Child after parent: what the built map must compute. */
  function Compose(rows: seq<Extent>, parent: seq<Extent>, id: nat): Option<nat> {
    match Translate(rows, id, Upper)
    case None => None
    case Some(l) => Translate(parent, l, Upper)
  }

  lemma RowComposes(parent: IdMap, r: Extent, x: Extent, id: nat)
    requires ValidMap(parent) && Resolves(parent.forward, r, x) && Covers(r, id, Upper)
    ensures Covers(x, id, Upper)
    ensures Translate(parent.forward, r.lowerFirst + (id - r.first), Upper) == Some(x.lowerFirst + (id - x.first))
  {
    ScanFinds(parent.forward, Upper, Scan(parent.forward, r.lowerFirst, Upper).value, r.lowerFirst + (id - r.first));
  }

  lemma {:induction false} ResolvedComposes(parent: IdMap, rows: seq<Extent>, xs: seq<Extent>, id: nat)
    requires ValidMap(parent) && AllResolve(parent.forward, rows, xs)
    ensures Translate(xs, id, Upper) == Compose(rows, parent.forward, id)
  {
    hide ValidMap, RangeTarget;
    if rows != [] {
      assert Resolves(parent.forward, rows[0], xs[0]);
      if Covers(rows[0], id, Upper) {
        RowComposes(parent, rows[0], xs[0], id);
      } else {
        assert forall i | 0 <= i < |rows[1..]| :: rows[1..][i] == rows[i + 1] && xs[1..][i] == xs[i + 1];
        ResolvedComposes(parent, rows[1..], xs[1..], id);
      }
    }
  }

  /** The built index computes the composition. */
  lemma BuiltComposes(parent: IdMap, rows: seq<Extent>, xs: seq<Extent>, id: nat)
    requires ValidMap(parent) && AllResolve(parent.forward, rows, xs) && AllApart(xs, Upper)
    ensures Translate(Sort(xs, Upper), id, Upper) == Compose(rows, parent.forward, id)
  {
    hide ValidMap, AllResolve, AllApart, Sort, Compose;
    SortFacts(xs, Upper);
    ScanIgnoresOrder(Sort(xs, Upper), xs, Upper, id);
    ResolvedComposes(parent, rows, xs, id);
  }

  /** Resolved rows never fail re-validation. */
  lemma ResolvedWellFormed(parent: IdMap, rows: seq<Extent>, xs: seq<Extent>)
    requires ValidMap(parent) && WellFormed(rows) && AllResolve(parent.forward, rows, xs)
    ensures WellFormed(xs) && !SomeOutside(parent.forward, rows)
  {
    ResolvedApart(parent, rows, xs, Upper);
    ResolvedApart(parent, rows, xs, Lower);
    forall e | e in rows
      ensures RangeTarget(parent.forward, e.lowerFirst, e.count).Some?
    {
      var j :| 0 <= j < |rows| && rows[j] == e;
      assert Resolves(parent.forward, rows[j], xs[j]);
    }
  }

  /** Builds a child map. Malformed rows are invalid input; a well-formed row outside the parent is
      not permitted; otherwise the map is the composition of the rows with the parent. */
  method TryFromParent(input: seq<Extent>, parent: IdMap) returns (r: Result<IdMap, CredError>, ghost resolved: seq<Extent>)
    requires ValidMap(parent)
    ensures r == Err(InvalidInput) <==> !WellFormed(input)
    ensures r == Err(NotPermitted) <==> WellFormed(input) && SomeOutside(parent.forward, input)
    ensures r.Ok? ==> ValidMap(r.value) && forall id :: Translate(r.value.forward, id, Upper) == Compose(input, parent.forward, id)
    ensures r.Ok? ==> AllResolve(parent.forward, input, resolved) && r.value.forward == Sort(resolved, Upper)
  {
    hide ValidMap, Sort, AllApart, Translate, Compose, RangeTarget;
    resolved := [];
    var checked := ValidateInput(input);
    if checked.Err? {
      return Err(InvalidInput), resolved;
    }
    var rows: seq<Extent> := [];
    for i := 0 to |input|
      invariant AllResolve(parent.forward, input[..i], rows)
    {
      assert input[i] in input;
      var lower := MapRangeToKernel(parent, input[i].lowerFirst, input[i].count);
      if lower.None? {
        return Err(NotPermitted), resolved;
      }
      rows := rows + [Extent(input[i].first, lower.value, input[i].count)];
      assert input[..i + 1] == input[..i] + [input[i]];
    }
    assert input[..|input|] == input;
    resolved := rows;
    ResolvedWellFormed(parent, input, rows);
    r := TryFromKernelExtents(rows);
    forall id
      ensures Translate(r.value.forward, id, Upper) == Compose(input, parent.forward, id)
    {
      BuiltComposes(parent, input, rows, id);
    }
  }

  // ---------- Reading a map back ----------

  /** The row a reader sees: only the first lower ID is mapped, the all-ones ID if it is unmapped. */
  function Shown(e: Extent, reader: IdMap): Extent {
    e.(lowerFirst := match Translate(reader.reverse, e.lowerFirst, Lower) case Some(id) => id case None => INVALID_ID)
  }

  method ExtentsForLower(m: IdMap, reader: IdMap) returns (rows: seq<Extent>)
    requires ValidMap(reader)
    ensures |rows| == |m.forward| && forall i | 0 <= i < |rows| :: rows[i] == Shown(m.forward[i], reader)
    ensures forall i | 0 <= i < |rows| ::
      && rows[i].first == m.forward[i].first && rows[i].count == m.forward[i].count
      && (Translate(reader.reverse, m.forward[i].lowerFirst, Lower) == Some(rows[i].lowerFirst)
          || (Translate(reader.reverse, m.forward[i].lowerFirst, Lower) == None && rows[i].lowerFirst == 0xFFFF_FFFF))
  {
    rows := [];
    for i := 0 to |m.forward|
      invariant |rows| == i && forall j | 0 <= j < i :: rows[j] == Shown(m.forward[j], reader)
    {
      var id := MapIdFromKernel(reader, m.forward[i].lowerFirst);
      rows := rows + [m.forward[i].(lowerFirst := if id.Some? then id.value else INVALID_ID)];
    }
  }

  lemma ShownUndoesResolve(parent: IdMap, r: Extent, x: Extent)
    requires ValidMap(parent) && Resolves(parent.forward, r, x)
    ensures Shown(x, parent) == r
  {
    LookupsAreInverse(parent, r.lowerFirst, x.lowerFirst);
  }

  lemma {:induction false} InsertParallel(parent: seq<Extent>, r: Extent, x: Extent, rows: seq<Extent>, xs: seq<Extent>)
    requires Resolves(parent, r, x) && AllResolve(parent, rows, xs)
    ensures AllResolve(parent, Insert(r, rows, Upper), Insert(x, xs, Upper))
  {
    hide RangeTarget;
    if rows != [] {
      assert Resolves(parent, rows[0], xs[0]);
      if r.first > rows[0].first {
        assert forall i | 0 <= i < |rows[1..]| :: rows[1..][i] == rows[i + 1] && xs[1..][i] == xs[i + 1];
        InsertParallel(parent, r, x, rows[1..], xs[1..]);
      }
    }
  }

  lemma {:induction false} SortParallel(parent: seq<Extent>, rows: seq<Extent>, xs: seq<Extent>)
    requires AllResolve(parent, rows, xs)
    ensures AllResolve(parent, Sort(rows, Upper), Sort(xs, Upper))
  {
    if rows != [] {
      assert Resolves(parent, rows[0], xs[0]);
      assert forall i | 0 <= i < |rows[1..]| :: rows[1..][i] == rows[i + 1] && xs[1..][i] == xs[i + 1];
      SortParallel(parent, rows[1..], xs[1..]);
      InsertParallel(parent, rows[0], xs[0], Sort(rows[1..], Upper), Sort(xs[1..], Upper));
    }
  }

  /** Round trip: a child map shown to its parent gives back the rows it was built from, sorted by `first`. */
  lemma ShowsInputSorted(parent: IdMap, input: seq<Extent>, resolved: seq<Extent>, shown: seq<Extent>)
    requires ValidMap(parent) && AllResolve(parent.forward, input, resolved)
    requires |shown| == |Sort(resolved, Upper)| && forall i | 0 <= i < |shown| :: shown[i] == Shown(Sort(resolved, Upper)[i], parent)
    ensures shown == Sort(input, Upper)
  {
    hide ValidMap, Sort, Shown;
    SortParallel(parent.forward, input, resolved);
    forall i | 0 <= i < |shown|
      ensures shown[i] == Sort(input, Upper)[i]
    {
      ShownUndoesResolve(parent, Sort(input, Upper)[i], Sort(resolved, Upper)[i]);
    }
  }
}
