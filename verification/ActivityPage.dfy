/** Recent Activity: a page assembled from bounded per-status slices is the page of the whole collection, and the
    order shown is a stable sort of it. */
module ActivityPage {
  import opened Support

  // ---- a stable sort ------------------------------------------------------------------------------

  ghost predicate Ascending<T(!new)>(xs: seq<T>, key: T -> int) {
    forall i, j | 0 <= i < j < |xs| :: key(xs[i]) <= key(xs[j])
  }

  function InsertBy<T>(x: T, xs: seq<T>, key: T -> int): seq<T> {
    if xs == [] || key(x) <= key(xs[0]) then [x] + xs else [xs[0]] + InsertBy(x, xs[1..], key)
  }

  /** Python's `sorted`: by key, equal keys in the order they came. */
  function SortBy<T>(xs: seq<T>, key: T -> int): seq<T> {
    if xs == [] then [] else InsertBy(xs[0], SortBy(xs[1..], key), key)
  }

  /** The elements of one key, in order. */
  function WithKey<T>(xs: seq<T>, key: T -> int, k: int): seq<T> {
    if xs == [] then [] else (if key(xs[0]) == k then [xs[0]] else []) + WithKey(xs[1..], key, k)
  }

  lemma {:induction false} InsertByElements<T(!new)>(x: T, xs: seq<T>, key: T -> int)
    ensures multiset(InsertBy(x, xs, key)) == multiset(xs) + multiset{x}
  {
    if xs != [] && key(x) > key(xs[0]) {
      InsertByElements(x, xs[1..], key);
      assert xs == [xs[0]] + xs[1..];
    }
  }

  lemma {:induction false} InsertByAscending<T(!new)>(x: T, xs: seq<T>, key: T -> int)
    requires Ascending(xs, key)
    ensures Ascending(InsertBy(x, xs, key), key)
  {
    if xs != [] && key(x) > key(xs[0]) {
      var rest := InsertBy(x, xs[1..], key);
      InsertByAscending(x, xs[1..], key);
      InsertByElements(x, xs[1..], key);
      forall j | 0 <= j < |rest| ensures key(xs[0]) <= key(rest[j]) {
        assert rest[j] in multiset(rest);
        assert rest[j] == x || rest[j] in xs[1..];
      }
    }
  }

  lemma WithKeyFirst<T(!new)>(x: T, xs: seq<T>, key: T -> int, k: int)
    ensures WithKey([x] + xs, key, k) == (if key(x) == k then [x] else []) + WithKey(xs, key, k)
  {
    assert ([x] + xs)[1..] == xs;
  }

  lemma {:induction false} InsertByStable<T(!new)>(x: T, xs: seq<T>, key: T -> int, k: int)
    ensures WithKey(InsertBy(x, xs, key), key, k) == (if key(x) == k then [x] else []) + WithKey(xs, key, k)
  {
    if xs == [] || key(x) <= key(xs[0]) {
      WithKeyFirst(x, xs, key, k);
    } else {
      InsertByStable(x, xs[1..], key, k);
      WithKeyFirst(xs[0], InsertBy(x, xs[1..], key), key, k);
    }
  }

  /** The sort orders by key, loses and invents nothing, and keeps the order within every key. */
  lemma {:induction false} SortByStable<T(!new)>(xs: seq<T>, key: T -> int, k: int)
    ensures Ascending(SortBy(xs, key), key)
    ensures multiset(SortBy(xs, key)) == multiset(xs)
    ensures WithKey(SortBy(xs, key), key, k) == WithKey(xs, key, k)
  {
    if xs != [] {
      hide InsertBy;
      hide Ascending;
      SortByStable(xs[1..], key, k);
      WithKeyFirst(xs[0], xs[1..], key, k);
      InsertByElements(xs[0], SortBy(xs[1..], key), key);
      InsertByAscending(xs[0], SortBy(xs[1..], key), key);
      InsertByStable(xs[0], SortBy(xs[1..], key), key, k);
      assert xs == [xs[0]] + xs[1..];
    }
  }

  // ---- the newest of many slices ------------------------------------------------------------------

  /** One fetched pair: a transfer and its admission time. */
  datatype Entry = Entry(id: nat, created: int)

  function IdsOf(pairs: seq<Entry>): set<nat> {
    set e | e in pairs :: e.id
  }

  ghost predicate Newest(pairs: seq<Entry>, id: nat, created: int) {
    && (exists e | e in pairs :: e.id == id && e.created == created)
    && (forall e | e in pairs && e.id == id :: e.created <= created)
  }

  /** The newest time of every id. */
  function LatestTimes(pairs: seq<Entry>): map<nat, int> {
    if pairs == [] then map[]
    else
      var e, times := pairs[|pairs| - 1], LatestTimes(pairs[..|pairs| - 1]);
      if e.id !in times || e.created > times[e.id] then times[e.id := e.created] else times
  }

  lemma {:induction false} LatestAreNewest(pairs: seq<Entry>)
    ensures LatestTimes(pairs).Keys == IdsOf(pairs)
    ensures forall id | id in LatestTimes(pairs) :: Newest(pairs, id, LatestTimes(pairs)[id])
  {
    if pairs != [] {
      var rest, e := pairs[..|pairs| - 1], pairs[|pairs| - 1];
      assert pairs == rest + [e];
      LatestAreNewest(rest);
      var before, after := LatestTimes(rest), LatestTimes(pairs);
      assert IdsOf(pairs) == IdsOf(rest) + {e.id};
      forall id | id in after ensures Newest(pairs, id, after[id]) {
        NewestGrows(rest, e, id, if id in before then Some(before[id]) else None, after[id]);
      }
    }
  }

  /** `ids` are the `limit` newest of `universe`, newest first. */
  ghost predicate NewestFirst(ids: seq<nat>, universe: set<nat>, created: map<nat, int>, limit: nat) {
    && universe <= created.Keys && Distinct(ids) && Elements(ids) <= universe
    && (|ids| == if |universe| < limit then |universe| else limit)
    && (forall i, j | 0 <= i < j < |ids| :: created[ids[i]] >= created[ids[j]])
    && (forall x, y | x in universe && x !in ids && y in ids :: created[x] <= created[y])
  }

  /** Newest first, as a key to sort by. */
  function Recency(created: map<nat, int>): nat -> int {
    (id: nat) => if id in created then -created[id] else 0
  }

  lemma {:induction false} DistinctSize(ids: seq<nat>)
    requires Distinct(ids)
    ensures |Elements(ids)| == |ids|
  {
    if ids != [] {
      DistinctSize(ids[1..]);
      assert Elements(ids) == {ids[0]} + Elements(ids[1..]);
    }
  }

  lemma {:induction false} DistinctMultiset(ids: seq<nat>, other: seq<nat>)
    requires Distinct(ids) && multiset(other) == multiset(ids)
    ensures Distinct(other) && Elements(other) == Elements(ids)
  {
    forall x ensures x in other <==> x in ids {
      assert x in other <==> x in multiset(other);
      assert x in ids <==> x in multiset(ids);
    }
    forall i, j | 0 <= i < j < |other| ensures other[i] != other[j] {
      if other[i] == other[j] {
        Twice(other, i, j);
        OnceEach(ids, other[i]);
      }
    }
  }

  lemma Twice(xs: seq<nat>, i: nat, j: nat)
    requires i < j < |xs| && xs[i] == xs[j]
    ensures multiset(xs)[xs[i]] >= 2
  {
    assert xs == xs[..i] + [xs[i]] + xs[i + 1..j] + [xs[j]] + xs[j + 1..];
  }

  lemma {:induction false} OnceEach(ids: seq<nat>, x: nat)
    requires Distinct(ids)
    ensures multiset(ids)[x] <= 1
  {
    if ids != [] {
      OnceEach(ids[1..], x);
      assert ids == [ids[0]] + ids[1..];
      assert x == ids[0] ==> x !in ids[1..];
    }
  }

  /** The newest time of every id, and the ids in the order they first come. */
  method Latest(pairs: seq<Entry>) returns (byId: map<nat, int>, order: seq<nat>)
    ensures byId == LatestTimes(pairs) && byId.Keys == Elements(order) && Distinct(order)
  {
    byId, order := map[], [];
    for k := 0 to |pairs|
      invariant byId == LatestTimes(pairs[..k]) && byId.Keys == Elements(order) && Distinct(order)
    {
      var e := pairs[k];
      assert pairs[..k + 1][..k] == pairs[..k];
      if e.id !in byId {
        assert e.id !in Elements(order);
        assert Elements(order + [e.id]) == Elements(order) + {e.id};
        order := order + [e.id];
      }
      if e.id !in byId || e.created > byId[e.id] {
        byId := byId[e.id := e.created];
      }
    }
    assert pairs[..|pairs|] == pairs;
  }

  /** Merges slices: each id once, at its newest time, newest first, at most `limit` of them. */
  method NewestFirstUniqueIds(pairs: seq<Entry>, limit: nat) returns (ids: seq<nat>)
    ensures NewestFirst(ids, IdsOf(pairs), LatestTimes(pairs), limit)
  {
    hide Newest;
    hide Distinct;
    hide NewestFirst;
    hide Ascending;
    LatestAreNewest(pairs);
    var byId, order := Latest(pairs);
    var ordered := SortBy(order, Recency(byId));
    SortByStable(order, Recency(byId), 0);
    DistinctMultiset(order, ordered);
    DistinctSize(ordered);
    CutNewest(ordered, byId, limit);
    ids := if |ordered| <= limit then ordered else ordered[..limit];
  }

  lemma NewestGrows(pairs: seq<Entry>, e: Entry, id: nat, before: Option<int>, after: int)
    requires before.Some? ==> Newest(pairs, id, before.value)
    requires before.None? ==> id !in IdsOf(pairs) && e.id == id
    requires after == if e.id == id && (before.None? || e.created > before.value) then e.created else before.GetOr(0)
    ensures Newest(pairs + [e], id, after)
  {
    assert e in pairs + [e];
    if before.Some? {
      var held :| held in pairs && held.id == id && held.created == before.value;
      assert held in pairs + [e];
    } else {
      forall x | x in pairs ensures x.id != id {
        assert x.id in IdsOf(pairs);
      }
    }
  }

  /** The first `limit` of everything, newest first, are the newest. */
  lemma CutNewest(ordered: seq<nat>, created: map<nat, int>, limit: nat)
    requires Distinct(ordered) && Elements(ordered) == created.Keys && |created.Keys| == |ordered|
    requires Ascending(ordered, Recency(created))
    ensures NewestFirst(if |ordered| <= limit then ordered else ordered[..limit], created.Keys, created, limit)
  {
    hide Ascending, Recency;
    var n := if |ordered| <= limit then |ordered| else limit;
    var ids := ordered[..n];
    assert ids == if |ordered| <= limit then ordered else ordered[..limit];
    forall i, j | 0 <= i < j < n ensures ids[i] in created && ids[j] in created && created[ids[i]] >= created[ids[j]] {
      OrderedAt(ordered, created, i, j);
    }
    forall x | x in ids ensures x in created.Keys {
      assert x in Elements(ordered);
    }
    forall x, y | x in created && x !in ids && y in ids ensures created[x] <= created[y] {
      CutBelow(ordered, created, n, x, y);
    }
  }

  lemma CutBelow(ordered: seq<nat>, created: map<nat, int>, n: nat, x: nat, y: nat)
    requires Elements(ordered) == created.Keys && Ascending(ordered, Recency(created)) && n <= |ordered|
    requires x in created && x !in ordered[..n] && y in ordered[..n]
    ensures y in created && created[x] <= created[y]
  {
    hide Ascending, Recency;
    assert x in Elements(ordered);
    forall p | 0 <= p < n ensures ordered[p] in ordered[..n] {
      assert ordered[..n][p] == ordered[p];
    }
    var i :| 0 <= i < |ordered| && ordered[i] == x;
    var j :| 0 <= j < n && ordered[..n][j] == y;
    OrderedAt(ordered, created, j, i);
  }

  lemma OrderedAt(ordered: seq<nat>, created: map<nat, int>, i: nat, j: nat)
    requires Elements(ordered) == created.Keys && Ascending(ordered, Recency(created)) && i < j < |ordered|
    ensures ordered[i] in created && ordered[j] in created && created[ordered[i]] >= created[ordered[j]]
  {
    assert ordered[i] in Elements(ordered) && ordered[j] in Elements(ordered);
    assert Recency(created)(ordered[i]) <= Recency(created)(ordered[j]);
  }

  // ---- the page of the whole collection -----------------------------------------------------------

  datatype RawStatus =
    | Pending | Processing | InputRequired | Ready | Queued | Downloading | Paused | Verifying | Extracting
    | Completed | Error | Failed | Lost | Cancelled | Deleted | Consolidated

  const LIVE: seq<RawStatus> :=
    [Pending, Processing, InputRequired, Ready, Queued, Downloading, Paused, Verifying, Extracting]
  const SETTLED: seq<RawStatus> := [Completed, Error, Failed, Lost, Cancelled, Deleted, Consolidated]

  datatype Listed = Listed(status: RawStatus, created: int)
  /** The transfers every other filter admits, in one snapshot. */
  type Table = map<nat, Listed>

  /** Any slice the database may answer: so many transfers of a status, by admission time, ties as it likes. */
  type Seek = (RawStatus, nat) -> seq<nat>

  ghost function Having(table: Table, statuses: seq<RawStatus>): set<nat> {
    set id | id in table && table[id].status in statuses
  }

  ghost function Created(table: Table): map<nat, int> {
    map id | id in table :: table[id].created
  }

  /** Every slice is the newest `limit` of its status, newest first. */
  ghost predicate Answers(seek: Seek, table: Table, statuses: seq<RawStatus>, limit: nat) {
    forall s | s in statuses :: NewestFirst(seek(s, limit), Having(table, [s]), Created(table), limit)
  }

  /** What the slices of `statuses` hold together. */
  function Gathered(seek: Seek, statuses: seq<RawStatus>, limit: nat): set<nat> {
    set s, id | s in statuses && id in seek(s, limit) :: id
  }

  /** One slice per status, one after the other. */
  method BoundedStatusCandidates(table: Table, seek: Seek, statuses: seq<RawStatus>, limit: nat) returns (pairs: seq<Entry>)
    requires Answers(seek, table, statuses, limit)
    ensures IdsOf(pairs) == Gathered(seek, statuses, limit) && IdsOf(pairs) <= table.Keys
    ensures forall e | e in pairs :: e.id in table && e.created == table[e.id].created
  {
    pairs := [];
    for k := 0 to |statuses|
      invariant IdsOf(pairs) == Gathered(seek, statuses[..k], limit)
      invariant forall e | e in pairs :: e.id in table && e.created == table[e.id].created
    {
      var found := seek(statuses[k], limit);
      assert NewestFirst(found, Having(table, [statuses[k]]), Created(table), limit);
      forall i | 0 <= i < |found| ensures found[i] in table {
        assert found[i] in Elements(found);
      }
      var slice := seq(|found|, i requires 0 <= i < |found| => Entry(found[i], table[found[i]].created));
      SliceIds(pairs, slice, found);
      assert statuses[..k + 1] == statuses[..k] + [statuses[k]];
      assert Gathered(seek, statuses[..k + 1], limit) == Gathered(seek, statuses[..k], limit) + Elements(found);
      pairs := pairs + slice;
    }
    assert statuses[..|statuses|] == statuses;
    forall id | id in IdsOf(pairs) ensures id in table {
      var e :| e in pairs && e.id == id;
    }
  }

  lemma SliceIds(pairs: seq<Entry>, slice: seq<Entry>, found: seq<nat>)
    requires |slice| == |found| && forall i | 0 <= i < |found| :: slice[i].id == found[i]
    ensures IdsOf(pairs + slice) == IdsOf(pairs) + Elements(found)
  {
    forall id ensures id in IdsOf(pairs + slice) <==> id in IdsOf(pairs) + Elements(found) {
      if id in Elements(found) {
        var i :| 0 <= i < |found| && found[i] == id;
        assert slice[i] in pairs + slice;
      }
      if id in IdsOf(pairs) {
        var e :| e in pairs && e.id == id;
        assert e in pairs + slice;
      }
    }
  }

  /** A slice that left something out is full. */
  lemma FullSlice(seek: Seek, table: Table, statuses: seq<RawStatus>, limit: nat, x: nat)
    requires Answers(seek, table, statuses, limit)
    requires x in Having(table, statuses) && x !in Gathered(seek, statuses, limit)
    ensures var slice := seek(table[x].status, limit);
            && Elements(slice) <= Gathered(seek, statuses, limit) && |Elements(slice)| == limit
            && forall y | y in slice :: y in table && table[x].created <= table[y].created
  {
    var s := table[x].status;
    var slice, universe := seek(s, limit), Having(table, [s]);
    assert NewestFirst(slice, universe, Created(table), limit);
    DistinctSize(slice);
    assert x !in Elements(slice);
    assert Elements(slice) <= universe - {x};
    SubsetSize(Elements(slice), universe - {x});
  }

  /** The newest of the slices are the newest of everything: no transfer a slice left out is newer than one taken. */
  lemma SlicesSuffice(seek: Seek, table: Table, statuses: seq<RawStatus>, limit: nat, ids: seq<nat>, latest: map<nat, int>)
    requires Answers(seek, table, statuses, limit)
    requires latest.Keys == Gathered(seek, statuses, limit)
    requires forall id | id in latest :: id in table && latest[id] == table[id].created
    requires NewestFirst(ids, latest.Keys, latest, limit)
    ensures NewestFirst(ids, Having(table, statuses), Created(table), limit)
  {
    var universe, gathered := Having(table, statuses), Gathered(seek, statuses, limit);
    forall id | id in gathered ensures id in universe {
      var s :| s in statuses && id in seek(s, limit);
      assert NewestFirst(seek(s, limit), Having(table, [s]), Created(table), limit);
      assert id in Elements(seek(s, limit));
    }
    SubsetSize(gathered, universe);
    DistinctSize(ids);
    if x :| x in universe && x !in gathered {
      FullSlice(seek, table, statuses, limit, x);
      SubsetSize(Elements(seek(table[x].status, limit)), gathered);
    } else {
      assert universe == gathered;
    }
    forall x, y | x in universe && x !in ids && y in ids ensures table[x].created <= table[y].created {
      assert y in Elements(ids);
      if x !in gathered {
        NoneNewerThanTaken(seek, table, statuses, limit, ids, latest, x, y);
      }
    }
    forall i, j | 0 <= i < j < |ids| ensures Created(table)[ids[i]] >= Created(table)[ids[j]] {
      assert ids[i] in Elements(ids) && ids[j] in Elements(ids);
    }
  }

  /** Were an omitted transfer newer than a taken one, its whole slice would be, and would fill the page alone. */
  lemma NoneNewerThanTaken(seek: Seek, table: Table, statuses: seq<RawStatus>, limit: nat, ids: seq<nat>, latest: map<nat, int>,
                           x: nat, y: nat)
    requires Answers(seek, table, statuses, limit)
    requires latest.Keys == Gathered(seek, statuses, limit)
    requires forall id | id in latest :: id in table && latest[id] == table[id].created
    requires NewestFirst(ids, latest.Keys, latest, limit)
    requires x in Having(table, statuses) && x !in Gathered(seek, statuses, limit) && y in Elements(ids)
    ensures table[x].created <= table[y].created
  {
    if table[x].created > table[y].created {
      FullSlice(seek, table, statuses, limit, x);
      var slice := Elements(seek(table[x].status, limit));
      forall z | z in slice ensures z in Elements(ids) - {y} {
        assert latest[y] < latest[z];
      }
      SubsetSize(slice, Elements(ids) - {y});
      DistinctSize(ids);
    }
  }

  /** The first `k` are the newest live transfers, at most `limit`; the rest are, in the room they leave, the newest
      settled ones. */
  ghost predicate SplitsAt(ids: seq<nat>, table: Table, limit: nat, k: nat) {
    && k <= |ids| && NewestFirst(ids[..k], Having(table, LIVE), Created(table), limit)
    && k <= limit && NewestFirst(ids[k..], Having(table, SETTLED), Created(table), limit - k)
  }

  /** The page of Recent Activity. */
  ghost predicate IsPage(ids: seq<nat>, table: Table, limit: nat) {
    exists k: nat :: SplitsAt(ids, table, limit, k)
  }

  method ActivityCohort(table: Table, seek: Seek, limit: nat) returns (ids: seq<nat>)
    requires forall n: nat :: Answers(seek, table, LIVE, n) && Answers(seek, table, SETTLED, n)
    ensures IsPage(ids, table, limit)
  {
    var livePairs := BoundedStatusCandidates(table, seek, LIVE, limit);
    var live := NewestFirstUniqueIds(livePairs, limit);
    LatestIsCreated(table, livePairs);
    SlicesSuffice(seek, table, LIVE, limit, live, LatestTimes(livePairs));
    var remaining := limit - |live|;
    var settled: seq<nat> := [];
    if remaining > 0 {
      var settledPairs := BoundedStatusCandidates(table, seek, SETTLED, remaining);
      settled := NewestFirstUniqueIds(settledPairs, remaining);
      LatestIsCreated(table, settledPairs);
      SlicesSuffice(seek, table, SETTLED, remaining, settled, LatestTimes(settledPairs));
    }
    ids := live + settled;
    assert ids[..|live|] == live && ids[|live|..] == settled;
    assert SplitsAt(ids, table, limit, |live|);
  }

  lemma LatestIsCreated(table: Table, pairs: seq<Entry>)
    requires forall e | e in pairs :: e.id in table && e.created == table[e.id].created
    ensures LatestTimes(pairs).Keys == IdsOf(pairs)
    ensures forall id | id in LatestTimes(pairs) :: id in table && LatestTimes(pairs)[id] == table[id].created
  {
    LatestAreNewest(pairs);
    forall id | id in LatestTimes(pairs) ensures id in table && LatestTimes(pairs)[id] == table[id].created {
      assert Newest(pairs, id, LatestTimes(pairs)[id]);
      var e :| e in pairs && e.id == id && e.created == LatestTimes(pairs)[id];
    }
  }

  lemma TwoParts(ids: seq<nat>, live: set<nat>, settled: set<nat>, created: map<nat, int>, limit: nat, k: nat)
    requires k <= |ids| && k <= limit && live !! settled
    requires NewestFirst(ids[..k], live, created, limit) && NewestFirst(ids[k..], settled, created, limit - k)
    ensures |ids| <= limit && Distinct(ids) && Elements(ids) == Elements(ids[..k]) + Elements(ids[k..])
  {
    var a, b := ids[..k], ids[k..];
    assert ids == a + b;
    forall i, j | 0 <= i < j < |ids| ensures ids[i] != ids[j] {
      if i < k && k <= j {
        assert a[i] in Elements(a) && b[j - k] in Elements(b);
      } else if i >= k {
        assert b[i - k] != b[j - k];
      } else {
        assert a[i] != a[j];
      }
    }
  }

  lemma TwoPartsWhole(ids: seq<nat>, live: set<nat>, settled: set<nat>, created: map<nat, int>, limit: nat, k: nat)
    requires k <= |ids| && k <= limit && live !! settled
    requires NewestFirst(ids[..k], live, created, limit) && NewestFirst(ids[k..], settled, created, limit - k)
    ensures |ids| < limit ==> Elements(ids[..k]) == live && Elements(ids[k..]) == settled
    ensures k < |ids| ==> Elements(ids[..k]) == live
  {
    DistinctSize(ids[..k]);
    DistinctSize(ids[k..]);
    WholeWhenSmall(Elements(ids[..k]), live);
    WholeWhenSmall(Elements(ids[k..]), settled);
  }

  /** A page is bounded and shows no transfer twice; below its bound it shows everything. */
  lemma PageBounded(ids: seq<nat>, table: Table, limit: nat)
    requires IsPage(ids, table, limit)
    ensures |ids| <= limit && Distinct(ids) && Elements(ids) <= table.Keys
    ensures |ids| < limit ==> Elements(ids) == table.Keys
  {
    var k: nat :| SplitsAt(ids, table, limit, k);
    LiveOrSettled(table);
    TwoParts(ids, Having(table, LIVE), Having(table, SETTLED), Created(table), limit, k);
    TwoPartsWhole(ids, Having(table, LIVE), Having(table, SETTLED), Created(table), limit, k);
  }

  /** No transfer left out is newer than a shown one of its kind, and a settled one is shown only when every live
      one is. */
  lemma PageNewest(ids: seq<nat>, table: Table, limit: nat, x: nat, y: nat)
    requires IsPage(ids, table, limit) && x in table && x !in ids && y in ids && y in table
    ensures (x in Having(table, LIVE) <==> y in Having(table, LIVE)) ==> table[x].created <= table[y].created
    ensures x in Having(table, LIVE) ==> y in Having(table, LIVE)
  {
    hide Having;
    var k: nat :| SplitsAt(ids, table, limit, k);
    LiveOrSettled(table);
    TwoParts(ids, Having(table, LIVE), Having(table, SETTLED), Created(table), limit, k);
    TwoPartsWhole(ids, Having(table, LIVE), Having(table, SETTLED), Created(table), limit, k);
    assert x !in Elements(ids) && y in Elements(ids);
    assert x in Elements(ids[..k]) || x !in ids[..k];
    assert x in Elements(ids[k..]) || x !in ids[k..];
  }

  lemma WholeWhenSmall(part: set<nat>, whole: set<nat>)
    requires part <= whole
    ensures |part| >= |whole| ==> part == whole
  {
    if part != whole {
      var x :| x in whole && x !in part;
      SubsetSize(part, whole - {x});
    }
  }

  lemma LiveIndex(s: RawStatus)
    requires !(s.Completed? || s.Error? || s.Failed? || s.Lost? || s.Cancelled? || s.Deleted? || s.Consolidated?)
    ensures s in LIVE
  {
    var i := match s
      case Pending => 0 case Processing => 1 case InputRequired => 2 case Ready => 3 case Queued => 4
      case Downloading => 5 case Paused => 6 case Verifying => 7 case _ => 8;
    assert LIVE[i] == s;
  }

  lemma SettledIndex(s: RawStatus)
    requires s.Completed? || s.Error? || s.Failed? || s.Lost? || s.Cancelled? || s.Deleted? || s.Consolidated?
    ensures s in SETTLED
  {
    var i := match s
      case Completed => 0 case Error => 1 case Failed => 2 case Lost => 3 case Cancelled => 4 case Deleted => 5 case _ => 6;
    assert SETTLED[i] == s;
  }

  /** Every transfer is live or settled, and none is both. */
  lemma LiveOrSettled(table: Table)
    ensures table.Keys == Having(table, LIVE) + Having(table, SETTLED)
    ensures Having(table, LIVE) !! Having(table, SETTLED)
  {
    forall id | id in table ensures table[id].status in LIVE || table[id].status in SETTLED {
      var s := table[id].status;
      if s.Completed? || s.Error? || s.Failed? || s.Lost? || s.Cancelled? || s.Deleted? || s.Consolidated? {
        SettledIndex(s);
      } else {
        LiveIndex(s);
      }
    }
    assert forall i, j | 0 <= i < |LIVE| && 0 <= j < |SETTLED| :: LIVE[i] != SETTLED[j];
  }

  // ---- the order shown ----------------------------------------------------------------------------

  datatype Item = Item(id: nat, presentation: string)

  /** 0 known live, 1 unrecognized, 2 known settled; `settled` and `live` are the presentation vocabulary. */
  function Tier(presentation: string, live: set<string>, settled: set<string>): int {
    if presentation in settled then 2 else if presentation in live then 0 else 1
  }

  function PriorityOrder(items: seq<Item>, live: set<string>, settled: set<string>): seq<Item> {
    SortBy(items, (item: Item) => Tier(item.presentation, live, settled))
  }

  /** The priority order shows the same items by tier, and inside a tier exactly as they came: nothing unrecognized
      or settled stands above anything known live. */
  lemma PriorityIsStable(items: seq<Item>, live: set<string>, settled: set<string>, tier: int)
    ensures var shown, key := PriorityOrder(items, live, settled), (item: Item) => Tier(item.presentation, live, settled);
            && multiset(shown) == multiset(items) && Ascending(shown, key)
            && WithKey(shown, key, tier) == WithKey(items, key, tier)
  {
    SortByStable(items, (item: Item) => Tier(item.presentation, live, settled), tier);
  }
}
