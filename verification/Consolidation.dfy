/** Consolidation summaries: what a submission's leaves add up to, the one safe form in which that is published, and
    the events that publish it once. */
module Consolidation {
  import opened Support

  // ---- leaves and their counts --------------------------------------------------------------------

  datatype RequestState = Skipped | Resolved | OtherState
  /** One leaf of a submission as the query joins it. `associated` and `canonical` are transfers elsewhere. */
  datatype Leaf = Leaf(
    state: RequestState, unverified: bool, associated: Option<int>, hasArtifact: bool, blocked: bool,
    mapped: bool, canonical: Option<int>, standby: bool)

  datatype Verdict = Ignored | Unsettled | Unverified | Matched(target: int) | Unmatched

  function Positive(value: Option<int>): Option<int> {
    if value.Some? && value.value > 0 then value else None
  }

  function Classify(leaf: Leaf): Verdict {
    if leaf.state.Skipped? then Ignored
    else if leaf.unverified && Positive(leaf.associated).Some? then Unverified
    else if !leaf.state.Resolved? || !leaf.hasArtifact then Unsettled
    else if leaf.blocked then Ignored
    else if leaf.mapped && Positive(leaf.canonical).Some? then Matched(leaf.canonical.value)
    else if leaf.standby then Unsettled
    else Unmatched
  }

  function CountMatched(leaves: seq<Leaf>): nat {
    if leaves == [] then 0
    else CountMatched(leaves[..|leaves| - 1]) + (if Classify(leaves[|leaves| - 1]).Matched? then 1 else 0)
  }

  function CountOf(leaves: seq<Leaf>, verdict: Verdict): nat {
    if leaves == [] then 0
    else CountOf(leaves[..|leaves| - 1], verdict) + (if Classify(leaves[|leaves| - 1]) == verdict then 1 else 0)
  }

  function Targets(leaves: seq<Leaf>): set<int> {
    set leaf | leaf in leaves && Classify(leaf).Matched? :: Classify(leaf).target
  }

  /** Every leaf is accounted for, once. */
  lemma {:induction false} LeavesConserved(leaves: seq<Leaf>)
    ensures CountMatched(leaves) + CountOf(leaves, Unmatched) + CountOf(leaves, Unverified)
          + CountOf(leaves, Ignored) + CountOf(leaves, Unsettled) == |leaves|
  {
    if leaves != [] {
      LeavesConserved(leaves[..|leaves| - 1]);
    }
  }

  /** There are never more targets than matches. */
  lemma {:induction false} TargetsBounded(leaves: seq<Leaf>)
    ensures |Targets(leaves)| <= CountMatched(leaves)
    ensures CountMatched(leaves) > 0 ==> Targets(leaves) != {}
    ensures forall t | t in Targets(leaves) :: t > 0
  {
    if leaves != [] {
      var rest, leaf := leaves[..|leaves| - 1], leaves[|leaves| - 1];
      TargetsBounded(rest);
      assert leaves == rest + [leaf];
      if Classify(leaf).Matched? {
        assert Targets(leaves) == Targets(rest) + {Classify(leaf).target};
      } else {
        assert Targets(leaves) == Targets(rest);
      }
    }
  }

  // ---- what a leaf is, by its own facts -------------------------------------------------------------

  /** The leaf ended as an association that was tried and not proven. */
  predicate Associated(leaf: Leaf) {
    leaf.state != Skipped && leaf.unverified && leaf.associated.Some? && leaf.associated.value > 0
  }

  /** The leaf is resolved to an artifact that still counts. */
  predicate Material(leaf: Leaf) {
    leaf.state == Resolved && !Associated(leaf) && leaf.hasArtifact && !leaf.blocked
  }

  /** Its artifact is durably part of one that transfer `t` owns. */
  predicate ProvenIn(leaf: Leaf, t: int) {
    Material(leaf) && leaf.mapped && leaf.canonical == Some(t) && t > 0
  }

  predicate Proven(leaf: Leaf) {
    leaf.canonical.Some? && ProvenIn(leaf, leaf.canonical.value)
  }

  /** It will be downloaded as usual. */
  predicate Remains(leaf: Leaf) {
    Material(leaf) && !Proven(leaf) && !leaf.standby
  }

  /** Nothing final can be said of it yet. */
  predicate Open(leaf: Leaf) {
    || (leaf.state != Skipped && !Associated(leaf) && (leaf.state != Resolved || !leaf.hasArtifact))
    || (Material(leaf) && !Proven(leaf) && leaf.standby)
  }

  lemma ClassifyMeans(leaf: Leaf)
    ensures Classify(leaf) == Unverified <==> Associated(leaf)
    ensures forall t :: Classify(leaf) == Matched(t) <==> ProvenIn(leaf, t)
    ensures Classify(leaf).Matched? <==> Proven(leaf)
    ensures Classify(leaf) == Unmatched <==> Remains(leaf)
    ensures Classify(leaf) == Unsettled <==> Open(leaf)
  {
  }

  /** Where the leaves that are `p` stand. */
  ghost function Where(leaves: seq<Leaf>, p: Leaf -> bool): set<nat> {
    set i: nat | i < |leaves| && p(leaves[i])
  }

  lemma WhereMore(leaves: seq<Leaf>, p: Leaf -> bool)
    requires leaves != []
    ensures |Where(leaves, p)| == |Where(leaves[..|leaves| - 1], p)| + if p(leaves[|leaves| - 1]) then 1 else 0
  {
    var n := |leaves| - 1;
    assert Where(leaves, p) == Where(leaves[..n], p) + if p(leaves[n]) then {n} else {};
  }

  /** The counts are the numbers of leaves that are what they are counted as. */
  lemma {:induction false} CountsMean(leaves: seq<Leaf>)
    ensures CountMatched(leaves) == |Where(leaves, Proven)|
    ensures CountOf(leaves, Unmatched) == |Where(leaves, Remains)|
    ensures CountOf(leaves, Unverified) == |Where(leaves, Associated)|
  {
    hide Proven, Remains, Associated, Classify, Where;
    if leaves == [] {
      NoneWhere();
    } else {
      CountsMean(leaves[..|leaves| - 1]);
      ClassifyMeans(leaves[|leaves| - 1]);
      WhereMore(leaves, Proven);
      WhereMore(leaves, Remains);
      WhereMore(leaves, Associated);
    }
  }

  lemma NoneWhere()
    ensures forall p :: Where([], p) == {}
  {
  }

  lemma TargetsMean(leaves: seq<Leaf>, t: int)
    ensures t in Targets(leaves) <==> exists leaf | leaf in leaves :: ProvenIn(leaf, t)
  {
    hide Classify, ProvenIn, Proven;
    forall leaf | leaf in leaves ensures Classify(leaf) == Matched(t) <==> ProvenIn(leaf, t) {
      ClassifyMeans(leaf);
    }
  }

  // ---- the summary --------------------------------------------------------------------------------

  datatype Payload = Payload(source: int, targets: seq<int>, matched: int, unmatched: int, unverified: int)

  /** `xs` lists `s` in ascending order, each element once. */
  ghost predicate Lists(xs: seq<int>, s: set<int>) {
    (forall i, j | 0 <= i < j < |xs| :: xs[i] < xs[j]) && forall x :: x in xs <==> x in s
  }

  method Sorted(s: set<int>) returns (xs: seq<int>)
    ensures Lists(xs, s)
  {
    xs := [];
    var left := s;
    while left != {}
      invariant left <= s && Lists(xs, s - left)
      decreases left
    {
      Inhabited(left);
      var x :| x in left;
      left := left - {x};
      var k := 0;
      while k < |xs| && xs[k] < x
        invariant k <= |xs| && forall i | 0 <= i < k :: xs[i] < x
      {
        k := k + 1;
      }
      Inserted(xs, s - left - {x}, x, k);
      assert s - left == (s - left - {x}) + {x};
      xs := xs[..k] + [x] + xs[k..];
    }
    assert s - left == s;
  }

  lemma Inserted(xs: seq<int>, s: set<int>, x: int, k: nat)
    requires Lists(xs, s) && x !in s && k <= |xs|
    requires (forall i | 0 <= i < k :: xs[i] < x) && (k < |xs| ==> xs[k] >= x)
    ensures Lists(xs[..k] + [x] + xs[k..], s + {x})
  {
    var ys := xs[..k] + [x] + xs[k..];
    if k < |xs| {
      assert xs[k] in xs;
    }
    forall y ensures y in ys <==> y in s + {x} {
      assert y in xs <==> y in xs[..k] || y in xs[k..] by { assert xs == xs[..k] + xs[k..]; }
    }
  }

  /** The ascending listing of a set is unique. */
  lemma {:induction false} ListsUnique(xs: seq<int>, ys: seq<int>, s: set<int>)
    requires Lists(xs, s) && Lists(ys, s)
    ensures xs == ys
    decreases |xs|
  {
    ListsEmpty(xs, s);
    ListsEmpty(ys, s);
    if xs != [] {
      assert xs[0] in ys && ys[0] in xs by { assert xs[0] in xs && ys[0] in ys; }
      var i :| 0 <= i < |ys| && ys[i] == xs[0];
      var j :| 0 <= j < |xs| && xs[j] == ys[0];
      assert xs[0] == ys[0];
      TailLists(xs, s);
      TailLists(ys, s);
      ListsUnique(xs[1..], ys[1..], s - {xs[0]});
    }
  }

  lemma ListsEmpty(xs: seq<int>, s: set<int>)
    requires Lists(xs, s)
    ensures xs == [] <==> s == {}
  {
    if xs != [] {
      assert xs[0] in xs;
    }
    Inhabited(s);
  }

  lemma TailLists(xs: seq<int>, s: set<int>)
    requires Lists(xs, s) && xs != []
    ensures Lists(xs[1..], s - {xs[0]})
  {
    assert xs == [xs[0]] + xs[1..];
  }

  /** What a settled submission's summary is. */
  ghost predicate Summary(p: Payload, source: int, leaves: seq<Leaf>) {
    && p.source == source && Lists(p.targets, Targets(leaves)) && p.matched == CountMatched(leaves)
    && p.unmatched == CountOf(leaves, Unmatched) && p.unverified == CountOf(leaves, Unverified)
  }

  /** A submission may be summarized: every leaf is settled, something matched, and the source transfer is
      consolidated exactly when nothing is left to download. */
  ghost predicate Summarizable(leaves: seq<Leaf>, consolidated: bool) {
    && (forall leaf | leaf in leaves :: Classify(leaf) != Unsettled)
    && CountMatched(leaves) > 0 && (consolidated <==> CountOf(leaves, Unmatched) == 0)
  }

  /** Sums up the leaves in one pass. That the counts add up to the material ones, which the code checks once more
      before it reports, follows. */
  method Disposition(source: int, leaves: seq<Leaf>, consolidated: bool) returns (r: Option<Payload>)
    ensures r.Some? <==> Summarizable(leaves, consolidated)
    ensures r.Some? ==> Summary(r.value, source, leaves)
    // The same, by the leaves' own facts.
    ensures r.Some? <==>
              && (forall leaf | leaf in leaves :: !Open(leaf)) && (exists leaf | leaf in leaves :: Proven(leaf))
              && (consolidated <==> forall leaf | leaf in leaves :: !Remains(leaf))
    ensures r.Some? ==>
              && r.value.source == source
              && r.value.matched == |Where(leaves, Proven)|
              && r.value.unmatched == |Where(leaves, Remains)|
              && r.value.unverified == |Where(leaves, Associated)|
              && (forall i, j | 0 <= i < j < |r.value.targets| :: r.value.targets[i] < r.value.targets[j])
              && forall t :: t in r.value.targets <==> exists leaf | leaf in leaves :: ProvenIn(leaf, t)
  {
    SummaryMeans(leaves, consolidated);
    forall t ensures t in Targets(leaves) <==> exists leaf | leaf in leaves :: ProvenIn(leaf, t) {
      TargetsMean(leaves, t);
    }
    hide Open, Proven, ProvenIn, Remains, Associated, Material;
    var material, matched, unmatched, unverified := 0, 0, 0, 0;
    var targets: set<int> := {};
    for k := 0 to |leaves|
      invariant matched == CountMatched(leaves[..k]) && unmatched == CountOf(leaves[..k], Unmatched)
      invariant unverified == CountOf(leaves[..k], Unverified) && targets == Targets(leaves[..k])
      invariant material == matched + unmatched + unverified
      invariant forall leaf | leaf in leaves[..k] :: Classify(leaf) != Unsettled
    {
      var leaf := leaves[k];
      assert leaves[..k + 1][..k] == leaves[..k];
      assert leaves[..k + 1] == leaves[..k] + [leaf];
      TargetsMore(leaves[..k], leaf);
      if leaf.state.Skipped? {
        continue;
      }
      if leaf.unverified && Positive(leaf.associated).Some? {
        material, unverified := material + 1, unverified + 1;
        continue;
      }
      if !leaf.state.Resolved? || !leaf.hasArtifact {
        assert leaf in leaves;
        return None;
      }
      if leaf.blocked {
        continue;
      }
      material := material + 1;
      if leaf.mapped && Positive(leaf.canonical).Some? {
        matched := matched + 1;
        targets := targets + {leaf.canonical.value};
        continue;
      }
      if leaf.standby {
        assert leaf in leaves;
        return None;
      }
      unmatched := unmatched + 1;
    }
    assert leaves[..|leaves|] == leaves;
    TargetsBounded(leaves);
    if material <= 0 || matched <= 0 || targets == {} {
      return None;
    }
    if (unmatched == 0) != consolidated {
      return None;
    }
    var ids := Sorted(targets);
    return Some(Payload(source, ids, matched, unmatched, unverified));
  }

  lemma SomeCounted(leaves: seq<Leaf>)
    ensures CountMatched(leaves) > 0 <==> exists leaf | leaf in leaves :: Proven(leaf)
    ensures CountOf(leaves, Unmatched) == 0 <==> forall leaf | leaf in leaves :: !Remains(leaf)
  {
    hide Proven, Remains;
    CountsMean(leaves);
    var proven := Where(leaves, Proven);
    var left := Where(leaves, Remains);
    if leaf :| leaf in leaves && Proven(leaf) {
      var i :| 0 <= i < |leaves| && leaves[i] == leaf;
      assert i in proven;
    }
    if leaf :| leaf in leaves && Remains(leaf) {
      var i :| 0 <= i < |leaves| && leaves[i] == leaf;
      assert i in left;
    }
    if proven != {} {
      var i :| i in proven;
      assert leaves[i] in leaves;
    }
    if left != {} {
      var i :| i in left;
      assert leaves[i] in leaves;
    }
  }

  lemma SummaryMeans(leaves: seq<Leaf>, consolidated: bool)
    ensures CountMatched(leaves) == |Where(leaves, Proven)|
    ensures CountOf(leaves, Unmatched) == |Where(leaves, Remains)|
    ensures CountOf(leaves, Unverified) == |Where(leaves, Associated)|
    ensures Summarizable(leaves, consolidated) <==>
              && (forall leaf | leaf in leaves :: !Open(leaf)) && (exists leaf | leaf in leaves :: Proven(leaf))
              && (consolidated <==> forall leaf | leaf in leaves :: !Remains(leaf))
  {
    hide Proven, Remains, Associated, Open, Classify;
    CountsMean(leaves);
    SomeCounted(leaves);
    forall leaf | leaf in leaves ensures Classify(leaf) != Unsettled <==> !Open(leaf) {
      ClassifyMeans(leaf);
    }
  }

  lemma TargetsMore(leaves: seq<Leaf>, leaf: Leaf)
    ensures Targets(leaves + [leaf]) == Targets(leaves) + (if Classify(leaf).Matched? then {Classify(leaf).target} else {})
  {
  }

  // ---- the published form -------------------------------------------------------------------------

  datatype Json =
    | JNull | JBool(value: bool) | JInt(number: int) | JReal(zero: bool) | JText(empty: bool)
    | JList(items: seq<Json>) | JObject(fields: map<Field, Json>)
  datatype Field = SourceId | TargetIds | MatchedCount | UnmatchedCount | UnverifiedCount | OtherField(name: int)

  function Get(fields: map<Field, Json>, f: Field): Json {
    if f in fields then fields[f] else JNull
  }

  predicate Falsy(j: Json) {
    match j
    case JNull => true
    case JBool(b) => !b
    case JInt(n) => n == 0
    case JReal(zero) => zero
    case JText(empty) => empty
    case JList(items) => items == []
    case JObject(fields) => fields == map[]
  }

  function PositiveInt(j: Json): Option<int> {
    if j.JInt? && j.number > 0 then Some(j.number) else None
  }

  function NonNegativeInt(j: Json): Option<int> {
    if j.JInt? && j.number >= 0 then Some(j.number) else None
  }

  /** The stored detail of a summary; a count of no associations is left out. */
  function Encode(p: Payload): Json {
    var fields := map[
      SourceId := JInt(p.source), TargetIds := JList(seq(|p.targets|, i requires 0 <= i < |p.targets| => JInt(p.targets[i]))),
      MatchedCount := JInt(p.matched), UnmatchedCount := JInt(p.unmatched)];
    JObject(if p.unverified != 0 then fields[UnverifiedCount := JInt(p.unverified)] else fields)
  }

  ghost predicate IdsOf(items: seq<Json>, ids: set<int>) {
    (forall j | j in items :: PositiveInt(j).Some?) && forall x :: x in ids <==> JInt(x) in items
  }

  /** Only the strict safe shape, rebuilt from its fields. */
  method PublicPayload(detail: Option<Json>) returns (r: Option<Payload>)
    ensures r.Some? ==> Published(detail, r.value)
    ensures r.None? ==> forall p :: !Published(detail, p)
  {
    if detail.None? || !detail.value.JObject? {
      return None;
    }
    var raw := detail.value.fields;
    var source, matched := PositiveInt(Get(raw, SourceId)), PositiveInt(Get(raw, MatchedCount));
    var unmatched := NonNegativeInt(Get(raw, UnmatchedCount));
    var unverified := NonNegativeInt(if Falsy(Get(raw, UnverifiedCount)) then JInt(0) else Get(raw, UnverifiedCount));
    if source.None? || matched.None? || unmatched.None? || unverified.None? || !Get(raw, TargetIds).JList? {
      return None;
    }
    var items := Get(raw, TargetIds).items;
    var targets: set<int> := {};
    for k := 0 to |items|
      invariant IdsOf(items[..k], targets)
    {
      assert items[..k + 1] == items[..k] + [items[k]];
      if PositiveInt(items[k]).None? {
        assert items[k] in items;
        return None;
      }
      targets := targets + {items[k].number};
    }
    assert items[..|items|] == items;
    if targets == {} || |targets| > matched.value {
      forall ids | IdsOf(items, ids) ensures ids == targets {
        assert forall x :: x in ids <==> x in targets;
      }
      return None;
    }
    var ids := Sorted(targets);
    r := Some(Payload(source.value, ids, matched.value, unmatched.value, unverified.value));
    assert Lists(r.value.targets, targets) && IdsOf(items, targets);
  }

  /** `p` is the safe reading of `detail`. */
  ghost predicate Published(detail: Option<Json>, p: Payload) {
    && detail.Some? && detail.value.JObject?
    && var raw := detail.value.fields;
       var unverified := Get(raw, UnverifiedCount);
       && Get(raw, SourceId) == JInt(p.source) && p.source > 0
       && Get(raw, MatchedCount) == JInt(p.matched) && p.matched > 0
       && Get(raw, UnmatchedCount) == JInt(p.unmatched) && p.unmatched >= 0
       && (if Falsy(unverified) then p.unverified == 0 else unverified == JInt(p.unverified) && p.unverified >= 0)
       && Get(raw, TargetIds).JList?
       && exists ids :: Lists(p.targets, ids) && IdsOf(Get(raw, TargetIds).items, ids) && 0 < |ids| <= p.matched
  }

  /** What is published is positive, or not negative, where it counts; its targets are the listed ones, ascending, and no
      more than the matches; and a count of associations that is absent, empty or zero reads as none. */
  lemma PublishedExactly(detail: Option<Json>, p: Payload)
    ensures Published(detail, p) <==>
              && detail.Some? && detail.value.JObject?
              && var raw := detail.value.fields;
                 && SourceId in raw && raw[SourceId] == JInt(p.source) && p.source >= 1
                 && MatchedCount in raw && raw[MatchedCount] == JInt(p.matched) && p.matched >= 1
                 && UnmatchedCount in raw && raw[UnmatchedCount] == JInt(p.unmatched) && p.unmatched >= 0
                 && (if UnverifiedCount !in raw || raw[UnverifiedCount] in {JNull, JBool(false), JInt(0), JReal(true),
                                                                            JText(true), JList([]), JObject(map[])}
                     then p.unverified == 0 else raw[UnverifiedCount] == JInt(p.unverified) && p.unverified >= 1)
                 && TargetIds in raw && raw[TargetIds].JList?
                 && (forall j | j in raw[TargetIds].items :: j.JInt? && j.number >= 1)
                 && (forall i, j | 0 <= i < j < |p.targets| :: p.targets[i] < p.targets[j])
                 && (forall x :: x in p.targets <==> JInt(x) in raw[TargetIds].items)
                 && 1 <= |p.targets| <= p.matched
  {
    if detail.Some? && detail.value.JObject? && Get(detail.value.fields, TargetIds).JList? {
      var items := Get(detail.value.fields, TargetIds).items;
      var ids := Elements(p.targets);
      if Lists(p.targets, ids) {
        ListsSize(p.targets, ids);
      }
      forall theirs | Lists(p.targets, theirs) ensures theirs == ids {
        assert forall x :: x in theirs <==> x in ids;
      }
    }
  }

  lemma EncodedIds(p: Payload, ids: set<int>)
    requires Lists(p.targets, ids) && forall x | x in ids :: x > 0
    ensures var raw := Encode(p).fields; Get(raw, TargetIds).JList? && IdsOf(Get(raw, TargetIds).items, ids)
  {
    var items := Get(Encode(p).fields, TargetIds).items;
    forall x ensures x in ids <==> JInt(x) in items {
      if x in ids {
        var i :| 0 <= i < |p.targets| && p.targets[i] == x;
        assert items[i] == JInt(x);
      }
      if JInt(x) in items {
        var i :| 0 <= i < |items| && items[i] == JInt(x);
        assert p.targets[i] in p.targets;
      }
    }
    forall j | j in items ensures PositiveInt(j).Some? {
      var i :| 0 <= i < |items| && items[i] == j;
      assert p.targets[i] in p.targets;
    }
  }

  lemma ListsSize(xs: seq<int>, s: set<int>)
    requires Lists(xs, s)
    ensures |xs| == |s|
    decreases |xs|
  {
    ListsEmpty(xs, s);
    if xs != [] {
      TailLists(xs, s);
      assert xs[0] in xs;
      ListsSize(xs[1..], s - {xs[0]});
    }
  }

  /** Every summary is published whole, and as nothing else: the safe reading of its stored detail is itself. */
  lemma SummaryRoundTrips(p: Payload, source: int, leaves: seq<Leaf>, q: Payload)
    requires source > 0 && Summary(p, source, leaves) && CountMatched(leaves) > 0
    ensures Published(Some(Encode(p)), q) <==> q == p
  {
    var raw, ids := Encode(p).fields, Targets(leaves);
    TargetsBounded(leaves);
    EncodedIds(p, ids);
    Inhabited(ids);
    assert |ids| > 0;
    assert Published(Some(Encode(p)), p);
    if Published(Some(Encode(p)), q) {
      var theirs :| Lists(q.targets, theirs) && IdsOf(Get(raw, TargetIds).items, theirs);
      assert forall x :: x in theirs <==> x in ids;
      assert theirs == ids;
      ListsUnique(p.targets, q.targets, ids);
    }
  }

  // ---- the events ---------------------------------------------------------------------------------

  datatype Kind = PendingSummary | PublicSummary
  /** A marker is claimed while it is hidden; a public event is claimed once by its consumer. */
  datatype Event = Event(transfer: int, kind: Kind, claimed: bool, detail: Option<Payload>)

  /** What the disposition of a marker's transfer comes to when it is evaluated. */
  datatype Evaluation = Ready(payload: Payload) | NotYet | Breaks

  function Promote(e: Event, payload: Payload): Event {
    e.(kind := PublicSummary, claimed := false, detail := Some(payload))
  }

  predicate Hidden(e: Event) {
    e.kind.PendingSummary? && e.claimed
  }

  /** Some hidden marker before the `n`-th event makes the pass break off. */
  ghost predicate BreaksBefore(events: seq<Event>, disposition: int -> Evaluation, n: int) {
    exists j | 0 <= j < n && j < |events| ::
      events[j].kind == PendingSummary && events[j].claimed && disposition(events[j].transfer).Breaks?
  }

  lemma BreaksMore(events: seq<Event>, disposition: int -> Evaluation, k: nat)
    requires k < |events|
    ensures BreaksBefore(events, disposition, k + 1) <==>
              BreaksBefore(events, disposition, k) || (Hidden(events[k]) && disposition(events[k].transfer).Breaks?)
    ensures BreaksBefore(events, disposition, k + 1) ==> BreaksBefore(events, disposition, |events|)
  {
  }

  lemma NoneBreaks(events: seq<Event>, disposition: int -> Evaluation)
    ensures !BreaksBefore(events, disposition, 0)
  {
  }

  lemma BreaksLater(events: seq<Event>, disposition: int -> Evaluation, k: nat, i: nat)
    requires BreaksBefore(events, disposition, k) && k <= i
    ensures BreaksBefore(events, disposition, i)
  {
  }

  /** What a pass makes of one event: a hidden marker that is settled becomes public with its own summary, for its consumer
      still to claim, unless one before it broke the pass off; nothing else changes. */
  ghost function Passed(events: seq<Event>, disposition: int -> Evaluation, i: nat): Event
    requires i < |events|
  {
    var e := events[i];
    if e.kind == PendingSummary && e.claimed && disposition(e.transfer).Ready? && !BreaksBefore(events, disposition, i)
    then Event(e.transfer, PublicSummary, false, Some(disposition(e.transfer).payload)) else e
  }

  ghost predicate Finalized(before: seq<Event>, after: seq<Event>, disposition: int -> Evaluation) {
    |after| == |before| && forall i: nat | i < |before| :: after[i] == Passed(before, disposition, i)
  }

  /** A transfer has at most one event of either kind. */
  ghost predicate OneEach(events: seq<Event>) {
    forall i, j | 0 <= i < j < |events| :: events[i].transfer != events[j].transfer
  }

  predicate HasEvent(events: seq<Event>, transfer: int) {
    exists e | e in events :: e.transfer == transfer
  }

  class Ledger {
    var events: seq<Event>

    /** Stages one hidden marker for a transfer that has no event yet. */
    method Stage(transfer: int)
      modifies this
      ensures events == if transfer <= 0 || HasEvent(old(events), transfer) then old(events)
                        else old(events) + [Event(transfer, PendingSummary, true, None)]
      ensures OneEach(old(events)) ==> OneEach(events)
    {
      if transfer <= 0 {
        return;
      }
      if !HasEvent(events, transfer) {
        assert forall i | 0 <= i < |events| :: events[i] in events;
        events := events + [Event(transfer, PendingSummary, true, None)];
      }
    }

    /** Promotes every hidden marker whose submission is settled, each in a transaction of its own; a failure ends the
        pass and keeps what was promoted before it. */
    method FinalizePending(disposition: int -> Evaluation) returns (promoted: nat, broke: bool)
      modifies this
      ensures Finalized(old(events), events, disposition)
      ensures broke <==> BreaksBefore(old(events), disposition, |old(events)|)
      ensures promoted == |set i | 0 <= i < |events| && events[i] != old(events)[i]|
      ensures OneEach(old(events)) ==> OneEach(events)
    {
      hide BreaksBefore;
      ghost var before := events;
      promoted, broke := 0, false;
      NoneBreaks(before, disposition);
      ghost var changed: set<int> := {};
      var k := 0;
      while k < |events|
        invariant k <= |events| == |before|
        invariant !BreaksBefore(before, disposition, k)
        invariant forall i: nat | i < k :: events[i] == Passed(before, disposition, i)
        invariant forall i | k <= i < |events| :: events[i] == before[i]
        invariant changed == (set i | 0 <= i < |events| && events[i] != before[i]) && promoted == |changed|
        invariant forall i | i in changed :: i < k
      {
        BreaksMore(before, disposition, k);
        assert events[k] == before[k];
        if Hidden(events[k]) {
          var evaluated := disposition(events[k].transfer);
          if evaluated.Breaks? {
            forall i: nat | k <= i < |events| ensures events[i] == Passed(before, disposition, i) {
              if i > k { BreaksLater(before, disposition, k + 1, i); }
            }
            return promoted, true;
          }
          if evaluated.Ready? {
            events := events[k := Promote(events[k], evaluated.payload)];
            changed := changed + {k};
            promoted := promoted + 1;
          }
        }
        k := k + 1;
      }
    }

    /** The consumer of public events claims one. */
    method Claim(i: nat)
      requires i < |events|
      modifies this
      ensures events == if old(events)[i].kind.PublicSummary? then old(events)[i := old(events)[i].(claimed := true)]
                        else old(events)
      ensures OneEach(old(events)) ==> OneEach(events)
    {
      if events[i].kind.PublicSummary? {
        events := events[i := events[i].(claimed := true)];
      }
    }
  }

  datatype Op = Staging(transfer: int) | Finalizing(disposition: int -> Evaluation) | Claiming(i: nat)

  /** One operation of the ledger. */
  ghost predicate Does(events: seq<Event>, op: Op, after: seq<Event>) {
    match op
    case Staging(transfer) =>
      after == if transfer <= 0 || HasEvent(events, transfer) then events
               else events + [Event(transfer, PendingSummary, true, None)]
    case Finalizing(disposition) => Finalized(events, after, disposition)
    case Claiming(i) =>
      i < |events| && after == if events[i].kind.PublicSummary? then events[i := events[i].(claimed := true)] else events
  }

  /** The ledger's own methods do what the operations say. */
  method Perform(ledger: Ledger, op: Op)
    requires op.Claiming? ==> op.i < |ledger.events|
    modifies ledger
    ensures Does(old(ledger.events), op, ledger.events)
  {
    match op {
      case Staging(transfer) => ledger.Stage(transfer);
      case Finalizing(disposition) =>
        var _, _ := ledger.FinalizePending(disposition);
      case Claiming(i) => ledger.Claim(i);
    }
  }

  /** A run of the ledger: every state follows from the one before it. */
  ghost predicate Runs(states: seq<seq<Event>>, ops: seq<Op>) {
    |states| == |ops| + 1 && forall k | 0 <= k < |ops| :: Does(states[k], ops[k], states[k + 1])
  }

  lemma DoesKeeps(events: seq<Event>, op: Op, after: seq<Event>)
    requires OneEach(events) && Does(events, op, after)
    ensures OneEach(after) && |events| <= |after|
    ensures forall i | 0 <= i < |events| && events[i].kind.PublicSummary? ::
              after[i].kind.PublicSummary? && after[i].transfer == events[i].transfer && after[i].detail == events[i].detail
  {
    if op.Staging? {
      assert forall i | 0 <= i < |events| :: events[i] in events;
    }
  }

  /** Over any run a transfer has at most one event, so at most one that is public; and what became public stays
      public with the summary it had. */
  lemma {:induction false} RunPublishesOnce(states: seq<seq<Event>>, ops: seq<Op>)
    requires Runs(states, ops) && OneEach(states[0])
    ensures var last := states[|ops|];
            && OneEach(last) && |states[0]| <= |last|
            && forall i | 0 <= i < |states[0]| && states[0][i].kind.PublicSummary? ::
                 && last[i].kind.PublicSummary? && last[i].transfer == states[0][i].transfer
                 && last[i].detail == states[0][i].detail
    decreases |ops|
  {
    if ops != [] {
      assert Does(states[0], ops[0], states[1]);
      DoesKeeps(states[0], ops[0], states[1]);
      var rest := states[1..];
      assert forall k | 0 <= k < |ops[1..]| :: Does(rest[k], ops[1..][k], rest[k + 1]) by {
        forall k | 0 <= k < |ops[1..]| ensures Does(rest[k], ops[1..][k], rest[k + 1]) {
          assert Does(states[k + 1], ops[k + 1], states[k + 2]);
        }
      }
      RunPublishesOnce(rest, ops[1..]);
    }
  }
}
