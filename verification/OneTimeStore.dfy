/** The bounded one-time stores behind a sign-in: OpenID Connect transactions and login challenges. Both keep entries
    in insertion order, each for a fixed time, evict the oldest, and hand each out at most once. */
module OneTimeStore {
  import opened Support

  /** A keyed fingerprint and a secret's digest are injective, so they stand for what they hide. */
  type Key = nat
  type Secret = nat

  datatype Entry = Entry(key: Key, secret: Secret, expires: int)

  // ---- the simple reading -------------------------------------------------------------------------

  /** The entries that have not expired. */
  function Unexpired(entries: seq<Entry>, now: int): seq<Entry> {
    if entries == [] then []
    else (if entries[0].expires > now then [entries[0]] else []) + Unexpired(entries[1..], now)
  }

  function Without(entries: seq<Entry>, key: Key): seq<Entry> {
    if entries == [] then []
    else (if entries[0].key != key then [entries[0]] else []) + Without(entries[1..], key)
  }

  /** The newest `limit` entries. */
  function Newest(entries: seq<Entry>, limit: nat): seq<Entry> {
    if |entries| <= limit then entries else entries[|entries| - limit..]
  }

  function Issued(entries: seq<Entry>, now: int, ttl: nat, limit: nat, key: Key, secret: Secret): seq<Entry> {
    Newest(Grown(entries, now, ttl, key, secret), limit)
  }

  /** The pending entries as a map. */
  ghost predicate Pending(entries: seq<Entry>, key: Key, secret: Secret, expires: int) {
    Entry(key, secret, expires) in entries
  }

  ghost predicate Keyed(entries: seq<Entry>) {
    forall i, j | 0 <= i < j < |entries| :: entries[i].key != entries[j].key
  }

  /** One entry per key, in order of expiry, none beyond `horizon`. */
  ghost predicate Ordered(entries: seq<Entry>, horizon: int) {
    && Keyed(entries)
    && (forall i, j | 0 <= i < j < |entries| :: entries[i].expires <= entries[j].expires)
    && forall i | 0 <= i < |entries| :: entries[i].expires <= horizon
  }

  // ---- how the parts behave -----------------------------------------------------------------------

  lemma {:induction false} UnexpiredHolds(entries: seq<Entry>, now: int, e: Entry)
    ensures e in Unexpired(entries, now) <==> e in entries && e.expires > now
  {
    if entries != [] {
      UnexpiredHolds(entries[1..], now, e);
      assert e in entries <==> e == entries[0] || e in entries[1..];
    }
  }

  lemma {:induction false} WithoutHolds(entries: seq<Entry>, key: Key, e: Entry)
    ensures e in Without(entries, key) <==> e in entries && e.key != key
  {
    if entries != [] {
      WithoutHolds(entries[1..], key, e);
      assert e in entries <==> e == entries[0] || e in entries[1..];
    }
  }

  lemma {:induction false} WithoutOrdered(entries: seq<Entry>, key: Key, horizon: int)
    requires Ordered(entries, horizon)
    ensures Ordered(Without(entries, key), horizon) && |Without(entries, key)| <= |entries|
    ensures key in KeysOf(entries) ==> |Without(entries, key)| == |entries| - 1
  {
    if entries != [] {
      var rest := entries[1..];
      assert forall i | 0 <= i < |rest| :: rest[i] == entries[i + 1];
      WithoutOrdered(rest, key, horizon);
      forall i | 0 <= i < |Without(rest, key)|
        ensures entries[0].expires <= Without(rest, key)[i].expires && entries[0].key != Without(rest, key)[i].key
      {
        WithoutHolds(rest, key, Without(rest, key)[i]);
      }
      if entries[0].key == key {
        WithoutAbsent(rest, key);
      } else {
        assert key in KeysOf(entries) ==> key in KeysOf(rest);
      }
    }
  }

  lemma {:induction false} WithoutAbsent(entries: seq<Entry>, key: Key)
    requires key !in KeysOf(entries)
    ensures Without(entries, key) == entries
  {
    if entries != [] {
      assert entries[0] in entries;
      forall e | e in entries[1..] ensures e.key != key {
        assert e in entries;
      }
      WithoutAbsent(entries[1..], key);
    }
  }

  function KeysOf(entries: seq<Entry>): set<Key> {
    set e | e in entries :: e.key
  }

  /** How many entries at the front have expired. */
  function Leading(entries: seq<Entry>, now: int): (k: nat)
    ensures k <= |entries|
  {
    if entries == [] || entries[0].expires > now then 0 else 1 + Leading(entries[1..], now)
  }

  lemma {:induction false} NoneExpired(entries: seq<Entry>, now: int, horizon: int)
    requires Ordered(entries, horizon) && (entries != [] ==> entries[0].expires > now)
    ensures Unexpired(entries, now) == entries
  {
    hide Ordered;
    if entries != [] {
      TailOrdered(entries, horizon);
      NoneExpired(entries[1..], now, horizon);
    }
  }

  /** Under a clock that never goes back, what has expired is exactly a prefix. */
  lemma {:induction false} ExpiredPrefix(entries: seq<Entry>, now: int, horizon: int)
    requires Ordered(entries, horizon)
    ensures Unexpired(entries, now) == entries[Leading(entries, now)..]
  {
    hide Ordered;
    if entries == [] || entries[0].expires > now {
      NoneExpired(entries, now, horizon);
    } else {
      TailOrdered(entries, horizon);
      ExpiredPrefix(entries[1..], now, horizon);
      assert entries[1..][Leading(entries[1..], now)..] == entries[Leading(entries, now)..];
    }
  }

  lemma TailOrdered(entries: seq<Entry>, horizon: int)
    requires Ordered(entries, horizon) && entries != []
    ensures Ordered(entries[1..], horizon)
    ensures |entries| > 1 ==> entries[0].expires <= entries[1].expires
  {
  }

  lemma SuffixOrdered(entries: seq<Entry>, k: nat, horizon: int)
    requires Ordered(entries, horizon) && k <= |entries|
    ensures Ordered(entries[k..], horizon)
  {
  }

  /** Everything stored once a new entry is, before the bound is applied. */
  function Grown(entries: seq<Entry>, now: int, ttl: nat, key: Key, secret: Secret): seq<Entry> {
    Without(Unexpired(entries, now), key) + [Entry(key, secret, now + ttl)]
  }

  lemma AppendOrdered(kept: seq<Entry>, e: Entry)
    requires Ordered(kept, e.expires) && forall i | 0 <= i < |kept| :: kept[i].key != e.key
    ensures Ordered(kept + [e], e.expires)
  {
  }

  lemma GrownOrdered(entries: seq<Entry>, now: int, ttl: nat, key: Key, secret: Secret)
    requires Ordered(entries, now + ttl)
    ensures Ordered(Grown(entries, now, ttl, key, secret), now + ttl)
  {
    hide Ordered;
    var k := Leading(entries, now);
    ExpiredPrefix(entries, now, now + ttl);
    var unexpired := Unexpired(entries, now);
    SuffixOrdered(entries, k, now + ttl);
    WithoutOrdered(unexpired, key, now + ttl);
    var kept := Without(unexpired, key);
    forall i | 0 <= i < |kept| ensures kept[i].key != key {
      WithoutHolds(unexpired, key, kept[i]);
    }
    AppendOrdered(kept, Entry(key, secret, now + ttl));
  }

  /** Keeping the newest drops the earliest to expire. */
  lemma NewestDropsEarliest(all: seq<Entry>, limit: nat, horizon: int, e: Entry, f: Entry)
    requires Ordered(all, horizon) && e in all && e !in Newest(all, limit) && f in Newest(all, limit)
    ensures e.expires <= f.expires
  {
    var d := |all| - limit;
    var i :| 0 <= i < |all| && all[i] == e;
    var j :| 0 <= j < |Newest(all, limit)| && Newest(all, limit)[j] == f;
    assert all[if d > 0 then d + j else j] == f;
    forall p | 0 <= p < |all| && d <= p ensures all[p] in Newest(all, limit) {
      assert Newest(all, limit)[if d > 0 then p - d else p] == all[p];
    }
  }

  /** Issuing keeps the order, the bound, and the new entry; what it drops are the earliest to expire. */
  lemma IssuedOrdered(entries: seq<Entry>, now: int, ttl: nat, limit: nat, key: Key, secret: Secret)
    requires Ordered(entries, now + ttl) && limit >= 1
    ensures var after := Issued(entries, now, ttl, limit, key, secret);
            && Ordered(after, now + ttl) && |after| <= limit && after[|after| - 1] == Entry(key, secret, now + ttl)
  {
    hide Ordered;
    var all := Grown(entries, now, ttl, key, secret);
    GrownOrdered(entries, now, ttl, key, secret);
    if |all| > limit {
      SuffixOrdered(all, |all| - limit, now + ttl);
    }
  }

  lemma IssuedDropsEarliest(entries: seq<Entry>, now: int, ttl: nat, limit: nat, key: Key, secret: Secret, e: Entry, f: Entry)
    requires Ordered(entries, now + ttl)
    requires e in entries && e.key != key && e.expires > now
    requires e !in Issued(entries, now, ttl, limit, key, secret) && f in Issued(entries, now, ttl, limit, key, secret)
    ensures e.expires <= f.expires
  {
    hide Ordered;
    var all := Grown(entries, now, ttl, key, secret);
    GrownOrdered(entries, now, ttl, key, secret);
    UnexpiredHolds(entries, now, e);
    WithoutHolds(Unexpired(entries, now), key, e);
    assert e in all;
    NewestDropsEarliest(all, limit, now + ttl, e, f);
  }

  lemma KeyedWhenOrdered(entries: seq<Entry>, horizon: int)
    requires Ordered(entries, horizon)
    ensures Keyed(entries)
  {
  }

  // ---- the store ----------------------------------------------------------------------------------

  class Store {
    const ttl: nat
    const limit: nat
    var entries: seq<Entry>

    /** `shortest` is the least time an entry is kept: a minute for a transaction, half a minute for a challenge. */
    constructor (ttl: nat, shortest: nat, limit: nat)
      ensures this.ttl == (if ttl < shortest then shortest else ttl) && this.limit == (if limit < 1 then 1 else limit)
      ensures entries == []
    {
      this.ttl := if ttl < shortest then shortest else ttl;
      this.limit := if limit < 1 then 1 else limit;
      entries := [];
    }

    ghost predicate Valid(now: int)
      reads this
    {
      limit >= 1 && |entries| <= limit && Ordered(entries, now + ttl)
    }

    /** Drops the expired entries one by one. */
    static method Expire(all: seq<Entry>, now: int) returns (kept: seq<Entry>, removed: nat)
      ensures kept == Unexpired(all, now) && removed + |kept| == |all|
    {
      kept, removed := [], 0;
      var left := all;
      while left != []
        invariant removed + |kept| + |left| == |all| && kept + Unexpired(left, now) == Unexpired(all, now)
        decreases |left|
      {
        var e := left[0];
        if e.expires <= now {
          removed := removed + 1;
        } else {
          assert kept + ([e] + Unexpired(left[1..], now)) == kept + [e] + Unexpired(left[1..], now);
          kept := kept + [e];
        }
        left := left[1..];
      }
    }

    /** Removes what has expired: a prefix of what is stored. */
    method Cleanup(now: int) returns (removed: nat)
      requires Valid(now)
      modifies this`entries
      ensures Valid(now) && entries == Unexpired(old(entries), now)
      ensures removed <= |old(entries)| && entries == old(entries)[removed..]
    {
      ghost var k := Leading(entries, now);
      ExpiredPrefix(entries, now, now + ttl);
      SuffixOrdered(entries, k, now + ttl);
      var kept;
      kept, removed := Expire(entries, now);
      entries := kept;
    }

    /** Removes the entry of `key`, if there is one. */
    method Pop(key: Key) returns (entry: Option<Entry>)
      requires Keyed(entries)
      modifies this`entries
      ensures entries == Without(old(entries), key)
      ensures entry.None? <==> key !in KeysOf(old(entries))
      ensures entry.Some? ==> entry.value in old(entries) && entry.value.key == key
    {
      entry := None;
      var i := 0;
      while i < |entries| && entries[i].key != key
        invariant i <= |entries| && forall j | 0 <= j < i :: entries[j].key != key
      {
        i := i + 1;
      }
      if i < |entries| {
        entry := Some(entries[i]);
        PopAt(entries, i, key);
        entries := entries[..i] + entries[i + 1..];
      } else {
        WithoutAbsent(entries, key);
      }
    }

    /** Drops the oldest entry while there are too many. */
    static method Evict(all: seq<Entry>, limit: nat) returns (kept: seq<Entry>)
      ensures kept == Newest(all, limit)
    {
      var d := 0;
      kept := all;
      while |kept| > limit
        invariant d <= |all| && kept == all[d..] && (d > 0 ==> |kept| >= limit)
      {
        assert kept[1..] == all[d + 1..];
        kept := kept[1..];
        d := d + 1;
      }
    }

    /** Stores a new entry, then evicts the oldest beyond the bound. */
    method Issue(now: int, key: Key, secret: Secret)
      requires Valid(now)
      modifies this`entries
      ensures Valid(now) && entries == Issued(old(entries), now, ttl, limit, key, secret)
    {
      hide Ordered;
      hide Unexpired;
      hide Without;
      hide Newest;
      IssuedOrdered(entries, now, ttl, limit, key, secret);
      var _ := Cleanup(now);
      KeyedWhenOrdered(entries, now + ttl);
      var _ := Pop(key);
      var kept := Evict(entries + [Entry(key, secret, now + ttl)], limit);
      entries := kept;
    }

    /** Takes the entry of `key`: whatever comes of it, the entry is gone. An absent key or secret takes nothing. */
    method Consume(now: int, key: Option<Key>, secret: Option<Secret>) returns (ok: bool)
      requires Valid(now)
      modifies this`entries
      ensures Valid(now)
      ensures key.None? || secret.None? ==> !ok && entries == old(entries)
      ensures key.Some? && secret.Some? ==>
                && entries == Without(old(entries), key.value)
                && (ok <==> exists expires :: Pending(old(entries), key.value, secret.value, expires) && now < expires)
    {
      if key.None? || secret.None? {
        return false;
      }
      WithoutOrdered(entries, key.value, now + ttl);
      var entry := Pop(key.value);
      if entry.None? || entry.value.expires <= now || entry.value.secret != secret.value {
        ok := false;
      } else {
        ok := true;
        assert Pending(old(entries), key.value, secret.value, entry.value.expires);
      }
    }

    method Size(now: int) returns (n: nat)
      requires Valid(now)
      modifies this`entries
      ensures Valid(now) && n == |Unexpired(old(entries), now)| && n <= limit
    {
      var _ := Cleanup(now);
      n := |entries|;
    }
  }

  lemma {:induction false} PopAt(entries: seq<Entry>, i: nat, key: Key)
    requires Keyed(entries) && i < |entries| && entries[i].key == key
    ensures Without(entries, key) == entries[..i] + entries[i + 1..]
  {
    var rest := entries[1..];
    assert forall j | 0 <= j < |rest| :: rest[j] == entries[j + 1];
    if i == 0 {
      WithoutAbsent(rest, key);
    } else {
      PopAt(rest, i - 1, key);
      assert entries[..i] == [entries[0]] + rest[..i - 1];
      assert entries[i + 1..] == rest[i..];
    }
  }

  // ---- whole runs ---------------------------------------------------------------------------------

  datatype Op =
    | Issuing(key: Key, secret: Secret)
    | Consuming(key: Key, secret: Secret)
    | Cleaning
    | Clearing

  /** A store and its clock. */
  datatype State = State(entries: seq<Entry>, clock: int, ttl: nat, limit: nat)

  function StepAt(s: State, now: int, op: Op): State {
    var t := s.(clock := now);
    match op
    case Issuing(key, secret) => t.(entries := Issued(s.entries, now, s.ttl, s.limit, key, secret))
    case Consuming(key, _) => t.(entries := Without(s.entries, key))
    case Cleaning => t.(entries := Unexpired(s.entries, now))
    case Clearing => t.(entries := [])
  }

  /** The consumption succeeds. */
  ghost predicate Wins(s: State, now: int, op: Op) {
    op.Consuming? && exists expires :: Pending(s.entries, op.key, op.secret, expires) && now < expires
  }

  /** An operation some time after the one before it. */
  datatype Timed = Timed(elapsed: nat, op: Op)

  ghost function Run(s: State, ops: seq<Timed>): State
    decreases |ops|
  {
    if ops == [] then s else Run(StepAt(s, s.clock + ops[0].elapsed, ops[0].op), ops[1..])
  }

  ghost function Successes(s: State, ops: seq<Timed>, key: Key): nat
    decreases |ops|
  {
    if ops == [] then 0
    else
      var now := s.clock + ops[0].elapsed;
      (if Wins(s, now, ops[0].op) && ops[0].op.key == key then 1 else 0)
      + Successes(StepAt(s, now, ops[0].op), ops[1..], key)
  }

  function Issues(ops: seq<Timed>, key: Key): nat {
    if ops == [] then 0
    else (if ops[0].op.Issuing? && ops[0].op.key == key then 1 else 0) + Issues(ops[1..], key)
  }

  ghost predicate Inv(s: State) {
    s.limit >= 1 && |s.entries| <= s.limit && Ordered(s.entries, s.clock + s.ttl)
  }

  lemma StepInv(s: State, elapsed: nat, op: Op)
    requires Inv(s)
    ensures Inv(StepAt(s, s.clock + elapsed, op))
  {
    hide Issued;
    var now := s.clock + elapsed;
    assert Ordered(s.entries, now + s.ttl);
    match op {
      case Issuing(key, secret) => IssuedOrdered(s.entries, now, s.ttl, s.limit, key, secret);
      case Consuming(key, _) => WithoutOrdered(s.entries, key, now + s.ttl);
      case Cleaning =>
        var k := Leading(s.entries, now);
        ExpiredPrefix(s.entries, now, now + s.ttl);
        SuffixOrdered(s.entries, k, now + s.ttl);
      case Clearing =>
    }
  }

  function Held(s: State, key: Key): nat {
    if key in KeysOf(s.entries) then 1 else 0
  }

  lemma IssuedKeys(s: State, now: int, key: Key, secret: Secret, other: Key)
    requires other in KeysOf(Issued(s.entries, now, s.ttl, s.limit, key, secret)) && other != key
    ensures other in KeysOf(s.entries)
  {
    var all := Grown(s.entries, now, s.ttl, key, secret);
    var e :| e in Newest(all, s.limit) && e.key == other;
    assert e in all;
    WithoutHolds(Unexpired(s.entries, now), key, e);
    UnexpiredHolds(s.entries, now, e);
  }

  lemma StepHeld(s: State, now: int, op: Op, key: Key)
    ensures Held(StepAt(s, now, op), key) + (if Wins(s, now, op) && op.key == key then 1 else 0)
         <= Held(s, key) + (if op.Issuing? && op.key == key then 1 else 0)
  {
    var t := StepAt(s, now, op);
    match op {
      case Issuing(k, secret) =>
        if key in KeysOf(t.entries) && key != k { IssuedKeys(s, now, k, secret, key); }
      case Consuming(k, secret) =>
        forall e | e in t.entries ensures e in s.entries && e.key != k {
          WithoutHolds(s.entries, k, e);
        }
      case Cleaning =>
        forall e | e in t.entries ensures e in s.entries {
          UnexpiredHolds(s.entries, now, e);
        }
      case Clearing =>
    }
  }

  /** Over every run under a clock that never goes back the store stays bounded and ordered, and every entry issued is
      consumed successfully at most once. */
  lemma {:induction false} RunOnce(s: State, ops: seq<Timed>, key: Key)
    requires Inv(s)
    ensures Inv(Run(s, ops))
    ensures Successes(s, ops, key) + Held(Run(s, ops), key) <= Held(s, key) + Issues(ops, key)
    decreases |ops|
  {
    hide StepAt;
    hide Wins;
    hide Inv;
    hide Held;
    if ops != [] {
      var now := s.clock + ops[0].elapsed;
      StepInv(s, ops[0].elapsed, ops[0].op);
      StepHeld(s, now, ops[0].op, key);
      RunOnce(StepAt(s, now, ops[0].op), ops[1..], key);
    }
  }

  /** Any attempt burns the entry: until the key is issued again, nothing more is consumed under it. */
  lemma AttemptBurns(s: State, now: int, key: Key, secret: Secret, ops: seq<Timed>)
    requires Inv(s) && s.clock <= now && Issues(ops, key) == 0
    ensures Successes(StepAt(s, now, Consuming(key, secret)), ops, key) == 0
  {
    var t := StepAt(s, now, Consuming(key, secret));
    StepInv(s, now - s.clock, Consuming(key, secret));
    forall e | e in t.entries ensures e.key != key {
      WithoutHolds(s.entries, key, e);
    }
    RunOnce(t, ops, key);
  }

  /** When the operation at `i` of a run happens. */
  function TimeOf(clock: int, ops: seq<Timed>, i: nat): int
    requires i < |ops|
    decreases i
  {
    if i == 0 then clock + ops[0].elapsed else TimeOf(clock + ops[0].elapsed, ops[1..], i - 1)
  }

  /** The operation at `i` of the run issued `e`. */
  ghost predicate IssuedAt(s: State, ops: seq<Timed>, e: Entry, i: nat) {
    i < |ops| && ops[i].op == Issuing(e.key, e.secret) && e.expires == TimeOf(s.clock, ops, i) + s.ttl
  }

  lemma StepEntry(s: State, now: int, op: Op, e: Entry)
    requires e in StepAt(s, now, op).entries
    ensures e in s.entries || (op == Issuing(e.key, e.secret) && e.expires == now + s.ttl)
  {
    match op {
      case Issuing(key, secret) =>
        var all := Without(Unexpired(s.entries, now), key) + [Entry(key, secret, now + s.ttl)];
        assert e in all;
        WithoutHolds(Unexpired(s.entries, now), key, e);
        UnexpiredHolds(s.entries, now, e);
      case Consuming(key, _) => WithoutHolds(s.entries, key, e);
      case Cleaning => UnexpiredHolds(s.entries, now, e);
      case Clearing =>
    }
  }

  /** Whatever a run leaves to consume was issued during it, with that secret, for the store's own time. */
  lemma {:induction false} EntryWasIssued(s: State, ops: seq<Timed>, e: Entry)
    requires e in Run(s, ops).entries
    ensures e in s.entries || exists i: nat :: IssuedAt(s, ops, e, i)
    decreases |ops|
  {
    if ops != [] {
      hide Issued;
      var now := s.clock + ops[0].elapsed;
      var t := StepAt(s, now, ops[0].op);
      EntryWasIssued(t, ops[1..], e);
      if e in t.entries {
        StepEntry(s, now, ops[0].op, e);
        if e !in s.entries {
          assert IssuedAt(s, ops, e, 0);
        }
      } else {
        var i: nat :| IssuedAt(t, ops[1..], e, i);
        assert IssuedAt(s, ops, e, i + 1);
      }
    }
  }
}
