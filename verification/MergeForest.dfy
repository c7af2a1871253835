/** Merged accounts form a forest: following redirections always ends, and at an account that is not merged. */
module MergeForest {
  import opened Support
  import opened AccountModel

  type Accounts = map<AccountId, Account>

  /** A merged account's redirection leads to a known account of higher rank. */
  ghost predicate Climbs(accounts: Accounts, rank: map<AccountId, nat>, a: AccountId)
    requires rank.Keys == accounts.Keys && a in accounts
  {
    accounts[a].mergedInto.Some? ==>
      accounts[a].mergedInto.value in accounts && rank[a] < rank[accounts[a].mergedInto.value]
  }

  ghost predicate Ranked(accounts: Accounts, rank: map<AccountId, nat>) {
    rank.Keys == accounts.Keys && forall a {:trigger Climbs(accounts, rank, a)} | a in accounts :: Climbs(accounts, rank, a)
  }

  ghost predicate Forest(accounts: Accounts) {
    exists rank :: Ranked(accounts, rank)
  }

  predicate Merged(accounts: Accounts, a: AccountId) {
    a in accounts && accounts[a].mergedInto.Some?
  }

  /** What a walk has passed lies strictly below where it stands. */
  ghost predicate Below(rank: map<AccountId, nat>, seen: set<AccountId>, a: AccountId) {
    forall x | x in seen :: x in rank && (a in rank ==> rank[x] < rank[a])
  }

  /** The cycle guard never decides a walk: whatever was passed before, it ends at the same unmerged identity. */
  lemma {:induction false} GuardSilent(accounts: Accounts, rank: map<AccountId, nat>, a: AccountId, seen: set<AccountId>)
    requires Ranked(accounts, rank) && Below(rank, seen, a) && a !in seen
    ensures CanonicalFrom(accounts, a, seen) == Canonical(accounts, a)
    ensures !Merged(accounts, Canonical(accounts, a))
    ensures CanonicalFrom(accounts, a, seen) !in seen
    ensures a in accounts ==> Canonical(accounts, a) in accounts
    decreases |accounts| - (if a in rank then Passed(rank, a) else |accounts|)
  {
    if Merged(accounts, a) {
      var p := accounts[a].mergedInto.value;
      assert Climbs(accounts, rank, a);
      PassedGrows(rank, a, p);
      GuardSilent(accounts, rank, p, seen + {a});
      GuardSilent(accounts, rank, p, {a});
      assert {} + {a} == {a};
    }
  }

  /** How many identities rank below `a`. */
  ghost function Passed(rank: map<AccountId, nat>, a: AccountId): (n: nat)
    requires a in rank
    ensures n < |rank|
  {
    var below := set x | x in rank && rank[x] < rank[a];
    assert below <= rank.Keys - {a};
    SubsetSize(below, rank.Keys - {a});
    assert |rank.Keys - {a}| == |rank| - 1;
    |below|
  }

  lemma PassedGrows(rank: map<AccountId, nat>, a: AccountId, p: AccountId)
    requires a in rank && p in rank && rank[a] < rank[p]
    ensures Passed(rank, a) < Passed(rank, p)
  {
    var below := set x | x in rank && rank[x] < rank[a];
    var belowParent := set x | x in rank && rank[x] < rank[p];
    SubsetSize(below + {a}, belowParent);
  }

  /** In a forest every walk ends, guard or no guard, at an identity that is not merged. */
  lemma CanonicalUnmerged(accounts: Accounts, a: AccountId)
    requires Forest(accounts)
    ensures !Merged(accounts, Canonical(accounts, a))
    ensures Merged(accounts, a) ==> Canonical(accounts, a) == Canonical(accounts, accounts[a].mergedInto.value)
    ensures !Merged(accounts, a) ==> Canonical(accounts, a) == a
    ensures a in accounts ==> Canonical(accounts, a) in accounts
  {
    var rank :| Ranked(accounts, rank);
    GuardSilent(accounts, rank, a, {});
    if Merged(accounts, a) {
      assert Climbs(accounts, rank, a);
      GuardSilent(accounts, rank, accounts[a].mergedInto.value, {a});
      assert {} + {a} == {a};
    }
  }

  /** Nothing about the forest changed: every identity keeps its redirection, and new ones have none. */
  ghost predicate SameTree(before: Accounts, after: Accounts) {
    && before.Keys <= after.Keys
    && (forall a | a in before :: after[a].mergedInto == before[a].mergedInto)
    && (forall a | a in after && a !in before :: after[a].mergedInto.None?)
  }

  lemma SameTreeForest(before: Accounts, after: Accounts)
    requires Forest(before) && SameTree(before, after)
    ensures Forest(after)
  {
    var rank :| Ranked(before, rank);
    var extended := map a | a in after :: if a in before then rank[a] else 0;
    forall a | a in after ensures Climbs(after, extended, a) {
      assert a in before ==> Climbs(before, rank, a);
    }
    assert Ranked(after, extended);
  }

  lemma {:induction false} SameTreeCanonicalFrom(before: Accounts, after: Accounts, a: AccountId, seen: set<AccountId>)
    requires SameTree(before, after)
    ensures CanonicalFrom(after, a, seen) == CanonicalFrom(before, a, seen)
    decreases before.Keys - seen
  {
    if a !in seen && Merged(before, a) {
      SameTreeCanonicalFrom(before, after, before[a].mergedInto.value, seen + {a});
    }
  }

  /** Where the forest is unchanged every identity means what it meant. */
  lemma SameTreeCanonical(before: Accounts, after: Accounts)
    requires SameTree(before, after)
    ensures forall x :: Canonical(after, x) == Canonical(before, x)
    ensures forall x | x in before :: Owned(after, x) == Owned(before, x)
  {
    forall x ensures Canonical(after, x) == Canonical(before, x) {
      SameTreeCanonicalFrom(before, after, x, {});
    }
  }

  /** `sources` were redirected to `target`, and nothing else was. */
  ghost predicate Redirected(before: Accounts, after: Accounts, sources: set<AccountId>, target: AccountId) {
    && after.Keys == before.Keys && sources <= before.Keys && target in before && target !in sources
    && !Merged(before, target) && (forall x | x in sources :: !Merged(before, x))
    && (forall a | a in before ::
          after[a].mergedInto == if a in sources then Some(target) else before[a].mergedInto)
  }

  lemma RedirectedForest(before: Accounts, after: Accounts, sources: set<AccountId>, target: AccountId)
    requires Forest(before) && Redirected(before, after, sources, target)
    ensures Forest(after)
  {
    var rank :| Ranked(before, rank);
    var top := Highest(rank, rank.Keys);
    var raised := rank[target := top + 1];
    forall a | a in after ensures Climbs(after, raised, a) {
      assert Climbs(before, rank, a);
    }
    assert Ranked(after, raised);
  }

  ghost function Highest(rank: map<AccountId, nat>, keys: set<AccountId>): (top: nat)
    requires keys <= rank.Keys
    ensures forall a | a in keys :: rank[a] <= top
  {
    if keys == {} then 0
    else
      var a :| a in keys;
      var rest := Highest(rank, keys - {a});
      if rank[a] > rest then rank[a] else rest
  }

  /** A merge redirects exactly the identities that meant one of its sources. */
  lemma {:induction false} MergeRedirects(before: Accounts, after: Accounts, sources: set<AccountId>, target: AccountId,
                                          x: AccountId)
    requires Forest(before) && Redirected(before, after, sources, target)
    ensures Canonical(after, x) == if Canonical(before, x) in sources then target else Canonical(before, x)
  {
    RedirectedForest(before, after, sources, target);
    var rank :| Ranked(before, rank);
    MergeRedirectsFrom(before, after, rank, sources, target, x);
  }

  lemma {:induction false} MergeRedirectsFrom(before: Accounts, after: Accounts, rank: map<AccountId, nat>,
                                              sources: set<AccountId>, target: AccountId, x: AccountId)
    requires Ranked(before, rank) && Forest(after) && Redirected(before, after, sources, target)
    ensures Canonical(after, x) == if Canonical(before, x) in sources then target else Canonical(before, x)
    decreases |before| - (if x in rank then Passed(rank, x) else |before|)
  {
    CanonicalUnmerged(before, x);
    CanonicalUnmerged(after, x);
    if Merged(before, x) {
      var p := before[x].mergedInto.value;
      assert Climbs(before, rank, x);
      PassedGrows(rank, x, p);
      MergeRedirectsFrom(before, after, rank, sources, target, p);
    } else if x in sources {
      CanonicalUnmerged(after, target);
    }
  }

  /** Every identity belongs to exactly one unmerged account, and what an account owns is what means it. */
  lemma OwnedPartition(accounts: Accounts, x: AccountId)
    requires Forest(accounts)
    ensures forall a | !Merged(accounts, a) :: x in Owned(accounts, a) <==> Canonical(accounts, x) == a
    ensures forall a | Merged(accounts, a) :: Owned(accounts, a) == {a}
    ensures !Merged(accounts, Canonical(accounts, x)) && x in Owned(accounts, Canonical(accounts, x))
  {
    CanonicalUnmerged(accounts, x);
    forall a | Merged(accounts, a) ensures Owned(accounts, a) == {a} {
      forall y | y in accounts ensures Canonical(accounts, y) != a {
        CanonicalUnmerged(accounts, y);
      }
    }
  }
}
