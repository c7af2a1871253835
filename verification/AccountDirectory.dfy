/** The account directory as the service runs it: rows changed in place inside a transaction that is rolled back
    when a check fails. Every method is held to the operation of the account model that it implements. */
module AccountDirectory {
  import opened Support
  import opened Text
  import opened AccountModel
  import opened MergeForest
  import opened AccountLaws

  /** The row of `a` with its generation moved once for every time it is listed. */
  lemma TouchOneMore(db: Db, ids: seq<AccountId>, k: nat)
    requires k < |ids| && Distinct(ids)
    ensures ids[k] !in Elements(ids[..k]) && Elements(ids[..k + 1]) == Elements(ids[..k]) + {ids[k]}
  {
    assert ids[..k + 1] == ids[..k] + [ids[k]];
  }

  lemma TouchThrough(db: Db, touched: set<AccountId>, a: AccountId)
    requires a !in touched
    ensures Touch(Touch(db, touched), {a}) == Touch(db, touched + {a})
  {
    assert Touch(Touch(db, touched), {a}).accounts == Touch(db, touched + {a}).accounts;
  }

  lemma TouchOne(db: Db, a: AccountId)
    ensures Touch(db, {a}) == if a in db.accounts
                              then db.(accounts := db.accounts[a := db.accounts[a].(generation := db.accounts[a].generation + 1)])
                              else db
  {
    var y := Touch(db, {a});
    assert a in db.accounts ==>
      y.accounts == db.accounts[a := db.accounts[a].(generation := db.accounts[a].generation + 1)];
    assert a !in db.accounts ==> y.accounts == db.accounts;
  }

  /** Withdrawing under one more owner. */
  lemma WithdrawThrough(db: Db, owners: set<AccountId>, owner: AccountId)
    ensures WithdrawDemand(WithdrawDemand(db, owners), {owner}) == WithdrawDemand(db, owners + {owner})
    ensures OutstandingTransfers(db, owners) + OutstandingTransfers(WithdrawDemand(db, owners), {owner})
         == OutstandingTransfers(db, owners + {owner})
  {
    var y := WithdrawDemand(db, owners);
    assert WithdrawDemand(y, {owner}).demands == WithdrawDemand(db, owners + {owner}).demands;
    forall d | d in db.demands && !db.demands[d].withdrawn && db.demands[d].account in owners + {owner}
      ensures db.demands[d].transfer in OutstandingTransfers(db, owners) + OutstandingTransfers(y, {owner})
    {
      if db.demands[d].account !in owners {
        assert y.demands[d] == db.demands[d];
      }
    }
  }

  /** Listing the holders decides whether there is more than one. */
  lemma HoldersDecide(credentials: map<AccountId, Credential>, all: set<AccountId>, holders: seq<AccountId>)
    requires Distinct(holders) && Elements(holders) == all * credentials.Keys
    ensures |holders| <= 1 <==> OneHolder(credentials, all)
  {
    if |holders| > 1 {
      assert holders[0] in Elements(holders) && holders[1] in Elements(holders) && holders[0] != holders[1];
    } else {
      forall a, b | a in all && b in all && a in credentials && b in credentials ensures a == b {
        assert a in Elements(holders) && b in Elements(holders);
      }
    }
  }

  ghost function Folded(db: Db, sources: set<AccountId>, target: AccountId): Db {
    db.(accounts := FoldAccounts(db.accounts, sources, target),
        credentials := FoldCredentials(db.credentials, sources, target),
        bindings := FoldBindings(db.bindings, sources, target))
  }

  lemma SameElements(a: seq<AccountId>, b: seq<AccountId>)
    requires Elements(a) == Elements(b)
    ensures (forall x :: x in a <==> x in b) && (a == [] <==> b == [])
  {
    assert a != [] ==> a[0] in Elements(a);
    assert b != [] ==> b[0] in Elements(b);
    forall x ensures x in a <==> x in b {
      assert x in a <==> x in Elements(a);
      assert x in b <==> x in Elements(b);
    }
  }

  lemma FoldedNone(db: Db, target: AccountId)
    ensures Folded(db, {}, target) == db
  {
    assert FoldAccounts(db.accounts, {}, target) == db.accounts;
    assert FoldBindings(db.bindings, {}, target) == db.bindings;
  }

  /** Folding one more account into the same target. */
  lemma FoldOneMore(db: Db, sources: set<AccountId>, source: AccountId, target: AccountId)
    requires source !in sources && source != target && target !in sources && source in db.accounts
    requires OneHolder(db.credentials, sources + {source, target})
    ensures var x := Folded(db, sources, target);
            && source in x.accounts
            && Folded(db, sources + {source}, target) == x.(
                 accounts := FoldAccounts(x.accounts, {source}, target),
                 bindings := FoldBindings(x.bindings, {source}, target),
                 credentials := if source in x.credentials
                                then (x.credentials - {source})[target := x.credentials[source]] else x.credentials)
  {
    var x, y := Folded(db, sources, target), Folded(db, sources + {source}, target);
    assert y.accounts == FoldAccounts(x.accounts, {source}, target);
    assert y.bindings == FoldBindings(x.bindings, {source}, target);
    FoldCredentialMore(db.credentials, sources, source, target);
  }

  lemma FoldCredentialMore(credentials: map<AccountId, Credential>, sources: set<AccountId>, source: AccountId,
                           target: AccountId)
    requires source !in sources && source != target && target !in sources
    requires OneHolder(credentials, sources + {source, target})
    ensures var x := FoldCredentials(credentials, sources, target);
            FoldCredentials(credentials, sources + {source}, target) ==
              if source in x then (x - {source})[target := x[source]] else x
  {
    var x := FoldCredentials(credentials, sources, target);
    if source in credentials {
      assert x == credentials;
      assert credentials - (sources + {source}) == credentials - {source};
    } else if h :| h in sources && h in credentials {
      assert credentials - (sources + {source}) == credentials - sources;
    }
  }

  class Directory {
    var db: Db
    var sessions: map<int, Session>
    var clock: int
    var settings: Settings

    ghost function Snapshot(): State
      reads this
    {
      State(db, sessions, clock, settings)
    }

    // ---- reads ------------------------------------------------------------------------------------

    /** Follows redirections, guarding against a cycle. */
    method CanonicalAccountId(id: AccountId) returns (current: AccountId)
      ensures current == Canonical(db.accounts, id)
    {
      current := id;
      var seen: set<AccountId> := {};
      while current !in seen && current in db.accounts && db.accounts[current].mergedInto.Some?
        invariant CanonicalFrom(db.accounts, current, seen) == Canonical(db.accounts, id)
        decreases db.accounts.Keys - seen
      {
        seen := seen + {current};
        current := db.accounts[current].mergedInto.value;
      }
    }

    /** The account, then every identity merged into it, each once. */
    method OwnedAccountIds(id: AccountId) returns (ids: seq<AccountId>)
      ensures Elements(ids) == Owned(db.accounts, id) && ids != [] && ids[0] == id
      ensures Forest(db.accounts) ==> Distinct(ids)
    {
      ids := [id];
      var merged := set x | x in db.accounts && db.accounts[x].mergedInto.Some?;
      var left := merged;
      while left != {}
        invariant left <= merged && ids != [] && ids[0] == id
        invariant Elements(ids) == {id} + set x | x in merged - left && Canonical(db.accounts, x) == id
        invariant Forest(db.accounts) ==> Distinct(ids)
        decreases left
      {
        var x :| x in left;
        left := left - {x};
        var root := CanonicalAccountId(x);
        if root == id {
          if Forest(db.accounts) {
            CanonicalUnmerged(db.accounts, x);
            assert x !in Elements(ids);
          }
          assert Elements(ids + [x]) == Elements(ids) + {x};
          ids := ids + [x];
        }
      }
      assert merged - left == merged;
    }

    /** The account, token and client a bearer secret authenticates as. */
    method ResolveToken(secret: Digest) returns (found: Option<(AccountId, TokenId, TokenId)>)
      requires DbInv(db)
      ensures found.None? ==> forall t | t in db.tokens :: !Accepts(db, t, secret)
      ensures found.Some? ==>
                && found.value.1 in db.tokens && Accepts(db, found.value.1, secret)
                && found.value.0 == db.tokens[found.value.1].account
                && found.value.2 == Client(db.tokens, found.value.1)
                && forall t | t in db.tokens && Accepts(db, t, secret) :: t == found.value.1
    {
      found := None;
      if t :| t in db.tokens && db.tokens[t].verifier == secret && !db.tokens[t].revoked {
        var account := db.accounts[db.tokens[t].account];
        if account.Active() && account.role == Integration {
          found := Some((db.tokens[t].account, t, if db.tokens[t].client.Some? then db.tokens[t].client.value else t));
        }
      }
    }

    // ---- the guarded transaction ------------------------------------------------------------------

    method TouchRows(ids: seq<AccountId>)
      requires Distinct(ids)
      modifies this`db
      ensures db == Touch(old(db), Elements(ids))
    {
      ghost var before := db;
      assert Touch(before, {}) == before;
      hide Touch;
      for k := 0 to |ids|
        invariant db == Touch(before, Elements(ids[..k]))
      {
        TouchOneMore(before, ids, k);
        TouchThrough(before, Elements(ids[..k]), ids[k]);
        TouchOne(db, ids[k]);
        if ids[k] in db.accounts {
          db := db.(accounts := db.accounts[ids[k] := db.accounts[ids[k]].(generation := db.accounts[ids[k]].generation + 1)]);
        }
      }
      assert ids[..|ids|] == ids;
    }

    method RevokeSessions(ids: seq<AccountId>)
      modifies this`sessions
      ensures sessions == Revoke(old(sessions), Elements(ids))
    {
      ghost var before := sessions;
      for k := 0 to |ids|
        invariant sessions == Revoke(before, Elements(ids[..k]))
      {
        assert ids[..k + 1] == ids[..k] + [ids[k]];
        sessions := map s | s in sessions && sessions[s].account != ids[k] :: sessions[s];
      }
      assert ids[..|ids|] == ids;
    }

    /** Ends a guarded transaction whose edit stands in `db`: commits it, or rolls back to `before`. */
    method Finish(before: Db, touched: seq<AccountId>, next: Settings) returns (reply: Reply)
      requires Distinct(touched)
      modifies this
      ensures Result(Snapshot(), reply) ==
                Mutate(State(before, old(sessions), old(clock), old(settings)), Edited(old(db)), Elements(touched), next)
    {
      if UsableAdminExists(before, settings) && !UsableAdminExists(db, next) {
        db := before;
        return Refused;
      }
      TouchRows(touched);
      settings := next;
      RevokeSessions(touched);
      return Done;
    }

    // ---- the directory ----------------------------------------------------------------------------

    method SetRole(actor: AccountId, a: AccountId, role: Role) returns (reply: Reply)
      modifies this
      ensures Result(Snapshot(), reply) == Step(old(Snapshot()), OpChangeRole(actor, a, role))
    {
      if actor == a || !LiveIn(db, a) || db.accounts[a].protection != Ordinary
         || (db.accounts[a].role == Integration) != (role == Integration) {
        return Refused;
      }
      var before := db;
      db := db.(accounts := db.accounts[a := db.accounts[a].(role := role)]);
      if UsableAdminExists(before, settings) && !UsableAdminExists(db, settings) {
        db := before;
        return Refused;
      }
      TouchRows([a]);
      assert Elements([a]) == {a};
      sessions := Rebind(db, sessions, clock, a);
      return Done;
    }

    /** Withdraws the outstanding demand recorded under one account. */
    method WithdrawDemandOf(owner: AccountId) returns (transfers: set<nat>)
      modifies this`db
      ensures db == WithdrawDemand(old(db), {owner}) && transfers == OutstandingTransfers(old(db), {owner})
    {
      transfers := set d | d in db.demands && db.demands[d].account == owner && !db.demands[d].withdrawn
                         :: db.demands[d].transfer;
      db := db.(demands := map d | d in db.demands ::
        if db.demands[d].account == owner then db.demands[d].(withdrawn := true) else db.demands[d]);
    }

    /** Withdraws the outstanding demand of `a` and of everyone merged into it, one recorded owner at a time. */
    method WithdrawOwnedDemand(a: AccountId) returns (transfers: set<nat>)
      modifies this`db
      ensures db == WithdrawDemand(old(db), Owned(old(db).accounts, a))
      ensures transfers == OutstandingTransfers(old(db), Owned(old(db).accounts, a))
    {
      ghost var before := db;
      var owners := OwnedAccountIds(a);
      transfers := {};
      assert WithdrawDemand(before, {}) == before && OutstandingTransfers(before, {}) == {};
      hide WithdrawDemand, OutstandingTransfers, Owned;
      assert Elements(owners[..0]) == {};
      for k := 0 to |owners|
        invariant db == WithdrawDemand(before, Elements(owners[..k]))
        invariant transfers == OutstandingTransfers(before, Elements(owners[..k]))
      {
        WithdrawThrough(before, Elements(owners[..k]), owners[k]);
        assert owners[..k + 1] == owners[..k] + [owners[k]];
        assert Elements(owners[..k + 1]) == Elements(owners[..k]) + {owners[k]};
        var more := WithdrawDemandOf(owners[k]);
        transfers := transfers + more;
      }
      assert owners[..|owners|] == owners;
    }

    method SetEnabled(actor: AccountId, a: AccountId, enabled: bool) returns (reply: Reply)
      modifies this
      ensures Result(Snapshot(), reply) == Step(old(Snapshot()), OpChangeEnabled(actor, a, enabled))
    {
      if actor == a || !LiveIn(db, a) || (db.accounts[a].protection == DefaultAdmin && !enabled) {
        return Refused;
      }
      var before := db;
      db := db.(accounts := db.accounts[a := db.accounts[a].(enabled := enabled)]);
      var withdrawn: set<nat> := {};
      if !enabled {
        OwnedKept(before, a, db);
        withdrawn := WithdrawOwnedDemand(a);
      }
      reply := Finish(before, [a], settings);
      assert Elements([a]) == {a};
      if !enabled && reply.Done? {
        reply := Withdrawn(withdrawn);
      }
    }

    method DeleteAccount(actor: AccountId, a: AccountId) returns (reply: Reply)
      modifies this
      ensures Result(Snapshot(), reply) == Step(old(Snapshot()), OpRemove(actor, a))
    {
      if actor == a || !LiveIn(db, a) || db.accounts[a].protection != Ordinary {
        return Refused;
      }
      var before := db;
      db := db.(credentials := db.credentials - {a});
      db := db.(accounts := db.accounts[a := db.accounts[a].(enabled := false, deleted := true)]);
      db := db.(tokens := RevokeTokensOf(db.tokens, a));
      OwnedKept(before, a, db);
      var withdrawn := WithdrawOwnedDemand(a);
      reply := Finish(before, [a], settings);
      assert Elements([a]) == {a};
      if reply.Done? {
        reply := Withdrawn(withdrawn);
      }
    }

    /** The listed identities, each once, in the order they first appear. */
    static method Deduplicated(ids: seq<AccountId>) returns (once: seq<AccountId>)
      ensures Distinct(once) && Elements(once) == Elements(ids)
    {
      once := [];
      for k := 0 to |ids|
        invariant Distinct(once) && Elements(once) == Elements(ids[..k])
      {
        assert ids[..k + 1] == ids[..k] + [ids[k]];
        if ids[k] !in once {
          assert Elements(once + [ids[k]]) == Elements(once) + {ids[k]};
          once := once + [ids[k]];
        } else {
          assert ids[k] in Elements(once);
        }
      }
      assert ids[..|ids|] == ids;
    }

    /** Checks every account to fold, and counts who among them all holds a local credential. */
    method CheckFold(sources: seq<AccountId>, target: AccountId) returns (ok: bool)
      requires LiveIn(db, target) && Distinct(sources) && target !in sources
      ensures ok <==> (forall x | x in sources :: MayFold(db, x, target))
                      && OneHolder(db.credentials, Elements(sources) + {target})
    {
      var holders: seq<AccountId> := [];
      for k := 0 to |sources|
        invariant forall x | x in sources[..k] :: MayFold(db, x, target)
        invariant Distinct(holders) && Elements(holders) == Elements(sources[..k]) * db.credentials.Keys
      {
        TouchOneMore(db, sources, k);
        if !MayFold(db, sources[k], target) {
          return false;
        }
        if sources[k] in db.credentials {
          assert sources[k] !in Elements(holders);
          assert Elements(holders + [sources[k]]) == Elements(holders) + {sources[k]};
          holders := holders + [sources[k]];
        }
      }
      assert sources[..|sources|] == sources;
      if target in db.credentials {
        assert target !in Elements(holders);
        assert Elements(holders + [target]) == Elements(holders) + {target};
        holders := holders + [target];
      }
      assert Elements(holders) == (Elements(sources) + {target}) * db.credentials.Keys;
      HoldersDecide(db.credentials, Elements(sources) + {target}, holders);
      ok := |holders| <= 1;
    }

    /** Folds one account: its bindings and any local credential move, and its row becomes a redirection. */
    method FoldOne(source: AccountId, target: AccountId)
      requires source in db.accounts && source != target
      modifies this`db
      ensures db == old(db).(
                accounts := FoldAccounts(old(db).accounts, {source}, target),
                bindings := FoldBindings(old(db).bindings, {source}, target),
                credentials := if source in old(db).credentials
                               then (old(db).credentials - {source})[target := old(db).credentials[source]]
                               else old(db).credentials)
    {
      ghost var before := db;
      if source in db.credentials {
        db := db.(credentials := (db.credentials - {source})[target := db.credentials[source]]);
      }
      db := db.(bindings := map i | i in db.bindings :: if db.bindings[i] == source then target else db.bindings[i]);
      db := db.(accounts := db.accounts[source :=
        db.accounts[source].(enabled := false, deleted := true, mergedInto := Some(target))]);
      assert db.bindings == FoldBindings(before.bindings, {source}, target);
      assert db.accounts == FoldAccounts(before.accounts, {source}, target);
    }

    method FoldAll(sources: seq<AccountId>, target: AccountId)
      requires Distinct(sources) && target !in sources && (forall x | x in sources :: x in db.accounts)
      requires OneHolder(db.credentials, Elements(sources) + {target})
      modifies this`db
      ensures db == Folded(old(db), Elements(sources), target)
    {
      ghost var before := db;
      FoldedNone(before, target);
      for k := 0 to |sources|
        invariant db == Folded(before, Elements(sources[..k]), target)
      {
        hide Folded;
        TouchOneMore(before, sources, k);
        assert OneHolder(before.credentials, Elements(sources[..k]) + {sources[k], target});
        FoldOneMore(before, Elements(sources[..k]), sources[k], target);
        FoldOne(sources[k], target);
      }
      assert sources[..|sources|] == sources;
    }

    method MergeAccounts(actor: AccountId, sourceIds: seq<AccountId>, target: AccountId) returns (reply: Reply)
      modifies this
      ensures Result(Snapshot(), reply) == Step(old(Snapshot()), OpMerge(actor, sourceIds, target))
    {
      hide FoldAccounts;
      hide FoldBindings;
      hide FoldCredentials;
      hide UsableAdminExists;
      var sources := Deduplicated(sourceIds);
      SameElements(sources, sourceIds);
      if sources == [] || actor == target || actor in sources || target in sources || !LiveIn(db, target) {
        return Refused;
      }
      var ok := CheckFold(sources, target);
      if !ok {
        return Refused;
      }
      var before := db;
      FoldAll(sources, target);
      assert Elements(sources + [target]) == Elements(sourceIds) + {target};
      reply := Finish(before, sources + [target], settings);
    }

    // ---- creating accounts ------------------------------------------------------------------------

    /** Creates or replaces the one credential of `a`. */
    method WritePasswordRow(a: AccountId, username: Option<string>, verifier: Option<Digest>) returns (ok: bool)
      modifies this`db
      ensures if ok then SetPasswordRow(old(db), a, username, verifier) == Edited(db)
              else SetPasswordRow(old(db), a, username, verifier) == Rejected && db == old(db)
    {
      hide UsernameTaken;
      hide Trim;
      var stored := if a in db.credentials then db.credentials[a] else Credential("", None);
      var name := Trim(if username.Some? then username.value else stored.username);
      if name == "" || |name| > MAX_USERNAME {
        return false;
      }
      if UsernameTaken(db, name, a) {
        return false;
      }
      db := db.(credentials := db.credentials[a := Credential(name, if verifier.Some? then verifier else stored.verifier)]);
      return true;
    }

    method CreateLocalAccount(id: AccountId, username: string, password: Password, role: Role) returns (reply: Reply)
      modifies this
      ensures Result(Snapshot(), reply) == Step(old(Snapshot()), OpCreateLocal(id, username, password, role))
    {
      hide UsableAdminExists;
      hide SetPasswordRow;
      if role == Integration || password.TooShort? || id in db.accounts {
        return Refused;
      }
      var before := db;
      var row := Account(role, true, false, None, Ordinary, 1, Email(Blank, false, false, false));
      db := db.(accounts := db.accounts[id := row]);
      var ok := WritePasswordRow(id, Some(username), if password.Prepared? then Some(password.verifier) else None);
      if !ok {
        db := before;
        return Refused;
      }
      reply := Finish(before, [], settings);
      assert Elements<AccountId>([]) == {};
    }

    method CreateIntegrationAccount(id: AccountId) returns (reply: Reply)
      modifies this
      ensures Result(Snapshot(), reply) == Step(old(Snapshot()), OpCreateIntegration(id))
    {
      hide UsableAdminExists;
      if id in db.accounts {
        return Refused;
      }
      var before := db;
      var row := Account(Integration, true, false, None, Ordinary, 1, Email(Blank, false, false, false));
      db := db.(accounts := db.accounts[id := row]);
      reply := Finish(before, [], settings);
      assert Elements<AccountId>([]) == {};
    }

    // ---- sign-in ----------------------------------------------------------------------------------

    /** Inserts the row of an account provisioned for an identity: the configured role if it may be provisioned, and
        the email the claims offer, verified only as far as they say so. */
    method InsertOidcAccount(id: AccountId, configured: Role, enabled: bool, claim: Claim)
      modifies this`db
      ensures db == old(db).(accounts :=
                old(db).accounts[id := NewAccount(ProvisionRole(configured), enabled, ClaimedEmail(claim))])
    {
      var role := User;
      if configured == User || configured == ReadOnly {
        role := configured;
      }
      var verified, known := false, false;
      if claim.address != Blank && claim.verified.Some? {
        verified, known := claim.verified.value, true;
      }
      var email := Email(claim.address, verified, known, false);
      db := db.(accounts := db.accounts[id := Account(role, enabled, false, None, Ordinary, 1, email)]);
    }

    /** A returning identity's claims fill an empty email, or restate the verification of the same one. */
    method CompleteOidcProfile(a: AccountId, claim: Claim)
      modifies this`db
      ensures db == CompleteProfile(old(db), a, claim)
    {
      if a !in db.accounts || !db.accounts[a].Active() {
        return;
      }
      var email := db.accounts[a].email;
      var verified := if claim.address == Blank then None else claim.verified;
      if claim.address != Blank && email.address == Blank {
        email := Email(claim.address, verified == Some(true), verified.Some?, false);
      } else if claim.address != Blank && verified.Some? && !email.entered && SameAddress(claim.address, email.address) {
        email := Email(email.address, verified.value, true, email.entered);
      }
      if email == db.accounts[a].email {
        assert db.accounts[a := db.accounts[a].(email := email)] == db.accounts;
      } else {
        db := db.(accounts := db.accounts[a := db.accounts[a].(email := email)]);
      }
    }

    /** Resolves an identity to the account it signs in as: its own, one inserted now, or one inserted now and disabled
        beside the tombstone it was bound to. */
    method SignInOidc(identity: Identity, id: AccountId, role: Role, claim: Claim) returns (reply: Reply)
      modifies this
      ensures Result(Snapshot(), reply) == Step(old(Snapshot()), OpResolveOidc(identity, id, role, claim))
    {
      hide ClaimedEmail;
      if identity.issuer == Blank || identity.subject == Blank {
        return SignsInAs(None);
      }
      var account := id;
      if identity !in db.bindings {
        if id in db.accounts {
          return Refused;
        }
        InsertOidcAccount(id, role, true, claim);
        db := db.(bindings := db.bindings[identity := id]);
      } else {
        account := db.bindings[identity];
        if account in db.accounts && db.accounts[account].deleted && db.accounts[account].mergedInto.None? {
          if id in db.accounts {
            return Refused;
          }
          account := id;
          InsertOidcAccount(id, role, false, claim);
          db := db.(bindings := db.bindings[identity := id]);
        } else {
          CompleteOidcProfile(account, claim);
        }
      }
      return SignsInAs(if account in db.accounts && db.accounts[account].Active() then Some(account) else None);
    }

    method BindVerifiedOidc(identity: Identity, a: AccountId) returns (reply: Reply)
      modifies this
      ensures Result(Snapshot(), reply) == Step(old(Snapshot()), OpBindVerified(identity, a))
    {
      var target := if identity in db.bindings then db.bindings[identity] else a;
      if identity.issuer == Blank || identity.subject == Blank || target !in db.accounts
         || !db.accounts[target].Active() || db.accounts[target].role != Admin {
        return SignsInAs(None);
      }
      if identity !in db.bindings {
        db := db.(bindings := db.bindings[identity := target]);
      }
      assert db.bindings == old(db).bindings[identity := target];
      return SignsInAs(Some(target));
    }

    // ---- credentials ------------------------------------------------------------------------------

    method SetOwnLocalCredential(a: AccountId, username: Option<string>, password: Password, clear: bool, next: Settings)
      returns (reply: Reply)
      modifies this
      ensures Result(Snapshot(), reply) == Step(old(Snapshot()), OpSetOwnCredential(a, username, password, clear, next))
    {
      hide UsableAdminExists;
      hide SetPasswordRow;
      if (!clear && password.TooShort?) || !LiveIn(db, a) || db.accounts[a].role == Integration {
        return Refused;
      }
      var before := db;
      var ok := true;
      if clear {
        if username.Some? {
          ok := WritePasswordRow(a, username, None);
        }
        if ok && a in db.credentials {
          db := db.(credentials := db.credentials[a := db.credentials[a].(verifier := None)]);
        }
      } else if username.Some? && Trim(username.value) == "" && password.NoPassword? {
        ok := !HasPassword(db, a);
        if ok {
          db := db.(credentials := db.credentials - {a});
        }
      } else {
        ok := WritePasswordRow(a, username, if password.Prepared? then Some(password.verifier) else None);
      }
      if !ok {
        db := before;
        return Refused;
      }
      reply := Finish(before, [a], next);
      assert Elements([a]) == {a};
    }

    method ResetAccountPassword(actor: AccountId, a: AccountId, password: Password, username: Option<string>)
      returns (reply: Reply)
      modifies this
      ensures Result(Snapshot(), reply) == Step(old(Snapshot()), OpResetPassword(actor, a, password, username))
    {
      hide UsableAdminExists;
      hide SetPasswordRow;
      if actor == a || !password.Prepared? || !LiveIn(db, a) || db.accounts[a].role == Integration {
        return Refused;
      }
      var before := db;
      var ok := WritePasswordRow(a, username, Some(password.verifier));
      if !ok {
        return Refused;
      }
      reply := Finish(before, [a], settings);
      assert Elements([a]) == {a};
    }

    method ChangeProvenPassword(a: AccountId, proven: Digest, password: Password) returns (reply: Reply)
      modifies this
      ensures Result(Snapshot(), reply) == Step(old(Snapshot()), OpChangeOwnPassword(a, proven, password))
    {
      hide UsableAdminExists;
      hide SetPasswordRow;
      if !password.Prepared? || !LiveIn(db, a) || a !in db.credentials || db.credentials[a].verifier != Some(proven) {
        return Refused;
      }
      var before := db;
      var ok := WritePasswordRow(a, None, Some(password.verifier));
      if !ok {
        return Refused;
      }
      reply := Finish(before, [a], settings);
      assert Elements([a]) == {a};
    }

    method ImportLegacyCredential(username: string, verifier: Option<Digest>) returns (reply: Reply)
      modifies this
      ensures Result(Snapshot(), reply) == Step(old(Snapshot()), OpImportLegacy(username, verifier))
    {
      hide UsernameTaken;
      hide Trim;
      if verifier.None? {
        return Done;
      }
      var held := DEFAULT_ADMIN in db.credentials;
      var name := if Trim(username) != "" then Trim(username) else if held then db.credentials[DEFAULT_ADMIN].username else "";
      if held && db.credentials[DEFAULT_ADMIN] == Credential(name, verifier) {
        return Done;
      }
      if name == "" {
        return Refused;
      }
      if UsernameTaken(db, name, DEFAULT_ADMIN) {
        return Refused;
      }
      db := db.(credentials := db.credentials[DEFAULT_ADMIN := Credential(name, verifier)]);
      TouchRows([DEFAULT_ADMIN]);
      RevokeSessions([DEFAULT_ADMIN]);
      assert Elements([DEFAULT_ADMIN]) == {DEFAULT_ADMIN};
      return Done;
    }

    method EnterOwnEmail(a: AccountId, address: Atom, expected: Atom) returns (reply: Reply)
      modifies this
      ensures Result(Snapshot(), reply) == Step(old(Snapshot()), OpSetOwnEmail(a, address, expected))
    {
      hide UsableAdminExists;
      if address == Blank || !LiveIn(db, a) || db.accounts[a].role == Integration {
        return Refused;
      }
      var stored := db.accounts[a].email;
      if stored.address != expected || !(stored.address == Blank || stored.entered) {
        return Refused;
      }
      var before := db;
      db := db.(accounts := db.accounts[a := db.accounts[a].(email := Email(address, false, true, true))]);
      reply := Finish(before, [], settings);
      assert Elements<AccountId>([]) == {};
    }

    // ---- tokens -----------------------------------------------------------------------------------

    method IssueToken(a: AccountId, t: TokenId, secret: Digest, succeeds: Option<TokenId>) returns (reply: Reply)
      modifies this
      ensures Result(Snapshot(), reply) == Step(old(Snapshot()), OpCreateToken(a, t, secret, succeeds))
    {
      if !LiveIn(db, a) || db.accounts[a].role != Integration || t in db.tokens || VerifierTaken(db.tokens, secret) {
        return Refused;
      }
      var client := t;
      if succeeds.Some? {
        var owners := OwnedAccountIds(a);
        if succeeds.value !in db.tokens || db.tokens[succeeds.value].account !in Elements(owners) {
          return Refused;
        }
        client := Client(db.tokens, succeeds.value);
        db := db.(tokens := db.tokens[succeeds.value := db.tokens[succeeds.value].(revoked := true)]);
      }
      db := db.(tokens := db.tokens[t := Token(a, secret, false, Some(client))]);
      return Done;
    }

    method RevokeOneToken(a: AccountId, t: TokenId) returns (reply: Reply)
      modifies this
      ensures Result(Snapshot(), reply) == Step(old(Snapshot()), OpRevokeToken(a, t))
    {
      if t !in db.tokens || db.tokens[t].account != a || db.tokens[t].revoked {
        return Refused;
      }
      db := db.(tokens := db.tokens[t := db.tokens[t].(revoked := true)]);
      return Done;
    }
  }

  /** A change of rows that redirects nobody leaves everybody's property where it was. */
  lemma OwnedKept(before: Db, a: AccountId, after: Db)
    requires a in before.accounts && a in after.accounts
    requires after.accounts == before.accounts[a := after.accounts[a]]
    requires after.accounts[a].mergedInto == before.accounts[a].mergedInto
    ensures Owned(after.accounts, a) == Owned(before.accounts, a)
  {
    SameTreeCanonical(before.accounts, after.accounts);
  }
}
