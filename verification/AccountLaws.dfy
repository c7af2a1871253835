/** What every account operation keeps, over every run. */
module AccountLaws {
  import opened Support
  import opened Text
  import opened AccountModel
  import opened MergeForest

  // ---- the invariant ------------------------------------------------------------------------------

  /** The two default identities are always live; the default Admin is always an enabled Admin. */
  ghost predicate DefaultsKept(accounts: Accounts) {
    && DEFAULT_ADMIN in accounts && accounts[DEFAULT_ADMIN].role == Admin && accounts[DEFAULT_ADMIN].Active()
    && DEFAULT_INTEGRATION in accounts && accounts[DEFAULT_INTEGRATION].role == Integration
    && accounts[DEFAULT_INTEGRATION].Live()
    && forall a | a in accounts ::
         && (accounts[a].protection == DefaultAdmin <==> a == DEFAULT_ADMIN)
         && (accounts[a].protection == DefaultIntegration <==> a == DEFAULT_INTEGRATION)
  }

  /** A merged account is a tombstone, and a tombstone is disabled. */
  ghost predicate TombstonesDisabled(accounts: Accounts) {
    forall a | a in accounts ::
      && (accounts[a].mergedInto.Some? ==> accounts[a].deleted)
      && (accounts[a].deleted ==> !accounts[a].enabled)
  }

  /** A self-entered address is never verified, and verification is only ever claimed of an address. */
  ghost predicate EmailsHonest(accounts: Accounts) {
    forall a | a in accounts ::
      var e := accounts[a].email;
      && (e.entered ==> e.address != Blank && e.known && !e.verified)
      && (e.verified ==> e.address != Blank && e.known)
  }

  /** A credential belongs to a live human account, and no two share a username. */
  ghost predicate CredentialsOwned(db: Db) {
    && (forall a | a in db.credentials ::
          LiveIn(db, a) && db.accounts[a].role != Integration && db.credentials[a].username != "")
    && forall a, b | a in db.credentials && b in db.credentials ::
         db.credentials[a].username == db.credentials[b].username ==> a == b
  }

  /** A binding names a human account that is not merged. */
  ghost predicate BindingsOwned(db: Db) {
    forall i | i in db.bindings ::
      && i.issuer != Blank && i.subject != Blank
      && db.bindings[i] in db.accounts && db.accounts[db.bindings[i]].mergedInto.None?
      && db.accounts[db.bindings[i]].role != Integration
  }

  /** Every token is an Integration account's, its client is some token, and verifiers are unique. */
  ghost predicate TokenRows(db: Db) {
    && (forall t | t in db.tokens ::
          db.tokens[t].account in db.accounts && db.accounts[db.tokens[t].account].role == Integration)
    && (forall t {:trigger Client(db.tokens, t)} | t in db.tokens :: Client(db.tokens, t) in db.tokens)
    && UniqueVerifiers(db.tokens)
  }

  ghost predicate UniqueVerifiers(tokens: map<TokenId, Token>) {
    forall t, u | t in tokens && u in tokens :: tokens[t].verifier == tokens[u].verifier ==> t == u
  }

  /** One client is one account, merges considered. */
  ghost predicate TokenOwners(db: Db) {
    forall t, u {:trigger OneOwner(db, t, u)} | t in db.tokens && u in db.tokens :: OneOwner(db, t, u)
  }

  /** Two tokens of one client belong to one account, merges considered. */
  ghost predicate OneOwner(db: Db, t: TokenId, u: TokenId)
    requires t in db.tokens && u in db.tokens
  {
    Client(db.tokens, t) == Client(db.tokens, u) ==>
      Canonical(db.accounts, db.tokens[t].account) == Canonical(db.accounts, db.tokens[u].account)
  }

  /** Every unexpired session names an active account and carries its current role and generation. */
  ghost predicate SessionsFresh(s: State) {
    forall k | k in s.sessions && s.sessions[k].expires > s.clock ::
      var session := s.sessions[k];
      && session.account in s.db.accounts && s.db.accounts[session.account].Active()
      && session.role == s.db.accounts[session.account].role
      && session.generation == s.db.accounts[session.account].generation
  }

  ghost predicate AccountsInv(accounts: Accounts) {
    DefaultsKept(accounts) && TombstonesDisabled(accounts) && EmailsHonest(accounts)
  }

  ghost predicate DbInv(db: Db) {
    AccountsInv(db.accounts) && CredentialsOwned(db) && BindingsOwned(db) && TokenRows(db) && TokenOwners(db)
  }

  ghost predicate Inv(s: State) {
    DbInv(s.db) && Forest(s.db.accounts) && SessionsFresh(s)
  }

  // ---- what is never undone -----------------------------------------------------------------------

  /** The history an account keeps from one state to a later one. */
  ghost predicate AccountExtends(x: Account, y: Account) {
    && y.protection == x.protection && y.generation >= x.generation
    && (x.role == Integration <==> y.role == Integration)
    && (x.deleted ==> y.deleted) && (x.mergedInto.Some? ==> y.mergedInto == x.mergedInto)
    && (x.email.address != Blank && !x.email.entered ==> y.email.address == x.email.address && !y.email.entered)
  }

  ghost predicate AccountsExtend(x: Accounts, y: Accounts) {
    x.Keys <= y.Keys && forall a | a in x :: AccountExtends(x[a], y[a])
  }

  ghost predicate TokensExtend(x: map<TokenId, Token>, y: map<TokenId, Token>) {
    && x.Keys <= y.Keys
    && forall t | t in x ::
         && y[t].account == x[t].account && y[t].verifier == x[t].verifier && y[t].client == x[t].client
         && (x[t].revoked ==> y[t].revoked)
  }

  ghost predicate DemandsExtend(x: map<int, Demand>, y: map<int, Demand>) {
    && x.Keys <= y.Keys
    && forall d | d in x ::
         && y[d].account == x[d].account && y[d].transfer == x[d].transfer && (x[d].withdrawn ==> y[d].withdrawn)
  }

  /** Nothing durable is lost or rewritten: accounts, tombstones, bindings, tokens, clients and withdrawals stay. */
  ghost predicate Extends(x: Db, y: Db) {
    && AccountsExtend(x.accounts, y.accounts) && x.bindings.Keys <= y.bindings.Keys
    && TokensExtend(x.tokens, y.tokens) && DemandsExtend(x.demands, y.demands)
  }

  /** An edit that leaves every account outside `touched` exactly as sessions see it. */
  ghost predicate Standing(x: Accounts, y: Accounts, touched: set<AccountId>) {
    && x.Keys <= y.Keys
    && forall a | a in x ::
         && y[a].generation == x[a].generation
         && (a !in touched ==> y[a].role == x[a].role && y[a].Active() == x[a].Active())
  }

  // ---- edits --------------------------------------------------------------------------------------

  /** Accounts change without a merge or a removal: the tree, who is live and who is human stay. */
  ghost predicate Tame(x: Accounts, y: Accounts) {
    && SameTree(x, y)
    && forall a | a in x :: y[a].deleted == x[a].deleted && (x[a].role == Integration <==> y[a].role == Integration)
  }

  lemma CredentialsFrame(x: Db, y: Db)
    requires CredentialsOwned(x) && Tame(x.accounts, y.accounts) && y.credentials == x.credentials
    ensures CredentialsOwned(y)
  {
  }

  lemma BindingsFrame(x: Db, y: Db)
    requires BindingsOwned(x) && Tame(x.accounts, y.accounts) && y.bindings == x.bindings
    ensures BindingsOwned(y)
  {
  }

  lemma RowsFrame(x: Db, y: Db)
    requires TokenRows(x) && TokensExtend(x.tokens, y.tokens) && y.tokens.Keys == x.tokens.Keys
    requires x.accounts.Keys <= y.accounts.Keys
    requires forall a | a in x.accounts :: x.accounts[a].role == Integration ==> y.accounts[a].role == Integration
    ensures TokenRows(y)
  {
    forall t | t in y.tokens ensures Client(y.tokens, t) in y.tokens {
      assert Client(y.tokens, t) == Client(x.tokens, t);
    }
  }

  lemma OwnersFrame(x: Db, y: Db)
    requires TokenOwners(x) && SameTree(x.accounts, y.accounts)
    requires TokensExtend(x.tokens, y.tokens) && y.tokens.Keys == x.tokens.Keys
    ensures TokenOwners(y)
  {
    SameTreeCanonical(x.accounts, y.accounts);
    forall t, u | t in y.tokens && u in y.tokens ensures OneOwner(y, t, u) {
      assert OneOwner(x, t, u);
    }
  }

  lemma TameKeeps(x: Db, y: Db)
    requires DbInv(x) && AccountsInv(y.accounts) && Tame(x.accounts, y.accounts) && y == x.(accounts := y.accounts)
    ensures DbInv(y)
  {
    CredentialsFrame(x, y);
    BindingsFrame(x, y);
    RowsFrame(x, y);
    OwnersFrame(x, y);
  }

  /** What a change of the account rows alone must establish. */
  ghost predicate AccountsKept(x: Accounts, y: Accounts, touched: set<AccountId>) {
    AccountsInv(y) && Tame(x, y) && AccountsExtend(x, y) && Standing(x, y, touched)
  }

  /** A new field content that keeps an account's standing in the directory. */
  ghost predicate Harmless(x: Account, y: Account) {
    && y.deleted == x.deleted && y.mergedInto == x.mergedInto && y.protection == x.protection
    && y.generation == x.generation
    && (x.role == Integration <==> y.role == Integration)
    && (x.deleted ==> !y.enabled)
    && (x.email.address != Blank && !x.email.entered ==> y.email.address == x.email.address && !y.email.entered)
    && (y.email.entered ==> y.email.address != Blank && y.email.known && !y.email.verified)
    && (y.email.verified ==> y.email.address != Blank && y.email.known)
    && (x.protection == DefaultAdmin ==> y.role == Admin && y.enabled)
  }

  lemma ReplaceAccount(accounts: Accounts, a: AccountId, y: Account, touched: set<AccountId>)
    requires AccountsInv(accounts) && a in accounts && Harmless(accounts[a], y)
    requires a in touched || (y.role == accounts[a].role && y.enabled == accounts[a].enabled)
    ensures AccountsKept(accounts, accounts[a := y], touched)
  {
  }

  lemma AddAccount(accounts: Accounts, id: AccountId, y: Account)
    requires AccountsInv(accounts) && id !in accounts
    requires y.protection == Ordinary && !y.deleted && y.mergedInto.None? && !y.email.entered
    requires y.email.verified ==> y.email.address != Blank && y.email.known
    ensures AccountsKept(accounts, accounts[id := y], {})
  {
  }

  ghost predicate Keeps(x: Db, edit: Edit, touched: set<AccountId>) {
    edit.Edited? ==> DbInv(edit.db) && Extends(x, edit.db) && Standing(x.accounts, edit.db.accounts, touched)
  }

  lemma AccountsKeep(x: Db, y: Db, touched: set<AccountId>)
    requires DbInv(x) && AccountsKept(x.accounts, y.accounts, touched) && y == x.(accounts := y.accounts)
    ensures Keeps(x, Edited(y), touched)
  {
    TameKeeps(x, y);
  }

  /** The row written is owned by `a` alone, under a name nobody else has. */
  lemma SetPasswordRowOwned(db: Db, a: AccountId, username: Option<string>, verifier: Option<Digest>)
    requires CredentialsOwned(db) && LiveIn(db, a) && db.accounts[a].role != Integration
    ensures var edit := SetPasswordRow(db, a, username, verifier);
            edit.Edited? ==> CredentialsOwned(edit.db) && edit.db == db.(credentials := edit.db.credentials)
  {
    hide Trim;
  }

  /** The credential table is the last part of an edit. */
  lemma CredentialsKeep(x: Db, between: Db, y: Db, touched: set<AccountId>)
    requires Keeps(x, Edited(between), touched)
    requires CredentialsOwned(y) && y == between.(credentials := y.credentials)
    ensures Keeps(x, Edited(y), touched)
  {
    assert TokenOwners(y) by { OwnersFrame(between, y); }
  }

  lemma Unedited(db: Db)
    requires DbInv(db)
    ensures Keeps(db, Edited(db), {})
  {
  }

  lemma SetPasswordRowKeeps(db: Db, between: Db, a: AccountId, username: Option<string>, verifier: Option<Digest>)
    requires Keeps(db, Edited(between), {}) && LiveIn(between, a) && between.accounts[a].role != Integration
    ensures Keeps(db, SetPasswordRow(between, a, username, verifier), {})
  {
    SetPasswordRowOwned(between, a, username, verifier);
    var edit := SetPasswordRow(between, a, username, verifier);
    if edit.Edited? {
      CredentialsKeep(db, between, edit.db, {});
    }
  }

  lemma CreateLocalKeeps(db: Db, id: AccountId, username: string, password: Password, role: Role)
    requires DbInv(db)
    ensures Keeps(db, CreateLocal(db, id, username, password, role), {})
  {
    if role != Integration && !password.TooShort? && id !in db.accounts {
      var added := db.(accounts := db.accounts[id := NewAccount(role, true, NO_EMAIL)]);
      AddAccount(db.accounts, id, NewAccount(role, true, NO_EMAIL));
      AccountsKeep(db, added, {});
      SetPasswordRowKeeps(db, added, id, Some(username), if password.Prepared? then Some(password.verifier) else None);
    }
  }

  lemma CreateIntegrationKeeps(db: Db, id: AccountId)
    requires DbInv(db)
    ensures Keeps(db, CreateIntegration(db, id), {})
  {
    if id !in db.accounts {
      AddAccount(db.accounts, id, NewAccount(Integration, true, NO_EMAIL));
      AccountsKeep(db, CreateIntegration(db, id).db, {});
    }
  }

  /** An edit of one account row. */
  lemma ReplaceKeeps(db: Db, a: AccountId, y: Account, touched: set<AccountId>)
    requires DbInv(db) && a in db.accounts && Harmless(db.accounts[a], y)
    requires a in touched || (y.role == db.accounts[a].role && y.enabled == db.accounts[a].enabled)
    ensures Keeps(db, Edited(db.(accounts := db.accounts[a := y])), touched)
  {
    ReplaceAccount(db.accounts, a, y, touched);
    AccountsKeep(db, db.(accounts := db.accounts[a := y]), touched);
  }

  lemma EditsOfOneAccountKeep(db: Db, a: AccountId)
    requires DbInv(db)
    ensures forall actor, role :: Keeps(db, ChangeRole(db, actor, a, role), {a})
    ensures forall address, expected :: Keeps(db, SetOwnEmail(db, a, address, expected), {})
    ensures forall claim :: Keeps(db, Edited(CompleteProfile(db, a, claim)), {})
  {
    forall actor, role ensures Keeps(db, ChangeRole(db, actor, a, role), {a}) {
      if ChangeRole(db, actor, a, role).Edited? {
        ReplaceKeeps(db, a, db.accounts[a].(role := role), {a});
      }
    }
    forall address, expected ensures Keeps(db, SetOwnEmail(db, a, address, expected), {}) {
      if SetOwnEmail(db, a, address, expected).Edited? {
        ReplaceKeeps(db, a, db.accounts[a].(email := Email(address, false, true, true)), {});
      }
    }
    forall claim ensures Keeps(db, Edited(CompleteProfile(db, a, claim)), {}) {
      if a in db.accounts && db.accounts[a].Active() {
        ReplaceKeeps(db, a, db.accounts[a].(email := CompleteEmail(db.accounts[a].email, claim)), {});
      } else {
        Unedited(db);
      }
    }
  }

  /** The demand table is the last part of an edit. */
  lemma DemandsKeep(x: Db, between: Db, y: Db, touched: set<AccountId>)
    requires Keeps(x, Edited(between), touched)
    requires y == between.(demands := y.demands) && DemandsExtend(between.demands, y.demands)
    ensures Keeps(x, Edited(y), touched)
  {
    assert SameTree(between.accounts, y.accounts);
    OwnersFrame(between, y);
  }

  lemma WithdrawKeeps(x: Db, db: Db, owners: set<AccountId>, touched: set<AccountId>)
    requires Keeps(x, Edited(db), touched)
    ensures Keeps(x, Edited(WithdrawDemand(db, owners)), touched)
  {
    DemandsKeep(x, db, WithdrawDemand(db, owners), touched);
  }

  lemma ChangeEnabledKeeps(db: Db, actor: AccountId, a: AccountId, enabled: bool)
    requires DbInv(db)
    ensures Keeps(db, ChangeEnabled(db, actor, a, enabled), {a})
  {
    if ChangeEnabled(db, actor, a, enabled).Edited? {
      var switched := db.(accounts := db.accounts[a := db.accounts[a].(enabled := enabled)]);
      ReplaceKeeps(db, a, db.accounts[a].(enabled := enabled), {a});
      WithdrawKeeps(db, switched, Owned(switched.accounts, a), {a});
    }
  }

  lemma RemovedTables(db: Db, a: AccountId, y: Db)
    requires CredentialsOwned(db) && BindingsOwned(db)
    requires LiveIn(db, a)
    requires y.accounts == db.accounts[a := db.accounts[a].(enabled := false, deleted := true)]
    requires y.credentials == db.credentials - {a} && y.bindings == db.bindings
    ensures CredentialsOwned(y) && BindingsOwned(y)
  {
  }

  lemma RemovedAccounts(accounts: Accounts, a: AccountId, y: Accounts)
    requires AccountsInv(accounts) && a in accounts && accounts[a].Live() && accounts[a].protection == Ordinary
    requires y == accounts[a := accounts[a].(enabled := false, deleted := true)]
    ensures AccountsInv(y) && AccountsExtend(accounts, y) && Standing(accounts, y, {a}) && SameTree(accounts, y)
  {
  }

  lemma RevokedTokens(db: Db, a: AccountId, y: Db)
    requires TokenRows(db) && TokenOwners(db) && y.tokens == RevokeTokensOf(db.tokens, a)
    requires SameTree(db.accounts, y.accounts) && AccountsExtend(db.accounts, y.accounts)
    ensures TokenRows(y) && TokenOwners(y) && TokensExtend(db.tokens, y.tokens)
  {
    assert TokensExtend(db.tokens, y.tokens) && y.tokens.Keys == db.tokens.Keys;
    RowsFrame(db, y);
    OwnersFrame(db, y);
  }

  /** The directory and its tables once `a` is a tombstone without a credential and with no live token. */
  lemma TombstoneKeeps(db: Db, a: AccountId, y: Db)
    requires DbInv(db) && LiveIn(db, a) && db.accounts[a].protection == Ordinary
    requires y == db.(accounts := db.accounts[a := db.accounts[a].(enabled := false, deleted := true)],
                      credentials := db.credentials - {a},
                      tokens := RevokeTokensOf(db.tokens, a))
    ensures Keeps(db, Edited(y), {a})
  {
    RemovedAccounts(db.accounts, a, y.accounts);
    RemovedTables(db, a, y);
    RevokedTokens(db, a, y);
  }

  lemma RemoveKeeps(db: Db, actor: AccountId, a: AccountId)
    requires DbInv(db)
    ensures Keeps(db, Remove(db, actor, a), {a})
  {
    if Remove(db, actor, a).Edited? {
      var removed := db.(
        accounts := db.accounts[a := db.accounts[a].(enabled := false, deleted := true)],
        credentials := db.credentials - {a},
        tokens := RevokeTokensOf(db.tokens, a));
      TombstoneKeeps(db, a, removed);
      WithdrawKeeps(db, removed, Owned(removed.accounts, a), {a});
    }
  }

  // ---- merging ------------------------------------------------------------------------------------

  ghost predicate Foldable(db: Db, sources: set<AccountId>, target: AccountId) {
    && LiveIn(db, target) && target !in sources && (forall x | x in sources :: MayFold(db, x, target))
    && OneHolder(db.credentials, sources + {target})
  }

  lemma FoldedCredentials(db: Db, sources: set<AccountId>, target: AccountId, y: Db)
    requires CredentialsOwned(db) && Foldable(db, sources, target)
    requires y.accounts == FoldAccounts(db.accounts, sources, target)
    requires y.credentials == FoldCredentials(db.credentials, sources, target)
    ensures CredentialsOwned(y)
  {
    if h :| h in sources && h in db.credentials {
      assert MayFold(db, h, target);
      assert target !in db.credentials;
    }
  }

  lemma FoldedBindings(db: Db, sources: set<AccountId>, target: AccountId, y: Db)
    requires BindingsOwned(db) && Foldable(db, sources, target)
    requires y.accounts == FoldAccounts(db.accounts, sources, target)
    requires y.bindings == FoldBindings(db.bindings, sources, target)
    ensures BindingsOwned(y) && db.bindings.Keys <= y.bindings.Keys
  {
  }

  lemma FoldedAccounts(db: Db, sources: set<AccountId>, target: AccountId, after: Accounts)
    requires AccountsInv(db.accounts) && Foldable(db, sources, target)
    requires after == FoldAccounts(db.accounts, sources, target)
    ensures AccountsInv(after)
  {
  }

  lemma FoldedHistory(db: Db, sources: set<AccountId>, target: AccountId, after: Accounts)
    requires Foldable(db, sources, target) && after == FoldAccounts(db.accounts, sources, target)
    ensures AccountsExtend(db.accounts, after)
    ensures Standing(db.accounts, after, sources + {target})
    ensures Redirected(db.accounts, after, sources, target)
  {
  }

  lemma FoldedOwners(db: Db, sources: set<AccountId>, target: AccountId, y: Db)
    requires TokenRows(db) && TokenOwners(db) && Forest(db.accounts)
    requires Redirected(db.accounts, y.accounts, sources, target) && y.tokens == db.tokens
    ensures TokenOwners(y)
  {
    forall t, u | t in db.tokens && u in db.tokens ensures OneOwner(y, t, u) {
      assert OneOwner(db, t, u);
      MergeRedirects(db.accounts, y.accounts, sources, target, db.tokens[t].account);
      MergeRedirects(db.accounts, y.accounts, sources, target, db.tokens[u].account);
    }
  }

  lemma MergeKeeps(db: Db, actor: AccountId, sources: seq<AccountId>, target: AccountId)
    requires DbInv(db) && Forest(db.accounts)
    ensures Keeps(db, Merge(db, actor, sources, target), Elements(sources) + {target})
    ensures Merge(db, actor, sources, target).Edited? ==>
              Redirected(db.accounts, Merge(db, actor, sources, target).db.accounts, Elements(sources), target)
  {
    var edit := Merge(db, actor, sources, target);
    if edit.Edited? {
      var from := Elements(sources);
      assert Foldable(db, from, target);
      FoldedCredentials(db, from, target, edit.db);
      FoldedBindings(db, from, target, edit.db);
      FoldedAccounts(db, from, target, edit.db.accounts);
      FoldedHistory(db, from, target, edit.db.accounts);
      RowsFrame(db, edit.db);
      FoldedOwners(db, from, target, edit.db);
    }
  }

  // ---- credentials and tokens ---------------------------------------------------------------------

  lemma ClearedOwned(db: Db, a: AccountId)
    requires CredentialsOwned(db)
    ensures CredentialsOwned(db.(credentials := db.credentials - {a}))
    ensures a in db.credentials ==>
              CredentialsOwned(db.(credentials := db.credentials[a := db.credentials[a].(verifier := None)]))
  {
  }

  lemma SetOwnCredentialKeeps(db: Db, a: AccountId, username: Option<string>, password: Password, clear: bool)
    requires DbInv(db)
    ensures Keeps(db, SetOwnCredential(db, a, username, password, clear), {})
  {
    var edit := SetOwnCredential(db, a, username, password, clear);
    if edit.Edited? {
      if clear {
        SetPasswordRowOwned(db, a, username, None);
        var named := if username.None? then Edited(db) else SetPasswordRow(db, a, username, None);
        ClearedOwned(named.db, a);
      } else {
        SetPasswordRowOwned(db, a, username, if password.Prepared? then Some(password.verifier) else None);
        ClearedOwned(db, a);
      }
      Unedited(db);
      CredentialsKeep(db, db, edit.db, {});
    }
  }

  lemma OtherCredentialsKeep(db: Db, actor: AccountId, a: AccountId, password: Password, username: Option<string>,
                             proven: Digest)
    requires DbInv(db)
    ensures Keeps(db, ResetPassword(db, actor, a, password, username), {})
    ensures Keeps(db, ChangeOwnPassword(db, a, proven, password), {})
  {
    if LiveIn(db, a) && db.accounts[a].role != Integration && password.Prepared? {
      Unedited(db);
      SetPasswordRowKeeps(db, db, a, username, Some(password.verifier));
      SetPasswordRowKeeps(db, db, a, None, Some(password.verifier));
    }
  }

  lemma TokensKeep(x: Db, y: Db)
    requires DbInv(x) && TokenRows(y) && TokenOwners(y) && TokensExtend(x.tokens, y.tokens)
    requires y == x.(tokens := y.tokens)
    ensures Keeps(x, Edited(y), {})
  {
    assert CredentialsOwned(y) by { CredentialsFrame(x, y); }
    assert BindingsOwned(y) by { BindingsFrame(x, y); }
  }

  /** A rotated token keeps the client its predecessor had, under the account that now owns both. */
  lemma CreateTokenKeeps(db: Db, a: AccountId, t: TokenId, verifier: Digest, succeeds: Option<TokenId>)
    requires DbInv(db) && Forest(db.accounts)
    ensures Keeps(db, CreateToken(db, a, t, verifier, succeeds), {})
  {
    var edit := CreateToken(db, a, t, verifier, succeeds);
    if edit.Edited? {
      CreatedRows(db, edit.db, a, t, verifier, succeeds);
      CreatedOwners(db, edit.db, a, t, verifier, succeeds);
      TokensKeep(db, edit.db);
    }
  }

  lemma CreatedVerifiers(db: Db, y: Db, a: AccountId, t: TokenId, verifier: Digest, succeeds: Option<TokenId>)
    requires UniqueVerifiers(db.tokens) && CreateToken(db, a, t, verifier, succeeds) == Edited(y)
    ensures UniqueVerifiers(y.tokens) && TokensExtend(db.tokens, y.tokens) && y.tokens.Keys == db.tokens.Keys + {t}
  {
    forall u | u in db.tokens ensures y.tokens[u].verifier == db.tokens[u].verifier != verifier {
    }
  }

  lemma CreatedRows(db: Db, y: Db, a: AccountId, t: TokenId, verifier: Digest, succeeds: Option<TokenId>)
    requires TokenRows(db) && CreateToken(db, a, t, verifier, succeeds) == Edited(y)
    ensures TokenRows(y) && TokensExtend(db.tokens, y.tokens) && y.tokens.Keys == db.tokens.Keys + {t}
  {
    CreatedVerifiers(db, y, a, t, verifier, succeeds);
    assert succeeds.Some? ==> Client(db.tokens, succeeds.value) in db.tokens;
    forall u | u in y.tokens ensures Client(y.tokens, u) in y.tokens {
      assert u in db.tokens ==> Client(y.tokens, u) == Client(db.tokens, u);
    }
  }

  lemma CreatedOwners(db: Db, y: Db, a: AccountId, t: TokenId, verifier: Digest, succeeds: Option<TokenId>)
    requires TokenRows(db) && TokenOwners(db) && Forest(db.accounts)
    requires CreateToken(db, a, t, verifier, succeeds) == Edited(y)
    requires TokensExtend(db.tokens, y.tokens) && y.tokens.Keys == db.tokens.Keys + {t}
    ensures TokenOwners(y)
  {
    CanonicalUnmerged(db.accounts, a);
    if succeeds.Some? {
      OwnedPartition(db.accounts, db.tokens[succeeds.value].account);
    }
    var like := if succeeds.Some? then succeeds.value else t;
    forall u, v | u in y.tokens && v in y.tokens ensures OneOwner(y, u, v) {
      var u', v' := if u == t then like else u, if v == t then like else v;
      assert u' in db.tokens && v' in db.tokens ==> OneOwner(db, u', v');
      assert u in db.tokens ==> Client(db.tokens, u) in db.tokens;
      assert v in db.tokens ==> Client(db.tokens, v) in db.tokens;
    }
  }

  lemma RevokeTokenKeeps(db: Db, a: AccountId, t: TokenId)
    requires DbInv(db)
    ensures Keeps(db, RevokeToken(db, a, t), {})
  {
    if RevokeToken(db, a, t).Edited? {
      var y := RevokeToken(db, a, t).db;
      RevokedRow(db, a, t, y);
      TokensKeep(db, y);
    }
  }

  lemma RevokedRow(db: Db, a: AccountId, t: TokenId, y: Db)
    requires TokenRows(db) && TokenOwners(db) && RevokeToken(db, a, t) == Edited(y)
    ensures TokenRows(y) && TokenOwners(y) && TokensExtend(db.tokens, y.tokens)
  {
    assert SameTree(db.accounts, y.accounts);
    RowsFrame(db, y);
    OwnersFrame(db, y);
  }

  // ---- whole operations ---------------------------------------------------------------------------

  lemma TouchedAccounts(accounts: Accounts, touched: set<AccountId>, y: Accounts)
    requires AccountsInv(accounts) && y.Keys == accounts.Keys
    requires forall a | a in accounts ::
               y[a] == if a in touched then accounts[a].(generation := accounts[a].generation + 1) else accounts[a]
    ensures AccountsInv(y) && AccountsExtend(accounts, y) && Tame(accounts, y)
  {
  }

  lemma AccountsExtendThrough(x: Accounts, y: Accounts, z: Accounts)
    requires AccountsExtend(x, y) && AccountsExtend(y, z)
    ensures AccountsExtend(x, z)
  {
  }

  lemma TouchKeeps(x: Db, db: Db, touched: set<AccountId>)
    requires DbInv(db) && Extends(x, db)
    ensures DbInv(Touch(db, touched)) && Extends(x, Touch(db, touched))
    ensures SameTree(db.accounts, Touch(db, touched).accounts)
  {
    var y := Touch(db, touched);
    TouchedAccounts(db.accounts, touched, y.accounts);
    TameKeeps(db, y);
    AccountsExtendThrough(x.accounts, db.accounts, y.accounts);
  }

  /** Sessions of accounts a change does not touch see no difference; those of the others are gone. */
  lemma RevokedFresh(s: State, db: Db, touched: set<AccountId>, next: Settings)
    requires SessionsFresh(s) && Standing(s.db.accounts, db.accounts, touched)
    ensures SessionsFresh(State(Touch(db, touched), Revoke(s.sessions, touched), s.clock, next))
  {
  }

  lemma ReboundFresh(s: State, db: Db, a: AccountId)
    requires SessionsFresh(s) && Standing(s.db.accounts, db.accounts, {a})
    ensures SessionsFresh(State(db, Rebind(db, s.sessions, s.clock, a), s.clock, s.settings))
    ensures var y := Touch(db, {a}); SessionsFresh(State(y, Rebind(y, s.sessions, s.clock, a), s.clock, s.settings))
  {
  }

  /** What every operation must leave: the invariant, the history, and a forest. */
  ghost predicate Good(s: State, t: State) {
    DbInv(t.db) && SessionsFresh(t) && Extends(s.db, t.db)
  }

  lemma MutateGood(s: State, edit: Edit, touched: set<AccountId>, next: Settings)
    requires DbInv(s.db) && SessionsFresh(s) && Keeps(s.db, edit, touched)
    ensures Good(s, Mutate(s, edit, touched, next).state)
  {
    if Mutate(s, edit, touched, next).reply.Done? {
      TouchKeeps(s.db, edit.db, touched);
      RevokedFresh(s, edit.db, touched, next);
    } else {
      Unedited(s.db);
    }
  }

  lemma MutateRoleGood(s: State, edit: Edit, a: AccountId)
    requires DbInv(s.db) && SessionsFresh(s) && Keeps(s.db, edit, {a})
    ensures Good(s, MutateRole(s, edit, a).state)
  {
    if MutateRole(s, edit, a).reply.Done? {
      TouchKeeps(s.db, edit.db, {a});
      ReboundFresh(s, edit.db, a);
    } else {
      Unedited(s.db);
    }
  }

  lemma PlainGood(s: State, edit: Edit)
    requires DbInv(s.db) && SessionsFresh(s) && Keeps(s.db, edit, {})
    ensures Good(s, Plain(s, edit).state)
  {
    Unedited(s.db);
  }

  lemma ProvisionKeeps(db: Db, id: AccountId, identity: Identity, role: Role, enabled: bool, claim: Claim)
    requires DbInv(db) && id !in db.accounts && identity.issuer != Blank && identity.subject != Blank
    ensures Keeps(db, Edited(Provision(db, id, identity, role, enabled, claim)), {})
  {
    var y := NewAccount(ProvisionRole(role), enabled, ClaimedEmail(claim));
    AddAccount(db.accounts, id, y);
    var added := db.(accounts := db.accounts[id := y]);
    AccountsKeep(db, added, {});
    BindKeeps(db, added, identity, id);
  }

  lemma BoundOwned(db: Db, identity: Identity, a: AccountId, y: Db)
    requires BindingsOwned(db) && LiveIn(db, a) && db.accounts[a].role != Integration
    requires identity.issuer != Blank && identity.subject != Blank
    requires y.bindings == db.bindings[identity := a] && y.accounts == db.accounts
    ensures BindingsOwned(y) && db.bindings.Keys <= y.bindings.Keys
  {
  }

  lemma BindKeeps(db: Db, between: Db, identity: Identity, a: AccountId)
    requires Keeps(db, Edited(between), {}) && LiveIn(between, a) && between.accounts[a].role != Integration
    requires identity.issuer != Blank && identity.subject != Blank
    ensures Keeps(db, Edited(between.(bindings := between.bindings[identity := a])), {})
  {
    var y := between.(bindings := between.bindings[identity := a]);
    BoundOwned(between, identity, a, y);
    CredentialsFrame(between, y);
    assert TokenOwners(y) by { OwnersFrame(between, y); }
  }

  lemma UntouchedGood(s: State, db: Db)
    requires SessionsFresh(s) && Keeps(s.db, Edited(db), {})
    ensures Good(s, s.(db := db))
  {
  }

  lemma ResolveOidcGood(s: State, identity: Identity, id: AccountId, role: Role, claim: Claim)
    requires DbInv(s.db) && SessionsFresh(s)
    ensures Good(s, ResolveOidc(s, identity, id, role, claim).state)
  {
    var t := ResolveOidc(s, identity, id, role, claim).state;
    if t == s {
      Unedited(s.db);
    } else if identity !in s.db.bindings {
      ProvisionKeeps(s.db, id, identity, role, true, claim);
    } else if s.db.accounts[s.db.bindings[identity]].deleted && s.db.accounts[s.db.bindings[identity]].mergedInto.None? {
      ProvisionKeeps(s.db, id, identity, role, false, claim);
    } else {
      EditsOfOneAccountKeep(s.db, s.db.bindings[identity]);
      assert Keeps(s.db, Edited(CompleteProfile(s.db, s.db.bindings[identity], claim)), {});
    }
    UntouchedGood(s, t.db);
  }

  lemma BindVerifiedGood(s: State, identity: Identity, a: AccountId)
    requires DbInv(s.db) && SessionsFresh(s)
    ensures Good(s, BindVerified(s, identity, a).state)
  {
    Unedited(s.db);
    var target := if identity in s.db.bindings then s.db.bindings[identity] else a;
    if BindVerified(s, identity, a).reply != SignsInAs(None) {
      BindKeeps(s.db, s.db, identity, target);
    }
    UntouchedGood(s, BindVerified(s, identity, a).state.db);
  }

  lemma ImportGood(s: State, username: string, verifier: Option<Digest>)
    requires DbInv(s.db) && SessionsFresh(s)
    ensures Good(s, ImportLegacy(s, username, verifier).state)
  {
    Unedited(s.db);
    var t := ImportLegacy(s, username, verifier).state;
    if t != s {
      var name := t.db.credentials[DEFAULT_ADMIN].username;
      var db := s.db.(credentials := s.db.credentials[DEFAULT_ADMIN := Credential(name, verifier)]);
      ImportedOwned(s, username, verifier, db);
      CredentialsKeep(s.db, s.db, db, {});
      TouchKeeps(s.db, db, {DEFAULT_ADMIN});
      RevokedFresh(s, db, {DEFAULT_ADMIN}, s.settings);
    }
  }

  lemma ImportedOwned(s: State, username: string, verifier: Option<Digest>, db: Db)
    requires CredentialsOwned(s.db) && LiveIn(s.db, DEFAULT_ADMIN) && s.db.accounts[DEFAULT_ADMIN].role != Integration
    requires ImportLegacy(s, username, verifier).state != s
    requires db == s.db.(credentials := ImportLegacy(s, username, verifier).state.db.credentials)
    ensures CredentialsOwned(db)
  {
  }

  // ---- the state machine --------------------------------------------------------------------------

  lemma WiderKeeps(db: Db, edit: Edit, touched: set<AccountId>)
    requires Keeps(db, edit, {})
    ensures Keeps(db, edit, touched)
  {
  }

  lemma CreatingKeeps(db: Db, op: Op)
    requires DbInv(db) && (op.OpCreateLocal? || op.OpCreateIntegration?)
    ensures Keeps(db, EditOf(db, op), {})
  {
    match op {
      case OpCreateLocal(id, username, password, role) => CreateLocalKeeps(db, id, username, password, role);
      case OpCreateIntegration(id) => CreateIntegrationKeeps(db, id);
    }
  }

  lemma RetiringKeeps(db: Db, op: Op)
    requires DbInv(db) && (op.OpChangeEnabled? || op.OpRemove?)
    ensures Keeps(db, EditOf(db, op), {op.account})
  {
    match op {
      case OpChangeEnabled(actor, a, enabled) => ChangeEnabledKeeps(db, actor, a, enabled);
      case OpRemove(actor, a) => RemoveKeeps(db, actor, a);
    }
  }

  lemma OneAccountKeeps(db: Db, op: Op)
    requires DbInv(db) && (op.OpChangeRole? || op.OpSetOwnEmail?)
    ensures Keeps(db, EditOf(db, op), op.Touched())
  {
    EditsOfOneAccountKeep(db, op.account);
    match op {
      case OpChangeRole(actor, a, role) =>
        assert Keeps(db, ChangeRole(db, actor, a, role), {a});
      case OpSetOwnEmail(a, address, expected) =>
        assert Keeps(db, SetOwnEmail(db, a, address, expected), {});
    }
  }

  lemma CredentialEditKeeps(db: Db, op: Op)
    requires DbInv(db) && (op.OpSetOwnCredential? || op.OpResetPassword? || op.OpChangeOwnPassword?)
    ensures Keeps(db, EditOf(db, op), {op.account})
  {
    match op {
      case OpSetOwnCredential(a, username, password, clear, _) => SetOwnCredentialKeeps(db, a, username, password, clear);
      case OpResetPassword(actor, a, password, username) => OtherCredentialsKeep(db, actor, a, password, username, 0);
      case OpChangeOwnPassword(a, proven, password) => OtherCredentialsKeep(db, a, a, password, None, proven);
    }
    WiderKeeps(db, EditOf(db, op), {op.account});
  }

  lemma EditKeeps(db: Db, op: Op)
    requires DbInv(db) && Forest(db.accounts) && op.Guarded()
    ensures Keeps(db, EditOf(db, op), op.Touched())
  {
    if op.OpCreateLocal? || op.OpCreateIntegration? {
      CreatingKeeps(db, op);
    } else if op.OpChangeEnabled? || op.OpRemove? {
      RetiringKeeps(db, op);
    } else if op.OpMerge? {
      MergeKeeps(db, op.actor, op.sources, op.target);
    } else if op.OpChangeRole? || op.OpSetOwnEmail? {
      OneAccountKeeps(db, op);
    } else {
      CredentialEditKeeps(db, op);
    }
  }

  lemma GuardedGood(s: State, op: Op)
    requires Inv(s) && op.Guarded()
    ensures Good(s, GuardedStep(s, op).state)
  {
    var edit := EditOf(s.db, op);
    EditKeeps(s.db, op);
    if op.OpChangeRole? {
      MutateRoleGood(s, edit, op.account);
    } else {
      MutateGood(s, edit, op.Touched(), if op.OpSetOwnCredential? then op.next else s.settings);
    }
  }

  lemma SubmitGood(s: State, d: int, a: AccountId, transfer: nat)
    requires DbInv(s.db) && SessionsFresh(s)
    ensures Good(s, Submit(s, d, a, transfer).state)
  {
    Unedited(s.db);
    if d !in s.db.demands {
      DemandsKeep(s.db, s.db, s.db.(demands := s.db.demands[d := Demand(a, transfer, false)]), {});
    }
    UntouchedGood(s, Submit(s, d, a, transfer).state.db);
  }

  lemma SignedInFresh(s: State, k: int, a: AccountId, lifetime: nat)
    requires SessionsFresh(s)
    ensures SessionsFresh(SignIn(s, k, a, lifetime).state)
  {
  }

  lemma SameDbGood(s: State, t: State)
    requires DbInv(s.db) && SessionsFresh(t) && t.db == s.db
    ensures Good(s, t)
  {
    Unedited(s.db);
  }

  lemma SessionGood(s: State, op: Op)
    requires DbInv(s.db) && SessionsFresh(s) && (op.OpSignIn? || op.OpEndSession? || op.OpAdvance?)
    ensures Good(s, Step(s, op).state)
  {
    var t := Step(s, op).state;
    if op.OpSignIn? {
      SignedInFresh(s, op.session, op.account, op.lifetime);
    }
    assert SessionsFresh(t) && t.db == s.db;
    SameDbGood(s, t);
  }

  /** Every operation keeps the invariant and rewrites no history. */
  lemma StepGood(s: State, op: Op)
    requires Inv(s)
    ensures Good(s, Step(s, op).state)
  {
    if op.Guarded() {
      GuardedGood(s, op);
    } else if op.OpResolveOidc? {
      ResolveOidcGood(s, op.identity, op.id, op.role, op.claim);
    } else if op.OpBindVerified? {
      BindVerifiedGood(s, op.identity, op.account);
    } else if op.OpImportLegacy? {
      ImportGood(s, op.username, op.verifier);
    } else if op.OpCreateToken? {
      CreateTokenKeeps(s.db, op.account, op.token, op.secret, op.succeeds);
      PlainGood(s, CreateToken(s.db, op.account, op.token, op.secret, op.succeeds));
    } else if op.OpRevokeToken? {
      RevokeTokenKeeps(s.db, op.account, op.token);
      PlainGood(s, RevokeToken(s.db, op.account, op.token));
    } else if op.OpSubmit? {
      SubmitGood(s, op.demand, op.account, op.transfer);
    } else {
      SessionGood(s, op);
    }
  }
}
