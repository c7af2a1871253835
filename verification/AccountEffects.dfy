/** What each account operation leaves behind when it is not refused, table by table and in full: the rows that change,
    the sessions that end, and that nothing else moves. */
module AccountEffects {
  import opened Support
  import opened Text
  import opened AccountModel
  import opened MergeForest
  import opened AccountLaws
  import opened AccountRuns

  // ---- what a guarded change commits ----------------------------------------------------------------

  /** Exactly the sessions of `gone` have ended. */
  ghost predicate Ended(s: State, t: State, gone: set<AccountId>) {
    && (forall k :: k in t.sessions <==> k in s.sessions && s.sessions[k].account !in gone)
    && (forall k | k in t.sessions :: t.sessions[k] == s.sessions[k])
  }

  /** Whatever is refused leaves the whole state as it was. */
  lemma RefusedNothing(s: State, op: Op)
    ensures Step(s, op).reply.Refused? ==> Step(s, op).state == s
  {
    hide EditOf, UsableAdminExists, OutstandingTransfers, Owned, Touch;
  }

  lemma Commits(s: State, op: Op)
    requires op.Guarded() && !op.OpChangeRole? && !Step(s, op).reply.Refused?
    ensures var t := Step(s, op).state;
            && EditOf(s.db, op).Edited? && t.db == Touch(EditOf(s.db, op).db, op.Touched())
            && t.clock == s.clock && t.settings == (if op.OpSetOwnCredential? then op.next else s.settings)
            && Ended(s, t, op.Touched())
  {
    hide EditOf, UsableAdminExists, OutstandingTransfers, Owned, Touch;
  }

  /** The row of `a` with its generation moved, as the only row that differs between `x` and `y` beside `row`. */
  lemma OneTouched(x: map<AccountId, Account>, db: Db, a: AccountId, row: Account)
    requires a in x && db.accounts == x[a := row]
    ensures Touch(db, {a}).accounts == x[a := row.(generation := row.generation + 1)]
    ensures Touch(db, {a}) == db.(accounts := Touch(db, {a}).accounts)
  {
    assert Touch(db, {a}).accounts == x[a := row.(generation := row.generation + 1)];
  }

  lemma NoneTouched(db: Db)
    ensures Touch(db, {}) == db
  {
    assert Touch(db, {}).accounts == db.accounts;
  }

  /** Demand is withdrawn exactly where it means `a` once merges are followed. */
  ghost predicate DemandWithdrawn(s: State, t: State, a: AccountId) {
    && t.db.demands.Keys == s.db.demands.Keys
    && forall d | d in s.db.demands ::
         t.db.demands[d] == s.db.demands[d].(withdrawn :=
           s.db.demands[d].withdrawn || Canonical(s.db.accounts, s.db.demands[d].account) == a)
  }

  lemma Withdraws(s: State, op: Op)
    requires Inv(s) && Retires(op) && !Step(s, op).reply.Refused? && LiveIn(s.db, op.account)
    ensures DemandWithdrawn(s, Step(s, op).state, op.account)
  {
    hide GuardedStep, Owned, Canonical;
    GuardedDemand(s, op);
    forall d | d in s.db.demands
      ensures s.db.demands[d].account in Owned(s.db.accounts, op.account)
         <==> Canonical(s.db.accounts, s.db.demands[d].account) == op.account
    {
      OwnedPartition(s.db.accounts, s.db.demands[d].account);
    }
  }

  // ---- role, enablement, removal --------------------------------------------------------------------

  /** A change of role rewrites one row. The account's sessions follow it while they last, or end where the account is
      disabled. */
  lemma RoleChanged(s: State, actor: AccountId, a: AccountId, role: Role)
    requires !Step(s, OpChangeRole(actor, a, role)).reply.Refused?
    ensures var t := Step(s, OpChangeRole(actor, a, role)).state;
            && a in s.db.accounts
            && var row := s.db.accounts[a].(role := role, generation := s.db.accounts[a].generation + 1);
            && t == s.(db := s.db.(accounts := s.db.accounts[a := row]), sessions := t.sessions)
            && (row.enabled ==>
                  t.sessions == map k | k in s.sessions ::
                                  if s.sessions[k].account == a && s.clock < s.sessions[k].expires
                                  then s.sessions[k].(role := role, generation := row.generation) else s.sessions[k])
            && (!row.enabled ==> Ended(s, t, {a}))
  {
    hide UsableAdminExists, Touch;
    var edit := EditOf(s.db, OpChangeRole(actor, a, role));
    OneTouched(s.db.accounts, edit.db, a, s.db.accounts[a].(role := role));
  }

  /** Enabling or disabling rewrites one row and ends the account's sessions; disabling withdraws its demand. */
  lemma EnabledChanged(s: State, actor: AccountId, a: AccountId, enabled: bool)
    requires Inv(s) && !Step(s, OpChangeEnabled(actor, a, enabled)).reply.Refused?
    ensures var t := Step(s, OpChangeEnabled(actor, a, enabled)).state;
            && a in s.db.accounts
            && var row := s.db.accounts[a].(enabled := enabled, generation := s.db.accounts[a].generation + 1);
            && t == s.(db := s.db.(accounts := s.db.accounts[a := row], demands := t.db.demands), sessions := t.sessions)
            && Ended(s, t, {a})
            && (if enabled then t.db.demands == s.db.demands else DemandWithdrawn(s, t, a))
  {
    hide GuardedStep, Touch, Owned, Inv, DemandWithdrawn, Ended;
    var op := OpChangeEnabled(actor, a, enabled);
    Commits(s, op);
    OneTouched(s.db.accounts, EditOf(s.db, op).db, a, s.db.accounts[a].(enabled := enabled));
    if !enabled { Withdraws(s, op); }
  }

  /** A removal leaves a dead, disabled row with no credential and no usable token, ends its sessions, and withdraws its
      demand; its identities stay bound to it. */
  lemma Removed(s: State, actor: AccountId, a: AccountId)
    requires Inv(s) && !Step(s, OpRemove(actor, a)).reply.Refused?
    ensures var t := Step(s, OpRemove(actor, a)).state;
            && a in s.db.accounts
            && var row := s.db.accounts[a].(enabled := false, deleted := true, generation := s.db.accounts[a].generation + 1);
            && t == State(Db(s.db.accounts[a := row], s.db.credentials - {a}, s.db.bindings, t.db.tokens, t.db.demands),
                          t.sessions, s.clock, s.settings)
            && t.db.tokens == (map u | u in s.db.tokens ::
                                 s.db.tokens[u].(revoked := s.db.tokens[u].revoked || s.db.tokens[u].account == a))
            && Ended(s, t, {a}) && DemandWithdrawn(s, t, a)
  {
    hide GuardedStep, Touch, Owned, Inv, DemandWithdrawn, Ended;
    var op := OpRemove(actor, a);
    Commits(s, op);
    OneTouched(s.db.accounts, EditOf(s.db, op).db, a, s.db.accounts[a].(enabled := false, deleted := true));
    Withdraws(s, op);
  }

  // ---- merging --------------------------------------------------------------------------------------

  /** A merge turns each source into a redirection to the target, moves the generations of all of them, gives the target
      every binding and the one credential of the sources, ends the sessions of all, and leaves tokens and demand recorded
      where they were. */
  lemma Merges(s: State, actor: AccountId, sources: seq<AccountId>, target: AccountId)
    requires !Step(s, OpMerge(actor, sources, target)).reply.Refused?
    ensures var t := Step(s, OpMerge(actor, sources, target)).state;
            && t == State(Db(t.db.accounts, t.db.credentials, t.db.bindings, s.db.tokens, s.db.demands),
                          t.sessions, s.clock, s.settings)
            && t.db.accounts.Keys == s.db.accounts.Keys
            && (forall a | a in s.db.accounts ::
                  var x := s.db.accounts[a];
                  t.db.accounts[a] ==
                    if a in sources
                    then x.(enabled := false, deleted := true, mergedInto := Some(target), generation := x.generation + 1)
                    else if a == target then x.(generation := x.generation + 1) else x)
            && t.db.bindings == (map i | i in s.db.bindings ::
                                   if s.db.bindings[i] in sources then target else s.db.bindings[i])
            && (forall k :: k in t.sessions <==>
                  k in s.sessions && s.sessions[k].account !in sources && s.sessions[k].account != target)
            && (forall k | k in t.sessions :: t.sessions[k] == s.sessions[k])
  {
    hide GuardedStep, FoldCredentials, Canonical, Owned;
    var op := OpMerge(actor, sources, target);
    Commits(s, op);
    assert forall x :: x in sources <==> x in Elements(sources);
  }

  /** After a merge nobody but an unmerged account holds a credential that any of the merged held, and the target holds
      whichever one there was. */
  lemma MergesCredential(s: State, actor: AccountId, sources: seq<AccountId>, target: AccountId, a: AccountId)
    requires !Step(s, OpMerge(actor, sources, target)).reply.Refused?
    ensures var x, y := s.db.credentials, Step(s, OpMerge(actor, sources, target)).state.db.credentials;
            && (a in sources ==> a !in y)
            && (a !in sources && a != target ==> (a in y <==> a in x) && (a in x ==> y[a] == x[a]))
            && (target in y <==> target in x || exists o | o in sources :: o in x)
            && ((a in sources || a == target) && a in x ==> target in y && y[target] == x[a])
  {
    hide GuardedStep, Canonical, Owned, FoldAccounts, FoldBindings;
    var op := OpMerge(actor, sources, target);
    Commits(s, op);
    assert forall x :: x in sources <==> x in Elements(sources);
  }

  // ---- creating -------------------------------------------------------------------------------------

  /** A created account is enabled in its role, with no address; a local one under its trimmed username with the password
      that was given. Nothing else changes. */
  lemma CreatedLocal(s: State, id: AccountId, username: string, password: Password, role: Role)
    requires Inv(s) && !Step(s, OpCreateLocal(id, username, password, role)).reply.Refused?
    ensures id !in s.db.accounts
    ensures Step(s, OpCreateLocal(id, username, password, role)).state ==
              s.(db := s.db.(accounts := s.db.accounts[id := Account(role, true, false, None, Ordinary, 1,
                                                                     Email(Blank, false, false, false))],
                             credentials := s.db.credentials[id := Credential(Trim(username),
                               if password.Prepared? then Some(password.verifier) else None)]))
  {
    hide GuardedStep, Touch, Trim, UsernameTaken, Ended, Forest, TokenOwners, SessionsFresh;
    var op := OpCreateLocal(id, username, password, role);
    Commits(s, op);
    NoneTouched(EditOf(s.db, op).db);
    NoneEnded(s, Step(s, op).state);
    assert id !in s.db.credentials;
  }

  lemma CreatedIntegration(s: State, id: AccountId)
    requires !Step(s, OpCreateIntegration(id)).reply.Refused?
    ensures id !in s.db.accounts
    ensures Step(s, OpCreateIntegration(id)).state ==
              s.(db := s.db.(accounts := s.db.accounts[id := Account(Integration, true, false, None, Ordinary, 1,
                                                                     Email(Blank, false, false, false))]))
  {
    hide GuardedStep, Touch, Ended;
    var op := OpCreateIntegration(id);
    Commits(s, op);
    NoneTouched(EditOf(s.db, op).db);
    NoneEnded(s, Step(s, op).state);
  }

  lemma NoneEnded(s: State, t: State)
    requires Ended(s, t, {})
    ensures t.sessions == s.sessions
  {
    assert forall k :: k in t.sessions <==> k in s.sessions;
    assert t.sessions.Keys == s.sessions.Keys;
    assert forall k | k in s.sessions :: t.sessions[k] == s.sessions[k];
  }

  // ---- credentials ----------------------------------------------------------------------------------

  /** What an account holds after its own change: without a password where it was cleared, nothing where the username was
      emptied, and otherwise the trimmed or kept username with the new or kept password. */
  function OwnCredential(db: Db, a: AccountId, username: Option<string>, password: Password, clear: bool)
    : Option<Credential>
  {
    var kept := if a in db.credentials then db.credentials[a].username else "";
    var held := if a in db.credentials then db.credentials[a].verifier else None;
    if clear then
      if username.Some? then Some(Credential(Trim(username.value), None))
      else if a in db.credentials then Some(Credential(kept, None)) else None
    else if username.Some? && Trim(username.value) == "" && password.NoPassword? then None
    else Some(Credential(Trim(if username.Some? then username.value else kept),
                         if password.Prepared? then Some(password.verifier) else held))
  }

  /** A guarded change of the credential of `a` alone: its row's generation moves, its sessions end, and nothing else but
      the settings that are committed with it changes. */
  ghost predicate CredentialLeft(s: State, t: State, a: AccountId, held: Option<Credential>, next: Settings) {
    && a in s.db.accounts
    && t == State(s.db.(accounts := s.db.accounts[a := s.db.accounts[a].(generation := s.db.accounts[a].generation + 1)],
                        credentials := if held.Some? then s.db.credentials[a := held.value] else s.db.credentials - {a}),
                  t.sessions, s.clock, next)
    && Ended(s, t, {a})
  }

  lemma OwnCredentialSet(s: State, a: AccountId, username: Option<string>, password: Password, clear: bool, next: Settings)
    requires !Step(s, OpSetOwnCredential(a, username, password, clear, next)).reply.Refused?
    ensures CredentialLeft(s, Step(s, OpSetOwnCredential(a, username, password, clear, next)).state, a,
                           OwnCredential(s.db, a, username, password, clear), next)
  {
    hide GuardedStep, Touch, OwnCredential, SetOwnCredential, Ended;
    var op := OpSetOwnCredential(a, username, password, clear, next);
    Commits(s, op);
    OwnHeld(s.db, a, username, password, clear);
    OneTouched(s.db.accounts, EditOf(s.db, op).db, a, s.db.accounts[a]);
  }

  lemma OwnHeld(db: Db, a: AccountId, username: Option<string>, password: Password, clear: bool)
    requires SetOwnCredential(db, a, username, password, clear).Edited?
    ensures var held := OwnCredential(db, a, username, password, clear);
            && a in db.accounts
            && SetOwnCredential(db, a, username, password, clear).db == db.(credentials :=
                 if held.Some? then db.credentials[a := held.value] else db.credentials - {a})
  {
    hide Trim, UsernameTaken;
  }

  /** Another Admin's reset installs the given password under the trimmed new username or the kept one. */
  lemma PasswordReset(s: State, actor: AccountId, a: AccountId, password: Password, username: Option<string>)
    requires !Step(s, OpResetPassword(actor, a, password, username)).reply.Refused?
    ensures password.Prepared?
    ensures CredentialLeft(s, Step(s, OpResetPassword(actor, a, password, username)).state, a,
                           Some(Credential(if username.Some? then Trim(username.value)
                                           else if a in s.db.credentials then Trim(s.db.credentials[a].username) else "",
                                           Some(password.verifier))), s.settings)
  {
    hide GuardedStep, Touch, Trim, UsernameTaken, Ended;
    var op := OpResetPassword(actor, a, password, username);
    Commits(s, op);
    TrimEmpty();
    OneTouched(s.db.accounts, EditOf(s.db, op).db, a, s.db.accounts[a]);
  }

  lemma TrimEmpty()
    ensures Trim("") == ""
  {
  }

  /** An account's own change of password keeps its username and replaces the verifier that was proven. */
  lemma OwnPasswordChanged(s: State, a: AccountId, proven: Digest, password: Password)
    requires !Step(s, OpChangeOwnPassword(a, proven, password)).reply.Refused?
    ensures password.Prepared? && a in s.db.credentials && s.db.credentials[a].verifier == Some(proven)
    ensures CredentialLeft(s, Step(s, OpChangeOwnPassword(a, proven, password)).state, a,
                           Some(Credential(Trim(s.db.credentials[a].username), Some(password.verifier))), s.settings)
  {
    hide GuardedStep, Touch, Trim, UsernameTaken, Ended;
    var op := OpChangeOwnPassword(a, proven, password);
    Commits(s, op);
    OneTouched(s.db.accounts, EditOf(s.db, op).db, a, s.db.accounts[a]);
  }

  /** An own address is stored unverified, as one the account entered, without ending a session or moving a generation. */
  lemma EmailEntered(s: State, a: AccountId, address: Atom, expected: Atom)
    requires !Step(s, OpSetOwnEmail(a, address, expected)).reply.Refused?
    ensures a in s.db.accounts && address != Blank
    ensures Step(s, OpSetOwnEmail(a, address, expected)).state ==
              s.(db := s.db.(accounts := s.db.accounts[a := s.db.accounts[a].(email := Email(address, false, true, true))]))
  {
    hide GuardedStep, Touch, Ended;
    var op := OpSetOwnEmail(a, address, expected);
    Commits(s, op);
    NoneTouched(EditOf(s.db, op).db);
    NoneEnded(s, Step(s, op).state);
  }

  /** An identity that signs nobody in changes nothing, unless it returns from a removed account. */
  lemma SignsNobodyIn(s: State, identity: Identity, id: AccountId, role: Role, claim: Claim)
    requires Step(s, OpResolveOidc(identity, id, role, claim)).reply == SignsInAs(None)
    requires identity in s.db.bindings && s.db.bindings[identity] in s.db.accounts
    requires s.db.accounts[s.db.bindings[identity]].deleted ==> s.db.accounts[s.db.bindings[identity]].mergedInto.Some?
    ensures Step(s, OpResolveOidc(identity, id, role, claim)).state == s
  {
  }

  // ---- tokens ---------------------------------------------------------------------------------------

  /** A new token is a client of its own, or carries on its predecessor's client and revokes the predecessor. */
  lemma TokenCreated(s: State, a: AccountId, t: TokenId, secret: Digest, succeeds: Option<TokenId>)
    requires !Step(s, OpCreateToken(a, t, secret, succeeds)).reply.Refused?
    ensures t !in s.db.tokens && (succeeds.Some? ==> succeeds.value in s.db.tokens)
    ensures Step(s, OpCreateToken(a, t, secret, succeeds)).state == s.(db := s.db.(tokens :=
              if succeeds.None? then s.db.tokens[t := Token(a, secret, false, Some(t))]
              else
                var p := s.db.tokens[succeeds.value];
                s.db.tokens[succeeds.value := Token(p.account, p.verifier, true, p.client)]
                           [t := Token(a, secret, false, Some(if p.client.Some? then p.client.value else succeeds.value))]))
  {
    hide Owned;
  }

  lemma TokenRevoked(s: State, a: AccountId, t: TokenId)
    requires !Step(s, OpRevokeToken(a, t)).reply.Refused?
    ensures t in s.db.tokens && s.db.tokens[t].account == a && !s.db.tokens[t].revoked
    ensures Step(s, OpRevokeToken(a, t)).state == s.(db := s.db.(tokens := s.db.tokens[t := s.db.tokens[t].(revoked := true)]))
  {
  }
}
