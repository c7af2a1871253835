/** When each account operation is refused, in the terms of its caller: what the accounts, credentials, bindings and
    settings are, and who could still administer afterwards. */
module AccountAdmission {
  import opened Support
  import opened Text
  import opened AccountModel
  import opened MergeForest
  import opened AccountLaws
  import opened AccountRuns

  // ---- who can administer ---------------------------------------------------------------------------

  ghost predicate LiveAccount(db: Db, a: AccountId) {
    a in db.accounts && !db.accounts[a].deleted && db.accounts[a].mergedInto == None
  }

  ghost predicate EnabledAdmin(db: Db, a: AccountId) {
    LiveAccount(db, a) && db.accounts[a].enabled && db.accounts[a].role == Admin
  }

  ghost predicate HoldsPassword(db: Db, a: AccountId) {
    a in db.credentials && db.credentials[a].verifier != None
  }

  /** Some identity of the configured issuer is bound to `a`. */
  ghost predicate SignsInByOidc(db: Db, a: AccountId, settings: Settings) {
    settings.oidc && settings.issuer != Blank && exists i | i in db.bindings :: db.bindings[i] == a && i.issuer == settings.issuer
  }

  /** `a` is an enabled, live Admin who can sign in by a mechanism that is on. */
  ghost predicate CanAdminister(db: Db, a: AccountId, settings: Settings) {
    EnabledAdmin(db, a) && ((settings.password && HoldsPassword(db, a)) || SignsInByOidc(db, a, settings))
  }

  /** Somebody can administer now, and nobody but accounts of `gone` can. */
  ghost predicate LastAmong(s: State, gone: set<AccountId>) {
    && (s.settings.password || s.settings.oidc)
    && (exists a :: CanAdminister(s.db, a, s.settings)) && forall a | CanAdminister(s.db, a, s.settings) :: a in gone
  }

  lemma UsableIs(db: Db, a: AccountId, settings: Settings)
    ensures UsableAdmin(db, a, settings) <==> CanAdminister(db, a, settings)
  {
  }

  /** A usable Admin exists exactly if no mechanism is on or somebody can administer. */
  lemma UsableExists(db: Db, settings: Settings)
    ensures UsableAdminExists(db, settings) <==>
              !(settings.password || settings.oidc) || exists a :: CanAdminister(db, a, settings)
  {
    hide UsableAdmin, CanAdminister;
    forall a ensures UsableAdmin(db, a, settings) <==> CanAdminister(db, a, settings) {
      UsableIs(db, a, settings);
    }
    forall a | CanAdminister(db, a, settings) ensures a in db.accounts {
      AdministersHere(db, a, settings);
    }
  }

  lemma AdministersHere(db: Db, a: AccountId, settings: Settings)
    requires CanAdminister(db, a, settings)
    ensures a in db.accounts
  {
  }

  /** A guarded operation is refused exactly if its edit is, or if it would be the one that leaves nobody to administer. */
  lemma RefusedExactly(s: State, op: Op)
    requires op.Guarded()
    ensures var edit, next := EditOf(s.db, op), if op.OpSetOwnCredential? then op.next else s.settings;
            Step(s, op).reply.Refused? <==>
              edit.Rejected? || (UsableAdminExists(s.db, s.settings) && !UsableAdminExists(edit.db, next))
  {
    hide EditOf, UsableAdminExists, Owned, OutstandingTransfers;
  }

  /** An edit after which everybody outside `gone` can administer exactly as before, and nobody of `gone` can. */
  ghost predicate OnlyGone(x: Db, y: Db, gone: set<AccountId>, settings: Settings) {
    forall a :: CanAdminister(y, a, settings) <==> CanAdminister(x, a, settings) && a !in gone
  }

  lemma GoneDecides(s: State, y: Db, gone: set<AccountId>)
    requires OnlyGone(s.db, y, gone, s.settings)
    ensures (UsableAdminExists(s.db, s.settings) && !UsableAdminExists(y, s.settings)) <==> LastAmong(s, gone)
  {
    hide CanAdminister, UsableAdminExists;
    UsableExists(s.db, s.settings);
    UsableExists(y, s.settings);
  }

  /** A change that concerns nobody who can administer is never refused as the last one's. */
  lemma OthersNeverLast(s: State, gone: set<AccountId>)
    requires forall a | a in gone :: !CanAdminister(s.db, a, s.settings)
    ensures !LastAmong(s, gone)
  {
    hide CanAdminister;
  }

  // ---- usernames ------------------------------------------------------------------------------------

  /** No credential of another account than `a` can have this username. */
  ghost predicate BadName(db: Db, a: AccountId, username: string) {
    Trim(username) == "" || |Trim(username)| > MAX_USERNAME
    || exists o | o in db.credentials :: o != a && db.credentials[o].username == Trim(username)
  }

  function Kept(db: Db, a: AccountId): string {
    if a in db.credentials then db.credentials[a].username else ""
  }

  lemma NamedRow(db: Db, a: AccountId, username: Option<string>, verifier: Option<Digest>)
    ensures SetPasswordRow(db, a, username, verifier).Rejected? <==>
              BadName(db, a, if username.Some? then username.value else Kept(db, a))
    ensures SetPasswordRow(db, a, username, verifier).Edited? ==>
              var y := SetPasswordRow(db, a, username, verifier).db;
              && y == db.(credentials := y.credentials) && a in y.credentials
              && (y.credentials[a].verifier != None <==> verifier != None || HoldsPassword(db, a))
              && (forall o | o != a :: o in y.credentials <==> o in db.credentials)
              && (forall o | o != a && o in db.credentials :: y.credentials[o] == db.credentials[o])
  {
    hide Trim;
  }

  /** A change of the credential of `a` alone leaves everybody else able to administer as before, and `a` as its password
      says. */
  lemma OneCredential(x: Db, y: Db, a: AccountId, settings: Settings, b: AccountId)
    requires y == x.(credentials := y.credentials)
    requires forall o | o != a :: (o in y.credentials <==> o in x.credentials)
    requires forall o | o != a && o in x.credentials :: y.credentials[o] == x.credentials[o]
    ensures CanAdminister(y, b, settings) <==>
              EnabledAdmin(x, b)
              && ((settings.password && HoldsPassword(if b == a then y else x, b)) || SignsInByOidc(x, b, settings))
  {
  }

  // ---- creating -------------------------------------------------------------------------------------

  lemma AddedAdministers(x: Db, y: Db, id: AccountId, settings: Settings)
    requires id !in x.accounts && y.accounts.Keys == x.accounts.Keys + {id} && y.bindings == x.bindings
    requires forall a | a in x.accounts :: y.accounts[a] == x.accounts[a]
    requires forall a | a in x.credentials :: a in y.credentials && y.credentials[a] == x.credentials[a]
    ensures UsableAdminExists(x, settings) ==> UsableAdminExists(y, settings)
  {
    hide UsableAdminExists;
    UsableExists(x, settings);
    UsableExists(y, settings);
    if a :| CanAdminister(x, a, settings) {
      assert CanAdminister(y, a, settings);
    }
  }

  /** A local account is refused exactly for its role, its password, its identifier or its username. */
  lemma CreateLocalRefused(s: State, id: AccountId, username: string, password: Password, role: Role)
    requires Inv(s)
    ensures Step(s, OpCreateLocal(id, username, password, role)).reply.Refused? <==>
              role == Integration || password == TooShort || id in s.db.accounts || BadName(s.db, id, username)
  {
    hide Trim, UsableAdminExists, Forest, TokenOwners, SessionsFresh, SetPasswordRow, BadName;
    var op := OpCreateLocal(id, username, password, role);
    RefusedExactly(s, op);
    if id !in s.db.accounts {
      var added := s.db.(accounts := s.db.accounts[id := NewAccount(role, true, NO_EMAIL)]);
      var verifier := if password.Prepared? then Some(password.verifier) else None;
      NamedRow(added, id, Some(username), verifier);
      SameNames(s.db, added, id, username);
      if EditOf(s.db, op).Edited? {
        assert id !in s.db.credentials;
        AddedAdministers(s.db, EditOf(s.db, op).db, id, s.settings);
      }
    }
  }

  lemma SameNames(x: Db, y: Db, a: AccountId, username: string)
    requires y.credentials == x.credentials
    ensures BadName(y, a, username) <==> BadName(x, a, username)
  {
  }

  lemma CreateIntegrationRefused(s: State, id: AccountId)
    ensures Step(s, OpCreateIntegration(id)).reply.Refused? <==> id in s.db.accounts
  {
    hide UsableAdminExists;
    var op := OpCreateIntegration(id);
    RefusedExactly(s, op);
    if id !in s.db.accounts {
      AddedAdministers(s.db, EditOf(s.db, op).db, id, s.settings);
    }
  }

  // ---- role, enablement, removal --------------------------------------------------------------------

  /** A change of role is refused exactly for one's own or a default account, across the line of Integration accounts, or if
      it takes the role from the last who can administer. */
  lemma ChangeRoleRefused(s: State, actor: AccountId, a: AccountId, role: Role)
    ensures Step(s, OpChangeRole(actor, a, role)).reply.Refused? <==>
              || actor == a || !LiveAccount(s.db, a) || s.db.accounts[a].protection != Ordinary
              || (s.db.accounts[a].role == Integration <==> role != Integration)
              || (role != Admin && LastAmong(s, {a}))
  {
    hide UsableAdminExists, CanAdminister;
    var op := OpChangeRole(actor, a, role);
    RefusedExactly(s, op);
    if EditOf(s.db, op).Edited? {
      var y := EditOf(s.db, op).db;
      if role != Admin {
        ReplacedAdministers(s.db, y, a, s.settings);
        GoneDecides(s, y, {a});
      } else {
        RaisedAdministers(s.db, y, a, s.settings);
      }
    }
  }

  lemma ReplacedAdministers(x: Db, y: Db, a: AccountId, settings: Settings)
    requires a in x.accounts && a in y.accounts && y.accounts == x.accounts[a := y.accounts[a]] && !EnabledAdmin(y, a)
    requires y.bindings == x.bindings && forall o | o != a :: (o in y.credentials <==> o in x.credentials)
    requires forall o | o != a && o in x.credentials :: y.credentials[o] == x.credentials[o]
    ensures OnlyGone(x, y, {a}, settings)
  {
  }

  lemma RaisedAdministers(x: Db, y: Db, a: AccountId, settings: Settings)
    requires a in x.accounts && a in y.accounts && y == x.(accounts := x.accounts[a := y.accounts[a]])
    requires EnabledAdmin(x, a) ==> EnabledAdmin(y, a)
    ensures UsableAdminExists(x, settings) ==> UsableAdminExists(y, settings)
  {
    hide UsableAdminExists;
    UsableExists(x, settings);
    UsableExists(y, settings);
    if b :| CanAdminister(x, b, settings) {
      assert CanAdminister(y, b, settings);
    }
  }

  /** Enabling is refused exactly for one's own or a dead account; disabling also for the default Admin, or if it is the last
      who can administer. */
  lemma ChangeEnabledRefused(s: State, actor: AccountId, a: AccountId, enabled: bool)
    ensures Step(s, OpChangeEnabled(actor, a, enabled)).reply.Refused? <==>
              || actor == a || !LiveAccount(s.db, a)
              || (!enabled && (s.db.accounts[a].protection == DefaultAdmin || LastAmong(s, {a})))
  {
    hide UsableAdminExists, CanAdminister, Owned;
    var op := OpChangeEnabled(actor, a, enabled);
    RefusedExactly(s, op);
    if EditOf(s.db, op).Edited? {
      var y := EditOf(s.db, op).db;
      if enabled {
        RaisedAdministers(s.db, y, a, s.settings);
      } else {
        ReplacedAdministers(s.db, y, a, s.settings);
        GoneDecides(s, y, {a});
      }
    }
  }

  /** A removal is refused exactly for one's own, a default or a dead account, or the last who can administer. */
  lemma RemoveRefused(s: State, actor: AccountId, a: AccountId)
    ensures Step(s, OpRemove(actor, a)).reply.Refused? <==>
              actor == a || !LiveAccount(s.db, a) || s.db.accounts[a].protection != Ordinary || LastAmong(s, {a})
  {
    hide UsableAdminExists, CanAdminister, Owned;
    var op := OpRemove(actor, a);
    RefusedExactly(s, op);
    if EditOf(s.db, op).Edited? {
      var y := EditOf(s.db, op).db;
      ReplacedAdministers(s.db, y, a, s.settings);
      GoneDecides(s, y, {a});
    }
  }

  // ---- merging --------------------------------------------------------------------------------------

  /** The target of a merge could administer with what the sources bring. */
  ghost predicate TakesOver(s: State, sources: seq<AccountId>, target: AccountId) {
    EnabledAdmin(s.db, target)
    && exists x | x in sources :: (s.settings.password && HoldsPassword(s.db, x)) || SignsInByOidc(s.db, x, s.settings)
  }

  /** A merge is refused exactly if it has no source, concerns its actor or its own target, names an account that may not be
      folded, brings two passwords together, or takes away the last who can administer without the target taking over. */
  lemma MergeRefused(s: State, actor: AccountId, sources: seq<AccountId>, target: AccountId)
    ensures Step(s, OpMerge(actor, sources, target)).reply.Refused? <==>
              || sources == [] || actor == target || actor in sources || target in sources || !LiveAccount(s.db, target)
              || (exists x | x in sources ::
                    || !LiveAccount(s.db, x) || s.db.accounts[x].protection != Ordinary
                    || (s.db.accounts[x].role == Integration <==> s.db.accounts[target].role != Integration))
              || (exists x, y | (x in sources || x == target) && (y in sources || y == target) ::
                    x != y && x in s.db.credentials && y in s.db.credentials)
              || (LastAmong(s, Elements(sources)) && !TakesOver(s, sources, target))
  {
    hide UsableAdminExists, CanAdminister, FoldAccounts, FoldBindings, FoldCredentials;
    var op := OpMerge(actor, sources, target);
    RefusedExactly(s, op);
    assert forall x :: x in sources <==> x in Elements(sources);
    if EditOf(s.db, op).Edited? {
      MergeLast(s, actor, sources, target);
    }
  }

  lemma MergeLast(s: State, actor: AccountId, sources: seq<AccountId>, target: AccountId)
    requires Merge(s.db, actor, sources, target).Edited?
    ensures var y := Merge(s.db, actor, sources, target).db;
            (UsableAdminExists(s.db, s.settings) && !UsableAdminExists(y, s.settings)) <==>
              LastAmong(s, Elements(sources)) && !TakesOver(s, sources, target)
  {
    hide UsableAdminExists, CanAdminister, Merge, TakesOver;
    var y := Merge(s.db, actor, sources, target).db;
    UsableExists(s.db, s.settings);
    UsableExists(y, s.settings);
    assert forall x :: x in sources <==> x in Elements(sources);
    forall a ensures CanAdminister(y, a, s.settings) <==>
                       (CanAdminister(s.db, a, s.settings) && a !in Elements(sources))
                       || (a == target && TakesOver(s, sources, target))
    {
      MergeAdministers(s, actor, sources, target, a);
    }
    assert CanAdminister(y, target, s.settings) <==>
             (CanAdminister(s.db, target, s.settings) && target !in Elements(sources)) || TakesOver(s, sources, target);
  }

  lemma MergeAdministers(s: State, actor: AccountId, sources: seq<AccountId>, target: AccountId, a: AccountId)
    requires Merge(s.db, actor, sources, target).Edited?
    ensures CanAdminister(Merge(s.db, actor, sources, target).db, a, s.settings) <==>
              (CanAdminister(s.db, a, s.settings) && a !in sources) || (a == target && TakesOver(s, sources, target))
  {
    hide Merge;
    var y := Merge(s.db, actor, sources, target).db;
    MergedHolders(s.db, actor, sources, target, a, s.settings);
  }

  lemma MergedHolders(db: Db, actor: AccountId, sources: seq<AccountId>, target: AccountId, a: AccountId, settings: Settings)
    requires Merge(db, actor, sources, target).Edited?
    ensures var y := Merge(db, actor, sources, target).db;
            && target !in sources
            && (EnabledAdmin(y, a) <==> EnabledAdmin(db, a) && a !in sources)
            && (a !in sources ==>
                  && (HoldsPassword(y, a) <==>
                        HoldsPassword(db, a) || (a == target && exists x | x in sources :: HoldsPassword(db, x)))
                  && (SignsInByOidc(y, a, settings) <==>
                        SignsInByOidc(db, a, settings)
                        || (a == target && exists x | x in sources :: SignsInByOidc(db, x, settings))))
  {
    assert forall x :: x in sources <==> x in Elements(sources);
  }

  // ---- credentials ----------------------------------------------------------------------------------

  /** What an account's own change of credential is refused for before anybody asks who could administer. */
  ghost predicate OwnRefused(db: Db, a: AccountId, username: Option<string>, password: Password, clear: bool) {
    || !LiveAccount(db, a) || db.accounts[a].role == Integration
    || if clear then username != None && BadName(db, a, username.value)
       else if password == TooShort then true
       else if username != None && Trim(username.value) == "" && password == NoPassword then HoldsPassword(db, a)
       else BadName(db, a, if username != None then username.value else Kept(db, a))
  }

  /** The account holds a password after its own change. */
  ghost predicate OwnHolds(db: Db, a: AccountId, username: Option<string>, password: Password, clear: bool) {
    !clear && !(username != None && Trim(username.value) == "" && password == NoPassword)
    && (password.Prepared? || HoldsPassword(db, a))
  }

  /** An account's own change of credential is refused exactly for that, or if somebody can administer now and nobody could
      under the settings committed with it. */
  lemma SetOwnCredentialRefused(s: State, a: AccountId, username: Option<string>, password: Password, clear: bool,
                                next: Settings)
    ensures Step(s, OpSetOwnCredential(a, username, password, clear, next)).reply.Refused? <==>
              || OwnRefused(s.db, a, username, password, clear)
              || ((s.settings.password || s.settings.oidc ==> exists b :: CanAdminister(s.db, b, s.settings))
                  && (next.password || next.oidc)
                  && forall b | EnabledAdmin(s.db, b) ::
                       && !(next.password && if b == a then OwnHolds(s.db, a, username, password, clear) else HoldsPassword(s.db, b))
                       && !SignsInByOidc(s.db, b, next))
  {
    hide UsableAdminExists, CanAdminister, EditOf, SignsInByOidc, EnabledAdmin, HoldsPassword, OwnHolds, OwnRefused;
    var op := OpSetOwnCredential(a, username, password, clear, next);
    RefusedExactly(s, op);
    OwnEdited(s.db, a, username, password, clear);
    assert EditOf(s.db, op) == SetOwnCredential(s.db, a, username, password, clear) by { OwnEditIs(s, op); }
    var edit := SetOwnCredential(s.db, a, username, password, clear);
    if edit.Edited? {
      UsableExists(s.db, s.settings);
      UsableExists(edit.db, next);
      forall b ensures CanAdminister(edit.db, b, next) <==>
                         EnabledAdmin(s.db, b)
                         && ((next.password && if b == a then OwnHolds(s.db, a, username, password, clear) else HoldsPassword(s.db, b))
                             || SignsInByOidc(s.db, b, next))
      {
        OneCredential(s.db, edit.db, a, next, b);
      }
    }
  }

  lemma OwnEditIs(s: State, op: Op)
    requires op.OpSetOwnCredential?
    ensures EditOf(s.db, op) == SetOwnCredential(s.db, op.account, op.newUsername, op.password, op.clear)
  {
  }

  lemma OwnEdited(db: Db, a: AccountId, username: Option<string>, password: Password, clear: bool)
    ensures var edit := SetOwnCredential(db, a, username, password, clear);
            && (edit.Rejected? <==> OwnRefused(db, a, username, password, clear))
            && (edit.Edited? ==>
                  && edit.db == db.(credentials := edit.db.credentials)
                  && (HoldsPassword(edit.db, a) <==> OwnHolds(db, a, username, password, clear))
                  && (forall o | o != a :: o in edit.db.credentials <==> o in db.credentials)
                  && (forall o | o != a && o in db.credentials :: edit.db.credentials[o] == db.credentials[o]))
  {
    hide Trim, SetPasswordRow, BadName;
    NamedRow(db, a, username, None);
    NamedRow(db, a, username, if password.Prepared? then Some(password.verifier) else None);
  }

  /** Another Admin's reset is refused exactly for one's own account, a missing or short password, an account that holds no
      credential, or a username. */
  lemma ResetPasswordRefused(s: State, actor: AccountId, a: AccountId, password: Password, username: Option<string>)
    ensures Step(s, OpResetPassword(actor, a, password, username)).reply.Refused? <==>
              || actor == a || !password.Prepared? || !LiveAccount(s.db, a) || s.db.accounts[a].role == Integration
              || BadName(s.db, a, if username != None then username.value else Kept(s.db, a))
  {
    hide UsableAdminExists, SetPasswordRow, BadName;
    var op := OpResetPassword(actor, a, password, username);
    RefusedExactly(s, op);
    if password.Prepared? {
      NamedRow(s.db, a, username, Some(password.verifier));
      if EditOf(s.db, op).Edited? {
        GainedPassword(s.db, EditOf(s.db, op).db, a, s.settings);
      }
    }
  }

  lemma GainedPassword(x: Db, y: Db, a: AccountId, settings: Settings)
    requires y == x.(credentials := y.credentials) && HoldsPassword(y, a)
    requires forall o | o != a :: (o in y.credentials <==> o in x.credentials)
    requires forall o | o != a && o in x.credentials :: y.credentials[o] == x.credentials[o]
    ensures UsableAdminExists(x, settings) ==> UsableAdminExists(y, settings)
  {
    hide UsableAdminExists;
    UsableExists(x, settings);
    UsableExists(y, settings);
    if b :| CanAdminister(x, b, settings) {
      OneCredential(x, y, a, settings, b);
    }
  }

  /** An account's own password is changed only against the verifier that was just proven, and otherwise refused exactly for
      a missing or short password, a dead account, or a stored username that could not be written. */
  lemma ChangeOwnPasswordRefused(s: State, a: AccountId, proven: Digest, password: Password)
    ensures Step(s, OpChangeOwnPassword(a, proven, password)).reply.Refused? <==>
              || !password.Prepared? || !LiveAccount(s.db, a) || a !in s.db.credentials
              || s.db.credentials[a].verifier != Some(proven) || BadName(s.db, a, Kept(s.db, a))
  {
    hide UsableAdminExists, SetPasswordRow, BadName;
    var op := OpChangeOwnPassword(a, proven, password);
    RefusedExactly(s, op);
    if password.Prepared? {
      NamedRow(s.db, a, None, Some(password.verifier));
      if EditOf(s.db, op).Edited? {
        GainedPassword(s.db, EditOf(s.db, op).db, a, s.settings);
      }
    }
  }

  /** An own address is refused exactly if it is blank, the account is dead or an Integration, the form is stale, or the
      stored address is not the account's own entry. */
  lemma SetOwnEmailRefused(s: State, a: AccountId, address: Atom, expected: Atom)
    ensures Step(s, OpSetOwnEmail(a, address, expected)).reply.Refused? <==>
              || !LiveAccount(s.db, a) || s.db.accounts[a].role == Integration || address == Blank
              || s.db.accounts[a].email.address != expected
              || (s.db.accounts[a].email.address != Blank && !s.db.accounts[a].email.entered)
  {
    hide UsableAdminExists;
    var op := OpSetOwnEmail(a, address, expected);
    RefusedExactly(s, op);
    if EditOf(s.db, op).Edited? {
      RaisedAdministers(s.db, EditOf(s.db, op).db, a, s.settings);
    }
  }

  // ---- sign-in --------------------------------------------------------------------------------------

  ghost predicate ActiveAccount(db: Db, a: AccountId) {
    LiveAccount(db, a) && db.accounts[a].enabled
  }

  ghost predicate Named(identity: Identity) {
    identity.issuer != Blank && identity.subject != Blank
  }

  /** The account the identity is bound to was removed, and not merged. */
  ghost predicate BoundToRemoved(db: Db, identity: Identity) {
    identity in db.bindings && db.bindings[identity] in db.accounts
    && db.accounts[db.bindings[identity]].deleted && db.accounts[db.bindings[identity]].mergedInto == None
  }

  /** An identity signs in as exactly the active account it is bound to, or the one created for it now; it is refused only
      where an account is to be created under a taken identifier. */
  lemma OidcSignsInExactly(s: State, identity: Identity, id: AccountId, role: Role, claim: Claim)
    ensures var r := Step(s, OpResolveOidc(identity, id, role, claim)).reply;
            && (r.Refused? || r.SignsInAs?)
            && (r.Refused? <==>
                  Named(identity) && id in s.db.accounts && (identity !in s.db.bindings || BoundToRemoved(s.db, identity)))
            && forall x :: r == SignsInAs(Some(x)) <==>
                 Named(identity) &&
                 if identity in s.db.bindings then x == s.db.bindings[identity] && ActiveAccount(s.db, x)
                 else x == id && id !in s.db.accounts
  {
  }

  /** The account created for an identity: with a role that may be provisioned, disabled if the identity's account was
      removed, and the claimed address verified only where the claims say so. */
  lemma OidcProvisions(s: State, identity: Identity, id: AccountId, role: Role, claim: Claim)
    requires Named(identity) && id !in s.db.accounts && (identity !in s.db.bindings || BoundToRemoved(s.db, identity))
    ensures var db := Step(s, OpResolveOidc(identity, id, role, claim)).state.db;
            && db.accounts.Keys == s.db.accounts.Keys + {id} && db.bindings == s.db.bindings[identity := id]
            && (forall a | a in s.db.accounts :: db.accounts[a] == s.db.accounts[a])
            && db.accounts[id] ==
                 Account(if role == ReadOnly then ReadOnly else User, identity !in s.db.bindings, false, None, Ordinary, 1,
                         Email(claim.address, claim.address != Blank && claim.verified == Some(true),
                               claim.address != Blank && claim.verified != None, false))
            && db.credentials == s.db.credentials && db.tokens == s.db.tokens && db.demands == s.db.demands
  {
  }

  /** What a returning identity's claims change: an empty address is filled, the verification of the same address is
      restated unless the account entered it itself, and nothing else. */
  lemma OidcCompletes(s: State, identity: Identity, id: AccountId, role: Role, claim: Claim)
    requires Named(identity) && identity in s.db.bindings && ActiveAccount(s.db, s.db.bindings[identity])
    ensures var a, t := s.db.bindings[identity], Step(s, OpResolveOidc(identity, id, role, claim)).state;
            var email := s.db.accounts[a].email;
            && t == s.(db := s.db.(accounts := t.db.accounts)) && t.db.accounts.Keys == s.db.accounts.Keys
            && (forall o | o in s.db.accounts && o != a :: t.db.accounts[o] == s.db.accounts[o])
            && t.db.accounts[a] == s.db.accounts[a].(email :=
                 if claim.address != Blank && email.address == Blank
                 then Email(claim.address, claim.verified == Some(true), claim.verified != None, false)
                 else if claim.address != Blank && claim.verified != None && !email.entered
                         && email.address != Blank && email.address.folded == claim.address.folded
                 then Email(email.address, claim.verified.value, true, false) else email)
  {
  }

  /** A proven identity signs in as exactly the enabled Admin it is bound to, or, unbound, the one who proved it; that
      binding is all that changes. */
  lemma BindsExactly(s: State, identity: Identity, a: AccountId)
    ensures var r := Step(s, OpBindVerified(identity, a));
            var target := if identity in s.db.bindings then s.db.bindings[identity] else a;
            && r.reply == SignsInAs(if Named(identity) && EnabledAdmin(s.db, target) then Some(target) else None)
            && r.state == (if r.reply == SignsInAs(None) then s
                           else s.(db := s.db.(bindings := s.db.bindings[identity := target])))
  {
  }

  /** A session opens exactly under a new key for an active account, in its role and generation, for its lifetime. */
  lemma SignInExactly(s: State, k: int, a: AccountId, lifetime: nat)
    ensures var r := Step(s, OpSignIn(k, a, lifetime));
            && (r.reply.Refused? <==> k in s.sessions || !ActiveAccount(s.db, a))
            && r.state == (if r.reply.Refused? then s
                           else s.(sessions := s.sessions[k := Session(a, s.db.accounts[a].role, s.db.accounts[a].generation,
                                                                       s.clock + lifetime)]))
  {
  }

  // ---- the offline recovery -------------------------------------------------------------------------

  /** The username the recovery installs: the file's, or the stored one where the file has none. */
  function ImportedName(db: Db, username: string): string {
    if Trim(username) != "" then Trim(username) else Kept(db, DEFAULT_ADMIN)
  }

  /** The recovery does nothing without a credential or where it is installed already; it is refused exactly for a missing
      or taken username; otherwise it installs the file's credential and ends the default Admin's sessions. */
  lemma ImportExactly(s: State, username: string, verifier: Option<Digest>)
    requires DEFAULT_ADMIN in s.db.accounts
    ensures var r, name := Step(s, OpImportLegacy(username, verifier)), ImportedName(s.db, username);
            var idle := verifier == None
                        || (DEFAULT_ADMIN in s.db.credentials && s.db.credentials[DEFAULT_ADMIN] == Credential(name, verifier));
            && (r.reply.Refused? <==>
                  !idle && (name == "" || exists o | o in s.db.credentials ::
                                            o != DEFAULT_ADMIN && s.db.credentials[o].username == name))
            && (idle || r.reply.Refused? ==> r.state == s)
            && (!idle && !r.reply.Refused? ==>
                  && r.state.db.credentials == s.db.credentials[DEFAULT_ADMIN := Credential(name, verifier)]
                  && r.state.db.accounts[DEFAULT_ADMIN].generation == s.db.accounts[DEFAULT_ADMIN].generation + 1
                  && (forall k :: k in r.state.sessions <==> k in s.sessions && s.sessions[k].account != DEFAULT_ADMIN)
                  && (forall k | k in r.state.sessions :: r.state.sessions[k] == s.sessions[k]))
  {
    hide Trim;
  }

  // ---- tokens, demand -------------------------------------------------------------------------------

  /** A token is refused exactly for an account that is no live Integration, a taken identifier or secret, or a predecessor
      that is no token of the account, merges considered. */
  lemma CreateTokenRefused(s: State, a: AccountId, t: TokenId, secret: Digest, succeeds: Option<TokenId>)
    requires Inv(s)
    ensures Step(s, OpCreateToken(a, t, secret, succeeds)).reply.Refused? <==>
              || !LiveAccount(s.db, a) || s.db.accounts[a].role != Integration || t in s.db.tokens
              || (exists u | u in s.db.tokens :: s.db.tokens[u].verifier == secret)
              || (succeeds != None &&
                    (succeeds.value !in s.db.tokens || Canonical(s.db.accounts, s.db.tokens[succeeds.value].account) != a))
  {
    hide Canonical, Owned, DbInv;
    if succeeds.Some? && succeeds.value in s.db.tokens {
      OwnedPartition(s.db.accounts, s.db.tokens[succeeds.value].account);
      if LiveAccount(s.db, a) {
        OwnedLive(s.db, a, s.db.tokens[succeeds.value].account);
      }
    }
  }

  lemma OwnedLive(db: Db, a: AccountId, x: AccountId)
    requires Forest(db.accounts) && LiveAccount(db, a)
    ensures x in Owned(db.accounts, a) <==> Canonical(db.accounts, x) == a
  {
    OwnedPartition(db.accounts, x);
  }

  lemma RevokeTokenRefused(s: State, a: AccountId, t: TokenId)
    ensures Step(s, OpRevokeToken(a, t)).reply.Refused? <==>
              t !in s.db.tokens || s.db.tokens[t].account != a || s.db.tokens[t].revoked
  {
  }

  /** A secret is accepted exactly as an unrevoked token of an enabled, live Integration account. */
  lemma AcceptsExactly(db: Db, t: TokenId, secret: Digest)
    requires t in db.tokens && db.tokens[t].account in db.accounts
    ensures Accepts(db, t, secret) <==>
              && db.tokens[t].verifier == secret && !db.tokens[t].revoked
              && ActiveAccount(db, db.tokens[t].account) && db.accounts[db.tokens[t].account].role == Integration
  {
  }

  lemma SubmitExactly(s: State, d: int, a: AccountId, transfer: nat)
    ensures var r := Step(s, OpSubmit(d, a, transfer));
            && (r.reply.Refused? <==> d in s.db.demands)
            && r.state == if d in s.db.demands then s
                          else s.(db := s.db.(demands := s.db.demands[d := Demand(a, transfer, false)]))
  {
  }
}
