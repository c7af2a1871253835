/** What an account operation achieves for good: who can sign in with what, after it and after every run that follows. */
module AccountOutcomes {
  import opened Support
  import opened Text
  import opened AccountModel
  import opened MergeForest
  import opened AccountLaws
  import opened AccountRuns

  /** `a` is the active account whose username is `name`, and `verifier` is what its password is checked against. */
  ghost predicate SignsInLocally(db: Db, name: string, a: AccountId, verifier: Digest) {
    && a in db.credentials && db.credentials[a] == Credential(name, Some(verifier))
    && a in db.accounts && db.accounts[a].Active()
  }

  /** Whoever signs in locally after a run: one username is one account, human, and never one that was removed or
      merged away before. */
  lemma OneLocalAccount(s: State, ops: seq<Op>, name: string, a: AccountId, v: Digest, b: AccountId, w: Digest)
    requires Inv(s) && SignsInLocally(Run(s, ops).db, name, a, v) && SignsInLocally(Run(s, ops).db, name, b, w)
    ensures a == b && v == w && Run(s, ops).db.accounts[a].role != Integration
    ensures a in s.db.accounts ==> s.db.accounts[a].Live()
  {
    hide Run, Forest, SessionsFresh, BindingsOwned, TokenRows, TokenOwners, AccountsInv;
    RunKeeps(s, ops);
  }

  // ---- credentials --------------------------------------------------------------------------------

  /** An operation that may concern the credential of `a`. */
  predicate Concerns(op: Op, a: AccountId) {
    (op.Guarded() && a in op.Touched()) || (op.OpImportLegacy? && a == DEFAULT_ADMIN)
  }

  /** The credential of `a` in both states. */
  ghost predicate SameCredential(x: Db, y: Db, a: AccountId) {
    (a in y.credentials <==> a in x.credentials) && (a in x.credentials ==> y.credentials[a] == x.credentials[a])
  }

  lemma OtherRowSet(db: Db, o: AccountId, username: Option<string>, verifier: Option<Digest>, a: AccountId)
    requires a != o
    ensures SetPasswordRow(db, o, username, verifier).Edited? ==>
              SameCredential(db, SetPasswordRow(db, o, username, verifier).db, a)
  {
    hide Trim, UsernameTaken;
  }

  lemma CredentialEdits(db: Db, op: Op, a: AccountId)
    requires op.OpSetOwnCredential? || op.OpResetPassword? || op.OpChangeOwnPassword? || op.OpCreateLocal?
    requires a in db.accounts && (op.OpCreateLocal? || a != op.account)
    ensures EditOf(db, op).Edited? ==> SameCredential(db, EditOf(db, op).db, a)
  {
    hide SetPasswordRow, Trim, UsernameTaken;
    match op {
      case OpCreateLocal(id, username, password, role) =>
        if id !in db.accounts {
          var added := db.(accounts := db.accounts[id := NewAccount(role, true, NO_EMAIL)]);
          OtherRowSet(added, id, Some(username), if password.Prepared? then Some(password.verifier) else None, a);
        }
      case OpSetOwnCredential(o, username, password, _, _) =>
        OtherRowSet(db, o, username, None, a);
        OtherRowSet(db, o, username, if password.Prepared? then Some(password.verifier) else None, a);
      case OpResetPassword(_, o, password, username) =>
        if password.Prepared? {
          OtherRowSet(db, o, username, Some(password.verifier), a);
        }
      case OpChangeOwnPassword(o, _, password) =>
        if password.Prepared? {
          OtherRowSet(db, o, None, Some(password.verifier), a);
        }
    }
  }

  lemma DirectoryEdits(db: Db, op: Op, a: AccountId)
    requires op.OpCreateIntegration? || op.OpChangeRole? || op.OpChangeEnabled? || op.OpRemove? || op.OpMerge? || op.OpSetOwnEmail?
    requires a !in op.Touched()
    ensures EditOf(db, op).Edited? ==> SameCredential(db, EditOf(db, op).db, a)
  {
    hide Owned, OneHolder;
  }

  lemma GuardedCredential(s: State, op: Op, a: AccountId)
    requires op.Guarded() && a in s.db.accounts && a !in op.Touched()
    ensures SameCredential(s.db, GuardedStep(s, op).state.db, a)
  {
    hide EditOf, Owned, UsableAdminExists, OutstandingTransfers;
    if op.OpSetOwnCredential? || op.OpResetPassword? || op.OpChangeOwnPassword? || op.OpCreateLocal? {
      CredentialEdits(s.db, op, a);
    } else {
      DirectoryEdits(s.db, op, a);
    }
  }

  lemma UnguardedCredential(s: State, op: Op, a: AccountId)
    requires !op.Guarded() && !(op.OpImportLegacy? && a == DEFAULT_ADMIN)
    ensures SameCredential(s.db, Step(s, op).state.db, a)
  {
    hide UsernameTaken, Owned, VerifierTaken, Trim;
  }

  /** What does not concern an account leaves it its credential, and active if it was. */
  lemma StepCredential(s: State, op: Op, a: AccountId)
    requires a in s.db.accounts && s.db.accounts[a].Active() && !Concerns(op, a)
    ensures SameCredential(s.db, Step(s, op).state.db, a)
    ensures a in Step(s, op).state.db.accounts && Step(s, op).state.db.accounts[a].Active()
  {
    hide GuardedStep, SameCredential;
    if op.Guarded() {
      GuardedCredential(s, op, a);
      GuardedRow(s, op, a);
    } else {
      UnguardedCredential(s, op, a);
      UnguardedRow(s, op, a);
    }
  }

  /** Who can sign in with a password can do so after every run that does not concern them. */
  lemma {:induction false} CredentialStands(s: State, ops: seq<Op>, name: string, a: AccountId, v: Digest)
    requires SignsInLocally(s.db, name, a, v) && forall op | op in ops :: !Concerns(op, a)
    ensures SignsInLocally(Run(s, ops).db, name, a, v)
    decreases |ops|
  {
    hide Step, Concerns;
    if ops != [] {
      StepCredential(s, ops[0], a);
      CredentialStands(Step(s, ops[0]).state, ops[1..], name, a, v);
    }
  }

  /** The username an operation leaves `a`, and the password it sets. */
  ghost predicate SetsPassword(s: State, op: Op, a: AccountId, name: string, v: Digest) {
    var kept := if a in s.db.credentials then s.db.credentials[a].username else "";
    match op
    case OpCreateLocal(id, username, password, _) => id == a && name == Trim(username) && password == Prepared(v)
    case OpSetOwnCredential(o, username, password, clear, _) =>
      o == a && name == Trim(username.GetOr(kept)) && password == Prepared(v) && !clear
    case OpResetPassword(_, o, password, username) => o == a && name == Trim(username.GetOr(kept)) && password == Prepared(v)
    case OpChangeOwnPassword(o, _, password) => o == a && name == Trim(kept) && password == Prepared(v)
    case _ => false
  }

  lemma RowSet(db: Db, a: AccountId, username: Option<string>, v: Digest)
    requires SetPasswordRow(db, a, username, Some(v)).Edited?
    ensures var kept := if a in db.credentials then db.credentials[a].username else "";
            var y := SetPasswordRow(db, a, username, Some(v)).db;
            && y == db.(credentials := y.credentials)
            && a in y.credentials && y.credentials[a] == Credential(Trim(username.GetOr(kept)), Some(v))
  {
    hide Trim, UsernameTaken;
  }

  lemma PasswordEdited(s: State, op: Op, a: AccountId, name: string, v: Digest)
    requires SetsPassword(s, op, a, name, v) && EditOf(s.db, op).Edited?
    requires forall x | x in s.db.credentials :: x in s.db.accounts
    ensures var y := EditOf(s.db, op).db; a in y.credentials && y.credentials[a] == Credential(name, Some(v))
  {
    hide SetPasswordRow, Trim, UsernameTaken;
    match op {
      case OpCreateLocal(id, username, _, role) =>
        RowSet(s.db.(accounts := s.db.accounts[id := NewAccount(role, true, NO_EMAIL)]), id, Some(username), v);
      case OpSetOwnCredential(o, username, _, _, _) => RowSet(s.db, o, username, v);
      case OpResetPassword(_, o, _, username) => RowSet(s.db, o, username, v);
      case OpChangeOwnPassword(o, _, _) => RowSet(s.db, o, None, v);
    }
  }

  /** A password that was set signs in its account, under the trimmed or kept username, after every run that does not
      concern that account. */
  lemma PasswordSetStands(s: State, op: Op, a: AccountId, name: string, v: Digest, ops: seq<Op>)
    requires Inv(s) && SetsPassword(s, op, a, name, v) && !Step(s, op).reply.Refused?
    requires a in Step(s, op).state.db.accounts && Step(s, op).state.db.accounts[a].Active()
    requires forall o | o in ops :: !Concerns(o, a)
    ensures SignsInLocally(Run(Step(s, op).state, ops).db, name, a, v)
  {
    hide Run, EditOf, UsableAdminExists, Trim, Concerns;
    PasswordEdited(s, op, a, name, v);
    CredentialStands(Step(s, op).state, ops, name, a, v);
  }

  /** The offline recovery works: once the configuration file's credential is installed, the default Admin signs in
      with it, and where passwords are enabled a usable Admin exists whatever was true before. */
  lemma RecoverySignsIn(s: State, username: string, verifier: Digest)
    requires Inv(s) && !ImportLegacy(s, username, Some(verifier)).reply.Refused?
    ensures var t := ImportLegacy(s, username, Some(verifier)).state;
            && DEFAULT_ADMIN in t.db.credentials && t.db.credentials[DEFAULT_ADMIN].verifier == Some(verifier)
            && (Trim(username) != "" ==> SignsInLocally(t.db, Trim(username), DEFAULT_ADMIN, verifier))
            && (s.settings.password ==> UsableAdminExists(t.db, s.settings))
  {
    hide UsernameTaken;
    hide TokenOwners;
    hide Trim;
    var t := ImportLegacy(s, username, Some(verifier)).state;
    assert t.db.accounts[DEFAULT_ADMIN].Active() && t.db.accounts[DEFAULT_ADMIN].role == Admin;
    if s.settings.password {
      assert UsableAdmin(t.db, DEFAULT_ADMIN, s.settings);
    }
  }

  /** The prediction made of a restore point before it is started: its own Admins, with the default Admin given the
      file's credential when there is one. */
  ghost predicate PredictsUsableAdmin(db: Db, verifier: Option<Digest>, settings: Settings) {
    UsableAdminExists(db, settings) || (verifier.Some? && settings.password)
  }

  /** The prediction is what starting it leaves, wherever the file's credential can be installed at all. */
  lemma PredictionHolds(s: State, username: string, verifier: Option<Digest>)
    requires Inv(s) && !ImportLegacy(s, username, verifier).reply.Refused?
    ensures PredictsUsableAdmin(s.db, verifier, s.settings) <==>
              UsableAdminExists(ImportLegacy(s, username, verifier).state.db, s.settings)
  {
    hide UsernameTaken;
    hide TokenOwners;
    hide Trim;
    var y := ImportLegacy(s, username, verifier).state.db;
    if verifier.Some? && s.settings.password {
      RecoverySignsIn(s, username, verifier.value);
    } else {
      forall a | a in s.db.accounts ensures UsableAdmin(y, a, s.settings) <==> UsableAdmin(s.db, a, s.settings) {
        assert y.bindings == s.db.bindings;
      }
    }
  }

  // ---- what is final -------------------------------------------------------------------------------

  /** Nothing signs in, authenticates or holds a session as `a`. */
  ghost predicate ShutOut(s: State, a: AccountId) {
    && a in s.db.accounts && !s.db.accounts[a].Active() && a !in s.db.credentials
    && (forall name, v :: !SignsInLocally(s.db, name, a, v))
    && (forall t, secret | t in s.db.tokens && s.db.tokens[t].account == a :: !Accepts(s.db, t, secret))
    && (forall k | k in s.sessions && s.sessions[k].expires > s.clock :: s.sessions[k].account != a)
  }

  /** Whoever tries, nobody becomes `a`. */
  lemma NobodyBecomes(s: State, a: AccountId, op: Op)
    requires Inv(s) && ShutOut(s, a)
    ensures Step(s, op).reply != SignsInAs(Some(a))
    ensures op.OpSignIn? && op.account == a ==> Step(s, op).reply.Refused?
  {
    hide GuardedStep, DbInv, Forest, SessionsFresh;
    if op.Guarded() {
      GuardedReply(s, op);
    }
  }

  lemma GuardedReply(s: State, op: Op)
    requires op.Guarded()
    ensures !GuardedStep(s, op).reply.SignsInAs?
  {
    hide EditOf, Owned, UsableAdminExists, OutstandingTransfers;
  }

  /** A tombstone holds nothing after any run: no password, no token, no session. */
  lemma TombstoneShutOut(s: State, ops: seq<Op>, a: AccountId)
    requires Inv(s) && a in s.db.accounts && s.db.accounts[a].deleted
    ensures Inv(Run(s, ops)) && ShutOut(Run(s, ops), a)
  {
    hide Run, Forest, BindingsOwned, TokenRows, TokenOwners, EmailsHonest, DefaultsKept;
    RunKeeps(s, ops);
    var t := Run(s, ops);
    assert t.db.accounts[a].deleted;
  }

  lemma RemovedRow(s: State, actor: AccountId, a: AccountId)
    requires !Step(s, OpRemove(actor, a)).reply.Refused?
    ensures a in Step(s, OpRemove(actor, a)).state.db.accounts && Step(s, OpRemove(actor, a)).state.db.accounts[a].deleted
  {
    hide Owned, UsableAdminExists, OutstandingTransfers;
  }

  /** A removed account is shut out through every later run, whatever anybody does: nobody signs in, authenticates or
      becomes it again. */
  lemma RemovedForEver(s: State, actor: AccountId, a: AccountId, ops: seq<Op>, op: Op)
    requires Inv(s) && !Step(s, OpRemove(actor, a)).reply.Refused?
    ensures var t := Run(Step(s, OpRemove(actor, a)).state, ops);
            && ShutOut(t, a) && Step(t, op).reply != SignsInAs(Some(a))
            && (op.OpSignIn? && op.account == a ==> Step(t, op).reply.Refused?)
  {
    hide Run, Step, Inv, ShutOut;
    StepInv(s, OpRemove(actor, a));
    RemovedRow(s, actor, a);
    TombstoneShutOut(Step(s, OpRemove(actor, a)).state, ops, a);
    NobodyBecomes(Run(Step(s, OpRemove(actor, a)).state, ops), a, op);
  }

  /** A revoked token is accepted after no run; and neither revoking a token nor rotating one touches any other. */
  lemma RevokedForEver(s: State, op: Op, t: TokenId, ops: seq<Op>, secret: Digest)
    requires Inv(s) && Step(s, op).reply.Done?
    requires (op.OpRevokeToken? && op.token == t) || (op.OpCreateToken? && op.succeeds == Some(t))
    ensures var u := Step(s, op).state;
            && (forall o | o in s.db.tokens && o != t :: o in u.db.tokens && u.db.tokens[o] == s.db.tokens[o])
            && var db := Run(u, ops).db;
               t in db.tokens && db.tokens[t].account in db.accounts && !Accepts(db, t, secret)
  {
    hide Run, Inv, VerifierTaken, Owned;
    StepInv(s, op);
    var u := Step(s, op).state;
    assert t in u.db.tokens && u.db.tokens[t].revoked;
    RunKeeps(u, ops);
    TokenAccounts(Run(u, ops));
  }

  lemma TokenAccounts(s: State)
    requires Inv(s)
    ensures forall t | t in s.db.tokens :: s.db.tokens[t].account in s.db.accounts
  {
    hide Forest, SessionsFresh, TokenOwners, CredentialsOwned, BindingsOwned, AccountsInv;
  }

  // ---- merges --------------------------------------------------------------------------------------

  /** Two identities that mean one account mean one account after every run. */
  lemma {:induction false} MeanOneForEver(s: State, ops: seq<Op>, x: AccountId, y: AccountId)
    requires Inv(s) && Canonical(s.db.accounts, x) == Canonical(s.db.accounts, y)
    ensures Canonical(Run(s, ops).db.accounts, x) == Canonical(Run(s, ops).db.accounts, y)
    decreases |ops|
  {
    hide Step, Inv, Canonical;
    if ops != [] {
      StepInv(s, ops[0]);
      StepCanonical(s, ops[0], x);
      StepCanonical(s, ops[0], y);
      MeanOneForEver(Step(s, ops[0]).state, ops[1..], x, y);
    }
  }

  /** What a merge carries over: every binding of a source is the target's, the one local credential among them all is
      the target's, whose own row stays, and nothing of anybody else moves. */
  lemma MergeCarries(db: Db, actor: AccountId, sources: seq<AccountId>, target: AccountId)
    requires Merge(db, actor, sources, target).Edited?
    ensures var y := Merge(db, actor, sources, target).db;
            && y.accounts.Keys == db.accounts.Keys && target in db.accounts && y.accounts[target] == db.accounts[target]
            && y.bindings.Keys == db.bindings.Keys
            && (forall i | i in db.bindings :: y.bindings[i] == if db.bindings[i] in sources then target else db.bindings[i])
            && (forall x | (x in sources || x == target) && x in db.credentials ::
                  target in y.credentials && y.credentials[target] == db.credentials[x])
            && (forall x | x in sources :: x !in y.credentials)
            && (forall x | x !in sources && x != target ::
                  && (x in y.credentials <==> x in db.credentials)
                  && (x in db.credentials ==> y.credentials[x] == db.credentials[x]))
  {
    assert forall x | x in sources :: x in Elements(sources);
  }

  /** A merge is for ever: whatever meant a source means what the target means after every run, and nobody signs in or
      authenticates as a source again. */
  lemma MergedForEver(s: State, actor: AccountId, sources: seq<AccountId>, target: AccountId, ops: seq<Op>, x: AccountId)
    requires Inv(s) && Step(s, OpMerge(actor, sources, target)).reply.Done?
    requires Canonical(s.db.accounts, x) in sources
    ensures var t := Run(Step(s, OpMerge(actor, sources, target)).state, ops);
            && Canonical(t.db.accounts, x) == Canonical(t.db.accounts, target)
            && forall a | a in sources :: ShutOut(t, a)
  {
    hide Run, Step, Inv, ShutOut, Canonical;
    var op := OpMerge(actor, sources, target);
    var u := Step(s, op).state;
    StepInv(s, op);
    StepCanonical(s, op, x);
    StepCanonical(s, op, target);
    MergedRows(s, actor, sources, target);
    MeanOneForEver(u, ops, x, target);
    forall a | a in sources ensures ShutOut(Run(u, ops), a) {
      TombstoneShutOut(u, ops, a);
    }
  }

  lemma MergedRows(s: State, actor: AccountId, sources: seq<AccountId>, target: AccountId)
    requires Step(s, OpMerge(actor, sources, target)).reply.Done?
    ensures var accounts := Step(s, OpMerge(actor, sources, target)).state.db.accounts;
            forall a | a in sources :: a in accounts && accounts[a].deleted
    ensures target !in sources && LiveIn(s.db, target) && Canonical(s.db.accounts, target) == target
  {
    hide UsableAdminExists, OneHolder, Owned;
    assert forall x | x in sources :: x in Elements(sources);
  }

  /** The one password among merged accounts signs in as the target, after every run that does not concern it. */
  lemma MergedPasswordStands(s: State, actor: AccountId, sources: seq<AccountId>, target: AccountId, x: AccountId,
                             name: string, v: Digest, ops: seq<Op>)
    requires Inv(s) && Step(s, OpMerge(actor, sources, target)).reply.Done?
    requires (x in sources || x == target) && SignsInLocally(s.db, name, x, v) && s.db.accounts[target].enabled
    requires forall o | o in ops :: !Concerns(o, target)
    ensures SignsInLocally(Run(Step(s, OpMerge(actor, sources, target)).state, ops).db, name, target, v)
  {
    hide Run, Merge, UsableAdminExists, Concerns, Inv;
    MergedTarget(s, actor, sources, target);
    MergeCarries(s.db, actor, sources, target);
    CredentialStands(Step(s, OpMerge(actor, sources, target)).state, ops, name, target, v);
  }

  lemma MergedTarget(s: State, actor: AccountId, sources: seq<AccountId>, target: AccountId)
    requires Step(s, OpMerge(actor, sources, target)).reply.Done?
    ensures LiveIn(s.db, target) && Merge(s.db, actor, sources, target).Edited?
  {
    hide UsableAdminExists, OneHolder, Owned;
  }
}
