/** The account machine over whole runs: what always holds, what only one operation can do, and who means whom. */
module AccountRuns {
  import opened Support
  import opened Text
  import opened AccountModel
  import opened MergeForest
  import opened AccountLaws

  // ---- what each operation does to a row ----------------------------------------------------------

  /** The standing a guarded change leaves the account `b`, whose row was `x`. */
  ghost predicate RowEdited(op: Op, b: AccountId, x: Account, y: Account)
    requires op.Guarded()
  {
    var folded := (op.OpRemove? && op.account == b) || (op.OpMerge? && b in op.sources);
    && y.generation == x.generation
    && y.role == (if op.OpChangeRole? && op.account == b then op.role else x.role)
    && y.enabled == (!folded && if op.OpChangeEnabled? && op.account == b then op.enabled else x.enabled)
    && y.deleted == (folded || x.deleted)
    && y.mergedInto == (if op.OpMerge? && b in op.sources then Some(op.target) else x.mergedInto)
  }

  /** A guarded change of the rows: existing ones as told, and none new but the created one. */
  ghost predicate RowsEdited(db: Db, op: Op, y: Db)
    requires op.Guarded()
  {
    && db.accounts.Keys <= y.accounts.Keys
    && (forall b | b in db.accounts :: RowEdited(op, b, db.accounts[b], y.accounts[b]))
    && (forall b | b in y.accounts && b !in db.accounts ::
          && (op.OpCreateLocal? || op.OpCreateIntegration?) && op.id == b && y.accounts[b].Live()
          && y.accounts[b].role == if op.OpCreateLocal? then op.role else Integration)
  }

  /** A change of credentials leaves every account row and binding alone. */
  lemma CredentialTable(db: Db, op: Op)
    requires op.OpSetOwnCredential? || op.OpResetPassword? || op.OpChangeOwnPassword?
    ensures EditOf(db, op).Edited? ==> EditOf(db, op).db == db.(credentials := EditOf(db, op).db.credentials)
  {
    hide Trim;
    hide UsernameTaken;
  }

  lemma CredentialRows(db: Db, op: Op)
    requires op.OpSetOwnCredential? || op.OpResetPassword? || op.OpChangeOwnPassword?
    ensures EditOf(db, op).Edited? ==> RowsEdited(db, op, EditOf(db, op).db)
  {
    hide EditOf;
    CredentialTable(db, op);
  }

  lemma CreatedTables(db: Db, op: Op)
    requires op.OpCreateLocal? || op.OpCreateIntegration?
    ensures var edit := EditOf(db, op);
            edit.Edited? ==>
              && op.id !in db.accounts
              && edit.db == db.(accounts := db.accounts[op.id := NewAccount(
                                  if op.OpCreateLocal? then op.role else Integration, true, NO_EMAIL)],
                                credentials := edit.db.credentials)
  {
  }

  lemma CreatedRows(db: Db, op: Op)
    requires op.OpCreateLocal? || op.OpCreateIntegration?
    ensures EditOf(db, op).Edited? ==> RowsEdited(db, op, EditOf(db, op).db)
  {
    hide EditOf;
    CreatedTables(db, op);
  }

  lemma ReplacedRow(db: Db, op: Op)
    requires op.OpChangeRole? || op.OpChangeEnabled? || op.OpSetOwnEmail?
    ensures EditOf(db, op).Edited? ==> RowsEdited(db, op, EditOf(db, op).db)
  {
    hide Owned;
  }

  lemma FoldedRows(db: Db, op: Op)
    requires op.OpRemove? || op.OpMerge?
    ensures EditOf(db, op).Edited? ==> RowsEdited(db, op, EditOf(db, op).db)
  {
    hide Owned;
  }

  lemma EditRows(db: Db, op: Op)
    requires op.Guarded()
    ensures EditOf(db, op).Edited? ==> RowsEdited(db, op, EditOf(db, op).db)
  {
    hide EditOf;
    hide RowsEdited;
    if op.OpCreateLocal? || op.OpCreateIntegration? {
      CreatedRows(db, op);
    } else if op.OpRemove? || op.OpMerge? {
      FoldedRows(db, op);
    } else if op.OpChangeRole? || op.OpChangeEnabled? || op.OpSetOwnEmail? {
      ReplacedRow(db, op);
    } else {
      CredentialRows(db, op);
    }
  }

  /** A commit leaves the edited row, its generation moved if it was touched; a refusal leaves everything. */
  ghost predicate RowCommitted(s: State, edit: Edit, touched: set<AccountId>, r: Result, b: AccountId) {
    if r.reply.Refused? then r.state == s
    else
      && edit.Edited? && b in edit.db.accounts && b in r.state.db.accounts
      && r.state.db.accounts[b] ==
           edit.db.accounts[b].(generation := edit.db.accounts[b].generation + (if b in touched then 1 else 0))
  }

  lemma MutatedRow(s: State, edit: Edit, touched: set<AccountId>, next: Settings, b: AccountId)
    requires edit.Edited? ==> b in edit.db.accounts
    ensures RowCommitted(s, edit, touched, Mutate(s, edit, touched, next), b)
  {
    hide UsableAdminExists;
  }

  lemma RoleChangedRow(s: State, edit: Edit, a: AccountId, b: AccountId)
    requires edit.Edited? ==> b in edit.db.accounts
    ensures RowCommitted(s, edit, {a}, MutateRole(s, edit, a), b)
  {
    hide UsableAdminExists;
  }

  /** A guarded operation either changes nothing, or edits the rows as told and moves the touched generations. */
  lemma GuardedRow(s: State, op: Op, b: AccountId)
    requires op.Guarded() && b in s.db.accounts
    ensures var r := GuardedStep(s, op);
            && b in r.state.db.accounts
            && (if r.reply.Refused? then r.state == s
                else
                  var x, y := s.db.accounts[b], r.state.db.accounts[b];
                  && y.generation == x.generation + (if b in op.Touched() then 1 else 0)
                  && RowEdited(op, b, x, y.(generation := x.generation)))
  {
    hide EditOf;
    hide Owned;
    hide Mutate;
    hide MutateRole;
    EditRows(s.db, op);
    MutatedRow(s, EditOf(s.db, op), op.Touched(), if op.OpSetOwnCredential? then op.next else s.settings, b);
    if op.OpChangeRole? {
      RoleChangedRow(s, EditOf(s.db, op), op.account, b);
    }
  }

  lemma GuardedNewRow(s: State, op: Op, b: AccountId)
    requires op.Guarded() && b !in s.db.accounts
    ensures var accounts := GuardedStep(s, op).state.db.accounts;
            b in accounts ==>
              && (op.OpCreateLocal? || op.OpCreateIntegration?) && op.id == b && accounts[b].Live()
              && accounts[b].role == if op.OpCreateLocal? then op.role else Integration
  {
    hide EditOf;
    hide Owned;
    hide UsableAdminExists;
    EditRows(s.db, op);
  }

  predicate SameStanding(x: Account, y: Account) {
    y.role == x.role && y.enabled == x.enabled && y.deleted == x.deleted && y.mergedInto == x.mergedInto
  }

  lemma SignInRow(s: State, op: Op, b: AccountId)
    requires (op.OpResolveOidc? || op.OpBindVerified?) && b in s.db.accounts
    ensures b in Step(s, op).state.db.accounts && SameStanding(s.db.accounts[b], Step(s, op).state.db.accounts[b])
    ensures Step(s, op).state.db.accounts[b].generation == s.db.accounts[b].generation
  {
  }

  lemma OtherRow(s: State, op: Op, b: AccountId)
    requires !op.Guarded() && !op.OpResolveOidc? && !op.OpBindVerified? && b in s.db.accounts
    ensures b in Step(s, op).state.db.accounts && SameStanding(s.db.accounts[b], Step(s, op).state.db.accounts[b])
    ensures op.OpImportLegacy? || Step(s, op).state.db.accounts[b].generation == s.db.accounts[b].generation
  {
    hide UsernameTaken;
    hide Owned;
    hide VerifierTaken;
    hide Trim;
  }

  /** No operation outside the guard changes an account's standing. */
  lemma UnguardedRow(s: State, op: Op, b: AccountId)
    requires !op.Guarded() && b in s.db.accounts
    ensures b in Step(s, op).state.db.accounts && SameStanding(s.db.accounts[b], Step(s, op).state.db.accounts[b])
    ensures op.OpImportLegacy? || Step(s, op).state.db.accounts[b].generation == s.db.accounts[b].generation
  {
    hide Step;
    if op.OpResolveOidc? || op.OpBindVerified? { SignInRow(s, op, b); } else { OtherRow(s, op, b); }
  }

  /** The one operation outside the guard that adds an account is a sign-in, and never as an Admin. */
  lemma UnguardedNewRow(s: State, op: Op, b: AccountId)
    requires !op.Guarded() && b !in s.db.accounts
    ensures var accounts := Step(s, op).state.db.accounts;
            b in accounts ==> op.OpResolveOidc? && op.id == b && accounts[b].Live() && accounts[b].role in {User, ReadOnly}
  {
    hide UsernameTaken;
    hide Owned;
    hide VerifierTaken;
  }

  // ---- the forest over a run ----------------------------------------------------------------------

  /** No operation but a merge redirects anybody. */
  lemma StepTree(s: State, op: Op)
    requires !op.OpMerge?
    ensures SameTree(s.db.accounts, Step(s, op).state.db.accounts)
  {
    hide GuardedStep;
    var t := Step(s, op).state;
    forall b | b in s.db.accounts ensures b in t.db.accounts && t.db.accounts[b].mergedInto == s.db.accounts[b].mergedInto {
      if op.Guarded() { GuardedRow(s, op, b); } else { UnguardedRow(s, op, b); }
    }
    forall b | b in t.db.accounts && b !in s.db.accounts ensures t.db.accounts[b].mergedInto.None? {
      if op.Guarded() { GuardedNewRow(s, op, b); } else { UnguardedNewRow(s, op, b); }
    }
  }

  /** A completed merge redirects its sources to its target, and a refused one changes nothing. */
  lemma MergeTree(s: State, actor: AccountId, sources: seq<AccountId>, target: AccountId)
    requires Inv(s)
    ensures var r := Step(s, OpMerge(actor, sources, target));
            if r.reply.Done? then Redirected(s.db.accounts, r.state.db.accounts, Elements(sources), target)
            else r.state == s
  {
    MergeKeeps(s.db, actor, sources, target);
  }

  lemma StepForest(s: State, op: Op)
    requires Inv(s)
    ensures Forest(Step(s, op).state.db.accounts)
  {
    if op.OpMerge? {
      MergeTree(s, op.actor, op.sources, op.target);
      if Step(s, op).reply.Done? {
        RedirectedForest(s.db.accounts, Step(s, op).state.db.accounts, Elements(op.sources), op.target);
      }
    } else {
      StepTree(s, op);
      SameTreeForest(s.db.accounts, Step(s, op).state.db.accounts);
    }
  }

  lemma ExtendsThrough(x: Db, y: Db, z: Db)
    requires Extends(x, y) && Extends(y, z)
    ensures Extends(x, z)
  {
    AccountsExtendThrough(x.accounts, y.accounts, z.accounts);
  }

  lemma StepInv(s: State, op: Op)
    requires Inv(s)
    ensures Inv(Step(s, op).state) && Extends(s.db, Step(s, op).state.db)
  {
    hide Step;
    hide DbInv;
    hide Forest;
    hide SessionsFresh;
    hide Extends;
    StepGood(s, op);
    StepForest(s, op);
  }

  /** Over every run the invariant holds and nothing durable is lost: tombstones and redirections stay, bindings
      never disappear, tokens keep their client, withdrawals are final, and generations never go back. */
  lemma {:induction false} RunKeeps(s: State, ops: seq<Op>)
    requires Inv(s)
    ensures Inv(Run(s, ops)) && Extends(s.db, Run(s, ops).db)
    decreases |ops|
  {
    hide Step;
    hide Inv;
    hide Extends;
    if ops == [] {
      InvExtends(s);
    } else {
      StepInv(s, ops[0]);
      RunKeeps(Step(s, ops[0]).state, ops[1..]);
      ExtendsThrough(s.db, Step(s, ops[0]).state.db, Run(s, ops).db);
    }
  }

  lemma InvExtends(s: State)
    requires Inv(s)
    ensures Extends(s.db, s.db)
  {
    Unedited(s.db);
  }

  /** A fresh installation: the two default identities and nothing else. */
  function Installed(settings: Settings): State {
    var defaults := map[
      DEFAULT_ADMIN := Account(Admin, true, false, None, DefaultAdmin, 1, NO_EMAIL),
      DEFAULT_INTEGRATION := Account(Integration, true, false, None, DefaultIntegration, 1, NO_EMAIL)];
    State(Db(defaults, map[], map[], map[], map[]), map[], 0, settings)
  }

  /** Every run starts well: the installation's own state meets the invariant. */
  lemma InstalledInv(settings: Settings)
    ensures Inv(Installed(settings))
  {
    var accounts := Installed(settings).db.accounts;
    var rank: map<AccountId, nat> := map a | a in accounts :: 0;
    assert Ranked(accounts, rank) by {
      forall a | a in accounts ensures Climbs(accounts, rank, a) {
      }
    }
  }

  // ---- the last usable Admin ----------------------------------------------------------------------

  /** The generation counter is no sign-in fact. */
  lemma TouchUsable(db: Db, touched: set<AccountId>, settings: Settings)
    ensures UsableAdminExists(Touch(db, touched), settings) <==> UsableAdminExists(db, settings)
  {
    var y := Touch(db, touched);
    assert forall a | a in db.accounts :: UsableAdmin(y, a, settings) <==> UsableAdmin(db, a, settings);
  }

  /** Every active Admin keeps its standing, its password and its bindings. */
  ghost predicate AdminsKept(x: Db, y: Db) {
    forall a | a in x.accounts && x.accounts[a].role == Admin && x.accounts[a].Active() ::
      && a in y.accounts && y.accounts[a].role == Admin && y.accounts[a].Active()
      && (HasPassword(x, a) ==> HasPassword(y, a))
      && forall i | i in x.bindings && x.bindings[i] == a :: i in y.bindings && y.bindings[i] == a
  }

  lemma UsableFrame(x: Db, y: Db, settings: Settings)
    requires UsableAdminExists(x, settings) && AdminsKept(x, y)
    ensures UsableAdminExists(y, settings)
  {
    if settings.password || settings.oidc {
      var a :| a in x.accounts && UsableAdmin(x, a, settings);
      if BoundUnder(x, a, Issuer(settings)) {
        var i :| i in x.bindings && x.bindings[i] == a && i.issuer == Issuer(settings);
        assert i in y.bindings && y.bindings[i] == a;
        assert BoundUnder(y, a, Issuer(settings));
      }
      assert UsableAdmin(y, a, settings);
    }
  }

  lemma ProvisionAdmins(db: Db, id: AccountId, identity: Identity, role: Role, enabled: bool, claim: Claim)
    requires id !in db.accounts
    requires identity in db.bindings ==> Admitted(db, db.bindings[identity]).None?
    ensures AdminsKept(db, Provision(db, id, identity, role, enabled, claim))
  {
  }

  lemma ProfileAdmins(db: Db, a: AccountId, claim: Claim)
    ensures AdminsKept(db, CompleteProfile(db, a, claim))
  {
  }

  lemma SignInAdmins(s: State, op: Op)
    requires op.OpResolveOidc? || op.OpBindVerified?
    ensures AdminsKept(s.db, Step(s, op).state.db)
  {
    hide AdminsKept;
    match op {
      case OpResolveOidc(identity, id, role, claim) =>
        if id !in s.db.accounts && (identity in s.db.bindings ==> Admitted(s.db, s.db.bindings[identity]).None?) {
          ProvisionAdmins(s.db, id, identity, role, true, claim);
          ProvisionAdmins(s.db, id, identity, role, false, claim);
        }
        if identity in s.db.bindings {
          ProfileAdmins(s.db, s.db.bindings[identity], claim);
        }
        SameAdmins(s.db, s.db);
      case OpBindVerified(identity, a) => SameAdmins(s.db, Step(s, op).state.db);
    }
  }

  lemma SameAdmins(x: Db, y: Db)
    requires y.accounts == x.accounts
    requires forall a | a in x.credentials ::
               a in y.credentials && (x.credentials[a].verifier.Some? ==> y.credentials[a].verifier.Some?)
    requires forall i | i in x.bindings :: i in y.bindings && y.bindings[i] == x.bindings[i]
    ensures AdminsKept(x, y)
  {
  }

  lemma ImportAdmins(s: State, username: string, verifier: Option<Digest>)
    ensures AdminsKept(s.db, ImportLegacy(s, username, verifier).state.db)
  {
    hide UsernameTaken;
  }

  lemma GuardedUsable(s: State, op: Op)
    requires op.Guarded() && UsableAdminExists(s.db, s.settings)
    ensures var t := GuardedStep(s, op).state; UsableAdminExists(t.db, t.settings)
  {
    hide EditOf;
    hide UsableAdminExists;
    hide Owned;
    var edit := EditOf(s.db, op);
    if edit.Edited? {
      TouchUsable(edit.db, op.Touched(), if op.OpSetOwnCredential? then op.next else s.settings);
    }
  }

  /** Where a usable Admin exists, one exists after every operation, under the settings then in force: the new
      ones when a credential change was committed with new settings. */
  lemma StepUsable(s: State, op: Op)
    requires UsableAdminExists(s.db, s.settings)
    ensures UsableAdminExists(Step(s, op).state.db, Step(s, op).state.settings)
  {
    hide UsableAdminExists;
    hide GuardedStep;
    hide AdminsKept;
    if op.Guarded() {
      GuardedUsable(s, op);
    } else {
      if op.OpResolveOidc? || op.OpBindVerified? {
        SignInAdmins(s, op);
      } else if op.OpImportLegacy? {
        ImportAdmins(s, op.username, op.verifier);
      } else {
        SameAdmins(s.db, Step(s, op).state.db);
      }
      UsableFrame(s.db, Step(s, op).state.db, s.settings);
    }
  }

  /** A usable Admin, once there is one, is there after every run; and the default Admin is live and an Admin
      throughout. */
  lemma {:induction false} RunUsable(s: State, ops: seq<Op>)
    requires Inv(s) && UsableAdminExists(s.db, s.settings)
    ensures UsableAdminExists(Run(s, ops).db, Run(s, ops).settings)
    ensures var accounts := Run(s, ops).db.accounts;
            DEFAULT_ADMIN in accounts && accounts[DEFAULT_ADMIN].Active() && accounts[DEFAULT_ADMIN].role == Admin
    decreases |ops|
  {
    hide UsableAdminExists;
    hide Step;
    if ops != [] {
      StepInv(s, ops[0]);
      StepUsable(s, ops[0]);
      RunUsable(Step(s, ops[0]).state, ops[1..]);
    }
  }

  // ---- whom an identity means ---------------------------------------------------------------------

  /** Only a completed merge changes whom an identity means, and only for those that meant one of its sources. */
  lemma StepCanonical(s: State, op: Op, x: AccountId)
    requires Inv(s)
    ensures Canonical(Step(s, op).state.db.accounts, x) ==
              if op.OpMerge? && Step(s, op).reply.Done? && Canonical(s.db.accounts, x) in op.sources then op.target
              else Canonical(s.db.accounts, x)
  {
    hide Step;
    hide DbInv;
    hide Canonical;
    if op.OpMerge? {
      MergeTree(s, op.actor, op.sources, op.target);
      if Step(s, op).reply.Done? {
        MergeRedirects(s.db.accounts, Step(s, op).state.db.accounts, Elements(op.sources), op.target, x);
      }
    } else {
      StepTree(s, op);
      SameTreeCanonical(s.db.accounts, Step(s, op).state.db.accounts);
    }
  }

  // ---- withdrawn demand ---------------------------------------------------------------------------

  lemma OwnedAfter(s: State, a: AccountId, y: Account)
    requires a in s.db.accounts && y.mergedInto == s.db.accounts[a].mergedInto
    ensures Owned(s.db.accounts[a := y], a) == Owned(s.db.accounts, a)
  {
    SameTreeCanonical(s.db.accounts, s.db.accounts[a := y]);
  }

  /** What a change makes of the recorded demand. */
  ghost predicate DemandEdited(db: Db, op: Op, y: Db)
    requires op.Guarded()
  {
    && (Retires(op) ==> LiveIn(db, op.account))
    && y.demands == if Retires(op) then WithdrawDemand(db, Owned(db.accounts, op.account)).demands else db.demands
  }

  lemma RetiredDemand(s: State, op: Op)
    requires Retires(op)
    ensures EditOf(s.db, op).Edited? ==> DemandEdited(s.db, op, EditOf(s.db, op).db)
  {
    hide Owned;
    var a := op.account;
    if LiveIn(s.db, a) {
      OwnedAfter(s, a, s.db.accounts[a].(enabled := false));
      OwnedAfter(s, a, s.db.accounts[a].(enabled := false, deleted := true));
    }
  }

  lemma KeptDemand(s: State, op: Op)
    requires op.Guarded() && !Retires(op)
    ensures EditOf(s.db, op).Edited? ==> EditOf(s.db, op).db.demands == s.db.demands
  {
    hide EditOf;
    if op.OpCreateLocal? || op.OpCreateIntegration? {
      CreatedTables(s.db, op);
    } else if op.OpSetOwnCredential? || op.OpResetPassword? || op.OpChangeOwnPassword? {
      CredentialTable(s.db, op);
    } else {
      DirectoryDemand(s.db, op);
    }
  }

  lemma DirectoryDemand(db: Db, op: Op)
    requires (op.OpChangeRole? || op.OpChangeEnabled? || op.OpMerge? || op.OpSetOwnEmail?) && !Retires(op)
    ensures EditOf(db, op).Edited? ==> EditOf(db, op).db.demands == db.demands
  {
    hide Owned;
    hide OneHolder;
  }

  lemma GuardedDemand(s: State, op: Op)
    requires op.Guarded()
    ensures var r := GuardedStep(s, op);
            && (if r.reply.Refused? then r.state == s else DemandEdited(s.db, op, r.state.db))
            && (Retires(op) && !r.reply.Refused? ==>
                  r.reply == Withdrawn(OutstandingTransfers(s.db, Owned(s.db.accounts, op.account))))
  {
    hide EditOf;
    hide Owned;
    hide UsableAdminExists;
    hide OutstandingTransfers;
    if Retires(op) { RetiredDemand(s, op); } else { KeptDemand(s, op); }
  }

  lemma UnguardedDemand(s: State, op: Op, d: int)
    requires !op.Guarded() && d in s.db.demands
    ensures d in Step(s, op).state.db.demands && Step(s, op).state.db.demands[d] == s.db.demands[d]
  {
    hide Owned;
    hide UsernameTaken;
    hide VerifierTaken;
  }

  /** Disabling or removing an account withdraws exactly the outstanding demand that means it; nothing else
      withdraws anything. */
  lemma StepWithdraws(s: State, op: Op, d: int)
    requires Inv(s) && d in s.db.demands && !s.db.demands[d].withdrawn
    ensures d in Step(s, op).state.db.demands
    ensures Step(s, op).state.db.demands[d].withdrawn <==>
              Retires(op) && !Step(s, op).reply.Refused? && Canonical(s.db.accounts, s.db.demands[d].account) == op.account
  {
    hide GuardedStep;
    hide Owned;
    hide Canonical;
    hide DbInv;
    if op.Guarded() {
      GuardedDemand(s, op);
      OwnedPartition(s.db.accounts, s.db.demands[d].account);
    } else {
      UnguardedDemand(s, op, d);
    }
  }

  /** The reply to disabling or removing an account names exactly the transfers of the demand it withdrew. */
  lemma RetiringReply(s: State, op: Op, transfer: nat)
    requires Inv(s) && Retires(op) && !Step(s, op).reply.Refused?
    ensures Step(s, op).reply.Withdrawn?
    ensures transfer in Step(s, op).reply.transfers <==>
              exists d | d in s.db.demands ::
                && s.db.demands[d].transfer == transfer && !s.db.demands[d].withdrawn
                && d in Step(s, op).state.db.demands && Step(s, op).state.db.demands[d].withdrawn
  {
    hide GuardedStep;
    hide Owned;
    hide DbInv;
    GuardedDemand(s, op);
  }

  // ---- external clients ---------------------------------------------------------------------------

  /** A token without a predecessor is a client no earlier token had; a rotated one continues its predecessor's
      client, which then belongs to the same account, and the predecessor no longer authenticates. */
  lemma NewTokenClient(s: State, a: AccountId, t: TokenId, secret: Digest, succeeds: Option<TokenId>)
    requires Inv(s) && CreateToken(s.db, a, t, secret, succeeds).Edited?
    ensures var tokens := CreateToken(s.db, a, t, secret, succeeds).db.tokens;
            && t in tokens && tokens[t].account == a && !tokens[t].revoked
            && (succeeds.None? ==>
                  Client(tokens, t) == t && forall u | u in s.db.tokens :: u in tokens && Client(tokens, u) != Client(tokens, t))
            && (succeeds.Some? ==>
                  && succeeds.value in s.db.tokens && succeeds.value in tokens && tokens[succeeds.value].revoked
                  && Client(tokens, t) == Client(s.db.tokens, succeeds.value)
                  && Canonical(s.db.accounts, s.db.tokens[succeeds.value].account) == a)
  {
    hide VerifierTaken;
    var tokens := CreateToken(s.db, a, t, secret, succeeds).db.tokens;
    if succeeds.Some? {
      OwnedPartition(s.db.accounts, s.db.tokens[succeeds.value].account);
    } else {
      forall u | u in s.db.tokens ensures u in tokens && Client(tokens, u) != t {
        assert Client(s.db.tokens, u) in s.db.tokens;
      }
    }
  }

  /** After any mix of rotations, merges and everything else, two tokens of one client mean one account, and no
      token ever changes its client. */
  lemma RunClients(s: State, ops: seq<Op>, t: TokenId, u: TokenId)
    requires Inv(s) && t in Run(s, ops).db.tokens && u in Run(s, ops).db.tokens
    ensures var db := Run(s, ops).db;
            && (Client(db.tokens, t) == Client(db.tokens, u) ==>
                  Canonical(db.accounts, db.tokens[t].account) == Canonical(db.accounts, db.tokens[u].account))
            && (t in s.db.tokens ==> Client(db.tokens, t) == Client(s.db.tokens, t))
  {
    hide Run;
    hide Canonical;
    RunKeeps(s, ops);
    assert OneOwner(Run(s, ops).db, t, u);
  }

  // ---- sessions -----------------------------------------------------------------------------------

  /** What becomes of a live session of account `a` whose row went from `x` to `y`: a session ends exactly when its
      account's generation moves for another reason than a change of role, which it follows instead. */
  ghost predicate SessionFollows(s: State, t: State, op: Op, k: int)
    requires k in s.sessions && s.sessions[k].account in s.db.accounts && s.sessions[k].account in t.db.accounts
  {
    var x, y := s.db.accounts[s.sessions[k].account], t.db.accounts[s.sessions[k].account];
    if y.generation == x.generation then k in t.sessions && t.sessions[k] == s.sessions[k]
    else if op.OpChangeRole? then
      k in t.sessions && t.sessions[k] == s.sessions[k].(role := op.role, generation := y.generation)
    else k !in t.sessions
  }

  lemma GuardedSessions(s: State, op: Op, k: int)
    requires op.Guarded() && SessionsFresh(s) && k in s.sessions && s.sessions[k].expires > s.clock
    ensures s.sessions[k].account in GuardedStep(s, op).state.db.accounts
    ensures SessionFollows(s, GuardedStep(s, op).state, op, k)
  {
    hide EditOf;
    hide Owned;
    hide UsableAdminExists;
    GuardedRow(s, op, s.sessions[k].account);
    EditRows(s.db, op);
  }

  lemma UnguardedSessions(s: State, op: Op, k: int)
    requires !op.Guarded() && SessionsFresh(s) && k in s.sessions && s.sessions[k].expires > s.clock
    requires !(op.OpEndSession? && op.session == k)
    ensures s.sessions[k].account in Step(s, op).state.db.accounts
    ensures SessionFollows(s, Step(s, op).state, op, k)
  {
    hide UsernameTaken;
    hide Owned;
    hide VerifierTaken;
    UnguardedRow(s, op, s.sessions[k].account);
  }

  /** Every operation but signing the session itself out treats a live session as its account's row demands. */
  lemma StepSessions(s: State, op: Op, k: int)
    requires Inv(s) && k in s.sessions && s.sessions[k].expires > s.clock
    requires !(op.OpEndSession? && op.session == k)
    ensures s.sessions[k].account in Step(s, op).state.db.accounts
    ensures SessionFollows(s, Step(s, op).state, op, k)
  {
    hide GuardedStep;
    hide DbInv;
    hide SessionFollows;
    if op.Guarded() { GuardedSessions(s, op, k); } else { UnguardedSessions(s, op, k); }
  }

  // ---- identities and roles -----------------------------------------------------------------------

  /** The identity is known, and signs nobody in. */
  ghost predicate Quarantined(db: Db, i: Identity) {
    i in db.bindings && Admitted(db, db.bindings[i]).None?
  }

  /** The only operations that let a quarantined identity in again: an Admin enables the account it is bound to,
      or merges that account into an active one. */
  ghost predicate Releases(s: State, op: Op, i: Identity)
    requires i in s.db.bindings
  {
    && !Step(s, op).reply.Refused?
    && ((op.OpChangeEnabled? && op.enabled && op.account == s.db.bindings[i])
        || (op.OpMerge? && s.db.bindings[i] in op.sources && Admitted(s.db, op.target).Some?))
  }

  /** What an edit makes of the bindings, and whom it may concern. */
  ghost predicate BindingsEdited(db: Db, op: Op, y: Db)
    requires op.Guarded()
  {
    && y.bindings == (if op.OpMerge? then FoldBindings(db.bindings, Elements(op.sources), op.target) else db.bindings)
    && (op.OpChangeEnabled? || op.OpRemove? ==> LiveIn(db, op.account))
    && (op.OpMerge? ==> LiveIn(db, op.target) && op.target !in op.sources)
  }

  lemma DirectoryBindings(db: Db, op: Op)
    requires op.OpChangeRole? || op.OpChangeEnabled? || op.OpRemove? || op.OpMerge? || op.OpSetOwnEmail?
    ensures EditOf(db, op).Edited? ==> BindingsEdited(db, op, EditOf(db, op).db)
  {
    hide Owned;
    hide OneHolder;
  }

  /** Only a merge moves a binding within the guard. */
  lemma MovedBindings(db: Db, op: Op)
    requires op.Guarded()
    ensures EditOf(db, op).Edited? ==> BindingsEdited(db, op, EditOf(db, op).db)
  {
    hide EditOf;
    if op.OpCreateLocal? || op.OpCreateIntegration? {
      CreatedTables(db, op);
    } else if op.OpSetOwnCredential? || op.OpResetPassword? || op.OpChangeOwnPassword? {
      CredentialTable(db, op);
    } else {
      DirectoryBindings(db, op);
    }
  }

  lemma MergeQuarantine(s: State, op: Op, i: Identity)
    requires BindingsOwned(s.db) && op.OpMerge? && Quarantined(s.db, i)
    ensures Quarantined(GuardedStep(s, op).state.db, i) <==> !Releases(s, op, i)
  {
    hide EditOf;
    hide Owned;
    hide UsableAdminExists;
    MovedBindings(s.db, op);
    GuardedRow(s, op, s.db.bindings[i]);
    if op.target in s.db.accounts {
      GuardedRow(s, op, op.target);
    }
  }

  lemma GuardedQuarantine(s: State, op: Op, i: Identity)
    requires BindingsOwned(s.db) && op.Guarded() && !op.OpMerge? && Quarantined(s.db, i)
    ensures Quarantined(GuardedStep(s, op).state.db, i) <==> !Releases(s, op, i)
  {
    hide EditOf;
    hide Owned;
    hide UsableAdminExists;
    MovedBindings(s.db, op);
    GuardedRow(s, op, s.db.bindings[i]);
  }

  lemma SignInQuarantine(s: State, op: Op, i: Identity)
    requires (op.OpResolveOidc? || op.OpBindVerified?) && Quarantined(s.db, i)
    requires s.db.bindings[i] in s.db.accounts
    ensures Quarantined(Step(s, op).state.db, i)
  {
    UnguardedRow(s, op, s.db.bindings[i]);
  }

  lemma UnguardedQuarantine(s: State, op: Op, i: Identity)
    requires BindingsOwned(s.db) && !op.Guarded() && Quarantined(s.db, i)
    ensures Quarantined(Step(s, op).state.db, i)
  {
    hide UsernameTaken;
    hide Owned;
    hide VerifierTaken;
    hide ResolveOidc;
    hide BindVerified;
    UnguardedRow(s, op, s.db.bindings[i]);
    if op.OpResolveOidc? || op.OpBindVerified? {
      SignInQuarantine(s, op, i);
    }
  }

  /** A quarantined identity stays so under exactly the operations that do not release it, and whatever it tries
      itself signs it in as nobody. */
  lemma StepQuarantine(s: State, op: Op, i: Identity)
    requires Inv(s) && Quarantined(s.db, i)
    ensures Quarantined(Step(s, op).state.db, i) <==> !Releases(s, op, i)
    ensures op.OpResolveOidc? && op.identity == i ==> Step(s, op).reply in {SignsInAs(None), Refused}
    ensures op.OpBindVerified? && op.identity == i ==> Step(s, op).reply == SignsInAs(None)
  {
    hide GuardedStep;
    if op.OpMerge? {
      MergeQuarantine(s, op, i);
    } else if op.Guarded() {
      GuardedQuarantine(s, op, i);
    } else {
      UnguardedQuarantine(s, op, i);
    }
  }

  /** No operation of the run releases `i`. */
  ghost predicate NeverReleased(s: State, ops: seq<Op>, i: Identity)
    decreases |ops|
  {
    ops != [] ==> (i in s.db.bindings ==> !Releases(s, ops[0], i)) && NeverReleased(Step(s, ops[0]).state, ops[1..], i)
  }

  /** A quarantined identity is shut out through every run, until an Admin releases it. */
  lemma {:induction false} RunQuarantine(s: State, ops: seq<Op>, i: Identity)
    requires Inv(s) && Quarantined(s.db, i) && NeverReleased(s, ops, i)
    ensures Quarantined(Run(s, ops).db, i)
    decreases |ops|
  {
    hide Step;
    hide Inv;
    if ops != [] {
      StepInv(s, ops[0]);
      StepQuarantine(s, ops[0], i);
      RunQuarantine(Step(s, ops[0]).state, ops[1..], i);
    }
  }

  /** Removing an account quarantines its identities. */
  lemma RemovalQuarantines(s: State, actor: AccountId, a: AccountId, i: Identity)
    requires Inv(s) && i in s.db.bindings && s.db.bindings[i] == a && !Step(s, OpRemove(actor, a)).reply.Refused?
    ensures Quarantined(Step(s, OpRemove(actor, a)).state.db, i)
  {
    hide EditOf;
    hide Owned;
    hide UsableAdminExists;
    MovedBindings(s.db, OpRemove(actor, a));
    GuardedRow(s, OpRemove(actor, a), a);
  }

  /** An account becomes an Admin only by being created as one or by a change of role: never by signing in. */
  lemma OnlyAdminsMakeAdmins(s: State, op: Op, a: AccountId)
    ensures var accounts := Step(s, op).state.db.accounts;
            a in accounts && accounts[a].role == Admin ==>
              || (a in s.db.accounts && s.db.accounts[a].role == Admin)
              || (op.OpCreateLocal? && op.id == a && op.role == Admin)
              || (op.OpChangeRole? && op.account == a && op.role == Admin)
  {
    hide GuardedStep;
    if op.Guarded() {
      if a in s.db.accounts { GuardedRow(s, op, a); } else { GuardedNewRow(s, op, a); }
    } else {
      if a in s.db.accounts { UnguardedRow(s, op, a); } else { UnguardedNewRow(s, op, a); }
    }
  }

  /** An identity is provisioned once: its next sign-in finds the account the first one created. */
  lemma ProvisionedOnce(s: State, i: Identity, id: AccountId, role: Role, claim: Claim, id': AccountId, claim': Claim)
    requires i !in s.db.bindings && ResolveOidc(s, i, id, role, claim).reply == SignsInAs(Some(id))
    ensures var first := ResolveOidc(s, i, id, role, claim).state;
            var again := ResolveOidc(first, i, id', role, claim');
            && again.reply == SignsInAs(Some(id)) && again.state.db.accounts.Keys == s.db.accounts.Keys + {id}
            && again.state.db.bindings == s.db.bindings[i := id]
  {
  }

  /** An identity whose account was removed returns once, as a new disabled account, and stays with it. */
  lemma ReturnsDisabledOnce(s: State, i: Identity, id: AccountId, role: Role, claim: Claim, id': AccountId, claim': Claim)
    requires Inv(s) && i in s.db.bindings && s.db.accounts[s.db.bindings[i]].deleted && id !in s.db.accounts
    ensures var first := ResolveOidc(s, i, id, role, claim);
            var again := ResolveOidc(first.state, i, id', role, claim');
            && first.reply == SignsInAs(None) && first.state.db.bindings[i] == id && LiveIn(first.state.db, id)
            && !first.state.db.accounts[id].enabled && first.state.db.accounts[id].role in {User, ReadOnly}
            && again.reply == SignsInAs(None) && again.state == first.state
  {
    hide TokenOwners;
  }
}
